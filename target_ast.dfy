/** The tree the transformer builds and the code generator prints (my-demo.js:69-104). */
module TargetAst {

  /**
   * A node of the transformed tree; `callee` holds an `Identifier` and
   * `ExpressionStatement` wraps a call written at the top level.
   */
  datatype Node =
    | Program(body: seq<Node>)
    | ExpressionStatement(expression: Node)
    | CallExpression(callee: Node, arguments: seq<Node>)
    | Identifier(name: string)
    | NumberLiteral(value: string)
    | StringLiteral(value: string)

  /** How deeply calls are nested as arguments; statements add no depth. */
  function ArgumentDepth(n: Node): nat {
    match n
    case CallExpression(_, arguments) => 1 + MaxArgumentDepth(arguments)
    case ExpressionStatement(e) => ArgumentDepth(e)
    case Program(body) => MaxArgumentDepth(body)
    case _ => 0
  }

  function MaxArgumentDepth(ns: seq<Node>): nat {
    if ns == [] then 0
    else
      var d := ArgumentDepth(ns[0]);
      var e := MaxArgumentDepth(ns[1..]);
      if d < e then e else d
  }
}
