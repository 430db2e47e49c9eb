/** The tree the parsers build (my-demo.js:30-53, my-demo.js:188-244). */
module SourceAst {

  /** An expression node: a literal or a call `{ type: 'CallExpression', name, params }`. */
  datatype Node =
    | NumberLiteral(value: string)
    | StringLiteral(value: string)
    | CallExpression(name: string, params: seq<Node>)

  /** `{ type: 'Program', body }` */
  datatype Program = Program(body: seq<Node>)

  /** How deeply calls are nested in a node: 0 for a literal. */
  function CallDepth(n: Node): nat {
    match n
    case CallExpression(_, params) => 1 + MaxCallDepth(params)
    case _ => 0
  }

  function MaxCallDepth(ns: seq<Node>): nat {
    if ns == [] then 0
    else
      var d := CallDepth(ns[0]);
      var e := MaxCallDepth(ns[1..]);
      if d < e then e else d
  }
}
