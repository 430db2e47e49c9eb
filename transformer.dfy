/**
 * The transformer of my-demo.js (my-demo.js:246-336): a pre-order traversal of
 * the source tree whose `enter` visitors append target nodes to the
 * `_context` array of their parent.
 *
 * The `_context` link is an explicit accumulator here: `TraverseNode` and
 * `TraverseArray` take the array their nodes are appended to and return it
 * extended. `TransformNode` is the specification they follow, and
 * `TransformCharacterization` pins the output down by its inverse `Restore`.
 */
module Transformer {
  import opened Wrappers
  import S = SourceAst
  import T = TargetAst

  /** What the `enter` visitor sees of its parent: the program, or a call. */
  datatype Parent = ProgramParent | CallParent

  /** The node the visitor for `n` appends to its parent's context (my-demo.js:291-333). */
  function TransformNode(n: S.Node, parent: Parent): T.Node {
    match n
    case NumberLiteral(v) => T.NumberLiteral(v)
    case StringLiteral(v) => T.StringLiteral(v)
    case CallExpression(name, params) =>
      var expression := T.CallExpression(T.Identifier(name), TransformAll(params, CallParent));
      if parent == CallParent then expression else T.ExpressionStatement(expression)
  }

  /** What `traverseArray(ns, parent)` appends to the parent's context, in order. */
  function TransformAll(ns: seq<S.Node>, parent: Parent): seq<T.Node> {
    if ns == [] then [] else [TransformNode(ns[0], parent)] + TransformAll(ns[1..], parent)
  }

  /** `transformer(ast)` */
  function Transform(ast: S.Program): T.Node {
    T.Program(TransformAll(ast.body, ProgramParent))
  }

  /**
   * `traverseNode(node, parent)` (my-demo.js:255-279) with the visitor of
   * my-demo.js:291-333; `context` is `parent._context`.
   */
  method TraverseNode(node: S.Node, parent: Parent, context: seq<T.Node>) returns (result: seq<T.Node>)
    ensures result == context + [TransformNode(node, parent)]
    decreases node, 0
  {
    match node {
      case NumberLiteral(v) =>
        result := context + [T.NumberLiteral(v)];
      case StringLiteral(v) =>
        result := context + [T.StringLiteral(v)];
      case CallExpression(name, params) =>
        var arguments := TraverseArray(params, CallParent, []);
        assert arguments == TransformAll(params, CallParent);
        var expression := T.CallExpression(T.Identifier(name), arguments);
        if parent != CallParent {
          expression := T.ExpressionStatement(expression);
        }
        result := context + [expression];
    }
  }

  /** `traverseArray(array, parent)` (my-demo.js:251-253): `forEach` child, in order. */
  method TraverseArray(nodes: seq<S.Node>, parent: Parent, context: seq<T.Node>) returns (result: seq<T.Node>)
    ensures result == context + TransformAll(nodes, parent)
    decreases nodes, 1
  {
    result := context;
    for i := 0 to |nodes|
      invariant context + TransformAll(nodes, parent) == result + TransformAll(nodes[i..], parent)
    {
      assert nodes[i..][1..] == nodes[i + 1..];
      result := TraverseNode(nodes[i], parent, result);
    }
    assert nodes[|nodes|..] == [];
  }

  /** `transformer(ast)` (my-demo.js:246-336): the new program collects the traversal of the body. */
  method Transformer(ast: S.Program) returns (newAst: T.Node)
    ensures newAst == Transform(ast)
  {
    var body := TraverseArray(ast.body, ProgramParent, []);
    newAst := T.Program(body);
  }

  // ---------------------------------------------------------------------------
  // The inverse: which target trees the transformer builds, and from what.
  // ---------------------------------------------------------------------------

  /**
   * The source node a target node was built from, given its parent: literals
   * anywhere, a call with an `Identifier` callee wrapped in an
   * `ExpressionStatement` exactly when its parent is the program.
   */
  function RestoreNode(t: T.Node, parent: Parent): Option<S.Node> {
    match t
    case NumberLiteral(v) => Some(S.NumberLiteral(v))
    case StringLiteral(v) => Some(S.StringLiteral(v))
    case ExpressionStatement(CallExpression(Identifier(name), arguments)) =>
      if parent == CallParent then None
      else
        (match RestoreAll(arguments, CallParent)
         case Some(params) => Some(S.CallExpression(name, params))
         case None => None)
    case CallExpression(Identifier(name), arguments) =>
      if parent == ProgramParent then None
      else
        (match RestoreAll(arguments, CallParent)
         case Some(params) => Some(S.CallExpression(name, params))
         case None => None)
    case _ => None
  }

  function RestoreAll(ts: seq<T.Node>, parent: Parent): Option<seq<S.Node>> {
    if ts == [] then Some([])
    else
      match (RestoreNode(ts[0], parent), RestoreAll(ts[1..], parent))
      case (Some(n), Some(ns)) => Some([n] + ns)
      case _ => None
  }

  function RestoreProgram(t: T.Node): Option<S.Program> {
    match t
    case Program(body) =>
      (match RestoreAll(body, ProgramParent)
       case Some(ns) => Some(S.Program(ns))
       case None => None)
    case _ => None
  }

  lemma {:induction false} RestoreTransformNode(n: S.Node, parent: Parent)
    ensures RestoreNode(TransformNode(n, parent), parent) == Some(n)
    decreases n, 1
  {
    match n {
      case CallExpression(name, params) =>
        RestoreTransformAll(params, CallParent);
      case _ =>
    }
  }

  lemma {:induction false} RestoreTransformAll(ns: seq<S.Node>, parent: Parent)
    ensures RestoreAll(TransformAll(ns, parent), parent) == Some(ns)
    decreases ns, 0
  {
    if ns != [] {
      var ts := TransformAll(ns, parent);
      assert ts[0] == TransformNode(ns[0], parent) && ts[1..] == TransformAll(ns[1..], parent);
      RestoreTransformNode(ns[0], parent);
      RestoreTransformAll(ns[1..], parent);
      assert ns == [ns[0]] + ns[1..];
    }
  }

  lemma {:induction false} TransformRestoreNode(t: T.Node, parent: Parent)
    requires RestoreNode(t, parent).Some?
    ensures TransformNode(RestoreNode(t, parent).value, parent) == t
    decreases t, 1
  {
    match t {
      case ExpressionStatement(e) =>
        match e {
          case CallExpression(callee, arguments) =>
            TransformRestoreAll(arguments, CallParent);
        }
      case CallExpression(callee, arguments) =>
        TransformRestoreAll(arguments, CallParent);
      case _ =>
    }
  }

  lemma {:induction false} TransformRestoreAll(ts: seq<T.Node>, parent: Parent)
    requires RestoreAll(ts, parent).Some?
    ensures TransformAll(RestoreAll(ts, parent).value, parent) == ts
    decreases ts, 0
  {
    if ts != [] {
      var ns := RestoreAll(ts, parent).value;
      TransformRestoreNode(ts[0], parent);
      TransformRestoreAll(ts[1..], parent);
      assert ns[0] == RestoreNode(ts[0], parent).value && ns[1..] == RestoreAll(ts[1..], parent).value;
      assert ts == [ts[0]] + ts[1..];
    }
  }

  /**
   * `transformer` builds `t` from `ast` exactly when `t` restores to `ast`: the
   * output is a program whose body mirrors the input body element by element,
   * each top-level call wrapped in an `ExpressionStatement`, nested calls bare
   * in their parent's `arguments`, every `callee` the `Identifier` of the
   * call's name, `arguments` mirroring `params` in order, and literals copied.
   */
  lemma {:induction false} TransformCharacterization(ast: S.Program, t: T.Node)
    ensures Transform(ast) == t <==> RestoreProgram(t) == Some(ast)
  {
    RestoreTransformAll(ast.body, ProgramParent);
    if RestoreProgram(t) == Some(ast) {
      TransformRestoreAll(t.body, ProgramParent);
    }
  }

  /** The argument nesting of the output equals the call nesting of the input. */
  lemma {:induction false} TransformPreservesDepth(n: S.Node, parent: Parent)
    ensures T.ArgumentDepth(TransformNode(n, parent)) == S.CallDepth(n)
    decreases n, 1
  {
    match n {
      case CallExpression(name, params) =>
        TransformAllPreservesDepth(params, CallParent);
      case _ =>
    }
  }

  lemma {:induction false} TransformAllPreservesDepth(ns: seq<S.Node>, parent: Parent)
    ensures T.MaxArgumentDepth(TransformAll(ns, parent)) == S.MaxCallDepth(ns)
    decreases ns, 0
  {
    if ns != [] {
      var ts := TransformAll(ns, parent);
      assert ts[0] == TransformNode(ns[0], parent) && ts[1..] == TransformAll(ns[1..], parent);
      TransformPreservesDepth(ns[0], parent);
      TransformAllPreservesDepth(ns[1..], parent);
    }
  }

  /** The same for a whole program. */
  lemma {:induction false} TransformProgramPreservesDepth(ast: S.Program)
    ensures T.ArgumentDepth(Transform(ast)) == S.MaxCallDepth(ast.body)
  {
    TransformAllPreservesDepth(ast.body, ProgramParent);
  }
}
