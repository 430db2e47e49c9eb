/**
 * The Lisp-like text of a source tree, written the way test.js:10 writes it:
 * parameters after the name, each preceded by one space. The tokenizer and
 * parser of my-demo.js invert it on every tree whose names and literals are
 * ones the tokenizer can produce (`TokenizeRendered`, `ParseRendered`).
 */
module Render {
  import opened Wrappers
  import opened Tokens
  import opened SourceAst
  import opened Lexer
  import opened Parser

  function RenderNode(n: Node): string {
    match n
    case NumberLiteral(v) => v
    case StringLiteral(v) => "\"" + v + "\""
    case CallExpression(name, params) => "(" + name + RenderParams(params) + ")"
  }

  /** Each parameter preceded by one space. */
  function RenderParams(ns: seq<Node>): string {
    if ns == [] then "" else " " + RenderNode(ns[0]) + RenderParams(ns[1..])
  }

  /** The top-level expressions separated by one space. */
  function RenderProgram(p: Program): string {
    if p.body == [] then "" else RenderNode(p.body[0]) + RenderParams(p.body[1..])
  }

  /** Every literal and name is a value the tokenizer can produce. */
  predicate ValidNode(n: Node) {
    match n
    case NumberLiteral(v) => WellFormed(Token(NumberToken, v))
    case StringLiteral(v) => WellFormed(Token(StringToken, v))
    case CallExpression(name, params) => WellFormed(Token(NameToken, name)) && ValidAll(params)
  }

  predicate ValidAll(ns: seq<Node>) {
    ns == [] || (ValidNode(ns[0]) && ValidAll(ns[1..]))
  }

  predicate ValidProgram(p: Program) {
    ValidAll(p.body)
  }

  // ---------------------------------------------------------------------------
  // Tokenizing rendered text.
  // ---------------------------------------------------------------------------

  /** Two stretches of tokens scanned one after the other. */
  lemma {:induction false} Chain<E>(a: Result<seq<Token>, E>, b: Result<seq<Token>, E>, c: Result<seq<Token>, E>,
                                    x: seq<Token>, y: seq<Token>)
    requires a == Prepend(x, b) && b == Prepend(y, c)
    ensures a == Prepend(x + y, c)
  {
    if c.Ok? {
      assert x + (y + c.value) == (x + y) + c.value;
    }
  }

  /** The four stretches of a call: its parenthesis, its name, its parameters, its closing parenthesis. */
  lemma {:induction false} ChainCall<E>(t0: Result<seq<Token>, E>, t1: Result<seq<Token>, E>, t2: Result<seq<Token>, E>,
                                        t3: Result<seq<Token>, E>, t4: Result<seq<Token>, E>, name: Token, x: seq<Token>)
    requires t0 == Prepend([OpenParen], t1) && t1 == Prepend([name], t2)
    requires t2 == Prepend(x, t3) && t3 == Prepend([CloseParen], t4)
    ensures t0 == Prepend([OpenParen, name] + x + [CloseParen], t4)
  {
    Chain(t0, t1, t2, [OpenParen], [name]);
    assert [OpenParen] + [name] == [OpenParen, name];
    Chain(t0, t2, t3, [OpenParen, name], x);
    Chain(t0, t3, t4, [OpenParen, name] + x, [CloseParen]);
  }

  /** What may follow a rendered expression. */
  predicate Follows(rest: string) {
    rest == [] || rest[0] == ' ' || rest[0] == ')'
  }

  lemma {:induction false} TokenizeRenderedNode(s: string, i: nat, j: nat, n: Node, rest: string)
    requires ValidNode(n) && Follows(rest)
    requires i <= |s| && s[i..] == RenderNode(n) + rest && j == i + |RenderNode(n)|
    ensures j <= |s| && TokenizeFrom(s, i) == Prepend(Flatten(n), TokenizeFrom(s, j))
    decreases n, 2
  {
    match n {
      case NumberLiteral(v) =>
        TokenStep(s, i, j, Token(NumberToken, v), rest);
      case StringLiteral(v) =>
        TokenStep(s, i, j, Token(StringToken, v), rest);
      case CallExpression(name, params) =>
        TokenizeRenderedCall(s, i, j, name, params, rest);
    }
  }

  lemma {:induction false} TokenizeRenderedCall(s: string, i: nat, end: nat, name: string, params: seq<Node>, rest: string)
    requires ValidNode(CallExpression(name, params))
    requires i <= |s| && s[i..] == RenderNode(CallExpression(name, params)) + rest
    requires end == i + |RenderNode(CallExpression(name, params))|
    ensures end <= |s| && TokenizeFrom(s, i) == Prepend(Flatten(CallExpression(name, params)), TokenizeFrom(s, end))
    decreases params, 1
  {
    var nameToken := Token(NameToken, name);
    var inner := RenderParams(params);
    var after := inner + (")" + rest);
    var j := i + 1 + |name|;
    var k := j + |inner|;
    assert |Lexeme(OpenParen)| == 1 && Lexeme(nameToken) == name && |Lexeme(CloseParen)| == 1;
    assert s[i..] == Lexeme(OpenParen) + (name + after);
    TokenStep(s, i, i + 1, OpenParen, name + after);
    Suffix(s, i, i + 1, Lexeme(OpenParen), name + after);
    assert Delimits(nameToken, after) by {
      assert inner == [] || inner[0] == ' ';
    }
    TokenStep(s, i + 1, j, nameToken, after);
    Suffix(s, i + 1, j, name, after);
    TokenizeRenderedParams(s, j, k, params, ")" + rest);
    Suffix(s, j, k, inner, ")" + rest);
    TokenStep(s, k, end, CloseParen, rest);
    ChainCall(TokenizeFrom(s, i), TokenizeFrom(s, i + 1), TokenizeFrom(s, j), TokenizeFrom(s, k),
              TokenizeFrom(s, end), nameToken, FlattenSeq(params));
  }

  lemma {:induction false} TokenizeRenderedParams(s: string, i: nat, end: nat, ns: seq<Node>, rest: string)
    requires ValidAll(ns) && Follows(rest)
    requires i <= |s| && s[i..] == RenderParams(ns) + rest && end == i + |RenderParams(ns)|
    ensures end <= |s| && TokenizeFrom(s, i) == Prepend(FlattenSeq(ns), TokenizeFrom(s, end))
    decreases ns, 0
  {
    if ns == [] {
      PrependNothing(TokenizeFrom(s, i));
    } else {
      var head := RenderNode(ns[0]);
      var tail := RenderParams(ns[1..]);
      var j := i + 1 + |head|;
      assert s[i..] == " " + (head + (tail + rest));
      assert s[i..i + 1] == " ";
      SkipWhitespace(s, i, " ");
      Suffix(s, i, i + 1, " ", head + (tail + rest));
      assert Follows(tail + rest);
      TokenizeRenderedNode(s, i + 1, j, ns[0], tail + rest);
      Suffix(s, i + 1, j, head, tail + rest);
      TokenizeRenderedParams(s, j, end, ns[1..], rest);
      Chain(TokenizeFrom(s, i + 1), TokenizeFrom(s, j), TokenizeFrom(s, end), Flatten(ns[0]), FlattenSeq(ns[1..]));
    }
  }

  /** The tokens of a rendered program are the program's own, in order. */
  lemma {:induction false} TokenizeRendered(p: Program)
    requires ValidProgram(p)
    ensures Tokenize(RenderProgram(p)) == Ok(FlattenSeq(p.body))
  {
    var s := RenderProgram(p);
    var ns := p.body;
    if ns != [] {
      var j := |RenderNode(ns[0])|;
      assert s[0..] == RenderNode(ns[0]) + RenderParams(ns[1..]);
      TokenizeRenderedNode(s, 0, j, ns[0], RenderParams(ns[1..]));
      assert s[j..] == RenderParams(ns[1..]) + [];
      TokenizeRenderedParams(s, j, |s|, ns[1..], []);
      Chain(TokenizeFrom(s, 0), TokenizeFrom(s, j), TokenizeFrom(s, |s|), Flatten(ns[0]), FlattenSeq(ns[1..]));
      assert FlattenSeq(ns[1..]) + [] == FlattenSeq(ns[1..]);
    }
  }

  /** Tokenizing and parsing a rendered program gives the program back. */
  lemma {:induction false} ParseRendered(p: Program)
    requires ValidProgram(p)
    ensures Tokenize(RenderProgram(p)).Ok?
    ensures Parse(Tokenize(RenderProgram(p)).value) == Ok(p)
  {
    TokenizeRendered(p);
    ParseFlatten(p);
  }
}
