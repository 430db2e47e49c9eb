/**
 * The parser of my-demo.js (my-demo.js:188-244): recursive descent over the
 * token list with one cursor `current` shared by every call of `walk`.
 *
 * `ParseExpr`, `ParseParams` and `ParseBody` are the specification, one
 * function per loop of the source; the class `Walker` holds the shared cursor
 * and its `Walk` is proved to follow `ParseExpr`. `ParseCharacterization`
 * says exactly which token lists parse to which program.
 */
module Parser {
  import opened Wrappers
  import opened Tokens
  import opened SourceAst

  /**
   * Why parsing fails: `throw new TypeError(token.type)` at a token that cannot
   * start an expression (my-demo.js:231), or the `TypeError` of reading a field
   * of `undefined` once the cursor has run past the last token.
   */
  datatype ParseError = UnexpectedToken(token: Token, pos: nat) | UnexpectedEnd

  predicate IsOpen(t: Token) {
    t.kind == ParenToken && t.value == "("
  }

  predicate IsClose(t: Token) {
    t.kind == ParenToken && t.value == ")"
  }

  /**
   * One call of `walk` with the cursor at `i` (my-demo.js:192-232): the node it
   * returns and where it leaves the cursor.
   */
  function ParseExpr(toks: seq<Token>, i: nat): (r: Result<(Node, nat), ParseError>)
    ensures r.Ok? ==> i < r.value.1 <= |toks|
    decreases |toks| - i, 0
  {
    if i >= |toks| then Err(UnexpectedEnd)
    else
      var t := toks[i];
      if t.kind == NumberToken then Ok((NumberLiteral(t.value), i + 1))
      else if t.kind == StringToken then Ok((StringLiteral(t.value), i + 1))
      else if IsOpen(t) then
        if i + 1 >= |toks| then Err(UnexpectedEnd)
        else
          var params :- ParseParams(toks, i + 2);
          Ok((CallExpression(toks[i + 1].value, params.0), params.1))
      else Err(UnexpectedToken(t, i))
  }

  /**
   * The `params` loop of a call with the cursor at `i` (my-demo.js:219-226):
   * sub-expressions up to the closing parenthesis, and the cursor past it.
   */
  function ParseParams(toks: seq<Token>, i: nat): (r: Result<(seq<Node>, nat), ParseError>)
    ensures r.Ok? ==> i < r.value.1 <= |toks|
    decreases |toks| - i, 1
  {
    if i >= |toks| then Err(UnexpectedEnd)
    else if IsClose(toks[i]) then Ok(([], i + 1))
    else
      var first :- ParseExpr(toks, i);
      var rest :- ParseParams(toks, first.1);
      Ok(([first.0] + rest.0, rest.1))
  }

  /** The `ast.body` loop from cursor `i` (my-demo.js:239-241). */
  function ParseBody(toks: seq<Token>, i: nat): Result<seq<Node>, ParseError>
    decreases |toks| - i
  {
    if i >= |toks| then Ok([])
    else
      var first :- ParseExpr(toks, i);
      var rest :- ParseBody(toks, first.1);
      Ok([first.0] + rest)
  }

  /** `parser(tokens)` */
  function Parse(toks: seq<Token>): Result<Program, ParseError> {
    var body :- ParseBody(toks, 0);
    Ok(Program(body))
  }

  /** Parameters already pushed, followed by those still to come. */
  function PrependParams(prefix: seq<Node>, r: Result<(seq<Node>, nat), ParseError>): Result<(seq<Node>, nat), ParseError> {
    match r
    case Ok(res) => Ok((prefix + res.0, res.1))
    case Err(e) => Err(e)
  }

  /** Body elements already pushed, followed by those still to come. */
  function PrependBody(prefix: seq<Node>, r: Result<seq<Node>, ParseError>): Result<seq<Node>, ParseError> {
    match r
    case Ok(ns) => Ok(prefix + ns)
    case Err(e) => Err(e)
  }

  /** One iteration of the `params` loop moves one parameter into the prefix. */
  lemma {:induction false} ParamsStep(toks: seq<Token>, i: nat, prefix: seq<Node>)
    requires i < |toks| && !IsClose(toks[i])
    ensures PrependParams(prefix, ParseParams(toks, i)) ==
      match ParseExpr(toks, i)
      case Ok(res) => PrependParams(prefix + [res.0], ParseParams(toks, res.1))
      case Err(e) => Err(e)
  {
    if ParseExpr(toks, i).Ok? {
      var res := ParseExpr(toks, i).value;
      if ParseParams(toks, res.1).Ok? {
        var rest := ParseParams(toks, res.1).value.0;
        assert prefix + ([res.0] + rest) == (prefix + [res.0]) + rest;
      }
    }
  }

  lemma {:induction false} BodyStep(toks: seq<Token>, i: nat, prefix: seq<Node>)
    requires i < |toks|
    ensures PrependBody(prefix, ParseBody(toks, i)) ==
      match ParseExpr(toks, i)
      case Ok(res) => PrependBody(prefix + [res.0], ParseBody(toks, res.1))
      case Err(e) => Err(e)
  {
    if ParseExpr(toks, i).Ok? {
      var res := ParseExpr(toks, i).value;
      if ParseBody(toks, res.1).Ok? {
        var rest := ParseBody(toks, res.1).value;
        assert prefix + ([res.0] + rest) == (prefix + [res.0]) + rest;
      }
    }
  }

  /** The token list and the cursor that `walk` shares with `parser`. */
  class Walker {
    const tokens: seq<Token>
    var current: nat

    constructor (tokens: seq<Token>)
      ensures this.tokens == tokens && current == 0
    {
      this.tokens := tokens;
      current := 0;
    }

    /** `walk()` (my-demo.js:192-232): parses one expression and moves the cursor past it. */
    method Walk() returns (r: Result<Node, ParseError>)
      modifies this
      ensures match ParseExpr(tokens, old(current))
        case Ok(res) => r == Ok(res.0) && current == res.1
        case Err(e) => r == Err(e)
      decreases |tokens| - current
    {
      if current >= |tokens| {
        return Err(UnexpectedEnd);
      }
      ghost var start := current;
      var token := tokens[current];
      if token.kind == NumberToken {
        current := current + 1;
        return Ok(NumberLiteral(token.value));
      }
      if token.kind == StringToken {
        current := current + 1;
        return Ok(StringLiteral(token.value));
      }
      if token.kind == ParenToken && token.value == "(" {
        current := current + 1;
        if current >= |tokens| {
          return Err(UnexpectedEnd);
        }
        token := tokens[current];
        var name := token.value;
        var params: seq<Node> := [];
        current := current + 1;
        if current >= |tokens| {
          return Err(UnexpectedEnd);
        }
        token := tokens[current];
        assert PrependParams([], ParseParams(tokens, current)) == ParseParams(tokens, current) by {
          if ParseParams(tokens, current).Ok? {
            assert [] + ParseParams(tokens, current).value.0 == ParseParams(tokens, current).value.0;
          }
        }
        while token.kind != ParenToken || token.value != ")"
          invariant start + 2 <= current < |tokens| && token == tokens[current]
          invariant ParseParams(tokens, start + 2) == PrependParams(params, ParseParams(tokens, current))
          decreases |tokens| - current
        {
          ParamsStep(tokens, current, params);
          var child := Walk();
          if child.Err? {
            return Err(child.error);
          }
          params := params + [child.value];
          if current >= |tokens| {
            return Err(UnexpectedEnd);
          }
          token := tokens[current];
        }
        assert params + [] == params;
        current := current + 1;
        return Ok(CallExpression(name, params));
      }
      return Err(UnexpectedToken(token, current));
    }
  }

  /** `parser(tokens)` (my-demo.js:188-244). */
  method ParseTokens(tokens: seq<Token>) returns (r: Result<Program, ParseError>)
    ensures r == Parse(tokens)
  {
    var walker := new Walker(tokens);
    var body: seq<Node> := [];
    assert PrependBody([], ParseBody(tokens, 0)) == ParseBody(tokens, 0) by {
      if ParseBody(tokens, 0).Ok? {
        assert [] + ParseBody(tokens, 0).value == ParseBody(tokens, 0).value;
      }
    }
    while walker.current < |tokens|
      invariant walker.tokens == tokens
      invariant ParseBody(tokens, 0) == PrependBody(body, ParseBody(tokens, walker.current))
      decreases |tokens| - walker.current
    {
      BodyStep(tokens, walker.current, body);
      var node := walker.Walk();
      if node.Err? {
        return Err(node.error);
      }
      body := body + [node.value];
    }
    assert body + [] == body;
    return Ok(Program(body));
  }

  // ---------------------------------------------------------------------------
  // Which token lists parse to which program.
  // ---------------------------------------------------------------------------

  /** The tokens of a node in source order: the canonical input it parses from. */
  function Flatten(n: Node): seq<Token> {
    match n
    case NumberLiteral(v) => [Token(NumberToken, v)]
    case StringLiteral(v) => [Token(StringToken, v)]
    case CallExpression(name, params) =>
      [OpenParen, Token(NameToken, name)] + FlattenSeq(params) + [CloseParen]
  }

  function FlattenSeq(ns: seq<Node>): seq<Token> {
    if ns == [] then [] else Flatten(ns[0]) + FlattenSeq(ns[1..])
  }

  /**
   * `actual` can stand where `Flatten` puts `expected`: same value, and same
   * kind except in the call-name place, whose kind is never looked at.
   */
  predicate TokenMatches(actual: Token, expected: Token) {
    actual.value == expected.value && (expected.kind == NameToken || actual.kind == expected.kind)
  }

  /** The tokens from `i` on begin with tokens matching `expected`. */
  predicate AgreesAt(toks: seq<Token>, i: nat, expected: seq<Token>) {
    i + |expected| <= |toks| && forall k :: 0 <= k < |expected| ==> TokenMatches(toks[i + k], expected[k])
  }

  /** `toks` matches `expected` token by token. */
  predicate Agrees(toks: seq<Token>, expected: seq<Token>) {
    |toks| == |expected| && AgreesAt(toks, 0, expected)
  }

  lemma {:induction false} AgreesAtConcat(toks: seq<Token>, i: nat, a: seq<Token>, b: seq<Token>)
    ensures AgreesAt(toks, i, a + b) <==> AgreesAt(toks, i, a) && AgreesAt(toks, i + |a|, b)
  {
    if AgreesAt(toks, i, a) && AgreesAt(toks, i + |a|, b) {
      forall k | 0 <= k < |a + b| ensures TokenMatches(toks[i + k], (a + b)[k]) {
        if k < |a| {
          assert (a + b)[k] == a[k];
        } else {
          assert (a + b)[k] == b[k - |a|] && toks[i + k] == toks[i + |a| + (k - |a|)];
        }
      }
    }
    if AgreesAt(toks, i, a + b) {
      forall k | 0 <= k < |a| ensures TokenMatches(toks[i + k], a[k]) {
        assert (a + b)[k] == a[k];
      }
      forall k | 0 <= k < |b| ensures TokenMatches(toks[i + |a| + k], b[k]) {
        assert (a + b)[|a| + k] == b[k];
      }
    }
  }

  lemma {:induction false} FlattenSeqCons(n: Node, ns: seq<Node>)
    ensures FlattenSeq([n] + ns) == Flatten(n) + FlattenSeq(ns)
  {
    assert ([n] + ns)[0] == n && ([n] + ns)[1..] == ns;
  }

  /** A node's tokens begin with a number, a string or an opening parenthesis. */
  lemma {:induction false} FlattenStart(n: Node)
    ensures |Flatten(n)| >= 1
    ensures var t := Flatten(n)[0];
      t.kind == NumberToken || t.kind == StringToken || t == OpenParen
  {
    match n {
      case CallExpression(name, params) =>
        assert Flatten(n) == [OpenParen] + ([Token(NameToken, name)] + FlattenSeq(params) + [CloseParen]);
      case _ =>
    }
  }

  lemma {:induction false} CallTokens(name: string, params: seq<Node>)
    ensures Flatten(CallExpression(name, params)) ==
      [OpenParen, Token(NameToken, name)] + (FlattenSeq(params) + [CloseParen])
  {
  }

  /** Completeness for one expression: tokens matching `Flatten(n)` at `i` parse to `n`. */
  lemma {:induction false} ParseExprOfAgreeing(toks: seq<Token>, i: nat, n: Node)
    requires AgreesAt(toks, i, Flatten(n))
    ensures ParseExpr(toks, i) == Ok((n, i + |Flatten(n)|))
    decreases n, 1
  {
    assert TokenMatches(toks[i], Flatten(n)[0]);
    match n {
      case NumberLiteral(v) =>
      case StringLiteral(v) =>
      case CallExpression(name, params) =>
        CallTokens(name, params);
        var head: seq<Token> := [OpenParen, Token(NameToken, name)];
        AgreesAtConcat(toks, i, head, FlattenSeq(params) + [CloseParen]);
        assert TokenMatches(toks[i + 1], head[1]);
        ParseParamsOfAgreeing(toks, i + 2, params);
    }
  }

  /** Completeness for the parameters of a call, up to and including its `)`. */
  lemma {:induction false} ParseParamsOfAgreeing(toks: seq<Token>, i: nat, ns: seq<Node>)
    requires AgreesAt(toks, i, FlattenSeq(ns) + [CloseParen])
    ensures ParseParams(toks, i) == Ok((ns, i + |FlattenSeq(ns)| + 1))
    decreases ns, 0
  {
    if ns == [] {
      assert TokenMatches(toks[i + 0], (FlattenSeq(ns) + [CloseParen])[0]);
      assert (FlattenSeq(ns) + [CloseParen])[0] == CloseParen;
    } else {
      var n := ns[0];
      FlattenSeqCons(n, ns[1..]);
      assert ns == [n] + ns[1..];
      assert FlattenSeq(ns) + [CloseParen] == Flatten(n) + (FlattenSeq(ns[1..]) + [CloseParen]);
      AgreesAtConcat(toks, i, Flatten(n), FlattenSeq(ns[1..]) + [CloseParen]);
      FlattenStart(n);
      assert TokenMatches(toks[i], Flatten(n)[0]);
      assert !IsClose(toks[i]);
      ParseExprOfAgreeing(toks, i, n);
      ParseParamsOfAgreeing(toks, i + |Flatten(n)|, ns[1..]);
    }
  }

  /** Completeness for a program body. */
  lemma {:induction false} ParseBodyOfAgreeing(toks: seq<Token>, i: nat, ns: seq<Node>)
    requires AgreesAt(toks, i, FlattenSeq(ns)) && i + |FlattenSeq(ns)| == |toks|
    ensures ParseBody(toks, i) == Ok(ns)
    decreases ns
  {
    if ns != [] {
      var n := ns[0];
      FlattenSeqCons(n, ns[1..]);
      assert ns == [n] + ns[1..];
      AgreesAtConcat(toks, i, Flatten(n), FlattenSeq(ns[1..]));
      ParseExprOfAgreeing(toks, i, n);
      ParseBodyOfAgreeing(toks, i + |Flatten(n)|, ns[1..]);
    }
  }

  /** Soundness for one expression: what `walk` consumed matches the tokens of its node. */
  lemma {:induction false} AgreeingOfParseExpr(toks: seq<Token>, i: nat)
    requires ParseExpr(toks, i).Ok?
    ensures var (n, j) := ParseExpr(toks, i).value; AgreesAt(toks, i, Flatten(n)) && j == i + |Flatten(n)|
    decreases |toks| - i, 0
  {
    var (n, j) := ParseExpr(toks, i).value;
    if toks[i].kind == NumberToken || toks[i].kind == StringToken {
      assert TokenMatches(toks[i + 0], Flatten(n)[0]);
    } else {
      var name := toks[i + 1].value;
      var params := ParseParams(toks, i + 2).value.0;
      assert n == CallExpression(name, params);
      AgreeingOfParseParams(toks, i + 2);
      CallTokens(name, params);
      var head: seq<Token> := [OpenParen, Token(NameToken, name)];
      assert AgreesAt(toks, i, head) by {
        assert TokenMatches(toks[i + 0], head[0]) && TokenMatches(toks[i + 1], head[1]);
      }
      AgreesAtConcat(toks, i, head, FlattenSeq(params) + [CloseParen]);
    }
  }

  /** Soundness for the parameters of a call, up to and including its `)`. */
  lemma {:induction false} AgreeingOfParseParams(toks: seq<Token>, i: nat)
    requires ParseParams(toks, i).Ok?
    ensures var (ns, j) := ParseParams(toks, i).value;
      AgreesAt(toks, i, FlattenSeq(ns) + [CloseParen]) && j == i + |FlattenSeq(ns)| + 1
    decreases |toks| - i, 1
  {
    var (ns, j) := ParseParams(toks, i).value;
    if IsClose(toks[i]) {
      assert ns == [];
      assert FlattenSeq(ns) + [CloseParen] == [CloseParen];
      assert TokenMatches(toks[i + 0], CloseParen);
    } else {
      var (n, m) := ParseExpr(toks, i).value;
      var rest := ParseParams(toks, m).value.0;
      assert ns == [n] + rest;
      AgreeingOfParseExpr(toks, i);
      AgreeingOfParseParams(toks, m);
      AgreesCons(toks, i, n, rest);
    }
  }

  /** The tokens of one parameter followed by those of the rest of the list. */
  lemma {:induction false} AgreesCons(toks: seq<Token>, i: nat, n: Node, rest: seq<Node>)
    requires AgreesAt(toks, i, Flatten(n))
    requires AgreesAt(toks, i + |Flatten(n)|, FlattenSeq(rest) + [CloseParen])
    ensures AgreesAt(toks, i, FlattenSeq([n] + rest) + [CloseParen])
    ensures |FlattenSeq([n] + rest)| == |Flatten(n)| + |FlattenSeq(rest)|
  {
    FlattenSeqCons(n, rest);
    assert FlattenSeq([n] + rest) + [CloseParen] == Flatten(n) + (FlattenSeq(rest) + [CloseParen]);
    AgreesAtConcat(toks, i, Flatten(n), FlattenSeq(rest) + [CloseParen]);
  }

  /** Soundness for a program body. */
  lemma {:induction false} AgreeingOfParseBody(toks: seq<Token>, i: nat)
    requires i <= |toks| && ParseBody(toks, i).Ok?
    ensures var ns := ParseBody(toks, i).value;
      AgreesAt(toks, i, FlattenSeq(ns)) && i + |FlattenSeq(ns)| == |toks|
    decreases |toks| - i
  {
    var ns := ParseBody(toks, i).value;
    if i < |toks| {
      var (n, m) := ParseExpr(toks, i).value;
      var rest := ParseBody(toks, m).value;
      assert ns == [n] + rest;
      AgreeingOfParseExpr(toks, i);
      AgreeingOfParseBody(toks, m);
      FlattenSeqCons(n, rest);
      AgreesAtConcat(toks, i, Flatten(n), FlattenSeq(rest));
    }
  }

  /**
   * The token lists `parser` accepts, and the program it builds: `toks` parses
   * to `p` exactly when `toks` matches the tokens of `p`'s body in order. So
   * literals come from number and string tokens, a call's name is the value of
   * the token after its `(` whatever that token's kind, its params are the
   * expressions up to its `)`, the body has one element per top-level
   * expression, and the empty list gives the empty body.
   */
  lemma {:induction false} ParseCharacterization(toks: seq<Token>, p: Program)
    ensures Parse(toks) == Ok(p) <==> Agrees(toks, FlattenSeq(p.body))
  {
    if Parse(toks) == Ok(p) {
      AgreeingOfParseBody(toks, 0);
    }
    if Agrees(toks, FlattenSeq(p.body)) {
      ParseBodyOfAgreeing(toks, 0, p.body);
    }
  }

  /** Every program is parsed back from its own tokens. */
  lemma {:induction false} ParseFlatten(p: Program)
    ensures Parse(FlattenSeq(p.body)) == Ok(p)
  {
    var toks := FlattenSeq(p.body);
    assert forall k :: 0 <= k < |toks| ==> TokenMatches(toks[0 + k], toks[k]);
    ParseCharacterization(toks, p);
  }

  /** Tokens that stop inside a node's tokens run out: the error for an unclosed call. */
  lemma {:induction false} ParseExprOfTruncated(toks: seq<Token>, i: nat, n: Node)
    requires i <= |toks| && |toks| - i < |Flatten(n)|
    requires AgreesAt(toks, i, Flatten(n)[..|toks| - i])
    ensures ParseExpr(toks, i) == Err(UnexpectedEnd)
    decreases n, 1
  {
    if i < |toks| {
      var m := |toks| - i;
      assert TokenMatches(toks[i + 0], Flatten(n)[..m][0]);
      match n {
        case CallExpression(name, params) =>
          if i + 1 < |toks| {
            CallTokens(name, params);
            var head: seq<Token> := [OpenParen, Token(NameToken, name)];
            var tail := FlattenSeq(params) + [CloseParen];
            assert Flatten(n)[..m] == head + tail[..m - 2];
            AgreesAtConcat(toks, i, head, tail[..m - 2]);
            ParseParamsOfTruncated(toks, i + 2, params);
          }
      }
    }
  }

  /** A token matching the start of a node's tokens is not a closing parenthesis. */
  lemma {:induction false} NotCloseAt(toks: seq<Token>, i: nat, n: Node, m: nat)
    requires 0 < m <= |Flatten(n)| && AgreesAt(toks, i, Flatten(n)[..m])
    ensures i < |toks| && !IsClose(toks[i])
  {
    FlattenStart(n);
    assert TokenMatches(toks[i + 0], Flatten(n)[..m][0]);
  }

  /** A prefix of a parameter list's tokens: inside the first node, or past it. */
  lemma {:induction false} SplitParamsPrefix(ns: seq<Node>, m: nat)
    requires ns != [] && m <= |FlattenSeq(ns)|
    ensures var f := |Flatten(ns[0])|;
      && |FlattenSeq(ns)| == f + |FlattenSeq(ns[1..])|
      && (FlattenSeq(ns) + [CloseParen])[..m] ==
        if m < f then Flatten(ns[0])[..m] else Flatten(ns[0]) + (FlattenSeq(ns[1..]) + [CloseParen])[..m - f]
  {
    var n := ns[0];
    FlattenSeqCons(n, ns[1..]);
    assert ns == [n] + ns[1..];
    var all := FlattenSeq(ns) + [CloseParen];
    var tail := FlattenSeq(ns[1..]) + [CloseParen];
    assert all == Flatten(n) + tail;
  }

  /** Tokens that stop inside the parameters of a call, before its `)`, run out. */
  lemma {:induction false} ParseParamsOfTruncated(toks: seq<Token>, i: nat, ns: seq<Node>)
    requires i <= |toks| && |toks| - i < |FlattenSeq(ns)| + 1
    requires AgreesAt(toks, i, (FlattenSeq(ns) + [CloseParen])[..|toks| - i])
    ensures ParseParams(toks, i) == Err(UnexpectedEnd)
    decreases ns, 1
  {
    var m := |toks| - i;
    if i < |toks| {
      assert ns != [];
      var n := ns[0];
      var f := |Flatten(n)|;
      SplitParamsPrefix(ns, m);
      if m < f {
        TruncatedInFirst(toks, i, ns);
      } else {
        var tail := (FlattenSeq(ns[1..]) + [CloseParen])[..m - f];
        AgreesAtConcat(toks, i, Flatten(n), tail);
        assert |toks| - (i + f) == m - f;
        TruncatedAfterFirst(toks, i, ns);
      }
    }
  }

  /** The tokens stop inside the first parameter. */
  lemma {:induction false} TruncatedInFirst(toks: seq<Token>, i: nat, ns: seq<Node>)
    requires ns != [] && i < |toks| && |toks| - i < |Flatten(ns[0])|
    requires AgreesAt(toks, i, Flatten(ns[0])[..|toks| - i])
    ensures ParseParams(toks, i) == Err(UnexpectedEnd)
    decreases ns, 0
  {
    NotCloseAt(toks, i, ns[0], |toks| - i);
    ParseExprOfTruncated(toks, i, ns[0]);
    ParamsFail(toks, i, UnexpectedEnd);
  }

  /** The first parameter is complete and the tokens stop inside the rest of the list. */
  lemma {:induction false} TruncatedAfterFirst(toks: seq<Token>, i: nat, ns: seq<Node>)
    requires ns != [] && i + |Flatten(ns[0])| <= |toks|
    requires |toks| - (i + |Flatten(ns[0])|) < |FlattenSeq(ns[1..])| + 1
    requires AgreesAt(toks, i, Flatten(ns[0]))
    requires AgreesAt(toks, i + |Flatten(ns[0])|, (FlattenSeq(ns[1..]) + [CloseParen])[..|toks| - (i + |Flatten(ns[0])|)])
    ensures ParseParams(toks, i) == Err(UnexpectedEnd)
    decreases ns, 0
  {
    var n := ns[0];
    var f := |Flatten(n)|;
    assert Flatten(n)[..f] == Flatten(n);
    NotCloseAt(toks, i, n, f);
    ParseExprOfAgreeing(toks, i, n);
    ParseParamsOfTruncated(toks, i + f, ns[1..]);
    ParamsFailAfter(toks, i, n, i + f, UnexpectedEnd);
  }

  /** A parameter list fails when its first parameter fails. */
  lemma {:induction false} ParamsFail(toks: seq<Token>, i: nat, e: ParseError)
    requires i < |toks| && !IsClose(toks[i]) && ParseExpr(toks, i) == Err(e)
    ensures ParseParams(toks, i) == Err(e)
  {
  }

  /** A parameter list fails when the list after its first parameter fails. */
  lemma {:induction false} ParamsFailAfter(toks: seq<Token>, i: nat, n: Node, j: nat, e: ParseError)
    requires i < |toks| && !IsClose(toks[i]) && ParseExpr(toks, i) == Ok((n, j))
    requires ParseParams(toks, j) == Err(e)
    ensures ParseParams(toks, i) == Err(e)
  {
  }

  /**
   * A token list that ends inside a call after some complete top-level
   * expressions is rejected because the tokens run out.
   */
  lemma {:induction false} UnclosedCallRejected(body: seq<Node>, n: Node, m: nat)
    requires 0 < m < |Flatten(n)|
    ensures Parse(FlattenSeq(body) + Flatten(n)[..m]) == Err(UnexpectedEnd)
  {
    var toks := FlattenSeq(body) + Flatten(n)[..m];
    UnclosedBodyRejected(toks, 0, body, n, m);
  }

  lemma {:induction false} SplitBodyPrefix(body: seq<Node>, tail: seq<Token>)
    requires body != []
    ensures FlattenSeq(body) + tail == Flatten(body[0]) + (FlattenSeq(body[1..]) + tail)
    ensures |FlattenSeq(body)| == |Flatten(body[0])| + |FlattenSeq(body[1..])|
  {
    FlattenSeqCons(body[0], body[1..]);
    assert body == [body[0]] + body[1..];
  }

  lemma {:induction false} UnclosedBodyRejected(toks: seq<Token>, i: nat, body: seq<Node>, n: Node, m: nat)
    requires 0 < m < |Flatten(n)|
    requires i + |FlattenSeq(body)| + m == |toks|
    requires AgreesAt(toks, i, FlattenSeq(body) + Flatten(n)[..m])
    ensures ParseBody(toks, i) == Err(UnexpectedEnd)
    decreases body
  {
    if body == [] {
      assert FlattenSeq(body) + Flatten(n)[..m] == Flatten(n)[..m];
      ParseExprOfTruncated(toks, i, n);
    } else {
      var b := body[0];
      var rest := FlattenSeq(body[1..]) + Flatten(n)[..m];
      SplitBodyPrefix(body, Flatten(n)[..m]);
      AgreesAtConcat(toks, i, Flatten(b), rest);
      ParseExprOfAgreeing(toks, i, b);
      UnclosedBodyRejected(toks, i + |Flatten(b)|, body[1..], n, m);
    }
  }

  /** A token that cannot start an expression: a name, or a parenthesis other than `(`. */
  predicate StartsNoExpression(t: Token) {
    t.kind == NameToken || (t.kind == ParenToken && !IsOpen(t))
  }

  /** The middle part of a token list agrees with itself. */
  lemma {:induction false} AgreesSlice(a: seq<Token>, b: seq<Token>, c: seq<Token>)
    ensures AgreesAt(a + b + c, |a|, b)
  {
    var toks := a + b + c;
    forall k | 0 <= k < |b| ensures TokenMatches(toks[|a| + k], b[k]) {
      assert toks[|a| + k] == b[k];
    }
  }

  /** A body fails where an expression after some complete ones fails. */
  lemma {:induction false} BodyFailsAfter(toks: seq<Token>, i: nat, body: seq<Node>, e: ParseError)
    requires AgreesAt(toks, i, FlattenSeq(body)) && i + |FlattenSeq(body)| < |toks|
    requires ParseExpr(toks, i + |FlattenSeq(body)|) == Err(e)
    ensures ParseBody(toks, i) == Err(e)
    decreases body
  {
    if body != [] {
      var b := body[0];
      var f := |Flatten(b)|;
      FlattenSeqCons(b, body[1..]);
      assert body == [b] + body[1..];
      AgreesAtConcat(toks, i, Flatten(b), FlattenSeq(body[1..]));
      assert i + |FlattenSeq(body)| == i + f + |FlattenSeq(body[1..])|;
      BodyFailsAfter(toks, i + f, body[1..], e);
      BodyFailAfterFirst(toks, i, b, e);
    }
  }

  /** A body fails when the body after a complete first expression fails. */
  lemma {:induction false} BodyFailAfterFirst(toks: seq<Token>, i: nat, n: Node, e: ParseError)
    requires AgreesAt(toks, i, Flatten(n)) && ParseBody(toks, i + |Flatten(n)|) == Err(e)
    ensures ParseBody(toks, i) == Err(e)
  {
    ParseExprOfAgreeing(toks, i, n);
  }

  /** A parameter list fails where a parameter after some complete ones fails. */
  lemma {:induction false} ParamsFailsAfter(toks: seq<Token>, i: nat, ns: seq<Node>, e: ParseError)
    requires AgreesAt(toks, i, FlattenSeq(ns)) && i + |FlattenSeq(ns)| < |toks|
    requires !IsClose(toks[i + |FlattenSeq(ns)|]) && ParseExpr(toks, i + |FlattenSeq(ns)|) == Err(e)
    ensures ParseParams(toks, i) == Err(e)
    decreases ns
  {
    if ns == [] {
      ParamsFail(toks, i, e);
    } else {
      var n := ns[0];
      var f := |Flatten(n)|;
      FlattenSeqCons(n, ns[1..]);
      assert ns == [n] + ns[1..];
      AgreesAtConcat(toks, i, Flatten(n), FlattenSeq(ns[1..]));
      assert i + |FlattenSeq(ns)| == i + f + |FlattenSeq(ns[1..])|;
      ParamsFailsAfter(toks, i + f, ns[1..], e);
      ParamsFailAfterFirst(toks, i, n, e);
    }
  }

  /** A parameter list fails when the list after a complete first parameter fails. */
  lemma {:induction false} ParamsFailAfterFirst(toks: seq<Token>, i: nat, n: Node, e: ParseError)
    requires AgreesAt(toks, i, Flatten(n)) && ParseParams(toks, i + |Flatten(n)|) == Err(e)
    ensures ParseParams(toks, i) == Err(e)
  {
    var f := |Flatten(n)|;
    FlattenStart(n);
    assert Flatten(n)[..f] == Flatten(n);
    NotCloseAt(toks, i, n, f);
    ParseExprOfAgreeing(toks, i, n);
    ParamsFailAfter(toks, i, n, i + f, e);
  }

  /**
   * A token that cannot start an expression, where a top-level expression
   * should start after any complete ones, is the error of my-demo.js:231 at
   * that token.
   */
  lemma {:induction false} StrayTokenRejected(body: seq<Node>, t: Token, rest: seq<Token>)
    requires StartsNoExpression(t)
    ensures Parse(FlattenSeq(body) + [t] + rest) == Err(UnexpectedToken(t, |FlattenSeq(body)|))
  {
    var toks := FlattenSeq(body) + [t] + rest;
    var p := |FlattenSeq(body)|;
    var e := UnexpectedToken(t, p);
    AgreesSlice([], FlattenSeq(body), [t] + rest);
    assert [] + FlattenSeq(body) + ([t] + rest) == toks;
    assert toks[p] == t;
    assert ParseExpr(toks, p) == Err(e);
    BodyFailsAfter(toks, 0, body, e);
  }

  /**
   * The same inside the parameters of a top-level call, after any complete
   * parameters: a token that can neither start an expression nor close the
   * call is the error at that token.
   */
  lemma {:induction false} StrayParameterRejected(body: seq<Node>, name: string, params: seq<Node>, t: Token, rest: seq<Token>)
    requires StartsNoExpression(t) && !IsClose(t)
    ensures var head := FlattenSeq(body) + [OpenParen, Token(NameToken, name)] + FlattenSeq(params);
      Parse(head + [t] + rest) == Err(UnexpectedToken(t, |head|))
  {
    var head := FlattenSeq(body) + [OpenParen, Token(NameToken, name)] + FlattenSeq(params);
    StrayCallLayout(FlattenSeq(body), name, FlattenSeq(params), t, rest);
    StrayInCall(head + [t] + rest, body, params, t);
  }

  /** Where the pieces of a call with a stray parameter token lie in its token list. */
  lemma {:induction false} StrayCallLayout(b: seq<Token>, name: string, ps: seq<Token>, t: Token, rest: seq<Token>)
    ensures var toks := b + [OpenParen, Token(NameToken, name)] + ps + [t] + rest;
      && AgreesAt(toks, 0, b) && |b| + 2 + |ps| < |toks| && IsOpen(toks[|b|])
      && AgreesAt(toks, |b| + 2, ps) && toks[|b| + 2 + |ps|] == t
  {
    var call: seq<Token> := [OpenParen, Token(NameToken, name)];
    var a := b + call;
    var toks := a + ps + ([t] + rest);
    AgreesSlice(a, ps, [t] + rest);
    AgreesSlice([], b, call + (ps + ([t] + rest)));
    assert [] + b + (call + (ps + ([t] + rest))) == toks;
    assert toks[|b|] == OpenParen;
    assert toks[|a| + |ps|] == t;
    assert a + ps + [t] + rest == toks;
  }

  /** A call opened after a complete body, whose parameters stop at a stray token. */
  lemma {:induction false} StrayInCall(toks: seq<Token>, body: seq<Node>, params: seq<Node>, t: Token)
    requires AgreesAt(toks, 0, FlattenSeq(body))
    requires var p := |FlattenSeq(body)|; p + 2 + |FlattenSeq(params)| < |toks| && IsOpen(toks[p])
    requires AgreesAt(toks, |FlattenSeq(body)| + 2, FlattenSeq(params))
    requires toks[|FlattenSeq(body)| + 2 + |FlattenSeq(params)|] == t && StartsNoExpression(t) && !IsClose(t)
    ensures Parse(toks) == Err(UnexpectedToken(t, |FlattenSeq(body)| + 2 + |FlattenSeq(params)|))
  {
    var p := |FlattenSeq(body)|;
    var q := p + 2 + |FlattenSeq(params)|;
    var e := UnexpectedToken(t, q);
    assert ParseExpr(toks, q) == Err(e);
    ParamsFailsAfter(toks, p + 2, params, e);
    assert ParseExpr(toks, p) == Err(e);
    BodyFailsAfter(toks, 0, body, e);
  }
}
