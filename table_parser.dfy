/**
 * The table-driven parser of my-demo2.js (my-demo2.js:140-189): `_walk` hands
 * a token to the first key of `ParserMap` whose expression matches its value;
 * the handlers share one cursor `current`.
 *
 * `TableParseExpr`, `TableParseParams` and `TableParseBody` are the
 * specification and the class `TableWalker` the code proved to follow it.
 * `TableParseAgrees` relates it to the parser of my-demo.js: on the token
 * lists a tokenizer produces, apart from string tokens, the two parse alike,
 * errors included.
 */
module TableParser {
  import opened Wrappers
  import opened Tokens
  import opened SourceAst
  import opened Patterns
  import opened Lexer
  import opened Parser
  import opened TableLexer

  /** `Object.keys(ParserMap)` (my-demo2.js:141-166). */
  const ParserKeys := [Numbers, LeftParenthesis]

  /**
   * `_walk()` at cursor `i` (my-demo2.js:170-177): the expression and the
   * cursor after it. A value with a digit anywhere is a number, a value with
   * `(` anywhere opens a call whose name is the next token's value, whatever
   * its type. Reading past the last token is `UnexpectedEnd`.
   */
  function TableParseExpr(toks: seq<Token>, i: nat): (r: Result<(Node, nat), ParseError>)
    ensures r.Ok? ==> i < r.value.1 <= |toks|
    decreases |toks| - i, 0
  {
    if i >= |toks| then Err(UnexpectedEnd)
    else
      var t := toks[i];
      match Find(ParserKeys, t.value)
      case None => Err(UnexpectedToken(t, i))
      case Some(p) =>
        if p == Numbers then Ok((NumberLiteral(t.value), i + 1))
        else if i + 1 >= |toks| then Err(UnexpectedEnd)
        else
          var params :- TableParseParams(toks, i + 2);
          Ok((CallExpression(toks[i + 1].value, params.0), params.1))
  }

  /** The parameter loop of my-demo2.js:158-163: it stops at any token whose value is `)`. */
  function TableParseParams(toks: seq<Token>, i: nat): (r: Result<(seq<Node>, nat), ParseError>)
    ensures r.Ok? ==> i < r.value.1 <= |toks|
    decreases |toks| - i, 1
  {
    if i >= |toks| then Err(UnexpectedEnd)
    else if toks[i].value == ")" then Ok(([], i + 1))
    else
      var first :- TableParseExpr(toks, i);
      var rest :- TableParseParams(toks, first.1);
      Ok(([first.0] + rest.0, rest.1))
  }

  /** The body loop of my-demo2.js:184-186. */
  function TableParseBody(toks: seq<Token>, i: nat): Result<seq<Node>, ParseError>
    decreases |toks| - i
  {
    if i >= |toks| then Ok([])
    else
      var first :- TableParseExpr(toks, i);
      var rest :- TableParseBody(toks, first.1);
      Ok([first.0] + rest)
  }

  /** `_parser(tokens)` */
  function TableParse(toks: seq<Token>): Result<Program, ParseError> {
    var body :- TableParseBody(toks, 0);
    Ok(Program(body))
  }

  lemma {:induction false} TableParamsStep(toks: seq<Token>, i: nat, prefix: seq<Node>)
    requires i < |toks| && toks[i].value != ")"
    ensures PrependParams(prefix, TableParseParams(toks, i)) ==
      match TableParseExpr(toks, i)
      case Ok(res) => PrependParams(prefix + [res.0], TableParseParams(toks, res.1))
      case Err(e) => Err(e)
  {
    if TableParseExpr(toks, i).Ok? {
      var res := TableParseExpr(toks, i).value;
      if TableParseParams(toks, res.1).Ok? {
        var rest := TableParseParams(toks, res.1).value.0;
        assert prefix + ([res.0] + rest) == (prefix + [res.0]) + rest;
      }
    }
  }

  lemma {:induction false} TableBodyStep(toks: seq<Token>, i: nat, prefix: seq<Node>)
    requires i < |toks|
    ensures PrependBody(prefix, TableParseBody(toks, i)) ==
      match TableParseExpr(toks, i)
      case Ok(res) => PrependBody(prefix + [res.0], TableParseBody(toks, res.1))
      case Err(e) => Err(e)
  {
    if TableParseExpr(toks, i).Ok? {
      var res := TableParseExpr(toks, i).value;
      if TableParseBody(toks, res.1).Ok? {
        var rest := TableParseBody(toks, res.1).value;
        assert prefix + ([res.0] + rest) == (prefix + [res.0]) + rest;
      }
    }
  }

  /** A `(` opens a call whose parameters start two tokens later. */
  lemma {:induction false} TableCallExpr(toks: seq<Token>, i: nat)
    requires i + 1 < |toks| && Find(ParserKeys, toks[i].value) == Some(LeftParenthesis)
    ensures TableParseExpr(toks, i) ==
      match TableParseParams(toks, i + 2)
      case Ok(params) => Ok((CallExpression(toks[i + 1].value, params.0), params.1))
      case Err(e) => Err(e)
  {
  }

  /** The parser's state: the token list and the cursor shared by `_walk` and the handlers. */
  class TableWalker {
    const tokens: seq<Token>
    var current: nat

    constructor (tokens: seq<Token>)
      ensures this.tokens == tokens && current == 0
    {
      this.tokens := tokens;
      current := 0;
    }

    /** `_walk()` (my-demo2.js:170-177): the first key that matches the token's value picks its handler. */
    method Walk() returns (r: Result<Node, ParseError>)
      modifies this
      ensures match TableParseExpr(tokens, old(current))
        case Ok(res) => r == Ok(res.0) && current == res.1
        case Err(e) => r == Err(e)
      decreases |tokens| - current, 1
    {
      if current >= |tokens| {
        return Err(UnexpectedEnd);
      }
      var token := tokens[current];
      var found := Find(ParserKeys, token.value);
      if found.None? {
        return Err(UnexpectedToken(token, current));
      }
      if found.value == Numbers {
        current := current + 1;
        return Ok(NumberLiteral(token.value));
      }
      r := CallHandler();
    }

    /** The `LeftParenthesis` handler (my-demo2.js:150-165), entered with the cursor on the `(`. */
    method CallHandler() returns (r: Result<Node, ParseError>)
      requires current < |tokens| && Find(ParserKeys, tokens[current].value) == Some(LeftParenthesis)
      modifies this
      ensures match TableParseExpr(tokens, old(current))
        case Ok(res) => r == Ok(res.0) && current == res.1
        case Err(e) => r == Err(e)
      decreases |tokens| - current, 0
    {
      ghost var start := current;
      current := current + 1;
      if current >= |tokens| {
        return Err(UnexpectedEnd);
      }
      TableCallExpr(tokens, start);
      var token := tokens[current];
      var name := token.value;
      var params: seq<Node> := [];
      current := current + 1;
      if current >= |tokens| {
        return Err(UnexpectedEnd);
      }
      token := tokens[current];
      assert PrependParams([], TableParseParams(tokens, current)) == TableParseParams(tokens, current) by {
        if TableParseParams(tokens, current).Ok? {
          assert [] + TableParseParams(tokens, current).value.0 == TableParseParams(tokens, current).value.0;
        }
      }
      while token.value != ")"
        invariant start + 2 <= current < |tokens| && token == tokens[current]
        invariant TableParseParams(tokens, start + 2) == PrependParams(params, TableParseParams(tokens, current))
        decreases |tokens| - current
      {
        TableParamsStep(tokens, current, params);
        var child := Walk();
        if child.Err? {
          return Err(child.error);
        }
        params := params + [child.value];
        if current >= |tokens| {
          return Err(UnexpectedEnd);
        }
        token := tokens[current];
      }
      assert params + [] == params;
      assert TableParseParams(tokens, start + 2) == Ok((params, current + 1));
      current := current + 1;
      return Ok(CallExpression(name, params));
    }
  }

  /** `_parser(tokens)`: the body loop over one shared cursor (my-demo2.js:168-188). */
  method TableParseTokens(tokens: seq<Token>) returns (r: Result<Program, ParseError>)
    ensures r == TableParse(tokens)
  {
    var walker := new TableWalker(tokens);
    var body: seq<Node> := [];
    assert PrependBody([], TableParseBody(tokens, 0)) == TableParseBody(tokens, 0) by {
      if TableParseBody(tokens, 0).Ok? {
        assert [] + TableParseBody(tokens, 0).value == TableParseBody(tokens, 0).value;
      }
    }
    while walker.current < |tokens|
      invariant walker.tokens == tokens
      invariant TableParseBody(tokens, 0) == PrependBody(body, TableParseBody(tokens, walker.current))
      decreases |tokens| - walker.current
    {
      TableBodyStep(tokens, walker.current, body);
      var node := walker.Walk();
      if node.Err? {
        return Err(node.error);
      }
      body := body + [node.value];
    }
    assert body + [] == body;
    return Ok(Program(body));
  }

  // ---------------------------------------------------------------------------
  // Agreement with the parser of my-demo.js.
  // ---------------------------------------------------------------------------

  /** Tokens as a tokenizer makes them, apart from string tokens. */
  predicate Compatible(toks: seq<Token>) {
    forall k :: 0 <= k < |toks| ==> WellFormed(toks[k]) && toks[k].kind != StringToken
  }

  /** On such a token the lookup decides by the token's type, as `walk` does. */
  lemma {:induction false} HandlerOfToken(t: Token)
    requires WellFormed(t) && t.kind != StringToken
    ensures Find(ParserKeys, t.value) ==
      if t.kind == NumberToken then Some(Numbers)
      else if IsOpen(t) then Some(LeftParenthesis)
      else None
  {
    assert ParserKeys[1..] == [LeftParenthesis] && ParserKeys[1..][1..] == [];
    if t.kind == NumberToken {
      assert CharMatches(Numbers, t.value[0]);
    } else if t.kind == ParenToken {
      assert t.value == [t.value[0]];
      TestChar(Numbers, t.value[0]);
      TestChar(LeftParenthesis, t.value[0]);
    } else {
      assert forall k :: 0 <= k < |t.value| ==> IsLetter(t.value[k]);
      assert !Test(Numbers, t.value) && !Test(LeftParenthesis, t.value);
    }
  }

  lemma {:induction false} TableParseExprAgrees(toks: seq<Token>, i: nat)
    requires Compatible(toks)
    ensures TableParseExpr(toks, i) == ParseExpr(toks, i)
    decreases |toks| - i, 0
  {
    if i < |toks| {
      HandlerOfToken(toks[i]);
      if IsOpen(toks[i]) && i + 1 < |toks| {
        TableParseParamsAgrees(toks, i + 2);
      }
    }
  }

  lemma {:induction false} TableParseParamsAgrees(toks: seq<Token>, i: nat)
    requires Compatible(toks)
    ensures TableParseParams(toks, i) == ParseParams(toks, i)
    decreases |toks| - i, 1
  {
    if i < |toks| {
      assert WellFormed(toks[i]) && toks[i].kind != StringToken;
      if toks[i].kind != ParenToken {
        assert IsDigit(toks[i].value[0]) || IsLetter(toks[i].value[0]);
      }
      if !IsClose(toks[i]) {
        TableParseExprAgrees(toks, i);
        if ParseExpr(toks, i).Ok? {
          TableParseParamsAgrees(toks, ParseExpr(toks, i).value.1);
        }
      }
    }
  }

  lemma {:induction false} TableParseBodyAgrees(toks: seq<Token>, i: nat)
    requires Compatible(toks)
    ensures TableParseBody(toks, i) == ParseBody(toks, i)
    decreases |toks| - i
  {
    if i < |toks| {
      TableParseExprAgrees(toks, i);
      if ParseExpr(toks, i).Ok? {
        TableParseBodyAgrees(toks, ParseExpr(toks, i).value.1);
      }
    }
  }

  /** Both parsers give the same program, or the same error, on well-formed tokens without strings. */
  lemma {:induction false} TableParseAgrees(toks: seq<Token>)
    requires Compatible(toks)
    ensures TableParse(toks) == Parse(toks)
  {
    TableParseBodyAgrees(toks, 0);
  }

  /** The tokens of a successful tokenization are well formed. */
  lemma {:induction false} LayoutWellFormed(gaps: seq<string>, toks: seq<Token>)
    requires |gaps| == |toks| + 1 && IsLayout(gaps, toks)
    ensures forall k :: 0 <= k < |toks| ==> WellFormed(toks[k])
    decreases toks
  {
    if toks != [] {
      LayoutWellFormed(gaps[1..], toks[1..]);
      forall k | 0 < k < |toks| ensures WellFormed(toks[k]) {
        assert toks[k] == toks[1..][k - 1];
      }
    }
  }

  /**
   * The two pipelines agree: whatever `_tokenizer` accepts, `tokenizer`
   * accepts with the same tokens, and `_parser` then does what `parser` does.
   */
  lemma {:induction false} TablePipelineAgrees(s: string)
    ensures TableTokenize(s).Ok? ==>
      Tokenize(s) == TableTokenize(s) && TableParse(TableTokenize(s).value) == Parse(Tokenize(s).value)
  {
    if TableTokenize(s).Ok? {
      var toks := TableTokenize(s).value;
      TableTokenizeCharacterization(s, toks);
      TokenizeCharacterization(s, toks);
      var gaps :| |gaps| == |toks| + 1 && IsLayout(gaps, toks) && Weave(gaps, toks) == s;
      LayoutWellFormed(gaps, toks);
      TableParseAgrees(toks);
    }
  }

  /**
   * Where the lookup by value departs from `walk`: a string token whose value
   * holds a digit is read as a number literal, while `parser` keeps it a string.
   */
  lemma {:induction false} StringWithDigit(toks: seq<Token>, i: nat, k: nat)
    requires i < |toks| && toks[i].kind == StringToken
    requires k < |toks[i].value| && IsDigit(toks[i].value[k])
    ensures TableParseExpr(toks, i) == Ok((NumberLiteral(toks[i].value), i + 1))
    ensures ParseExpr(toks, i) == Ok((StringLiteral(toks[i].value), i + 1))
  {
    assert CharMatches(Numbers, toks[i].value[k]);
    assert Test(ParserKeys[0], toks[i].value);
  }

  /**
   * A name token wherever `_walk` is called matches no key, so it is the
   * error of my-demo2.js:176 at that token.
   */
  lemma {:induction false} NameRejected(toks: seq<Token>, i: nat)
    requires i < |toks| && toks[i].kind == NameToken && WellFormed(toks[i])
    ensures TableParseExpr(toks, i) == Err(UnexpectedToken(toks[i], i))
  {
    HandlerOfToken(toks[i]);
  }

  /**
   * So a name where a top-level expression should start, after any complete
   * ones, ends `_parser` with that error, as it ends `parser`.
   */
  lemma {:induction false} NameAfterBodyRejected(body: seq<Node>, t: Token, rest: seq<Token>)
    requires t.kind == NameToken && Compatible(FlattenSeq(body) + [t] + rest)
    ensures TableParse(FlattenSeq(body) + [t] + rest) == Err(UnexpectedToken(t, |FlattenSeq(body)|))
  {
    TableParseAgrees(FlattenSeq(body) + [t] + rest);
    StrayTokenRejected(body, t, rest);
  }

  /** A tree without string literals. */
  predicate NoStringLiteral(n: Node) {
    match n
    case NumberLiteral(_) => true
    case StringLiteral(_) => false
    case CallExpression(_, params) => forall k :: 0 <= k < |params| ==> NoStringLiteral(params[k])
  }

  /** `ParserMap` has no handler that builds a string literal. */
  lemma {:induction false} TableParseExprNoString(toks: seq<Token>, i: nat)
    ensures TableParseExpr(toks, i).Ok? ==> NoStringLiteral(TableParseExpr(toks, i).value.0)
    decreases |toks| - i, 0
  {
    if i + 1 < |toks| {
      TableParseParamsNoString(toks, i + 2);
    }
  }

  lemma {:induction false} TableParseParamsNoString(toks: seq<Token>, i: nat)
    ensures TableParseParams(toks, i).Ok? ==>
      forall k :: 0 <= k < |TableParseParams(toks, i).value.0| ==> NoStringLiteral(TableParseParams(toks, i).value.0[k])
    decreases |toks| - i, 1
  {
    if i < |toks| && toks[i].value != ")" {
      TableParseExprNoString(toks, i);
      var first := TableParseExpr(toks, i);
      if first.Ok? {
        TableParseParamsNoString(toks, first.value.1);
      }
    }
  }

  lemma {:induction false} TableParseBodyNoString(toks: seq<Token>, i: nat)
    ensures TableParseBody(toks, i).Ok? ==>
      forall k :: 0 <= k < |TableParseBody(toks, i).value| ==> NoStringLiteral(TableParseBody(toks, i).value[k])
    decreases |toks| - i
  {
    if i < |toks| {
      TableParseExprNoString(toks, i);
      var first := TableParseExpr(toks, i);
      if first.Ok? {
        TableParseBodyNoString(toks, first.value.1);
      }
    }
  }

  /** Whatever `_parser` returns holds no string literal. */
  lemma {:induction false} TableParseNoString(toks: seq<Token>)
    ensures TableParse(toks).Ok? ==>
      forall k :: 0 <= k < |TableParse(toks).value.body| ==> NoStringLiteral(TableParse(toks).value.body[k])
  {
    TableParseBodyNoString(toks, 0);
  }
}
