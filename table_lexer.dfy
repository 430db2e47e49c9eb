/**
 * The table-driven tokenizer of my-demo2.js (my-demo2.js:28-101): the handler
 * of a character is the first key of `TokenizerMap` whose expression matches
 * it; the handlers take and return the cursor and the token list.
 *
 * `TableTokenizeFrom` is the specification and `TableTokenizer` the loop
 * proved equal to it. `TableTokenizeCharacterization` relates it to the
 * tokenizer of my-demo.js: the two agree except that this one has no handler
 * for a double quote, so it accepts exactly the inputs the other accepts
 * without a string token.
 */
module TableLexer {
  import opened Wrappers
  import opened Tokens
  import opened Patterns
  import opened Lexer

  /** `Object.keys(TokenizerMap)`, in the order the handlers are declared (my-demo2.js:33-83). */
  const TokenizerKeys := [WhiteSpace, Parentheses, Numbers, Pattern.Letters]

  /**
   * One iteration of the loop of my-demo2.js:88-98 at cursor `i`: the tokens
   * the chosen handler pushes and the cursor it returns, or the error. A
   * letter run that reaches the end of the input runs past it in JavaScript
   * (`LettersRegExp.test(undefined)` holds) until the engine gives up on the
   * growing value, as in the other tokenizer; here it is `NameAtEndOfInput`.
   */
  function TableScan(s: string, i: nat): (r: Result<(seq<Token>, nat), LexError>)
    requires i < |s|
    ensures r.Ok? ==> i < r.value.1 <= |s| && |r.value.0| <= 1
  {
    var c := s[i];
    match Find(TokenizerKeys, [c])
    case None => Err(UnknownCharacter(c, i))
    case Some(p) =>
      TestChar(p, c);
      if p == WhiteSpace then Ok(([], i + 1))
      else if p == Parentheses then Ok(([Token(ParenToken, [c])], i + 1))
      else if p == Numbers then
        var j := RunEnd(s, i, Digits);
        Ok(([Token(NumberToken, s[i..j])], j))
      else
        var j := RunEnd(s, i, Run.Letters);
        if j == |s| then Err(NameAtEndOfInput(i)) else Ok(([Token(NameToken, s[i..j])], j))
  }

  function TableTokenizeFrom(s: string, i: nat): Result<seq<Token>, LexError>
    requires i <= |s|
    decreases |s| - i
  {
    if i == |s| then Ok([])
    else
      var step :- TableScan(s, i);
      var rest :- TableTokenizeFrom(s, step.1);
      Ok(step.0 + rest)
  }

  /** `_tokenizer(input)` */
  function TableTokenize(s: string): Result<seq<Token>, LexError> {
    TableTokenizeFrom(s, 0)
  }

  lemma {:induction false} TablePrependScan(prefix: seq<Token>, s: string, i: nat)
    requires i < |s|
    ensures Prepend(prefix, TableTokenizeFrom(s, i)) ==
      match TableScan(s, i)
      case Ok(step) => Prepend(prefix + step.0, TableTokenizeFrom(s, step.1))
      case Err(e) => Err(e)
  {
    if TableScan(s, i).Ok? {
      var step := TableScan(s, i).value;
      if TableTokenizeFrom(s, step.1).Ok? {
        var rest := TableTokenizeFrom(s, step.1).value;
        assert prefix + (step.0 + rest) == (prefix + step.0) + rest;
      }
    }
  }

  /** What a handler returns: `{ current, tokens }`. */
  datatype HandlerResult = HandlerResult(current: nat, tokens: seq<Token>)

  /** `TokenizerMap[p]({ char, current, tokens })` (my-demo2.js:34-82) for the key `p` found for the current character. */
  method Handle(p: Pattern, input: string, current: nat, tokens: seq<Token>) returns (r: Result<HandlerResult, LexError>)
    requires current < |input| && Find(TokenizerKeys, [input[current]]) == Some(p)
    ensures match TableScan(input, current)
      case Ok(step) => r == Ok(HandlerResult(step.1, tokens + step.0))
      case Err(e) => r == Err(e)
  {
    var c := input[current];
    TestChar(p, c);
    if p == WhiteSpace {
      assert tokens + [] == tokens;
      return Ok(HandlerResult(current + 1, tokens));
    }
    if p == Parentheses {
      return Ok(HandlerResult(current + 1, tokens + [Token(ParenToken, [c])]));
    }
    if p == Numbers {
      var value, next := CollectRun(input, current, Digits);
      return Ok(HandlerResult(next, tokens + [Token(NumberToken, value)]));
    }
    var value, next := CollectRun(input, current, Run.Letters);
    if next == |input| {
      return Err(NameAtEndOfInput(current));
    }
    return Ok(HandlerResult(next, tokens + [Token(NameToken, value)]));
  }

  /** The loop of my-demo2.js:85-100. */
  method TableTokenizer(input: string) returns (r: Result<seq<Token>, LexError>)
    ensures r == TableTokenize(input)
  {
    var current := 0;
    var tokens: seq<Token> := [];
    PrependNothing(TableTokenize(input));
    while current < |input|
      invariant current <= |input|
      invariant TableTokenize(input) == Prepend(tokens, TableTokenizeFrom(input, current))
      decreases |input| - current
    {
      TablePrependScan(tokens, input, current);
      var c := input[current];
      var found := Find(TokenizerKeys, [c]);
      if found.Some? {
        var result := Handle(found.value, input, current, tokens);
        if result.Err? {
          return Err(result.error);
        }
        current := result.value.current;
        tokens := result.value.tokens;
        continue;
      }
      return Err(UnknownCharacter(c, current));
    }
    assert tokens + [] == tokens;
    return Ok(tokens);
  }

  /** The handler chosen for each character: the key classes are disjoint, so the table order does not matter. */
  lemma {:induction false} HandlerOf(c: char)
    ensures Find(TokenizerKeys, [c]) ==
      if IsWhitespace(c) then Some(WhiteSpace)
      else if c == '(' || c == ')' then Some(Parentheses)
      else if IsDigit(c) then Some(Numbers)
      else if IsLetter(c) then Some(Pattern.Letters)
      else None
  {
    TestChar(WhiteSpace, c);
    TestChar(Parentheses, c);
    TestChar(Numbers, c);
    TestChar(Pattern.Letters, c);
    var k1, k2, k3 := [Parentheses, Numbers, Pattern.Letters], [Numbers, Pattern.Letters], [Pattern.Letters];
    assert TokenizerKeys[1..] == k1 && k1[1..] == k2 && k2[1..] == k3 && k3[1..] == [];
    assert Find(k3, [c]) == if IsLetter(c) then Some(Pattern.Letters) else None;
    assert Find(k2, [c]) == if IsDigit(c) then Some(Numbers) else Find(k3, [c]);
    assert Find(k1, [c]) == if c == '(' || c == ')' then Some(Parentheses) else Find(k2, [c]);
    assert Find(TokenizerKeys, [c]) == if IsWhitespace(c) then Some(WhiteSpace) else Find(k1, [c]);
    assert !IsWhitespace(c) || !(c == '(' || c == ')' || IsDigit(c) || IsLetter(c));
  }

  /** One step of this tokenizer is one step of the other, except on a double quote, which no key matches. */
  lemma {:induction false} TableScanAgrees(s: string, i: nat)
    requires i < |s|
    ensures s[i] != '"' ==> TableScan(s, i) == Scan(s, i)
    ensures s[i] == '"' ==> TableScan(s, i) == Err(UnknownCharacter('"', i))
  {
    var c := s[i];
    if IsWhitespace(c) {
      ScanWhitespace(s, i);
    } else if c == '(' || c == ')' {
      ScanParen(s, i);
    } else {
      ScanOther(s, i);
    }
  }

  lemma {:induction false} ScanWhitespace(s: string, i: nat)
    requires i < |s| && IsWhitespace(s[i])
    ensures TableScan(s, i) == Ok(([], i + 1)) == Scan(s, i)
  {
    HandlerOf(s[i]);
  }

  lemma {:induction false} ScanParen(s: string, i: nat)
    requires i < |s| && (s[i] == '(' || s[i] == ')')
    ensures TableScan(s, i) == Ok(([Token(ParenToken, [s[i]])], i + 1)) == Scan(s, i)
  {
    HandlerOf(s[i]);
  }

  lemma {:induction false} ScanOther(s: string, i: nat)
    requires i < |s| && !IsWhitespace(s[i]) && s[i] != '(' && s[i] != ')'
    ensures s[i] != '"' ==> TableScan(s, i) == Scan(s, i)
    ensures s[i] == '"' ==> TableScan(s, i) == Err(UnknownCharacter('"', i))
  {
    var c := s[i];
    HandlerOf(c);
    if IsDigit(c) {
      assert Find(TokenizerKeys, [c]) == Some(Numbers);
    } else if IsLetter(c) {
      assert Find(TokenizerKeys, [c]) == Some(Pattern.Letters);
    } else {
      assert Find(TokenizerKeys, [c]) == None;
    }
  }

  predicate NoStrings(toks: seq<Token>) {
    forall k :: 0 <= k < |toks| ==> toks[k].kind != StringToken
  }

  lemma {:induction false} NoStringsConcat(a: seq<Token>, b: seq<Token>)
    ensures NoStrings(a + b) <==> NoStrings(a) && NoStrings(b)
  {
    if NoStrings(a + b) {
      forall k | 0 <= k < |a| ensures a[k].kind != StringToken {
        assert a[k] == (a + b)[k];
      }
      forall k | 0 <= k < |b| ensures b[k].kind != StringToken {
        assert b[k] == (a + b)[|a| + k];
      }
    }
  }

  /** A double quote that `tokenizer` gets past starts a string token. */
  lemma {:induction false} QuoteStartsString(s: string, i: nat)
    requires i < |s| && s[i] == '"' && Scan(s, i).Ok?
    ensures Scan(s, i).value.0 == [Token(StringToken, Scan(s, i).value.0[0].value)]
  {
  }

  lemma {:induction false} TableTokenizeFromAgrees(s: string, i: nat)
    requires i <= |s|
    ensures TableTokenizeFrom(s, i).Ok? ==>
      TokenizeFrom(s, i) == TableTokenizeFrom(s, i) && NoStrings(TableTokenizeFrom(s, i).value)
    ensures TokenizeFrom(s, i).Ok? && NoStrings(TokenizeFrom(s, i).value) ==>
      TableTokenizeFrom(s, i) == TokenizeFrom(s, i)
    decreases |s| - i
  {
    if i < |s| {
      TableScanAgrees(s, i);
      if Scan(s, i).Ok? {
        var (emitted, j) := Scan(s, i).value;
        ScanStep(s, i, j, emitted);
        if TokenizeFrom(s, j).Ok? {
          NoStringsConcat(emitted, TokenizeFrom(s, j).value);
        }
        if s[i] != '"' {
          assert NoStrings(emitted);
          TableTokenizeFromAgrees(s, j);
        } else {
          QuoteStartsString(s, i);
          assert !NoStrings(emitted);
        }
      }
    }
  }

  /**
   * The two tokenizers of the repository accept the same inputs, with the same
   * tokens, up to string literals: this one yields `toks` exactly when the
   * other one does and `toks` holds no string token.
   */
  lemma {:induction false} TableTokenizeCharacterization(s: string, toks: seq<Token>)
    ensures TableTokenize(s) == Ok(toks) <==> Tokenize(s) == Ok(toks) && NoStrings(toks)
  {
    TableTokenizeFromAgrees(s, 0);
  }

  lemma {:induction false} QuoteFreeAgreesFrom(s: string, i: nat)
    requires i <= |s|
    requires forall k :: i <= k < |s| ==> s[k] != '"'
    ensures TableTokenizeFrom(s, i) == TokenizeFrom(s, i)
    decreases |s| - i
  {
    if i < |s| {
      TableScanAgrees(s, i);
      if Scan(s, i).Ok? {
        QuoteFreeAgreesFrom(s, Scan(s, i).value.1);
      }
    }
  }

  /** On an input without a double quote the two tokenizers give the same result, errors included. */
  lemma {:induction false} QuoteFreeAgrees(s: string)
    requires forall k :: 0 <= k < |s| ==> s[k] != '"'
    ensures TableTokenize(s) == Tokenize(s)
  {
    QuoteFreeAgreesFrom(s, 0);
  }
}
