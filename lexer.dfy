/**
 * The tokenizer of my-demo.js (my-demo.js:110-186): one cursor scans the input
 * left to right and dispatches on the class of the current character.
 *
 * `TokenizeFrom` is the specification: one `Scan` step per loop iteration.
 * `Tokenizer` is the loop itself, proved equal to it. The lemmas characterize
 * the accepted inputs exactly (`TokenizeCharacterization`) and say what each
 * error means (`LexErrorMeaning`, `UnknownCharacterRejected`,
 * `UnknownCharacterAfterTokens`, `NameAtEndAfterTokens`,
 * `UnterminatedAfterTokens`).
 */
module Lexer {
  import opened Wrappers
  import opened Tokens

  /**
   * Why tokenizing fails. `UnknownCharacter` is the `TypeError` of
   * my-demo.js:182. The other two stand for inner loops that run past the end
   * of the input: an unterminated string (my-demo.js:157) and a letter run that
   * reaches the end (my-demo.js:171, where `LETTERS.test(undefined)` holds).
   * There each pass appends `undefined` to `value` until the engine gives up:
   * a `RangeError` when its limit on string length is reached first, or the
   * heap running out.
   */
  datatype LexError =
    | UnknownCharacter(character: char, pos: nat)
    | UnterminatedString(pos: nat)
    | NameAtEndOfInput(pos: nat)

  /** The classes of character that the inner loops collect. */
  datatype Run = Digits | Letters | StringBody

  predicate InRun(c: char, run: Run) {
    match run
    case Digits => IsDigit(c)
    case Letters => IsLetter(c)
    case StringBody => c != '"'
  }

  predicate AllInRun(s: string, run: Run) {
    forall k :: 0 <= k < |s| ==> InRun(s[k], run)
  }

  /** A character the tokenizer has a branch for. */
  predicate Recognized(c: char) {
    c == '(' || c == ')' || IsWhitespace(c) || IsDigit(c) || c == '"' || IsLetter(c)
  }

  /** Where an inner run loop starting at `i` stops: the end of the maximal run. */
  function RunEnd(s: string, i: nat, run: Run): (j: nat)
    requires i <= |s|
    ensures i <= j <= |s|
    ensures forall k :: i <= k < j ==> InRun(s[k], run)
    ensures j == |s| || !InRun(s[j], run)
    decreases |s| - i
  {
    if i < |s| && InRun(s[i], run) then RunEnd(s, i + 1, run) else i
  }

  /** A run loop that stopped at `j` stopped where `RunEnd` says. */
  lemma {:induction false} RunEndAt(s: string, i: nat, j: nat, run: Run)
    requires i <= j <= |s|
    requires forall k :: i <= k < j ==> InRun(s[k], run)
    requires j == |s| || !InRun(s[j], run)
    ensures RunEnd(s, i, run) == j
    decreases j - i
  {
    if i < j {
      RunEndAt(s, i + 1, j, run);
    }
  }

  /**
   * One iteration of the outer loop at cursor `i`: the tokens it pushes (none
   * or one) and the cursor it continues from, or the error it ends in.
   */
  function Scan(s: string, i: nat): (r: Result<(seq<Token>, nat), LexError>)
    requires i < |s|
    ensures r.Ok? ==> i < r.value.1 <= |s| && |r.value.0| <= 1
  {
    var c := s[i];
    if c == '(' || c == ')' then
      Ok(([Token(ParenToken, [c])], i + 1))
    else if IsWhitespace(c) then
      Ok(([], i + 1))
    else if IsDigit(c) then
      var j := RunEnd(s, i, Digits);
      Ok(([Token(NumberToken, s[i..j])], j))
    else if c == '"' then
      var j := RunEnd(s, i + 1, StringBody);
      if j == |s| then Err(UnterminatedString(i))
      else Ok(([Token(StringToken, s[i + 1..j])], j + 1))
    else if IsLetter(c) then
      var j := RunEnd(s, i, Letters);
      if j == |s| then Err(NameAtEndOfInput(i))
      else Ok(([Token(NameToken, s[i..j])], j))
    else
      Err(UnknownCharacter(c, i))
  }

  /** The tokens of `s[i..]`, scanned from cursor `i`. */
  function TokenizeFrom(s: string, i: nat): Result<seq<Token>, LexError>
    requires i <= |s|
    decreases |s| - i
  {
    if i == |s| then Ok([])
    else
      var step :- Scan(s, i);
      var rest :- TokenizeFrom(s, step.1);
      Ok(step.0 + rest)
  }

  /** `tokenizer(input)` */
  function Tokenize(s: string): Result<seq<Token>, LexError> {
    TokenizeFrom(s, 0)
  }

  /** The tokens already pushed, followed by those still to come. */
  function Prepend<E>(prefix: seq<Token>, r: Result<seq<Token>, E>): Result<seq<Token>, E> {
    match r
    case Ok(ts) => Ok(prefix + ts)
    case Err(e) => Err(e)
  }

  lemma {:induction false} PrependNothing<E>(r: Result<seq<Token>, E>)
    ensures Prepend([], r) == r
  {
    if r.Ok? {
      assert [] + r.value == r.value;
    }
  }

  /** One scan step moves its tokens from the part to come into the prefix. */
  lemma {:induction false} PrependScan(prefix: seq<Token>, s: string, i: nat)
    requires i < |s|
    ensures Prepend(prefix, TokenizeFrom(s, i)) ==
      match Scan(s, i)
      case Ok(step) => Prepend(prefix + step.0, TokenizeFrom(s, step.1))
      case Err(e) => Err(e)
  {
    if Scan(s, i).Ok? {
      var step := Scan(s, i).value;
      if TokenizeFrom(s, step.1).Ok? {
        var rest := TokenizeFrom(s, step.1).value;
        assert prefix + (step.0 + rest) == (prefix + step.0) + rest;
      }
    }
  }

  /**
   * An inner run loop (my-demo.js:143-146, 157-160, 171-174): append characters
   * of the run to `value` while the cursor stays inside the input.
   */
  method CollectRun(input: string, start: nat, run: Run) returns (value: string, current: nat)
    requires start <= |input|
    ensures current == RunEnd(input, start, run)
    ensures value == input[start..current]
  {
    current := start;
    value := "";
    while current < |input| && InRun(input[current], run)
      invariant start <= current <= |input|
      invariant value == input[start..current]
      invariant forall k :: start <= k < current ==> InRun(input[k], run)
      decreases |input| - current
    {
      value := value + [input[current]];
      current := current + 1;
    }
    RunEndAt(input, start, current, run);
  }

  /** The `tokenizer` loop of my-demo.js:110-186. */
  method Tokenizer(input: string) returns (r: Result<seq<Token>, LexError>)
    ensures r == Tokenize(input)
  {
    var current := 0;
    var tokens: seq<Token> := [];
    PrependNothing(Tokenize(input));
    while current < |input|
      invariant current <= |input|
      invariant Tokenize(input) == Prepend(tokens, TokenizeFrom(input, current))
      decreases |input| - current
    {
      var step := TokenizerStep(input, current);
      if step.Err? {
        Halt(input, tokens, current, step.error);
        return Err(step.error);
      }
      Advance(input, tokens, current, step.value.0, step.value.1);
      tokens := tokens + step.value.0;
      current := step.value.1;
    }
    assert tokens + [] == tokens;
    return Ok(tokens);
  }

  /**
   * One pass of the outer loop's body (my-demo.js:116-184): the branch on the
   * character at the cursor, with the token it pushes and where the cursor
   * moves, or the error thrown.
   */
  method TokenizerStep(input: string, current: nat) returns (r: Result<(seq<Token>, nat), LexError>)
    requires current < |input|
    ensures r == Scan(input, current)
  {
    var c := input[current];
    if c == '(' || c == ')' {
      return Ok(([Token(ParenToken, [c])], current + 1));
    }
    if IsWhitespace(c) {
      return Ok(([], current + 1));
    }
    if IsDigit(c) {
      var value, next := CollectRun(input, current, Digits);
      return Ok(([Token(NumberToken, value)], next));
    }
    if c == '"' {
      var value, next := CollectRun(input, current + 1, StringBody);
      if next == |input| {
        return Err(UnterminatedString(current));
      }
      return Ok(([Token(StringToken, value)], next + 1));
    }
    if IsLetter(c) {
      var value, next := CollectRun(input, current, Letters);
      if next == |input| {
        return Err(NameAtEndOfInput(current));
      }
      return Ok(([Token(NameToken, value)], next));
    }
    return Err(UnknownCharacter(c, current));
  }

  /** A scan step that succeeds moves its tokens into the prefix. */
  lemma {:induction false} Advance(input: string, tokens: seq<Token>, i: nat, emitted: seq<Token>, j: nat)
    requires i < |input| && Tokenize(input) == Prepend(tokens, TokenizeFrom(input, i))
    requires Scan(input, i) == Ok((emitted, j))
    ensures j <= |input| && Tokenize(input) == Prepend(tokens + emitted, TokenizeFrom(input, j))
  {
    PrependScan(tokens, input, i);
  }

  /** A scan step that fails is the result of the whole tokenization. */
  lemma {:induction false} Halt(input: string, tokens: seq<Token>, i: nat, e: LexError)
    requires i < |input| && Tokenize(input) == Prepend(tokens, TokenizeFrom(input, i))
    requires Scan(input, i) == Err(e)
    ensures Tokenize(input) == Err(e)
  {
    PrependScan(tokens, input, i);
  }

  // ---------------------------------------------------------------------------
  // The accepted inputs, exactly: white space woven between token texts.
  // ---------------------------------------------------------------------------

  /** The source text a token is scanned from: strings keep their quotes. */
  function Lexeme(t: Token): string {
    if t.kind == StringToken then "\"" + t.value + "\"" else t.value
  }

  /**
   * What a token can carry: one parenthesis; a non-empty run of digits or of
   * letters; a string body without a double quote.
   */
  predicate WellFormed(t: Token) {
    match t.kind
    case ParenToken => t.value == "(" || t.value == ")"
    case NumberToken => t.value != "" && AllInRun(t.value, Digits)
    case NameToken => t.value != "" && AllInRun(t.value, Letters)
    case StringToken => AllInRun(t.value, StringBody)
  }

  predicate AllWhitespace(w: string) {
    forall k :: 0 <= k < |w| ==> IsWhitespace(w[k])
  }

  /** `gaps[0] + Lexeme(toks[0]) + gaps[1] + ... + Lexeme(toks[n-1]) + gaps[n]` */
  function Weave(gaps: seq<string>, toks: seq<Token>): string
    requires |gaps| == |toks| + 1
    decreases toks
  {
    if toks == [] then gaps[0] else gaps[0] + Lexeme(toks[0]) + Weave(gaps[1..], toks[1..])
  }

  /**
   * The text after a token ends its run: a number is not followed by a digit,
   * and a name is followed by something other than a letter.
   */
  predicate Delimits(t: Token, rest: string) {
    match t.kind
    case NumberToken => rest == [] || !IsDigit(rest[0])
    case NameToken => rest != [] && !IsLetter(rest[0])
    case _ => true
  }

  /** The gaps are white space, the tokens well formed and each run maximal. */
  predicate IsLayout(gaps: seq<string>, toks: seq<Token>)
    requires |gaps| == |toks| + 1
    decreases toks
  {
    && AllWhitespace(gaps[0])
    && (toks != [] ==>
          && WellFormed(toks[0])
          && Delimits(toks[0], Weave(gaps[1..], toks[1..]))
          && IsLayout(gaps[1..], toks[1..]))
  }

  lemma {:induction false} AllWhitespaceConcat(a: string, b: string)
    ensures AllWhitespace(a + b) <==> AllWhitespace(a) && AllWhitespace(b)
  {
    if AllWhitespace(a) && AllWhitespace(b) {
      forall k | 0 <= k < |a + b| ensures IsWhitespace((a + b)[k]) {
        if k < |a| { assert (a + b)[k] == a[k]; } else { assert (a + b)[k] == b[k - |a|]; }
      }
    }
    if AllWhitespace(a + b) {
      forall k | 0 <= k < |a| ensures IsWhitespace(a[k]) { assert (a + b)[k] == a[k]; }
      forall k | 0 <= k < |b| ensures IsWhitespace(b[k]) { assert (a + b)[|a| + k] == b[k]; }
    }
  }

  /** White space in front of the first gap joins that gap. */
  lemma {:induction false} PrependGap(w: string, gaps: seq<string>, toks: seq<Token>)
    requires |gaps| == |toks| + 1
    requires AllWhitespace(w)
    ensures Weave([w + gaps[0]] + gaps[1..], toks) == w + Weave(gaps, toks)
    ensures IsLayout([w + gaps[0]] + gaps[1..], toks) == IsLayout(gaps, toks)
  {
    var gaps' := [w + gaps[0]] + gaps[1..];
    assert gaps'[0] == w + gaps[0];
    assert gaps'[1..] == gaps[1..];
    AllWhitespaceConcat(w, gaps[0]);
    if toks != [] {
      UnconsLayout(gaps', toks);
      UnconsLayout(gaps, toks);
      var tail := Lexeme(toks[0]) + Weave(gaps[1..], toks[1..]);
      assert (w + gaps[0]) + tail == w + (gaps[0] + tail);
    }
  }

  /** The token text between cursors `i` and `j` of a successful scan step. */
  lemma {:induction false} ScanLexeme(s: string, i: nat)
    requires i < |s|
    requires Scan(s, i).Ok? && Scan(s, i).value.0 != []
    ensures var (emitted, j) := Scan(s, i).value;
      && WellFormed(emitted[0])
      && Lexeme(emitted[0]) == s[i..j]
      && Delimits(emitted[0], s[j..])
  {
    var (emitted, j) := Scan(s, i).value;
    var t := emitted[0];
    if s[i] == '"' {
      assert s[i..j] == [s[i]] + s[i + 1..j - 1] + [s[j - 1]];
    } else if IsDigit(s[i]) || IsLetter(s[i]) {
      assert j < |s| ==> s[j..][0] == s[j];
    }
  }

  /** A token with an empty gap in front of it. */
  lemma {:induction false} ConsToken(t: Token, gaps: seq<string>, toks: seq<Token>)
    requires |gaps| == |toks| + 1
    ensures Weave([""] + gaps, [t] + toks) == Lexeme(t) + Weave(gaps, toks)
    ensures IsLayout([""] + gaps, [t] + toks) ==
      (WellFormed(t) && Delimits(t, Weave(gaps, toks)) && IsLayout(gaps, toks))
  {
    var gaps', toks' := [""] + gaps, [t] + toks;
    assert gaps'[1..] == gaps && toks'[1..] == toks && toks'[0] == t;
    assert AllWhitespace(gaps'[0]);
  }

  /** A white-space character in front of a layout joins its first gap. */
  lemma {:induction false} GapInFront(s: string, i: nat, g: seq<string>, rest: seq<Token>) returns (gaps: seq<string>)
    requires i < |s| && IsWhitespace(s[i])
    requires |g| == |rest| + 1 && IsLayout(g, rest) && Weave(g, rest) == s[i + 1..]
    ensures |gaps| == |rest| + 1 && IsLayout(gaps, rest) && Weave(gaps, rest) == s[i..]
  {
    PrependGap([s[i]], g, rest);
    gaps := [[s[i]] + g[0]] + g[1..];
    assert s[i..] == [s[i]] + s[i + 1..];
  }

  /** A delimited token in front of a layout, with an empty gap before it. */
  lemma {:induction false} TokenInFront(s: string, i: nat, j: nat, t: Token, g: seq<string>, rest: seq<Token>)
    returns (gaps: seq<string>)
    requires i <= j <= |s| && WellFormed(t) && Lexeme(t) == s[i..j] && Delimits(t, s[j..])
    requires |g| == |rest| + 1 && IsLayout(g, rest) && Weave(g, rest) == s[j..]
    ensures |gaps| == |rest| + 2 && IsLayout(gaps, [t] + rest) && Weave(gaps, [t] + rest) == s[i..]
  {
    ConsToken(t, g, rest);
    gaps := [""] + g;
    assert s[i..] == s[i..j] + s[j..];
  }

  /** Soundness: a successful scan of `s[i..]` lays its tokens out between white space. */
  lemma {:induction false} LayoutOfTokenizeFrom(s: string, i: nat, toks: seq<Token>) returns (gaps: seq<string>)
    requires i <= |s|
    requires TokenizeFrom(s, i) == Ok(toks)
    ensures |gaps| == |toks| + 1 && IsLayout(gaps, toks) && Weave(gaps, toks) == s[i..]
    decreases |s| - i
  {
    if i == |s| {
      gaps := [""];
      return;
    }
    var emitted, j, rest := UnconsTokenizeFrom(s, i, toks);
    var g := LayoutOfTokenizeFrom(s, j, rest);
    gaps := StepInFront(s, i, j, emitted, g, rest);
  }

  /** A successful scan of `s[i..]` is a first step followed by a successful scan of the rest. */
  lemma {:induction false} UnconsTokenizeFrom(s: string, i: nat, toks: seq<Token>) returns (emitted: seq<Token>, j: nat, rest: seq<Token>)
    requires i < |s| && TokenizeFrom(s, i) == Ok(toks)
    ensures i < j <= |s| && Scan(s, i) == Ok((emitted, j)) && TokenizeFrom(s, j) == Ok(rest) && toks == emitted + rest
  {
    emitted, j := Scan(s, i).value.0, Scan(s, i).value.1;
    rest := TokenizeFrom(s, j).value;
  }

  /** The layout of what one scan step emits in front of the layout of the rest. */
  lemma {:induction false} StepInFront(s: string, i: nat, j: nat, emitted: seq<Token>, g: seq<string>, rest: seq<Token>)
    returns (gaps: seq<string>)
    requires i < |s| && Scan(s, i) == Ok((emitted, j))
    requires |g| == |rest| + 1 && IsLayout(g, rest) && Weave(g, rest) == s[j..]
    ensures |gaps| == |emitted + rest| + 1 && IsLayout(gaps, emitted + rest) && Weave(gaps, emitted + rest) == s[i..]
  {
    if emitted == [] {
      assert emitted + rest == rest;
      gaps := GapInFront(s, i, g, rest);
    } else {
      ScanLexeme(s, i);
      assert emitted == [emitted[0]];
      gaps := TokenInFront(s, i, j, emitted[0], g, rest);
    }
  }

  /** White space at the cursor is skipped without emitting anything. */
  lemma {:induction false} SkipWhitespace(s: string, i: nat, w: string)
    requires i + |w| <= |s| && s[i..i + |w|] == w && AllWhitespace(w)
    ensures TokenizeFrom(s, i) == TokenizeFrom(s, i + |w|)
  {
    forall k | i <= k < i + |w| ensures IsWhitespace(s[k]) {
      assert s[k] == s[i..i + |w|][k - i];
    }
    SkipRun(s, i, i + |w|);
  }

  /** The white-space characters `s[i..j]` are skipped without emitting anything. */
  lemma {:induction false} SkipRun(s: string, i: nat, j: nat)
    requires i <= j <= |s|
    requires forall k :: i <= k < j ==> IsWhitespace(s[k])
    ensures TokenizeFrom(s, i) == TokenizeFrom(s, j)
    decreases j - i
  {
    if i < j {
      SkipOne(s, i);
      SkipRun(s, i + 1, j);
    }
  }

  /** One white-space character is skipped without emitting anything. */
  lemma {:induction false} SkipOne(s: string, i: nat)
    requires i < |s| && IsWhitespace(s[i])
    ensures TokenizeFrom(s, i) == TokenizeFrom(s, i + 1)
  {
    assert Scan(s, i) == Ok(([], i + 1));
    ScanStep(s, i, i + 1, []);
    PrependNothing(TokenizeFrom(s, i + 1));
  }

  /** A run of `run` characters followed by one outside it is read whole. */
  lemma {:induction false} RunOf(s: string, i: nat, v: string, rest: string, run: Run)
    requires i <= |s| && s[i..] == v + rest && AllInRun(v, run)
    requires rest == [] || !InRun(rest[0], run)
    ensures RunEnd(s, i, run) == i + |v|
    ensures s[i..i + |v|] == v && s[i + |v|..] == rest
  {
    forall k | i <= k < i + |v| ensures InRun(s[k], run) {
      assert s[k] == s[i..][k - i] == v[k - i];
    }
    if rest != [] {
      assert s[i + |v|] == s[i..][|v|] == rest[0];
    }
    RunEndAt(s, i, i + |v|, run);
    assert s[i..] == s[i..i + |v|] + s[i + |v|..];
  }

  /** Past a prefix `a` of the text from `i` lies what follows it. */
  lemma {:induction false} Suffix(s: string, i: nat, j: nat, a: string, b: string)
    requires i <= |s| && s[i..] == a + b && j == i + |a|
    ensures j <= |s| && s[j..] == b
  {
    assert s[j..] == s[i..][|a|..];
  }

  /** A well-formed token whose text is delimited is scanned in one step. */
  lemma {:induction false} ScanOfLexeme(s: string, i: nat, t: Token, rest: string)
    requires WellFormed(t) && Delimits(t, rest)
    requires i <= |s| && s[i..] == Lexeme(t) + rest
    ensures i < |s| && Scan(s, i) == Ok(([t], i + |Lexeme(t)|))
  {
    var v := t.value;
    match t.kind {
      case ParenToken =>
        assert s[i] == s[i..][0] == v[0];
        assert t == Token(ParenToken, [s[i]]);
      case NumberToken =>
        RunOf(s, i, v, rest, Digits);
        assert s[i] == v[0];
      case NameToken =>
        RunOf(s, i, v, rest, Letters);
        assert s[i] == v[0];
      case StringToken =>
        ScanOfString(s, i, v, rest);
    }
  }

  lemma {:induction false} ScanOfString(s: string, i: nat, v: string, rest: string)
    requires AllInRun(v, StringBody)
    requires i <= |s| && s[i..] == "\"" + v + "\"" + rest
    ensures i < |s| && Scan(s, i) == Ok(([Token(StringToken, v)], i + |v| + 2))
  {
    assert s[i] == s[i..][0] == '"';
    Suffix(s, i, i + 1, "\"", v + "\"" + rest);
    RunOf(s, i + 1, v, "\"" + rest, StringBody);
  }

  /** A scan step that emits `emitted` and stops at `j` puts `emitted` in front of the rest. */
  lemma {:induction false} ScanStep(s: string, i: nat, j: nat, emitted: seq<Token>)
    requires i < |s| && Scan(s, i) == Ok((emitted, j))
    ensures TokenizeFrom(s, i) == Prepend(emitted, TokenizeFrom(s, j))
  {
  }

  /** Scanning one token moves it into the prefix. */
  lemma {:induction false} TokenStep(s: string, i: nat, j: nat, t: Token, rest: string)
    requires WellFormed(t) && Delimits(t, rest)
    requires i <= |s| && s[i..] == Lexeme(t) + rest && j == i + |Lexeme(t)|
    ensures j <= |s| && TokenizeFrom(s, i) == Prepend([t], TokenizeFrom(s, j))
  {
    ScanOfLexeme(s, i, t, rest);
    ScanStep(s, i, j, [t]);
  }

  /** A result equal to a prefix in front of a success is that success. */
  lemma {:induction false} Settle<E>(a: Result<seq<Token>, E>, b: Result<seq<Token>, E>, c: Result<seq<Token>, E>,
                                     x: seq<Token>, tail: seq<Token>, toks: seq<Token>)
    requires a == b && b == Prepend(x, c) && c == Ok(tail) && toks == x + tail
    ensures a == Ok(toks)
  {
  }

  /** The first gap and token of a layout, and the layout of what follows. */
  lemma {:induction false} UnconsLayout(gaps: seq<string>, toks: seq<Token>)
    requires |gaps| == |toks| + 1 && toks != []
    ensures Weave(gaps, toks) == gaps[0] + (Lexeme(toks[0]) + Weave(gaps[1..], toks[1..]))
  {
  }

  /** The three pieces of the text of a layout that starts with a token. */
  lemma {:induction false} SplitLayoutText(s: string, i: nat, k: nat, w: string, t: Token, rest: string)
    requires i <= |s| && s[i..] == w + (Lexeme(t) + rest) && k == i + |w|
    ensures k <= |s| && s[i..k] == w && s[k..] == Lexeme(t) + rest
  {
    assert s[i..][..|w|] == w;
    assert s[i..][|w|..] == Lexeme(t) + rest;
  }

  /** The first gap and token of a layout are scanned, leaving the rest of the layout. */
  lemma {:induction false} LayoutHead(s: string, i: nat, j: nat, gaps: seq<string>, toks: seq<Token>)
    requires |gaps| == |toks| + 1 && toks != [] && IsLayout(gaps, toks)
    requires i <= |s| && s[i..] == Weave(gaps, toks)
    requires j == i + |gaps[0]| + |Lexeme(toks[0])|
    ensures j <= |s| && s[j..] == Weave(gaps[1..], toks[1..])
    ensures TokenizeFrom(s, i) == Prepend([toks[0]], TokenizeFrom(s, j))
  {
    var w, t, rest := gaps[0], toks[0], Weave(gaps[1..], toks[1..]);
    LayoutParts(gaps, toks);
    HeadStep(s, i, j, w, t, rest);
  }

  /** The first gap and token of a layout, and the conditions the layout puts on them. */
  lemma {:induction false} LayoutParts(gaps: seq<string>, toks: seq<Token>)
    requires |gaps| == |toks| + 1 && toks != [] && IsLayout(gaps, toks)
    ensures AllWhitespace(gaps[0]) && WellFormed(toks[0]) && Delimits(toks[0], Weave(gaps[1..], toks[1..]))
    ensures Weave(gaps, toks) == gaps[0] + (Lexeme(toks[0]) + Weave(gaps[1..], toks[1..]))
  {
    UnconsLayout(gaps, toks);
  }

  /** White space `w`, then the text of a delimited token `t`: `t` is scanned first. */
  lemma {:induction false} HeadStep(s: string, i: nat, j: nat, w: string, t: Token, rest: string)
    requires AllWhitespace(w) && WellFormed(t) && Delimits(t, rest)
    requires i <= |s| && s[i..] == w + (Lexeme(t) + rest) && j == i + |w| + |Lexeme(t)|
    ensures j <= |s| && s[j..] == rest
    ensures TokenizeFrom(s, i) == Prepend([t], TokenizeFrom(s, j))
  {
    var k := i + |w|;
    SplitLayoutText(s, i, k, w, t, rest);
    Suffix(s, k, j, Lexeme(t), rest);
    ScanOfLexeme(s, k, t, rest);
    GapThenToken(s, i, k, j, w, t);
  }

  /** White space `w` and then a scan step that emits `t`: `t` comes first. */
  lemma {:induction false} GapThenToken(s: string, i: nat, k: nat, j: nat, w: string, t: Token)
    requires k == i + |w| && k < |s| && s[i..k] == w && AllWhitespace(w)
    requires Scan(s, k) == Ok(([t], j))
    ensures j <= |s| && TokenizeFrom(s, i) == Prepend([t], TokenizeFrom(s, j))
  {
    ScanStep(s, k, j, [t]);
    SkipThen(s, i, w, Prepend([t], TokenizeFrom(s, j)));
  }

  /** Skipping white space `w` leads to whatever follows it. */
  lemma {:induction false} SkipThen(s: string, i: nat, w: string, x: Result<seq<Token>, LexError>)
    requires i + |w| <= |s| && s[i..i + |w|] == w && AllWhitespace(w)
    requires TokenizeFrom(s, i + |w|) == x
    ensures TokenizeFrom(s, i) == x
  {
    SkipWhitespace(s, i, w);
  }

  /** Completeness: a layout of well-formed, delimited tokens is scanned back to those tokens. */
  lemma {:induction false} TokenizeFromOfLayout(s: string, i: nat, gaps: seq<string>, toks: seq<Token>)
    requires |gaps| == |toks| + 1 && IsLayout(gaps, toks)
    requires i <= |s| && s[i..] == Weave(gaps, toks)
    ensures TokenizeFrom(s, i) == Ok(toks)
    decreases toks
  {
    if toks == [] {
      assert s[i..i + |gaps[0]|] == gaps[0];
      SkipWhitespace(s, i, gaps[0]);
      return;
    }
    var j := i + |gaps[0]| + |Lexeme(toks[0])|;
    LayoutHead(s, i, j, gaps, toks);
    TokenizeFromOfLayout(s, j, gaps[1..], toks[1..]);
    assert toks == [toks[0]] + toks[1..];
    Settle(TokenizeFrom(s, i), TokenizeFrom(s, i), TokenizeFrom(s, j), [toks[0]], toks[1..], toks);
  }

  /**
   * The inputs `tokenizer` accepts, and what it returns for them: `s` tokenizes
   * to `toks` exactly when `s` is white space woven between the texts of
   * `toks`, each token well formed and each number or name run maximal. So
   * parentheses give one `paren` token each, white space gives none, runs of
   * digits and letters are maximal and a string token carries exactly the
   * characters between its quotes; tokens come in source order and every
   * character outside white space belongs to exactly one token.
   */
  lemma {:induction false} TokenizeCharacterization(s: string, toks: seq<Token>)
    ensures Tokenize(s) == Ok(toks) <==>
      exists gaps :: |gaps| == |toks| + 1 && IsLayout(gaps, toks) && Weave(gaps, toks) == s
  {
    if Tokenize(s) == Ok(toks) {
      var gaps := LayoutOfTokenizeFrom(s, 0, toks);
      assert s[0..] == s;
    }
    if exists gaps :: |gaps| == |toks| + 1 && IsLayout(gaps, toks) && Weave(gaps, toks) == s {
      var gaps :| |gaps| == |toks| + 1 && IsLayout(gaps, toks) && Weave(gaps, toks) == s;
      assert s[0..] == s;
      TokenizeFromOfLayout(s, 0, gaps, toks);
    }
  }

  /** What each error reports: the offending position and why it fails there. */
  lemma {:induction false} LexErrorMeaningFrom(s: string, i: nat)
    requires i <= |s|
    ensures TokenizeFrom(s, i).Err? ==>
      match TokenizeFrom(s, i).error
      case UnknownCharacter(c, p) => i <= p < |s| && s[p] == c && !Recognized(c)
      case UnterminatedString(p) => i <= p < |s| && s[p] == '"' && forall k :: p < k < |s| ==> s[k] != '"'
      case NameAtEndOfInput(p) => i <= p < |s| && forall k :: p <= k < |s| ==> IsLetter(s[k])
    decreases |s| - i
  {
    if i < |s| && Scan(s, i).Ok? {
      LexErrorMeaningFrom(s, Scan(s, i).value.1);
    }
  }

  /**
   * An error carries the position of the character it is about: an unknown
   * character, a quote that is never closed, or a letter run that reaches the
   * end of the input. No partial token list is ever returned.
   */
  lemma {:induction false} LexErrorMeaning(s: string)
    ensures Tokenize(s).Err? ==>
      match Tokenize(s).error
      case UnknownCharacter(c, p) => p < |s| && s[p] == c && !Recognized(c)
      case UnterminatedString(p) => p < |s| && s[p] == '"' && forall k :: p < k < |s| ==> s[k] != '"'
      case NameAtEndOfInput(p) => p < |s| && forall k :: p <= k < |s| ==> IsLetter(s[k])
  {
    LexErrorMeaningFrom(s, 0);
  }

  lemma {:induction false} UnknownCharacterRejectedFrom(s: string, i: nat, k: nat)
    requires i <= k < |s| && !Recognized(s[k])
    requires forall m :: i <= m < k ==> s[m] != '"'
    ensures TokenizeFrom(s, i).Err?
    decreases |s| - i
  {
    if i < k && Scan(s, i).Ok? {
      var j := Scan(s, i).value.1;
      assert j <= k by {
        if IsDigit(s[i]) {
          assert !InRun(s[k], Digits);
        } else if IsLetter(s[i]) {
          assert !InRun(s[k], Letters);
        }
      }
      UnknownCharacterRejectedFrom(s, j, k);
    }
  }

  /**
   * A character that is not a parenthesis, white space, a digit, a quote or a
   * letter makes the tokenizer fail, unless a string opened before it.
   */
  lemma {:induction false} UnknownCharacterRejected(s: string, k: nat)
    requires k < |s| && !Recognized(s[k])
    requires forall m :: 0 <= m < k ==> s[m] != '"'
    ensures Tokenize(s).Err?
  {
    UnknownCharacterRejectedFrom(s, 0, k);
  }

  /**
   * An unrecognised character right after text that tokenizes, for instance
   * `"a" @`, ends tokenizing with the error of my-demo.js:182 at that
   * character.
   */
  lemma {:induction false} UnknownCharacterAfterTokens(s: string, k: nat)
    requires k < |s| && !Recognized(s[k]) && Tokenize(s[..k]).Ok?
    ensures Tokenize(s) == Err(UnknownCharacter(s[k], k))
  {
    UnknownAt(s, k);
    ErrorAfterPrefix(s, k, 0, UnknownCharacter(s[k], k));
  }

  /**
   * A letter run that goes on to the end of the input, right after text that
   * tokenizes, for instance `(add 1 x`, is the loop of my-demo.js:171-174
   * running past the end.
   */
  lemma {:induction false} NameAtEndAfterTokens(s: string, p: nat)
    requires p < |s| && Tokenize(s[..p]).Ok?
    requires forall m :: p <= m < |s| ==> IsLetter(s[m])
    ensures Tokenize(s) == Err(NameAtEndOfInput(p))
  {
    RunEndAt(s, p, |s|, Letters);
    assert Scan(s, p) == Err(NameAtEndOfInput(p));
    ErrorAfterPrefix(s, p, 0, NameAtEndOfInput(p));
  }

  /**
   * A `"` with no `"` after it, right after text that tokenizes, for instance
   * `(f "ab`, is the loop of my-demo.js:157-160 running past the end.
   */
  lemma {:induction false} UnterminatedAfterTokens(s: string, p: nat)
    requires p < |s| && s[p] == '"' && Tokenize(s[..p]).Ok?
    requires forall m :: p < m < |s| ==> s[m] != '"'
    ensures Tokenize(s) == Err(UnterminatedString(p))
  {
    RunEndAt(s, p + 1, |s|, StringBody);
    assert Scan(s, p) == Err(UnterminatedString(p));
    ErrorAfterPrefix(s, p, 0, UnterminatedString(p));
  }

  /**
   * Scanning on from a cursor in a prefix that tokenizes reaches the end of
   * the prefix unchanged, so an error there is the error of the whole text,
   * provided the prefix does not stop in the middle of a digit run.
   */
  lemma {:induction false} ErrorAfterPrefix(s: string, k: nat, i: nat, e: LexError)
    requires i <= k < |s| && !IsDigit(s[k]) && TokenizeFrom(s[..k], i).Ok?
    requires TokenizeFrom(s, k) == Err(e)
    ensures TokenizeFrom(s, i) == Err(e)
    decreases k - i
  {
    if i < k {
      var emitted, j, rest := UnconsTokenizeFrom(s[..k], i, TokenizeFrom(s[..k], i).value);
      ScanOfPrefix(s, k, i);
      ErrorAfterPrefix(s, k, j, e);
      ScanStep(s, i, j, emitted);
    }
  }

  /** An unrecognised character at the cursor is the error there. */
  lemma {:induction false} UnknownAt(s: string, k: nat)
    requires k < |s| && !Recognized(s[k])
    ensures TokenizeFrom(s, k) == Err(UnknownCharacter(s[k], k))
  {
    assert Scan(s, k) == Err(UnknownCharacter(s[k], k));
  }

  /** A scan step that succeeds inside a prefix ending before a non-digit is the same step on the whole text. */
  lemma {:induction false} ScanOfPrefix(s: string, k: nat, i: nat)
    requires i < k < |s| && !IsDigit(s[k]) && Scan(s[..k], i).Ok?
    ensures Scan(s, i) == Scan(s[..k], i)
  {
    assert s[..k][i] == s[i];
    var c := s[i];
    if c == '(' || c == ')' || IsWhitespace(c) {
    } else if IsDigit(c) {
      DigitsOfPrefix(s, k, i);
    } else if c == '"' {
      StringOfPrefix(s, k, i);
    } else if IsLetter(c) {
      LettersOfPrefix(s, k, i);
    }
  }

  lemma {:induction false} DigitsOfPrefix(s: string, k: nat, i: nat)
    requires i < k < |s| && !IsDigit(s[k]) && IsDigit(s[i])
    ensures Scan(s, i) == Scan(s[..k], i)
  {
    var p := s[..k];
    assert p[i] == s[i];
    RunEndOfPrefix(s, k, i, Digits);
    var j := RunEnd(s, i, Digits);
    assert s[i..j] == p[i..j];
  }

  lemma {:induction false} StringOfPrefix(s: string, k: nat, i: nat)
    requires i < k < |s| && s[i] == '"' && Scan(s[..k], i).Ok?
    ensures Scan(s, i) == Scan(s[..k], i)
  {
    var p := s[..k];
    assert p[i] == s[i];
    assert RunEnd(p, i + 1, StringBody) < k;
    RunEndOfPrefix(s, k, i + 1, StringBody);
    var j := RunEnd(s, i + 1, StringBody);
    assert j < k && s[i + 1..j] == p[i + 1..j];
  }

  lemma {:induction false} LettersOfPrefix(s: string, k: nat, i: nat)
    requires i < k < |s| && !IsDigit(s[i]) && s[i] != '"' && IsLetter(s[i]) && Scan(s[..k], i).Ok?
    ensures Scan(s, i) == Scan(s[..k], i)
  {
    var p := s[..k];
    assert p[i] == s[i];
    RunEndOfPrefix(s, k, i, Letters);
    var j := RunEnd(s, i, Letters);
    assert s[i..j] == p[i..j];
  }

  /** A run that stops inside a prefix, or at its end before a character outside the run, stops at the same place in the whole text. */
  lemma {:induction false} RunEndOfPrefix(s: string, k: nat, i: nat, run: Run)
    requires i <= k <= |s|
    requires RunEnd(s[..k], i, run) < k || k == |s| || !InRun(s[k], run)
    ensures RunEnd(s, i, run) == RunEnd(s[..k], i, run)
  {
    var p := s[..k];
    var j := RunEnd(p, i, run);
    forall m | i <= m < j ensures InRun(s[m], run) {
      assert s[m] == p[m];
    }
    if j < k {
      assert s[j] == p[j];
    }
    RunEndAt(s, i, j, run);
  }
}
