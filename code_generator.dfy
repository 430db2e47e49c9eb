/**
 * The code generator of my-demo.js (my-demo.js:338-356): prints a target tree
 * as C-like text, statements one per line.
 *
 * `Generate` is the printer itself. Its partner is `ReadProgram`, a reader
 * for the printed text written independently of it, and the lemmas prove the
 * two inverse on every tree whose names and literals print unambiguously
 * (`GenerateCharacterization`).
 */
module CodeGenerator {
  import opened Wrappers
  import opened Tokens
  import opened TargetAst
  import L = Lexer

  /**
   * `codeGenerator(node)`; an unknown `type` (my-demo.js:354) has no
   * counterpart. A statement line ends in `;`, a call opens with its callee
   * and `(` and closes with `)`, and a string literal sits between double
   * quotes.
   */
  function Generate(n: Node): (r: string)
    ensures n.ExpressionStatement? ==> r != [] && r[|r| - 1] == ';'
    ensures n.CallExpression? ==> |r| >= 2 && r[|r| - 1] == ')'
    ensures n.StringLiteral? ==> |r| >= 2 && r[0] == '"' && r[|r| - 1] == '"'
  {
    match n
    case Program(body) => GenerateAll(body, "\n")
    case ExpressionStatement(e) => Generate(e) + ";"
    case CallExpression(callee, arguments) => Generate(callee) + "(" + GenerateAll(arguments, ", ") + ")"
    case Identifier(name) => name
    case NumberLiteral(value) => value
    case StringLiteral(value) => "\"" + value + "\""
  }

  /** `ns.map(codeGenerator).join(sep)` */
  function GenerateAll(ns: seq<Node>, sep: string): string {
    if ns == [] then ""
    else if |ns| == 1 then Generate(ns[0])
    else Generate(ns[0]) + sep + GenerateAll(ns[1..], sep)
  }

  // ---------------------------------------------------------------------------
  // Trees whose text reads back unambiguously.
  // ---------------------------------------------------------------------------

  /**
   * An expression whose text ends where it should: numbers are non-empty
   * digit runs, names non-empty letter runs, strings free of double quotes,
   * and every callee an `Identifier`.
   */
  predicate PrintableExpr(e: Node) {
    match e
    case NumberLiteral(v) => v != "" && L.AllInRun(v, L.Digits)
    case StringLiteral(v) => L.AllInRun(v, L.StringBody)
    case Identifier(name) => name != "" && L.AllInRun(name, L.Letters)
    case CallExpression(Identifier(name), arguments) =>
      name != "" && L.AllInRun(name, L.Letters) && PrintableAll(arguments)
    case _ => false
  }

  predicate PrintableAll(ns: seq<Node>) {
    ns == [] || (PrintableExpr(ns[0]) && PrintableAll(ns[1..]))
  }

  /** A line of the output: an expression, or one wrapped in an `ExpressionStatement`. */
  predicate PrintableStatement(t: Node) {
    match t
    case ExpressionStatement(e) => PrintableExpr(e)
    case _ => PrintableExpr(t)
  }

  predicate PrintableStatements(ts: seq<Node>) {
    ts == [] || (PrintableStatement(ts[0]) && PrintableStatements(ts[1..]))
  }

  predicate PrintableProgram(t: Node) {
    t.Program? && PrintableStatements(t.body)
  }

  // ---------------------------------------------------------------------------
  // A reader for the printed text.
  // ---------------------------------------------------------------------------

  /** Reads one expression from the front of `s`, returning it and the text after it. */
  function ReadExpr(s: string): (r: Option<(Node, string)>)
    ensures r.Some? ==> |r.value.1| < |s|
    decreases |s|, 0
  {
    if s == [] then None
    else if IsDigit(s[0]) then
      var k := L.RunEnd(s, 0, L.Digits);
      Some((NumberLiteral(s[..k]), s[k..]))
    else if s[0] == '"' then
      var k := L.RunEnd(s, 1, L.StringBody);
      if k == |s| then None else Some((StringLiteral(s[1..k]), s[k + 1..]))
    else if IsLetter(s[0]) then
      var k := L.RunEnd(s, 0, L.Letters);
      if k < |s| && s[k] == '(' then
        match ReadArgs(s[k + 1..])
        case Some((arguments, rest)) => Some((CallExpression(Identifier(s[..k]), arguments), rest))
        case None => None
      else
        Some((Identifier(s[..k]), s[k..]))
    else None
  }

  /** Reads the arguments after an opening parenthesis, through the closing one. */
  function ReadArgs(s: string): (r: Option<(seq<Node>, string)>)
    ensures r.Some? ==> |r.value.1| < |s|
    decreases |s|, 2
  {
    if s != [] && s[0] == ')' then Some(([], s[1..])) else ReadArgList(s)
  }

  /** Reads `e1, e2, ..., en)` with n at least one. */
  function ReadArgList(s: string): (r: Option<(seq<Node>, string)>)
    ensures r.Some? ==> |r.value.1| < |s|
    decreases |s|, 1
  {
    match ReadExpr(s)
    case None => None
    case Some((e, r)) =>
      if |r| >= 2 && r[..2] == ", " then
        match ReadArgList(r[2..])
        case Some((es, rest)) => Some(([e] + es, rest))
        case None => None
      else if r != [] && r[0] == ')' then Some(([e], r[1..]))
      else None
  }

  /** Reads one line: an expression, wrapped when a `;` follows it. */
  function ReadStatement(s: string): (r: Option<(Node, string)>)
    ensures r.Some? ==> |r.value.1| < |s|
  {
    match ReadExpr(s)
    case None => None
    case Some((e, r)) =>
      if r != [] && r[0] == ';' then Some((ExpressionStatement(e), r[1..])) else Some((e, r))
  }

  /** Reads lines separated by `\n` up to the end of the text. */
  function ReadStatements(s: string): Option<seq<Node>>
    decreases |s|
  {
    match ReadStatement(s)
    case None => None
    case Some((t, r)) =>
      if r == [] then Some([t])
      else if r[0] == '\n' then
        match ReadStatements(r[1..])
        case Some(ts) => Some([t] + ts)
        case None => None
      else None
  }

  function ReadProgram(s: string): Option<Node> {
    if s == [] then Some(Program([]))
    else
      match ReadStatements(s)
      case Some(ts) => Some(Program(ts))
      case None => None
  }

  // ---------------------------------------------------------------------------
  // Reading what was printed gives the tree back.
  // ---------------------------------------------------------------------------

  /** A character that may follow an expression in printed text. */
  predicate EndsExpr(rest: string) {
    rest == [] || rest[0] == ',' || rest[0] == ')' || rest[0] == ';' || rest[0] == '\n'
  }

  lemma {:induction false} ReadGeneratedExpr(e: Node, rest: string)
    requires PrintableExpr(e) && EndsExpr(rest)
    ensures ReadExpr(Generate(e) + rest) == Some((e, rest))
    decreases e, 2
  {
    match e {
      case NumberLiteral(v) => ReadGeneratedNumber(v, rest);
      case StringLiteral(v) => ReadGeneratedString(v, rest);
      case Identifier(name) => ReadGeneratedIdentifier(name, rest);
      case CallExpression(callee, arguments) => ReadGeneratedCall(callee.name, arguments, rest);
    }
  }

  lemma {:induction false} ReadGeneratedNumber(v: string, rest: string)
    requires PrintableExpr(NumberLiteral(v)) && EndsExpr(rest)
    ensures ReadExpr(v + rest) == Some((NumberLiteral(v), rest))
  {
    var s := v + rest;
    L.RunOf(s, 0, v, rest, L.Digits);
    assert IsDigit(s[0]) by { assert s[0] == v[0]; }
  }

  lemma {:induction false} ReadGeneratedString(v: string, rest: string)
    requires PrintableExpr(StringLiteral(v))
    ensures ReadExpr("\"" + v + "\"" + rest) == Some((StringLiteral(v), rest))
  {
    var s := "\"" + v + "\"" + rest;
    assert s[1..] == v + ("\"" + rest);
    L.RunOf(s, 1, v, "\"" + rest, L.StringBody);
    assert s[|v| + 2..] == s[|v| + 1..][1..];
    assert s[0] == '"' && !IsDigit(s[0]);
  }

  lemma {:induction false} ReadGeneratedIdentifier(name: string, rest: string)
    requires PrintableExpr(Identifier(name)) && EndsExpr(rest)
    ensures ReadExpr(name + rest) == Some((Identifier(name), rest))
  {
    var s := name + rest;
    L.RunOf(s, 0, name, rest, L.Letters);
    assert IsLetter(s[0]) by { assert s[0] == name[0]; }
  }

  lemma {:induction false} ReadGeneratedCall(name: string, arguments: seq<Node>, rest: string)
    requires PrintableExpr(CallExpression(Identifier(name), arguments))
    ensures ReadExpr(name + "(" + GenerateAll(arguments, ", ") + ")" + rest)
         == Some((CallExpression(Identifier(name), arguments), rest))
    decreases arguments, 2
  {
    var inner := GenerateAll(arguments, ", ") + ")" + rest;
    var s := name + "(" + GenerateAll(arguments, ", ") + ")" + rest;
    assert s == name + ("(" + inner);
    L.RunOf(s, 0, name, "(" + inner, L.Letters);
    assert s[|name| + 1..] == s[|name|..][1..];
    assert IsLetter(s[0]) by { assert s[0] == name[0]; }
    ReadGeneratedArgs(arguments, rest);
  }

  /** The printed list starts with its first element's text. */
  lemma {:induction false} GenerateAllCons(ns: seq<Node>, sep: string)
    requires ns != []
    ensures GenerateAll(ns, sep) == Generate(ns[0]) + (if |ns| == 1 then "" else sep + GenerateAll(ns[1..], sep))
  {
    if |ns| == 1 {
      assert Generate(ns[0]) + "" == Generate(ns[0]);
    }
  }

  lemma {:induction false} ReadGeneratedArgs(ns: seq<Node>, rest: string)
    requires PrintableAll(ns)
    ensures ReadArgs(GenerateAll(ns, ", ") + ")" + rest) == Some((ns, rest))
    decreases ns, 1
  {
    var s := GenerateAll(ns, ", ") + ")" + rest;
    if ns == [] {
      assert s == ")" + rest;
    } else {
      ReadGeneratedArgList(ns, rest);
      GenerateAllCons(ns, ", ");
      GeneratedStart(ns[0]);
      assert s[0] == Generate(ns[0])[0];
    }
  }

  lemma {:induction false} ReadGeneratedArgList(ns: seq<Node>, rest: string)
    requires ns != [] && PrintableAll(ns)
    ensures ReadArgList(GenerateAll(ns, ", ") + ")" + rest) == Some((ns, rest))
    decreases ns, 0
  {
    var s := GenerateAll(ns, ", ") + ")" + rest;
    GenerateAllCons(ns, ", ");
    if |ns| == 1 {
      var r := ")" + rest;
      assert s == Generate(ns[0]) + r;
      ReadGeneratedExpr(ns[0], r);
      assert r[0] == ')' && r[1..] == rest;
      assert ns == [ns[0]];
    } else {
      var tail := GenerateAll(ns[1..], ", ") + ")" + rest;
      assert s == Generate(ns[0]) + (", " + tail);
      ReadGeneratedExpr(ns[0], ", " + tail);
      assert (", " + tail)[..2] == ", " && (", " + tail)[2..] == tail;
      ReadGeneratedArgList(ns[1..], rest);
      assert ns == [ns[0]] + ns[1..];
    }
  }

  /** A printable expression prints as at least one character. */
  lemma {:induction false} GeneratedNonEmpty(e: Node)
    requires PrintableExpr(e)
    ensures Generate(e) != []
  {
  }

  /** ... and never starts with a closing parenthesis. */
  lemma {:induction false} GeneratedStart(e: Node)
    requires PrintableExpr(e)
    ensures Generate(e)[0] != ')'
  {
    match e {
      case NumberLiteral(v) => assert v[0] == Generate(e)[0] && L.InRun(v[0], L.Digits);
      case Identifier(name) => assert name[0] == Generate(e)[0] && L.InRun(name[0], L.Letters);
      case CallExpression(callee, arguments) =>
        assert callee.name[0] == Generate(e)[0] && L.InRun(callee.name[0], L.Letters);
      case StringLiteral(v) =>
    }
  }

  lemma {:induction false} ReadGeneratedStatement(t: Node, rest: string)
    requires PrintableStatement(t) && (rest == [] || rest[0] == '\n')
    ensures ReadStatement(Generate(t) + rest) == Some((t, rest))
  {
    match t {
      case ExpressionStatement(e) =>
        assert Generate(t) + rest == Generate(e) + (";" + rest);
        ReadGeneratedExpr(e, ";" + rest);
      case _ =>
        ReadGeneratedExpr(t, rest);
    }
  }

  lemma {:induction false} ReadGeneratedStatements(ts: seq<Node>)
    requires ts != [] && PrintableStatements(ts)
    ensures ReadStatements(GenerateAll(ts, "\n")) == Some(ts)
    decreases ts
  {
    if |ts| == 1 {
      assert GenerateAll(ts, "\n") == Generate(ts[0]) + [];
      ReadGeneratedStatement(ts[0], []);
      assert ts == [ts[0]];
    } else {
      var tail := GenerateAll(ts[1..], "\n");
      assert GenerateAll(ts, "\n") == Generate(ts[0]) + ("\n" + tail);
      ReadGeneratedStatement(ts[0], "\n" + tail);
      ReadGeneratedStatements(ts[1..]);
      ReadStatementsCons(GenerateAll(ts, "\n"), ts[0], tail, ts[1..]);
      assert ts == [ts[0]] + ts[1..];
    }
  }

  /** A line followed by a newline and more lines reads as the one line and then the rest. */
  lemma {:induction false} ReadStatementsCons(s: string, t: Node, tail: string, ts: seq<Node>)
    requires ReadStatement(s) == Some((t, "\n" + tail)) && ReadStatements(tail) == Some(ts)
    ensures ReadStatements(s) == Some([t] + ts)
  {
    assert ("\n" + tail)[1..] == tail;
  }

  /** Reading a printed program gives back the program. */
  lemma {:induction false} ReadGeneratedProgram(t: Node)
    requires PrintableProgram(t)
    ensures ReadProgram(Generate(t)) == Some(t)
  {
    if t.body != [] {
      ReadGeneratedStatements(t.body);
      var e := if t.body[0].ExpressionStatement? then t.body[0].expression else t.body[0];
      GeneratedNonEmpty(e);
      assert Generate(t.body[0]) != [];
      assert Generate(t) != [];
    }
  }

  // ---------------------------------------------------------------------------
  // Whatever the reader accepts is printed text, read back exactly.
  // ---------------------------------------------------------------------------

  /** The characters a run loop passes over are all in the run. */
  lemma {:induction false} RunPrefix(s: string, i: nat, run: L.Run)
    requires i <= |s|
    ensures L.AllInRun(s[i..L.RunEnd(s, i, run)], run)
  {
    var k := L.RunEnd(s, i, run);
    forall m | 0 <= m < k - i ensures L.InRun(s[i..k][m], run) {
      assert s[i..k][m] == s[i + m];
    }
  }

  lemma {:induction false} GeneratedOfReadExpr(s: string)
    requires ReadExpr(s).Some?
    ensures PrintableExpr(ReadExpr(s).value.0)
    ensures s == Generate(ReadExpr(s).value.0) + ReadExpr(s).value.1
    decreases |s|, 0
  {
    if IsDigit(s[0]) {
      RunPrefix(s, 0, L.Digits);
      var k := L.RunEnd(s, 0, L.Digits);
      assert s == s[..k] + s[k..];
    } else if s[0] == '"' {
      RunPrefix(s, 1, L.StringBody);
      var k := L.RunEnd(s, 1, L.StringBody);
      assert s == "\"" + s[1..k] + "\"" + s[k + 1..];
    } else {
      RunPrefix(s, 0, L.Letters);
      var k := L.RunEnd(s, 0, L.Letters);
      assert s[..k] != [] by { assert k > 0; }
      if k < |s| && s[k] == '(' {
        GeneratedOfReadCall(s, k);
      } else {
        assert s == s[..k] + s[k..];
      }
    }
  }

  /** The call branch of `GeneratedOfReadExpr`: a name, `(`, and the arguments read after it. */
  lemma {:induction false} GeneratedOfReadCall(s: string, k: nat)
    requires 0 < k < |s| && s[k] == '(' && L.AllInRun(s[..k], L.Letters)
    requires ReadArgs(s[k + 1..]).Some?
    ensures PrintableExpr(CallExpression(Identifier(s[..k]), ReadArgs(s[k + 1..]).value.0))
    ensures s == Generate(CallExpression(Identifier(s[..k]), ReadArgs(s[k + 1..]).value.0)) + ReadArgs(s[k + 1..]).value.1
    decreases |s| - k - 1, 3
  {
    GeneratedOfReadArgs(s[k + 1..]);
    var (arguments, rest) := ReadArgs(s[k + 1..]).value;
    PrintedCall(s, k, arguments, rest);
  }

  /** A name, `(` and a printed argument list print as the call. */
  lemma {:induction false} PrintedCall(s: string, k: nat, arguments: seq<Node>, rest: string)
    requires 0 < k < |s| && s[k] == '(' && s[k + 1..] == GenerateAll(arguments, ", ") + ")" + rest
    ensures s == Generate(CallExpression(Identifier(s[..k]), arguments)) + rest
  {
    assert s == s[..k] + ("(" + s[k + 1..]);
    assert s == s[..k] + "(" + GenerateAll(arguments, ", ") + ")" + rest;
  }

  lemma {:induction false} GeneratedOfReadArgs(s: string)
    requires ReadArgs(s).Some?
    ensures PrintableAll(ReadArgs(s).value.0)
    ensures s == GenerateAll(ReadArgs(s).value.0, ", ") + ")" + ReadArgs(s).value.1
    decreases |s|, 2
  {
    if s != [] && s[0] == ')' {
      assert s == "" + ")" + s[1..];
    } else {
      GeneratedOfReadArgList(s);
    }
  }

  lemma {:induction false} GeneratedOfReadArgList(s: string)
    requires ReadArgList(s).Some?
    ensures ReadArgList(s).value.0 != [] && PrintableAll(ReadArgList(s).value.0)
    ensures s == GenerateAll(ReadArgList(s).value.0, ", ") + ")" + ReadArgList(s).value.1
    decreases |s|, 1
  {
    GeneratedOfReadExpr(s);
    var (e, r) := ReadExpr(s).value;
    if |r| >= 2 && r[..2] == ", " {
      GeneratedOfReadArgList(r[2..]);
      var (es, rest) := ReadArgList(r[2..]).value;
      assert ReadArgList(s) == Some(([e] + es, rest));
      assert r == ", " + r[2..];
      PrintedArgListCons(s, e, r, es, rest);
    } else {
      assert ReadArgList(s) == Some(([e], r[1..]));
      assert r == ")" + r[1..];
      PrintedArgListOne(s, e, r[1..]);
    }
  }

  /** An expression followed by `)` prints as the list of that expression alone. */
  lemma {:induction false} PrintedArgListOne(s: string, e: Node, rest: string)
    requires PrintableExpr(e) && s == Generate(e) + (")" + rest)
    ensures PrintableAll([e])
    ensures s == GenerateAll([e], ", ") + ")" + rest
  {
    var ns := [e];
    GenerateAllCons(ns, ", ");
    assert ns[1..] == [];
  }

  /** An expression, `, ` and a printed argument list print as the longer list. */
  lemma {:induction false} PrintedArgListCons(s: string, e: Node, r: string, es: seq<Node>, rest: string)
    requires PrintableExpr(e) && s == Generate(e) + r
    requires es != [] && PrintableAll(es) && r == ", " + (GenerateAll(es, ", ") + ")" + rest)
    ensures PrintableAll([e] + es)
    ensures s == GenerateAll([e] + es, ", ") + ")" + rest
  {
    var ns := [e] + es;
    GenerateAllCons(ns, ", ");
    assert ns[0] == e && ns[1..] == es;
    assert s == Generate(e) + (", " + (GenerateAll(es, ", ") + ")" + rest));
  }

  lemma {:induction false} GeneratedOfReadStatement(s: string)
    requires ReadStatement(s).Some?
    ensures PrintableStatement(ReadStatement(s).value.0)
    ensures s == Generate(ReadStatement(s).value.0) + ReadStatement(s).value.1
  {
    GeneratedOfReadExpr(s);
    var (e, r) := ReadExpr(s).value;
    if r != [] && r[0] == ';' {
      assert ReadStatement(s) == Some((ExpressionStatement(e), r[1..]));
      PrintedStatement(s, e, r);
    } else {
      assert ReadStatement(s) == Some((e, r));
    }
  }

  /** An expression followed by `;` prints as its statement. */
  lemma {:induction false} PrintedStatement(s: string, e: Node, r: string)
    requires PrintableExpr(e) && s == Generate(e) + r && r != [] && r[0] == ';'
    ensures PrintableStatement(ExpressionStatement(e))
    ensures s == Generate(ExpressionStatement(e)) + r[1..]
  {
    assert r == ";" + r[1..];
  }

  lemma {:induction false} GeneratedOfReadStatements(s: string)
    requires ReadStatements(s).Some?
    ensures ReadStatements(s).value != [] && PrintableStatements(ReadStatements(s).value)
    ensures s == GenerateAll(ReadStatements(s).value, "\n")
    decreases |s|
  {
    GeneratedOfReadStatement(s);
    var (t, r) := ReadStatement(s).value;
    if r == [] {
      var ts := [t];
      assert ts[1..] == [];
      assert GenerateAll(ts, "\n") == Generate(t);
    } else {
      GeneratedOfReadStatements(r[1..]);
      var ts := [t] + ReadStatements(r[1..]).value;
      assert ts[0] == t && ts[1..] == ReadStatements(r[1..]).value;
      assert r == "\n" + r[1..];
    }
  }

  /**
   * The code generator is one-to-one on printable programs, and the texts it
   * prints are exactly those the reader accepts: `s` reads as `t` if and only
   * if `t` is printable and prints as `s`.
   */
  lemma {:induction false} GenerateCharacterization(t: Node, s: string)
    ensures ReadProgram(s) == Some(t) <==> PrintableProgram(t) && Generate(t) == s
  {
    if ReadProgram(s) == Some(t) && s != [] {
      GeneratedOfReadStatements(s);
    }
    if PrintableProgram(t) && Generate(t) == s {
      ReadGeneratedProgram(t);
    }
  }
}
