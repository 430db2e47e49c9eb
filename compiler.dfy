/**
 * The whole pipeline of my-demo.js (my-demo.js:358-365): tokenize, parse,
 * transform, generate. A stage that throws ends the pipeline with its error.
 */
module Compiler {
  import opened Wrappers
  import opened Tokens
  import opened SourceAst
  import opened Lexer
  import opened Parser
  import T = TargetAst
  import opened Transformer
  import opened CodeGenerator
  import opened Render

  /** Which stage threw. */
  datatype CompileError = LexFailure(lexError: LexError) | ParseFailure(parseError: ParseError)

  /** `compiler(input)` */
  function Compile(input: string): Result<string, CompileError> {
    match Tokenize(input)
    case Err(e) => Err(LexFailure(e))
    case Ok(tokens) =>
      match Parse(tokens)
      case Err(e) => Err(ParseFailure(e))
      case Ok(ast) => Ok(Generate(Transform(ast)))
  }

  /** `compiler(input)`, calling the stages one after another. */
  method Compiler(input: string) returns (r: Result<string, CompileError>)
    ensures r == Compile(input)
  {
    var tokens := Tokenizer(input);
    if tokens.Err? {
      return Err(LexFailure(tokens.error));
    }
    var ast := ParseTokens(tokens.value);
    if ast.Err? {
      return Err(ParseFailure(ast.error));
    }
    var newAst := Transformer.Transformer(ast.value);
    r := Ok(Generate(newAst));
  }

  // ---------------------------------------------------------------------------
  // End to end.
  // ---------------------------------------------------------------------------

  lemma {:induction false} TransformPrintableNode(n: Node, parent: Parent)
    requires ValidNode(n)
    ensures parent == CallParent ==> PrintableExpr(TransformNode(n, parent))
    ensures parent == ProgramParent ==> PrintableStatement(TransformNode(n, parent))
    decreases n, 1
  {
    match n {
      case CallExpression(name, params) =>
        TransformPrintableAll(params, CallParent);
      case _ =>
    }
  }

  lemma {:induction false} TransformPrintableAll(ns: seq<Node>, parent: Parent)
    requires ValidAll(ns)
    ensures parent == CallParent ==> PrintableAll(TransformAll(ns, parent))
    ensures parent == ProgramParent ==> PrintableStatements(TransformAll(ns, parent))
    decreases ns, 0
  {
    if ns != [] {
      var ts := TransformAll(ns, parent);
      assert ts[0] == TransformNode(ns[0], parent) && ts[1..] == TransformAll(ns[1..], parent);
      TransformPrintableNode(ns[0], parent);
      TransformPrintableAll(ns[1..], parent);
    }
  }

  /** The transformer's output on a valid program prints unambiguously. */
  lemma {:induction false} TransformPrintable(ast: Program)
    requires ValidProgram(ast)
    ensures PrintableProgram(Transform(ast))
  {
    TransformPrintableAll(ast.body, ProgramParent);
  }

  /**
   * Compiling the Lisp text of any valid program succeeds with the printed
   * transformation of that program, and the output determines the program:
   * reading it back and undoing the transformation gives the program again.
   */
  lemma {:induction false} CompileRendered(ast: Program)
    requires ValidProgram(ast)
    ensures Compile(RenderProgram(ast)) == Ok(Generate(Transform(ast)))
    ensures ReadProgram(Compile(RenderProgram(ast)).value) == Some(Transform(ast))
    ensures RestoreProgram(Transform(ast)) == Some(ast)
  {
    ParseRendered(ast);
    TransformPrintable(ast);
    ReadGeneratedProgram(Transform(ast));
    TransformCharacterization(ast, Transform(ast));
  }

  const AddOneTwoAst := Program([CallExpression("add", [NumberLiteral("1"), NumberLiteral("2")])])

  lemma AddOneTwoRender()
    ensures ValidProgram(AddOneTwoAst) && RenderProgram(AddOneTwoAst) == "(add 1 2)"
  {
    var ast := AddOneTwoAst;
    assert AllInRun("add", Letters) by {
      forall k | 0 <= k < |"add"| ensures InRun("add"[k], Letters) {
      }
    }
    assert ValidNode(ast.body[0]);
    assert RenderParams(ast.body[0].params) == " 1 2";
  }

  lemma AddOneTwoGenerate()
    ensures Generate(Transform(AddOneTwoAst)) == "add(1, 2);"
  {
    var ast := AddOneTwoAst;
    var call := T.CallExpression(T.Identifier("add"), [T.NumberLiteral("1"), T.NumberLiteral("2")]);
    assert TransformAll(ast.body[0].params[1..], CallParent) == [T.NumberLiteral("2")];
    assert TransformAll(ast.body[0].params, CallParent) == call.arguments;
    assert Transform(ast) == T.Program([T.ExpressionStatement(call)]);
    assert GenerateAll(call.arguments, ", ") == "1, 2";
    assert Generate(call) == "add(1, 2)";
  }

  /** A call with two number arguments. */
  lemma AddOneTwo()
    ensures Compile("(add 1 2)") == Ok("add(1, 2);")
  {
    AddOneTwoRender();
    AddOneTwoGenerate();
    CompileRendered(AddOneTwoAst);
  }

  const StringArgumentAst := Program([CallExpression("foo", [StringLiteral("bar")])])

  lemma StringArgumentRender()
    ensures ValidProgram(StringArgumentAst) && RenderProgram(StringArgumentAst) == "(foo \"bar\")"
  {
    var ast := StringArgumentAst;
    assert AllInRun("foo", Letters) by {
      forall k | 0 <= k < |"foo"| ensures InRun("foo"[k], Letters) {
      }
    }
    assert AllInRun("bar", StringBody) by {
      forall k | 0 <= k < |"bar"| ensures InRun("bar"[k], StringBody) {
      }
    }
    assert ValidNode(ast.body[0]);
    assert RenderParams(ast.body[0].params) == " \"bar\"";
  }

  lemma StringArgumentGenerate()
    ensures Generate(Transform(StringArgumentAst)) == "foo(\"bar\");"
  {
    var call := T.CallExpression(T.Identifier("foo"), [T.StringLiteral("bar")]);
    assert TransformAll(StringArgumentAst.body[0].params, CallParent) == call.arguments;
    assert Transform(StringArgumentAst) == T.Program([T.ExpressionStatement(call)]);
    assert GenerateAll(call.arguments, ", ") == "\"bar\"";
    assert Generate(call) == "foo(\"bar\")";
  }

  /** A string argument keeps its quotes. */
  lemma StringArgument()
    ensures Compile("(foo \"bar\")") == Ok("foo(\"bar\");")
  {
    StringArgumentRender();
    StringArgumentGenerate();
    CompileRendered(StringArgumentAst);
  }

  // ---------------------------------------------------------------------------
  // Edge cases of the pipeline.
  // ---------------------------------------------------------------------------

  /** Empty input is an empty program, which prints as nothing. */
  lemma EmptyInput()
    ensures Compile("") == Ok("")
  {
  }

  /** A top-level literal is printed as it is, without a `;`. */
  lemma TopLevelLiteral()
    ensures Compile("42") == Ok("42")
  {
    var s := "42";
    var t := Token(NumberToken, "42");
    assert WellFormed(t);
    assert s[0..] == Lexeme(t) + "";
    TokenStep(s, 0, 2, t, "");
    assert [t] + [] == [t];
  }

  /** A character no branch recognizes is the `TypeError` of my-demo.js:182. */
  lemma UnknownCharacterInput()
    ensures Compile("(add @)") == Err(LexFailure(UnknownCharacter('@', 5)))
  {
    var s := "(add @)";
    var e := UnknownCharacter('@', 5);
    assert Scan(s, 5) == Err(e);
    assert TokenizeFrom(s, 5) == Err(e);
    assert Scan(s, 4) == Ok(([], 5));
    ScanStep(s, 4, 5, []);
    RunEndAt(s, 1, 4, Letters);
    assert s[1..4] == "add";
    assert Scan(s, 1) == Ok(([Token(NameToken, "add")], 4));
    ScanStep(s, 1, 4, [Token(NameToken, "add")]);
    assert Scan(s, 0) == Ok(([OpenParen], 1));
    ScanStep(s, 0, 1, [OpenParen]);
  }

  /**
   * A name that runs to the end of the input, after text that tokenizes, ends
   * the pipeline in the lexer: the JavaScript loop runs past the end until it
   * throws.
   */
  lemma NameAtEnd(s: string, p: nat)
    requires p < |s| && Tokenize(s[..p]).Ok?
    requires forall m :: p <= m < |s| ==> IsLetter(s[m])
    ensures Compile(s) == Err(LexFailure(NameAtEndOfInput(p)))
  {
    NameAtEndAfterTokens(s, p);
  }

  /**
   * A string left open to the end of the input, after text that tokenizes,
   * ends the pipeline in the lexer: the JavaScript loop runs past the end
   * until it throws.
   */
  lemma StringUnterminated(s: string, p: nat)
    requires p < |s| && s[p] == '"' && Tokenize(s[..p]).Ok?
    requires forall m :: p < m < |s| ==> s[m] != '"'
    ensures Compile(s) == Err(LexFailure(UnterminatedString(p)))
  {
    UnterminatedAfterTokens(s, p);
  }

  const UnclosedCallTokens := [OpenParen, Token(NameToken, "add"), Token(NumberToken, "2")]

  lemma UnclosedCallTokenized()
    ensures Tokenize("(add 2") == Ok(UnclosedCallTokens)
  {
    var s := "(add 2";
    var name, two := Token(NameToken, "add"), Token(NumberToken, "2");
    RunEndAt(s, 5, 6, Digits);
    assert s[5..6] == "2";
    assert Scan(s, 5) == Ok(([two], 6));
    ScanStep(s, 5, 6, [two]);
    assert TokenizeFrom(s, 6) == Ok([]);
    assert [two] + [] == [two];
    assert TokenizeFrom(s, 5) == Ok([two]);
    assert Scan(s, 4) == Ok(([], 5));
    ScanStep(s, 4, 5, []);
    RunEndAt(s, 1, 4, Letters);
    assert s[1..4] == "add";
    assert Scan(s, 1) == Ok(([name], 4));
    ScanStep(s, 1, 4, [name]);
    assert [] + [two] == [two];
    assert [name] + [two] == [name, two];
    assert TokenizeFrom(s, 1) == Ok([name, two]);
    assert Scan(s, 0) == Ok(([OpenParen], 1));
    ScanStep(s, 0, 1, [OpenParen]);
    assert [OpenParen] + [name, two] == UnclosedCallTokens;
  }

  lemma UnclosedCallParsed()
    ensures Parse(UnclosedCallTokens) == Err(UnexpectedEnd)
  {
    var n := CallExpression("add", [NumberLiteral("2")]);
    assert Flatten(n)[..3] == UnclosedCallTokens;
    UnclosedCallRejected([], n, 3);
    assert FlattenSeq([]) + Flatten(n)[..3] == UnclosedCallTokens;
  }

  /** A call whose closing parenthesis is missing runs out of tokens. */
  lemma UnclosedCall()
    ensures Compile("(add 2") == Err(ParseFailure(UnexpectedEnd))
  {
    UnclosedCallTokenized();
    UnclosedCallParsed();
  }

  /**
   * The parser takes whatever token follows `(` as the call's name
   * (my-demo.js:216-217), so `(()` compiles to `(();`.
   */
  lemma ParenAsName()
    ensures Compile("(()") == Ok("(();")
  {
    var toks := [OpenParen, OpenParen, CloseParen];
    ParenAsNameTokenized();
    var ast := Program([CallExpression("(", [])]);
    assert FlattenSeq(ast.body) == [OpenParen, Token(NameToken, "("), CloseParen];
    ParseCharacterization(toks, ast);
    ParenAsNameGenerated();
  }

  lemma ParenAsNameTokenized()
    ensures Tokenize("(()") == Ok([OpenParen, OpenParen, CloseParen])
  {
    var s := "(()";
    assert Scan(s, 2) == Ok(([CloseParen], 3));
    ScanStep(s, 2, 3, [CloseParen]);
    assert TokenizeFrom(s, 3) == Ok([]);
    assert [CloseParen] + [] == [CloseParen];
    assert Scan(s, 1) == Ok(([OpenParen], 2));
    ScanStep(s, 1, 2, [OpenParen]);
    assert [OpenParen] + [CloseParen] == [OpenParen, CloseParen];
    assert Scan(s, 0) == Ok(([OpenParen], 1));
    ScanStep(s, 0, 1, [OpenParen]);
    assert [OpenParen] + [OpenParen, CloseParen] == [OpenParen, OpenParen, CloseParen];
  }

  lemma ParenAsNameGenerated()
    ensures Generate(Transform(Program([CallExpression("(", [])]))) == "(();"
  {
    var newAst := T.Program([T.ExpressionStatement(T.CallExpression(T.Identifier("("), []))]);
    assert Transform(Program([CallExpression("(", [])])) == newAst;
    assert Generate(newAst.body[0].expression) == "(()";
  }
}
