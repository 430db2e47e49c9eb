/**
 * The vectors of test.js, stage by stage and for the whole pipeline, and the
 * example in the comments of my-demo2.js, which is the same input.
 */
module TestVectors {
  import opened Wrappers
  import opened Tokens
  import opened SourceAst
  import opened Lexer
  import opened Parser
  import T = TargetAst
  import opened Transformer
  import opened CodeGenerator
  import opened Render
  import opened Compiler
  import opened TableLexer
  import opened TableParser

  const TestInput := "(add 2 (subtract 4 2))"
  const TestOutput := "add(2, subtract(4, 2));"

  const TestTokens := [
    OpenParen, Token(NameToken, "add"), Token(NumberToken, "2"),
    OpenParen, Token(NameToken, "subtract"), Token(NumberToken, "4"), Token(NumberToken, "2"),
    CloseParen, CloseParen
  ]

  const TestAst := Program([
    CallExpression("add", [
      NumberLiteral("2"),
      CallExpression("subtract", [NumberLiteral("4"), NumberLiteral("2")])
    ])
  ])

  const TestNewAst := T.Program([
    T.ExpressionStatement(
      T.CallExpression(T.Identifier("add"), [
        T.NumberLiteral("2"),
        T.CallExpression(T.Identifier("subtract"), [T.NumberLiteral("4"), T.NumberLiteral("2")])
      ]))
  ])

  /** Every name and number of test.js:25-45 is one the tokenizer produces. */
  lemma TestValid()
    ensures ValidProgram(TestAst)
  {
    var add := TestAst.body[0];
    var subtract := add.params[1];
    assert AllInRun("subtract", Letters) by {
      forall k | 0 <= k < |"subtract"| ensures InRun("subtract"[k], Letters) {
      }
    }
    assert ValidNode(subtract);
    assert ValidNode(add);
  }

  const TestSubtract := CallExpression("subtract", [NumberLiteral("4"), NumberLiteral("2")])

  lemma TestRenderSubtract()
    ensures RenderNode(TestSubtract) == "(subtract 4 2)"
  {
    RenderPair(NumberLiteral("4"), NumberLiteral("2"), "4", "2", " 4 2");
    assert "(subtract 4 2)" == "(" + "subtract" + " 4 2" + ")";
    RenderCall(TestSubtract, "subtract", TestSubtract.params, " 4 2", "(subtract 4 2)");
  }

  lemma TestParamsText()
    ensures " 2 (subtract 4 2)" == " " + "2" + (" " + "(subtract 4 2)")
  {
  }

  lemma TestInputText()
    ensures TestInput == "(" + "add" + " 2 (subtract 4 2)" + ")"
  {
    assert TestInput == "(add 2 (subtract 4 2)" + ")";
    assert "(add 2 (subtract 4 2)" == "(" + "add" + " 2 (subtract 4 2)";
  }

  /** The input of test.js:10 is the Lisp text of the tree of test.js:25-45. */
  lemma TestRender()
    ensures RenderProgram(TestAst) == TestInput
  {
    TestRenderSubtract();
    TestParamsText();
    var add := TestAst.body[0];
    assert add.params == [NumberLiteral("2"), TestSubtract];
    RenderPair(NumberLiteral("2"), TestSubtract, "2", "(subtract 4 2)", " 2 (subtract 4 2)");
    TestInputText();
    RenderCall(add, "add", add.params, " 2 (subtract 4 2)", TestInput);
    assert TestAst.body[1..] == [];
  }

  /** Two parameters, each after one space. */
  lemma RenderPair(a: Node, b: Node, ta: string, tb: string, out: string)
    requires RenderNode(a) == ta && RenderNode(b) == tb && out == " " + ta + (" " + tb)
    ensures RenderParams([a, b]) == out
  {
    assert [a, b][1..] == [b] && [b][1..] == [];
    assert RenderParams([b]) == " " + tb + "";
  }

  /** A call is its name and its parameters in parentheses. */
  lemma RenderCall(n: Node, name: string, params: seq<Node>, text: string, out: string)
    requires n == CallExpression(name, params) && RenderParams(params) == text
    requires out == "(" + name + text + ")"
    ensures RenderNode(n) == out
  {
  }

  /** The tokens of test.js:13-23 are those of test.js:10. */
  lemma TestTokenizer()
    ensures Tokenize(TestInput) == Ok(TestTokens)
  {
    TestValid();
    TestRender();
    TokenizeRendered(TestAst);
    TestFlatten();
  }

  lemma TestFlatten()
    ensures FlattenSeq(TestAst.body) == TestTokens
  {
  }

  /** The tree of test.js:25-45 is what the tokens of test.js:13-23 parse to. */
  lemma TestParser()
    ensures Parse(TestTokens) == Ok(TestAst)
  {
    ParseFlatten(TestAst);
    TestFlatten();
  }

  /** The assertion of test.js:80: the tree of test.js:25-45 transforms to that of test.js:47-76. */
  lemma TestTransformer()
    ensures Transform(TestAst) == TestNewAst
  {
    var add := TestAst.body[0];
    var subtract := add.params[1];
    assert TransformAll(subtract.params, CallParent) == [T.NumberLiteral("4"), T.NumberLiteral("2")];
    assert TransformAll(add.params, CallParent) == TestNewAst.body[0].expression.arguments;
  }

  /** The tree of test.js:47-76 prints as the output of test.js:11. */
  lemma TestCodeGenerator()
    ensures Generate(TestNewAst) == TestOutput
  {
    TestGenerateStatement();
    assert |TestNewAst.body| == 1;
  }

  lemma TestGenerateStatement()
    ensures Generate(TestNewAst.body[0]) == TestOutput
  {
    TestGenerateArguments();
    var add := TestNewAst.body[0].expression;
    TestOutputText();
    StatementPrints(add, "add", add.arguments, "2, subtract(4, 2)", TestOutput);
  }

  lemma TestOutputText()
    ensures TestOutput == "add" + "(" + "2, subtract(4, 2)" + ")" + ";"
  {
  }

  /** A call statement prints as its name, its arguments in parentheses, and `;`. */
  lemma StatementPrints(e: T.Node, name: string, arguments: seq<T.Node>, text: string, out: string)
    requires e == T.CallExpression(T.Identifier(name), arguments)
    requires GenerateAll(arguments, ", ") == text && out == name + "(" + text + ")" + ";"
    ensures Generate(T.ExpressionStatement(e)) == out
  {
    assert Generate(e) == name + "(" + text + ")";
  }

  const TestNewSubtract := T.CallExpression(T.Identifier("subtract"), [T.NumberLiteral("4"), T.NumberLiteral("2")])

  lemma TestGenerateSubtract()
    ensures Generate(TestNewSubtract) == "subtract(4, 2)"
  {
    PairPrints(T.NumberLiteral("4"), T.NumberLiteral("2"), "4", "2", "4, 2");
    assert "subtract(4, 2)" == "subtract" + "(" + "4, 2" + ")";
    CallPrints(TestNewSubtract, "subtract", TestNewSubtract.arguments, "4, 2", "subtract(4, 2)");
  }

  lemma TestArgumentsText()
    ensures "2, subtract(4, 2)" == "2" + ", " + "subtract(4, 2)"
  {
  }

  lemma TestGenerateArguments()
    ensures GenerateAll(TestNewAst.body[0].expression.arguments, ", ") == "2, subtract(4, 2)"
  {
    TestGenerateSubtract();
    TestArgumentsText();
    assert TestNewAst.body[0].expression.arguments == [T.NumberLiteral("2"), TestNewSubtract];
    PairPrints(T.NumberLiteral("2"), TestNewSubtract, "2", "subtract(4, 2)", "2, subtract(4, 2)");
  }

  /** Two arguments print with `, ` between them. */
  lemma PairPrints(a: T.Node, b: T.Node, ta: string, tb: string, out: string)
    requires Generate(a) == ta && Generate(b) == tb && out == ta + ", " + tb
    ensures GenerateAll([a, b], ", ") == out
  {
    assert [a, b][1..] == [b];
  }

  /** A call prints as its name and its arguments in parentheses. */
  lemma CallPrints(e: T.Node, name: string, arguments: seq<T.Node>, text: string, out: string)
    requires e == T.CallExpression(T.Identifier(name), arguments)
    requires GenerateAll(arguments, ", ") == text && out == name + "(" + text + ")"
    ensures Generate(e) == out
  {
  }

  /** The input of test.js:10 compiles to the output of test.js:11. */
  lemma TestCompiler()
    ensures Compile(TestInput) == Ok(TestOutput)
  {
    TestTokenizer();
    TestParser();
    TestTransformer();
    TestCodeGenerator();
  }

  /** The example in the comments of my-demo2.js (my-demo2.js:11-27, my-demo2.js:103-139), which is also the vector of test.js. */
  lemma TableExample()
    ensures TableTokenize(TestInput) == Ok(TestTokens)
    ensures TableParse(TestTokens) == Ok(TestAst)
  {
    assert forall k :: 0 <= k < |TestInput| ==> TestInput[k] != '"';
    QuoteFreeAgrees(TestInput);
    TestTokenizer();
    TablePipelineAgrees(TestInput);
    TestParser();
  }
}
