# The super tiny compiler, in Dafny

This project models the two compilers of kolinkuang/the-super-tiny-compiler.
Both translate Lisp-style calls such as `(add 2 (subtract 4 2))` into C-style
calls such as `add(2, subtract(4, 2));`.

- **my-demo.js** does it in four stages:
  - `tokenizer`: text to tokens;
  - `parser`: tokens to a Lisp AST;
  - `transformer`: Lisp AST to a C-like AST;
  - `codeGenerator`: C-like AST to text.

  `compiler` runs the four stages in order.
- **my-demo2.js** does the first two stages a second time, through handler
  tables keyed by regular expressions: `_tokenizer` and `_parser`.

## Modules

| Module | File | What it holds |
|---|---|---|
| `Wrappers` | `wrappers.dfy` | `Result` and `Option`. A thrown `TypeError` becomes an `Err`. |
| `Tokens` | `tokens.dfy` | Tokens and the character classes `\s`, `[0-9]` and `[a-z]/i`. |
| `Lexer` | `lexer.dfy` | `tokenizer`. |
| `SourceAst`, `Parser` | `source_ast.dfy`, `parser.dfy` | The Lisp AST and `parser`. |
| `TargetAst`, `Transformer` | `target_ast.dfy`, `transformer.dfy` | The C-like AST and `transformer`. |
| `CodeGenerator` | `code_generator.dfy` | `codeGenerator`. |
| `Render` | `render.dfy` | The Lisp text of an AST. |
| `Compiler` | `compiler.dfy` | `compiler`, and the edge cases of the pipeline. |
| `TestVectors` | `test_vectors.dfy` | The vectors of test.js and the example of my-demo2.js. |
| `Patterns` | `patterns.dfy` | The `RegexPattern` table of my-demo2.js, and its key lookup. |
| `TableLexer`, `TableParser` | `table_lexer.dfy`, `table_parser.dfy` | `_tokenizer` and `_parser`. |

### Shape of each stage

Every stage with a loop follows the same shape:
- a specification function, written as recursion over the cursor (`Tokenize`,
  `Parse`, `Transform`, `TableTokenize`, `TableParse`);
- a method with the loops and variables of the JavaScript, proved equal to
  that function.

The parsers share one cursor across the recursive `walk` calls. That cursor is
the field `current` of the classes `Parser.Walker` and
`TableParser.TableWalker`.

The transformer attaches `_context` to the source nodes as it walks them. Here
`_context` is an accumulator: `TraverseNode` and `TraverseArray` receive the
parent's list and return it extended.

### Partners

Each specification function is paired with an independent definition, and a
lemma ties the two together in both directions:
- **Tokenizer:** a tokenizing succeeds exactly when the input is white space
  woven between token texts (`Lexer.TokenizeCharacterization`).
- **Parser:** a parse succeeds exactly when the tokens spell out the program
  (`Parser.ParseCharacterization`).
- **Transformer:** its output undoes to its input, through the inverse
  `RestoreProgram` (`Transformer.TransformCharacterization`).
- **Code generator:** its output is read back by an independent reader,
  `ReadProgram` (`CodeGenerator.GenerateCharacterization`).
- **Whole compiler:** `Render` prints an AST as Lisp text, which gives
  `Compiler.CompileRendered`. For every valid program, compiling its Lisp
  text succeeds, and the output reads back to the transformed program.
- **my-demo2.js:** the table-driven stages are related to the stages of
  my-demo.js (`TableLexer.TableTokenizeCharacterization`,
  `TableParser.TableParseAgrees`, `TableParser.TablePipelineAgrees`).

### Where the code departs from its documented design

The model follows the code in each of these cases.

- **The call name is not checked.** `parser` takes the token after `(` as the
  call name whatever its type, even a parenthesis. So `(()` compiles to
  `(();` (`Compiler.ParenAsName`).
- **Two inner loops run past the end of the input.** Once the cursor passes
  the end, `char` is `undefined` and the loop keeps going:
  - an unterminated string, because `undefined` never equals `"`
    (my-demo.js:157-160);
  - a name that runs to the end of the input, because `/[a-z]/i.test(undefined)`
    holds (my-demo.js:171-174, and the letter handler at my-demo2.js:70-73).

  Each pass appends the text `undefined` to `value`. The string grows until
  the engine gives up: a `RangeError` when its limit on string length is
  reached first, or the heap running out. Either way the failure is not one of
  the program's own errors. The model renders it as `UnterminatedString` and
  `NameAtEndOfInput`.
- **An unclosed call has no dedicated error.** It fails with the `TypeError`
  of reading a field of the missing token past the end: `.value` for the name
  when `(` is the last token (my-demo.js:215, my-demo2.js:154), otherwise the
  field read by the parameter loop's test (`.type` at my-demo.js:221, `.value`
  at my-demo2.js:158). That error is modelled as `UnexpectedEnd`.
- **The two pipelines differ.**
  - `_tokenizer` has no handler for `"`, so a string is an unknown character.
  - `_parser` dispatches on the token's value through unanchored expressions,
    not on its type. For a string token this means:
    - a value containing a digit makes a number literal
      (`TableParser.StringWithDigit`);
    - a value with no digit but a `(` opens a call;
    - inside a call, the value `)` closes it;
    - any other value is rejected, where `parser` keeps a string literal.
  - What is proved is agreement on well-formed tokens with no string tokens,
    which is all `_tokenizer` produces. There the two parsers agree, errors
    included (`TableParser.TableParseAgrees`), and so do the two pipelines on
    every input `_tokenizer` accepts (`TableParser.TablePipelineAgrees`).

## Model

| member | source | states |
|---|---|---|
| Lexer.CollectRun | my-demo.js:141-180 | An inner run loop stops at the end of the maximal run from its start and collects exactly the characters it passed. |
| Lexer.Tokenizer | my-demo.js:110-186 | The tokenizer loop returns what the specification `Tokenize` gives: the same tokens or the same error. |
| Lexer.TokenizerStep | my-demo.js:115-182 | One pass of the loop body does what one `Scan` step says: the token it pushes (none for white space), the cursor it moves to, or the error it throws. |
| Lexer.TokenizeCharacterization | my-demo.js:110-186 | `Tokenize(s)` is `Ok(toks)` if and only if `s` is white space woven between the texts of `toks`. In that weave each token is well formed, number and name runs are maximal, and a string token is the text between its quotes. |
| Lexer.LexErrorMeaning | my-demo.js:154-182 | Every error names a real position:<br>- an unknown character, which is none of paren, space, digit, quote or letter;<br>- an opening quote with no closing quote after it;<br>- a letter run that reaches the end of the input. |
| Lexer.UnknownCharacterRejected | my-demo.js:182 | An unrecognised character with no `"` anywhere before it makes tokenizing fail. |
| Lexer.UnknownCharacterAfterTokens | my-demo.js:113-182 | An unrecognised character right after any text that tokenizes makes the whole input fail with exactly that character and its index. |
| Lexer.NameAtEndAfterTokens | my-demo.js:169-180 | A letter run to the end of the input, right after any text that tokenizes, makes tokenizing fail with `NameAtEndOfInput` at the run's start. |
| Lexer.UnterminatedAfterTokens | my-demo.js:154-167 | A `"` with no `"` after it, right after any text that tokenizes, makes tokenizing fail with `UnterminatedString` at the quote. |
| Parser.Walker.Walk | my-demo.js:192-232 | `walk` follows `ParseExpr` from the cursor. It returns the same node and leaves the cursor after it, or returns the same error. |
| Parser.ParseTokens | my-demo.js:188-244 | `parser` returns what `Parse` gives. |
| Parser.ParseCharacterization | my-demo.js:188-244 | `Parse(toks)` is `Ok(p)` if and only if `toks` spell out the tokens of `p.body` exactly. The name slot of a call is matched on its value only. |
| Parser.ParseFlatten | my-demo.js:188-244 | Every program is parsed back from its own tokens. |
| Parser.UnclosedCallRejected | my-demo.js:211-229 | Tokens that stop inside a call, after any complete prefix, fail with `UnexpectedEnd`. |
| Parser.StrayTokenRejected | my-demo.js:231-240 | After any sequence of complete top-level expressions, a name or `)` fails the whole parse with an error at that token and index, whatever follows. |
| Parser.StrayParameterRejected | my-demo.js:210-231 | After any complete expressions, the opening of a call and any complete parameters, a name fails the whole parse with an error at that token and index, whatever follows. |
| Transformer.TraverseNode | my-demo.js:255-279 | Visiting a node appends exactly its transformed form to the parent's context. |
| Transformer.TraverseArray | my-demo.js:251-253 | Visiting the children in order appends their transformed forms, in order. |
| Transformer.Transformer | my-demo.js:246-336 | `transformer` returns `Transform(ast)`. |
| Transformer.TransformCharacterization | my-demo.js:291-333 | `Transform(ast) == t` if and only if `RestoreProgram(t) == Some(ast)`. Top-level calls are wrapped in `ExpressionStatement`, nested calls stay bare, callees are `Identifier`s, and literals are copied. |
| Transformer.TransformProgramPreservesDepth | my-demo.js:310-332 | The argument nesting of the output equals the call nesting of the input. |
| CodeGenerator.Generate | my-demo.js:338-356 | A statement prints ending in `;`, a call ends in `)`, and a string literal prints between double quotes. `ReadProgram` is its inverse on printable programs (`GenerateCharacterization`). |
| CodeGenerator.ReadGeneratedProgram | my-demo.js:338-356 | Reading back a printed printable program gives the program. |
| CodeGenerator.GenerateCharacterization | my-demo.js:338-356 | `ReadProgram(s) == Some(t)` if and only if `t` is printable and prints as `s`. So the generator is one-to-one on printable programs. |
| Render.TokenizeRendered | my-demo.js:110-186 | The Lisp text of a valid program tokenizes to the program's own tokens. |
| Render.ParseRendered | my-demo.js:188-244 | Tokenizing and then parsing the Lisp text of a valid program gives the program back. |
| Compiler.Compiler | my-demo.js:358-365 | `compiler` returns what `Compile` gives: the four stages in order, stopping at the first error. |
| Compiler.TransformPrintable | my-demo.js:291-333 | The transformer's output on a valid program is printable. |
| Compiler.CompileRendered | my-demo.js:358-365 | Compiling the Lisp text of a valid program yields the printed transformation. That output reads back to the transformation, which restores to the program. |
| TestVectors.TestTokenizer | test.js:10-23 | The input of the test tokenizes to the listed tokens. |
| TestVectors.TestParser | test.js:13-45 | The listed tokens parse to the listed AST. |
| TestVectors.TestTransformer | test.js:80 | The listed AST transforms to the listed new AST. |
| TestVectors.TestCodeGenerator | test.js:47-76 | The new AST prints as the expected output. |
| TestVectors.TestCompiler | test.js:10-11 | The test input compiles to the test output. |
| Compiler.EmptyInput | my-demo.js:234-243 | The empty input compiles to the empty output. |
| Compiler.TopLevelLiteral | my-demo.js:292-299 | A bare top-level number is printed without a `;`. |
| Compiler.AddOneTwo | my-demo.js:358-365 | `(add 1 2)` compiles to `add(1, 2);`. |
| Compiler.StringArgument | my-demo.js:351-352 | `(foo "bar")` compiles to `foo("bar");`. |
| Compiler.UnknownCharacterInput | my-demo.js:182 | `@` is an unknown character at its position. |
| Compiler.NameAtEnd | my-demo.js:169-180 | After any text that tokenizes, a letter run to the end of the input fails compiling in the lexer with `NameAtEndOfInput` at its start, the model's rendering of the loop that runs past the end. |
| Compiler.StringUnterminated | my-demo.js:154-167 | After any text that tokenizes, a `"` with no `"` after it fails compiling in the lexer with `UnterminatedString` at the quote, the model's rendering of the loop that runs past the end. |
| Compiler.UnclosedCall | my-demo.js:211-229 | `(add 2` fails while parsing, with `UnexpectedEnd`. |
| Compiler.ParenAsName | my-demo.js:211-217 | A parenthesis in the name slot is taken as the name, so `(()` compiles. |
| Patterns.Find | my-demo2.js:90 | `find` returns the first key whose expression matches, or nothing exactly when none matches. |
| Patterns.TestChar | my-demo2.js:3-9 | Testing a one-character string tests its character against the class. |
| TableLexer.Handle | my-demo2.js:33-83 | The handler of the found key returns the cursor and tokens of one `TableScan` step, or its error. |
| TableLexer.TableTokenizer | my-demo2.js:85-100 | `_tokenizer` returns what `TableTokenize` gives. |
| TableLexer.TableScanAgrees | my-demo2.js:33-97 | One table step equals one step of `tokenizer`, except that `"` is an unknown character. |
| TableLexer.TableTokenizeCharacterization | my-demo2.js:28-101 | `_tokenizer` yields `toks` if and only if `tokenizer` yields `toks` and `toks` holds no string token. |
| TableLexer.QuoteFreeAgrees | my-demo2.js:28-101 | On inputs without `"`, the two tokenizers give the same result, errors included. |
| TableParser.TableWalker.Walk | my-demo2.js:170-177 | `_walk` follows `TableParseExpr` from the shared cursor. |
| TableParser.TableWalker.CallHandler | my-demo2.js:150-165 | The `(` handler follows `TableParseExpr` from the cursor: it returns the same call node and leaves the cursor after its `)`, or returns the same error. |
| TableParser.TableParseTokens | my-demo2.js:140-189 | `_parser` returns what `TableParse` gives. |
| TableParser.TableParseAgrees | my-demo2.js:140-189 | On well-formed tokens without strings, `_parser` and `parser` give the same program or the same error. |
| TableParser.TablePipelineAgrees | my-demo2.js:28-189 | Whatever `_tokenizer` accepts, `tokenizer` accepts with the same tokens. `_parser` then does what `parser` does. |
| TableParser.TableParseNoString | my-demo2.js:141-166 | `_parser` never builds a string literal. |
| TableParser.StringWithDigit | my-demo2.js:142-148 | At any cursor, a string token whose value holds a digit anywhere becomes a number literal with that value in `_parser`, where `parser` makes a string literal; both move the cursor by one. |
| TableParser.NameRejected | my-demo2.js:170-176 | A well-formed name at any cursor matches no key and is rejected with an error at that token and index. |
| TableParser.NameAfterBodyRejected | my-demo2.js:170-185 | On a stream of well-formed tokens without strings, where `_parser` agrees with `parser`: after any sequence of complete top-level expressions, a name fails the whole parse with an error at that token and index, whatever follows. |
| TestVectors.TableExample | my-demo2.js:11-27 | The example input of the file tokenizes and parses to the example tokens and AST. |

## Left out

- **Error messages:** the exact texts of the thrown `TypeError`s are not modelled. An error is one of the variants of `LexError` and `ParseError`, carrying the offending character or token and its position.
- **Loops past the end of the input:** the two inner loops of `tokenizer` that run past the end append `undefined` until the engine gives up (a `RangeError` when the limit on string length is reached first). The model does not follow those passes. It ends them at once with `UnterminatedString` or `NameAtEndOfInput`, and the same goes for the letter handler of `_tokenizer`.
- **Unknown node types:** the `default` branches of `codeGenerator` and `traverseNode` (my-demo.js:272-273, my-demo.js:353-354) are left out. The ASTs are closed datatypes, so an unknown node type cannot be represented.
- **Characters:** characters are Unicode scalar values, whereas JavaScript strings are UTF-16 code units. `\s` is the list of white-space characters of ECMAScript.
- **Aliasing of `_context`:** the transformer writes `_context` onto the input AST as a side effect. The model returns a fresh tree and does not change its input. The timing of pushes differs: the JavaScript pushes a call into its parent's context before visiting the call's arguments (my-demo.js:321-330, then my-demo.js:267), while `TraverseNode` appends the call after building its arguments. Only the final contents of each list, and their order, agree.
- **Wrappers and stubs:** the curried wrappers of my-demo2.js (my-demo2.js:300-326) and its unfinished `_transformer`, `_traverser` and `_codeGenerator` (my-demo2.js:227-297) are not part of this model.
- **test.js:** only its values are used, as the vector lemmas of `TestVectors`.
