# tiny-JS-compiler in Dafny

A model of `src/compiler.js`, a toy compiler that turns JavaScript variable declarations
(`let y = 5`, `const a = 1`) into `var` declarations. The compiler runs four stages, and this
project models each of them and proves properties about it:

- the **tokenizer** is a cursor scan that produces Punctuator, Numeric, Identifier and
  Keyword tokens;
- the **parser** is a recursive descent (`walk`) over one shared cursor, with a lookahead
  and step-back rule for declarations;
- the **traverser** is a pre-order visitor walk, which the **transformer** uses to copy
  every top-level declaration with kind `var` into a new Program;
- the **code generator** prints the new tree.

`compiler` composes the stages. Whatever a stage throws is modelled as an `Err` value.
Most errors name the offending character, token type or node type; the errors for a read
past the last token, a missing child slot, a missing `_context` and a null node name
nothing (see Left out).

Modules, one per file:

- `syntax.dfy` (`Syntax`) holds tokens, errors and results.
- `ast.dfy` (`Ast`) holds the tree.
- `chars.dfy` (`CharClasses`) has the character classes that stand in for the regular
  expressions.
- `numbers.dfy` (`Numbers`) defines decimal numerals: the value of a digit string, and
  the text of a number.
- `tokenizer.dfy`, `parser.dfy`, `traverser.dfy`, `transformer.dfy`, `codegen.dfy` and
  `compiler.dfy` model the stages.
- `roundtrip.dfy` (`RoundTrip`) proves that compiling is idempotent: the output of a
  successful compilation compiles to itself. This rests on the corrected letter loop (see
  Findings) and on exact numbers. In the source it fails for numerals from 10^21 up to
  where `Number` overflows to `Infinity` (see Left out). The printed text of every
  statement the generator outputs tokenizes and parses back to that statement. The parsed
  statement differs only in the original text of its numerals. The transformer leaves a Program of
  `var` declarations unchanged.

Each imperative part of the source is a Dafny `method` with the source's loop or
recursion:

- the tokenizer loop;
- `walk` and the parser loop;
- `traverseArray` with its `forEach` and `traverseNode`.

Each such method is proved equal to a specification function (`Tokens`, `Walked`,
`Parsed`, `Run` over `Events`). The properties are lemmas about those functions. The code
generator and `compiler` are pure functions.

The state that the visitor callbacks change is a value of type `S`, which each callback
receives and returns. The transformer's `_context` array is that state.

Two behaviours one might expect that the code does not have; the model follows the
code:

- `#` is in the punctuator class (line 14). So `compiler("#")` gets past the tokenizer
  and fails in the parser with the type Punctuator.
- `var a` does not compile to a declaration with a null initializer. The parser reads a
  lookahead past the last token and fails (`walk` at line 101). As written, the tokenizer
  does not even get that far: see Findings.

## Model

| member | source | states |
|---|---|---|
| CharClasses.ClassesDisjoint | src/compiler.js:14-60 | the punctuator, whitespace, digit and letter classes are pairwise disjoint, so the order of the tests matters only for the `=>` lookahead |
| CharClasses.UnanchoredKeywordTest | src/compiler.js:69-70 | the keyword test is unanchored and ignores case: `var`, `VAR`, `Let`, `format`, `myvar` and `iffy` all pass it |
| CharClasses.IsPunctuator | src/compiler.js:14 | the punctuator class: the 32 ASCII punctuation characters and the listed full-width and typographic marks |
| CharClasses.IsWhitespace | src/compiler.js:33 | the `\s` class: the WhiteSpace and LineTerminator characters of ECMAScript |
| CharClasses.IsDigit | src/compiler.js:39-40 | `/[0-9]/`: the ASCII digits |
| CharClasses.IsAsciiLetter | src/compiler.js:59 | `[a-z]` with the ignore-case flag: the ASCII letters of either case |
| CharClasses.ContainsKeyword | src/compiler.js:69 | the keyword test: some keyword occurs at some offset of the word, comparing ASCII letters without regard to case |
| CharClasses.KeywordTestIgnoresCase | src/compiler.js:69 | for all words: two words equal up to the case of their ASCII letters both pass or both fail the keyword test |
| CharClasses.KeywordTestUnanchored | src/compiler.js:69 | for all words: a word that passes the keyword test still passes it with any text before and after it |
| CharClasses.ShortWordIsNoKeyword | src/compiler.js:69-70 | a word of fewer than two letters never passes the keyword test |
| Numbers.DecimalValue | src/compiler.js:113 | `Number(token.value)` on a digit run, as an exact number: the digits read most significant first |
| Numbers.DecimalText | src/compiler.js:309 | the text of a number is canonical: a digit run with no leading zero, except for `0` itself |
| Numbers.ValueOfText | src/compiler.js:113 | reading the printed text of any number gives the number back |
| Numbers.TextOfValue | src/compiler.js:113 | printing the value of a canonical digit run gives the run back |
| Numbers.LeadingZerosDropped | src/compiler.js:113 | `007` reads as 7 and prints as `7` |
| Tokenizer.DigitsTest | src/compiler.js:45 | `NUMBERS.test(char)` on a character that may be `undefined`: true for a digit, false past the end, since "undefined" holds no digit |
| Tokenizer.LettersTest | src/compiler.js:64 | the letter loop's guard as corrected: true for an ASCII letter, false past the end |
| Tokenizer.LettersTestAsWritten | src/compiler.js:64 | the letter loop's guard as written: true for an ASCII letter and true past the end, since "undefined" is made of letters |
| Tokenizer.LetterLoopAsWritten | src/compiler.js:64-67 | the letter loop as written, run for at most a given number of rounds: the cursor where its guard first fails, or none within the rounds given |
| Tokenizer.RunEnd | src/compiler.js:45-48 | a run ends at the first character outside the class, or at the end of the input; every character before that end is in the class |
| Tokenizer.TokenEnd | src/compiler.js:14-85 | a lexeme is non-empty and lies within the input; whitespace is one character; a lexeme that does not start with whitespace contains none |
| Tokenizer.Emitted | src/compiler.js:24-82 | whitespace emits no token; any other lexeme emits exactly one token, whose text is the lexeme |
| Tokenizer.ScanPunctuator | src/compiler.js:14-30 | a punctuator takes one character, or two when `=` is followed by `>`; the token text is exactly those characters |
| Tokenizer.ScanDigits | src/compiler.js:45-48 | the digit loop stops at the end of the maximal digit run and gathers exactly that run |
| Tokenizer.ScanLetters | src/compiler.js:64-67 | the letter loop, stopping at the end of the input, ends at the end of the maximal letter run and gathers exactly that run |
| Tokenizer.Tokenize | src/compiler.js:2-91 | the scan returns exactly `Tokens(input)`, which is the token list or the error of the first rejected character |
| Tokenizer.TokensRoundTrip | src/compiler.js:9-88 | concatenating the token texts gives back the input with every whitespace character removed |
| Tokenizer.LexErrorNamesFirstBadCharacter | src/compiler.js:87 | tokenizing fails exactly when some character is in no class; the error names the first such character |
| Tokenizer.TokensWellFormed | src/compiler.js:14-85 | every token is well formed: a punctuator is one punctuator character or `=>`; a Numeric token is a digit run; a word token is a letter run whose kind is given by the keyword test |
| Tokenizer.TokensMaximal | src/compiler.js:40-85 | runs are maximal: in an input without whitespace, no two neighbouring tokens are two digit runs, two letter runs, or `=` followed by a token starting with `>` |
| Tokenizer.WhitespaceYieldsNoTokens | src/compiler.js:33-37 | an input made only of whitespace yields no tokens |
| Tokenizer.TokensFromSuffix | src/compiler.js:9-88 | the tokens from a cursor are the tokens of the rest of the text, because no rule looks back |
| Tokenizer.TokensJoined | src/compiler.js:33-37 | two texts joined by one whitespace character tokenize to the first text's tokens followed by the second's; an error in either text is the error of the whole |
| Tokenizer.WordLexeme | src/compiler.js:59-85 | a letter run on its own is one word token of the kind the keyword test gives |
| Tokenizer.NumeralLexeme | src/compiler.js:40-56 | a digit run on its own is one Numeric token |
| Tokenizer.PunctuatorLexeme | src/compiler.js:14-30 | a punctuator character on its own is one Punctuator token |
| Tokenizer.LetterLoopAsWrittenNeverExits | src/compiler.js:64-67 | the letter loop as written never stops on a letter run that reaches the end of the input, whatever the number of rounds |
| Tokenizer.LetterLoopAsWrittenInside | src/compiler.js:64-67 | inside the input, the loop as written stops where the corrected loop does: at the end of the letter run |
| Tokenizer.DivergingInput | src/compiler.js:64-67 | `var x = y` is such an input: the loop at its last letter, cursor 8, does not stop |
| Parser.Walked | src/compiler.js:99-182 | a successful walk strictly advances the cursor and does not pass the end of the tokens |
| Parser.Walk | src/compiler.js:99-182 | `walk`, with the cursor passed in and handed back, returns exactly the node, the cursor or the error of `Walked` |
| Parser.Parse | src/compiler.js:94-197 | the parser loop returns exactly `Parsed(tokens)` |
| Parser.ParsedInCursorOrder | src/compiler.js:191-193 | the body lists successive walk results: the first walk starts at cursor 0, each next walk starts where the previous one stopped, the cursors strictly increase, and the last walk stops exactly at the end of the tokens |
| Parser.WalkedStatement | src/compiler.js:107-177 | a walk returns the node of its token's rule, in both directions: a Numeric token gives a Literal whose row is the token text and whose value is the numeral's; an Identifier token gives an Identifier of that name; an operator punctuator gives a BinaryExpression; another punctuator holding `=` gives an AssignmentExpression; either operator node carries the token text as its operator; a declaration keyword gives a declaration of that kind whose identifier is the next walk |
| Parser.ParsedStatements | src/compiler.js:184-193 | every statement of a parsed Program has the shape of a walk result |
| Parser.StepBack | src/compiler.js:155-164 | if the lookahead's operator is exactly `=`, the initializer is the next walk and the declaration ends where it ends; otherwise the initializer is null and the cursor goes back exactly one token from the end of the lookahead, however many tokens the lookahead took |
| Parser.LookaheadStepBack | src/compiler.js:155-164 | the tokens of a declaration without initializer followed by one with (such as `var x var y = 1`) parse to the first declaration with a null initializer, then the numeral on its own; the second declaration is lost |
| Parser.DeclarationParses | src/compiler.js:147-177 | the tokens of `kind name = digits` parse to one declaration of that kind, with one declarator: the name, initialized to the numeral |
| Parser.WalkErrors | src/compiler.js:101-181 | a rejected token under the cursor fails with its own type (a punctuator without an operator or `=`, or a keyword other than exactly `var`, `let` or `const`); every other failure is a read past the end, or names a rejected token at or after the cursor |
| Parser.UpperCaseKeywordRejected | src/compiler.js:150 | the declaration test is case-sensitive: `VAR x` fails with the type Keyword |
| Parser.IsDeclarationKind | src/compiler.js:150 | the declaration test: the keyword's text is exactly `var`, `let` or `const`, case included |
| Parser.OperatorOf | src/compiler.js:157 | `equal.operator`: the operator of a BinaryExpression or AssignmentExpression, and `undefined` for every other node |
| Parser.Rejected | src/compiler.js:181 | the tokens `walk` throws for: a punctuator holding neither an arithmetic operator nor `=`, and a keyword other than a declaration kind |
| Parser.HasArithmeticOperator | src/compiler.js:134 | the operator test: the token's text holds `+`, `-`, `*` or `/` |
| Parser.HasEquals | src/compiler.js:139 | the assignment test: the token's text holds `=` |
| Parser.DeclarationPastEnd | src/compiler.js:101 | the tokens of `var x` and of `var x =` read past the end and fail |
| Traverser.Events | src/compiler.js:211-248 | the steps of `traverseNode` in order: the node's visit, then its children's steps; a missing child slot and an AssignmentExpression throw NotIterable, a BinaryExpression throws its type |
| Traverser.Step | src/compiler.js:211-216 | one step: a visit calls the visitor's callback for the node's type when it has one and otherwise leaves the state alone; a throw ends the walk |
| Traverser.PreOrder | src/compiler.js:211-248 | a node's visit comes before every step of its children; a node with a child slot is visited and then its slot is walked |
| Traverser.TraverseArray | src/compiler.js:203-208 | `traverseArray` runs the children's walks in order and stops at the first error; it does nothing for a node object and throws for a missing slot |
| Traverser.TraverseNode | src/compiler.js:211-248 | `traverseNode` gives exactly the result of running the node's pre-order steps from the given state |
| Traverser.Traverse | src/compiler.js:200-251 | the walk from the root, which has no parent, runs the root's pre-order steps |
| Transformer.Transform | src/compiler.js:254-280 | `transformer` returns exactly `Transformed(ast)`: the Program whose body is the context the walk filled, or the walk's error |
| Transformer.TransformResult | src/compiler.js:254-280 | on a Program of walk results, the rewrite succeeds exactly when every statement is an Identifier, a Literal or a declaration with an initializer. The new body is then the top-level declarations in order, each with kind `var` and the same declarators, so nested declarations keep their kind. Otherwise the first failing statement gives the error: UnknownNodeType for a BinaryExpression, NotIterable for an AssignmentExpression or a declaration without initializer |
| Transformer.TransformParsed | src/compiler.js:254-280 | the same three facts, for the output of the parser: success exactly when every statement survives, the new body, and the first failing statement's error |
| Transformer.TransformVisitor | src/compiler.js:266-277 | the visitor: a declaration whose parent is the root is pushed, as a copy with kind `var` and the same declarators, onto the end of the context; any other parent has no context and throws |
| Transformer.Declarations | src/compiler.js:269-273 | the copies the visitor pushes for a list of statements: each declaration, in order, with kind `var`; there are never more of them than statements |
| CodeGenerator.Join | src/compiler.js:288-293 | `join`: the parts in order with the separator between neighbours; no parts give the empty text |
| CodeGenerator.Generate | src/compiler.js:282-315 | `codeGenerator`: a Program prints its statements one per line, a declaration its kind, a space and its declarators, a declarator its identifier, ` = ` and its initializer, an Identifier its name and a Literal its value; other node types throw with their type |
| CodeGenerator.GenerateInit | src/compiler.js:299-300 | the initializer's text; a null initializer fails |
| CodeGenerator.GenerateAllFirstError | src/compiler.js:287 | `map` stops at the first node that cannot print, and that node's error is the result |
| CodeGenerator.GenerateAll | src/compiler.js:287 | `map` gives one text per node |
| CodeGenerator.GenerateOkIffPrintable | src/compiler.js:282-315 | printing succeeds exactly on trees with no BinaryExpression, no AssignmentExpression and no null initializer where the generator looks; any failure is one of those three errors |
| CodeGenerator.ProgramLines | src/compiler.js:286-288 | a Program prints its statements' texts, one per line and in order; splitting the output at newlines gives them back when no text spans lines; an empty body prints as the empty text; when printing fails, the error is that of the first statement that cannot print |
| CodeGenerator.SplitJoin | src/compiler.js:288 | splitting a join at its separator gives back the parts, when no part holds the separator |
| CodeGenerator.DeclarationFormat | src/compiler.js:291-301 | a declaration prints as its kind, a space, the identifier's text, ` = ` and the initializer's text; a null initializer fails |
| CodeGenerator.LiteralFormat | src/compiler.js:308-309 | a Literal prints its value, not its row: a canonical numeral prints as itself, and `007` prints as `7` |
| Compiler.TokensAreParsable | src/compiler.js:319-320 | every Numeric token the tokenizer emits is a digit run, which is what the parser needs |
| Compiler.Compile | src/compiler.js:318-326 | `compiler` returns exactly `Compiled(input)`: the stages in order, the first error winning |
| Compiler.DeclarationTokens | src/compiler.js:9-88 | `kind name = digits` tokenizes to a Keyword, an Identifier, the Punctuator `=` and a Numeric token |
| Compiler.DeclarationCompiles | src/compiler.js:318-326 | `kind name = digits` compiles to `var name = ` followed by the numeral's value as printed, for kind `var`, `let` or `const` and a name that contains no keyword; a canonical numeral comes out unchanged |
| Compiler.LetBecomesVar | src/compiler.js:318-326 | `compiler("let y = 5")` is `"var y = 5"` |
| Compiler.HashIsPunctuator | src/compiler.js:14 | `compiler("#")` fails in the parser with the type Punctuator, not in the tokenizer |
| Compiler.NonAsciiLetterFails | src/compiler.js:87 | `compiler("x = é")` fails in the tokenizer, naming `é` |
| RoundTrip.TextIsGenerated | src/compiler.js:291-309 | the generator prints a reprintable tree as its text. A reprintable tree is a name, a number, or a declaration of one declarator whose identifier and initializer are reprintable. A declaration prints as its kind, the identifier, `=` and the initializer, separated by single spaces |
| RoundTrip.TextTokens | src/compiler.js:9-88 | that text tokenizes back to the tree's lexemes: the kind keyword, the identifier's lexemes, the punctuator `=` and the initializer's lexemes |
| RoundTrip.LinesTokens | src/compiler.js:33-37 | statements printed one per line tokenize to their lexemes, one statement after the other; the newlines produce no tokens |
| RoundTrip.WalkLexemes | src/compiler.js:107-177 | a walk over the lexemes of a reprintable tree, wherever they stand in the token list, returns that tree with each numeral's row replaced by the printed text of its value, and stops right after the lexemes |
| RoundTrip.WalkDeclaration | src/compiler.js:147-177 | the same for a declaration, built from the walks of its identifier and of its initializer |
| RoundTrip.DeclarationWalk | src/compiler.js:147-177 | a declaration keyword, a walk to an identifier, the punctuator `=` and a walk to an initializer form one declaration of that kind, which ends where the initializer ends |
| RoundTrip.ParsedLexemes | src/compiler.js:184-193 | the lexemes of statements, standing one after the other up to the end of the tokens, parse to those statements in order, with canonical numerals |
| RoundTrip.CanonicalFacts | src/compiler.js:113 | making the numerals canonical keeps a tree reprintable, keeps its text and keeps a declaration's kind |
| RoundTrip.VarProgramFixed | src/compiler.js:254-280 | a Program of `var` declarations with initializers is its own rewrite |
| RoundTrip.WalkedReprintable | src/compiler.js:99-182 | on well-formed tokens, a walk result that the generator can print is reprintable: its names are letter runs that hold no keyword, and each of its declarations has an initializer |
| RoundTrip.OutputStatements | src/compiler.js:266-277 | when the rewrite of walk results prints, each of its statements is a reprintable `var` declaration |
| RoundTrip.ParsedReprintable | src/compiler.js:184-193 | every statement of a parsed Program that the generator can print is reprintable |
| RoundTrip.CompiledOutput | src/compiler.js:318-326 | the output of a successful compilation is the text of reprintable `var` declarations, one per line |
| RoundTrip.LinesCompile | src/compiler.js:318-326 | such lines compile to themselves |
| RoundTrip.CompileTwice | src/compiler.js:318-326 | with the corrected letter loop and exact numbers, compiling is idempotent: compiling the output of a successful compilation gives that output again |

## Left out

- `module.exports` (lines 329-335) only packages the functions for other modules.
- The regular-expression engine. Each pattern (lines 14, 33, 40, 59, 69, 134 and 139) is
  an explicit predicate on characters or on substrings.
- Text is a sequence of UTF-16 code units in JavaScript. The model uses Dafny characters,
  so it leaves out surrogate pairs.
- Numbers: `Number(token.value)` (line 113) and the printing of a number (line 309) use
  floating point. The model reads a numeral as an exact `nat` and prints its shortest
  decimal text. The two agree below 2^53; above that JavaScript rounds, and prints in
  exponent notation from 10^21. A numeral of about 1.8 × 10^308 or more (so of at
  least 309 digits) exceeds the largest double, so `Number` gives `Infinity`, which prints as the text
  `Infinity`.
- The number that `codeGenerator` returns for a Literal at the root (line 309). The model
  always returns text. `compiler` never hands the generator a Literal at the root.
- `Number` of a text that is not a digit run (NaN). The parser's functions require every
  Numeric token to be a digit run, and the tokenizer's output always meets that
  (Compiler.TokensAreParsable).
- The unused `nextToken` (line 103).
- The exception classes and message texts. An error keeps only the offending character,
  token type or node type. Reading a token past the end (`token.type` of `undefined`),
  `forEach` of `null` or `undefined`, and `codeGenerator(null)` each have an error value
  of their own.
- The in-place mutation of the input tree through `_context` (line 263), and the sharing
  of the `declarations` array between the old and the new tree (line 271). The context is
  an accumulator value that the visitor returns. A node is a value, so there is no
  aliasing to model.
- The `sourceType: "script"` field of a Program (lines 187 and 259) is a constant that
  nothing reads.
- The `right` operand of an AssignmentExpression (line 236). The parser never sets it, so
  it is always `undefined`. The model has no such field, and the traverser throws for it.
- Tokenizer.ScanLetters: stops at the end of the input. As written, the guard never fails
  there: each round appends "undefined" to the word and moves the cursor on, so no token
  list comes back, and a real engine ends with a string-length RangeError or runs out of
  memory (see Findings). The rest of the model uses this corrected loop.
- RoundTrip.CompileTwice: holds in the source only with the corrected letter loop, and
  fails for numerals from 10^21 up to where `Number` overflows to `Infinity`. With the
  loop as written, `compiler("var x = y\n")` returns
  `var x = y`, because every letter run ends before a space or the newline. Compiling that
  output gives no tokens back: its last letter run reaches the end of the input, where the
  guard never fails (Tokenizer.DivergingInput). So, as written, no output that ends in a
  letter, such as one whose last initializer is an identifier, compiles again. Separately,
  `compiler("var x = 1000000000000000000000")` reads the numeral as the float 1e21
  (line 113) and prints it as `var x = 1e+21` (lines 299-300). Compiling that output
  tokenizes `1`, `e`, `+` and `21`, so the parser gives a BinaryExpression statement and
  the traverser throws for it (line 246). A numeral of about 1.8 × 10^308 or more
  becomes `Infinity`, which prints as `Infinity` and reads back as an Identifier holding no keyword,
  so that output compiles to itself again. The model reads numerals as exact numbers, so
  its output keeps every digit and compiles to itself.

## Findings

| source | as written | input that shows it | evidently intended | confidence | as-written member | corrected member |
|---|---|---|---|---|---|---|
| src/compiler.js:64-67 | The letter loop's guard `LETTERS.test(char)` receives `undefined` once the cursor passes the end. It tests the text "undefined", which is made of letters, so the guard never fails: each round appends "undefined" to the word and moves the cursor on, and no token list comes back (a real engine ends with a string-length RangeError or runs out of memory). The digit loop stops there, because "undefined" has no digit. | `var x = y`: the last letter run, `y`, reaches the end of the input at cursor 8 | the letter loop stops at the end of the input, as the digit loop does | high; not executed | Tokenizer.DivergingInput | Tokenizer.ScanLetters |
