/** `compiler` (src/compiler.js lines 318-326): tokenizer, parser, transformer and code
    generator run one after another; the first stage that throws decides the result. */
module Compiler {
  import opened Syntax
  import opened CharClasses
  import opened Numbers
  import opened Ast
  import opened Tokenizer
  import opened Parser
  import opened Traverser
  import opened Transformer
  import opened CodeGenerator

  /** The tokenizer's Numeric tokens are digit runs, which is what the parser needs. */
  lemma TokensAreParsable(input: string)
    requires Tokens(input).Ok?
    ensures NumeralsAreDigitRuns(Tokens(input).value)
  {
    TokensWellFormed(input);
    var ts := Tokens(input).value;
    forall k | 0 <= k < |ts| && ts[k].kind == Numeric ensures IsDigitRun(ts[k].value) {
      assert WellFormedToken(ts[k]);
    }
  }

  /** The result of `compiler(input)`. */
  function Compiled(input: string): Result<string> {
    var tokens :- Tokens(input);
    TokensAreParsable(input);
    var ast :- Parsed(tokens);
    var newAst :- Transformed(ast);
    Generate(newAst)
  }

  /** `compiler` (lines 318-326), running the stages as the source does. */
  method Compile(input: string) returns (output: Result<string>)
    ensures output == Compiled(input)
  {
    var tokens := Tokenize(input);
    if tokens.Err? {
      return Err(tokens.error);
    }
    TokensAreParsable(input);
    var ast := Parse(tokens.value);
    if ast.Err? {
      return Err(ast.error);
    }
    var newAst := Transform(ast.value);
    if newAst.Err? {
      return Err(newAst.error);
    }
    output := Generate(newAst.value);
  }

  // ---------------------------------------------------------------------------------
  // Examples

  /** Two texts with one space between them. */
  function Spaced(a: string, b: string): string {
    a + [' '] + b
  }

  /** Two texts with one space between them tokenize as the first's tokens then the
      second's. */
  lemma SpacedTokens(a: string, b: string, ta: seq<Token>, tb: seq<Token>)
    requires Tokens(a) == Ok(ta) && Tokens(b) == Ok(tb)
    ensures Tokens(Spaced(a, b)) == Ok(ta + tb)
  {
    TokensJoined(a, ' ', b);
  }

  /** The tokens of a declaration text `kind name = digits`. */
  lemma DeclarationTokens(kind: string, name: string, digits: string)
    requires IsDeclarationKind(kind)
    requires |name| > 0 && (forall i :: 0 <= i < |name| ==> IsAsciiLetter(name[i])) && !ContainsKeyword(name)
    requires IsDigitRun(digits)
    ensures Tokens(Spaced(kind, Spaced(name, Spaced("=", digits)))) == Ok([Token(Keyword, kind),
      Token(TokenType.Identifier, name), Token(Punctuator, "="), Token(Numeric, digits)])
  {
    var k := Token(Keyword, kind);
    var n := Token(TokenType.Identifier, name);
    var e := Token(Punctuator, "=");
    var d := Token(Numeric, digits);
    DeclarationKindsAreKeywords(kind);
    WordLexeme(kind);
    WordLexeme(name);
    PunctuatorLexeme('=');
    assert Tokens("=") == Ok([e]);
    NumeralLexeme(digits);
    var tail := Spaced("=", digits);
    SpacedTokens("=", digits, [e], [d]);
    SpacedTokens(name, tail, [n], [e] + [d]);
    SpacedTokens(kind, Spaced(name, tail), [k], [n] + ([e] + [d]));
    FourSingletons(k, n, e, d);
  }

  lemma FourSingletons<T>(a: T, b: T, c: T, d: T)
    ensures [a] + ([b] + ([c] + [d])) == [a, b, c, d]
  {
  }

  /** `var`, `let` and `const` are letter runs that pass the keyword test. */
  lemma DeclarationKindsAreKeywords(kind: string)
    requires IsDeclarationKind(kind)
    ensures |kind| > 0 && (forall i :: 0 <= i < |kind| ==> IsAsciiLetter(kind[i])) && ContainsKeyword(kind)
  {
    if kind == "var" {
      assert MatchesAt(kind, Keywords[1], 0);
    } else if kind == "let" {
      assert MatchesAt(kind, Keywords[3], 0);
    } else {
      assert MatchesAt(kind, Keywords[4], 0);
    }
  }

  /** The result of the stages, given what each stage returns. */
  lemma CompiledStages(input: string, tokens: seq<Token>, ast: Node, newAst: Node)
    requires Tokens(input) == Ok(tokens) && NumeralsAreDigitRuns(tokens)
    requires Parsed(tokens) == Ok(ast) && Transformed(ast) == Ok(newAst)
    ensures Compiled(input) == Generate(newAst)
  {
  }

  /** A declaration `kind name = digits` of any kind compiles to the `var` declaration of
      the same name, initialized to the numeral's value as printed; a canonical numeral
      comes out as it went in. */
  lemma DeclarationCompiles(kind: string, name: string, digits: string)
    requires IsDeclarationKind(kind)
    requires |name| > 0 && (forall i :: 0 <= i < |name| ==> IsAsciiLetter(name[i])) && !ContainsKeyword(name)
    requires IsDigitRun(digits)
    ensures Compiled(Spaced(kind, Spaced(name, Spaced("=", digits)))) ==
      Ok("var " + name + " = " + DecimalText(DecimalValue(digits)))
    ensures IsCanonical(digits) ==>
      Compiled(Spaced(kind, Spaced(name, Spaced("=", digits)))) == Ok("var " + name + " = " + digits)
  {
    DeclarationStages(kind, name, digits);
    DeclarationText(name, DecimalValue(digits), digits);
    if IsCanonical(digits) {
      TextOfValue(digits);
    }
  }

  /** The declaration's way through the stages up to the generator. */
  lemma DeclarationStages(kind: string, name: string, digits: string)
    requires IsDeclarationKind(kind)
    requires |name| > 0 && (forall i :: 0 <= i < |name| ==> IsAsciiLetter(name[i])) && !ContainsKeyword(name)
    requires IsDigitRun(digits)
    ensures Compiled(Spaced(kind, Spaced(name, Spaced("=", digits)))) == Generate(Program([VariableDeclaration(
      [VariableDeclarator(Node.Identifier(name), Some(Literal(DecimalValue(digits), digits)))], "var")]))
  {
    var input := Spaced(kind, Spaced(name, Spaced("=", digits)));
    var tokens := [Token(Keyword, kind), Token(TokenType.Identifier, name), Token(Punctuator, "="),
      Token(Numeric, digits)];
    DeclarationTokens(kind, name, digits);
    DeclarationParses(kind, name, digits);
    var declarator := VariableDeclarator(Node.Identifier(name), Some(Literal(DecimalValue(digits), digits)));
    DeclarationTransforms(declarator, kind);
    CompiledStages(input, tokens, Program([VariableDeclaration([declarator], kind)]),
      Program([VariableDeclaration([declarator], "var")]));
  }

  /** The text of a program holding one `var` declaration of a name initialized to a
      Literal. */
  lemma DeclarationText(name: string, value: nat, row: string)
    ensures Generate(Program([VariableDeclaration([VariableDeclarator(Node.Identifier(name),
      Some(Literal(value, row)))], "var")])) == Ok("var " + name + " = " + DecimalText(value))
  {
    var statement := VariableDeclaration([VariableDeclarator(Node.Identifier(name), Some(Literal(value, row)))], "var");
    DeclarationFormat(Node.Identifier(name), Literal(value, row), "var");
    var text := "var" + " " + name + " = " + DecimalText(value);
    SingleStatementProgram(statement, text);
    assert text == "var " + name + " = " + DecimalText(value);
  }

  /** A Program of one declaration with an initializer transforms to that declaration with
      kind var. */
  lemma DeclarationTransforms(declarator: Node, kind: string)
    requires declarator.VariableDeclarator? && declarator.init.Some? && IsDeclarationKind(kind)
    ensures Transformed(Program([VariableDeclaration([declarator], kind)])) ==
      Ok(Program([VariableDeclaration([declarator], "var")]))
  {
    var body := [VariableDeclaration([declarator], kind)];
    assert IsStatement(body[0]) && Survives(body[0]);
    TransformResult(body);
    DeclarationsCons(body);
    assert body[1..] == [];
    assert Declarations(body) == [VariableDeclaration([declarator], "var")];
  }

  /** A Program of one statement prints as that statement. */
  lemma SingleStatementProgram(statement: Node, text: string)
    requires Generate(statement) == Ok(text)
    ensures Generate(Program([statement])) == Ok(text)
  {
    assert [statement][1..] == [];
    assert [text] + [] == [text];
    assert GenerateAll([statement]) == Ok([text]);
  }

  /** `compiler("let y = 5")` is `"var y = 5"`: the declaration is rewritten with kind var. */
  lemma LetBecomesVar()
    ensures Compiled("let y = 5") == Ok("var y = 5")
  {
    ShortWordIsNoKeyword("y");
    assert IsCanonical("5");
    DeclarationCompiles("let", "y", "5");
    LetTexts();
  }

  lemma LetTexts()
    ensures Spaced("let", Spaced("y", Spaced("=", "5"))) == "let y = 5"
    ensures "var " + "y" + " = " + "5" == "var y = 5"
  {
  }

  /** `#` is in the punctuator class, so it passes the tokenizer, and the parser rejects it
      with the type Punctuator. */
  lemma HashIsPunctuator()
    ensures Compiled("#") == Err(ParseError(Punctuator))
  {
    assert TokensFrom("#", 1) == Ok([]);
    assert "#"[0..1] == "#";
    TokenStep("#", 0, 1, Token(Punctuator, "#"));
    assert [Token(Punctuator, "#")] + [] == [Token(Punctuator, "#")];
    var t := [Token(Punctuator, "#")];
    assert !HasArithmeticOperator("#") && !HasEquals("#");
    assert Parsed(t) == Err(ParseError(Punctuator));
  }

  /** A character outside every class fails in the tokenizer, which names it. */
  lemma NonAsciiLetterFails()
    ensures Compiled("x = \U{00E9}") == Err(LexError('\U{00E9}'))
  {
    var s := "x = \U{00E9}";
    LexErrorNamesFirstBadCharacter(s);
    assert !IsLexical(s[4]);
    var i: nat :| FirstNonLexical(s, 0, i) && Tokens(s) == Err(LexError(s[i]));
    assert IsLexical(s[0]) && IsLexical(s[1]) && IsLexical(s[2]) && IsLexical(s[3]);
  }
}
