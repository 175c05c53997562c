/** Compiling twice. The text the code generator prints for a successful compilation reads
    back, through the tokenizer and the parser, as the same tree up to the original text of
    its numerals; the transformer leaves a Program of `var` declarations as it is; so
    compiling the output of `compiler` gives that output again. All of this rests on the
    corrected letter loop and on exact numbers. With the loop as written, an output that
    ends in a letter gives no tokens back (Tokenizer.DivergingInput). With floating-point
    numbers, a numeral from 10^21 up to where `Number` overflows to `Infinity` prints in
    exponent notation, such as `1e+21`, which compiles to an error. */
module RoundTrip {
  import opened Syntax
  import opened CharClasses
  import opened Numbers
  import opened Ast
  import opened Tokenizer
  import opened Parser
  import opened Transformer
  import opened CodeGenerator
  import opened Compiler

  /** The text of an Identifier token: a letter run that holds no keyword. */
  predicate IsName(s: string) {
    |s| > 0 && (forall i :: 0 <= i < |s| ==> IsAsciiLetter(s[i])) && !ContainsKeyword(s)
  }

  /** The trees whose printed text parses back to them: names, numbers, and declarations of
      a declaration kind with one declarator whose identifier and initializer are such
      trees. */
  predicate Reprintable(n: Node)
    decreases n
  {
    match n
    case Identifier(name) => IsName(name)
    case Literal(_, _) => true
    case VariableDeclaration(ds, kind) =>
      IsDeclarationKind(kind) && |ds| == 1 && ds[0].VariableDeclarator? && ds[0].init.Some? &&
      Reprintable(ds[0].id) && Reprintable(ds[0].init.value)
    case _ => false
  }

  /** Statements as the transformer outputs them that print and read back: `var`
      declarations. */
  predicate VarStatements(body: seq<Node>) {
    forall i :: 0 <= i < |body| ==> Reprintable(body[i]) && body[i].VariableDeclaration? && body[i].kind == "var"
  }

  /** The printed text of a reprintable tree. */
  function Text(n: Node): string
    requires Reprintable(n)
    decreases n
  {
    match n
    case Identifier(name) => name
    case Literal(value, _) => DecimalText(value)
    case VariableDeclaration(ds, kind) =>
      Spaced(kind, Spaced(Text(ds[0].id), Spaced("=", Text(ds[0].init.value))))
  }

  /** The tokens of that text. */
  function Lexemes(n: Node): (ts: seq<Token>)
    requires Reprintable(n)
    ensures |ts| > 0
    decreases n
  {
    match n
    case Identifier(name) => [Token(TokenType.Identifier, name)]
    case Literal(value, _) => [Token(Numeric, DecimalText(value))]
    case VariableDeclaration(ds, kind) =>
      [Token(Keyword, kind)] + Lexemes(ds[0].id) + [Token(Punctuator, "=")] + Lexemes(ds[0].init.value)
  }

  /** The tree the parser reads back: every Literal's row is the printed text of its value. */
  function Canonical(n: Node): Node
    requires Reprintable(n)
    decreases n
  {
    match n
    case Identifier(_) => n
    case Literal(value, _) => Literal(value, DecimalText(value))
    case VariableDeclaration(ds, kind) =>
      VariableDeclaration([VariableDeclarator(Canonical(ds[0].id), Some(Canonical(ds[0].init.value)))], kind)
  }

  function Texts(body: seq<Node>): (r: seq<string>)
    requires forall i :: 0 <= i < |body| ==> Reprintable(body[i])
    ensures |r| == |body|
  {
    if body == [] then [] else [Text(body[0])] + Texts(body[1..])
  }

  function AllLexemes(body: seq<Node>): seq<Token>
    requires forall i :: 0 <= i < |body| ==> Reprintable(body[i])
  {
    if body == [] then [] else Lexemes(body[0]) + AllLexemes(body[1..])
  }

  function Canonicals(body: seq<Node>): (r: seq<Node>)
    requires forall i :: 0 <= i < |body| ==> Reprintable(body[i])
    ensures |r| == |body|
  {
    if body == [] then [] else [Canonical(body[0])] + Canonicals(body[1..])
  }

  // ---------------------------------------------------------------------------------
  // Printing

  lemma DeclarationShape(kind: string, a: string, b: string)
    ensures Spaced(kind, Spaced(a, Spaced("=", b))) == kind + " " + a + " = " + b
  {
  }

  /** The generator prints a reprintable tree as its text. */
  lemma {:induction false} TextIsGenerated(n: Node)
    requires Reprintable(n)
    ensures Generate(n) == Ok(Text(n))
    decreases n
  {
    match n {
      case Identifier(_) =>
      case Literal(_, _) =>
      case VariableDeclaration(ds, kind) =>
        var id := ds[0].id;
        var init := ds[0].init.value;
        TextIsGenerated(id);
        TextIsGenerated(init);
        DeclarationFormat(id, init, kind);
        assert ds == [VariableDeclarator(id, Some(init))];
        DeclarationShape(kind, Text(id), Text(init));
    }
  }

  lemma {:induction false} TextsAreGenerated(body: seq<Node>)
    requires forall i :: 0 <= i < |body| ==> Reprintable(body[i])
    ensures GenerateAll(body) == Ok(Texts(body))
    decreases |body|
  {
    if body != [] {
      TextIsGenerated(body[0]);
      TextsAreGenerated(body[1..]);
    }
  }

  // ---------------------------------------------------------------------------------
  // Tokenizing the text

  lemma Regrouped<T>(k: T, a: seq<T>, e: T, b: seq<T>)
    ensures [k] + (a + ([e] + b)) == [k] + a + [e] + b
  {
  }

  /** The text of a reprintable tree tokenizes to its lexemes. */
  lemma {:induction false} TextTokens(n: Node)
    requires Reprintable(n)
    ensures Tokens(Text(n)) == Ok(Lexemes(n))
    decreases n
  {
    match n {
      case Identifier(name) =>
        WordLexeme(name);
      case Literal(value, _) =>
        NumeralLexeme(DecimalText(value));
      case VariableDeclaration(ds, kind) =>
        var id := ds[0].id;
        var init := ds[0].init.value;
        var k := Token(Keyword, kind);
        var e := Token(Punctuator, "=");
        DeclarationKindsAreKeywords(kind);
        WordLexeme(kind);
        PunctuatorLexeme('=');
        assert Tokens("=") == Ok([e]);
        TextTokens(id);
        TextTokens(init);
        var tail := Spaced("=", Text(init));
        SpacedTokens("=", Text(init), [e], Lexemes(init));
        SpacedTokens(Text(id), tail, Lexemes(id), [e] + Lexemes(init));
        SpacedTokens(kind, Spaced(Text(id), tail), [k], Lexemes(id) + ([e] + Lexemes(init)));
        Regrouped(k, Lexemes(id), e, Lexemes(init));
    }
  }

  /** Statements printed one per line tokenize to their lexemes, one statement after the
      other. */
  lemma {:induction false} LinesTokens(body: seq<Node>)
    requires forall i :: 0 <= i < |body| ==> Reprintable(body[i])
    ensures Tokens(Join(Texts(body), "\n")) == Ok(AllLexemes(body))
    decreases |body|
  {
    if body == [] {
      assert Tokens("") == Ok([]);
    } else if |body| == 1 {
      TextTokens(body[0]);
      assert body[1..] == [];
      assert Texts(body) == [Text(body[0])];
      assert Join(Texts(body), "\n") == Text(body[0]);
      assert AllLexemes(body[1..]) == [];
      assert AllLexemes(body) == Lexemes(body[0]) + [];
      assert Lexemes(body[0]) + [] == Lexemes(body[0]);
    } else {
      var rest := Join(Texts(body[1..]), "\n");
      LinesTokens(body[1..]);
      TextTokens(body[0]);
      assert Texts(body)[1..] == Texts(body[1..]);
      assert Join(Texts(body), "\n") == Text(body[0]) + ['\n'] + rest;
      TokensJoined(Text(body[0]), '\n', rest);
    }
  }

  // ---------------------------------------------------------------------------------
  // Parsing the tokens

  /** The tokens from cursor `p` on begin with `ls`. */
  predicate At(tokens: seq<Token>, p: nat, ls: seq<Token>) {
    p + |ls| <= |tokens| && forall j {:trigger ls[j]} :: 0 <= j < |ls| ==> tokens[p + j] == ls[j]
  }

  lemma AtSplit(tokens: seq<Token>, p: nat, a: seq<Token>, b: seq<Token>)
    requires At(tokens, p, a + b)
    ensures At(tokens, p, a) && At(tokens, p + |a|, b)
  {
    forall j | 0 <= j < |a| ensures tokens[p + j] == a[j] {
      assert (a + b)[j] == a[j];
    }
    forall j | 0 <= j < |b| ensures tokens[p + |a| + j] == b[j] {
      assert (a + b)[|a| + j] == b[j];
    }
  }

  /** A walk over the lexemes of a reprintable tree, wherever they stand in the tokens,
      returns the canonical tree and stops right after them, at `end`. */
  lemma {:induction false} WalkLexemes(tokens: seq<Token>, p: nat, n: Node, end: nat)
    requires NumeralsAreDigitRuns(tokens) && Reprintable(n) && At(tokens, p, Lexemes(n))
    requires end == p + |Lexemes(n)|
    ensures Walked(tokens, p) == Ok((Canonical(n), end))
    decreases n, 1
  {
    if n.VariableDeclaration? {
      var d := n.declarations[0];
      assert n == VariableDeclaration([VariableDeclarator(d.id, Some(d.init.value))], n.kind);
      WalkDeclaration(tokens, p, n.kind, d.id, d.init.value, p + 1 + |Lexemes(d.id)|, end);
    } else {
      assert tokens[p + 0] == Lexemes(n)[0];
      if n.Literal? {
        ValueOfText(n.value);
      }
    }
  }

  /** The walk over a declaration's lexemes, with `q` the cursor of its `=` and `end` the
      cursor after its initializer. */
  lemma {:induction false} WalkDeclaration(tokens: seq<Token>, p: nat, kind: string, id: Node, init: Node,
    q: nat, end: nat)
    requires NumeralsAreDigitRuns(tokens) && IsDeclarationKind(kind) && Reprintable(id) && Reprintable(init)
    requires At(tokens, p, [Token(Keyword, kind)] + Lexemes(id) + [Token(Punctuator, "=")] + Lexemes(init))
    requires q == p + 1 + |Lexemes(id)| && end == q + 1 + |Lexemes(init)|
    ensures Walked(tokens, p) == Ok((VariableDeclaration([VariableDeclarator(Canonical(id), Some(Canonical(init)))], kind), end))
    decreases VariableDeclarator(id, Some(init)), 0
  {
    var start, next := p + 1, q + 1;
    DeclarationSlices(tokens, p, Token(Keyword, kind), Lexemes(id), Token(Punctuator, "="), Lexemes(init), q);
    WalkLexemes(tokens, start, id, q);
    WalkLexemes(tokens, next, init, end);
    DeclarationWalk(tokens, p, kind, q, Canonical(id), Canonical(init), end);
  }

  /** Where the parts of a declaration's lexemes stand. */
  lemma DeclarationSlices(tokens: seq<Token>, p: nat, k: Token, a: seq<Token>, e: Token, b: seq<Token>, q: nat)
    requires At(tokens, p, [k] + a + [e] + b) && q == p + 1 + |a|
    ensures tokens[p] == k && At(tokens, p + 1, a) && tokens[q] == e && At(tokens, q + 1, b)
    ensures q + 1 + |b| <= |tokens|
  {
    AtSplit(tokens, p, [k] + a + [e], b);
    AtSplit(tokens, p, [k] + a, [e]);
    AtSplit(tokens, p, [k], a);
    assert tokens[p + 0] == [k][0];
    assert tokens[p + |[k] + a| + 0] == [e][0];
  }

  /** A declaration keyword, a walk to an identifier, `=` and a walk to an initializer walk
      as the declaration of both. */
  lemma DeclarationWalk(tokens: seq<Token>, p: nat, kind: string, q: nat, id: Node, init: Node, end: nat)
    requires NumeralsAreDigitRuns(tokens) && p < q < |tokens|
    requires tokens[p] == Token(Keyword, kind) && IsDeclarationKind(kind)
    requires Walked(tokens, p + 1) == Ok((id, q)) && tokens[q] == Token(Punctuator, "=")
    requires Walked(tokens, q + 1) == Ok((init, end))
    ensures Walked(tokens, p) == Ok((VariableDeclaration([VariableDeclarator(id, Some(init))], kind), end))
  {
    EqualsSign();
    assert Walked(tokens, q) == Ok((AssignmentExpression("="), q + 1));
  }

  /** The lexemes of statements, one after the other up to the end of the tokens, parse to
      their canonical trees. */
  lemma {:induction false} ParsedLexemes(tokens: seq<Token>, p: nat, body: seq<Node>)
    requires NumeralsAreDigitRuns(tokens) && forall i :: 0 <= i < |body| ==> Reprintable(body[i])
    requires At(tokens, p, AllLexemes(body)) && p + |AllLexemes(body)| == |tokens|
    ensures ParsedFrom(tokens, p) == Ok(Canonicals(body))
    decreases |body|
  {
    if body != [] {
      var first := Lexemes(body[0]);
      var end := p + |first|;
      assert AllLexemes(body) == first + AllLexemes(body[1..]);
      AtSplit(tokens, p, first, AllLexemes(body[1..]));
      ParsedLexemes(tokens, end, body[1..]);
      ParsedLexemesStep(tokens, p, body[0], end, Canonicals(body[1..]));
    }
  }

  lemma ParsedLexemesStep(tokens: seq<Token>, p: nat, first: Node, end: nat, rest: seq<Node>)
    requires NumeralsAreDigitRuns(tokens) && Reprintable(first)
    requires end == p + |Lexemes(first)| <= |tokens| && At(tokens, p, Lexemes(first))
    requires ParsedFrom(tokens, end) == Ok(rest)
    ensures ParsedFrom(tokens, p) == Ok([Canonical(first)] + rest)
  {
    WalkLexemes(tokens, p, first, end);
    ParsedStep(tokens, p, Canonical(first), end, rest);
  }

  lemma ParsedStep(tokens: seq<Token>, p: nat, node: Node, end: nat, rest: seq<Node>)
    requires NumeralsAreDigitRuns(tokens) && p < end <= |tokens|
    requires Walked(tokens, p) == Ok((node, end)) && ParsedFrom(tokens, end) == Ok(rest)
    ensures ParsedFrom(tokens, p) == Ok([node] + rest)
  {
  }

  lemma {:induction false} LexemesAreDigitRuns(body: seq<Node>)
    requires forall i :: 0 <= i < |body| ==> Reprintable(body[i])
    ensures NumeralsAreDigitRuns(AllLexemes(body))
  {
    forall k | 0 <= k < |AllLexemes(body)| && AllLexemes(body)[k].kind == Numeric
      ensures IsDigitRun(AllLexemes(body)[k].value)
    {
      LexemeIsNumeral(body, k);
    }
  }

  lemma {:induction false} LexemeIsNumeral(body: seq<Node>, k: nat)
    requires forall i :: 0 <= i < |body| ==> Reprintable(body[i])
    requires k < |AllLexemes(body)| && AllLexemes(body)[k].kind == Numeric
    ensures IsDigitRun(AllLexemes(body)[k].value)
    decreases |body|
  {
    var first := Lexemes(body[0]);
    if k < |first| {
      NodeLexemeIsNumeral(body[0], k);
    } else {
      LexemeIsNumeral(body[1..], k - |first|);
    }
  }

  lemma {:induction false} NodeLexemeIsNumeral(n: Node, k: nat)
    requires Reprintable(n) && k < |Lexemes(n)| && Lexemes(n)[k].kind == Numeric
    ensures IsDigitRun(Lexemes(n)[k].value)
    decreases n
  {
    match n {
      case Identifier(_) =>
      case Literal(_, _) =>
      case VariableDeclaration(ds, kind) =>
        var id := ds[0].id;
        var init := ds[0].init.value;
        var a := Lexemes(id);
        if 1 <= k < 1 + |a| {
          NodeLexemeIsNumeral(id, k - 1);
        } else if k > 1 + |a| {
          NodeLexemeIsNumeral(init, k - 2 - |a|);
        }
    }
  }

  // ---------------------------------------------------------------------------------
  // The canonical tree

  lemma {:induction false} CanonicalFacts(n: Node)
    requires Reprintable(n)
    ensures Reprintable(Canonical(n)) && Text(Canonical(n)) == Text(n)
    ensures n.VariableDeclaration? ==> Canonical(n).VariableDeclaration? && Canonical(n).kind == n.kind
    decreases n
  {
    match n {
      case Identifier(_) =>
      case Literal(_, _) =>
      case VariableDeclaration(ds, kind) =>
        CanonicalFacts(ds[0].id);
        CanonicalFacts(ds[0].init.value);
    }
  }

  lemma {:induction false} CanonicalsFacts(body: seq<Node>)
    requires forall i :: 0 <= i < |body| ==> Reprintable(body[i])
    ensures forall i :: 0 <= i < |body| ==> Reprintable(Canonicals(body)[i])
    ensures Texts(Canonicals(body)) == Texts(body)
    ensures VarStatements(body) ==> VarStatements(Canonicals(body))
    decreases |body|
  {
    if body != [] {
      CanonicalFacts(body[0]);
      CanonicalsFacts(body[1..]);
      var c := Canonicals(body);
      assert c == [Canonical(body[0])] + Canonicals(body[1..]);
      forall i | 1 <= i < |body| ensures c[i] == Canonicals(body[1..])[i - 1] && body[i] == body[1..][i - 1] {
      }
    }
  }

  // ---------------------------------------------------------------------------------
  // The transformer on its own output

  lemma {:induction false} VarDeclarationsKept(body: seq<Node>)
    requires VarStatements(body)
    ensures Declarations(body) == body
    decreases |body|
  {
    if body != [] {
      VarDeclarationsKept(body[1..]);
      assert body[0] == VariableDeclaration(body[0].declarations, "var");
      assert body == [body[0]] + body[1..];
    }
  }

  /** A Program of `var` statements is its own rewrite. */
  lemma VarProgramFixed(body: seq<Node>)
    requires VarStatements(body)
    ensures Transformed(Program(body)) == Ok(Program(body))
  {
    TransformResult(body);
    VarDeclarationsKept(body);
  }

  // ---------------------------------------------------------------------------------
  // What the first compilation produces

  lemma {:induction false} AllPrintableIff(ns: seq<Node>)
    ensures AllPrintable(ns) <==> forall i :: 0 <= i < |ns| ==> Printable(ns[i])
    decreases |ns|
  {
    if ns != [] {
      AllPrintableIff(ns[1..]);
      if Printable(ns[0]) && AllPrintable(ns[1..]) {
        forall i | 0 <= i < |ns| ensures Printable(ns[i]) {
          if i > 0 {
            assert ns[i] == ns[1..][i - 1];
          }
        }
      }
    }
  }

  /** A walk over well-formed tokens returns a tree that, if it prints, reads back. */
  lemma {:induction false} WalkedReprintable(tokens: seq<Token>, cur: nat)
    requires NumeralsAreDigitRuns(tokens) && forall k :: 0 <= k < |tokens| ==> WellFormedToken(tokens[k])
    requires Walked(tokens, cur).Ok?
    ensures Printable(Walked(tokens, cur).value.0) ==> Reprintable(Walked(tokens, cur).value.0)
    decreases |tokens| - cur
  {
    var t := tokens[cur];
    assert WellFormedToken(t);
    if t.kind == Keyword && IsDeclarationKind(t.value) {
      var variable := Walked(tokens, cur + 1).value;
      WalkedReprintable(tokens, cur + 1);
      var equal := Walked(tokens, variable.1).value;
      if OperatorOf(equal.0) == Some("=") {
        var init := Walked(tokens, equal.1).value;
        WalkedReprintable(tokens, equal.1);
        DeclarationReprintable(variable.0, init.0, t.value);
      } else {
        NoInitializerNotPrintable(variable.0, t.value);
      }
    }
  }

  lemma DeclarationReprintable(id: Node, init: Node, kind: string)
    requires IsDeclarationKind(kind)
    requires Printable(id) ==> Reprintable(id)
    requires Printable(init) ==> Reprintable(init)
    ensures var n := VariableDeclaration([VariableDeclarator(id, Some(init))], kind);
      Printable(n) ==> Reprintable(n)
  {
    var d := VariableDeclarator(id, Some(init));
    var n := VariableDeclaration([d], kind);
    if Printable(n) {
      assert AllPrintable([d]);
      assert [d][0] == d;
      assert Printable(d);
    }
  }

  lemma NoInitializerNotPrintable(id: Node, kind: string)
    ensures !Printable(VariableDeclaration([VariableDeclarator(id, None)], kind))
  {
    var d := VariableDeclarator(id, None);
    assert [d][0] == d;
    assert !Printable(d);
  }

  /** The rewrite of walk results that prints is made of `var` statements. */
  lemma {:induction false} OutputStatements(body: seq<Node>)
    requires forall i :: 0 <= i < |body| ==> IsStatement(body[i])
    requires forall i :: 0 <= i < |body| ==> Printable(body[i]) ==> Reprintable(body[i])
    requires forall j :: 0 <= j < |Declarations(body)| ==> Printable(Declarations(body)[j])
    ensures VarStatements(Declarations(body))
    decreases |body|
  {
    if body != [] {
      DeclarationsCons(body);
      var head := Declarations([body[0]]);
      var rest := Declarations(body[1..]);
      assert Declarations(body) == head + rest;
      forall j | 0 <= j < |rest| ensures Printable(rest[j]) {
        assert rest[j] == Declarations(body)[|head| + j];
      }
      OutputStatements(body[1..]);
      if body[0].VariableDeclaration? {
        assert head == [VariableDeclaration(body[0].declarations, "var")] + [];
        assert Printable(Declarations(body)[0]);
        assert Printable(body[0]);
      }
      forall j | 0 <= j < |Declarations(body)|
        ensures Reprintable(Declarations(body)[j]) && Declarations(body)[j].VariableDeclaration? &&
          Declarations(body)[j].kind == "var"
      {
        if j >= |head| {
          assert Declarations(body)[j] == rest[j - |head|];
        }
      }
    }
  }

  /** The walk results of a parsed Program that print read back. */
  lemma ParsedReprintable(tokens: seq<Token>)
    requires NumeralsAreDigitRuns(tokens) && forall k :: 0 <= k < |tokens| ==> WellFormedToken(tokens[k])
    requires Parsed(tokens).Ok?
    ensures Parsed(tokens).value.Program?
    ensures var body := Parsed(tokens).value.body;
      forall i :: 0 <= i < |body| ==> Printable(body[i]) ==> Reprintable(body[i])
  {
    ParsedInCursorOrder(tokens);
    var body := Parsed(tokens).value.body;
    var cs :| WalkChain(tokens, body, cs) && cs[0] == 0 && cs[|cs| - 1] == |tokens|;
    forall i | 0 <= i < |body| ensures Printable(body[i]) ==> Reprintable(body[i]) {
      assert Walked(tokens, cs[i]) == Ok((body[i], cs[i + 1]));
      WalkedReprintable(tokens, cs[i]);
    }
  }

  /** What a successful compilation prints: the text, one statement per line, of `var`
      statements. */
  lemma CompiledOutput(input: string)
    requires Compiled(input).Ok?
    ensures exists body: seq<Node> :: VarStatements(body) && Compiled(input).value == Join(Texts(body), "\n")
  {
    var tokens := Tokens(input).value;
    TokensAreParsable(input);
    TokensWellFormed(input);
    ParsedStatements(tokens);
    ParsedReprintable(tokens);
    var ast := Parsed(tokens).value;
    TransformParsed(tokens);
    var output := Program(Declarations(ast.body));
    assert Transformed(ast) == Ok(output);
    CompiledStages(input, tokens, ast, output);
    GenerateOkIffPrintable(output);
    AllPrintableIff(Declarations(ast.body));
    OutputStatements(ast.body);
    var body := Declarations(ast.body);
    TextsAreGenerated(body);
  }

  // ---------------------------------------------------------------------------------
  // Compiling the output again

  /** Lines of `var` statements compile to themselves. */
  lemma LinesCompile(body: seq<Node>)
    requires VarStatements(body)
    ensures Compiled(Join(Texts(body), "\n")) == Ok(Join(Texts(body), "\n"))
  {
    var text := Join(Texts(body), "\n");
    var tokens := AllLexemes(body);
    LinesTokens(body);
    LexemesAreDigitRuns(body);
    assert At(tokens, 0, tokens);
    ParsedLexemes(tokens, 0, body);
    var canon := Canonicals(body);
    CanonicalsFacts(body);
    VarProgramFixed(canon);
    CompiledStages(text, tokens, Program(canon), Program(canon));
    TextsAreGenerated(canon);
  }

  /** Compiling twice is compiling once: the output of a successful compilation compiles
      to itself (with the corrected letter loop and exact numbers). */
  lemma CompileTwice(input: string)
    requires Compiled(input).Ok?
    ensures Compiled(Compiled(input).value) == Compiled(input)
  {
    CompiledOutput(input);
    var body: seq<Node> :| VarStatements(body) && Compiled(input).value == Join(Texts(body), "\n");
    LinesCompile(body);
  }
}
