/** The parser (src/compiler.js lines 94-197): a recursive descent over the tokens driven by
    one cursor shared by every `walk` call. `Walked` and `Parsed` are the specification;
    the methods `Walk` and `Parse` run the source's cursor updates, the cursor being passed
    in and handed back. */
module Parser {
  import opened Syntax
  import opened CharClasses
  import opened Numbers
  import opened Ast

  /** What the parser needs of its tokens: every Numeric token carries a digit run, so
      that `Number(token.value)` is the value of that numeral. */
  predicate NumeralsAreDigitRuns(tokens: seq<Token>) {
    forall k :: 0 <= k < |tokens| && tokens[k].kind == Numeric ==> IsDigitRun(tokens[k].value)
  }

  /** The operator test of line 134: the text holds one of `+`, `-`, `*` or `/`. */
  predicate HasArithmeticOperator(value: string) {
    exists i :: 0 <= i < |value| && value[i] in "+-*/"
  }

  /** The assignment test of line 139: the text holds an equals sign. */
  predicate HasEquals(value: string) {
    exists i :: 0 <= i < |value| && value[i] == '='
  }

  /** The keywords that start a declaration; the comparison is exact, so case matters. */
  predicate IsDeclarationKind(value: string) {
    value == "var" || value == "let" || value == "const"
  }

  /** The `operator` property of a node, `None` where the node has none (`undefined`). */
  function OperatorOf(n: Node): Option<string> {
    match n
    case BinaryExpression(op) => Some(op)
    case AssignmentExpression(op) => Some(op)
    case _ => None
  }

  /** A token that `walk` has no rule for: it throws that token's type. */
  predicate Rejected(t: Token) {
    (t.kind == Punctuator && !HasArithmeticOperator(t.value) && !HasEquals(t.value)) ||
    (t.kind == Keyword && !IsDeclarationKind(t.value))
  }

  /** `walk()` started with the cursor at `cur`: the node it returns and the cursor it
      leaves, or the error it throws. Reading past the last token fails. */
  function Walked(tokens: seq<Token>, cur: nat): (r: Result<(Node, nat)>)
    requires NumeralsAreDigitRuns(tokens)
    ensures r.Ok? ==> cur < r.value.1 <= |tokens|
    decreases |tokens| - cur
  {
    if cur >= |tokens| then Err(UndefinedToken)
    else
      var token := tokens[cur];
      match token.kind
      case Numeric => Ok((Literal(DecimalValue(token.value), token.value), cur + 1))
      case Identifier => Ok((Node.Identifier(token.value), cur + 1))
      case Punctuator =>
        if HasArithmeticOperator(token.value) then Ok((BinaryExpression(token.value), cur + 1))
        else if HasEquals(token.value) then Ok((AssignmentExpression(token.value), cur + 1))
        else Err(ParseError(Punctuator))
      case Keyword =>
        if IsDeclarationKind(token.value) then
          var variable :- Walked(tokens, cur + 1);
          var equal :- Walked(tokens, variable.1);
          if OperatorOf(equal.0) == Some("=") then
            var init :- Walked(tokens, equal.1);
            Ok((VariableDeclaration([VariableDeclarator(variable.0, Some(init.0))], token.value), init.1))
          else
            Ok((VariableDeclaration([VariableDeclarator(variable.0, None)], token.value), equal.1 - 1))
        else Err(ParseError(Keyword))
  }

  /** The top-level walks from `cur` to the end of the tokens. */
  function ParsedFrom(tokens: seq<Token>, cur: nat): Result<seq<Node>>
    requires NumeralsAreDigitRuns(tokens) && cur <= |tokens|
    decreases |tokens| - cur
  {
    if cur == |tokens| then Ok([])
    else
      var step :- Walked(tokens, cur);
      Prefixed([step.0], ParsedFrom(tokens, step.1))
  }

  /** The result of `parser(tokens)`: a Program whose body is the top-level walks. */
  function Parsed(tokens: seq<Token>): Result<Node>
    requires NumeralsAreDigitRuns(tokens)
  {
    var body :- ParsedFrom(tokens, 0);
    Ok(Program(body))
  }

  /** A node and the cursor after it, or the error, in the shape `Walked` returns. */
  function Outcome(r: Result<Node>, cursor: nat): Result<(Node, nat)> {
    if r.Ok? then Ok((r.value, cursor)) else Err(r.error)
  }

  /** `walk` (lines 99-182) with the cursor `current` passed in and handed back. */
  method Walk(tokens: seq<Token>, start: nat) returns (r: Result<Node>, current: nat)
    requires NumeralsAreDigitRuns(tokens)
    ensures Outcome(r, current) == Walked(tokens, start)
    decreases |tokens| - start
  {
    current := start;
    if current >= |tokens| {
      return Err(UndefinedToken), current;
    }
    var token := tokens[current];
    if token.kind == Numeric {
      current := current + 1;
      return Ok(Literal(DecimalValue(token.value), token.value)), current;
    }
    if token.kind == TokenType.Identifier {
      current := current + 1;
      return Ok(Node.Identifier(token.value)), current;
    }
    if token.kind == Punctuator {
      current := current + 1;
      if HasArithmeticOperator(token.value) {
        return Ok(BinaryExpression(token.value)), current;
      }
      if HasEquals(token.value) {
        return Ok(AssignmentExpression(token.value)), current;
      }
    }
    if token.kind == Keyword {
      var value := token.value;
      if IsDeclarationKind(value) {
        current := current + 1;
        var variable, equal;
        variable, current := Walk(tokens, current);
        if variable.Err? {
          return Err(variable.error), current;
        }
        equal, current := Walk(tokens, current);
        if equal.Err? {
          return Err(equal.error), current;
        }
        var rightVar: Option<Node>;
        if OperatorOf(equal.value) == Some("=") {
          var init;
          init, current := Walk(tokens, current);
          if init.Err? {
            return Err(init.error), current;
          }
          rightVar := Some(init.value);
        } else {
          rightVar := None;
          current := current - 1;
        }
        return Ok(VariableDeclaration([VariableDeclarator(variable.value, rightVar)], value)), current;
      }
    }
    return Err(ParseError(token.kind)), current;
  }

  /** `parser` (lines 94-197): walks from cursor 0 until the cursor reaches the end,
      pushing each result onto the body. */
  method Parse(tokens: seq<Token>) returns (r: Result<Node>)
    requires NumeralsAreDigitRuns(tokens)
    ensures r == Parsed(tokens)
  {
    var current := 0;
    var body: seq<Node> := [];
    assert ParsedFrom(tokens, 0).Ok? ==> [] + ParsedFrom(tokens, 0).value == ParsedFrom(tokens, 0).value;
    while current < |tokens|
      invariant current <= |tokens|
      invariant ParsedFrom(tokens, 0) == Prefixed(body, ParsedFrom(tokens, current))
      decreases |tokens| - current
    {
      var node;
      node, current := Walk(tokens, current);
      if node.Err? {
        return Err(node.error);
      }
      PrefixedAssociative(body, [node.value], ParsedFrom(tokens, current));
      body := body + [node.value];
    }
    assert body + [] == body;
    return Ok(Program(body));
  }

  // ---------------------------------------------------------------------------------
  // Properties of the parser

  /** `cs` is a chain of cursors along which successive walks produce `body`. */
  predicate WalkChain(tokens: seq<Token>, body: seq<Node>, cs: seq<nat>)
    requires NumeralsAreDigitRuns(tokens)
  {
    |cs| == |body| + 1 &&
    forall i :: 0 <= i < |body| ==> Walked(tokens, cs[i]) == Ok((body[i], cs[i + 1]))
  }

  lemma {:induction false} ParsedFromChain(tokens: seq<Token>, cur: nat)
    requires NumeralsAreDigitRuns(tokens) && cur <= |tokens|
    requires ParsedFrom(tokens, cur).Ok?
    ensures exists cs :: (WalkChain(tokens, ParsedFrom(tokens, cur).value, cs) &&
      cs[0] == cur && cs[|cs| - 1] == |tokens|)
    decreases |tokens| - cur
  {
    var body := ParsedFrom(tokens, cur).value;
    if cur == |tokens| {
      assert WalkChain(tokens, body, [cur]);
    } else {
      var step := Walked(tokens, cur).value;
      ParsedFromChain(tokens, step.1);
      var rest := ParsedFrom(tokens, step.1).value;
      var cs :| WalkChain(tokens, rest, cs) && cs[0] == step.1 && cs[|cs| - 1] == |tokens|;
      assert body == [step.0] + rest;
      var cs' := [cur] + cs;
      forall i | 0 <= i < |body|
        ensures Walked(tokens, cs'[i]) == Ok((body[i], cs'[i + 1]))
      {
        if i > 0 {
          assert body[i] == rest[i - 1] && cs'[i] == cs[i - 1] && cs'[i + 1] == cs[i];
        }
      }
      assert WalkChain(tokens, body, cs');
    }
  }

  /** Parser ordering: the body of the Program lists the results of successive walks, the
      first starting at cursor 0, each next one where the previous stopped, and the last
      stopping exactly at the end of the tokens; every cursor is strictly larger than the
      one before. */
  lemma ParsedInCursorOrder(tokens: seq<Token>)
    requires NumeralsAreDigitRuns(tokens)
    requires Parsed(tokens).Ok?
    ensures Parsed(tokens).value.Program?
    ensures exists cs :: (WalkChain(tokens, Parsed(tokens).value.body, cs) &&
      cs[0] == 0 && cs[|cs| - 1] == |tokens| &&
      forall i :: 0 <= i < |cs| - 1 ==> cs[i] < cs[i + 1])
  {
    ParsedFromChain(tokens, 0);
    var cs :| WalkChain(tokens, Parsed(tokens).value.body, cs) && cs[0] == 0 && cs[|cs| - 1] == |tokens|;
    assert forall i :: 0 <= i < |cs| - 1 ==> cs[i] < cs[i + 1] by {
      forall i | 0 <= i < |cs| - 1 ensures cs[i] < cs[i + 1] {
        assert Walked(tokens, cs[i]) == Ok((Parsed(tokens).value.body[i], cs[i + 1]));
      }
    }
  }

  /** Parsing fails exactly on a rejected token or a read past the end: a rejected token
      under the cursor fails with its own type, and every ParseError names the type of a
      rejected token at or after the cursor. */
  lemma {:induction false} WalkErrors(tokens: seq<Token>, cur: nat)
    requires NumeralsAreDigitRuns(tokens)
    ensures cur < |tokens| && Rejected(tokens[cur]) ==> Walked(tokens, cur) == Err(ParseError(tokens[cur].kind))
    ensures Walked(tokens, cur).Err? ==>
      Walked(tokens, cur).error == UndefinedToken ||
      exists j :: cur <= j < |tokens| && Rejected(tokens[j]) &&
        Walked(tokens, cur).error == ParseError(tokens[j].kind)
    decreases |tokens| - cur
  {
    if cur < |tokens| && tokens[cur].kind == Keyword && IsDeclarationKind(tokens[cur].value) {
      WalkErrors(tokens, cur + 1);
      var a := Walked(tokens, cur + 1);
      if a.Ok? {
        WalkErrors(tokens, a.value.1);
        var b := Walked(tokens, a.value.1);
        if b.Ok? {
          WalkErrors(tokens, b.value.1);
        }
      }
    }
  }

  /** The nodes a walk can return at the top level: a leaf, an operator, or a declaration of
      a declaration kind holding exactly one declarator. */
  predicate IsStatement(n: Node) {
    match n
    case Program(_) => false
    case VariableDeclarator(_, _) => false
    case VariableDeclaration(ds, kind) => |ds| == 1 && ds[0].VariableDeclarator? && IsDeclarationKind(kind)
    case Literal(value, row) => IsDigitRun(row) && value == DecimalValue(row)
    case _ => true
  }

  /** A walk from a token returns the node of that token's rule: a Numeric token a Literal
      whose value is the numeral's and whose row is the token text, an Identifier token an
      Identifier of that name, an operator punctuator a BinaryExpression, another one
      holding `=` an AssignmentExpression, each with the token text as its operator, and a declaration keyword a declaration of that
      kind whose identifier is the next walk. */
  lemma {:induction false} WalkedStatement(tokens: seq<Token>, cur: nat)
    requires NumeralsAreDigitRuns(tokens)
    requires Walked(tokens, cur).Ok?
    ensures cur < |tokens|
    ensures IsStatement(Walked(tokens, cur).value.0)
    ensures var n := Walked(tokens, cur).value.0; var t := tokens[cur];
      (t.kind == Numeric <==> n.Literal?) &&
      (n.Literal? ==> n.row == t.value) &&
      (t.kind == TokenType.Identifier <==> n == Node.Identifier(t.value)) &&
      (t.kind == Punctuator <==> n.BinaryExpression? || n.AssignmentExpression?) &&
      (n.BinaryExpression? <==> t.kind == Punctuator && HasArithmeticOperator(t.value)) &&
      (n.AssignmentExpression? ==> HasEquals(t.value) && !HasArithmeticOperator(t.value)) &&
      ((n.BinaryExpression? || n.AssignmentExpression?) ==> n.operator == t.value) &&
      (t.kind == Keyword <==> n.VariableDeclaration?) &&
      (n.VariableDeclaration? ==>
        n.kind == t.value && Walked(tokens, cur + 1).Ok? &&
        n.declarations[0].id == Walked(tokens, cur + 1).value.0)
  {
    assert tokens[cur].kind == Numeric ==> IsDigitRun(tokens[cur].value);
  }

  /** Every statement of a parsed Program has the shape of a walk result. */
  lemma {:induction false} ParsedStatements(tokens: seq<Token>)
    requires NumeralsAreDigitRuns(tokens)
    requires Parsed(tokens).Ok?
    ensures Parsed(tokens).value.Program?
    ensures forall i :: 0 <= i < |Parsed(tokens).value.body| ==> IsStatement(Parsed(tokens).value.body[i])
  {
    ParsedFromChain(tokens, 0);
    var body := Parsed(tokens).value.body;
    var cs :| WalkChain(tokens, body, cs) && cs[0] == 0 && cs[|cs| - 1] == |tokens|;
    forall i | 0 <= i < |body| ensures IsStatement(body[i]) {
      assert Walked(tokens, cs[i]) == Ok((body[i], cs[i + 1]));
      WalkedStatement(tokens, cs[i]);
    }
  }

  /** The step-back rule of lines 157-164. After the identifier, `walk` reads a lookahead.
      If the lookahead's operator is exactly `=`, the initializer is the next walk and the
      declaration ends where that walk ends. Otherwise the initializer is null and the cursor
      goes back exactly one token from where the lookahead ended, however many tokens the
      lookahead consumed. */
  lemma StepBack(tokens: seq<Token>, cur: nat)
    requires NumeralsAreDigitRuns(tokens)
    requires Walked(tokens, cur).Ok? && Walked(tokens, cur).value.0.VariableDeclaration?
    ensures Walked(tokens, cur + 1).Ok?
    ensures var lookahead := Walked(tokens, Walked(tokens, cur + 1).value.1);
      var d := Walked(tokens, cur).value.0.declarations[0];
      var end := Walked(tokens, cur).value.1;
      lookahead.Ok? &&
      (d.init.None? <==> OperatorOf(lookahead.value.0) != Some("=")) &&
      (d.init.None? ==> end == lookahead.value.1 - 1) &&
      (d.init.Some? ==> Walked(tokens, lookahead.value.1) == Ok((d.init.value, end)))
  {
    WalkedStatement(tokens, cur);
  }

  lemma EqualsSign()
    ensures !HasArithmeticOperator("=") && HasEquals("=")
  {
    assert "="[0] == '=';
  }

  /** The declaration test is case-sensitive: `VAR x` fails with the type Keyword. */
  lemma UpperCaseKeywordRejected()
    ensures Parsed([Token(Keyword, "VAR"), Token(TokenType.Identifier, "x")]) == Err(ParseError(Keyword))
  {
  }

  /** The tokens of `kind name = digits`, for a declaration kind, parse to one declaration
      of that kind with one declarator: the name, initialized to the numeral. */
  lemma DeclarationParses(kind: string, name: string, digits: string)
    requires IsDeclarationKind(kind) && IsDigitRun(digits)
    ensures var tokens := [Token(Keyword, kind), Token(TokenType.Identifier, name), Token(Punctuator, "="),
      Token(Numeric, digits)];
      NumeralsAreDigitRuns(tokens) &&
      Parsed(tokens) == Ok(Program([VariableDeclaration([VariableDeclarator(Node.Identifier(name),
        Some(Literal(DecimalValue(digits), digits)))], kind)]))
  {
    var tokens := [Token(Keyword, kind), Token(TokenType.Identifier, name), Token(Punctuator, "="),
      Token(Numeric, digits)];
    EqualsSign();
    var literal := Literal(DecimalValue(digits), digits);
    var declaration := VariableDeclaration([VariableDeclarator(Node.Identifier(name), Some(literal))], kind);
    assert Walked(tokens, 1) == Ok((Node.Identifier(name), 2));
    assert Walked(tokens, 2) == Ok((AssignmentExpression("="), 3));
    assert Walked(tokens, 3) == Ok((literal, 4));
    assert Walked(tokens, 0) == Ok((declaration, 4));
    assert ParsedFrom(tokens, 4) == Ok([]);
    assert [declaration] + [] == [declaration];
  }

  /** `var x` and `var x =` read a token past the end. */
  lemma DeclarationPastEnd()
    ensures Parsed([Token(Keyword, "var"), Token(TokenType.Identifier, "x")]) == Err(UndefinedToken)
    ensures Parsed([Token(Keyword, "var"), Token(TokenType.Identifier, "x"), Token(Punctuator, "=")]) ==
      Err(UndefinedToken)
  {
    EqualsSign();
  }

  /** The tokens of a declaration without initializer followed by one with, as in
      `var x var y = 1`: the lookahead after `x` is the whole second declaration, four
      tokens, which is no operator; the cursor steps back one token only, so the numeral
      is walked again as a statement of its own and the second declaration is lost. */
  lemma LookaheadStepBack(first: string, x: string, second: string, y: string, digits: string)
    requires IsDeclarationKind(first) && IsDeclarationKind(second) && IsDigitRun(digits)
    ensures var tokens := [Token(Keyword, first), Token(TokenType.Identifier, x),
      Token(Keyword, second), Token(TokenType.Identifier, y), Token(Punctuator, "="), Token(Numeric, digits)];
      NumeralsAreDigitRuns(tokens) &&
      Parsed(tokens) == Ok(Program([
        VariableDeclaration([VariableDeclarator(Node.Identifier(x), None)], first),
        Literal(DecimalValue(digits), digits)]))
  {
    var tokens := [Token(Keyword, first), Token(TokenType.Identifier, x),
      Token(Keyword, second), Token(TokenType.Identifier, y), Token(Punctuator, "="), Token(Numeric, digits)];
    EqualsSign();
    var literal := Literal(DecimalValue(digits), digits);
    assert Walked(tokens, 5) == Ok((literal, 6));
    assert Walked(tokens, 4) == Ok((AssignmentExpression("="), 5));
    assert Walked(tokens, 3) == Ok((Node.Identifier(y), 4));
    var inner := VariableDeclaration([VariableDeclarator(Node.Identifier(y), Some(literal))], second);
    assert Walked(tokens, 2) == Ok((inner, 6));
    assert Walked(tokens, 1) == Ok((Node.Identifier(x), 2));
    var outer := VariableDeclaration([VariableDeclarator(Node.Identifier(x), None)], first);
    assert Walked(tokens, 0) == Ok((outer, 5));
    assert ParsedFrom(tokens, 6) == Ok([]);
    assert [literal] + [] == [literal];
    assert ParsedFrom(tokens, 5) == Ok([literal]);
    assert [outer] + [literal] == [outer, literal];
  }
}
