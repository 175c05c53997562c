/** The code generator (src/compiler.js lines 282-315): structural recursion from a node to
    its text. A node it cannot print throws; the first such node met, in the order `map`
    visits them, decides the error. */
module CodeGenerator {
  import opened Syntax
  import opened Ast
  import opened Numbers

  /** `parts.join(sep)`. */
  function Join(parts: seq<string>, sep: string): string {
    if parts == [] then ""
    else if |parts| == 1 then parts[0]
    else parts[0] + sep + Join(parts[1..], sep)
  }

  /** `codeGenerator(node)`. A Literal prints the decimal text of its value, which is what
      concatenating the number to a string gives. */
  function Generate(node: Node): Result<string>
    decreases node, 1
  {
    match node
    case Program(body) =>
      var lines :- GenerateAll(body);
      Ok(Join(lines, "\n"))
    case VariableDeclaration(ds, kind) =>
      var parts :- GenerateAll(ds);
      Ok(kind + " " + Join(parts, "\n"))
    case VariableDeclarator(id, init) =>
      var left :- Generate(id);
      var right :- GenerateInit(init);
      Ok(left + " = " + right)
    case Identifier(name) => Ok(name)
    case Literal(value, _) => Ok(DecimalText(value))
    case BinaryExpression(_) => Err(UnknownNodeType(TypeName(node)))
    case AssignmentExpression(_) => Err(UnknownNodeType(TypeName(node)))
  }

  /** `codeGenerator(node.init)`: a null initializer has no `type` to read. */
  function GenerateInit(init: Option<Node>): Result<string>
    decreases init, 0
  {
    match init
    case None => Err(NullNode)
    case Some(n) => Generate(n)
  }

  /** `nodes.map(codeGenerator)`: every text in order, or the first error. */
  function GenerateAll(nodes: seq<Node>): (r: Result<seq<string>>)
    ensures r.Ok? ==> |r.value| == |nodes|
    decreases nodes, 0
  {
    if nodes == [] then Ok([])
    else
      var first :- Generate(nodes[0]);
      Prefixed([first], GenerateAll(nodes[1..]))
  }

  // ---------------------------------------------------------------------------------
  // Which trees print

  /** The trees the generator can print: no BinaryExpression or AssignmentExpression and no
      null initializer anywhere it looks. */
  predicate Printable(n: Node)
    decreases n, 1
  {
    match n
    case Program(body) => AllPrintable(body)
    case VariableDeclaration(ds, _) => AllPrintable(ds)
    case VariableDeclarator(id, init) => Printable(id) && init.Some? && Printable(init.value)
    case Identifier(_) => true
    case Literal(_, _) => true
    case BinaryExpression(_) => false
    case AssignmentExpression(_) => false
  }

  predicate AllPrintable(ns: seq<Node>)
    decreases ns, 0
  {
    ns == [] || (Printable(ns[0]) && AllPrintable(ns[1..]))
  }

  /** The errors a generator throws. */
  predicate GeneratorError(e: Error) {
    e == UnknownNodeType("BinaryExpression") || e == UnknownNodeType("AssignmentExpression") || e == NullNode
  }

  lemma {:induction false} GenerateOkIffPrintable(n: Node)
    ensures Generate(n).Ok? <==> Printable(n)
    ensures Generate(n).Err? ==> GeneratorError(Generate(n).error)
    decreases n, 1
  {
    match n {
      case Program(body) => GenerateAllOkIffPrintable(body);
      case VariableDeclaration(ds, _) => GenerateAllOkIffPrintable(ds);
      case VariableDeclarator(id, init) =>
        GenerateOkIffPrintable(id);
        if init.Some? {
          GenerateOkIffPrintable(init.value);
        }
      case _ =>
    }
  }

  lemma {:induction false} GenerateAllOkIffPrintable(ns: seq<Node>)
    ensures GenerateAll(ns).Ok? <==> AllPrintable(ns)
    ensures GenerateAll(ns).Err? ==> GeneratorError(GenerateAll(ns).error)
    decreases ns, 0
  {
    if ns != [] {
      GenerateOkIffPrintable(ns[0]);
      GenerateAllOkIffPrintable(ns[1..]);
    }
  }

  // ---------------------------------------------------------------------------------
  // The output format

  /** `text.split(sep)` for a one-character separator: the pieces between separators. */
  function Split(s: string, sep: char): (r: seq<string>)
    ensures |r| > 0
  {
    if s == [] then [""]
    else if s[0] == sep then [""] + Split(s[1..], sep)
    else
      var rest := Split(s[1..], sep);
      [[s[0]] + rest[0]] + rest[1..]
  }

  predicate NoSeparator(s: string, sep: char) {
    forall i :: 0 <= i < |s| ==> s[i] != sep
  }

  lemma {:induction false} SplitPrefix(a: string, t: string, sep: char)
    requires NoSeparator(a, sep)
    ensures Split(a + t, sep) == [a + Split(t, sep)[0]] + Split(t, sep)[1..]
    decreases |a|
  {
    if a == [] {
      assert a + t == t;
      var r := Split(t, sep);
      assert a + r[0] == r[0];
      assert r == [r[0]] + r[1..];
    } else {
      assert (a + t)[0] == a[0] && (a + t)[1..] == a[1..] + t;
      SplitPrefix(a[1..], t, sep);
      assert [a[0]] + (a[1..] + Split(t, sep)[0]) == a + Split(t, sep)[0];
    }
  }

  /** Splitting gives the joined pieces back when no piece holds the separator. */
  lemma {:induction false} SplitJoin(parts: seq<string>, sep: char)
    requires |parts| > 0
    requires forall k :: 0 <= k < |parts| ==> NoSeparator(parts[k], sep)
    ensures Split(Join(parts, [sep]), sep) == parts
    decreases |parts|
  {
    if |parts| == 1 {
      SplitPrefix(parts[0], "", sep);
      assert parts[0] + "" == parts[0];
    } else {
      var rest := Join(parts[1..], [sep]);
      SplitJoin(parts[1..], sep);
      assert parts[0] + [sep] + rest == parts[0] + ([sep] + rest);
      SplitPrefix(parts[0], [sep] + rest, sep);
      assert ([sep] + rest)[1..] == rest;
      assert Split([sep] + rest, sep) == [""] + parts[1..];
      assert parts[0] + "" == parts[0];
      assert parts == [parts[0]] + parts[1..];
    }
  }

  /** `map` stops at the first node that cannot print, and that node's error is the result. */
  lemma {:induction false} GenerateAllFirstError(ns: seq<Node>)
    ensures GenerateAll(ns).Err? ==> exists i :: (0 <= i < |ns| && Generate(ns[i]).Err? &&
      (forall j :: 0 <= j < i ==> Generate(ns[j]).Ok?) && GenerateAll(ns).error == Generate(ns[i]).error)
    decreases |ns|
  {
    if ns != [] && Generate(ns[0]).Ok? && GenerateAll(ns).Err? {
      var tail := ns[1..];
      GenerateAllFirstError(tail);
      var i :| 0 <= i < |tail| && Generate(tail[i]).Err? &&
        (forall j :: 0 <= j < i ==> Generate(tail[j]).Ok?) && GenerateAll(tail).error == Generate(tail[i]).error;
      assert ns[i + 1] == tail[i];
      forall j | 0 <= j < i + 1 ensures Generate(ns[j]).Ok? {
        if j > 0 {
          assert ns[j] == tail[j - 1];
        }
      }
    }
  }

  /** Program format: a Program prints as the texts of its statements, one per line, in
      order (an empty body prints as the empty text), provided no statement text itself
      spans lines; if a statement cannot be printed the first such statement's error is
      the result. */
  lemma ProgramLines(body: seq<Node>)
    ensures Generate(Program(body)).Ok? <==> GenerateAll(body).Ok?
    ensures body == [] ==> Generate(Program(body)) == Ok("")
    ensures (GenerateAll(body).Ok? && body != [] &&
      forall k :: 0 <= k < |body| ==> NoSeparator(GenerateAll(body).value[k], '\n')) ==>
      Split(Generate(Program(body)).value, '\n') == GenerateAll(body).value
    ensures Generate(Program(body)).Err? ==> exists i :: (0 <= i < |body| && Generate(body[i]).Err? &&
      (forall j :: 0 <= j < i ==> Generate(body[j]).Ok?) && Generate(Program(body)).error == Generate(body[i]).error)
  {
    GenerateAllFirstError(body);
    if GenerateAll(body).Ok? && body != [] &&
      (forall k :: 0 <= k < |body| ==> NoSeparator(GenerateAll(body).value[k], '\n')) {
      SplitJoin(GenerateAll(body).value, '\n');
    }
  }

  /** Declaration format: a declaration with one declarator prints as its kind, a space, the
      identifier's text, ` = ` and the initializer's text. */
  lemma DeclarationFormat(id: Node, init: Node, kind: string)
    requires Generate(id).Ok? && Generate(init).Ok?
    ensures Generate(VariableDeclaration([VariableDeclarator(id, Some(init))], kind)) ==
      Ok(kind + " " + Generate(id).value + " = " + Generate(init).value)
    ensures Generate(VariableDeclaration([VariableDeclarator(id, None)], kind)) == Err(NullNode)
  {
    DeclarationPrints(id, init, kind);
    GenerateSingle(VariableDeclarator(id, None));
  }

  lemma DeclarationPrints(id: Node, init: Node, kind: string)
    requires Generate(id).Ok? && Generate(init).Ok?
    ensures Generate(VariableDeclaration([VariableDeclarator(id, Some(init))], kind)) ==
      Ok(kind + " " + Generate(id).value + " = " + Generate(init).value)
  {
    var d := VariableDeclarator(id, Some(init));
    var left, right := Generate(id).value, Generate(init).value;
    var text := left + " = " + right;
    assert Generate(d) == Ok(text);
    GenerateSingle(d);
    assert Join([text], "\n") == text;
    assert kind + " " + text == kind + " " + left + " = " + right;
  }

  /** A one-element list generates as its element. */
  lemma GenerateSingle(n: Node)
    ensures Generate(n).Ok? ==> GenerateAll([n]) == Ok([Generate(n).value])
    ensures Generate(n).Err? ==> GenerateAll([n]) == Err(Generate(n).error)
  {
    assert [n][1..] == [];
    if Generate(n).Ok? {
      assert [Generate(n).value] + [] == [Generate(n).value];
    }
  }

  /** A Literal prints its value, not its original text: a canonical numeral prints as itself
      and `007` prints as `7`. */
  lemma LiteralFormat(row: string)
    requires IsDigitRun(row)
    ensures IsCanonical(row) ==> Generate(Literal(DecimalValue(row), row)) == Ok(row)
    ensures Generate(Literal(DecimalValue("007"), "007")) == Ok("7")
  {
    if IsCanonical(row) {
      TextOfValue(row);
    }
    LeadingZerosDropped();
  }
}
