/** The transformer (src/compiler.js lines 254-280). It walks the AST with a visitor whose
    only callback, for VariableDeclaration, pushes a `kind: "var"` copy of the declaration
    onto the parent's `_context`. Only the root has a `_context` (line 263), and it is the
    body of the new Program; here that body is the traversal's state. */
module Transformer {
  import opened Syntax
  import opened Ast
  import opened Traverser
  import opened Parser

  /** The visitor of lines 266-277 for the tree `root`: a visited declaration whose parent is
      the root is copied, with the same declarations and kind "var", onto the end of the
      context; any other parent has no context to push onto. */
  function TransformVisitor(root: Node): Visitor<seq<Node>> {
    Visitor({"VariableDeclaration"}, (context: seq<Node>, n: Node, parent: Option<Node>) =>
      match n
      case VariableDeclaration(ds, _) =>
        if parent == Some(root) then Ok(context + [VariableDeclaration(ds, "var")]) else Err(MissingContext)
      case _ => Ok(context))
  }

  /** The result of `transformer(ast)`: a Program whose body is the context the walk filled. */
  function Transformed(ast: Node): Result<Node> {
    var body :- Run(TransformVisitor(ast), [], Events(ast, None));
    Ok(Program(body))
  }

  /** `transformer` (lines 254-280). */
  method Transform(ast: Node) returns (r: Result<Node>)
    ensures r == Transformed(ast)
  {
    var context := Traverse(TransformVisitor(ast), [], ast);
    if context.Err? {
      return Err(context.error);
    }
    return Ok(Program(context.value));
  }

  // ---------------------------------------------------------------------------------
  // Which statements survive the rewrite

  /** A top-level statement the walk passes: a leaf, or a declaration with an initializer
      (a non-null `init` has no `forEach` and is not descended into). */
  predicate Survives(n: Node) {
    n.Identifier? || n.Literal? ||
    (n.VariableDeclaration? && |n.declarations| == 1 && n.declarations[0].VariableDeclarator? &&
     n.declarations[0].init.Some?)
  }

  /** The error a failing top-level statement throws: a BinaryExpression has an unknown type,
      an AssignmentExpression has no `right` and a declarator a null `init`, neither of
      which has `forEach`. */
  function StatementError(n: Node): Error {
    if n.BinaryExpression? then UnknownNodeType("BinaryExpression") else NotIterable
  }

  /** The declarations among `items`, in order, each as a copy with kind "var". */
  function Declarations(items: seq<Node>): (r: seq<Node>)
    ensures |r| <= |items|
  {
    if items == [] then []
    else
      (if items[0].VariableDeclaration? then [VariableDeclaration(items[0].declarations, "var")] else []) +
      Declarations(items[1..])
  }

  /** The walk over one top-level statement. */
  lemma StatementSteps(root: Node, context: seq<Node>, n: Node)
    requires IsStatement(n)
    ensures var r := Run(TransformVisitor(root), context, Events(n, Some(root)));
      (r.Ok? <==> Survives(n)) &&
      (r.Ok? ==> r.value == context + Declarations([n])) &&
      (r.Err? ==> r.error == StatementError(n))
  {
    var v := TransformVisitor(root);
    assert [n][1..] == [];
    match n {
      case VariableDeclaration(ds, kind) =>
        var d := ds[0];
        assert ds == [d];
        ChildEventsSingle(d, n);
        var after := context + [VariableDeclaration(ds, "var")];
        var tail := if d.init.Some? then [] else [Fail(NotIterable)];
        assert Events(d, Some(n)) == [Visit(d, Some(n))] + tail;
        assert Events(n, Some(root)) == [Visit(n, Some(root))] + ([Visit(d, Some(n))] + tail);
        RunAppend(v, context, [Visit(n, Some(root))], [Visit(d, Some(n))] + tail);
        RunAppend(v, after, [Visit(d, Some(n))], tail);
      case _ =>
    }
  }

  /** The walk over the top-level statements `items`. */
  lemma ItemsSteps(root: Node, context: seq<Node>, items: seq<Node>)
    requires forall i :: 0 <= i < |items| ==> IsStatement(items[i])
    ensures var r := Run(TransformVisitor(root), context, ChildEvents(items, root));
      (r.Ok? <==> forall i :: 0 <= i < |items| ==> Survives(items[i])) &&
      (r.Ok? ==> r.value == context + Declarations(items)) &&
      (r.Err? ==> exists i :: (0 <= i < |items| && !Survives(items[i]) &&
        (forall j :: 0 <= j < i ==> Survives(items[j])) && r.error == StatementError(items[i])))
  {
    ItemsSurvive(root, context, items);
    ItemsContext(root, context, items);
    ItemsError(root, context, items);
  }

  lemma {:induction false} ItemsSurvive(root: Node, context: seq<Node>, items: seq<Node>)
    requires forall i :: 0 <= i < |items| ==> IsStatement(items[i])
    ensures Run(TransformVisitor(root), context, ChildEvents(items, root)).Ok? <==>
      forall i :: 0 <= i < |items| ==> Survives(items[i])
    decreases |items|
  {
    var v := TransformVisitor(root);
    if items != [] {
      var first := Run(v, context, Events(items[0], Some(root)));
      StatementSteps(root, context, items[0]);
      RunAppend(v, context, Events(items[0], Some(root)), ChildEvents(items[1..], root));
      SurvivorsTail(items);
      if first.Ok? {
        ItemsSurvive(root, first.value, items[1..]);
      }
    }
  }

  lemma {:induction false} ItemsContext(root: Node, context: seq<Node>, items: seq<Node>)
    requires forall i :: 0 <= i < |items| ==> IsStatement(items[i])
    ensures var r := Run(TransformVisitor(root), context, ChildEvents(items, root));
      r.Ok? ==> r.value == context + Declarations(items)
    decreases |items|
  {
    var v := TransformVisitor(root);
    if items != [] {
      var first := Run(v, context, Events(items[0], Some(root)));
      StatementSteps(root, context, items[0]);
      RunAppend(v, context, Events(items[0], Some(root)), ChildEvents(items[1..], root));
      if first.Ok? {
        ItemsContext(root, first.value, items[1..]);
        DeclarationsCons(items);
        var head := Declarations([items[0]]);
        assert context + head + Declarations(items[1..]) == context + (head + Declarations(items[1..]));
      }
    } else {
      assert context + [] == context;
    }
  }

  lemma {:induction false} ItemsError(root: Node, context: seq<Node>, items: seq<Node>)
    requires forall i :: 0 <= i < |items| ==> IsStatement(items[i])
    ensures var r := Run(TransformVisitor(root), context, ChildEvents(items, root));
      r.Err? ==> exists i :: (0 <= i < |items| && !Survives(items[i]) &&
        (forall j :: 0 <= j < i ==> Survives(items[j])) && r.error == StatementError(items[i]))
    decreases |items|
  {
    var v := TransformVisitor(root);
    if items != [] {
      var first := Run(v, context, Events(items[0], Some(root)));
      StatementSteps(root, context, items[0]);
      RunAppend(v, context, Events(items[0], Some(root)), ChildEvents(items[1..], root));
      if first.Ok? {
        ItemsError(root, first.value, items[1..]);
        var r := Run(v, first.value, ChildEvents(items[1..], root));
        if r.Err? {
          var i :| 0 <= i < |items[1..]| && !Survives(items[1..][i]) &&
            (forall j :: 0 <= j < i ==> Survives(items[1..][j])) && r.error == StatementError(items[1..][i]);
          SurvivorsShift(items, i);
          assert items[i + 1] == items[1..][i];
        }
      } else {
        assert !Survives(items[0]);
      }
    }
  }

  lemma DeclarationsCons(items: seq<Node>)
    requires items != []
    ensures Declarations(items) == Declarations([items[0]]) + Declarations(items[1..])
  {
    assert [items[0]][1..] == [];
  }

  lemma SurvivorsTail(items: seq<Node>)
    requires items != []
    ensures (forall i :: 0 <= i < |items| ==> Survives(items[i])) <==>
      (Survives(items[0]) && forall j :: 0 <= j < |items[1..]| ==> Survives(items[1..][j]))
  {
    if Survives(items[0]) && forall j :: 0 <= j < |items[1..]| ==> Survives(items[1..][j]) {
      forall i | 0 <= i < |items| ensures Survives(items[i]) {
        if i > 0 {
          assert items[i] == items[1..][i - 1];
        }
      }
    }
  }

  lemma SurvivorsShift(items: seq<Node>, i: nat)
    requires i < |items| && Survives(items[0])
    requires forall j :: 0 <= j < i ==> Survives(items[1..][j])
    ensures forall j :: 0 <= j < i + 1 ==> Survives(items[j])
  {
    forall j | 0 <= j < i + 1 ensures Survives(items[j]) {
      if j > 0 {
        assert items[j] == items[1..][j - 1];
      }
    }
  }

  /** Transform result: on a Program of walk results the rewrite succeeds exactly when every
      statement is an Identifier, a Literal or a declaration with an initializer. Its body is
      then the top-level declarations in order, each with kind "var" and the same
      declarators (so a declaration nested inside one keeps its kind), and the Identifier and
      Literal statements are dropped. Otherwise the first failing statement decides the
      error: UnknownNodeType for a BinaryExpression, NotIterable for an
      AssignmentExpression or a declaration without initializer. */
  lemma TransformResult(body: seq<Node>)
    requires forall i :: 0 <= i < |body| ==> IsStatement(body[i])
    ensures var r := Transformed(Program(body));
      (r.Ok? <==> forall i :: 0 <= i < |body| ==> Survives(body[i])) &&
      (r.Ok? ==> r.value == Program(Declarations(body))) &&
      (r.Err? ==> exists i :: (0 <= i < |body| && !Survives(body[i]) &&
        (forall j :: 0 <= j < i ==> Survives(body[j])) && r.error == StatementError(body[i])))
  {
    var root := Program(body);
    var v := TransformVisitor(root);
    ItemsSteps(root, [], body);
    RunAppend(v, [], [Visit(root, None)], ChildEvents(body, root));
    assert [] + Declarations(body) == Declarations(body);
  }

  /** The rewrite of a parsed program, in the terms above. */
  lemma TransformParsed(tokens: seq<Token>)
    requires NumeralsAreDigitRuns(tokens)
    requires Parsed(tokens).Ok?
    ensures Parsed(tokens).value.Program?
    ensures var body := Parsed(tokens).value.body; var r := Transformed(Parsed(tokens).value);
      (r.Ok? <==> forall i :: 0 <= i < |body| ==> Survives(body[i])) &&
      (r.Ok? ==> r.value == Program(Declarations(body))) &&
      (r.Err? ==> exists i :: (0 <= i < |body| && !Survives(body[i]) &&
        (forall j :: 0 <= j < i ==> Survives(body[j])) && r.error == StatementError(body[i])))
  {
    ParsedStatements(tokens);
    TransformResult(Parsed(tokens).value.body);
  }
}
