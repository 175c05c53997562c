/** The traverser (src/compiler.js lines 200-251): a pre-order walk that hands each node and
    its parent to the visitor's callback for the node's type. The callbacks' side effects
    are modelled as a state of type `S` that each callback receives and returns; a callback
    that throws returns an error, which aborts the walk. */
module Traverser {
  import opened Syntax
  import opened Ast

  /** A visitor: the node types it has a callback for, and the callback. */
  datatype Visitor<!S> = Visitor(handles: set<string>, visit: (S, Node, Option<Node>) -> Result<S>)

  /** The value `traverseArray` receives: an array of child nodes, a single node object
      (which has no `forEach`), or `null`/`undefined`. */
  datatype Slot = Nodes(items: seq<Node>) | Object(node: Node) | Missing

  /** The node types `traverseNode` descends from, through `traverseArray`. */
  predicate HasChildSlot(n: Node) {
    n.Program? || n.VariableDeclaration? || n.VariableDeclarator? || n.AssignmentExpression?
  }

  /** The child slot `traverseNode` passes on: `body`, `declarations`, `init` or `right`.
      An AssignmentExpression has no `right` in this grammar. */
  function ChildSlot(n: Node): Slot
    requires HasChildSlot(n)
  {
    match n
    case Program(body) => Nodes(body)
    case VariableDeclaration(ds, _) => Nodes(ds)
    case VariableDeclarator(_, init) => if init.Some? then Object(init.value) else Missing
    case AssignmentExpression(_) => Missing
  }

  /** One step of the walk: a node handed to the callback, or a thrown error. */
  datatype Event = Visit(node: Node, parent: Option<Node>) | Fail(error: Error)

  /** The steps of `traverseNode(node, parent)`, in order: the node itself first, then the
      steps of its children. A `null` or `undefined` child slot throws because it has no
      `forEach`; a node object has none either and is skipped; an unknown type throws. */
  function Events(node: Node, parent: Option<Node>): seq<Event>
    decreases node
  {
    [Visit(node, parent)] +
    match node
    case Program(body) => ChildEvents(body, node)
    case VariableDeclaration(ds, _) => ChildEvents(ds, node)
    case VariableDeclarator(_, init) => if init.Some? then [] else [Fail(NotIterable)]
    case AssignmentExpression(_) => [Fail(NotIterable)]
    case Identifier(_) => []
    case Literal(_, _) => []
    case BinaryExpression(_) => [Fail(UnknownNodeType(TypeName(node)))]
  }

  /** The steps of `forEach` over `children`: each child's steps, in order. */
  function ChildEvents(children: seq<Node>, parent: Node): seq<Event>
    decreases children
  {
    if children == [] then [] else Events(children[0], Some(parent)) + ChildEvents(children[1..], parent)
  }

  /** The steps of `traverseArray(slot, parent)`. */
  function SlotEvents(slot: Slot, parent: Node): seq<Event> {
    match slot
    case Nodes(items) => ChildEvents(items, parent)
    case Object(_) => []
    case Missing => [Fail(NotIterable)]
  }

  /** One step run against state `s`: a visit calls the callback if the visitor has one for
      the node's type. */
  function Step<S>(v: Visitor<S>, s: S, e: Event): Result<S> {
    match e
    case Visit(n, p) => if TypeName(n) in v.handles then v.visit(s, n, p) else Ok(s)
    case Fail(err) => Err(err)
  }

  /** The steps run in order from state `s`; the first error aborts the rest. */
  function Run<S>(v: Visitor<S>, s: S, events: seq<Event>): Result<S> {
    if events == [] then Ok(s)
    else
      var s' :- Step(v, s, events[0]);
      Run(v, s', events[1..])
  }

  // ---------------------------------------------------------------------------------
  // Laws of the steps

  lemma {:induction false} RunAppend<S>(v: Visitor<S>, s: S, a: seq<Event>, b: seq<Event>)
    ensures Run(v, s, a + b) == (if Run(v, s, a).Ok? then Run(v, Run(v, s, a).value, b) else Run(v, s, a))
    decreases |a|
  {
    if a == [] {
      assert a + b == b;
    } else {
      assert (a + b)[0] == a[0] && (a + b)[1..] == a[1..] + b;
      var r := Step(v, s, a[0]);
      if r.Ok? {
        RunAppend(v, r.value, a[1..], b);
      }
    }
  }

  lemma {:induction false} ChildEventsAppend(a: seq<Node>, b: seq<Node>, parent: Node)
    ensures ChildEvents(a + b, parent) == ChildEvents(a, parent) + ChildEvents(b, parent)
    decreases |a|
  {
    if a == [] {
      assert a + b == b;
    } else {
      assert (a + b)[0] == a[0] && (a + b)[1..] == a[1..] + b;
      ChildEventsAppend(a[1..], b, parent);
    }
  }

  lemma ChildEventsSingle(n: Node, parent: Node)
    ensures ChildEvents([n], parent) == Events(n, Some(parent))
  {
    assert [n][1..] == [];
  }

  /** Pre-order: the callback for a node runs before any step of its children, and the
      steps of a node with a child slot are the node's visit followed by that slot's steps. */
  lemma PreOrder(node: Node, parent: Option<Node>)
    ensures |Events(node, parent)| > 0 && Events(node, parent)[0] == Visit(node, parent)
    ensures HasChildSlot(node) ==> Events(node, parent) == [Visit(node, parent)] + SlotEvents(ChildSlot(node), node)
  {
  }

  /** One round of `forEach`: the steps of the first `i + 1` children run the next child's
      steps from the state the first `i` left, and an error there is the error of all. */
  lemma ForEachStep<S>(v: Visitor<S>, s: S, items: seq<Node>, i: nat, parent: Node, state: S)
    requires i < |items|
    requires Run(v, s, ChildEvents(items[..i], parent)) == Ok(state)
    ensures Run(v, s, ChildEvents(items[..i + 1], parent)) == Run(v, state, Events(items[i], Some(parent)))
    ensures Run(v, state, Events(items[i], Some(parent))).Err? ==>
      Run(v, s, ChildEvents(items, parent)) == Run(v, state, Events(items[i], Some(parent)))
  {
    assert items[..i + 1] == items[..i] + [items[i]];
    ChildEventsAppend(items[..i], [items[i]], parent);
    ChildEventsSingle(items[i], parent);
    RunAppend(v, s, ChildEvents(items[..i], parent), Events(items[i], Some(parent)));
    assert items == items[..i + 1] + items[i + 1..];
    ChildEventsAppend(items[..i + 1], items[i + 1..], parent);
    RunAppend(v, s, ChildEvents(items[..i + 1], parent), ChildEvents(items[i + 1..], parent));
  }

  // ---------------------------------------------------------------------------------
  // The walk as the source runs it

  /** `traverseArray` (lines 203-208): `forEach` over an array slot, nothing for a slot
      without `forEach`, and a thrown error for `null` or `undefined`. */
  method TraverseArray<S>(v: Visitor<S>, s: S, slot: Slot, parent: Node) returns (r: Result<S>)
    requires HasChildSlot(parent) && slot == ChildSlot(parent)
    ensures r == Run(v, s, SlotEvents(slot, parent))
    decreases parent, 0
  {
    match slot {
      case Missing =>
        return Err(NotIterable);
      case Object(_) =>
        return Ok(s);
      case Nodes(items) =>
        var state := s;
        var i := 0;
        assert items[..0] == [];
        while i < |items|
          invariant 0 <= i <= |items|
          invariant Run(v, s, ChildEvents(items[..i], parent)) == Ok(state)
        {
          var child := items[i];
          ForEachStep(v, s, items, i, parent, state);
          var res := TraverseNode(v, state, child, Some(parent));
          if res.Err? {
            return res;
          }
          state := res.value;
          i := i + 1;
        }
        assert items[..i] == items;
        return Ok(state);
    }
  }

  /** `traverseNode` (lines 211-248): the callback for the node's type, if any, then the
      node's child slot, or a thrown error for a type it does not know. */
  method TraverseNode<S>(v: Visitor<S>, s: S, node: Node, parent: Option<Node>) returns (r: Result<S>)
    ensures r == Run(v, s, Events(node, parent))
    decreases node, 1
  {
    var state := s;
    if TypeName(node) in v.handles {
      var res := v.visit(state, node, parent);
      if res.Err? {
        return res;
      }
      state := res.value;
    }
    assert Step(v, s, Visit(node, parent)) == Ok(state);
    RunAppend(v, s, [Visit(node, parent)], Events(node, parent)[1..]);
    assert Events(node, parent) == [Visit(node, parent)] + Events(node, parent)[1..];
    match node {
      case Program(_) =>
        r := TraverseArray(v, state, ChildSlot(node), node);
      case VariableDeclaration(_, _) =>
        r := TraverseArray(v, state, ChildSlot(node), node);
      case VariableDeclarator(_, _) =>
        r := TraverseArray(v, state, ChildSlot(node), node);
      case AssignmentExpression(_) =>
        r := TraverseArray(v, state, ChildSlot(node), node);
      case Identifier(_) =>
        r := Ok(state);
      case Literal(_, _) =>
        r := Ok(state);
      case BinaryExpression(_) =>
        r := Err(UnknownNodeType(TypeName(node)));
    }
  }

  /** `traverser(ast, visitor)` (lines 200-251): the walk from the root, which has no parent. */
  method Traverse<S>(v: Visitor<S>, s: S, ast: Node) returns (r: Result<S>)
    ensures r == Run(v, s, Events(ast, None))
  {
    r := TraverseNode(v, s, ast, None);
  }
}
