/** Reasoning about sibling lists stored in the node array. */
module HirArray {
  import opened Hir

  /** The node array with its root; the passes rewrite it in place. */
  class IrProgram {
    var nodes: seq<Node>
    var root: nat

    constructor (nodes: seq<Node>, root: nat)
      ensures this.nodes == nodes && this.root == root
    {
      this.nodes, this.root := nodes, root;
    }
  }

  ghost predicate SameOutside(a: seq<Node>, b: seq<Node>, s: set<nat>) {
    |a| == |b| && forall j: nat :: j < |a| && j !in s ==> b[j] == a[j]
  }

  /** The list without its tail. */
  function Single(f: Forest): Forest
    requires f.Cons?
  {
    f.(rest := Nil)
  }

  lemma SingleFacts(f: Forest)
    requires f.Cons?
    ensures Footprint(Single(f)) == {f.idx} + Footprint(f.kids) && LastIdx(Single(f)) == f.idx
    ensures Distinct(f) ==> Distinct(Single(f))
  {
    assert Footprint(Nil) == {};
  }

  lemma {:induction false} SegmentFrame(a: seq<Node>, b: seq<Node>, s: set<nat>, i: int, f: Forest, e: int)
    requires IsSegment(a, i, f, e) && SameOutside(a, b, s) && s !! Footprint(f)
    ensures IsSegment(b, i, f, e)
    decreases f
  {
    if f.Cons? {
      SegmentFrame(a, b, s, a[i].first, f.kids, NO_NODE);
      SegmentFrame(a, b, s, a[i].next, f.rest, e);
    }
  }

  lemma {:induction false} SegmentAppend(nodes: seq<Node>, i: int, f: Forest, m: int, g: Forest, e: int)
    requires IsSegment(nodes, i, f, m) && IsSegment(nodes, m, g, e)
    ensures IsSegment(nodes, i, Append(f, g), e)
    decreases f
  {
    if f.Cons? { SegmentAppend(nodes, nodes[i].next, f.rest, m, g, e); }
  }

  /** Redirecting the last sibling link of a list. */
  lemma {:induction false} SegmentEnd(nodes: seq<Node>, i: int, f: Forest, e: int, e1: int)
    requires IsSegment(nodes, i, f, e) && f.Cons? && Distinct(f)
    ensures 0 <= LastIdx(f) < |nodes| && LastIdx(f) in Footprint(f)
    ensures var l := LastIdx(f); IsSegment(nodes[l := nodes[l].(next := e1)], i, f, e1)
    decreases f
  {
    if f.rest.Nil? {
      var l := f.idx;
      SegmentFrame(nodes, nodes[l := nodes[l].(next := e1)], {l}, nodes[l].first, f.kids, NO_NODE);
    } else {
      SegmentEnd(nodes, nodes[i].next, f.rest, e, e1);
      var l := LastIdx(f.rest);
      SegmentFrame(nodes, nodes[l := nodes[l].(next := e1)], {l}, nodes[i].first, f.kids, NO_NODE);
    }
  }

  /** Overwriting the opcode and role of the first node of a list. */
  lemma SetHead(nodes: seq<Node>, f: Forest, op: Op, role: Role)
    requires f.Cons? && IsForest(nodes, f.idx, f) && Distinct(f)
    ensures var after := nodes[f.idx := nodes[f.idx].(op := op, role := role)];
      IsForest(after, f.idx, f.(op := op, role := role)) && SameOutside(nodes, after, {f.idx})
  {
    var after := nodes[f.idx := nodes[f.idx].(op := op, role := role)];
    SegmentFrame(nodes, after, {f.idx}, nodes[f.idx].first, f.kids, NO_NODE);
    SegmentFrame(nodes, after, {f.idx}, nodes[f.idx].next, f.rest, NO_NODE);
  }

  /** Moving the first node of `todo` to the end of `done` once it has become `head`. */
  lemma Advance(before: seq<Node>, after: seq<Node>, s: set<nat>, first: int, done: Forest, todo: Forest, head: Forest)
    requires todo.Cons? && head.Cons? && head.idx == todo.idx && head.rest == todo.rest
    requires IsSegment(before, first, done, todo.idx) && SameOutside(before, after, s) && s !! Footprint(done)
    requires IsForest(after, todo.idx, head)
    ensures IsSegment(after, first, Append(done, Single(head)), after[todo.idx].next)
    ensures IsForest(after, after[todo.idx].next, todo.rest)
  {
    SegmentFrame(before, after, s, first, done, todo.idx);
    assert IsSegment(after, todo.idx, Single(head), after[todo.idx].next);
    SegmentAppend(after, first, done, todo.idx, Single(head), after[todo.idx].next);
  }

  lemma {:induction false} AppendFacts(f: Forest, g: Forest)
    ensures Footprint(Append(f, g)) == Footprint(f) + Footprint(g)
    ensures Len(Append(f, g)) == Len(f) + Len(g)
    ensures LastIdx(Append(f, g)) == if g.Nil? then LastIdx(f) else LastIdx(g)
    ensures Distinct(f) && Distinct(g) && Footprint(f) !! Footprint(g) ==> Distinct(Append(f, g))
  {
    if f.Cons? { AppendFacts(f.rest, g); }
  }

  lemma {:induction false} AppendAssociative(f: Forest, g: Forest, h: Forest)
    ensures Append(Append(f, g), h) == Append(f, Append(g, h))
  {
    if f.Cons? { AppendAssociative(f.rest, g, h); }
  }

  lemma {:induction false} AppendNil(f: Forest)
    ensures Append(f, Nil) == f
  {
    if f.Cons? { AppendNil(f.rest); }
  }

  lemma {:induction false} FootprintInRange(nodes: seq<Node>, i: int, f: Forest, e: int)
    requires IsSegment(nodes, i, f, e)
    ensures forall j :: j in Footprint(f) ==> j < |nodes|
    decreases f
  {
    if f.Cons? {
      FootprintInRange(nodes, nodes[i].first, f.kids, NO_NODE);
      FootprintInRange(nodes, nodes[i].next, f.rest, e);
    }
  }

  /** The first child of `index` with a given role (hir_child_role). */
  method ChildRole(ir: IrProgram, index: nat, role: Role, ghost kids: Forest) returns (c: int)
    requires index < |ir.nodes| && IsForest(ir.nodes, ir.nodes[index].first, kids)
    ensures c == Start(Child(kids, role))
    ensures IsForest(ir.nodes, c, Child(kids, role))
  {
    c := ir.nodes[index].first;
    ghost var todo := kids;
    while c != NO_NODE
      invariant IsForest(ir.nodes, c, todo) && Child(todo, role) == Child(kids, role)
      decreases todo
    {
      if ir.nodes[c].role == role { return; }
      c, todo := ir.nodes[c].next, todo.rest;
    }
  }
}
