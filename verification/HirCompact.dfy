/** Compaction: copying the reachable nodes into a fresh array (hir_copy_node). */
module HirCompact {
  import opened Hir
  import opened HirArray
  import opened HirPropagate

  /** The same forest with its nodes numbered in preorder from `start`. */
  function Renumber(f: Forest, start: nat): Forest {
    if f.Nil? then Nil
    else Cons(start, f.op, f.role, Renumber(f.kids, start + 1), Renumber(f.rest, start + 1 + Size(f.kids)))
  }

  lemma {:induction false} RenumberFacts(f: Forest, start: nat)
    ensures forall i :: i in Footprint(Renumber(f, start)) <==> start <= i < start + Size(f)
    ensures Distinct(Renumber(f, start)) && Len(Renumber(f, start)) == Len(f)
  {
    if f.Cons? {
      RenumberFacts(f.kids, start + 1);
      RenumberFacts(f.rest, start + 1 + Size(f.kids));
      var g := Renumber(f, start);
      assert g == Cons(start, f.op, f.role, Renumber(f.kids, start + 1), Renumber(f.rest, start + 1 + Size(f.kids)));
      assert Footprint(g) == {start} + Footprint(g.kids) + Footprint(g.rest);
    }
  }

  lemma {:induction false} RenumberAppend(f: Forest, g: Forest, start: nat)
    ensures Size(Append(f, g)) == Size(f) + Size(g)
    ensures Renumber(Append(f, g), start) == Append(Renumber(f, start), Renumber(g, start + Size(f)))
  {
    if f.Cons? { RenumberAppend(f.rest, g, start + 1 + Size(f.kids)); }
  }

  /** Appends an unlinked node. */
  method ReserveNode(ir: IrProgram, op: Op, role: Role) returns (index: nat)
    modifies ir`nodes
    ensures index == |old(ir.nodes)|
    ensures ir.nodes == old(ir.nodes) + [Node(op, role, NO_NODE, NO_NODE, NO_NODE, 0)]
  {
    index := |ir.nodes|;
    ir.nodes := ir.nodes + [Node(op, role, NO_NODE, NO_NODE, NO_NODE, 0)];
  }

  /** Links `child` behind the children `kids` that `parent` already has. */
  method AddChild(ir: IrProgram, parent: nat, child: nat, ghost kids: Forest, ghost one: Forest)
    requires parent < |ir.nodes| && IsForest(ir.nodes, ir.nodes[parent].first, kids)
    requires ir.nodes[parent].last == LastIdx(kids) && ir.nodes[parent].count == Len(kids) && Distinct(kids)
    requires one.Cons? && one.rest.Nil? && IsForest(ir.nodes, child, one) && Footprint(kids) !! Footprint(one)
    requires parent !in Footprint(kids) && parent !in Footprint(one)
    modifies ir`nodes
    ensures SameOutside(old(ir.nodes), ir.nodes, {parent} + Footprint(kids))
    ensures IsForest(ir.nodes, ir.nodes[parent].first, Append(kids, one))
    ensures var n := ir.nodes[parent];
      n == old(ir.nodes[parent]).(first := n.first, last := child, count := Len(kids) + 1)
  {
    var last := ir.nodes[parent].last;
    if last == NO_NODE {
      ir.nodes := ir.nodes[parent := ir.nodes[parent].(first := child)];
      SegmentFrame(old(ir.nodes), ir.nodes, {parent}, child, one, NO_NODE);
    } else {
      SegmentEnd(ir.nodes, ir.nodes[parent].first, kids, NO_NODE, child);
      ir.nodes := ir.nodes[last := ir.nodes[last].(next := child)];
      SegmentFrame(old(ir.nodes), ir.nodes, {last as nat}, child, one, NO_NODE);
      SegmentAppend(ir.nodes, ir.nodes[parent].first, kids, child, one, NO_NODE);
    }
    ghost var linked := ir.nodes;
    AppendFacts(kids, one);
    ir.nodes := ir.nodes[parent := ir.nodes[parent].(last := child, count := ir.nodes[parent].count + 1)];
    SegmentFrame(linked, ir.nodes, {parent}, linked[parent].first, Append(kids, one), NO_NODE);
  }

  /** The copy at `copy` of a node `f` has the copies of its children `done` so far. */
  ghost predicate Copying(nodes: seq<Node>, copy: nat, f: Forest, done: Forest)
    requires f.Cons?
  {
    var kids := Renumber(done, copy + 1);
    && |nodes| == copy + 1 + Size(done)
    && nodes[copy] == Node(f.op, f.role, nodes[copy].first, LastIdx(kids), NO_NODE, Len(done))
    && IsForest(nodes, nodes[copy].first, kids)
  }

  /** A further child has been copied behind the array and can be linked. */
  lemma {:induction false} CopiedChild(before: seq<Node>, nodes: seq<Node>, copy: nat, f: Forest, done: Forest, todo: Forest)
    requires f.Cons? && todo.Cons? && Copying(before, copy, f, done)
    requires |nodes| == |before| + 1 + Size(todo.kids) && nodes[..|before|] == before
    ensures var kids, one := Renumber(done, copy + 1), Renumber(Single(todo), |before|);
      && nodes[copy] == before[copy]
      && IsForest(nodes, nodes[copy].first, kids) && Distinct(kids) && Len(kids) == Len(done)
      && Footprint(kids) !! Footprint(one) && copy !in Footprint(kids) && copy !in Footprint(one)
      && (forall j :: j in Footprint(kids) ==> copy < j)
      && one.Cons? && one.rest.Nil? && one.idx == |before|
  {
    RenumberFacts(done, copy + 1);
    RenumberFacts(Single(todo), |before|);
    assert nodes[copy] == nodes[..|before|][copy];
    CopyKeeps(before, nodes, before[copy].first, Renumber(done, copy + 1), NO_NODE);
  }

  lemma CopiedNext(nodes: seq<Node>, copy: nat, f: Forest, done: Forest, todo: Forest, copied: nat)
    requires f.Cons? && todo.Cons? && copied == copy + 1 + Size(done) && |nodes| == copied + 1 + Size(todo.kids)
    requires IsForest(nodes, nodes[copy].first, Append(Renumber(done, copy + 1), Renumber(Single(todo), copied)))
    requires nodes[copy] == Node(f.op, f.role, nodes[copy].first, copied, NO_NODE, Len(done) + 1)
    ensures Copying(nodes, copy, f, Append(done, Single(todo)))
    ensures Append(Append(done, Single(todo)), todo.rest) == Append(done, todo)
  {
    var one := Single(todo);
    var kids, last := Renumber(done, copy + 1), Renumber(one, copied);
    CopiedSize(copy, done, todo, copied);
    CopiedSegment(copy, done, todo, copied);
    assert Renumber(Append(done, one), copy + 1) == Append(kids, last);
    AppendAssociative(done, one, todo.rest);
  }

  /** The copies so far and one more. */
  lemma {:induction false} CopiedSegment(copy: nat, done: Forest, todo: Forest, copied: nat)
    requires todo.Cons? && copied == copy + 1 + Size(done)
    ensures var one := Single(todo); var kids, last := Renumber(done, copy + 1), Renumber(one, copied);
      Renumber(Append(done, one), copy + 1) == Append(kids, last) && LastIdx(Append(kids, last)) == copied
  {
    var one := Single(todo);
    var kids, last := Renumber(done, copy + 1), Renumber(one, copied);
    assert last.idx == copied && last.rest == Renumber(Nil, copied + 1 + Size(todo.kids)) == Nil;
    RenumberAppend(done, one, copy + 1);
    AppendFacts(kids, last);
  }

  lemma CopiedSize(copy: nat, done: Forest, todo: Forest, copied: nat)
    requires todo.Cons? && copied == copy + 1 + Size(done)
    ensures var all := Append(done, Single(todo)); Len(all) == Len(done) + 1 && Size(all) == Size(done) + 1 + Size(todo.kids)
  {
    AppendFacts(done, Single(todo));
    RenumberAppend(done, Single(todo), copy + 1);
  }

  /** Copies the subtree at `index` of `source` to the end of `out`. */
  method CopyNode(source: seq<Node>, out: IrProgram, index: nat, ghost f: Forest) returns (copy: nat)
    requires f.Cons? && f.idx == index && IsForest(source, index, f)
    modifies out`nodes
    ensures copy == |old(out.nodes)| && |out.nodes| == copy + 1 + Size(f.kids)
    ensures out.nodes[..copy] == old(out.nodes)
    ensures IsForest(out.nodes, copy, Renumber(Single(f), copy))
    decreases f
  {
    copy := ReserveNode(out, source[index].op, source[index].role);
    var c := source[index].first;
    ghost var done, todo := Nil, f.kids;
    while c != NO_NODE
      invariant IsForest(source, c, todo) && Append(done, todo) == f.kids && (todo.Cons? ==> todo < f)
      invariant copy == |old(out.nodes)| && Copying(out.nodes, copy, f, done)
      invariant out.nodes[..copy] == old(out.nodes)
      decreases todo
    {
      ghost var before := out.nodes;
      var copied := CopyNode(source, out, c, todo);
      CopiedChild(before, out.nodes, copy, f, done, todo);
      AddChild(out, copy, copied, Renumber(done, copy + 1), Renumber(Single(todo), copied));
      CopiedNext(out.nodes, copy, f, done, todo, copied);
      done, todo, c := Append(done, Single(todo)), todo.rest, source[c].next;
    }
    AppendNil(done);
    RenumberFacts(f.kids, copy + 1);
  }

  /** Growing the array keeps what is in it. */
  lemma {:induction false} CopyKeeps(a: seq<Node>, b: seq<Node>, i: int, f: Forest, e: int)
    requires IsSegment(a, i, f, e) && |a| <= |b| && b[..|a|] == a
    ensures IsSegment(b, i, f, e)
    decreases f
  {
    if f.Cons? {
      assert b[i] == a[i];
      CopyKeeps(a, b, a[i].first, f.kids, NO_NODE);
      CopyKeeps(a, b, a[i].next, f.rest, e);
    }
  }
}
