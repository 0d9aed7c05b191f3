/** The graph builder (src/compiler/cfg.c): blocks are appended to a growing array and loop
    tests are patched once their body exists. */
module CfgBuilder {
  import opened Options
  import opened Hir
  import opened HirSemantics
  import opened HirArray
  import opened HirPropagate
  import opened Cfg

  class Graph {
    var blocks: seq<Block>
    var entries: seq<int>
    var exit: int
    /** Set by the builder when a statement cannot be built. */
    var failed: bool

    constructor ()
      ensures blocks == [] && entries == [] && !failed
    {
      blocks, entries, exit, failed := [], [], NO_NODE, false;
    }

    method NewBlock(b: Block) returns (index: nat)
      modifies this`blocks
      ensures index == |old(blocks)| && blocks == old(blocks) + [b]
    {
      index := |blocks|;
      blocks := blocks + [b];
    }
  }

  // ---- The statements that a sequence builds ----

  predicate Definition(op: Op) {
    op.Function? || op.Struct?
  }

  predicate Selected(op: Op, role: Role, wanted: Role, skip: bool) {
    role == wanted && !(skip && Definition(op))
  }

  /** The suffixes of `f` that start at a selected statement. */
  function Tails(f: Forest, role: Role, skip: bool): (ts: seq<Forest>)
    ensures forall j :: 0 <= j < |ts| ==> ts[j].Cons? && ts[j].role == role && Size(ts[j]) <= Size(f)
  {
    if f.Nil? then []
    else if Selected(f.op, f.role, role, skip) then [f] + Tails(f.rest, role, skip)
    else Tails(f.rest, role, skip)
  }

  lemma {:induction false} TailsStored(nodes: seq<Node>, i: int, f: Forest, role: Role, skip: bool)
    requires IsForest(nodes, i, f)
    ensures forall j :: 0 <= j < |Tails(f, role, skip)| ==>
      var t := Tails(f, role, skip)[j]; IsForest(nodes, t.idx, t)
    decreases f
  {
    if f.Cons? { TailsStored(nodes, nodes[i].next, f.rest, role, skip); }
  }

  /** The code from the `j`-th selected statement on. */
  function TailCode(ts: seq<Forest>, j: nat, role: Role, next: int, t: Targets, n: nat): Option<Code>
    requires j <= |ts|
  {
    if j == |ts| then Some(Code([], next)) else SeqCode(ts[j], role, next, t, n)
  }

  /** Skipped siblings have no code. */
  lemma {:induction false} SkipCode(f: Forest, role: Role, skip: bool, next: int, t: Targets, n: nat)
    requires f.Cons? && !Selected(f.op, f.role, role, skip)
    ensures SeqCode(f, role, next, t, n) == SeqCode(f.rest, role, next, t, n)
  {
    if f.role == role && SeqCode(f.rest, role, next, t, n).Some? {
      var c := SeqCode(f.rest, role, next, t, n).value;
      assert c.blocks + [] == c.blocks;
    }
  }

  lemma {:induction false} TailsHead(f: Forest, role: Role, skip: bool, next: int, t: Targets, n: nat)
    ensures SeqCode(f, role, next, t, n) == TailCode(Tails(f, role, skip), 0, role, next, t, n)
  {
    if f.Cons? && !Selected(f.op, f.role, role, skip) {
      SkipCode(f, role, skip, next, t, n);
      TailsHead(f.rest, role, skip, next, t, n);
    }
  }

  /** The next selected statement comes right behind, and no code for it means none at all. */
  lemma {:induction false} TailsNext(f: Forest, role: Role, skip: bool, j: nat, next: int, t: Targets, n: nat)
    requires j < |Tails(f, role, skip)|
    ensures var ts := Tails(f, role, skip);
      && SeqCode(ts[j].rest, role, next, t, n) == TailCode(ts, j + 1, role, next, t, n)
      && (TailCode(ts, j, role, next, t, n).None? ==> SeqCode(f, role, next, t, n).None?)
  {
    var ts, us := Tails(f, role, skip), Tails(f.rest, role, skip);
    if !Selected(f.op, f.role, role, skip) {
      SkipCode(f, role, skip, next, t, n);
      TailsNext(f.rest, role, skip, j, next, t, n);
    } else if j == 0 {
      TailsHead(f.rest, role, skip, next, t, n);
      assert TailCode(ts, 1, role, next, t, n) == TailCode(us, 0, role, next, t, n);
    } else {
      TailsNext(f.rest, role, skip, j - 1, next, t, n);
      assert ts[j] == us[j - 1];
      assert TailCode(ts, j + 1, role, next, t, n) == TailCode(us, j, role, next, t, n);
    }
  }

  lemma {:induction false} TailsCode(f: Forest, role: Role, skip: bool, next: int, t: Targets, n: nat)
    ensures var ts := Tails(f, role, skip);
      && SeqCode(f, role, next, t, n) == TailCode(ts, 0, role, next, t, n)
      && (forall j :: 0 <= j < |ts| ==> SeqCode(ts[j].rest, role, next, t, n) == TailCode(ts, j + 1, role, next, t, n))
      && (forall j :: 0 <= j < |ts| && TailCode(ts, j, role, next, t, n).None? ==> SeqCode(f, role, next, t, n).None?)
  {
    TailsHead(f, role, skip, next, t, n);
    var ts := Tails(f, role, skip);
    forall j | 0 <= j < |ts|
      ensures SeqCode(ts[j].rest, role, next, t, n) == TailCode(ts, j + 1, role, next, t, n)
      ensures TailCode(ts, j, role, next, t, n).None? ==> SeqCode(f, role, next, t, n).None?
    {
      TailsNext(f, role, skip, j, next, t, n);
    }
  }

  // ---- Building ----

  /** The blocks appended since `before` are the code. */
  ghost predicate Appended(before: seq<Block>, after: seq<Block>, entry: int, c: Option<Code>) {
    c.Some? && after == before + c.value.blocks && entry == c.value.entry
  }

  /** The items collected before `todo`. */
  ghost predicate Collected(items: seq<nat>, ts: seq<Forest>, todo: seq<Forest>) {
    && |items| + |todo| == |ts| && todo == ts[|items|..]
    && forall j :: 0 <= j < |items| ==> ts[j].Cons? && items[j] == ts[j].idx
  }

  lemma CollectNext(items: seq<nat>, ts: seq<Forest>, f: Forest, rest: seq<Forest>)
    requires f.Cons? && Collected(items, ts, [f] + rest)
    ensures Collected(items + [f.idx], ts, rest)
  {
    assert ts[|items|] == ([f] + rest)[0];
    assert ts[|items| + 1..] == ts[|items|..][1..] == rest;
  }

  method SelectedItems(nodes: seq<Node>, parent: nat, role: Role, skip: bool, ghost kids: Forest) returns (items: seq<nat>)
    requires parent < |nodes| && IsForest(nodes, nodes[parent].first, kids)
    ensures |items| == |Tails(kids, role, skip)| && forall j :: 0 <= j < |items| ==> items[j] == Tails(kids, role, skip)[j].idx
  {
    items := [];
    var c := nodes[parent].first;
    ghost var todo := kids;
    while c != NO_NODE
      invariant IsForest(nodes, c, todo)
      invariant Collected(items, Tails(kids, role, skip), Tails(todo, role, skip))
      decreases todo
    {
      if Selected(nodes[c].op, nodes[c].role, role, skip) {
        CollectNext(items, Tails(kids, role, skip), todo, Tails(todo.rest, role, skip));
        items := items + [c];
      }
      c, todo := nodes[c].next, todo.rest;
    }
  }

  method BuildSequence(g: Graph, nodes: seq<Node>, parent: nat, role: Role, next: int, t: Targets, skip: bool, ghost kids: Forest)
      returns (entry: int)
    requires parent < |nodes| && IsForest(nodes, nodes[parent].first, kids) && t.exit == g.exit
    modifies g`blocks, g`failed
    ensures g.failed <==> old(g.failed) || SeqCode(kids, role, next, t, |old(g.blocks)|).None?
    ensures !g.failed ==> Appended(old(g.blocks), g.blocks, entry, SeqCode(kids, role, next, t, |old(g.blocks)|))
    decreases Size(kids), 4
  {
    var items := SelectedItems(nodes, parent, role, skip, kids);
    if |items| == 0 {
      TailsCode(kids, role, skip, next, t, |g.blocks|);
      return next;
    }
    TailsStored(nodes, nodes[parent].first, kids, role, skip);
    entry := BuildItems(g, nodes, items, role, next, t, kids, skip);
    entry := if g.failed then NO_NODE else entry;
  }

  /** The selected statements from last to first. */
  method BuildItems(g: Graph, nodes: seq<Node>, items: seq<nat>, role: Role, next: int, t: Targets, ghost kids: Forest, ghost skip: bool)
      returns (entry: int)
    requires Stored(nodes, items, Tails(kids, role, skip)) && t.exit == g.exit
    modifies g`blocks, g`failed
    ensures g.failed <==> old(g.failed) || SeqCode(kids, role, next, t, |old(g.blocks)|).None?
    ensures !g.failed ==> Appended(old(g.blocks), g.blocks, entry, SeqCode(kids, role, next, t, |old(g.blocks)|))
    decreases Size(kids), 3
  {
    ghost var ts, before := Tails(kids, role, skip), g.blocks;
    TailsCode(kids, role, skip, next, t, |before|);
    entry := next;
    var j := |items|;
    while j > 0 && !g.failed
      invariant 0 <= j <= |items|
      invariant old(g.failed) ==> g.failed
      invariant g.failed ==> old(g.failed) || SeqCode(kids, role, next, t, |before|).None?
      invariant !g.failed ==> Appended(before, g.blocks, entry, TailCode(ts, j, role, next, t, |before|))
    {
      j := j - 1;
      entry := BuildItem(g, nodes, items[j], entry, t, before, ts, j, role, next);
    }
  }

  /** One more statement in front of those built since `before`. */
  method BuildItem(g: Graph, nodes: seq<Node>, item: nat, entry: int, t: Targets, ghost before: seq<Block>,
      ghost ts: seq<Forest>, ghost j: nat, ghost role: Role, ghost next: int) returns (start: int)
    requires j < |ts| && ts[j].Cons? && ts[j].role == role && item == ts[j].idx && IsForest(nodes, item, ts[j])
    requires t.exit == g.exit && !g.failed
    requires SeqCode(ts[j].rest, role, next, t, |before|) == TailCode(ts, j + 1, role, next, t, |before|)
    requires Appended(before, g.blocks, entry, TailCode(ts, j + 1, role, next, t, |before|))
    modifies g`blocks, g`failed
    ensures g.failed <==> TailCode(ts, j, role, next, t, |before|).None?
    ensures !g.failed ==> Appended(before, g.blocks, start, TailCode(ts, j, role, next, t, |before|))
    decreases Size(ts[j]), 2
  {
    TailStep(before, ts, j, role, next, t);
    start := BuildStatement(g, nodes, item, entry, t, ts[j]);
  }

  ghost predicate Stored(nodes: seq<Node>, items: seq<nat>, ts: seq<Forest>) {
    |items| == |ts| && forall j :: 0 <= j < |ts| ==> ts[j].Cons? && items[j] == ts[j].idx && IsForest(nodes, items[j], ts[j])
  }

  lemma {:induction false} TailStep(before: seq<Block>, ts: seq<Forest>, j: nat, role: Role, next: int, t: Targets)
    requires j < |ts| && ts[j].Cons? && ts[j].role == role
    requires SeqCode(ts[j].rest, role, next, t, |before|) == TailCode(ts, j + 1, role, next, t, |before|)
    requires TailCode(ts, j + 1, role, next, t, |before|).Some?
    ensures var rest := TailCode(ts, j + 1, role, next, t, |before|).value;
      var c := StmtCode(ts[j].idx, ts[j].op, ts[j].kids, rest.entry, t, |before + rest.blocks|);
      && (c.None? <==> TailCode(ts, j, role, next, t, |before|).None?)
      && (c.Some? ==> TailCode(ts, j, role, next, t, |before|) == Some(Code(rest.blocks + c.value.blocks, c.value.entry)))
  {
  }

  method BuildStatement(g: Graph, nodes: seq<Node>, index: nat, next: int, t: Targets, ghost f: Forest) returns (entry: int)
    requires f.Cons? && f.idx == index && IsForest(nodes, index, f) && t.exit == g.exit && !g.failed
    modifies g`blocks, g`failed
    ensures g.failed <==> StmtCode(f.idx, f.op, f.kids, next, t, |old(g.blocks)|).None?
    ensures !g.failed ==> Appended(old(g.blocks), g.blocks, entry, StmtCode(f.idx, f.op, f.kids, next, t, |old(g.blocks)|))
    decreases Size(f), 1
  {
    match nodes[index].op
    case Program => entry := BuildSequence(g, nodes, index, Statement, next, t, false, f.kids);
    case If => entry := BuildIf(g, nodes, index, next, t, f.kids);
    case While => entry := BuildWhile(g, nodes, index, next, t, f.kids);
    case Return => entry := g.NewBlock(Block(index, NO_NODE, g.exit, NO_NODE, Returns));
    case Break =>
      if t.brk == NO_NODE { g.failed := true; return NO_NODE; }
      entry := g.NewBlock(Block(index, NO_NODE, t.brk, NO_NODE, Jumps));
    case Continue =>
      if t.cont == NO_NODE { g.failed := true; return NO_NODE; }
      entry := g.NewBlock(Block(index, NO_NODE, t.cont, NO_NODE, Jumps));
    case Function(_, _) => entry := next;
    case Struct(_, _) => entry := next;
    case _ => entry := g.NewBlock(Block(index, NO_NODE, next, NO_NODE, Falls));
  }

  /** The first child of `parent` with a given role (child_role). */
  method ChildRole(nodes: seq<Node>, parent: nat, role: Role, ghost kids: Forest) returns (c: int)
    requires parent < |nodes| && IsForest(nodes, nodes[parent].first, kids)
    ensures c == Start(Child(kids, role)) && IsForest(nodes, c, Child(kids, role))
  {
    c := nodes[parent].first;
    ghost var todo := kids;
    while c != NO_NODE
      invariant IsForest(nodes, c, todo) && Child(todo, role) == Child(kids, role)
      decreases todo
    {
      if nodes[c].role == role { return; }
      c, todo := nodes[c].next, todo.rest;
    }
  }

  method BuildIf(g: Graph, nodes: seq<Node>, index: nat, next: int, t: Targets, ghost kids: Forest) returns (entry: int)
    requires index < |nodes| && IsForest(nodes, nodes[index].first, kids) && t.exit == g.exit && !g.failed
    modifies g`blocks, g`failed
    ensures g.failed <==> IfCode(kids, next, t, |old(g.blocks)|).None?
    ensures !g.failed ==> Appended(old(g.blocks), g.blocks, entry, IfCode(kids, next, t, |old(g.blocks)|))
    decreases Size(kids), 5
  {
    var cond := ChildRole(nodes, index, Condition, kids);
    if cond == NO_NODE { g.failed := true; return NO_NODE; }
    var yes := BuildSequence(g, nodes, index, Then, next, t, false, kids);
    var no := BuildSequence(g, nodes, index, Else, next, t, false, kids);
    entry := g.NewBlock(Block(NO_NODE, cond, yes, no, Branches));
  }

  method BuildWhile(g: Graph, nodes: seq<Node>, index: nat, next: int, t: Targets, ghost kids: Forest) returns (entry: int)
    requires index < |nodes| && IsForest(nodes, nodes[index].first, kids) && t.exit == g.exit && !g.failed
    modifies g`blocks, g`failed
    ensures g.failed <==> WhileCode(kids, next, t, |old(g.blocks)|).None?
    ensures !g.failed ==> Appended(old(g.blocks), g.blocks, entry, WhileCode(kids, next, t, |old(g.blocks)|))
    decreases Size(kids), 5
  {
    var cond := ChildRole(nodes, index, Condition, kids);
    if cond == NO_NODE { g.failed := true; return NO_NODE; }
    var test := g.NewBlock(Block(NO_NODE, cond, NO_NODE, next, Branches));
    var body := BuildSequence(g, nodes, index, Body, test, Targets(t.exit, next, test), false, kids);
    if g.failed { return NO_NODE; }
    g.blocks := g.blocks[test := g.blocks[test].(yes := body)];
    entry := test;
  }
}
