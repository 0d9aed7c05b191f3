/** Removing blocks that no entry reaches, and renumbering the rest (prune_unreachable_blocks). */
module CfgPrune {
  import opened Hir
  import opened Pigeonhole
  import opened Cfg
  import opened CfgGraph
  import opened CfgBuilder

  // ---- Marking ----

  predicate LinksOk(blocks: seq<Block>, entries: seq<int>) {
    && (forall j :: 0 <= j < |entries| ==> Link(entries[j], |blocks|))
    && (forall i :: 0 <= i < |blocks| ==> OptionalLink(blocks[i].yes, |blocks|) && OptionalLink(blocks[i].no, |blocks|))
  }

  predicate Has(marked: seq<bool>, i: int) {
    i == NO_NODE || (0 <= i < |marked| && marked[i])
  }

  predicate Scanned(marked: seq<bool>, k: Block) {
    Has(marked, k.yes) && Has(marked, k.no)
  }

  /** `order` lists the blocks marked so far; those not on the stack, except `hole`, have
      all their successors marked. */
  ghost predicate Marking(blocks: seq<Block>, entries: seq<int>, marked: seq<bool>, stack: seq<nat>, order: seq<nat>, hole: int) {
    && |marked| == |blocks|
    && NoRepeats(order) && (forall b :: 0 <= b < |marked| ==> (marked[b] <==> b in order))
    && (forall j :: 0 <= j < |order| ==> order[j] < |marked| && Reachable(blocks, entries, order[j]))
    && NoRepeats(stack) && (forall j :: 0 <= j < |stack| ==> stack[j] in order)
    && (forall b :: 0 <= b < |marked| && marked[b] && b !in stack && b != hole ==> Scanned(marked, blocks[b]))
  }

  lemma {:induction false} MarkOne(blocks: seq<Block>, entries: seq<int>, marked: seq<bool>, stack: seq<nat>, order: seq<nat>, hole: int, b: nat)
    requires Marking(blocks, entries, marked, stack, order, hole) && b < |marked| && !marked[b] && Reachable(blocks, entries, b)
    ensures Marking(blocks, entries, marked[b := true], stack + [b], order + [b], hole)
    ensures |stack| < |blocks| && |order| < |blocks|
  {
    assert b !in order;
    assert b !in stack;
    DistinctLength(order + [b], |blocks|);
    DistinctLength(stack + [b], |blocks|);
    var m := marked[b := true];
    forall c | 0 <= c < |m| && m[c] && c !in stack + [b] && c != hole ensures Scanned(m, blocks[c]) {
      assert b in stack + [b];
      assert c !in stack && marked[c];
      assert Scanned(marked, blocks[c]);
    }
  }

  method Push(blocks: seq<Block>, next: nat, marked: array<bool>, stack: array<nat>, top: nat,
      ghost entries: seq<int>, ghost order: seq<nat>, ghost hole: int) returns (top1: nat, ghost order1: seq<nat>)
    requires top <= stack.Length == marked.Length == |blocks| && next < |blocks|
    requires Marking(blocks, entries, marked[..], stack[..top], order, hole) && Reachable(blocks, entries, next)
    modifies marked, stack
    ensures top1 <= stack.Length && Marking(blocks, entries, marked[..], stack[..top1], order1, hole)
    ensures marked[next] && |order1| >= |order| && (|order1| == |order| ==> top1 == top)
    ensures forall b :: 0 <= b < marked.Length && old(marked[b]) ==> marked[b]
  {
    top1, order1 := top, order;
    if !marked[next] {
      MarkOne(blocks, entries, marked[..], stack[..top], order, hole, next);
      ghost var m := marked[..];
      marked[next] := true;
      stack[top] := next;
      top1, order1 := top + 1, order + [next];
      assert marked[..] == m[next := true];
      assert stack[..top1] == old(stack[..top]) + [next];
    }
  }

  lemma PopFacts(blocks: seq<Block>, entries: seq<int>, marked: seq<bool>, stack: seq<nat>, order: seq<nat>)
    requires Marking(blocks, entries, marked, stack, order, NO_NODE) && stack != []
    ensures var at := stack[|stack| - 1];
      at < |blocks| && marked[at] && Reachable(blocks, entries, at) && |order| <= |blocks|
      && Marking(blocks, entries, marked, stack[..|stack| - 1], order, at)
  {
    var at, rest := stack[|stack| - 1], stack[..|stack| - 1];
    assert at in order;
    DistinctLength(order, |blocks|);
    forall c | 0 <= c < |marked| && marked[c] && c !in rest && c != at ensures Scanned(marked, blocks[c]) {
      assert stack == rest + [at];
      assert c !in stack;
    }
  }

  /** Marked blocks closed under successors are all the reachable ones. */
  lemma {:induction false} PathMarked(blocks: seq<Block>, entries: seq<int>, marked: seq<bool>, order: seq<nat>, p: seq<int>)
    requires Marking(blocks, entries, marked, [], order, NO_NODE) && Path(blocks, p) && Has(marked, p[0]) && p[0] != NO_NODE
    ensures Has(marked, p[|p| - 1]) && p[|p| - 1] != NO_NODE
    decreases |p|
  {
    if |p| > 1 {
      assert Edge(blocks, p[0], p[1]);
      assert Scanned(marked, blocks[p[0]]);
      assert Path(blocks, p[1..]) by {
        forall i | 0 <= i < |p[1..]| - 1 ensures Edge(blocks, p[1..][i], p[1..][i + 1]) {
          assert Edge(blocks, p[i + 1], p[i + 2]);
        }
      }
      PathMarked(blocks, entries, marked, order, p[1..]);
    }
  }

  /** The successors of the block on top of the stack. */
  method Scan(blocks: seq<Block>, marked: array<bool>, stack: array<nat>, top: nat, ghost entries: seq<int>, ghost order: seq<nat>)
      returns (ok: bool, top1: nat, ghost order1: seq<nat>)
    requires 0 < top <= stack.Length == marked.Length == |blocks|
    requires Marking(blocks, entries, marked[..], stack[..top], order, NO_NODE)
    modifies marked, stack
    ensures ok ==> top1 <= stack.Length && Marking(blocks, entries, marked[..], stack[..top1], order1, NO_NODE)
    ensures ok ==> |order| <= |order1| <= |blocks| && (|order1| == |order| ==> top1 == top - 1)
    ensures forall b :: 0 <= b < marked.Length && old(marked[b]) ==> marked[b]
    ensures !ok ==> !LinksOk(blocks, entries)
  {
    PopFacts(blocks, entries, marked[..], stack[..top], order);
    assert stack[..top][..top - 1] == stack[..top - 1];
    top1, order1 := top - 1, order;
    var at := stack[top1];
    var successors := [blocks[at].yes, blocks[at].no];
    var i := 0;
    while i < 2
      invariant 0 <= i <= 2 && top1 <= stack.Length
      invariant Marking(blocks, entries, marked[..], stack[..top1], order1, at)
      invariant forall j :: 0 <= j < i ==> Has(marked[..], successors[j])
      invariant |order| <= |order1| && (|order1| == |order| ==> top1 == top - 1)
      invariant forall b :: 0 <= b < marked.Length && old(marked[b]) ==> marked[b]
    {
      var next := successors[i];
      if next != NO_NODE {
        if next < 0 || next >= |blocks| { return false, top1, order1; }
        assert Edge(blocks, at, next);
        ReachStep(blocks, entries, at, next);
        ghost var m := marked[..];
        top1, order1 := Push(blocks, next, marked, stack, top1, entries, order1, at);
        forall j | 0 <= j <= i ensures Has(marked[..], successors[j]) {
          assert j < i ==> Has(m, successors[j]);
        }
      }
      i := i + 1;
    }
    assert Has(marked[..], successors[0]) && Has(marked[..], successors[1]);
    assert Scanned(marked[..], blocks[at]);
    DistinctLength(order1, |blocks|);
    ok := true;
  }

  method MarkEntries(blocks: seq<Block>, entries: seq<int>, marked: array<bool>, stack: array<nat>)
      returns (ok: bool, top: nat, ghost order: seq<nat>)
    requires stack.Length == marked.Length == |blocks| && forall b :: 0 <= b < marked.Length ==> !marked[b]
    modifies marked, stack
    ensures ok ==> top <= stack.Length && Marking(blocks, entries, marked[..], stack[..top], order, NO_NODE)
    ensures ok ==> forall j :: 0 <= j < |entries| ==> Link(entries[j], |blocks|) && marked[entries[j]]
    ensures !ok ==> !LinksOk(blocks, entries)
  {
    top, order := 0, [];
    var i := 0;
    while i < |entries|
      invariant 0 <= i <= |entries| && top <= stack.Length
      invariant Marking(blocks, entries, marked[..], stack[..top], order, NO_NODE)
      invariant forall j :: 0 <= j < i ==> Link(entries[j], |blocks|) && marked[entries[j]]
    {
      var entry := entries[i];
      if entry < 0 || entry >= |blocks| { return false, top, order; }
      ReachEntry(blocks, entries, entry);
      top, order := Push(blocks, entry, marked, stack, top, entries, order, NO_NODE);
      i := i + 1;
    }
    ok := true;
  }

  /** Marks exactly the reachable blocks. */
  method MarkReachable(blocks: seq<Block>, entries: seq<int>) returns (ok: bool, marked: array<bool>)
    ensures fresh(marked) && marked.Length == |blocks|
    ensures ok ==> forall b :: 0 <= b < |blocks| ==> (marked[b] <==> Reachable(blocks, entries, b))
    ensures ok ==> forall b :: 0 <= b < |blocks| && marked[b] ==> Scanned(marked[..], blocks[b])
    ensures ok ==> forall j :: 0 <= j < |entries| ==> Link(entries[j], |blocks|) && marked[entries[j]]
    ensures !ok ==> !LinksOk(blocks, entries)
  {
    marked := new bool[|blocks|](_ => false);
    var stack := new nat[|blocks|];
    var top: nat;
    ghost var order;
    ok, top, order := MarkEntries(blocks, entries, marked, stack);
    if !ok { return; }
    DistinctLength(order, |blocks|);
    while top > 0
      invariant top <= stack.Length && |order| <= |blocks|
      invariant Marking(blocks, entries, marked[..], stack[..top], order, NO_NODE)
      invariant forall j :: 0 <= j < |entries| ==> Link(entries[j], |blocks|) && marked[entries[j]]
      decreases |blocks| - |order|, top
    {
      ok, top, order := Scan(blocks, marked, stack, top, entries, order);
      if !ok { return; }
    }
    assert stack[..0] == [];
    forall b | 0 <= b < |blocks| && Reachable(blocks, entries, b) ensures marked[b] {
      var p :| Path(blocks, p) && p[0] in entries && p[|p| - 1] == b;
      PathMarked(blocks, entries, marked[..], order, p);
    }
    ok := true;
  }

  // ---- Renumbering ----

  function Rank(marked: seq<bool>, i: nat): nat
    requires i <= |marked|
  {
    if i == 0 then 0 else Rank(marked, i - 1) + if marked[i - 1] then 1 else 0
  }

  lemma {:induction false} RankOrder(marked: seq<bool>, i: nat, j: nat)
    requires i < j <= |marked| && marked[i]
    ensures Rank(marked, i) < Rank(marked, j)
  {
    if i < j - 1 { RankOrder(marked, i, j - 1); }
  }

  /** Ranks leave no number out. */
  lemma {:induction false} RankOnto(marked: seq<bool>, n: nat, r: nat) returns (i: nat)
    requires n <= |marked| && r < Rank(marked, n)
    ensures i < n && marked[i] && Rank(marked, i) == r
  {
    if marked[n - 1] && Rank(marked, n - 1) == r {
      i := n - 1;
    } else {
      i := RankOnto(marked, n - 1, r);
    }
  }

  predicate Numbered(marked: seq<bool>, map_: seq<int>) {
    |map_| == |marked| && forall i :: 0 <= i < |map_| ==> map_[i] == if marked[i] then Rank(marked, i) else NO_NODE
  }

  method NumberBlocks(marked: array<bool>) returns (map_: array<int>, kept: nat)
    ensures fresh(map_) && Numbered(marked[..], map_[..]) && kept == Rank(marked[..], marked.Length)
  {
    map_ := new int[marked.Length](_ => NO_NODE);
    kept := 0;
    var i := 0;
    while i < marked.Length
      invariant 0 <= i <= marked.Length && kept == Rank(marked[..], i)
      invariant forall j :: 0 <= j < i ==> map_[j] == if marked[j] then Rank(marked[..], j) else NO_NODE
    {
      if marked[i] { map_[i], kept := kept, kept + 1; } else { map_[i] := NO_NODE; }
      i := i + 1;
    }
  }

  /** Renames the links of a marked block. */
  method RenamedBlock(block: Block, map_: array<int>, ghost marked: seq<bool>) returns (r: Block)
    requires map_.Length == |marked| && Scanned(marked, block)
    ensures r == RenameBlock(map_[..], block)
  {
    r := block;
    if block.yes != NO_NODE { r := r.(yes := map_[block.yes]); }
    if block.no != NO_NODE { r := r.(no := map_[block.no]); }
  }

  /** Every marked block before `n` is at its new place. */
  ghost predicate CopiedUpTo(blocks: seq<Block>, marked: seq<bool>, map_: seq<int>, copy: seq<Block>, n: nat)
    requires n <= |blocks| == |marked| == |map_|
  {
    forall b :: 0 <= b < n && marked[b] ==> 0 <= map_[b] < |copy| && copy[map_[b]] == RenameBlock(map_, blocks[b])
  }

  lemma {:induction false} CopyStep(blocks: seq<Block>, marked: seq<bool>, map_: seq<int>, copy: seq<Block>, i: nat)
    requires i < |blocks| == |marked| && Numbered(marked, map_) && |copy| == Rank(marked, |blocks|) && CopiedUpTo(blocks, marked, map_, copy, i)
    ensures marked[i] ==> 0 <= map_[i] < |copy| && CopiedUpTo(blocks, marked, map_, copy[map_[i] := RenameBlock(map_, blocks[i])], i + 1)
    ensures !marked[i] ==> CopiedUpTo(blocks, marked, map_, copy, i + 1)
  {
    if marked[i] {
      RankOrder(marked, i, |blocks|);
      forall b | 0 <= b < i && marked[b] ensures map_[b] < map_[i] { RankOrder(marked, b, i); }
    }
  }

  method CopyBlocks(blocks: seq<Block>, marked: array<bool>, map_: array<int>, kept: nat) returns (copy: array<Block>)
    requires marked.Length == |blocks| && Numbered(marked[..], map_[..]) && kept == Rank(marked[..], |blocks|)
    requires forall b :: 0 <= b < |blocks| && marked[b] ==> Scanned(marked[..], blocks[b])
    ensures fresh(copy) && copy.Length == kept
    ensures CopiedUpTo(blocks, marked[..], map_[..], copy[..], |blocks|)
  {
    copy := new Block[kept](_ => ExitBlock);
    var i := 0;
    while i < |blocks|
      invariant 0 <= i <= |blocks|
      invariant CopiedUpTo(blocks, marked[..], map_[..], copy[..], i)
    {
      CopyStep(blocks, marked[..], map_[..], copy[..], i);
      if marked[i] {
        ghost var before := copy[..];
        var block := RenamedBlock(blocks[i], map_, marked[..]);
        copy[map_[i]] := block;
        assert copy[..] == before[map_[i] := block];
      }
      i := i + 1;
    }
  }

  lemma NumberedRenumbers(blocks: seq<Block>, entries: seq<int>, marked: seq<bool>, map_: seq<int>, to: seq<Block>)
    requires |marked| == |blocks| && Numbered(marked, map_) && |to| == Rank(marked, |blocks|)
    requires forall b :: 0 <= b < |blocks| ==> (marked[b] <==> Reachable(blocks, entries, b))
    requires CopiedUpTo(blocks, marked, map_, to, |blocks|)
    ensures Renumbered(blocks, entries, to, map_)
  {
    forall a, b | 0 <= a < b < |blocks| && map_[a] != NO_NODE && map_[b] != NO_NODE ensures map_[a] < map_[b] {
      RankOrder(marked, a, b);
    }
    forall j | 0 <= j < |to| ensures j in map_ {
      var i := RankOnto(marked, |blocks|, j);
      assert map_[i] == j;
    }
  }

  /** The pruned graph, its entries and exit renamed alike. */
  ghost predicate PrunedTo(from: seq<Block>, entries: seq<int>, exit: int, to: seq<Block>, entries1: seq<int>, exit1: int, map_: seq<int>) {
    && Renumbered(from, entries, to, map_)
    && Reachable(from, entries, exit)
    && |entries1| == |entries|
    && (forall j :: 0 <= j < |entries| ==> entries1[j] == RenameLink(map_, entries[j]))
    && exit1 == RenameLink(map_, exit)
  }

  /** Pruning well-linked blocks succeeds exactly when the exit can be reached. */
  method Prune(g: Graph) returns (ok: bool, ghost numbers: seq<int>)
    requires Link(g.exit, |g.blocks|)
    modifies g`blocks, g`entries, g`exit
    ensures ok ==> PrunedTo(old(g.blocks), old(g.entries), old(g.exit), g.blocks, g.entries, g.exit, numbers)
    ensures !ok ==> g.blocks == old(g.blocks) && g.entries == old(g.entries) && g.exit == old(g.exit)
    ensures LinksOk(old(g.blocks), old(g.entries)) ==> (ok <==> Reachable(old(g.blocks), old(g.entries), old(g.exit)))
  {
    numbers := [];
    var marked;
    ok, marked := MarkReachable(g.blocks, g.entries);
    if !ok { return; }
    var map_, kept := NumberBlocks(marked);
    if kept == 0 || map_[g.exit] == NO_NODE {
      if kept == 0 { RankNone(marked[..], marked.Length, g.exit); }
      return false, [];
    }
    numbers := map_[..];
    Relink(g, marked, map_, kept);
  }

  /** Keeps the marked blocks under their new numbers. */
  method Relink(g: Graph, marked: array<bool>, map_: array<int>, kept: nat)
    requires Link(g.exit, |g.blocks|) && marked.Length == |g.blocks| && marked[g.exit]
    requires Numbered(marked[..], map_[..]) && kept == Rank(marked[..], |g.blocks|)
    requires forall b :: 0 <= b < |g.blocks| ==> (marked[b] <==> Reachable(g.blocks, g.entries, b))
    requires forall b :: 0 <= b < |g.blocks| && marked[b] ==> Scanned(marked[..], g.blocks[b])
    requires forall j :: 0 <= j < |g.entries| ==> Link(g.entries[j], |g.blocks|)
    modifies g`blocks, g`entries, g`exit
    ensures PrunedTo(old(g.blocks), old(g.entries), old(g.exit), g.blocks, g.entries, g.exit, map_[..])
  {
    var copy := CopyBlocks(g.blocks, marked, map_, kept);
    NumberedRenumbers(g.blocks, g.entries, marked[..], map_[..], copy[..]);
    RenameEntries(g, map_);
    g.exit := map_[g.exit];
    g.blocks := copy[..];
  }

  lemma {:induction false} RankNone(marked: seq<bool>, n: nat, b: nat)
    requires b < n <= |marked| && Rank(marked, n) == 0
    ensures !marked[b]
  {
    if b < n - 1 { RankNone(marked, n - 1, b); }
  }

  method RenameEntries(g: Graph, map_: array<int>)
    requires forall j :: 0 <= j < |g.entries| ==> Link(g.entries[j], map_.Length)
    modifies g`entries
    ensures |g.entries| == |old(g.entries)|
    ensures forall j :: 0 <= j < |g.entries| ==> g.entries[j] == RenameLink(map_[..], old(g.entries)[j])
  {
    var i := 0;
    while i < |g.entries|
      invariant 0 <= i <= |g.entries| == |old(g.entries)|
      invariant forall j :: 0 <= j < i ==> g.entries[j] == RenameLink(map_[..], old(g.entries)[j])
      invariant forall j :: i <= j < |g.entries| ==> g.entries[j] == old(g.entries)[j]
    {
      g.entries := g.entries[i := map_[g.entries[i]]];
      i := i + 1;
    }
  }

  // ---- The finished graph validates ----

  lemma PrunedOk(from: seq<Block>, entries: seq<int>, exit: int, to: seq<Block>, entries1: seq<int>, exit1: int, map_: seq<int>)
    requires GraphOk(from, entries, exit) && PrunedTo(from, entries, exit, to, entries1, exit1, map_)
    ensures GraphOk(to, entries1, exit1)
  {
    forall j | 0 <= j < |entries1| ensures Link(entries1[j], |to|) {
      assert entries[j] in entries;
      ReachEntry(from, entries, entries[j]);
    }
    forall j | 0 <= j < |to| ensures BlockOk(to[j], j, |to|, exit1) {
      assert j in map_;
      var b :| 0 <= b < |map_| && map_[b] == j;
      assert BlockOk(from[b], b, |from|, exit);
      SuccessorsReachable(from, entries, b);
    }
  }

  lemma SuccessorsReachable(blocks: seq<Block>, entries: seq<int>, b: int)
    requires 0 <= b < |blocks| && Reachable(blocks, entries, b)
    ensures blocks[b].yes != NO_NODE ==> Reachable(blocks, entries, blocks[b].yes)
    ensures blocks[b].no != NO_NODE ==> Reachable(blocks, entries, blocks[b].no)
  {
    if blocks[b].yes != NO_NODE { ReachStep(blocks, entries, b, blocks[b].yes); }
    if blocks[b].no != NO_NODE { ReachStep(blocks, entries, b, blocks[b].no); }
  }
}
