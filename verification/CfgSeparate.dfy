/** In a built graph the roots share no block but the exit, and every block is reachable. */
module CfgSeparate {
  import opened Hir
  import opened HirSemantics
  import opened Cfg
  import opened CfgSimulation
  import opened CfgGraph
  import opened CfgDataflow

  // ---- Code only links to itself and to its targets ----

  predicate LocalLink(i: int, n: nat, size: nat, next: int, t: Targets) {
    i == NO_NODE || n <= i < n + size || i == next || i == t.exit || i == t.brk || i == t.cont
  }

  predicate Local(code: seq<Block>, n: nat, size: nat, next: int, t: Targets) {
    forall i :: 0 <= i < |code| ==> LocalLink(code[i].yes, n, size, next, t) && LocalLink(code[i].no, n, size, next, t)
  }

  /** What is local with given targets is local in the enclosing code. */
  lemma LocalWidens(code: seq<Block>, n: nat, size: nat, next: int, t: Targets, n1: nat, size1: nat, next1: int, t1: Targets)
    requires Local(code, n, size, next, t) && n1 <= n && n + size <= n1 + size1
    requires LocalLink(next, n1, size1, next1, t1) && LocalLink(t.exit, n1, size1, next1, t1)
    requires LocalLink(t.brk, n1, size1, next1, t1) && LocalLink(t.cont, n1, size1, next1, t1)
    ensures Local(code, n1, size1, next1, t1)
  {
  }

  lemma {:induction false} SeqLocal(f: Forest, role: Role, next: int, t: Targets, n: nat)
    requires SeqCode(f, role, next, t, n).Some?
    ensures var c := SeqCode(f, role, next, t, n).value;
      Local(c.blocks, n, |c.blocks|, next, t) && (c.entry == next || n <= c.entry < n + |c.blocks|)
    decreases f, 0
  {
    if f.Cons? {
      SeqLocal(f.rest, role, next, t, n);
      if f.role == role {
        var rest := SeqCode(f.rest, role, next, t, n).value;
        var m := n + |rest.blocks|;
        StmtLocal(f.idx, f.op, f.kids, rest.entry, t, m);
        var head := StmtCode(f.idx, f.op, f.kids, rest.entry, t, m).value;
        var size := |rest.blocks| + |head.blocks|;
        LocalWidens(rest.blocks, n, |rest.blocks|, next, t, n, size, next, t);
        LocalWidens(head.blocks, m, |head.blocks|, rest.entry, t, n, size, next, t);
      }
    }
  }

  lemma {:induction false} StmtLocal(idx: nat, op: Op, kids: Forest, next: int, t: Targets, n: nat)
    requires StmtCode(idx, op, kids, next, t, n).Some?
    ensures var c := StmtCode(idx, op, kids, next, t, n).value;
      Local(c.blocks, n, |c.blocks|, next, t) && (c.entry == next || n <= c.entry < n + |c.blocks|)
    decreases kids, 1
  {
    match op
    case Program => SeqLocal(kids, Statement, next, t, n);
    case If =>
      var yes := SeqCode(kids, Then, next, t, n).value;
      SeqLocal(kids, Then, next, t, n);
      var m := n + |yes.blocks|;
      var no := SeqCode(kids, Else, next, t, m).value;
      SeqLocal(kids, Else, next, t, m);
      var size := |yes.blocks| + |no.blocks| + 1;
      LocalWidens(yes.blocks, n, |yes.blocks|, next, t, n, size, next, t);
      LocalWidens(no.blocks, m, |no.blocks|, next, t, n, size, next, t);
    case While =>
      var t1 := Targets(t.exit, next, n);
      SeqLocal(kids, Body, n, t1, n + 1);
      var body := SeqCode(kids, Body, n, t1, n + 1).value;
      LocalWidens(body.blocks, n + 1, |body.blocks|, n, t1, n, |body.blocks| + 1, next, t);
    case _ =>
  }

  // ---- Labels: which root a block belongs to ----

  ghost predicate Labelled(blocks: seq<Block>, entries: seq<int>, exit: int, owner: seq<nat>) {
    && |owner| == |blocks|
    && (forall a, b :: Edge(blocks, a, b) ==> b == exit || (0 <= b < |owner| && owner[b] == owner[a]))
    && (forall j :: 0 <= j < |entries| ==> entries[j] == exit || (Link(entries[j], |owner|) && owner[entries[j]] == j))
  }

  lemma {:induction false} LayoutLabels(roots: seq<(Forest, Role)>) returns (owner: seq<nat>)
    requires LayoutOf(roots).Some?
    ensures var l := LayoutOf(roots).value; Labelled(l.blocks, l.entries, 0, owner) && |l.entries| == |roots|
  {
    if roots == [] {
      owner := [0];
    } else {
      var init, last := roots[..|roots| - 1], roots[|roots| - 1];
      var before := LayoutLabels(init);
      var l := LayoutOf(init).value;
      var c := SeqCode(last.0, last.1, 0, TopTargets, |l.blocks|).value;
      SeqLocal(last.0, last.1, 0, TopTargets, |l.blocks|);
      owner := before + seq(|c.blocks|, _ => |init|);
      var blocks := l.blocks + c.blocks;
      forall a, b | Edge(blocks, a, b) ensures b == 0 || (0 <= b < |owner| && owner[b] == owner[a]) {
        if a < |l.blocks| {
          assert Edge(l.blocks, a, b);
        } else {
          var k := c.blocks[a - |l.blocks|];
          assert LocalLink(k.yes, |l.blocks|, |c.blocks|, 0, TopTargets) && LocalLink(k.no, |l.blocks|, |c.blocks|, 0, TopTargets);
        }
      }
    }
  }

  lemma FoldLabels(nodes: seq<Node>, blocks: seq<Block>, entries: seq<int>, owner: seq<nat>)
    requires Labelled(blocks, entries, 0, owner)
    ensures Labelled(FoldBlocks(nodes, blocks), entries, 0, owner)
  {
    forall a, b | Edge(FoldBlocks(nodes, blocks), a, b) ensures Edge(blocks, a, b) {
    }
  }

  function IndexOf(s: seq<int>, x: int): (i: nat)
    requires x in s
    ensures i < |s| && s[i] == x
  {
    if s[0] == x then 0 else 1 + IndexOf(s[1..], x)
  }

  /** Edges of the renumbered graph are renamed edges. */
  lemma EdgeBack(from: seq<Block>, entries: seq<int>, exit: int, to: seq<Block>, map_: seq<int>, a: int, b: int)
    requires GraphOk(from, entries, exit) && Renumbered(from, entries, to, map_) && Link(a, |from|) && map_[a] != NO_NODE
    requires Edge(to, map_[a], b)
    ensures exists c :: Edge(from, a, c) && Link(c, |from|) && map_[c] == b
  {
    assert BlockOk(from[a], a, |from|, exit);
    var c := if b == RenameLink(map_, from[a].yes) then from[a].yes else from[a].no;
    assert Edge(from, a, c);
  }

  lemma Injective(from: seq<Block>, entries: seq<int>, to: seq<Block>, map_: seq<int>, a: int, b: int)
    requires Renumbered(from, entries, to, map_) && Link(a, |from|) && Link(b, |from|) && map_[a] == map_[b] != NO_NODE
    ensures a == b
  {
  }

  lemma {:induction false} RenumberLabels(from: seq<Block>, entries: seq<int>, to: seq<Block>, map_: seq<int>, owner: seq<nat>, entries1: seq<int>) returns (owner1: seq<nat>)
    requires GraphOk(from, entries, 0) && Renumbered(from, entries, to, map_) && Labelled(from, entries, 0, owner)
    requires |entries1| == |entries| && forall j :: 0 <= j < |entries| ==> entries1[j] == RenameLink(map_, entries[j])
    ensures Labelled(to, entries1, map_[0], owner1)
  {
    owner1 := seq(|to|, j requires 0 <= j < |to| => assert j in map_; owner[IndexOf(map_, j)]);
    forall a, b | Edge(to, a, b) ensures b == map_[0] || (0 <= b < |owner1| && owner1[b] == owner1[a]) {
      var x := IndexOf(map_, a);
      EdgeBack(from, entries, 0, to, map_, x, b);
      var y :| Edge(from, x, y) && Link(y, |from|) && map_[y] == b;
      ReachStep(from, entries, x, y);
      Injective(from, entries, to, map_, IndexOf(map_, b), y);
    }
    forall j | 0 <= j < |entries1| ensures entries1[j] == map_[0] || (Link(entries1[j], |owner1|) && owner1[entries1[j]] == j) {
      ReachEntry(from, entries, entries[j]);
      Injective(from, entries, to, map_, IndexOf(map_, entries1[j]), entries[j]);
    }
  }

  // ---- Separation ----

  /** Nothing follows the exit. */
  lemma ExitLast(blocks: seq<Block>, exit: int, p: seq<int>)
    requires Path(blocks, p) && Link(exit, |blocks|) && blocks[exit] == ExitBlock
    ensures forall i :: 0 <= i < |p| - 1 ==> p[i] != exit
  {
    forall i | 0 <= i < |p| - 1 ensures p[i] != exit { assert Edge(blocks, p[i], p[i + 1]); }
  }

  lemma {:induction false} PathLabel(blocks: seq<Block>, entries: seq<int>, exit: int, owner: seq<nat>, p: seq<int>)
    requires Labelled(blocks, entries, exit, owner) && Link(exit, |blocks|) && blocks[exit] == ExitBlock
    requires Path(blocks, p) && Link(p[0], |owner|) && p[|p| - 1] != exit
    ensures Link(p[|p| - 1], |owner|) && owner[p[|p| - 1]] == owner[p[0]]
    decreases |p|
  {
    if |p| > 1 {
      PathTail(blocks, p);
      ExitLast(blocks, exit, p);
      assert Edge(blocks, p[0], p[1]);
      PathLabel(blocks, entries, exit, owner, p[1..]);
    }
  }

  /** Labels separate the entries, and different entries are different blocks. */
  lemma LabelsSeparate(blocks: seq<Block>, entries: seq<int>, exit: int, owner: seq<nat>)
    requires Labelled(blocks, entries, exit, owner) && Link(exit, |blocks|) && blocks[exit] == ExitBlock
    ensures Separate(blocks, entries, exit)
    ensures forall i, j :: 0 <= i < |entries| && 0 <= j < |entries| && entries[i] == entries[j] != exit ==> i == j
  {
    forall p | Path(blocks, p) && p[0] in entries && p[|p| - 1] in entries ensures p[|p| - 1] == p[0] || p[|p| - 1] == exit {
      if p[|p| - 1] != exit {
        ExitLast(blocks, exit, p);
        PathLabel(blocks, entries, exit, owner, p);
      }
    }
  }

  lemma {:induction false} PathForward(from: seq<Block>, entries: seq<int>, exit: int, to: seq<Block>, map_: seq<int>, entries1: seq<int>, p: seq<int>)
    requires GraphOk(from, entries, exit) && Renumbered(from, entries, to, map_)
    requires |entries1| == |entries| && forall j :: 0 <= j < |entries| ==> entries1[j] == RenameLink(map_, entries[j])
    requires Path(from, p) && p[0] in entries
    ensures Link(p[|p| - 1], |from|) && Reachable(from, entries, p[|p| - 1])
    ensures Reachable(to, entries1, RenameLink(map_, p[|p| - 1]))
    decreases |p|
  {
    if |p| == 1 {
      ReachEntry(from, entries, p[0]);
      var j :| 0 <= j < |entries| && entries[j] == p[0];
      assert entries1[j] == map_[p[0]];
      ReachEntry(to, entries1, map_[p[0]]);
    } else {
      var q, a, b := p[..|p| - 1], p[|p| - 2], p[|p| - 1];
      PathPrefix(from, p, |p| - 1);
      PathForward(from, entries, exit, to, map_, entries1, q);
      assert Edge(from, a, b);
      assert BlockOk(from[a], a, |from|, exit);
      ReachStep(from, entries, a, b);
      assert Edge(to, map_[a], map_[b]);
      ReachStep(to, entries1, map_[a], map_[b]);
    }
  }

  lemma RenumberedReachable(from: seq<Block>, entries: seq<int>, exit: int, to: seq<Block>, map_: seq<int>, entries1: seq<int>)
    requires GraphOk(from, entries, exit) && Renumbered(from, entries, to, map_)
    requires |entries1| == |entries| && forall j :: 0 <= j < |entries| ==> entries1[j] == RenameLink(map_, entries[j])
    ensures AllReachable(to, entries1)
  {
    forall j | 0 <= j < |to| ensures Reachable(to, entries1, j) {
      assert j in map_;
      var b :| 0 <= b < |map_| && map_[b] == j;
      assert Reachable(from, entries, b);
      var p :| Path(from, p) && p[0] in entries && p[|p| - 1] == b;
      PathForward(from, entries, exit, to, map_, entries1, p);
    }
  }

  /** What the dataflow analyses need of a graph. */
  ghost predicate Analysable(blocks: seq<Block>, entries: seq<int>, exit: int) {
    && GraphOk(blocks, entries, exit)
    && Separate(blocks, entries, exit)
    && AllReachable(blocks, entries)
    && forall i, j :: 0 <= i < |entries| && 0 <= j < |entries| && entries[i] == entries[j] != exit ==> i == j
  }

  /** Every built graph is analysable. */
  lemma {:induction false} BuiltAnalysable(nodes: seq<Node>, roots: seq<(Forest, Role)>, blocks: seq<Block>, entries: seq<int>, exit: int, map_: seq<int>)
    requires Built(nodes, roots, blocks, entries, exit, map_) && GraphOk(blocks, entries, exit)
    ensures Analysable(blocks, entries, exit)
  {
    var l := LayoutOf(roots).value;
    var folded := FoldBlocks(nodes, l.blocks);
    FoldedOk(nodes, roots);
    LayoutEntries(roots);
    var owner := LayoutLabels(roots);
    FoldLabels(nodes, l.blocks, l.entries, owner);
    var owner1 := RenumberLabels(folded, l.entries, blocks, map_, owner, entries);
    assert folded[0] == ExitBlock && blocks[map_[0]] == RenameBlock(map_, ExitBlock) == ExitBlock;
    LabelsSeparate(blocks, entries, exit, owner1);
    RenumberedReachable(folded, l.entries, 0, blocks, map_, entries);
  }
}
