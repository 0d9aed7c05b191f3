/** Whole graphs: the exit block, the code of the program and of its functions, folding of
    constant branches, and removal of unreachable blocks. */
module CfgGraph {
  import opened Options
  import opened Hir
  import opened HirSemantics
  import HirValidate
  import opened Cfg
  import opened CfgSimulation

  // ---- Well-formed blocks ----

  predicate Link(i: int, count: nat) {
    0 <= i < count
  }

  predicate OptionalLink(i: int, count: nat) {
    i == NO_NODE || Link(i, count)
  }

  /** What vnt_cfg_validate asks of the block at index `i`. */
  predicate BlockOk(k: Block, i: int, count: nat, exit: int) {
    && OptionalLink(k.yes, count)
    && OptionalLink(k.no, count)
    && match k.exit
       case Branches => k.condition != NO_NODE && k.yes != NO_NODE && k.no != NO_NODE && k.instruction == NO_NODE
       case Exits => i == exit && k == Block(NO_NODE, NO_NODE, NO_NODE, NO_NODE, Exits)
       case Returns => k.instruction != NO_NODE && k.condition == NO_NODE && k.yes == exit && k.no == NO_NODE
       case Jumps => k.condition == NO_NODE && k.yes != NO_NODE && k.no == NO_NODE
       case Falls => k.instruction != NO_NODE && k.condition == NO_NODE && k.yes != NO_NODE && k.no == NO_NODE
  }

  predicate GraphOk(blocks: seq<Block>, entries: seq<int>, exit: int) {
    && Link(exit, |blocks|)
    && entries != []
    && (forall j :: 0 <= j < |entries| ==> Link(entries[j], |blocks|))
    && (forall i :: 0 <= i < |blocks| ==> BlockOk(blocks[i], i, |blocks|, exit))
  }

  /** Code blocks refer to existing nodes and never end the walk themselves. */
  predicate CodeOk(k: Block, nodes: nat, count: nat, exit: int) {
    && BlockOk(k, NO_NODE, count, exit)
    && (k.exit == Branches ==> Link(k.condition, nodes))
    && OptionalLink(k.instruction, nodes)
    && k.exit != Exits
  }

  predicate TargetsOk(t: Targets, count: nat) {
    Link(t.exit, count) && OptionalLink(t.brk, count) && OptionalLink(t.cont, count)
  }

  predicate AllCodeOk(code: seq<Block>, nodes: nat, count: nat, exit: int) {
    forall i :: 0 <= i < |code| ==> CodeOk(code[i], nodes, count, exit)
  }

  lemma AllCodeConcat(a: seq<Block>, b: seq<Block>, nodes: nat, count: nat, exit: int)
    requires AllCodeOk(a, nodes, count, exit) && AllCodeOk(b, nodes, count, exit)
    ensures AllCodeOk(a + b, nodes, count, exit)
  {
  }

  lemma {:induction false} SeqCodeOk(nodes: seq<Node>, f: Forest, role: Role, next: int, t: Targets, n: nat, count: nat)
    requires Stored(nodes, f) && Link(next, count) && TargetsOk(t, count)
    requires var c := SeqCode(f, role, next, t, n); c.Some? && n + |c.value.blocks| <= count
    ensures var c := SeqCode(f, role, next, t, n).value; Link(c.entry, count) && AllCodeOk(c.blocks, |nodes|, count, t.exit)
    decreases f, 0
  {
    if f.Cons? {
      SeqCodeOk(nodes, f.rest, role, next, t, n, count);
      if f.role == role {
        var rest := SeqCode(f.rest, role, next, t, n).value;
        StmtCodeOk(nodes, f.idx, f.op, f.kids, rest.entry, t, n + |rest.blocks|, count);
        AllCodeConcat(rest.blocks, StmtCode(f.idx, f.op, f.kids, rest.entry, t, n + |rest.blocks|).value.blocks, |nodes|, count, t.exit);
      }
    }
  }

  lemma {:induction false} StmtCodeOk(nodes: seq<Node>, idx: nat, op: Op, kids: Forest, next: int, t: Targets, n: nat, count: nat)
    requires idx < |nodes| && Stored(nodes, kids) && Link(next, count) && TargetsOk(t, count)
    requires var c := StmtCode(idx, op, kids, next, t, n); c.Some? && n + |c.value.blocks| <= count
    ensures var c := StmtCode(idx, op, kids, next, t, n).value; Link(c.entry, count) && AllCodeOk(c.blocks, |nodes|, count, t.exit)
    decreases kids, 2
  {
    match op
    case Program => SeqCodeOk(nodes, kids, Statement, next, t, n, count);
    case If => IfCodeOk(nodes, kids, next, t, n, count);
    case While => WhileCodeOk(nodes, kids, next, t, n, count);
    case _ =>
  }

  lemma {:induction false} IfCodeOk(nodes: seq<Node>, kids: Forest, next: int, t: Targets, n: nat, count: nat)
    requires Stored(nodes, kids) && Link(next, count) && TargetsOk(t, count)
    requires var c := IfCode(kids, next, t, n); c.Some? && n + |c.value.blocks| <= count
    ensures var c := IfCode(kids, next, t, n).value; Link(c.entry, count) && AllCodeOk(c.blocks, |nodes|, count, t.exit)
    decreases kids, 1
  {
    StoredChild(nodes, kids, Condition);
    var yes := SeqCode(kids, Then, next, t, n).value;
    SeqCodeOk(nodes, kids, Then, next, t, n, count);
    var no := SeqCode(kids, Else, next, t, n + |yes.blocks|).value;
    SeqCodeOk(nodes, kids, Else, next, t, n + |yes.blocks|, count);
    AllCodeConcat(yes.blocks, no.blocks, |nodes|, count, t.exit);
  }

  lemma {:induction false} WhileCodeOk(nodes: seq<Node>, kids: Forest, next: int, t: Targets, n: nat, count: nat)
    requires Stored(nodes, kids) && Link(next, count) && TargetsOk(t, count)
    requires var c := WhileCode(kids, next, t, n); c.Some? && n + |c.value.blocks| <= count
    ensures var c := WhileCode(kids, next, t, n).value; Link(c.entry, count) && AllCodeOk(c.blocks, |nodes|, count, t.exit)
    decreases kids, 1
  {
    StoredChild(nodes, kids, Condition);
    SeqCodeOk(nodes, kids, Body, n, Targets(t.exit, next, n), n + 1, count);
  }

  // ---- The whole program ----

  const ExitBlock: Block := Block(NO_NODE, NO_NODE, NO_NODE, NO_NODE, Exits)

  datatype Layout = Layout(blocks: seq<Block>, entries: seq<int>)

  const TopTargets: Targets := Targets(0, NO_NODE, NO_NODE)

  /** The root sequences: the program, then each function in node order. */
  function Roots(nodes: seq<Node>, f: Forest, i: nat): seq<(Forest, Role)>
    requires f.Cons? && i <= |nodes|
  {
    if i == 0 then [(f.kids, Statement)]
    else if nodes[i - 1].op.Function? then Roots(nodes, f, i - 1) + [(HirValidate.KidsOf(f, i - 1), Body)]
    else Roots(nodes, f, i - 1)
  }

  /** The code of one more root behind what is laid out already. */
  function AddRoot(l: Layout, root: (Forest, Role)): Option<Layout> {
    match SeqCode(root.0, root.1, 0, TopTargets, |l.blocks|)
    case None => None
    case Some(c) => Some(Layout(l.blocks + c.blocks, l.entries + [c.entry]))
  }

  function LayoutOf(roots: seq<(Forest, Role)>): Option<Layout> {
    if roots == [] then Some(Layout([ExitBlock], []))
    else match LayoutOf(roots[..|roots| - 1])
      case None => None
      case Some(l) => AddRoot(l, roots[|roots| - 1])
  }

  ghost predicate AllStored(nodes: seq<Node>, roots: seq<(Forest, Role)>) {
    forall j :: 0 <= j < |roots| ==> Stored(nodes, roots[j].0)
  }

  lemma {:induction false} LayoutOk(nodes: seq<Node>, roots: seq<(Forest, Role)>, count: nat)
    requires AllStored(nodes, roots) && LayoutOf(roots).Some? && |LayoutOf(roots).value.blocks| <= count
    ensures var l := LayoutOf(roots).value;
      && |l.entries| == |roots| && |l.blocks| >= 1 && l.blocks[0] == ExitBlock
      && (forall j :: 0 <= j < |l.entries| ==> Link(l.entries[j], count))
      && AllCodeOk(l.blocks[1..], |nodes|, count, 0)
  {
    if roots != [] {
      var init, last := roots[..|roots| - 1], roots[|roots| - 1];
      LayoutOk(nodes, init, count);
      var l := LayoutOf(init).value;
      SeqCodeOk(nodes, last.0, last.1, 0, TopTargets, |l.blocks|, count);
      var c := SeqCode(last.0, last.1, 0, TopTargets, |l.blocks|).value;
      assert (l.blocks + c.blocks)[1..] == l.blocks[1..] + c.blocks;
    }
  }

  /** Each root's code stays where it was placed. */
  lemma {:induction false} LayoutPlaced(roots: seq<(Forest, Role)>, j: nat)
    requires j < |roots| && LayoutOf(roots).Some?
    ensures var l := LayoutOf(roots).value;
      && LayoutOf(roots[..j]).Some? && |l.entries| == |roots|
      && var at := |LayoutOf(roots[..j]).value.blocks|;
         var c := SeqCode(roots[j].0, roots[j].1, 0, TopTargets, at);
         c.Some? && Placed(l.blocks, at, c.value.blocks) && l.entries[j] == c.value.entry
  {
    var init := roots[..|roots| - 1];
    LayoutEntries(init);
    if j < |init| {
      LayoutPlaced(init, j);
      assert init[..j] == roots[..j];
    }
  }

  lemma {:induction false} LayoutEntries(roots: seq<(Forest, Role)>)
    requires LayoutOf(roots).Some?
    ensures |LayoutOf(roots).value.entries| == |roots| && |LayoutOf(roots).value.blocks| >= 1 && LayoutOf(roots).value.blocks[0] == ExitBlock
  {
    if roots != [] { LayoutEntries(roots[..|roots| - 1]); }
  }

  // ---- Folding constant branches ----

  function FoldBlock(nodes: seq<Node>, k: Block): Block {
    if k.exit == Branches && Link(k.condition, |nodes|) && nodes[k.condition].op.Boolean? then
      Block(NO_NODE, NO_NODE, if nodes[k.condition].op.b then k.yes else k.no, NO_NODE, Jumps)
    else k
  }

  function FoldBlocks(nodes: seq<Node>, blocks: seq<Block>): (r: seq<Block>)
    ensures |r| == |blocks| && forall i :: 0 <= i < |r| ==> r[i] == FoldBlock(nodes, blocks[i])
  {
    seq(|blocks|, i requires 0 <= i < |blocks| => FoldBlock(nodes, blocks[i]))
  }

  /** A folded branch takes the same step as the branch. */
  lemma {:induction false} FoldWalk<S>(k: nat, m: Machine<S>, nodes: seq<Node>, blocks: seq<Block>, b: int, s: S)
    ensures Walk(k, m, nodes, FoldBlocks(nodes, blocks), b, s) == Walk(k, m, nodes, blocks, b, s)
  {
    if k > 0 {
      assert Go(m, nodes, FoldBlocks(nodes, blocks), b, s) == Go(m, nodes, blocks, b, s);
      var g := Go(m, nodes, blocks, b, s);
      if g.At? { FoldWalk(k - 1, m, nodes, blocks, g.block, g.s); }
    }
  }

  // ---- Paths ----

  predicate Edge(blocks: seq<Block>, a: int, b: int) {
    0 <= a < |blocks| && b != NO_NODE && (b == blocks[a].yes || b == blocks[a].no)
  }

  predicate Path(blocks: seq<Block>, p: seq<int>) {
    p != [] && forall i :: 0 <= i < |p| - 1 ==> Edge(blocks, p[i], p[i + 1])
  }

  ghost predicate Reachable(blocks: seq<Block>, entries: seq<int>, b: int) {
    exists p :: Path(blocks, p) && p[0] in entries && p[|p| - 1] == b
  }

  lemma ReachStep(blocks: seq<Block>, entries: seq<int>, a: int, b: int)
    requires Reachable(blocks, entries, a) && Edge(blocks, a, b)
    ensures Reachable(blocks, entries, b)
  {
    var p :| Path(blocks, p) && p[0] in entries && p[|p| - 1] == a;
    assert Path(blocks, p + [b]);
  }

  lemma ReachEntry(blocks: seq<Block>, entries: seq<int>, b: int)
    requires b in entries
    ensures Reachable(blocks, entries, b)
  {
    assert Path(blocks, [b]);
  }

  // ---- Removing unreachable blocks ----

  function RenameLink(map_: seq<int>, i: int): int {
    if 0 <= i < |map_| then map_[i] else NO_NODE
  }

  function RenameBlock(map_: seq<int>, k: Block): Block {
    k.(yes := RenameLink(map_, k.yes), no := RenameLink(map_, k.no))
  }

  /** `to` is `from` without its unreachable blocks, renumbered by `map_` in order. */
  ghost predicate Renumbered(from: seq<Block>, entries: seq<int>, to: seq<Block>, map_: seq<int>) {
    && |map_| == |from|
    && (forall b :: 0 <= b < |from| ==> (map_[b] != NO_NODE <==> Reachable(from, entries, b)))
    && (forall b :: 0 <= b < |from| && map_[b] != NO_NODE ==> Link(map_[b], |to|) && to[map_[b]] == RenameBlock(map_, from[b]))
    && (forall a, b :: 0 <= a < b < |from| && map_[a] != NO_NODE && map_[b] != NO_NODE ==> map_[a] < map_[b])
    && (forall j :: 0 <= j < |to| ==> j in map_)
  }

  function RenameConfig<S>(map_: seq<int>, c: Config<S>): Config<S> {
    if c.At? then At(RenameLink(map_, c.block), c.s) else c
  }

  lemma {:induction false} RenumberWalk<S>(k: nat, m: Machine<S>, nodes: seq<Node>, from: seq<Block>, entries: seq<int>, exit: int,
      to: seq<Block>, map_: seq<int>, b: int, s: S)
    requires GraphOk(from, entries, exit) && Renumbered(from, entries, to, map_)
    requires Link(b, |from|) && Reachable(from, entries, b)
    ensures Walk(k, m, nodes, to, map_[b], s) == RenameConfig(map_, Walk(k, m, nodes, from, b, s))
  {
    if k > 0 {
      var g := Go(m, nodes, from, b, s);
      assert BlockOk(from[b], b, |from|, exit);
      if g.At? {
        assert Edge(from, b, g.block);
        ReachStep(from, entries, b, g.block);
        assert Go(m, nodes, to, map_[b], s) == At(map_[g.block], g.s);
        RenumberWalk(k - 1, m, nodes, from, entries, exit, to, map_, g.block, g.s);
      }
    }
  }

  // ---- Exactness ----

  ghost predicate RunEnds<S(!new)>(m: Machine<S>, f: Forest, role: Role, s: S, s1: S) {
    exists n: nat, way :: RunSeq(n, m, f, role, s) == Ends(way, s1)
  }

  ghost predicate RunStops<S(!new)>(m: Machine<S>, f: Forest, role: Role, s: S, s1: S) {
    exists n: nat :: RunSeq(n, m, f, role, s) == Stops(s1)
  }

  ghost predicate WalkTo<S(!new)>(m: Machine<S>, nodes: seq<Node>, blocks: seq<Block>, entry: int, s: S, c: Config<S>) {
    exists k: nat :: Walk(k, m, nodes, blocks, entry, s) == c
  }

  /** A run and a walk from `entry` end alike: neither can finish, stop or go on forever
      without the other. */
  ghost predicate Exact<S(!new)>(m: Machine<S>, nodes: seq<Node>, blocks: seq<Block>, entry: int, f: Forest, role: Role, s: S) {
    && (forall s1 :: RunEnds(m, f, role, s, s1) <==> WalkTo(m, nodes, blocks, entry, s, Finished(s1)))
    && (forall s1 :: RunStops(m, f, role, s, s1) <==> WalkTo(m, nodes, blocks, entry, s, Halted(s1)))
    && !WalkTo(m, nodes, blocks, entry, s, Lost)
  }

  /** `break` and `continue` only leave code that was given a target for them. */
  lemma {:induction false} SeqWays<S>(n: nat, m: Machine<S>, f: Forest, role: Role, next: int, t: Targets, at: nat, s: S)
    requires SeqCode(f, role, next, t, at).Some?
    ensures var r := RunSeq(n, m, f, role, s);
      r.Ends? ==> (r.way.Broken? ==> t.brk != NO_NODE) && (r.way.Continuing? ==> t.cont != NO_NODE)
    decreases n, f, 0
  {
    if f.Cons? {
      if f.role == role {
        var rest := SeqCode(f.rest, role, next, t, at).value;
        StmtWays(n, m, f.idx, f.op, f.kids, rest.entry, t, at + |rest.blocks|, s);
        var r := RunStmt(n, m, f.idx, f.op, f.kids, s);
        if r.Ends? { SeqWays(n, m, f.rest, role, next, t, at, r.s); }
      } else {
        SeqWays(n, m, f.rest, role, next, t, at, s);
      }
    }
  }

  lemma {:induction false} StmtWays<S>(n: nat, m: Machine<S>, idx: nat, op: Op, kids: Forest, next: int, t: Targets, at: nat, s: S)
    requires StmtCode(idx, op, kids, next, t, at).Some?
    ensures var r := RunStmt(n, m, idx, op, kids, s);
      r.Ends? ==> (r.way.Broken? ==> t.brk != NO_NODE) && (r.way.Continuing? ==> t.cont != NO_NODE)
    decreases n, kids, 2
  {
    match op
    case Program => SeqWays(n, m, kids, Statement, next, t, at, s);
    case If =>
      var d := TestOf(m, kids, s);
      var yes := SeqCode(kids, Then, next, t, at).value;
      if d.Test? {
        if d.b { SeqWays(n, m, kids, Then, next, t, at, d.s); }
        else { SeqWays(n, m, kids, Else, next, t, at + |yes.blocks|, d.s); }
      }
    case While => LoopWays(n, m, kids, s);
    case _ =>
  }

  lemma {:induction false} LoopWays<S>(n: nat, m: Machine<S>, kids: Forest, s: S)
    ensures var r := RunLoop(n, m, kids, s); r.Ends? ==> r.way.On? || r.way.Returning?
    decreases n, kids, 1
  {
    var d := TestOf(m, kids, s);
    if d.Test? && d.b && n > 0 {
      var r := RunSeq(n, m, kids, Body, d.s);
      if r.Ends? { LoopWays(n - 1, m, kids, r.s); }
    }
  }

  lemma WalkFinal<S>(j: nat, k: nat, m: Machine<S>, nodes: seq<Node>, blocks: seq<Block>, b: int, s: S)
    requires !Walk(j, m, nodes, blocks, b, s).At? && j <= k
    ensures Walk(k, m, nodes, blocks, b, s) == Walk(j, m, nodes, blocks, b, s)
  {
    WalkAdd(j, k - j, m, nodes, blocks, b, s);
  }

  /** A root sequence, placed in blocks that start with the exit block. */
  ghost predicate RootPlaced(nodes: seq<Node>, blocks: seq<Block>, entry: int, f: Forest, role: Role, at: nat) {
    && Stored(nodes, f) && blocks != [] && blocks[0] == ExitBlock
    && var c := SeqCode(f, role, 0, TopTargets, at);
       c.Some? && Placed(blocks, at, c.value.blocks) && entry == c.value.entry
  }

  /** How far the walk from a root comes while a run with bound `n` goes on. */
  lemma {:induction false} RootFollows<S>(n: nat, m: Machine<S>, nodes: seq<Node>, blocks: seq<Block>, entry: int, f: Forest, role: Role, at: nat, s: S)
      returns (k: nat)
    requires RootPlaced(nodes, blocks, entry, f, role, at)
    ensures var w, r := Walk(k, m, nodes, blocks, entry, s), RunSeq(n, m, f, role, s);
      match r
      case Ends(_, s1) => w == Finished(s1)
      case Stops(s1) => w == Halted(s1)
      case Unfinished => w.At? && k >= n
  {
    k := SeqFollows(n, m, nodes, blocks, f, role, 0, TopTargets, at, s);
    SeqWays(n, m, f, role, 0, TopTargets, at, s);
    if RunSeq(n, m, f, role, s).Ends? {
      var w := Walk(k, m, nodes, blocks, entry, s);
      OneStep(m, nodes, blocks, w.block, w.s);
      WalkAdd(k, 1, m, nodes, blocks, entry, s);
      k := k + 1;
    }
  }

  /** A walk that ends within `k` steps ends as the run with any larger bound does. */
  lemma WalkRuns<S>(k: nat, n: nat, m: Machine<S>, nodes: seq<Node>, blocks: seq<Block>, entry: int, f: Forest, role: Role, at: nat, s: S)
    requires RootPlaced(nodes, blocks, entry, f, role, at) && n > k && !Walk(k, m, nodes, blocks, entry, s).At?
    ensures match RunSeq(n, m, f, role, s)
      case Ends(_, s1) => Walk(k, m, nodes, blocks, entry, s) == Finished(s1)
      case Stops(s1) => Walk(k, m, nodes, blocks, entry, s) == Halted(s1)
      case Unfinished => false
  {
    var j := RootFollows(n, m, nodes, blocks, entry, f, role, at, s);
    if j >= k { WalkFinal(k, j, m, nodes, blocks, entry, s); } else { WalkFinal(j, k, m, nodes, blocks, entry, s); }
  }

  lemma {:induction false} EndsBoth<S(!new)>(m: Machine<S>, nodes: seq<Node>, blocks: seq<Block>, entry: int, f: Forest, role: Role, at: nat, s: S, s1: S)
    requires RootPlaced(nodes, blocks, entry, f, role, at)
    ensures RunEnds(m, f, role, s, s1) <==> WalkTo(m, nodes, blocks, entry, s, Finished(s1))
  {
    if RunEnds(m, f, role, s, s1) {
      var n: nat, way :| RunSeq(n, m, f, role, s) == Ends(way, s1);
      var k := RootFollows(n, m, nodes, blocks, entry, f, role, at, s);
    }
    if WalkTo(m, nodes, blocks, entry, s, Finished(s1)) {
      var k: nat :| Walk(k, m, nodes, blocks, entry, s) == Finished(s1);
      WalkRuns(k, k + 1, m, nodes, blocks, entry, f, role, at, s);
      assert RunSeq(k + 1, m, f, role, s) == Ends(RunSeq(k + 1, m, f, role, s).way, s1);
    }
  }

  lemma {:induction false} StopsBoth<S(!new)>(m: Machine<S>, nodes: seq<Node>, blocks: seq<Block>, entry: int, f: Forest, role: Role, at: nat, s: S, s1: S)
    requires RootPlaced(nodes, blocks, entry, f, role, at)
    ensures RunStops(m, f, role, s, s1) <==> WalkTo(m, nodes, blocks, entry, s, Halted(s1))
  {
    if RunStops(m, f, role, s, s1) {
      var n: nat :| RunSeq(n, m, f, role, s) == Stops(s1);
      var k := RootFollows(n, m, nodes, blocks, entry, f, role, at, s);
    }
    if WalkTo(m, nodes, blocks, entry, s, Halted(s1)) {
      var k: nat :| Walk(k, m, nodes, blocks, entry, s) == Halted(s1);
      WalkRuns(k, k + 1, m, nodes, blocks, entry, f, role, at, s);
      assert RunSeq(k + 1, m, f, role, s) == Stops(s1);
    }
  }

  /** Construction simulates structured execution in both directions. */
  lemma {:induction false} RootExact<S(!new)>(m: Machine<S>, nodes: seq<Node>, blocks: seq<Block>, entry: int, f: Forest, role: Role, at: nat, s: S)
    requires RootPlaced(nodes, blocks, entry, f, role, at)
    ensures Exact(m, nodes, blocks, entry, f, role, s)
  {
    forall s1 ensures RunEnds(m, f, role, s, s1) <==> WalkTo(m, nodes, blocks, entry, s, Finished(s1)) {
      EndsBoth(m, nodes, blocks, entry, f, role, at, s, s1);
    }
    forall s1 ensures RunStops(m, f, role, s, s1) <==> WalkTo(m, nodes, blocks, entry, s, Halted(s1)) {
      StopsBoth(m, nodes, blocks, entry, f, role, at, s, s1);
    }
    forall k: nat ensures Walk(k, m, nodes, blocks, entry, s) != Lost {
      if !Walk(k, m, nodes, blocks, entry, s).At? { WalkRuns(k, k + 1, m, nodes, blocks, entry, f, role, at, s); }
    }
  }

  // ---- The finished graph ----

  /** The graph is the pruned and folded layout of the roots. */
  ghost predicate Built(nodes: seq<Node>, roots: seq<(Forest, Role)>, blocks: seq<Block>, entries: seq<int>, exit: int, map_: seq<int>) {
    && roots != [] && AllStored(nodes, roots) && LayoutOf(roots).Some?
    && var l := LayoutOf(roots).value;
       var folded := FoldBlocks(nodes, l.blocks);
       && Renumbered(folded, l.entries, blocks, map_)
       && Reachable(folded, l.entries, 0)
       && |entries| == |l.entries|
       && (forall j :: 0 <= j < |entries| ==> entries[j] == RenameLink(map_, l.entries[j]))
       && exit == RenameLink(map_, 0)
  }

  /** Folding keeps blocks well formed. */
  lemma {:induction false} FoldedOk(nodes: seq<Node>, roots: seq<(Forest, Role)>)
    requires roots != [] && AllStored(nodes, roots) && LayoutOf(roots).Some?
    ensures var l := LayoutOf(roots).value; GraphOk(FoldBlocks(nodes, l.blocks), l.entries, 0)
  {
    var l := LayoutOf(roots).value;
    var folded := FoldBlocks(nodes, l.blocks);
    LayoutOk(nodes, roots, |l.blocks|);
    forall i | 0 <= i < |folded| ensures BlockOk(folded[i], i, |folded|, 0) {
      if i > 0 { assert l.blocks[i] == l.blocks[1..][i - 1]; }
    }
  }

  /** Every root of the finished graph does exactly what its statements do. */
  lemma {:induction false} BuiltExact<S(!new)>(m: Machine<S>, nodes: seq<Node>, roots: seq<(Forest, Role)>, blocks: seq<Block>, entries: seq<int>, exit: int,
      map_: seq<int>, j: nat, s: S)
    requires Built(nodes, roots, blocks, entries, exit, map_) && j < |roots|
    ensures |entries| == |roots| && Exact(m, nodes, blocks, entries[j], roots[j].0, roots[j].1, s)
  {
    var l := LayoutOf(roots).value;
    var folded := FoldBlocks(nodes, l.blocks);
    FoldedOk(nodes, roots);
    LayoutPlaced(roots, j);
    LayoutEntries(roots);
    var entry := l.entries[j];
    ReachEntry(folded, l.entries, entry);
    RootExact(m, nodes, l.blocks, entry, roots[j].0, roots[j].1, |LayoutOf(roots[..j]).value.blocks|, s);
    forall k: nat ensures Walk(k, m, nodes, blocks, entries[j], s) == RenameConfig(map_, Walk(k, m, nodes, l.blocks, entry, s)) {
      FoldWalk(k, m, nodes, l.blocks, entry, s);
      RenumberWalk(k, m, nodes, folded, l.entries, 0, blocks, map_, entry, s);
    }
    SameEnds(m, nodes, l.blocks, entry, blocks, entries[j], map_, roots[j].0, roots[j].1, s);
  }

  lemma SameWalks<S(!new)>(m: Machine<S>, nodes: seq<Node>, from: seq<Block>, b: int, to: seq<Block>, e: int, map_: seq<int>, s: S, c: Config<S>)
    requires forall k: nat :: Walk(k, m, nodes, to, e, s) == RenameConfig(map_, Walk(k, m, nodes, from, b, s))
    requires !c.At?
    ensures WalkTo(m, nodes, from, b, s, c) <==> WalkTo(m, nodes, to, e, s, c)
  {
    if WalkTo(m, nodes, from, b, s, c) {
      var k: nat :| Walk(k, m, nodes, from, b, s) == c;
      assert Walk(k, m, nodes, to, e, s) == c;
    }
    if WalkTo(m, nodes, to, e, s, c) {
      var k: nat :| Walk(k, m, nodes, to, e, s) == c;
      assert Walk(k, m, nodes, from, b, s) == c;
    }
  }

  lemma SameEnds<S(!new)>(m: Machine<S>, nodes: seq<Node>, from: seq<Block>, b: int, to: seq<Block>, e: int, map_: seq<int>,
      f: Forest, role: Role, s: S)
    requires forall k: nat :: Walk(k, m, nodes, to, e, s) == RenameConfig(map_, Walk(k, m, nodes, from, b, s))
    requires Exact(m, nodes, from, b, f, role, s)
    ensures Exact(m, nodes, to, e, f, role, s)
  {
    forall c: Config<S> | !c.At? ensures WalkTo(m, nodes, from, b, s, c) <==> WalkTo(m, nodes, to, e, s, c) {
      SameWalks(m, nodes, from, b, to, e, map_, s, c);
    }
  }
}
