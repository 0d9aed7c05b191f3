/** What the blocks of a graph mean: with statements and conditions executed as the HIR says,
    a walk through the blocks is a run of the program. */
module CfgMeaning {
  import opened Options
  import opened Operators
  import opened Hir
  import opened HirSemantics
  import opened HirFuel
  import opened Cfg
  import opened CfgSimulation
  import opened CfgGraph
  import opened CfgMayEnd
  import opened CfgBuilder
  import opened CfgBuild
  import HirValidate

  // ---- The children of a node ----

  /** Each node of `h` has in `f` the children that it has in `h`. */
  predicate Within(f: Forest, h: Forest) {
    h.Cons? ==> HirValidate.KidsOf(f, h.idx) == h.kids && Within(f, h.kids) && Within(f, h.rest)
  }

  lemma {:induction false} WithinLift(f: Forest, g: Forest, h: Forest)
    requires f.Cons? && Distinct(f) && (g == f.kids || g == f.rest) && Within(g, h) && Footprint(h) <= Footprint(g)
    ensures Within(f, h)
  {
    if h.Cons? {
      assert h.idx in Footprint(h);
      WithinLift(f, g, h.kids);
      WithinLift(f, g, h.rest);
    }
  }

  lemma {:induction false} WithinSelf(f: Forest)
    requires Distinct(f)
    ensures Within(f, f)
  {
    if f.Cons? {
      WithinSelf(f.kids);
      WithinLift(f, f.kids, f.kids);
      WithinSelf(f.rest);
      WithinLift(f, f.rest, f.rest);
    }
  }

  lemma {:induction false} WithinKids(f: Forest, h: Forest, i: nat)
    requires Within(f, h)
    ensures Within(f, HirValidate.KidsOf(h, i))
  {
    if h.Cons? && h.idx != i {
      if i in Footprint(h.kids) { WithinKids(f, h.kids, i); } else { WithinKids(f, h.rest, i); }
    }
  }

  lemma {:induction false} WithinChild(f: Forest, h: Forest, role: Role)
    requires Within(f, h)
    ensures Within(f, Child(h, role))
  {
    if h.Cons? && h.role != role { WithinChild(f, h.rest, role); }
  }

  // ---- The machine that executes HIR ----

  /** A run is in a state, has returned a value, or has trapped or run out of its bound. */
  datatype Conf = Live(st: State) | Gave(v: Value, st: State) | Dead(o: Outcome)

  function AfterStatement(o: Outcome): Step<Conf> {
    match o
    case Done(Returned(v), st) => Next(Gave(v, st))
    case Done(_, st) => Next(Live(st))
    case _ => Halt(Dead(o))
  }

  function AfterCondition(w: World, r: Evaluated): (t: Test<Conf>) {
    match r
    case Vals(vs, st) => if vs == [] then Fail(Dead(Timeout)) else Test(Truth(w, vs[0]), Live(st))
    case EvalTrap(st, why) => Fail(Dead(Trap(st, why)))
    case EvalTimeout => Fail(Dead(Timeout))
  }

  /** Node `i` of the tree `f`, whose opcodes are in `nodes`, executed in program `p` with bound `n`. */
  function HirStatement(nodes: seq<Node>, f: Forest, n: nat, w: World, p: Forest, i: nat, c: Conf): Step<Conf> {
    if c.Live? && i < |nodes| then AfterStatement(ExecNode(n, w, p, nodes[i].op, HirValidate.KidsOf(f, i), c.st)) else Halt(c)
  }

  function HirCondition(nodes: seq<Node>, f: Forest, n: nat, w: World, p: Forest, i: nat, c: Conf): Test<Conf> {
    if c.Live? && i < |nodes| then AfterCondition(w, EvalNode(n, w, p, nodes[i].op, HirValidate.KidsOf(f, i), c.st)) else Fail(c)
  }

  function HirMachine(nodes: seq<Node>, f: Forest, n: nat, w: World, p: Forest): Machine<Conf> {
    Machine((i: nat, c: Conf) => HirStatement(nodes, f, n, w, p, i, c), (i: nat, c: Conf) => HirCondition(nodes, f, n, w, p, i, c))
  }

  /** The result of a structured run that has the outcome `o`. */
  function Expect(o: Outcome): Result<Conf> {
    match o
    case Done(Normal, st) => Ends(On, Live(st))
    case Done(Broke, st) => Ends(Broken, Live(st))
    case Done(Continued, st) => Ends(Continuing, Live(st))
    case Done(Returned(v), st) => Ends(Returning, Gave(v, st))
    case Trap(_, _) => Stops(Dead(o))
    case Timeout => Unfinished
  }

  predicate Ran(r: Result<Conf>) {
    r != Unfinished && r != Stops(Dead(Timeout))
  }

  // ---- Runs are structured runs of this machine ----

  ghost predicate InTree(nodes: seq<Node>, f: Forest, h: Forest) {
    CfgSimulation.Stored(nodes, h) && Within(f, h) && HirValidate.Shaped(h)
  }

  lemma {:induction false} InTreeChild(nodes: seq<Node>, f: Forest, h: Forest, role: Role)
    requires InTree(nodes, f, h)
    ensures InTree(nodes, f, Child(h, role))
  {
    if h.Cons? && h.role != role { InTreeChild(nodes, f, h.rest, role); }
  }

  /** The condition of an `if` or a loop. */
  lemma {:induction false} ConditionMeans(nodes: seq<Node>, f: Forest, n: nat, m: nat, w: World, p: Forest, kids: Forest, st: State)
    requires n <= m && InTree(nodes, f, kids) && Child(kids, Condition).Cons?
    ensures var e := EvalCondition(n, w, p, kids, st);
      !e.EvalTimeout? ==> TestOf(HirMachine(nodes, f, m, w, p), kids, Live(st)) == AfterCondition(w, e)
    ensures var t := TestOf(HirMachine(nodes, f, n, w, p), kids, Live(st)); var e := EvalCondition(m, w, p, kids, st);
      t != Fail(Dead(Timeout)) ==> !e.EvalTimeout? && t == AfterCondition(w, e)
  {
    var c := Child(kids, Condition);
    InTreeChild(nodes, f, kids, Condition);
    MoreEvalNode(n, m, w, p, c.op, c.kids, st);
  }

  lemma {:induction false} SeqMeans(nodes: seq<Node>, f: Forest, n: nat, m: nat, w: World, p: Forest, h: Forest, role: Role, st: State)
    requires n <= m && InTree(nodes, f, h)
    ensures var o := Exec(n, w, p, h, role, st);
      o != Timeout ==> RunSeq(n, HirMachine(nodes, f, m, w, p), h, role, Live(st)) == Expect(o)
    decreases n, h, 0
  {
    if h.Cons? {
      if h.role != role {
        SeqMeans(nodes, f, n, m, w, p, h.rest, role, st);
      } else {
        StmtMeans(nodes, f, n, m, w, p, h.idx, h.op, h.kids, st);
        var o := ExecNode(n, w, p, h.op, h.kids, st);
        if o.Done? && o.c == Normal { SeqMeans(nodes, f, n, m, w, p, h.rest, role, o.st); }
      }
    }
  }

  lemma {:induction false} StmtMeans(nodes: seq<Node>, f: Forest, n: nat, m: nat, w: World, p: Forest, idx: nat, op: Op, kids: Forest, st: State)
    requires n <= m && InTree(nodes, f, kids) && idx < |nodes| && nodes[idx].op == op && HirValidate.KidsOf(f, idx) == kids
    requires HirValidate.ShapeOk(op, HirValidate.RolesOf(kids))
    ensures var o := ExecNode(n, w, p, op, kids, st);
      o != Timeout ==> RunStmt(n, HirMachine(nodes, f, m, w, p), idx, op, kids, Live(st)) == Expect(o)
    decreases n, kids, 2
  {
    match op
    case Program => SeqMeans(nodes, f, n, m, w, p, kids, Statement, st);
    case If =>
      CountedChild(kids, Condition);
      ConditionMeans(nodes, f, n, m, w, p, kids, st);
      var e := EvalCondition(n, w, p, kids, st);
      if e.Vals? { SeqMeans(nodes, f, n, m, w, p, kids, if Truth(w, e.vs[0]) then Then else Else, e.st); }
    case While => CountedChild(kids, Condition); LoopMeans(nodes, f, n, m, w, p, kids, st);
    case Function(_, _) =>
    case Struct(_, _) =>
    case _ => VisitMeans(nodes, f, n, m, w, p, idx, op, kids, st);
  }

  /** Statements that are executed at once. */
  predicate Simple(op: Op) {
    !op.Program? && !op.If? && !op.While? && !op.Function? && !op.Struct?
  }

  lemma {:induction false} VisitMeans(nodes: seq<Node>, f: Forest, n: nat, m: nat, w: World, p: Forest, idx: nat, op: Op, kids: Forest, st: State)
    requires n <= m && idx < |nodes| && nodes[idx].op == op && HirValidate.KidsOf(f, idx) == kids && Simple(op)
    ensures var o := ExecNode(n, w, p, op, kids, st);
      o != Timeout ==> RunStmt(n, HirMachine(nodes, f, m, w, p), idx, op, kids, Live(st)) == Expect(o)
    ensures var r := RunStmt(n, HirMachine(nodes, f, n, w, p), idx, op, kids, Live(st));
      Ran(r) ==> ExecNode(m, w, p, op, kids, st) != Timeout && r == Expect(ExecNode(m, w, p, op, kids, st))
  {
    MoreExecNode(n, m, w, p, op, kids, st);
    LeafControl(n, w, p, op, kids, st);
    LeafControl(m, w, p, op, kids, st);
  }

  /** How a simple statement can end. */
  lemma {:induction false} LeafControl(n: nat, w: World, p: Forest, op: Op, kids: Forest, st: State)
    requires Simple(op)
    ensures var o := ExecNode(n, w, p, op, kids, st);
      o.Done? ==> match op
        case Return => o.c.Returned?
        case Break => o.c == Broke
        case Continue => o.c == Continued
        case _ => o.c == Normal
  {
  }

  lemma {:induction false} LoopMeans(nodes: seq<Node>, f: Forest, n: nat, m: nat, w: World, p: Forest, kids: Forest, st: State)
    requires n <= m && InTree(nodes, f, kids) && Child(kids, Condition).Cons?
    ensures var o := ExecLoop(n, w, p, kids, st);
      o != Timeout ==> RunLoop(n, HirMachine(nodes, f, m, w, p), kids, Live(st)) == Expect(o)
    decreases n, kids, 1
  {
    ConditionMeans(nodes, f, n, m, w, p, kids, st);
    var e := EvalCondition(n, w, p, kids, st);
    if e.Vals? && Truth(w, e.vs[0]) && n > 0 {
      SeqMeans(nodes, f, n, m, w, p, kids, Body, e.st);
      var o := Exec(n, w, p, kids, Body, e.st);
      if o.Done? && (o.c == Normal || o.c == Continued) { LoopMeans(nodes, f, n - 1, m, w, p, kids, o.st); }
    }
  }

  // ---- And structured runs of this machine are runs ----

  lemma {:induction false} SeqRan(nodes: seq<Node>, f: Forest, k: nat, n: nat, w: World, p: Forest, h: Forest, role: Role, st: State)
    requires InTree(nodes, f, h)
    ensures var r := RunSeq(k, HirMachine(nodes, f, n, w, p), h, role, Live(st));
      Ran(r) ==> Exec(k + n, w, p, h, role, st) != Timeout && r == Expect(Exec(k + n, w, p, h, role, st))
    decreases k, h, 0
  {
    if h.Cons? {
      if h.role != role {
        SeqRan(nodes, f, k, n, w, p, h.rest, role, st);
      } else {
        StmtRan(nodes, f, k, n, w, p, h.idx, h.op, h.kids, st);
        var r := RunStmt(k, HirMachine(nodes, f, n, w, p), h.idx, h.op, h.kids, Live(st));
        var o := ExecNode(k + n, w, p, h.op, h.kids, st);
        if Ran(r) && o.Done? && o.c == Normal { SeqRan(nodes, f, k, n, w, p, h.rest, role, o.st); }
      }
    }
  }

  lemma {:induction false} StmtRan(nodes: seq<Node>, f: Forest, k: nat, n: nat, w: World, p: Forest, idx: nat, op: Op, kids: Forest, st: State)
    requires InTree(nodes, f, kids) && idx < |nodes| && nodes[idx].op == op && HirValidate.KidsOf(f, idx) == kids
    requires HirValidate.ShapeOk(op, HirValidate.RolesOf(kids))
    ensures var r := RunStmt(k, HirMachine(nodes, f, n, w, p), idx, op, kids, Live(st));
      Ran(r) ==> ExecNode(k + n, w, p, op, kids, st) != Timeout && r == Expect(ExecNode(k + n, w, p, op, kids, st))
    decreases k, kids, 2
  {
    match op
    case Program => SeqRan(nodes, f, k, n, w, p, kids, Statement, st);
    case If =>
      CountedChild(kids, Condition);
      ConditionMeans(nodes, f, n, k + n, w, p, kids, st);
      var e := EvalCondition(k + n, w, p, kids, st);
      if e.Vals? { SeqRan(nodes, f, k, n, w, p, kids, if Truth(w, e.vs[0]) then Then else Else, e.st); }
    case While => CountedChild(kids, Condition); LoopRan(nodes, f, k, n, w, p, kids, st);
    case Function(_, _) =>
    case Struct(_, _) =>
    case _ => VisitBound(nodes, f, k, n, w, p, idx, op, kids, st); VisitMeans(nodes, f, n, k + n, w, p, idx, op, kids, st);
  }

  /** Simple statements do not use the bound on loops. */
  lemma VisitBound(nodes: seq<Node>, f: Forest, k: nat, n: nat, w: World, p: Forest, idx: nat, op: Op, kids: Forest, st: State)
    requires Simple(op)
    ensures RunStmt(k, HirMachine(nodes, f, n, w, p), idx, op, kids, Live(st)) == RunStmt(n, HirMachine(nodes, f, n, w, p), idx, op, kids, Live(st))
  {
  }

  lemma {:induction false} LoopRan(nodes: seq<Node>, f: Forest, k: nat, n: nat, w: World, p: Forest, kids: Forest, st: State)
    requires InTree(nodes, f, kids) && Child(kids, Condition).Cons?
    ensures var r := RunLoop(k, HirMachine(nodes, f, n, w, p), kids, Live(st));
      Ran(r) ==> ExecLoop(k + n, w, p, kids, st) != Timeout && r == Expect(ExecLoop(k + n, w, p, kids, st))
    decreases k, kids, 1
  {
    ConditionMeans(nodes, f, n, k + n, w, p, kids, st);
    var e := EvalCondition(k + n, w, p, kids, st);
    if e.Vals? && Truth(w, e.vs[0]) && k > 0 {
      SeqRan(nodes, f, k, n, w, p, kids, Body, e.st);
      var o := Exec(k + n, w, p, kids, Body, e.st);
      if o.Done? && (o.c == Normal || o.c == Continued) { LoopRan(nodes, f, k - 1, n, w, p, kids, o.st); }
    }
  }

  // ---- Walks are runs ----

  ghost predicate RunsTo(w: World, p: Forest, h: Forest, role: Role, st: State, o: Outcome) {
    exists n: nat :: Exec(n, w, p, h, role, st) == o
  }

  /** Where a walk is when a run has the outcome `o`. */
  function ConfigOf(o: Outcome): Config<Conf> {
    match o
    case Done(Returned(v), st) => Finished(Gave(v, st))
    case Done(_, st) => Finished(Live(st))
    case _ => Halted(Dead(o))
  }

  ghost predicate WalksTo(nodes: seq<Node>, f: Forest, blocks: seq<Block>, entry: int, w: World, p: Forest, st: State, o: Outcome) {
    exists n: nat :: WalkTo(HirMachine(nodes, f, n, w, p), nodes, blocks, entry, Live(st), ConfigOf(o))
  }

  /** The end of the statements, a return, or a trap. */
  predicate Final(o: Outcome) {
    o.Trap? || (o.Done? && (o.c == Normal || o.c.Returned?))
  }

  /** A walk from the entry and a run of the statements have the same outcomes. */
  ghost predicate SameRuns(nodes: seq<Node>, f: Forest, blocks: seq<Block>, entry: int, h: Forest, role: Role, w: World, p: Forest, st: State) {
    forall o :: Final(o) ==> (WalksTo(nodes, f, blocks, entry, w, p, st, o) <==> RunsTo(w, p, h, role, st, o))
  }

  ghost predicate ExactFor(nodes: seq<Node>, f: Forest, blocks: seq<Block>, entry: int, h: Forest, role: Role, w: World, p: Forest, st: State) {
    forall n: nat :: Exact(HirMachine(nodes, f, n, w, p), nodes, blocks, entry, h, role, Live(st))
  }

  lemma {:induction false} RunIsWalk(nodes: seq<Node>, f: Forest, blocks: seq<Block>, entry: int, h: Forest, role: Role, w: World, p: Forest, st: State, n: nat)
    requires InTree(nodes, f, h) && ExactFor(nodes, f, blocks, entry, h, role, w, p, st)
    requires Final(Exec(n, w, p, h, role, st))
    ensures WalkTo(HirMachine(nodes, f, n, w, p), nodes, blocks, entry, Live(st), ConfigOf(Exec(n, w, p, h, role, st)))
  {
    var o, m := Exec(n, w, p, h, role, st), HirMachine(nodes, f, n, w, p);
    SeqMeans(nodes, f, n, n, w, p, h, role, st);
    var r := RunSeq(n, m, h, role, Live(st));
    assert Exact(m, nodes, blocks, entry, h, role, Live(st));
    if r.Ends? { assert RunEnds(m, h, role, Live(st), r.s); } else { assert RunStops(m, h, role, Live(st), r.s); }
  }

  lemma {:induction false} RanOutcome(nodes: seq<Node>, f: Forest, k: nat, n: nat, h: Forest, role: Role, w: World, p: Forest, st: State, o: Outcome, way: Way)
    requires InTree(nodes, f, h) && Final(o) && (way == On || way == Returning)
    requires RunSeq(k, HirMachine(nodes, f, n, w, p), h, role, Live(st)) == if o.Trap? then Stops(Dead(o)) else Ends(way, ConfigOf(o).s)
    ensures Exec(k + n, w, p, h, role, st) == o
  {
    SeqRan(nodes, f, k, n, w, p, h, role, st);
  }

  /** A walk that ends comes from a run that ends. */
  lemma {:induction false} WalkRun(m: Machine<Conf>, nodes: seq<Node>, blocks: seq<Block>, entry: int, h: Forest, role: Role, at: nat, s: Conf, o: Outcome)
      returns (k: nat, way: Way)
    requires Exact(m, nodes, blocks, entry, h, role, s) && SeqCode(h, role, 0, TopTargets, at).Some?
    requires Final(o) && WalkTo(m, nodes, blocks, entry, s, ConfigOf(o))
    ensures way == On || way == Returning
    ensures RunSeq(k, m, h, role, s) == if o.Trap? then Stops(Dead(o)) else Ends(way, ConfigOf(o).s)
  {
    if o.Trap? {
      assert RunStops(m, h, role, s, Dead(o));
      k :| RunSeq(k, m, h, role, s) == Stops(Dead(o));
      way := On;
    } else {
      assert RunEnds(m, h, role, s, ConfigOf(o).s);
      k, way :| RunSeq(k, m, h, role, s) == Ends(way, ConfigOf(o).s);
      SeqWays(k, m, h, role, 0, TopTargets, at, s);
    }
  }

  lemma {:induction false} WalkIsRun(nodes: seq<Node>, f: Forest, blocks: seq<Block>, entry: int, h: Forest, role: Role, at: nat,
      w: World, p: Forest, st: State, o: Outcome)
    requires InTree(nodes, f, h) && ExactFor(nodes, f, blocks, entry, h, role, w, p, st) && SeqCode(h, role, 0, TopTargets, at).Some?
    requires Final(o) && WalksTo(nodes, f, blocks, entry, w, p, st, o)
    ensures RunsTo(w, p, h, role, st, o)
  {
    var n: nat :| WalkTo(HirMachine(nodes, f, n, w, p), nodes, blocks, entry, Live(st), ConfigOf(o));
    var k, way := WalkRun(HirMachine(nodes, f, n, w, p), nodes, blocks, entry, h, role, at, Live(st), o);
    RanOutcome(nodes, f, k, n, h, role, w, p, st, o, way);
  }

  lemma {:induction false} RootMeans(nodes: seq<Node>, f: Forest, blocks: seq<Block>, entry: int, h: Forest, role: Role, at: nat, w: World, p: Forest, st: State)
    requires InTree(nodes, f, h) && ExactFor(nodes, f, blocks, entry, h, role, w, p, st) && SeqCode(h, role, 0, TopTargets, at).Some?
    ensures SameRuns(nodes, f, blocks, entry, h, role, w, p, st)
  {
    forall o | Final(o) ensures WalksTo(nodes, f, blocks, entry, w, p, st, o) <==> RunsTo(w, p, h, role, st, o) {
      if RunsTo(w, p, h, role, st, o) {
        var n: nat :| Exec(n, w, p, h, role, st) == o;
        RunIsWalk(nodes, f, blocks, entry, h, role, w, p, st, n);
      }
      if WalksTo(nodes, f, blocks, entry, w, p, st, o) { WalkIsRun(nodes, f, blocks, entry, h, role, at, w, p, st, o); }
    }
  }

  // ---- Whole graphs ----

  lemma {:induction false} TreeInside(nodes: seq<Node>, root: nat, f: Forest)
    requires HirValidate.IsTree(nodes, root, f)
    ensures InTree(nodes, f, f.kids)
    ensures forall i: nat :: i < |nodes| ==> InTree(nodes, f, HirValidate.KidsOf(f, i))
  {
    WithinSelf(f);
    StoredForest(nodes, nodes[root].first, f.kids);
    forall i: nat | i < |nodes| ensures InTree(nodes, f, HirValidate.KidsOf(f, i)) {
      KidsStored(nodes, root, f, i);
      StoredForest(nodes, nodes[i].first, HirValidate.KidsOf(f, i));
      WithinKids(f, f, i);
    }
  }

  /** The code of the root at entry `k`. */
  lemma {:induction false} EntryCode(nodes: seq<Node>, f: Forest, g: Graph, k: nat) returns (at: nat)
    requires GraphOf(nodes, f, g) && k < |Roots(nodes, f, |nodes|)|
    ensures SeqCode(Roots(nodes, f, |nodes|)[k].0, Roots(nodes, f, |nodes|)[k].1, 0, TopTargets, at).Some?
  {
    var roots := Roots(nodes, f, |nodes|);
    LayoutPlaced(roots, k);
    at := |LayoutOf(roots[..k]).value.blocks|;
  }

  lemma {:induction false} EntryMeans(nodes: seq<Node>, root: nat, f: Forest, g: Graph, k: nat, h: Forest, role: Role, w: World, p: Forest, st: State)
    requires HirValidate.IsTree(nodes, root, f) && GraphOf(nodes, f, g) && k < |Roots(nodes, f, |nodes|)|
    requires Roots(nodes, f, |nodes|)[k] == (h, role) && InTree(nodes, f, h)
    ensures k < |g.entries| && SameRuns(nodes, f, g.blocks, g.entries[k], h, role, w, p, st)
  {
    forall n: nat ensures k < |g.entries| && Exact(HirMachine(nodes, f, n, w, p), nodes, g.blocks, g.entries[k], h, role, Live(st)) {
      GraphExact(HirMachine(nodes, f, n, w, p), nodes, f, g, k, Live(st));
    }
    GraphExact(HirMachine(nodes, f, 0, w, p), nodes, f, g, k, Live(st));
    var at := EntryCode(nodes, f, g, k);
    RootMeans(nodes, f, g.blocks, g.entries[k], h, role, at, w, p, st);
  }

  lemma EntryCount(nodes: seq<Node>, f: Forest, g: Graph)
    requires GraphOf(nodes, f, g)
    ensures |g.entries| == |Roots(nodes, f, |nodes|)|
  {
    LayoutEntries(Roots(nodes, f, |nodes|));
  }

  /** In every graph of a program, walks from the first entry are runs of the program's own
      statements, and walks from the entry of a function are runs of its body: whether and how
      they end, with which state and which value, and whether and why they trap. */
  lemma {:induction false} GraphMeaning(nodes: seq<Node>, root: nat, f: Forest, g: Graph, w: World, p: Forest, st: State)
    requires HirValidate.IsTree(nodes, root, f) && GraphOf(nodes, f, g)
    ensures |g.entries| == 1 + FunctionsBefore(nodes, |nodes|)
    ensures SameRuns(nodes, f, g.blocks, g.entries[0], f.kids, Statement, w, p, st)
    ensures forall i: nat :: FunctionAt(nodes, i) ==> FunctionMeans(nodes, f, g.blocks, g.entries, i, w, p, st)
  {
    RootsSpelled(nodes, f, |nodes|);
    TreeInside(nodes, root, f);
    EntryMeans(nodes, root, f, g, 0, f.kids, Statement, w, p, st);
    EntryCount(nodes, f, g);
    forall i: nat | FunctionAt(nodes, i) ensures FunctionMeans(nodes, f, g.blocks, g.entries, i, w, p, st) {
      EntryMeans(nodes, root, f, g, 1 + FunctionsBefore(nodes, i), HirValidate.KidsOf(f, i), Body, w, p, st);
    }
  }

  /** The entry of function `i`. */
  ghost predicate FunctionMeans(nodes: seq<Node>, f: Forest, blocks: seq<Block>, entries: seq<int>, i: nat, w: World, p: Forest, st: State)
    requires i <= |nodes|
  {
    var k := 1 + FunctionsBefore(nodes, i);
    k < |entries| && SameRuns(nodes, f, blocks, entries[k], HirValidate.KidsOf(f, i), Body, w, p, st)
  }
}
