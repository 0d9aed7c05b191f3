/** A program that the definite-assignment check accepts reads no unset variable. */
module CfgUnset {
  import opened Options
  import opened Operators
  import opened Hir
  import opened HirSemantics
  import opened Cfg
  import opened CfgSimulation
  import opened CfgGraph
  import opened CfgDataflow
  import opened CfgBuilder
  import opened CfgBuild
  import opened CfgEffects
  import opened CfgAssignment
  import opened CfgMeaning
  import opened CfgUses
  import HirValidate

  // ---- Blocks hold simple statements ----

  predicate SimpleBlock(nodes: seq<Node>, k: Block) {
    Link(k.instruction, |nodes|) ==> Simple(nodes[k.instruction].op)
  }

  predicate AllSimple(nodes: seq<Node>, code: seq<Block>) {
    forall i :: 0 <= i < |code| ==> SimpleBlock(nodes, code[i])
  }

  lemma {:induction false} SeqSimple(nodes: seq<Node>, f: Forest, role: Role, next: int, t: Targets, n: nat)
    requires CfgSimulation.Stored(nodes, f) && SeqCode(f, role, next, t, n).Some?
    ensures AllSimple(nodes, SeqCode(f, role, next, t, n).value.blocks)
    decreases f, 0
  {
    if f.Cons? {
      SeqSimple(nodes, f.rest, role, next, t, n);
      if f.role == role {
        var rest := SeqCode(f.rest, role, next, t, n).value;
        StmtSimple(nodes, f.idx, f.op, f.kids, rest.entry, t, n + |rest.blocks|);
      }
    }
  }

  lemma {:induction false} StmtSimple(nodes: seq<Node>, idx: nat, op: Op, kids: Forest, next: int, t: Targets, n: nat)
    requires idx < |nodes| && nodes[idx].op == op && CfgSimulation.Stored(nodes, kids) && StmtCode(idx, op, kids, next, t, n).Some?
    ensures AllSimple(nodes, StmtCode(idx, op, kids, next, t, n).value.blocks)
    decreases kids, 1
  {
    match op
    case Program => SeqSimple(nodes, kids, Statement, next, t, n);
    case If =>
      SeqSimple(nodes, kids, Then, next, t, n);
      SeqSimple(nodes, kids, Else, next, t, n + |SeqCode(kids, Then, next, t, n).value.blocks|);
    case While => SeqSimple(nodes, kids, Body, n, Targets(t.exit, next, n), n + 1);
    case _ =>
  }

  lemma {:induction false} LayoutSimple(nodes: seq<Node>, roots: seq<(Forest, Role)>)
    requires AllStored(nodes, roots) && LayoutOf(roots).Some?
    ensures AllSimple(nodes, LayoutOf(roots).value.blocks)
  {
    if roots != [] {
      var init, last := roots[..|roots| - 1], roots[|roots| - 1];
      LayoutSimple(nodes, init);
      SeqSimple(nodes, last.0, last.1, 0, TopTargets, |LayoutOf(init).value.blocks|);
    }
  }

  lemma {:induction false} BuiltSimple(nodes: seq<Node>, roots: seq<(Forest, Role)>, blocks: seq<Block>, entries: seq<int>, exit: int, map_: seq<int>)
    requires Built(nodes, roots, blocks, entries, exit, map_)
    ensures AllSimple(nodes, blocks)
  {
    var l := LayoutOf(roots).value;
    LayoutSimple(nodes, roots);
    forall j | 0 <= j < |blocks| ensures SimpleBlock(nodes, blocks[j]) {
      assert j in map_;
      var b :| 0 <= b < |map_| && map_[b] == j;
      assert SimpleBlock(nodes, l.blocks[b]);
    }
  }

  // ---- Canonical nodes ----

  lemma {:induction false} NodeCanonical(nodes: seq<Node>, at: int, f: Forest, i: nat)
    requires IsForest(nodes, at, f) && Canonical(f) && i in Footprint(f)
    ensures i < |nodes| && CanonicalNode(nodes[i].op, HirValidate.KidsOf(f, i))
    decreases f
  {
    if f.idx != i {
      if i in Footprint(f.kids) { NodeCanonical(nodes, nodes[at].first, f.kids, i); } else { NodeCanonical(nodes, nodes[at].next, f.rest, i); }
    }
  }

  // ---- Walks ----

  /** What the walks below need of a graph and the program it was built from. */
  ghost predicate Fitting(nodes: seq<Node>, f: Forest, blocks: seq<Block>, exit: int) {
    && f.Cons? && Link(exit, |blocks|)
    && (forall b :: 0 <= b < |blocks| ==> BlockOk(blocks[b], b, |blocks|, exit) && Refers(blocks[b], |nodes|) && SimpleBlock(nodes, blocks[b]))
    && (forall i: nat :: i < |nodes| ==> CanonicalNode(nodes[i].op, HirValidate.KidsOf(f, i)))
  }

  /** The walk has come along the path `p`, and what is set along it is set. */
  ghost predicate Along(nodes: seq<Node>, f: Forest, blocks: seq<Block>, entries: seq<int>, e: nat, p: seq<int>, b: int, st: State)
    requires f.Cons?
  {
    && Path(blocks, p) && e < |entries| && p[0] == entries[e] && p[|p| - 1] == b
    && forall x :: SetBefore(nodes, f, blocks, e, p, x) ==> x in st.vars
  }

  predicate CallsIn(nodes: seq<Node>, f: Forest, k: Block) {
    || (Link(k.instruction, |nodes|) && !CallFree(nodes[k.instruction].op, HirValidate.KidsOf(f, k.instruction)))
    || (Link(k.condition, |nodes|) && !CallFree(nodes[k.condition].op, HirValidate.KidsOf(f, k.condition)))
  }

  /** Wherever a path from entry `e` calls a function, the variables in `g` have been set. */
  ghost predicate CallsCovered(nodes: seq<Node>, f: Forest, blocks: seq<Block>, entries: seq<int>, e: nat, g: set<string>)
    requires f.Cons?
  {
    forall p, x :: e < |entries| && Path(blocks, p) && p[0] == entries[e] && Link(p[|p| - 1], |blocks|) && CallsIn(nodes, f, blocks[p[|p| - 1]]) && x in g ==>
      SetBefore(nodes, f, blocks, e, p, x)
  }

  lemma {:induction false} AlongStep(nodes: seq<Node>, f: Forest, blocks: seq<Block>, entries: seq<int>, e: nat, p: seq<int>, b: int, st: State, b1: int, st1: State)
    requires f.Cons? && Along(nodes, f, blocks, entries, e, p, b, st) && Edge(blocks, b, b1)
    requires st.vars.Keys + BlockDefs(nodes, f, blocks[b]) <= st1.vars.Keys
    ensures Along(nodes, f, blocks, entries, e, p + [b1], b1, st1)
  {
    var q := p + [b1];
    forall x | SetBefore(nodes, f, blocks, e, q, x) ensures x in st1.vars {
      if x !in SeedOf(nodes, f, e) {
        var i :| 0 <= i < |q| - 1 && Link(q[i], |blocks|) && x in BlockDefs(nodes, f, blocks[q[i]]);
        if i < |p| - 1 { assert SetBefore(nodes, f, blocks, e, p, x); }
      } else {
        assert SetBefore(nodes, f, blocks, e, p, x);
      }
    }
  }

  /** The walk has not met an unset variable. */
  predicate NoUnset(c: Config<Conf>) {
    !(c.Halted? && c.s.Dead? && c.s.o.Trap? && c.s.o.why.Unset?)
  }

  lemma {:induction false} GaveWalks(k: nat, nodes: seq<Node>, f: Forest, n: nat, w: World, p: Forest, blocks: seq<Block>, b: int, c: Conf)
    requires c.Gave?
    ensures NoUnset(Walk(k, HirMachine(nodes, f, n, w, p), nodes, blocks, b, c))
  {
    if k > 0 {
      var g := Go(HirMachine(nodes, f, n, w, p), nodes, blocks, b, c);
      if g.At? { GaveWalks(k - 1, nodes, f, n, w, p, blocks, g.block, c); }
    }
  }

  /** A step, when what the block reads is set: where it goes, and what is set then. */
  predicate Stepped(nodes: seq<Node>, f: Forest, blocks: seq<Block>, b: int, st: State, g: Config<Conf>) {
    && NoUnset(g)
    && (g.At? ==> g.s.Gave? || (g.s.Live? && Edge(blocks, b, g.block) && st.vars.Keys + BlockDefs(nodes, f, blocks[b]) <= g.s.st.vars.Keys))
  }

  lemma {:induction false} GoSafe(nodes: seq<Node>, f: Forest, n: nat, w: World, prog: Forest, blocks: seq<Block>, exit: int, gs: set<string>, b: int, st: State)
    requires Fitting(nodes, f, blocks, exit) && Tame(w) && CallsSafe(n, w, prog, gs) && Link(b, |blocks|)
    requires BlockUses(nodes, f, blocks[b]) <= st.vars.Keys && (CallsIn(nodes, f, blocks[b]) ==> gs <= st.vars.Keys)
    ensures Stepped(nodes, f, blocks, b, st, Go(HirMachine(nodes, f, n, w, prog), nodes, blocks, b, Live(st)))
  {
    var k := blocks[b];
    assert BlockOk(k, b, |blocks|, exit) && Refers(k, |nodes|) && SimpleBlock(nodes, k);
    if k.exit == Branches {
      ConditionSafe(nodes, f, n, w, prog, k, gs, st);
    } else if k.exit != Exits && k.instruction >= 0 {
      InstructionSafe(nodes, f, n, w, prog, k, gs, st);
    }
  }

  /** One step from a block reached along a path. */
  lemma {:induction false} StepSafe(nodes: seq<Node>, f: Forest, n: nat, w: World, prog: Forest, blocks: seq<Block>, entries: seq<int>, exit: int, e: nat,
      gs: set<string>, p: seq<int>, b: int, st: State)
    requires Fitting(nodes, f, blocks, exit) && Tame(w) && CallsSafe(n, w, prog, gs)
    requires PathsAssigned(nodes, f, blocks, entries) && CallsCovered(nodes, f, blocks, entries, e, gs)
    requires Along(nodes, f, blocks, entries, e, p, b, st) && Link(b, |blocks|)
    ensures Stepped(nodes, f, blocks, b, st, Go(HirMachine(nodes, f, n, w, prog), nodes, blocks, b, Live(st)))
  {
    forall x | x in BlockUses(nodes, f, blocks[b]) ensures x in st.vars { assert ReadAt(nodes, f, blocks, p[|p| - 1], x); }
    if CallsIn(nodes, f, blocks[b]) { forall x | x in gs ensures x in st.vars { assert SetBefore(nodes, f, blocks, e, p, x); } }
    GoSafe(nodes, f, n, w, prog, blocks, exit, gs, b, st);
  }

  lemma {:induction false} ConditionSafe(nodes: seq<Node>, f: Forest, n: nat, w: World, prog: Forest, k: Block, gs: set<string>, st: State)
    requires Tame(w) && CallsSafe(n, w, prog, gs) && Link(k.condition, |nodes|)
    requires BlockUses(nodes, f, k) <= st.vars.Keys && (CallsIn(nodes, f, k) ==> gs <= st.vars.Keys)
    ensures var t := Decide(HirMachine(nodes, f, n, w, prog), k.condition, nodes[k.condition].op, Live(st));
      match t
      case Test(_, c) => c.Live? && st.vars.Keys <= c.st.vars.Keys
      case Fail(c) => c.Dead? && (c.o.Trap? ==> !c.o.why.Unset?)
  {
    SafeNode(n, w, prog, nodes[k.condition].op, HirValidate.KidsOf(f, k.condition), gs, st);
  }

  lemma {:induction false} InstructionSafe(nodes: seq<Node>, f: Forest, n: nat, w: World, prog: Forest, k: Block, gs: set<string>, st: State)
    requires Tame(w) && CallsSafe(n, w, prog, gs) && Link(k.instruction, |nodes|) && SimpleBlock(nodes, k)
    requires CanonicalNode(nodes[k.instruction].op, HirValidate.KidsOf(f, k.instruction))
    requires BlockUses(nodes, f, k) <= st.vars.Keys && (CallsIn(nodes, f, k) ==> gs <= st.vars.Keys)
    ensures var r := HirMachine(nodes, f, n, w, prog).stmt(k.instruction, Live(st));
      match r
      case Next(c) => c.Gave? || (c.Live? && st.vars.Keys + BlockDefs(nodes, f, k) <= c.st.vars.Keys)
      case Halt(c) => c.Dead? && (c.o.Trap? ==> !c.o.why.Unset?)
  {
    SafeStatement(n, w, prog, nodes[k.instruction].op, HirValidate.KidsOf(f, k.instruction), gs, st);
  }

  lemma {:induction false} WalkSafe(k: nat, nodes: seq<Node>, f: Forest, n: nat, w: World, prog: Forest, blocks: seq<Block>, entries: seq<int>, exit: int, e: nat,
      gs: set<string>, p: seq<int>, b: int, st: State)
    requires Fitting(nodes, f, blocks, exit) && Tame(w) && CallsSafe(n, w, prog, gs)
    requires PathsAssigned(nodes, f, blocks, entries) && CallsCovered(nodes, f, blocks, entries, e, gs)
    requires Along(nodes, f, blocks, entries, e, p, b, st)
    ensures NoUnset(Walk(k, HirMachine(nodes, f, n, w, prog), nodes, blocks, b, Live(st)))
    decreases k
  {
    if k > 0 && Link(b, |blocks|) {
      StepSafe(nodes, f, n, w, prog, blocks, entries, exit, e, gs, p, b, st);
      var g := Go(HirMachine(nodes, f, n, w, prog), nodes, blocks, b, Live(st));
      if g.At? {
        if g.s.Live? {
          AlongStep(nodes, f, blocks, entries, e, p, b, st, g.block, g.s.st);
          WalkSafe(k - 1, nodes, f, n, w, prog, blocks, entries, exit, e, gs, p + [g.block], g.block, g.s.st);
        } else {
          GaveWalks(k - 1, nodes, f, n, w, prog, blocks, g.block, g.s);
        }
      }
    }
  }

  // ---- Runs ----

  lemma {:induction false} GraphFits(nodes: seq<Node>, root: nat, f: Forest, g: Graph)
    requires HirValidate.IsTree(nodes, root, f) && GraphOf(nodes, f, g) && Canonical(f)
    ensures Fitting(nodes, f, g.blocks, g.exit)
  {
    var numbers :| Built(nodes, Roots(nodes, f, |nodes|), g.blocks, g.entries, g.exit, numbers);
    BuiltRefers(nodes, Roots(nodes, f, |nodes|), g.blocks, g.entries, g.exit, numbers);
    BuiltSimple(nodes, Roots(nodes, f, |nodes|), g.blocks, g.entries, g.exit, numbers);
    forall i: nat | i < |nodes| ensures CanonicalNode(nodes[i].op, HirValidate.KidsOf(f, i)) { NodeCanonical(nodes, root, f, i); }
  }

  /** What counts as set on entry is set. */
  predicate Seeded(nodes: seq<Node>, f: Forest, e: nat, st: State)
    requires f.Cons?
  {
    SeedOf(nodes, f, e) <= st.vars.Keys
  }

  /** The run does not trap on an unset variable. */
  predicate ReadsSet(n: nat, w: World, prog: Forest, h: Forest, role: Role, st: State) {
    var o := Exec(n, w, prog, h, role, st);
    o.Trap? ==> !o.why.Unset?
  }

  /** A run of the statements at entry `e`, when what is set on entry is set. */
  lemma {:induction false} RootSafe(nodes: seq<Node>, root: nat, f: Forest, g: Graph, e: nat, h: Forest, role: Role, w: World, n: nat, prog: Forest, gs: set<string>, st: State)
    requires HirValidate.IsTree(nodes, root, f) && GraphOf(nodes, f, g) && Canonical(f)
    requires e < |Roots(nodes, f, |nodes|)| && Roots(nodes, f, |nodes|)[e] == (h, role) && InTree(nodes, f, h)
    requires Tame(w) && CallsSafe(n, w, prog, gs)
    requires PathsAssigned(nodes, f, g.blocks, g.entries) && CallsCovered(nodes, f, g.blocks, g.entries, e, gs)
    requires Seeded(nodes, f, e, st)
    ensures ReadsSet(n, w, prog, h, role, st)
  {
    var o, m := Exec(n, w, prog, h, role, st), HirMachine(nodes, f, n, w, prog);
    if o.Trap? {
      EntryCount(nodes, f, g);
      forall k: nat ensures Exact(HirMachine(nodes, f, k, w, prog), nodes, g.blocks, g.entries[e], h, role, Live(st)) {
        GraphExact(HirMachine(nodes, f, k, w, prog), nodes, f, g, e, Live(st));
      }
      RunIsWalk(nodes, f, g.blocks, g.entries[e], h, role, w, prog, st, n);
      var k: nat :| Walk(k, m, nodes, g.blocks, g.entries[e], Live(st)) == Halted(Dead(o));
      GraphFits(nodes, root, f, g);
      EntryAlong(nodes, f, g.blocks, g.entries, e, st);
      WalkSafe(k, nodes, f, n, w, prog, g.blocks, g.entries, g.exit, e, gs, [g.entries[e]], g.entries[e], st);
    }
  }

  lemma {:induction false} EntryAlong(nodes: seq<Node>, f: Forest, blocks: seq<Block>, entries: seq<int>, e: nat, st: State)
    requires f.Cons? && e < |entries| && Seeded(nodes, f, e, st)
    ensures Along(nodes, f, blocks, entries, e, [entries[e]], entries[e], st)
  {
    forall x | SetBefore(nodes, f, blocks, e, [entries[e]], x) ensures x in st.vars { assert x in SeedOf(nodes, f, e); }
  }

  // ---- Functions ----

  /** The node of a function that a call finds. */
  lemma {:induction false} FunctionNode(nodes: seq<Node>, f: Forest, h: Forest, name: string) returns (i: nat)
    requires InTree(nodes, f, h) && FindFunction(h, name).Some?
    ensures FunctionAt(nodes, i)
    ensures HirValidate.KidsOf(f, i) == FindFunction(h, name).value.body && nodes[i].op.params == FindFunction(h, name).value.params
  {
    if h.op.Function? && h.op.fn == name { i := h.idx; } else { i := FunctionNode(nodes, f, h.rest, name); }
  }

  lemma {:induction false} FunctionNumber(nodes: seq<Node>, n: nat, i: nat)
    requires i < n <= |nodes| && nodes[i].op.Function?
    ensures var fns := FunctionNodes(nodes, n);
      |fns| == FunctionsBefore(nodes, n) && FunctionsBefore(nodes, i) < |fns| && fns[FunctionsBefore(nodes, i)] == i
  {
    if i < n - 1 {
      FunctionNumber(nodes, n - 1, i);
    } else {
      FunctionCount(nodes, i);
    }
  }

  lemma {:induction false} FunctionCount(nodes: seq<Node>, n: nat)
    requires n <= |nodes|
    ensures |FunctionNodes(nodes, n)| == FunctionsBefore(nodes, n)
  {
    if n > 0 { FunctionCount(nodes, n - 1); }
  }

  /** `g` is `f` from some sibling on. */
  predicate SiblingOf(f: Forest, g: Forest) {
    f.Cons? && g.Cons? && (f == g || SiblingOf(f.rest, g))
  }

  predicate Initialises(g: Forest, x: string) {
    g.Cons? && g.role == Statement && g.op == Decl(x) && Child(g.kids, Value).Cons?
  }

  /** The globals that count as set in functions are those that top-level declarations
      initialise. */
  lemma {:induction false} GlobalsSpelled(f: Forest, x: string)
    ensures x in Globals(f) <==> exists g :: SiblingOf(f, g) && Initialises(g, x)
  {
    if f.Cons? {
      GlobalsSpelled(f.rest, x);
      if x in Globals(f) {
        if Initialises(f, x) {
          assert SiblingOf(f, f);
        } else {
          var g :| SiblingOf(f.rest, g) && Initialises(g, x);
          assert SiblingOf(f, g);
        }
      }
    }
  }

  /** Nothing is set when the program starts. */
  lemma ProgramSeed(nodes: seq<Node>, f: Forest)
    requires f.Cons?
    ensures SeedOf(nodes, f, 0) == {}
  {
  }

  /** What is set when a function starts: the program's initialised globals and its parameters. */
  lemma {:induction false} FunctionSeed(nodes: seq<Node>, f: Forest, i: nat)
    requires f.Cons? && FunctionAt(nodes, i)
    ensures SeedOf(nodes, f, 1 + FunctionsBefore(nodes, i)) == Globals(f.kids) + Elements(nodes[i].op.params)
  {
    FunctionNumber(nodes, |nodes|, i);
  }

  lemma {:induction false} InvokeSafe(m: nat, n: nat, w: World, prog: Forest, gs: set<string>, name: string, vs: seq<Value>, st: State, params: seq<string>, body: Forest)
    requires n == m + 1 && Tame(w) && FindFunction(prog, name) == Some(Routine(params, body))
    requires ReadsSet(m, w, prog, body, Body, w.enter(name, params, vs, st))
    ensures CallSafe(n, w, prog, gs, name, vs, st)
  {
  }

  lemma {:induction false} OtherInvokeSafe(n: nat, w: World, prog: Forest, gs: set<string>, name: string, vs: seq<Value>, st: State)
    requires Tame(w) && (w.builtin(name) || FindFunction(prog, name).None? || n == 0)
    ensures CallSafe(n, w, prog, gs, name, vs, st)
  {
  }

  /** What is set when function `i` starts. */
  lemma {:induction false} EnteredSet(nodes: seq<Node>, f: Forest, i: nat, e: nat, w: World, name: string, vs: seq<Value>, st: State, st1: State)
    requires f.Cons? && FunctionAt(nodes, i) && e == 1 + FunctionsBefore(nodes, i) && Tame(w) && Globals(f.kids) <= st.vars.Keys
    requires st1 == w.enter(name, nodes[i].op.params, vs, st)
    ensures Seeded(nodes, f, e, st1)
  {
    FunctionSeed(nodes, f, i);
    var params := nodes[i].op.params;
    forall x | x in Globals(f.kids) + Elements(params) ensures x in st1.vars { assert x in st.vars || x in params; }
  }

  lemma {:induction false} RootAt(nodes: seq<Node>, f: Forest, i: nat)
    requires f.Cons? && FunctionAt(nodes, i)
    ensures var k := 1 + FunctionsBefore(nodes, i); var roots := Roots(nodes, f, |nodes|);
      k < |roots| && roots[k] == (HirValidate.KidsOf(f, i), Body)
  {
    RootsSpelled(nodes, f, |nodes|);
  }

  lemma {:induction false} KidsInside(nodes: seq<Node>, root: nat, f: Forest, i: nat)
    requires HirValidate.IsTree(nodes, root, f) && i < |nodes|
    ensures InTree(nodes, f, HirValidate.KidsOf(f, i))
  {
    TreeInside(nodes, root, f);
  }

  lemma {:induction false} BodySafe(nodes: seq<Node>, root: nat, f: Forest, g: Graph, i: nat, e: nat, w: World, n: nat, st: State)
    requires HirValidate.IsTree(nodes, root, f) && GraphOf(nodes, f, g) && Canonical(f) && Tame(w) && FunctionAt(nodes, i)
    requires PathsAssigned(nodes, f, g.blocks, g.entries) && CallsSafe(n, w, f.kids, Globals(f.kids))
    requires e == 1 + FunctionsBefore(nodes, i) && Seeded(nodes, f, e, st)
    ensures ReadsSet(n, w, f.kids, HirValidate.KidsOf(f, i), Body, st)
  {
    KidsInside(nodes, root, f, i);
    RootAt(nodes, f, i);
    FunctionCovered(nodes, f, g.blocks, g.entries, i);
    RootSafe(nodes, root, f, g, e, HirValidate.KidsOf(f, i), Body, w, n, f.kids, Globals(f.kids), st);
  }

  /** In a function the globals are set from the start. */
  lemma {:induction false} FunctionCovered(nodes: seq<Node>, f: Forest, blocks: seq<Block>, entries: seq<int>, i: nat)
    requires f.Cons? && FunctionAt(nodes, i)
    ensures CallsCovered(nodes, f, blocks, entries, 1 + FunctionsBefore(nodes, i), Globals(f.kids))
  {
    FunctionSeed(nodes, f, i);
  }

  lemma {:induction false} CalleeSafe(nodes: seq<Node>, root: nat, f: Forest, g: Graph, i: nat, e: nat, w: World, m: nat, n: nat,
      name: string, params: seq<string>, body: Forest, vs: seq<Value>, st: State, st1: State)
    requires HirValidate.IsTree(nodes, root, f) && GraphOf(nodes, f, g) && Canonical(f) && Tame(w)
    requires PathsAssigned(nodes, f, g.blocks, g.entries) && CallsSafe(m, w, f.kids, Globals(f.kids))
    requires n == m + 1 && FunctionAt(nodes, i) && e == 1 + FunctionsBefore(nodes, i) && nodes[i].op.params == params && HirValidate.KidsOf(f, i) == body
    requires FindFunction(f.kids, name) == Some(Routine(params, body)) && Globals(f.kids) <= st.vars.Keys && st1 == w.enter(name, params, vs, st)
    ensures CallSafe(n, w, f.kids, Globals(f.kids), name, vs, st)
  {
    EnteredSet(nodes, f, i, e, w, name, vs, st, st1);
    BodySafe(nodes, root, f, g, i, e, w, m, st1);
    InvokeSafe(m, n, w, f.kids, Globals(f.kids), name, vs, st, params, body);
  }

  lemma {:induction false} OneCallSafe(nodes: seq<Node>, root: nat, f: Forest, g: Graph, w: World, m: nat, n: nat, name: string, vs: seq<Value>, st: State)
    requires HirValidate.IsTree(nodes, root, f) && GraphOf(nodes, f, g) && Canonical(f) && Tame(w)
    requires PathsAssigned(nodes, f, g.blocks, g.entries)
    requires n == 0 || (n == m + 1 && CallsSafe(m, w, f.kids, Globals(f.kids)))
    ensures CallSafe(n, w, f.kids, Globals(f.kids), name, vs, st)
  {
    if Globals(f.kids) <= st.vars.Keys && !w.builtin(name) && FindFunction(f.kids, name).Some? && n > 0 {
      TreeInside(nodes, root, f);
      var i := FunctionNode(nodes, f, f.kids, name);
      var params := nodes[i].op.params;
      CalleeSafe(nodes, root, f, g, i, 1 + FunctionsBefore(nodes, i), w, m, n, name, params, HirValidate.KidsOf(f, i), vs, st, w.enter(name, params, vs, st));
    } else if Globals(f.kids) <= st.vars.Keys {
      OtherInvokeSafe(n, w, f.kids, Globals(f.kids), name, vs, st);
    }
  }

  /** While the initialised globals are set, no call reads an unset variable. */
  lemma {:induction false} AllCallsSafe(nodes: seq<Node>, root: nat, f: Forest, g: Graph, w: World, n: nat)
    requires HirValidate.IsTree(nodes, root, f) && GraphOf(nodes, f, g) && Canonical(f) && Tame(w)
    requires PathsAssigned(nodes, f, g.blocks, g.entries)
    ensures CallsSafe(n, w, f.kids, Globals(f.kids))
    decreases n
  {
    var m := if n > 0 then n - 1 else 0;
    if n > 0 { AllCallsSafe(nodes, root, f, g, w, m); }
    MoreCallsSafe(nodes, root, f, g, w, m, n);
  }

  lemma {:induction false} MoreCallsSafe(nodes: seq<Node>, root: nat, f: Forest, g: Graph, w: World, m: nat, n: nat)
    requires HirValidate.IsTree(nodes, root, f) && GraphOf(nodes, f, g) && Canonical(f) && Tame(w)
    requires PathsAssigned(nodes, f, g.blocks, g.entries)
    requires n == 0 || (n == m + 1 && CallsSafe(m, w, f.kids, Globals(f.kids)))
    ensures CallsSafe(n, w, f.kids, Globals(f.kids))
  {
    forall name, vs, st ensures CallSafe(n, w, f.kids, Globals(f.kids), name, vs, st) {
      OneCallSafe(nodes, root, f, g, w, m, n, name, vs, st);
    }
  }

  /** A program that the check accepts, and that calls functions only where its initialised
      globals have been set, reads no unset variable: neither its own statements nor any
      function that is called, in any world that unsets nothing. */
  lemma {:induction false} AcceptedReadsSet(nodes: seq<Node>, root: nat, f: Forest, g: Graph, w: World, n: nat, st: State)
    requires HirValidate.IsTree(nodes, root, f) && GraphOf(nodes, f, g) && Canonical(f) && Tame(w)
    requires PathsAssigned(nodes, f, g.blocks, g.entries)
    requires CallsCovered(nodes, f, g.blocks, g.entries, 0, Globals(f.kids))
    ensures ReadsSet(n, w, f.kids, f.kids, Statement, st)
    ensures forall st1, x :: Run(n, w, f.kids, st) != Trap(st1, Unset(x))
  {
    AllCallsSafe(nodes, root, f, g, w, n);
    TreeInside(nodes, root, f);
    RootsSpelled(nodes, f, |nodes|);
    assert SeedOf(nodes, f, 0) == {} && Seeded(nodes, f, 0, st);
    RootSafe(nodes, root, f, g, 0, f.kids, Statement, w, n, f.kids, Globals(f.kids), st);
  }
}
