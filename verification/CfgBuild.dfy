/** Building a whole graph from a program (vnt_cfg_build). */
module CfgBuild {
  import opened Options
  import opened Hir
  import opened HirSemantics
  import opened HirPropagate
  import opened Cfg
  import opened CfgSimulation
  import opened CfgGraph
  import opened CfgBuilder
  import opened CfgPrune
  import opened CfgMayEnd
  import HirValidate
  import HirValidator

  // ---- When code exists ----

  /** `break` and `continue` occur only inside loops. */
  predicate JumpsInside(f: Forest, role: Role, loop: bool)
    decreases f, 0
  {
    f.Cons? ==> (f.role == role ==> JumpsInsideStmt(f.op, f.kids, loop)) && JumpsInside(f.rest, role, loop)
  }

  predicate JumpsInsideStmt(op: Op, kids: Forest, loop: bool)
    decreases kids, 1
  {
    match op
    case Program => JumpsInside(kids, Statement, loop)
    case If => JumpsInside(kids, Then, loop) && JumpsInside(kids, Else, loop)
    case While => JumpsInside(kids, Body, true)
    case Break => loop
    case Continue => loop
    case _ => true
  }

  /** Structured code of a valid tree can be laid out exactly when its jumps are inside loops. */
  lemma {:induction false} SeqCodeExists(f: Forest, role: Role, next: int, t: Targets, loop: bool, n: nat)
    requires HirValidate.Shaped(f) && next != NO_NODE && (loop <==> t.brk != NO_NODE) && (loop <==> t.cont != NO_NODE)
    ensures SeqCode(f, role, next, t, n).Some? <==> JumpsInside(f, role, loop)
    ensures SeqCode(f, role, next, t, n).Some? ==> SeqCode(f, role, next, t, n).value.entry != NO_NODE
    decreases f, 0
  {
    if f.Cons? {
      SeqCodeExists(f.rest, role, next, t, loop, n);
      if f.role == role && SeqCode(f.rest, role, next, t, n).Some? {
        var rest := SeqCode(f.rest, role, next, t, n).value;
        StmtCodeExists(f.idx, f.op, f.kids, rest.entry, t, loop, n + |rest.blocks|);
      }
    }
  }

  lemma {:induction false} StmtCodeExists(idx: nat, op: Op, kids: Forest, next: int, t: Targets, loop: bool, n: nat)
    requires HirValidate.ShapeOk(op, HirValidate.RolesOf(kids)) && HirValidate.Shaped(kids)
    requires next != NO_NODE && (loop <==> t.brk != NO_NODE) && (loop <==> t.cont != NO_NODE)
    ensures StmtCode(idx, op, kids, next, t, n).Some? <==> JumpsInsideStmt(op, kids, loop)
    ensures StmtCode(idx, op, kids, next, t, n).Some? ==> StmtCode(idx, op, kids, next, t, n).value.entry != NO_NODE
    decreases kids, 2
  {
    match op
    case Program => SeqCodeExists(kids, Statement, next, t, loop, n);
    case If =>
      CountedChild(kids, Condition);
      IfCodeExists(kids, next, t, loop, n);
    case While =>
      CountedChild(kids, Condition);
      SeqCodeExists(kids, Body, n, Targets(t.exit, next, n), true, n + 1);
    case _ =>
  }

  lemma {:induction false} IfCodeExists(kids: Forest, next: int, t: Targets, loop: bool, n: nat)
    requires Child(kids, Condition).Cons? && HirValidate.Shaped(kids)
    requires next != NO_NODE && (loop <==> t.brk != NO_NODE) && (loop <==> t.cont != NO_NODE)
    ensures IfCode(kids, next, t, n).Some? <==> JumpsInside(kids, Then, loop) && JumpsInside(kids, Else, loop)
    ensures IfCode(kids, next, t, n).Some? ==> IfCode(kids, next, t, n).value.entry != NO_NODE
    decreases kids, 1
  {
    SeqCodeExists(kids, Then, next, t, loop, n);
    var yes := SeqCode(kids, Then, next, t, n);
    if yes.Some? { SeqCodeExists(kids, Else, next, t, loop, n + |yes.value.blocks|); }
  }

  // ---- The roots of a valid tree ----

  lemma {:induction false} KidsStored(nodes: seq<Node>, at: int, f: Forest, i: nat)
    requires IsForest(nodes, at, f) && i in Footprint(f) && HirValidate.Shaped(f)
    ensures i < |nodes| && IsForest(nodes, nodes[i].first, HirValidate.KidsOf(f, i)) && HirValidate.Shaped(HirValidate.KidsOf(f, i))
    decreases f
  {
    if f.idx != i {
      if i in Footprint(f.kids) { KidsStored(nodes, nodes[at].first, f.kids, i); } else { KidsStored(nodes, nodes[at].next, f.rest, i); }
    }
  }

  ghost predicate AllJumpsInside(roots: seq<(Forest, Role)>) {
    forall j :: 0 <= j < |roots| ==> JumpsInside(roots[j].0, roots[j].1, false)
  }

  lemma {:induction false} LayoutSnoc(roots: seq<(Forest, Role)>, root: (Forest, Role))
    ensures LayoutOf(roots + [root]) == if LayoutOf(roots).None? then None else AddRoot(LayoutOf(roots).value, root)
    ensures LayoutOf([]) == Some(Layout([ExitBlock], []))
  {
    var all := roots + [root];
    assert all[..|all| - 1] == roots && all[|all| - 1] == root;
  }

  /** One more root. */
  lemma {:induction false} RootAdded(roots: seq<(Forest, Role)>, kids: Forest, role: Role)
    requires HirValidate.Shaped(kids) && (LayoutOf(roots).Some? <==> AllJumpsInside(roots))
    ensures LayoutOf(roots + [(kids, role)]).Some? <==> AllJumpsInside(roots + [(kids, role)])
  {
    var all := roots + [(kids, role)];
    LayoutSnoc(roots, (kids, role));
    assert AllJumpsInside(all) <==> AllJumpsInside(roots) && JumpsInside(kids, role, false) by {
      assert all[|roots|] == (kids, role);
      assert forall j :: 0 <= j < |roots| ==> all[j] == roots[j];
    }
    if LayoutOf(roots).Some? { SeqCodeExists(kids, role, 0, TopTargets, false, |LayoutOf(roots).value.blocks|); }
  }

  lemma {:induction false} RootsStored(nodes: seq<Node>, root: nat, f: Forest, i: nat)
    requires HirValidate.IsTree(nodes, root, f) && i <= |nodes|
    ensures Roots(nodes, f, i) != [] && AllStored(nodes, Roots(nodes, f, i)) && AllShaped(Roots(nodes, f, i))
  {
    if i == 0 {
      StoredForest(nodes, nodes[root].first, f.kids);
    } else {
      RootsStored(nodes, root, f, i - 1);
      if nodes[i - 1].op.Function? {
        KidsStored(nodes, root, f, i - 1);
        StoredForest(nodes, nodes[i - 1].first, HirValidate.KidsOf(f, i - 1));
      }
    }
  }

  /** All roots can be laid out exactly when all jumps are inside loops. */
  lemma {:induction false} RootsExist(nodes: seq<Node>, root: nat, f: Forest, i: nat)
    requires HirValidate.IsTree(nodes, root, f) && i <= |nodes|
    ensures LayoutOf(Roots(nodes, f, i)).Some? <==> AllJumpsInside(Roots(nodes, f, i))
  {
    if i == 0 {
      LayoutSnoc([], (f.kids, Statement));
      RootAdded([], f.kids, Statement);
      assert Roots(nodes, f, 0) == [] + [(f.kids, Statement)];
    } else {
      RootsExist(nodes, root, f, i - 1);
      if nodes[i - 1].op.Function? {
        KidsStored(nodes, root, f, i - 1);
        RootAdded(Roots(nodes, f, i - 1), HirValidate.KidsOf(f, i - 1), Body);
      }
    }
  }

  /** Later roots only add to the layout. */
  lemma {:induction false} RootsPrefix(nodes: seq<Node>, f: Forest, i: nat, j: nat)
    requires f.Cons? && i <= j <= |nodes| && LayoutOf(Roots(nodes, f, i)).None?
    ensures LayoutOf(Roots(nodes, f, j)).None?
  {
    if i < j {
      RootsPrefix(nodes, f, i, j - 1);
      var roots := Roots(nodes, f, j);
      if nodes[j - 1].op.Function? { assert roots[..|roots| - 1] == Roots(nodes, f, j - 1); }
    }
  }

  // ---- Folding and validating in place ----

  method FoldGraph(g: Graph, nodes: seq<Node>)
    modifies g`blocks
    ensures g.blocks == FoldBlocks(nodes, old(g.blocks))
  {
    var i := 0;
    while i < |g.blocks|
      invariant 0 <= i <= |g.blocks| == |old(g.blocks)|
      invariant forall j :: 0 <= j < i ==> g.blocks[j] == FoldBlock(nodes, old(g.blocks)[j])
      invariant forall j :: i <= j < |g.blocks| ==> g.blocks[j] == old(g.blocks)[j]
    {
      var k := g.blocks[i];
      if k.exit == Branches && 0 <= k.condition < |nodes| && nodes[k.condition].op.Boolean? {
        var selected := if nodes[k.condition].op.b then k.yes else k.no;
        g.blocks := g.blocks[i := Block(NO_NODE, NO_NODE, selected, NO_NODE, Jumps)];
      }
      i := i + 1;
    }
  }

  method ValidateBlock(k: Block, i: nat, count: nat, exit: int) returns (ok: bool)
    ensures ok <==> BlockOk(k, i, count, exit)
  {
    if k.yes != NO_NODE && !(0 <= k.yes < count) { return false; }
    if k.no != NO_NODE && !(0 <= k.no < count) { return false; }
    match k.exit
    case Branches => ok := !(k.condition == NO_NODE || k.yes == NO_NODE || k.no == NO_NODE || k.instruction != NO_NODE);
    case Exits =>
      ok := !(i != exit || k.instruction != NO_NODE || k.condition != NO_NODE || k.yes != NO_NODE || k.no != NO_NODE);
    case Returns => ok := !(k.instruction == NO_NODE || k.condition != NO_NODE || k.yes != exit || k.no != NO_NODE);
    case Jumps => ok := !(k.condition != NO_NODE || k.yes == NO_NODE || k.no != NO_NODE);
    case Falls => ok := !(k.instruction == NO_NODE || k.condition != NO_NODE || k.yes == NO_NODE || k.no != NO_NODE);
  }

  method ValidateGraph(g: Graph) returns (ok: bool)
    ensures ok <==> GraphOk(g.blocks, g.entries, g.exit)
  {
    if |g.blocks| == 0 || !(0 <= g.exit < |g.blocks|) || |g.entries| == 0 { return false; }
    for i := 0 to |g.entries|
      invariant forall j :: 0 <= j < i ==> Link(g.entries[j], |g.blocks|)
    {
      if !(0 <= g.entries[i] < |g.blocks|) { return false; }
    }
    for i := 0 to |g.blocks|
      invariant forall j :: 0 <= j < i ==> BlockOk(g.blocks[j], j, |g.blocks|, g.exit)
    {
      ok := ValidateBlock(g.blocks[i], i, |g.blocks|, g.exit);
      if !ok { return; }
    }
    ok := true;
  }

  // ---- The whole construction ----

  /** The exit block and the program's own statements. */
  method LayOutMain(g: Graph, nodes: seq<Node>, root: nat, ghost f: Forest) returns (ok: bool)
    requires HirValidate.IsTree(nodes, root, f) && g.blocks == [] && g.entries == [] && !g.failed
    modifies g
    ensures ok <==> LayoutOf(Roots(nodes, f, 0)).Some?
    ensures ok ==> !g.failed && g.exit == 0 && LayoutOf(Roots(nodes, f, 0)) == Some(Layout(g.blocks, g.entries))
  {
    g.exit := g.NewBlock(ExitBlock);
    var main := BuildSequence(g, nodes, root, Statement, g.exit, Targets(g.exit, NO_NODE, NO_NODE), true, f.kids);
    assert Roots(nodes, f, 0) == [] + [(f.kids, Statement)];
    LayoutSnoc([], (f.kids, Statement));
    SeqCodeExists(f.kids, Statement, 0, TopTargets, false, 1);
    ok := !g.failed && main != NO_NODE;
    if ok {
      g.entries := g.entries + [main];
      FirstRoot(nodes, f, g.blocks, main);
    }
  }

  /** The blocks of all roots. */
  method LayOut(g: Graph, nodes: seq<Node>, root: nat, ghost f: Forest) returns (ok: bool)
    requires HirValidate.IsTree(nodes, root, f) && g.blocks == [] && g.entries == [] && !g.failed
    modifies g
    ensures ok <==> LayoutOf(Roots(nodes, f, |nodes|)).Some?
    ensures ok ==> Some(Layout(g.blocks, g.entries)) == LayoutOf(Roots(nodes, f, |nodes|)) && g.exit == 0
  {
    ok := LayOutMain(g, nodes, root, f);
    if !ok {
      RootsPrefix(nodes, f, 0, |nodes|);
      return;
    }
    var i := 0;
    while i < |nodes|
      invariant 0 <= i <= |nodes| && !g.failed && g.exit == 0
      invariant LayoutOf(Roots(nodes, f, i)) == Some(Layout(g.blocks, g.entries))
    {
      if nodes[i].op.Function? {
        ok := LayOutFunction(g, nodes, root, f, i);
        if !ok {
          RootsPrefix(nodes, f, i + 1, |nodes|);
          return false;
        }
      }
      i := i + 1;
    }
    ok := true;
  }

  lemma {:induction false} FirstRoot(nodes: seq<Node>, f: Forest, blocks: seq<Block>, entry: int)
    requires f.Cons? && Appended([ExitBlock], blocks, entry, SeqCode(f.kids, Statement, 0, TopTargets, 1))
    ensures LayoutOf(Roots(nodes, f, 0)) == Some(Layout(blocks, [entry]))
  {
    var root := (f.kids, Statement);
    LayoutSnoc([], root);
    assert LayoutOf([] + [root]) == AddRoot(Layout([ExitBlock], []), root);
    assert AddRoot(Layout([ExitBlock], []), root).value.blocks == blocks;
    assert AddRoot(Layout([ExitBlock], []), root).value.entries == [entry];
    assert Roots(nodes, f, 0) == [] + [root];
    assert LayoutOf(Roots(nodes, f, 0)) == LayoutOf([] + [root]);
  }

  method LayOutFunction(g: Graph, nodes: seq<Node>, ghost root: nat, ghost f: Forest, i: nat) returns (ok: bool)
    requires HirValidate.IsTree(nodes, root, f) && i < |nodes| && nodes[i].op.Function? && !g.failed && g.exit == 0
    requires LayoutOf(Roots(nodes, f, i)) == Some(Layout(g.blocks, g.entries))
    modifies g
    ensures ok <==> LayoutOf(Roots(nodes, f, i + 1)).Some?
    ensures ok ==> LayoutOf(Roots(nodes, f, i + 1)) == Some(Layout(g.blocks, g.entries)) && !g.failed && g.exit == 0
  {
    ghost var kids, roots := HirValidate.KidsOf(f, i), Roots(nodes, f, i + 1);
    KidsStored(nodes, root, f, i);
    assert roots[..|roots| - 1] == Roots(nodes, f, i);
    SeqCodeExists(kids, Body, 0, TopTargets, false, |g.blocks|);
    var entry := BuildSequence(g, nodes, i, Body, g.exit, Targets(g.exit, NO_NODE, NO_NODE), false, kids);
    if g.failed || entry == NO_NODE { return false; }
    g.entries := g.entries + [entry];
    ok := true;
  }

  /** The exit is reached from some entry once constant branches are folded. */
  ghost predicate ExitReachable(nodes: seq<Node>, roots: seq<(Forest, Role)>) {
    LayoutOf(roots).Some? &&
    var l := LayoutOf(roots).value; Reachable(FoldBlocks(nodes, l.blocks), l.entries, 0)
  }

  predicate FunctionAt(nodes: seq<Node>, i: int) {
    0 <= i < |nodes| && nodes[i].op.Function?
  }

  /** Jumps stay inside loops, and the program or some function may end. */
  ghost predicate Buildable(nodes: seq<Node>, f: Forest) {
    && f.Cons?
    && JumpsInside(f.kids, Statement, false)
    && (forall i: nat :: FunctionAt(nodes, i) ==> JumpsInside(HirValidate.KidsOf(f, i), Body, false))
    && (MayEnd(f.kids, Statement) || exists i: nat :: FunctionAt(nodes, i) && MayEnd(HirValidate.KidsOf(f, i), Body))
  }

  /** How many functions come before node `i`. */
  function FunctionsBefore(nodes: seq<Node>, i: nat): nat
    requires i <= |nodes|
  {
    if i == 0 then 0 else FunctionsBefore(nodes, i - 1) + if nodes[i - 1].op.Function? then 1 else 0
  }

  /** The roots, one by one. */
  lemma {:induction false} RootsSpelled(nodes: seq<Node>, f: Forest, n: nat)
    requires f.Cons? && n <= |nodes|
    ensures |Roots(nodes, f, n)| == 1 + FunctionsBefore(nodes, n) && Roots(nodes, f, n)[0] == (f.kids, Statement)
    ensures forall i: nat :: i < n && FunctionAt(nodes, i) ==>
      var k := 1 + FunctionsBefore(nodes, i);
      k < |Roots(nodes, f, n)| && Roots(nodes, f, n)[k] == (HirValidate.KidsOf(f, i), Body)
  {
    if n > 0 { RootsSpelled(nodes, f, n - 1); }
  }

  /** Every root but the first is the body of a function. */
  lemma {:induction false} RootIs(nodes: seq<Node>, f: Forest, n: nat, k: nat) returns (i: nat)
    requires f.Cons? && n <= |nodes| && 0 < k < |Roots(nodes, f, n)|
    ensures i < n && FunctionAt(nodes, i) && Roots(nodes, f, n)[k] == (HirValidate.KidsOf(f, i), Body)
  {
    if k < |Roots(nodes, f, n - 1)| { i := RootIs(nodes, f, n - 1, k); } else { i := n - 1; }
  }

  lemma {:induction false} BuildableRoots(nodes: seq<Node>, f: Forest)
    requires f.Cons?
    ensures Buildable(nodes, f) <==> AllJumpsInside(Roots(nodes, f, |nodes|)) && SomeMayEnd(Roots(nodes, f, |nodes|))
  {
    var roots := Roots(nodes, f, |nodes|);
    RootsSpelled(nodes, f, |nodes|);
    if AllJumpsInside(roots) {
      assert JumpsInside(roots[0].0, roots[0].1, false);
      forall i: nat | FunctionAt(nodes, i) ensures JumpsInside(HirValidate.KidsOf(f, i), Body, false) {
        var k := 1 + FunctionsBefore(nodes, i);
        assert JumpsInside(roots[k].0, roots[k].1, false);
      }
    }
    if Buildable(nodes, f) {
      forall k | 0 <= k < |roots| ensures JumpsInside(roots[k].0, roots[k].1, false) {
        if k > 0 { var i := RootIs(nodes, f, |nodes|, k); }
      }
      if MayEnd(f.kids, Statement) {
        assert MayEnd(roots[0].0, roots[0].1);
      } else {
        var i: nat :| FunctionAt(nodes, i) && MayEnd(HirValidate.KidsOf(f, i), Body);
        var k := 1 + FunctionsBefore(nodes, i);
        assert MayEnd(roots[k].0, roots[k].1);
      }
    }
    if SomeMayEnd(roots) {
      var k :| 0 <= k < |roots| && MayEnd(roots[k].0, roots[k].1);
      if k > 0 { var i := RootIs(nodes, f, |nodes|, k); }
    }
  }

  /** The graph of a program `f` of `nodes`. */
  ghost predicate GraphOf(nodes: seq<Node>, f: Forest, g: Graph)
    reads g
  {
    f.Cons? && GraphOk(g.blocks, g.entries, g.exit) &&
    exists numbers :: Built(nodes, Roots(nodes, f, |nodes|), g.blocks, g.entries, g.exit, numbers)
  }

  /** In every graph of a program, a walk from an entry does exactly what the program's own
      statements, or those of the function, do: on any machine, from any state. */
  lemma {:induction false} GraphExact<S(!new)>(m: Machine<S>, nodes: seq<Node>, f: Forest, g: Graph, j: nat, s: S)
    requires GraphOf(nodes, f, g) && j < |Roots(nodes, f, |nodes|)|
    ensures |g.entries| == |Roots(nodes, f, |nodes|)|
    ensures Exact(m, nodes, g.blocks, g.entries[j], Roots(nodes, f, |nodes|)[j].0, Roots(nodes, f, |nodes|)[j].1, s)
  {
    var roots := Roots(nodes, f, |nodes|);
    var numbers :| Built(nodes, roots, g.blocks, g.entries, g.exit, numbers);
    BuiltExact(m, nodes, roots, g.blocks, g.entries, g.exit, numbers, j, s);
  }

  /** The entries of a graph: first that of the program's own statements, then that of the body
      of each function, in node order. From each, a walk does exactly what those statements do. */
  lemma {:induction false} GraphSpelled<S(!new)>(m: Machine<S>, nodes: seq<Node>, f: Forest, g: Graph, s: S)
    requires GraphOf(nodes, f, g)
    ensures |g.entries| == 1 + FunctionsBefore(nodes, |nodes|)
    ensures Exact(m, nodes, g.blocks, g.entries[0], f.kids, Statement, s)
    ensures forall i: nat :: FunctionAt(nodes, i) ==> FunctionExact(m, nodes, f, g.blocks, g.entries, i, s)
  {
    RootsSpelled(nodes, f, |nodes|);
    GraphExact(m, nodes, f, g, 0, s);
    forall i: nat | FunctionAt(nodes, i) ensures FunctionExact(m, nodes, f, g.blocks, g.entries, i, s) {
      GraphExact(m, nodes, f, g, 1 + FunctionsBefore(nodes, i), s);
    }
  }

  /** The entry of function `i`. */
  ghost predicate FunctionExact<S(!new)>(m: Machine<S>, nodes: seq<Node>, f: Forest, blocks: seq<Block>, entries: seq<int>, i: nat, s: S)
    requires i <= |nodes|
  {
    var k := 1 + FunctionsBefore(nodes, i);
    k < |entries| && Exact(m, nodes, blocks, entries[k], HirValidate.KidsOf(f, i), Body, s)
  }

  /** A graph is built exactly for valid trees whose jumps are inside loops and of which some
      root may end; the final validation never rejects. */
  method BuildGraph(nodes: seq<Node>, root: nat) returns (ok: bool, g: Graph)
    ensures fresh(g)
    ensures ok <==> exists f :: HirValidate.IsTree(nodes, root, f) && Buildable(nodes, f)
    ensures ok ==> exists f :: HirValidate.IsTree(nodes, root, f) && GraphOf(nodes, f, g)
  {
    g := new Graph();
    ok := HirValidator.Validate(nodes, root);
    if !ok { return; }
    ghost var f :| HirValidate.IsTree(nodes, root, f);
    ghost var roots := Roots(nodes, f, |nodes|);
    forall h | HirValidate.IsTree(nodes, root, h) ensures h == f { HirValidate.TreeUnique(nodes, root, h, f); }
    RootsStored(nodes, root, f, |nodes|);
    RootsExist(nodes, root, f, |nodes|);
    BuildableRoots(nodes, f);
    ok := LayOut(g, nodes, root, f);
    if !ok { return; }
    FoldedOk(nodes, roots);
    ExitExact(nodes, roots);
    ok := Finish(g, nodes, roots);
  }

  method Finish(g: Graph, nodes: seq<Node>, ghost roots: seq<(Forest, Role)>) returns (ok: bool)
    requires roots != [] && AllStored(nodes, roots) && LayoutOf(roots) == Some(Layout(g.blocks, g.entries)) && g.exit == 0
    requires GraphOk(FoldBlocks(nodes, g.blocks), g.entries, 0)
    modifies g
    ensures ok <==> ExitReachable(nodes, roots)
    ensures ok ==> GraphOk(g.blocks, g.entries, g.exit) && exists numbers :: Built(nodes, roots, g.blocks, g.entries, g.exit, numbers)
  {
    FoldGraph(g, nodes);
    ghost var folded, entries := g.blocks, g.entries;
    ghost var numbers;
    ok, numbers := Prune(g);
    if ok {
      PrunedOk(folded, entries, 0, g.blocks, g.entries, g.exit, numbers);
      assert Built(nodes, roots, g.blocks, g.entries, g.exit, numbers);
      ok := ValidateGraph(g);
    }
  }

  // ---- A valid program without a graph ----

  /** `while true {}` */
  const Endless: seq<Node> := [
    Node(Program, Root, 1, 1, NO_NODE, 1),
    Node(While, Statement, 2, 2, NO_NODE, 1),
    Node(Boolean(true), Condition, NO_NODE, NO_NODE, NO_NODE, 0)]

  const EndlessTree: Forest :=
    Cons(0, Program, Root, Cons(1, While, Statement, Cons(2, Boolean(true), Condition, Nil, Nil), Nil), Nil)

  /** It is valid, but it never ends, so no graph is built for it. */
  lemma {:induction false} EndlessRejected()
    ensures HirValidate.IsTree(Endless, 0, EndlessTree) && !Buildable(Endless, EndlessTree)
    ensures forall f :: HirValidate.IsTree(Endless, 0, f) ==> !Buildable(Endless, f)
  {
    EndlessIsTree();
    EndlessRoots();
    forall f | HirValidate.IsTree(Endless, 0, f) ensures f == EndlessTree {
      HirValidate.TreeUnique(Endless, 0, f, EndlessTree);
    }
  }

  lemma {:induction false} EndlessIsTree()
    ensures HirValidate.IsTree(Endless, 0, EndlessTree)
  {
    EndlessShaped();
    EndlessNodes();
    assert IsForest(Endless, 2, EndlessTree.kids.kids);
    assert IsForest(Endless, 1, EndlessTree.kids);
  }

  lemma {:induction false} EndlessNodes()
    ensures Distinct(EndlessTree) && Footprint(EndlessTree) == {0, 1, 2}
  {
    assert Footprint(EndlessTree.kids.kids) == {2} && Distinct(EndlessTree.kids.kids);
    assert Footprint(EndlessTree.kids) == {1, 2} && Distinct(EndlessTree.kids);
  }

  lemma {:induction false} EndlessShaped()
    ensures HirValidate.Shaped(EndlessTree)
  {
    var literal := EndlessTree.kids.kids;
    assert HirValidate.RolesOf(literal) == [Condition];
    assert HirValidate.RolesOf(EndlessTree.kids) == [Statement];
    OneRole(Condition, Body);
    OneRole(Statement, Statement);
    assert HirValidate.Shaped(literal) && HirValidate.Shaped(EndlessTree.kids);
  }

  lemma OneRole(role: Role, other: Role)
    ensures HirValidate.Count([role], role) == 1 && (other != role ==> HirValidate.Count([role], other) == 0)
  {
  }

  lemma {:induction false} EndlessRoots()
    ensures Roots(Endless, EndlessTree, 3) == [(EndlessTree.kids, Statement)] && !MayEnd(EndlessTree.kids, Statement)
  {
    assert Roots(Endless, EndlessTree, 1) == Roots(Endless, EndlessTree, 0);
    assert Roots(Endless, EndlessTree, 2) == Roots(Endless, EndlessTree, 1);
    assert SeqMay(EndlessTree.kids.kids, Body) == {On};
    assert LiteralOf(EndlessTree.kids.kids) == Some(true);
    assert StmtMay(While, EndlessTree.kids.kids) == {};
  }
}
