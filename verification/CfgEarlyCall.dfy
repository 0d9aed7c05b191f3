/** An accepted program that reads an unset global: its initialiser calls a function that
    reads it. */
module CfgEarlyCall {
  import opened Options
  import opened Operators
  import opened Hir
  import opened HirSemantics
  import opened Cfg
  import opened CfgGraph
  import opened CfgBuilder
  import opened CfgBuild
  import opened CfgMayEnd
  import opened CfgEffects
  import opened CfgAssignment
  import opened CfgUses
  import opened CfgUnset
  import HirValidate

  /** `let g = f()  fun f() { print g }` */
  const Early: seq<Node> := [
    Node(Program, Root, 1, 3, NO_NODE, 2),
    Node(Decl("g"), Statement, 2, 2, 3, 1),
    Node(Call("f"), Value, NO_NODE, NO_NODE, NO_NODE, 0),
    Node(Function("f", []), Statement, 4, 4, NO_NODE, 1),
    Node(Print, Body, 5, 5, NO_NODE, 1),
    Node(Variable("g"), Value, NO_NODE, NO_NODE, NO_NODE, 0)]

  const Reading: Forest := Cons(4, Print, Body, Cons(5, Variable("g"), Value, Nil, Nil), Nil)
  const Calling: Forest := Cons(2, Call("f"), Value, Nil, Nil)
  const Statements: Forest := Cons(1, Decl("g"), Statement, Calling, Cons(3, Function("f", []), Statement, Reading, Nil))
  const EarlyTree: Forest := Cons(0, Program, Root, Statements, Nil)

  lemma {:induction false} EarlyStored()
    ensures IsForest(Early, 0, EarlyTree)
  {
    assert IsForest(Early, 5, Reading.kids);
    assert IsForest(Early, 4, Reading);
    assert IsForest(Early, 2, Calling);
    assert IsForest(Early, 3, Statements.rest);
    assert IsForest(Early, 1, Statements);
  }

  lemma {:induction false} EarlyDistinct()
    ensures Distinct(EarlyTree) && Footprint(EarlyTree) == {0, 1, 2, 3, 4, 5}
  {
    assert Footprint(Reading.kids) == {5} && Distinct(Reading.kids);
    assert Footprint(Reading) == {4, 5} && Distinct(Reading);
    assert Footprint(Calling) == {2} && Distinct(Calling);
    assert Footprint(Statements.rest) == {3, 4, 5} && Distinct(Statements.rest);
    assert Footprint(Statements) == {1, 2, 3, 4, 5} && Distinct(Statements);
  }

  lemma {:induction false} EarlyCanonical()
    ensures Canonical(EarlyTree)
  {
    assert Canonical(Reading.kids) && Len(Reading.kids) == 1 && AllRole(Reading.kids, Value);
    assert Canonical(Reading) && AllRole(Reading, Body);
    assert Canonical(Calling) && Len(Calling) == 1 && AllRole(Calling, Value);
    assert Canonical(Statements.rest) && AllRole(Statements.rest, Statement);
    assert Canonical(Statements) && AllRole(Statements, Statement);
  }

  lemma {:induction false} EarlyShaped()
    ensures HirValidate.Shaped(EarlyTree)
  {
    assert HirValidate.RolesOf(Reading.kids) == [Value] && HirValidate.RolesOf(Reading) == [Body] && HirValidate.RolesOf(Calling) == [Value];
    assert HirValidate.RolesOf(Statements.rest) == [Statement];
    assert HirValidate.RolesOf(Statements) == [Statement] + [Statement];
    OneRole(Value, Value);
    OneRole(Body, Body);
    OneRole(Statement, Statement);
    HirValidate.CountFront([Statement], Statement, Statement);
    assert HirValidate.Shaped(Reading.kids) && HirValidate.Shaped(Calling);
    assert HirValidate.Shaped(Reading) && HirValidate.Shaped(Statements.rest);
    assert HirValidate.Shaped(Statements);
  }

  lemma {:induction false} EarlyIsTree()
    ensures HirValidate.IsTree(Early, 0, EarlyTree)
  {
    EarlyStored();
    EarlyDistinct();
    EarlyShaped();
    EarlyCovered();
  }

  lemma EarlyCovered()
    requires Footprint(EarlyTree) == {0, 1, 2, 3, 4, 5}
    ensures forall i: nat :: i < |Early| ==> i in Footprint(EarlyTree)
  {
  }

  lemma {:induction false} EarlyKids()
    ensures HirValidate.KidsOf(EarlyTree, 1) == Calling && HirValidate.KidsOf(EarlyTree, 3) == Reading && HirValidate.KidsOf(EarlyTree, 4) == Reading.kids
  {
    EarlyDistinct();
    assert Footprint(Reading.kids) == {5} && Footprint(Reading) == {4, 5} && Footprint(Calling) == {2};
    assert HirValidate.KidsOf(Statements.rest, 3) == Reading;
    assert HirValidate.KidsOf(Statements.rest, 4) == HirValidate.KidsOf(Reading, 4) == Reading.kids;
  }

  // ---- Its graph ----

  const Setting: Block := Block(1, NO_NODE, 0, NO_NODE, Falls)
  const Showing: Block := Block(4, NO_NODE, 0, NO_NODE, Falls)

  lemma {:induction false} EarlyRoots()
    ensures Roots(Early, EarlyTree, 6) == [(Statements, Statement), (Reading, Body)]
  {
    EarlyKids();
    assert Roots(Early, EarlyTree, 0) == [(Statements, Statement)];
    assert Roots(Early, EarlyTree, 1) == Roots(Early, EarlyTree, 0);
    assert Roots(Early, EarlyTree, 2) == Roots(Early, EarlyTree, 1);
    assert Roots(Early, EarlyTree, 3) == Roots(Early, EarlyTree, 2);
    assert Roots(Early, EarlyTree, 4) == [(Statements, Statement)] + [(Reading, Body)];
    assert Roots(Early, EarlyTree, 5) == Roots(Early, EarlyTree, 4);
  }

  lemma {:induction false} EarlyLayout()
    ensures LayoutOf([(Statements, Statement), (Reading, Body)]) == Some(Layout([ExitBlock, Setting, Showing], [1, 2]))
  {
    EarlyCode();
    var main, body := (Statements, Statement), (Reading, Body);
    LayoutSnoc([], main);
    LayoutSnoc([main], body);
    assert [] + [main] == [main] && [main] + [body] == [main, body];
    var l := Layout([ExitBlock, Setting], [1]);
    assert [ExitBlock] + [Setting] == l.blocks && [] + [1] == l.entries;
    assert AddRoot(Layout([ExitBlock], []), main) == Some(l);
    assert l.blocks + [Showing] == [ExitBlock, Setting, Showing] && l.entries + [2] == [1, 2];
    assert AddRoot(l, body) == Some(Layout([ExitBlock, Setting, Showing], [1, 2]));
  }

  lemma {:induction false} EarlyCode()
    ensures SeqCode(Statements, Statement, 0, TopTargets, 1) == Some(Code([Setting], 1))
    ensures SeqCode(Reading, Body, 0, TopTargets, 2) == Some(Code([Showing], 2))
  {
    assert SeqCode(Nil, Statement, 0, TopTargets, 1) == Some(Code([], 0)) && SeqCode(Nil, Body, 0, TopTargets, 2) == Some(Code([], 0));
    assert [] + [Setting] == [Setting] && [Setting] + [] == [Setting] && [] + [Showing] == [Showing];
    var none: seq<Block> := [];
    assert none + none == none;
    assert StmtCode(3, Function("f", []), Reading, 0, TopTargets, 1) == Some(Code([], 0));
    assert SeqCode(Statements.rest, Statement, 0, TopTargets, 1) == Some(Code(none + none, 0));
    assert StmtCode(1, Decl("g"), Calling, 0, TopTargets, 1) == Some(Code([Setting], 1));
    assert SeqCode(Statements, Statement, 0, TopTargets, 1) == Some(Code([] + [Setting], 1));
    assert StmtCode(4, Print, Reading.kids, 0, TopTargets, 2) == Some(Code([Showing], 2));
    assert SeqCode(Reading, Body, 0, TopTargets, 2) == Some(Code([] + [Showing], 2));
  }

  lemma {:induction false} EarlyUses(k: Block)
    requires k.instruction == NO_NODE || k.instruction == 1 || k.instruction == 4
    requires k.condition == NO_NODE
    ensures BlockUses(Early, EarlyTree, k) == if k.instruction == 4 then {"g"} else {}
  {
    EarlyKids();
    assert ReadsNode(Call("f"), Nil) == {} && ReadsFirst(Calling) == {};
    assert ReadsFirst(Reading.kids) == {"g"};
  }

  lemma {:induction false} EarlySeed()
    ensures "g" in SeedOf(Early, EarlyTree, 1)
  {
    assert Globals(Statements) == {"g"} + Globals(Statements.rest);
  }

  /** The only block that reads anything is the entry of the function. */
  lemma {:induction false} EarlyAssigned(g: Graph)
    requires GraphOf(Early, EarlyTree, g)
    ensures PathsAssigned(Early, EarlyTree, g.blocks, g.entries)
  {
    EarlyRoots();
    EarlyLayout();
    EarlySeed();
    var numbers :| Built(Early, Roots(Early, EarlyTree, 6), g.blocks, g.entries, g.exit, numbers);
    EarlyRenumbered(g.blocks, numbers);
    forall e, p, x | 0 <= e < |g.entries| && Path(g.blocks, p) && p[0] == g.entries[e] && ReadAt(Early, EarlyTree, g.blocks, p[|p| - 1], x)
      ensures SetBefore(Early, EarlyTree, g.blocks, e, p, x)
    {
      EarlyRead(g.blocks, g.entries, numbers, e, p, x);
    }
  }

  /** The blocks of the graph: those of the layout under new numbers. */
  predicate EarlyBlocks(blocks: seq<Block>, numbers: seq<int>) {
    |numbers| == 3 && numbers[0] != numbers[2] && numbers[1] != numbers[2] && forall q :: 0 <= q < |blocks| ==> EarlyBlock(blocks[q], q, numbers)
  }

  predicate EarlyBlock(k: Block, q: int, numbers: seq<int>)
    requires |numbers| == 3
  {
    || (q == numbers[0] && k == ExitBlock)
    || (q == numbers[1] && k == Setting.(yes := numbers[0]))
    || (q == numbers[2] && k == Showing.(yes := numbers[0]))
  }

  lemma {:induction false} EarlyRenumbered(blocks: seq<Block>, numbers: seq<int>)
    requires Renumbered(FoldBlocks(Early, [ExitBlock, Setting, Showing]), [1, 2], blocks, numbers)
    requires Reachable(FoldBlocks(Early, [ExitBlock, Setting, Showing]), [1, 2], 0)
    ensures EarlyBlocks(blocks, numbers)
  {
    var folded := FoldBlocks(Early, [ExitBlock, Setting, Showing]);
    assert folded[0] == ExitBlock && folded[1] == Setting && folded[2] == Showing;
    ReachEntry(folded, [1, 2], 1);
    ReachEntry(folded, [1, 2], 2);
    forall q | 0 <= q < |blocks| ensures EarlyBlock(blocks[q], q, numbers) {
      assert q in numbers;
      var b :| 0 <= b < 3 && numbers[b] == q;
      assert blocks[q] == RenameBlock(numbers, folded[b]);
    }
  }

  lemma PathEnd(blocks: seq<Block>, p: seq<int>)
    requires Path(blocks, p) && |p| > 1
    ensures Edge(blocks, p[|p| - 2], p[|p| - 1])
  {
    assert Edge(blocks, p[|p| - 2], p[|p| - 2 + 1]);
  }

  lemma {:induction false} EarlyRead(blocks: seq<Block>, entries: seq<int>, numbers: seq<int>, e: nat, p: seq<int>, x: string)
    requires EarlyBlocks(blocks, numbers) && |entries| == 2 && entries[0] == numbers[1] && entries[1] == numbers[2]
    requires e < 2 && Path(blocks, p) && p[0] == entries[e] && ReadAt(Early, EarlyTree, blocks, p[|p| - 1], x)
    ensures e == 1 && x == "g"
  {
    EarlyUses(blocks[p[|p| - 1]]);
    if |p| > 1 { PathEnd(blocks, p); }
  }

  // ---- Its run ----

  lemma {:induction false} EarlyRun(n: nat, w: World, st: State)
    requires n > 0 && !w.builtin("f") && "g" !in w.enter("f", [], [], st).vars
    ensures Run(n, w, Statements, st) == Trap(w.enter("f", [], [], st), Unset("g"))
  {
    var st1 := w.enter("f", [], [], st);
    assert EvalNode(n - 1, w, Statements, Variable("g"), Nil, st1) == EvalTrap(st1, Unset("g"));
    assert EvalList(n - 1, w, Statements, Reading.kids, st1) == EvalTrap(st1, Unset("g"));
    assert Exec(n - 1, w, Statements, Reading, Body, st1) == Trap(st1, Unset("g"));
    assert FindFunction(Statements.rest, "f") == Some(Routine([], Reading));
    assert FindFunction(Statements, "f") == Some(Routine([], Reading));
    assert Invoke(n, w, Statements, "f", [], st) == EvalTrap(st1, Unset("g"));
    assert EvalList(n, w, Statements, Nil, st) == Vals([], st);
    assert EvalNode(n, w, Statements, Call("f"), Nil, st) == EvalTrap(st1, Unset("g"));
    assert EvalList(n, w, Statements, Calling, st) == EvalTrap(st1, Unset("g"));
    assert ExecNode(n, w, Statements, Decl("g"), Calling, st) == Trap(st1, Unset("g"));
  }

  /** It is valid, graphs are built for it, the check accepts each of them, and still it traps
      on the unset global in every world that does not set it by itself. */
  lemma {:induction false} EarlyCall(g: Graph, n: nat, w: World, st: State)
    requires n > 0 && !w.builtin("f") && "g" !in w.enter("f", [], [], st).vars
    ensures HirValidate.IsTree(Early, 0, EarlyTree) && Canonical(EarlyTree) && Buildable(Early, EarlyTree)
    ensures GraphOf(Early, EarlyTree, g) ==> PathsAssigned(Early, EarlyTree, g.blocks, g.entries)
    ensures Run(n, w, EarlyTree.kids, st) == Trap(w.enter("f", [], [], st), Unset("g"))
  {
    EarlyIsTree();
    EarlyCanonical();
    EarlyBuildable();
    EarlyRun(n, w, st);
    if GraphOf(Early, EarlyTree, g) { EarlyAssigned(g); }
  }

  lemma {:induction false} EarlyBuildable()
    ensures Buildable(Early, EarlyTree)
  {
    EarlyKids();
    assert JumpsInside(Statements.rest, Statement, false);
    assert JumpsInside(Statements, Statement, false);
    assert JumpsInside(Reading, Body, false);
    forall i: nat | FunctionAt(Early, i) ensures i == 3 { }
    assert SeqMay(Nil, Body) == {On};
    assert StmtMay(Print, Reading.kids) == {On};
    assert On in SeqMay(Reading, Body);
    assert FunctionAt(Early, 3) && MayEnd(HirValidate.KidsOf(EarlyTree, 3), Body);
  }
}
