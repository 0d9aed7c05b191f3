/** When the exit of a graph is reachable, said of the program: literal conditions decide,
    other conditions may go either way. */
module CfgMayEnd {
  import opened Options
  import opened Hir
  import opened HirSemantics
  import HirValidate
  import opened Cfg
  import opened CfgSimulation
  import opened CfgGraph

  /** The ways in which the statements of a sequence may end. */
  function SeqMay(f: Forest, role: Role): set<Way>
    decreases f, 0
  {
    if f.Nil? then {On}
    else if f.role != role then SeqMay(f.rest, role)
    else
      var head := StmtMay(f.op, f.kids);
      if On in head then (head - {On}) + SeqMay(f.rest, role) else head
  }

  function StmtMay(op: Op, kids: Forest): set<Way>
    decreases kids, 1
  {
    match op
    case Program => SeqMay(kids, Statement)
    case If =>
      (match LiteralOf(kids)
       case Some(b) => SeqMay(kids, if b then Then else Else)
       case None => SeqMay(kids, Then) + SeqMay(kids, Else))
    case While => LoopMay(LiteralOf(kids), SeqMay(kids, Body))
    case Return => {Returning}
    case Break => {Broken}
    case Continue => {Continuing}
    case _ => {On}
  }

  /** The condition, if it is a literal. */
  function LiteralOf(kids: Forest): Option<bool> {
    var c := Child(kids, Condition);
    if c.Cons? && c.op.Boolean? then Some(c.op.b) else None
  }

  function LoopMay(literal: Option<bool>, body: set<Way>): set<Way> {
    if literal == Some(false) then {On}
    else (if literal.None? || Broken in body then {On} else {}) + (if Returning in body then {Returning} else {})
  }

  /** A root sequence may come to its end or to a `return`. */
  predicate MayEnd(f: Forest, role: Role) {
    On in SeqMay(f, role) || Returning in SeqMay(f, role)
  }

  // ---- Runs end in ways that may be ----

  lemma {:induction false} SeqEndsMay<S>(n: nat, m: Machine<S>, f: Forest, role: Role, s: S)
    ensures var r := RunSeq(n, m, f, role, s); r.Ends? ==> r.way in SeqMay(f, role)
    decreases n, f, 0
  {
    if f.Cons? {
      if f.role != role {
        SeqEndsMay(n, m, f.rest, role, s);
      } else {
        StmtEndsMay(n, m, f.idx, f.op, f.kids, s);
        var r := RunStmt(n, m, f.idx, f.op, f.kids, s);
        if r.Ends? && r.way.On? { SeqEndsMay(n, m, f.rest, role, r.s); }
      }
    }
  }

  lemma {:induction false} StmtEndsMay<S>(n: nat, m: Machine<S>, idx: nat, op: Op, kids: Forest, s: S)
    ensures var r := RunStmt(n, m, idx, op, kids, s); r.Ends? ==> r.way in StmtMay(op, kids)
    decreases n, kids, 2
  {
    match op
    case Program => SeqEndsMay(n, m, kids, Statement, s);
    case If =>
      var t := TestOf(m, kids, s);
      if t.Test? { SeqEndsMay(n, m, kids, if t.b then Then else Else, t.s); }
    case While => LoopEndsMay(n, m, kids, s);
    case _ =>
  }

  lemma {:induction false} LoopEndsMay<S>(n: nat, m: Machine<S>, kids: Forest, s: S)
    ensures var r := RunLoop(n, m, kids, s); r.Ends? ==> r.way in LoopMay(LiteralOf(kids), SeqMay(kids, Body))
    decreases n, kids, 1
  {
    var t := TestOf(m, kids, s);
    if t.Test? && t.b && n > 0 {
      SeqEndsMay(n, m, kids, Body, t.s);
      var r := RunSeq(n, m, kids, Body, t.s);
      if r.Ends? { LoopEndsMay(n - 1, m, kids, r.s); }
    }
  }

  // ---- What may be happens for some choices ----

  type Choices = seq<bool>

  /** Statements do nothing; conditions take the next choice. */
  function Chooser(): Machine<Choices> {
    Machine((i, s) => Step.Next(s), (i, s: Choices) => if s == [] then Test.Fail(s) else Test.Test(s[0], s[1..]))
  }

  lemma {:induction false} CountedChild(f: Forest, role: Role)
    requires HirValidate.Count(HirValidate.RolesOf(f), role) > 0
    ensures Child(f, role).Cons?
  {
    if f.Cons? && f.role != role {
      HirValidate.CountFront(HirValidate.RolesOf(f.rest), f.role, role);
      CountedChild(f.rest, role);
    }
  }

  /** These choices, whatever follows them, end the sequence this way; no loop needs more
      than one turn. */
  ghost predicate Leads(f: Forest, role: Role, cs: Choices, way: Way) {
    forall more: Choices :: RunSeq(1, Chooser(), f, role, cs + more) == Ends(way, more)
  }

  ghost predicate StmtLeads(idx: nat, op: Op, kids: Forest, cs: Choices, way: Way) {
    forall more: Choices :: RunStmt(1, Chooser(), idx, op, kids, cs + more) == Ends(way, more)
  }

  lemma {:induction false} SeqChoices(f: Forest, role: Role, way: Way) returns (cs: Choices)
    requires HirValidate.Shaped(f) && way in SeqMay(f, role)
    ensures Leads(f, role, cs, way)
    decreases f, 0
  {
    if f.Nil? {
      cs := [];
      assert forall more: Choices :: cs + more == more;
    } else if f.role != role {
      cs := SeqChoices(f.rest, role, way);
      forall more: Choices ensures RunSeq(1, Chooser(), f, role, cs + more) == Ends(way, more) {
        assert RunSeq(1, Chooser(), f.rest, role, cs + more) == Ends(way, more);
      }
    } else if way != On && way in StmtMay(f.op, f.kids) {
      cs := StmtChoices(f.idx, f.op, f.kids, way);
      forall more: Choices ensures RunSeq(1, Chooser(), f, role, cs + more) == Ends(way, more) {
        assert RunStmt(1, Chooser(), f.idx, f.op, f.kids, cs + more) == Ends(way, more);
      }
    } else {
      var a := StmtChoices(f.idx, f.op, f.kids, On);
      var b := SeqChoices(f.rest, role, way);
      cs := a + b;
      forall more: Choices ensures RunSeq(1, Chooser(), f, role, cs + more) == Ends(way, more) {
        assert cs + more == a + (b + more);
        assert RunStmt(1, Chooser(), f.idx, f.op, f.kids, a + (b + more)) == Ends(On, b + more);
        assert RunSeq(1, Chooser(), f.rest, role, b + more) == Ends(way, more);
      }
    }
  }

  /** The choices that make the condition come out as wanted. */
  function ConditionChoice(kids: Forest, b: bool): Choices {
    if LiteralOf(kids).Some? then [] else [b]
  }

  lemma ConditionTaken(kids: Forest, b: bool, more: Choices)
    requires Child(kids, Condition).Cons? && (LiteralOf(kids).Some? ==> LiteralOf(kids) == Some(b))
    ensures TestOf(Chooser(), kids, ConditionChoice(kids, b) + more) == Test.Test(b, more)
  {
    if LiteralOf(kids).None? { assert ([b] + more)[1..] == more; } else { assert [] + more == more; }
  }

  lemma {:induction false} StmtChoices(idx: nat, op: Op, kids: Forest, way: Way) returns (cs: Choices)
    requires HirValidate.ShapeOk(op, HirValidate.RolesOf(kids)) && HirValidate.Shaped(kids) && way in StmtMay(op, kids)
    ensures StmtLeads(idx, op, kids, cs, way)
    decreases kids, 3
  {
    match op
    case Program =>
      cs := SeqChoices(kids, Statement, way);
      forall more: Choices ensures RunStmt(1, Chooser(), idx, op, kids, cs + more) == Ends(way, more) {
        assert RunSeq(1, Chooser(), kids, Statement, cs + more) == Ends(way, more);
      }
    case If => cs := IfChoices(idx, kids, way);
    case While => cs := LoopChoices(idx, kids, way);
    case _ =>
      cs := [];
      assert forall more: Choices :: cs + more == more;
  }

  lemma {:induction false} IfChoices(idx: nat, kids: Forest, way: Way) returns (cs: Choices)
    requires HirValidate.ShapeOk(If, HirValidate.RolesOf(kids)) && HirValidate.Shaped(kids) && way in StmtMay(If, kids)
    ensures StmtLeads(idx, If, kids, cs, way)
    decreases kids, 2
  {
    CountedChild(kids, Condition);
    var b := if LiteralOf(kids).Some? then LiteralOf(kids).value else way in SeqMay(kids, Then);
    var arm := SeqChoices(kids, if b then Then else Else, way);
    cs := ConditionChoice(kids, b) + arm;
    forall more: Choices ensures RunStmt(1, Chooser(), idx, If, kids, cs + more) == Ends(way, more) {
      assert cs + more == ConditionChoice(kids, b) + (arm + more);
      ConditionTaken(kids, b, arm + more);
      assert RunSeq(1, Chooser(), kids, if b then Then else Else, arm + more) == Ends(way, more);
    }
  }

  lemma {:induction false} LoopChoices(idx: nat, kids: Forest, way: Way) returns (cs: Choices)
    requires HirValidate.ShapeOk(While, HirValidate.RolesOf(kids)) && HirValidate.Shaped(kids) && way in StmtMay(While, kids)
    ensures StmtLeads(idx, While, kids, cs, way)
    decreases kids, 2
  {
    CountedChild(kids, Condition);
    if way == On && LiteralOf(kids) != Some(true) {
      cs := ConditionChoice(kids, false);
      forall more: Choices ensures RunStmt(1, Chooser(), idx, While, kids, cs + more) == Ends(way, more) {
        ConditionTaken(kids, false, more);
      }
    } else {
      var inner := if way == On then Broken else Returning;
      var turn := SeqChoices(kids, Body, inner);
      cs := ConditionChoice(kids, true) + turn;
      forall more: Choices ensures RunStmt(1, Chooser(), idx, While, kids, cs + more) == Ends(way, more) {
        assert cs + more == ConditionChoice(kids, true) + (turn + more);
        ConditionTaken(kids, true, turn + more);
        assert RunSeq(1, Chooser(), kids, Body, turn + more) == Ends(inner, more);
      }
    }
  }

  // ---- Paths and walks ----

  /** Every block but the exit is code over existing nodes. */
  ghost predicate Folded(nodes: seq<Node>, blocks: seq<Block>) {
    && blocks != [] && blocks[0] == ExitBlock
    && (forall i :: 0 < i < |blocks| ==> CodeOk(blocks[i], |nodes|, |blocks|, 0))
    && (forall i :: 0 < i < |blocks| && blocks[i].exit == Branches ==> !nodes[blocks[i].condition].op.Boolean?)
  }

  /** Some choices walk along a path to the exit. */
  lemma {:induction false} PathWalk(nodes: seq<Node>, blocks: seq<Block>, p: seq<int>) returns (k: nat, cs: Choices)
    requires Folded(nodes, blocks) && Path(blocks, p) && p[|p| - 1] == 0 && Link(p[0], |blocks|)
    ensures Walk(k, Chooser(), nodes, blocks, p[0], cs) == Finished([])
    decreases |p|
  {
    if p[0] == 0 {
      k, cs := 1, [];
    } else {
      assert Edge(blocks, p[0], p[1]);
      var b := blocks[p[0]];
      assert CodeOk(b, |nodes|, |blocks|, 0);
      assert Path(blocks, p[1..]) by {
        forall i | 0 <= i < |p[1..]| - 1 ensures Edge(blocks, p[1..][i], p[1..][i + 1]) { assert Edge(blocks, p[i + 1], p[i + 2]); }
      }
      var j, more := PathWalk(nodes, blocks, p[1..]);
      k := j + 1;
      cs := if b.exit == Branches then [p[1] == b.yes] + more else more;
      assert b.exit == Branches ==> cs[1..] == more;
      assert Go(Chooser(), nodes, blocks, p[0], cs) == Config.At(p[1], more);
    }
  }

  /** A walk that finishes goes along a path to the exit. */
  lemma {:induction false} WalkPath(k: nat, nodes: seq<Node>, blocks: seq<Block>, b: int, cs: Choices) returns (p: seq<int>)
    requires Folded(nodes, blocks) && Walk(k, Chooser(), nodes, blocks, b, cs).Finished?
    ensures Path(blocks, p) && p[0] == b && p[|p| - 1] == 0
    decreases k
  {
    p := [b];
    if b != 0 {
      var g := Go(Chooser(), nodes, blocks, b, cs);
      assert CodeOk(blocks[b], |nodes|, |blocks|, 0);
      var q := WalkPath(k - 1, nodes, blocks, g.block, g.s);
      p := [b] + q;
      assert Edge(blocks, b, q[0]) by { NotLost(k - 1, nodes, blocks, g.block, g.s); }
      forall i | 0 <= i < |p| - 1 ensures Edge(blocks, p[i], p[i + 1]) {
        if i > 0 { assert Edge(blocks, q[i - 1], q[i]); }
      }
    }
  }

  lemma NotLost(k: nat, nodes: seq<Node>, blocks: seq<Block>, b: int, cs: Choices)
    requires Walk(k, Chooser(), nodes, blocks, b, cs).Finished?
    ensures b != NO_NODE
  {
  }

  // ---- The exit ----

  ghost predicate AllShaped(roots: seq<(Forest, Role)>) {
    forall j :: 0 <= j < |roots| ==> HirValidate.Shaped(roots[j].0)
  }

  /** Some root may end. */
  predicate SomeMayEnd(roots: seq<(Forest, Role)>) {
    exists j :: 0 <= j < |roots| && MayEnd(roots[j].0, roots[j].1)
  }

  lemma {:induction false} LayoutFolded(nodes: seq<Node>, roots: seq<(Forest, Role)>)
    requires AllStored(nodes, roots) && LayoutOf(roots).Some?
    ensures Folded(nodes, FoldBlocks(nodes, LayoutOf(roots).value.blocks))
  {
    var l := LayoutOf(roots).value;
    var folded := FoldBlocks(nodes, l.blocks);
    LayoutOk(nodes, roots, |l.blocks|);
    forall i | 0 < i < |folded| ensures CodeOk(folded[i], |nodes|, |folded|, 0) { assert l.blocks[i] == l.blocks[1..][i - 1]; }
  }

  lemma RootIsPlaced(nodes: seq<Node>, roots: seq<(Forest, Role)>, j: nat)
    requires AllStored(nodes, roots) && LayoutOf(roots).Some? && j < |roots|
    ensures |LayoutOf(roots).value.entries| == |roots| && LayoutOf(roots[..j]).Some?
    ensures var l := LayoutOf(roots).value;
      RootPlaced(nodes, l.blocks, l.entries[j], roots[j].0, roots[j].1, |LayoutOf(roots[..j]).value.blocks|)
  {
    LayoutEntries(roots);
    LayoutPlaced(roots, j);
  }

  ghost predicate Reaches(nodes: seq<Node>, l: Layout, j: nat)
    requires j < |l.entries|
  {
    exists p :: Path(FoldBlocks(nodes, l.blocks), p) && p[0] == l.entries[j] && p[|p| - 1] == 0
  }

  /** The exit is reached from the entry of a root exactly when the root may end. */
  lemma {:induction false} RootReaches(nodes: seq<Node>, roots: seq<(Forest, Role)>, j: nat)
    requires AllStored(nodes, roots) && AllShaped(roots) && LayoutOf(roots).Some? && j < |roots|
    ensures |LayoutOf(roots).value.entries| == |roots|
    ensures MayEnd(roots[j].0, roots[j].1) <==> Reaches(nodes, LayoutOf(roots).value, j)
  {
    RootIsPlaced(nodes, roots, j);
    if MayEnd(roots[j].0, roots[j].1) { var p := MayReach(nodes, roots, j); }
    var l := LayoutOf(roots).value;
    if Reaches(nodes, l, j) {
      var p :| Path(FoldBlocks(nodes, l.blocks), p) && p[0] == l.entries[j] && p[|p| - 1] == 0;
      ReachMay(nodes, roots, j, p);
    }
  }

  lemma {:induction false} MayReach(nodes: seq<Node>, roots: seq<(Forest, Role)>, j: nat) returns (p: seq<int>)
    requires AllStored(nodes, roots) && AllShaped(roots) && LayoutOf(roots).Some? && j < |roots| && MayEnd(roots[j].0, roots[j].1)
    ensures var l := LayoutOf(roots).value;
      |l.entries| == |roots| && Path(FoldBlocks(nodes, l.blocks), p) && p[0] == l.entries[j] && p[|p| - 1] == 0
  {
    var l, root := LayoutOf(roots).value, roots[j];
    RootIsPlaced(nodes, roots, j);
    LayoutFolded(nodes, roots);
    var way := if On in SeqMay(root.0, root.1) then On else Returning;
    var cs := SeqChoices(root.0, root.1, way);
    assert RunSeq(1, Chooser(), root.0, root.1, cs + []) == Ends(way, []);
    assert cs + [] == cs;
    var k := RootFollows(1, Chooser(), nodes, l.blocks, l.entries[j], root.0, root.1, |LayoutOf(roots[..j]).value.blocks|, cs);
    FoldWalk(k, Chooser(), nodes, l.blocks, l.entries[j], cs);
    p := WalkPath(k, nodes, FoldBlocks(nodes, l.blocks), l.entries[j], cs);
  }

  lemma {:induction false} ReachMay(nodes: seq<Node>, roots: seq<(Forest, Role)>, j: nat, p: seq<int>)
    requires AllStored(nodes, roots) && LayoutOf(roots).Some? && j < |roots| == |LayoutOf(roots).value.entries|
    requires var l := LayoutOf(roots).value; Path(FoldBlocks(nodes, l.blocks), p) && p[0] == l.entries[j] && p[|p| - 1] == 0
    ensures MayEnd(roots[j].0, roots[j].1)
  {
    var l, root := LayoutOf(roots).value, roots[j];
    RootIsPlaced(nodes, roots, j);
    var at := |LayoutOf(roots[..j]).value.blocks|;
    LayoutFolded(nodes, roots);
    LayoutOk(nodes, roots, |l.blocks|);
    var k, cs := PathWalk(nodes, FoldBlocks(nodes, l.blocks), p);
    FoldWalk(k, Chooser(), nodes, l.blocks, l.entries[j], cs);
    WalkRuns(k, k + 1, Chooser(), nodes, l.blocks, l.entries[j], root.0, root.1, at, cs);
    SeqEndsMay(k + 1, Chooser(), root.0, root.1, cs);
    SeqWays(k + 1, Chooser(), root.0, root.1, 0, TopTargets, at, cs);
  }

  /** The exit of the folded graph is reachable exactly when some root may end. */
  lemma {:induction false} ExitExact(nodes: seq<Node>, roots: seq<(Forest, Role)>)
    requires AllStored(nodes, roots) && AllShaped(roots) && LayoutOf(roots).Some?
    ensures var l := LayoutOf(roots).value; Reachable(FoldBlocks(nodes, l.blocks), l.entries, 0) <==> SomeMayEnd(roots)
  {
    var l := LayoutOf(roots).value;
    var folded := FoldBlocks(nodes, l.blocks);
    LayoutEntries(roots);
    if SomeMayEnd(roots) {
      var j :| 0 <= j < |roots| && MayEnd(roots[j].0, roots[j].1);
      RootReaches(nodes, roots, j);
      var p :| Path(folded, p) && p[0] == l.entries[j] && p[|p| - 1] == 0;
    }
    if Reachable(folded, l.entries, 0) {
      var p :| Path(folded, p) && p[0] in l.entries && p[|p| - 1] == 0;
      var j :| 0 <= j < |l.entries| && l.entries[j] == p[0];
      RootReaches(nodes, roots, j);
    }
  }
}
