/** What liveness is for: from a block on, nothing depends on a variable that is not live there. */
module CfgDead {
  import opened Options
  import opened Operators
  import opened Hir
  import opened HirSemantics
  import opened Cfg
  import opened CfgGraph
  import opened CfgBuilder
  import opened CfgBuild
  import opened CfgEffects
  import opened CfgLiveness
  import opened CfgMeaning
  import opened CfgUses
  import opened CfgUnset
  import HirValidate

  /** The states agree on everything that some path from `b` reads before it is set. */
  ghost predicate AgreeAt(nodes: seq<Node>, f: Forest, blocks: seq<Block>, b: int, s: State, t: State) {
    && s.mem == t.mem && s.out == t.out
    && forall x :: ReadLater(nodes, f, blocks, b, x) ==> (x in s.vars <==> x in t.vars) && (x in s.vars && x in t.vars ==> s.vars[x] == t.vars[x])
  }

  /** The same place, value and reason, with the same memory and output. */
  ghost predicate AlikeConf(nodes: seq<Node>, f: Forest, blocks: seq<Block>, b: int, c: Conf, d: Conf) {
    match c
    case Live(s) => d.Live? && AgreeAt(nodes, f, blocks, b, s, d.st)
    case Gave(v, s) => d.Gave? && d.v == v && s.mem == d.st.mem && s.out == d.st.out
    case Dead(Trap(s, why)) => d.Dead? && d.o.Trap? && d.o.why == why && s.mem == d.o.st.mem && s.out == d.o.st.out
    case Dead(o) => d == Dead(o)
  }

  ghost predicate AlikeConfig(nodes: seq<Node>, f: Forest, blocks: seq<Block>, c: Config<Conf>, d: Config<Conf>) {
    match c
    case At(b, s) => d.At? && d.block == b && AlikeConf(nodes, f, blocks, b, s, d.s)
    case Finished(s) => d.Finished? && AlikeConf(nodes, f, blocks, NO_NODE, s, d.s)
    case Halted(s) => d.Halted? && AlikeConf(nodes, f, blocks, NO_NODE, s, d.s)
    case Lost => d.Lost?
  }

  /** Blocks whose statements only evaluate and set variables. */
  ghost predicate PlainBlock(nodes: seq<Node>, f: Forest, k: Block) {
    && (Link(k.instruction, |nodes|) ==> Plain(nodes[k.instruction].op, HirValidate.KidsOf(f, k.instruction)))
    && (Link(k.condition, |nodes|) ==> CallFree(nodes[k.condition].op, HirValidate.KidsOf(f, k.condition)))
  }

  // ---- Paths ----

  lemma {:induction false} ReadNow(nodes: seq<Node>, f: Forest, blocks: seq<Block>, b: int, x: string)
    requires Link(b, |blocks|) && x in BlockUses(nodes, f, blocks[b])
    ensures ReadLater(nodes, f, blocks, b, x)
  {
    assert ReadOn(nodes, f, blocks, [b], x);
  }

  lemma {:induction false} ReadNext(nodes: seq<Node>, f: Forest, blocks: seq<Block>, b: int, b1: int, x: string)
    requires Edge(blocks, b, b1) && ReadLater(nodes, f, blocks, b1, x) && x !in BlockDefs(nodes, f, blocks[b])
    ensures ReadLater(nodes, f, blocks, b, x)
  {
    var p :| ReadOn(nodes, f, blocks, p, x) && p[0] == b1;
    var q := [b] + p;
    forall i | 0 <= i < |q| - 1 ensures Edge(blocks, q[i], q[i + 1]) { if i > 0 { assert Edge(blocks, p[i - 1], p[i - 1 + 1]); } }
    assert Path(blocks, q) && q[|q| - 1] == p[|p| - 1];
    forall i | 0 <= i < |q| - 1 && Link(q[i], |blocks|) ensures x !in BlockDefs(nodes, f, blocks[q[i]]) { if i > 0 { assert q[i] == p[i - 1]; } }
    assert ReadOn(nodes, f, blocks, q, x);
  }

  /** What the block reads, the states agree on. */
  lemma {:induction false} AgreeUses(nodes: seq<Node>, f: Forest, blocks: seq<Block>, b: int, s: State, t: State, r: set<string>)
    requires AgreeAt(nodes, f, blocks, b, s, t) && Link(b, |blocks|) && r <= BlockUses(nodes, f, blocks[b])
    ensures Agree(s, t, r)
  {
    forall x | x in r ensures ReadLater(nodes, f, blocks, b, x) { ReadNow(nodes, f, blocks, b, x); }
  }

  /** After a step that sets the definitions of the block alike, the states agree at the next. */
  lemma {:induction false} AgreeNext(nodes: seq<Node>, f: Forest, blocks: seq<Block>, b: int, b1: int, s: State, t: State, s1: State, t1: State, u: map<string, Value>)
    requires AgreeAt(nodes, f, blocks, b, s, t) && Edge(blocks, b, b1) && u.Keys == BlockDefs(nodes, f, blocks[b])
    requires s1.mem == t1.mem && s1.out == t1.out && s1.vars == s.vars + u && t1.vars == t.vars + u
    ensures AgreeAt(nodes, f, blocks, b1, s1, t1)
  {
    forall x | ReadLater(nodes, f, blocks, b1, x)
      ensures (x in s1.vars <==> x in t1.vars) && (x in s1.vars && x in t1.vars ==> s1.vars[x] == t1.vars[x])
    {
      if x !in u { ReadNext(nodes, f, blocks, b, b1, x); }
    }
  }

  // ---- Steps ----

  lemma {:induction false} ConditionAlike(nodes: seq<Node>, f: Forest, n: nat, w: World, prog: Forest, blocks: seq<Block>, b: int, s: State, t: State)
    requires Blind(w) && Link(b, |blocks|) && Link(blocks[b].condition, |nodes|) && PlainBlock(nodes, f, blocks[b]) && AgreeAt(nodes, f, blocks, b, s, t)
    ensures var i := blocks[b].condition; var m := HirMachine(nodes, f, n, w, prog);
      TestsAlike(Decide(m, i, nodes[i].op, Live(s)), Decide(m, i, nodes[i].op, Live(t)), s, t)
  {
    var i := blocks[b].condition;
    var op, kids := nodes[i].op, HirValidate.KidsOf(f, i);
    AgreeUses(nodes, f, blocks, b, s, t, ReadsNode(op, kids));
    AgreeNode(n, w, prog, op, kids, s, t, ReadsNode(op, kids));
  }

  /** The same answer with only the memory changed, alike, or the same trap. */
  predicate TestsAlike(a: Test<Conf>, b: Test<Conf>, s: State, t: State) {
    match a
    case Test(v, c) => b.Test? && b.b == v && c.Live? && b.s.Live? && c.st == s.(mem := c.st.mem) && b.s.st == t.(mem := c.st.mem)
    case Fail(c) => b.Fail? && c.Dead? && b.s.Dead? && DeadAlike(c.o, b.s.o)
  }

  predicate DeadAlike(a: Outcome, b: Outcome) {
    if a.Trap? then b.Trap? && b.why == a.why && b.st.mem == a.st.mem && b.st.out == a.st.out else b == a
  }

  lemma {:induction false} InstructionAlike(nodes: seq<Node>, f: Forest, n: nat, w: World, prog: Forest, blocks: seq<Block>, b: int, s: State, t: State)
    requires Blind(w) && Link(b, |blocks|) && Link(blocks[b].instruction, |nodes|) && PlainBlock(nodes, f, blocks[b]) && AgreeAt(nodes, f, blocks, b, s, t)
    requires SimpleBlock(nodes, blocks[b]) && CanonicalNode(nodes[blocks[b].instruction].op, HirValidate.KidsOf(f, blocks[b].instruction))
    ensures var i := blocks[b].instruction; var m := HirMachine(nodes, f, n, w, prog);
      StepsAlike(m.stmt(i, Live(s)), m.stmt(i, Live(t)), s, t, BlockDefs(nodes, f, blocks[b]))
  {
    var i := blocks[b].instruction;
    var op, kids := nodes[i].op, HirValidate.KidsOf(f, i);
    AgreeUses(nodes, f, blocks, b, s, t, StmtUses(op, kids));
    StatementExact(n, w, prog, op, kids, s, t);
  }

  ghost predicate StepsAlike(a: Step<Conf>, b: Step<Conf>, s: State, t: State, d: set<string>) {
    match a
    case Next(c) =>
      && b.Next? && (c.Live? ==> b.s.Live? && SetAlike(s, t, c.st, b.s.st, d))
      && (c.Gave? ==> b.s.Gave? && b.s.v == c.v && b.s.st.mem == c.st.mem && b.s.st.out == c.st.out) && !c.Dead?
    case Halt(c) => b.Halt? && c.Dead? && b.s.Dead? && DeadAlike(c.o, b.s.o)
  }

  ghost predicate SetAlike(s: State, t: State, s1: State, t1: State, d: set<string>) {
    s1.mem == t1.mem && s1.out == t1.out && exists u: map<string, Value> :: u.Keys == d && s1.vars == s.vars + u && t1.vars == t.vars + u
  }

  lemma {:induction false} GoAlike(nodes: seq<Node>, f: Forest, n: nat, w: World, prog: Forest, blocks: seq<Block>, exit: int, b: int, s: State, t: State)
    requires Fitting(nodes, f, blocks, exit) && Blind(w) && AllPlain(nodes, f, blocks) && AgreeAt(nodes, f, blocks, b, s, t)
    ensures var m := HirMachine(nodes, f, n, w, prog);
      AlikeConfig(nodes, f, blocks, Go(m, nodes, blocks, b, Live(s)), Go(m, nodes, blocks, b, Live(t)))
  {
    if Link(b, |blocks|) {
      var k, m := blocks[b], HirMachine(nodes, f, n, w, prog);
      assert BlockOk(k, b, |blocks|, exit) && Refers(k, |nodes|) && SimpleBlock(nodes, k) && PlainBlock(nodes, f, k);
      if k.exit == Branches {
        ConditionAlike(nodes, f, n, w, prog, blocks, b, s, t);
        var a, c := Decide(m, k.condition, nodes[k.condition].op, Live(s)), Decide(m, k.condition, nodes[k.condition].op, Live(t));
        if a.Test? { TestedNext(nodes, f, blocks, b, if a.b then k.yes else k.no, s, t, a.s.st, c.s.st); }
      } else if k.exit != Exits && k.instruction >= 0 {
        InstructionAlike(nodes, f, n, w, prog, blocks, b, s, t);
        var a, c := m.stmt(k.instruction, Live(s)), m.stmt(k.instruction, Live(t));
        if a.Next? && a.s.Live? { SteppedNext(nodes, f, blocks, b, k.yes, s, t, a.s.st, c.s.st); }
      } else if k.exit != Exits {
        TestedNext(nodes, f, blocks, b, k.yes, s, t, s, t);
      }
      AgreeNowhere(nodes, f, blocks, s, t);
    }
  }

  /** No block, nothing read. */
  lemma {:induction false} AgreeNowhere(nodes: seq<Node>, f: Forest, blocks: seq<Block>, s: State, t: State)
    requires s.mem == t.mem && s.out == t.out
    ensures AgreeAt(nodes, f, blocks, NO_NODE, s, t)
  {
    forall x ensures !ReadLater(nodes, f, blocks, NO_NODE, x) {
      if p :| ReadOn(nodes, f, blocks, p, x) && p[0] == NO_NODE {
        if |p| > 1 { assert Edge(blocks, p[0], p[0 + 1]); }
      }
    }
  }


  lemma {:induction false} TestedNext(nodes: seq<Node>, f: Forest, blocks: seq<Block>, b: int, b1: int, s: State, t: State, s1: State, t1: State)
    requires AgreeAt(nodes, f, blocks, b, s, t) && Edge(blocks, b, b1) && BlockDefs(nodes, f, blocks[b]) == {}
    requires s1 == s.(mem := s1.mem) && t1 == t.(mem := s1.mem)
    ensures AgreeAt(nodes, f, blocks, b1, s1, t1)
  {
    var u: map<string, Value> := map[];
    assert s.vars == s.vars + u && t.vars == t.vars + u;
    AgreeNext(nodes, f, blocks, b, b1, s, t, s1, t1, u);
  }

  lemma {:induction false} SteppedNext(nodes: seq<Node>, f: Forest, blocks: seq<Block>, b: int, b1: int, s: State, t: State, s1: State, t1: State)
    requires AgreeAt(nodes, f, blocks, b, s, t) && Edge(blocks, b, b1) && SetAlike(s, t, s1, t1, BlockDefs(nodes, f, blocks[b]))
    ensures AgreeAt(nodes, f, blocks, b1, s1, t1)
  {
    var u: map<string, Value> :| u.Keys == BlockDefs(nodes, f, blocks[b]) && s1.vars == s.vars + u && t1.vars == t.vars + u;
    AgreeNext(nodes, f, blocks, b, b1, s, t, s1, t1, u);
  }

  // ---- Walks ----

  ghost predicate AllPlain(nodes: seq<Node>, f: Forest, blocks: seq<Block>) {
    forall i :: 0 <= i < |blocks| ==> PlainBlock(nodes, f, blocks[i])
  }

  /** Having returned, a walk only goes on to the exit. */
  lemma {:induction false} GaveAlike(k: nat, nodes: seq<Node>, f: Forest, n: nat, w: World, prog: Forest, blocks: seq<Block>, b: int, c: Conf, d: Conf)
    requires c.Gave? && d.Gave? && d.v == c.v && c.st.mem == d.st.mem && c.st.out == d.st.out
    ensures var m := HirMachine(nodes, f, n, w, prog);
      AlikeConfig(nodes, f, blocks, Walk(k, m, nodes, blocks, b, c), Walk(k, m, nodes, blocks, b, d))
  {
    if k > 0 {
      var g := Go(HirMachine(nodes, f, n, w, prog), nodes, blocks, b, c);
      if g.At? { GaveAlike(k - 1, nodes, f, n, w, prog, blocks, g.block, c, d); }
    }
  }

  lemma {:induction false} WalkAlike(k: nat, nodes: seq<Node>, f: Forest, n: nat, w: World, prog: Forest, blocks: seq<Block>, exit: int, b: int, s: State, t: State)
    requires Fitting(nodes, f, blocks, exit) && Blind(w) && AllPlain(nodes, f, blocks) && AgreeAt(nodes, f, blocks, b, s, t)
    ensures var m := HirMachine(nodes, f, n, w, prog);
      AlikeConfig(nodes, f, blocks, Walk(k, m, nodes, blocks, b, Live(s)), Walk(k, m, nodes, blocks, b, Live(t)))
    decreases k
  {
    if k > 0 {
      var m := HirMachine(nodes, f, n, w, prog);
      GoAlike(nodes, f, n, w, prog, blocks, exit, b, s, t);
      var g, h := Go(m, nodes, blocks, b, Live(s)), Go(m, nodes, blocks, b, Live(t));
      if g.At? {
        if g.s.Live? {
          WalkAlike(k - 1, nodes, f, n, w, prog, blocks, exit, g.block, g.s.st, h.s.st);
        } else {
          GoneOn(nodes, f, n, w, prog, blocks, b, s);
          GaveAlike(k - 1, nodes, f, n, w, prog, blocks, g.block, g.s, h.s);
        }
      }
    }
  }

  /** A step that goes on has not trapped. */
  lemma {:induction false} GoneOn(nodes: seq<Node>, f: Forest, n: nat, w: World, prog: Forest, blocks: seq<Block>, b: int, s: State)
    ensures var g := Go(HirMachine(nodes, f, n, w, prog), nodes, blocks, b, Live(s)); g.At? ==> !g.s.Dead?
  {
  }

  /** In a graph of plain statements, a variable that is not live at block `b` can be changed or
      unset there: a walk goes on alike, through the same blocks to the same end, with the same
      output, the same returned value and the same traps. */
  lemma {:induction false} DeadUnread(k: nat, nodes: seq<Node>, root: nat, f: Forest, g: Graph, n: nat, w: World, prog: Forest, b: int, x: string, s: State, t: State)
    requires HirValidate.IsTree(nodes, root, f) && GraphOf(nodes, f, g) && Canonical(f) && Blind(w) && AllPlain(nodes, f, g.blocks)
    requires !ReadLater(nodes, f, g.blocks, b, x) && t.mem == s.mem && t.out == s.out && t.vars - {x} == s.vars - {x}
    ensures var m := HirMachine(nodes, f, n, w, prog);
      AlikeConfig(nodes, f, g.blocks, Walk(k, m, nodes, g.blocks, b, Live(s)), Walk(k, m, nodes, g.blocks, b, Live(t)))
  {
    GraphFits(nodes, root, f, g);
    forall y | ReadLater(nodes, f, g.blocks, b, y)
      ensures (y in s.vars <==> y in t.vars) && (y in s.vars && y in t.vars ==> s.vars[y] == t.vars[y])
    {
      assert (y in s.vars - {x} <==> y in s.vars) && (y in t.vars - {x} <==> y in t.vars);
      if y in s.vars { assert (s.vars - {x})[y] == s.vars[y] && (t.vars - {x})[y] == t.vars[y]; }
    }
    WalkAlike(k, nodes, f, n, w, prog, g.blocks, g.exit, b, s, t);
  }
}
