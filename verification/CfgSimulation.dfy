/** The blocks laid out for structured code do exactly what the code does. */
module CfgSimulation {
  import opened Hir
  import opened HirSemantics
  import opened Cfg

  /** The array stores the opcodes of `f`. */
  predicate Stored(nodes: seq<Node>, f: Forest) {
    f.Cons? ==> f.idx < |nodes| && nodes[f.idx].op == f.op && Stored(nodes, f.kids) && Stored(nodes, f.rest)
  }

  lemma {:induction false} StoredForest(nodes: seq<Node>, i: int, f: Forest)
    requires IsForest(nodes, i, f)
    ensures Stored(nodes, f)
    decreases f
  {
    if f.Cons? {
      StoredForest(nodes, nodes[i].first, f.kids);
      StoredForest(nodes, nodes[i].next, f.rest);
    }
  }

  lemma {:induction false} StoredChild(nodes: seq<Node>, f: Forest, role: Role)
    requires Stored(nodes, f)
    ensures Stored(nodes, Child(f, role))
  {
    if f.Cons? && f.role != role { StoredChild(nodes, f.rest, role); }
  }

  /** `code` occupies the blocks from `n` on. */
  predicate Placed(blocks: seq<Block>, n: nat, code: seq<Block>) {
    n + |code| <= |blocks| && forall i :: 0 <= i < |code| ==> blocks[n + i] == code[i]
  }

  lemma PlacedSplit(blocks: seq<Block>, n: nat, a: seq<Block>, b: seq<Block>)
    requires Placed(blocks, n, a + b)
    ensures Placed(blocks, n, a) && Placed(blocks, n + |a|, b)
  {
    forall i | 0 <= i < |a| ensures blocks[n + i] == a[i] { assert (a + b)[i] == a[i]; }
    forall i | 0 <= i < |b| ensures blocks[n + |a| + i] == b[i] { assert (a + b)[|a| + i] == b[i]; }
  }

  lemma {:induction false} WalkAdd<S>(j: nat, k: nat, m: Machine<S>, nodes: seq<Node>, blocks: seq<Block>, b: int, s: S)
    ensures var w := Walk(j, m, nodes, blocks, b, s);
      Walk(j + k, m, nodes, blocks, b, s) == if w.At? then Walk(k, m, nodes, blocks, w.block, w.s) else w
  {
    if j > 0 {
      var g := Go(m, nodes, blocks, b, s);
      if g.At? { WalkAdd(j - 1, k, m, nodes, blocks, g.block, g.s); }
    }
  }

  /** A walk of `k` steps has come as far as the result `r` of a run with bound `n`. */
  ghost predicate Follows<S>(w: Config<S>, k: nat, r: Result<S>, n: nat, next: int, t: Targets) {
    match r
    case Ends(On, s) => w == At(next, s)
    case Ends(Broken, s) => w == At(t.brk, s)
    case Ends(Continuing, s) => w == At(t.cont, s)
    case Ends(Returning, s) => w == At(t.exit, s)
    case Stops(s) => w == Halted(s)
    case Unfinished => w.At? && k >= n
  }

  /** A walk that has come to `b1` goes on from there. */
  lemma FollowsThen<S>(m: Machine<S>, nodes: seq<Node>, blocks: seq<Block>, k: nat, b: int, s: S, b1: int, s1: S, j: nat,
      r: Result<S>, n: nat, next: int, t: Targets)
    requires Walk(k, m, nodes, blocks, b, s) == At(b1, s1) && Follows(Walk(j, m, nodes, blocks, b1, s1), j, r, n, next, t)
    ensures Follows(Walk(k + j, m, nodes, blocks, b, s), k + j, r, n, next, t)
  {
    WalkAdd(k, j, m, nodes, blocks, b, s);
  }

  lemma {:induction false} SeqFollows<S>(n: nat, m: Machine<S>, nodes: seq<Node>, blocks: seq<Block>,
      f: Forest, role: Role, next: int, t: Targets, at: nat, s: S) returns (k: nat)
    requires Stored(nodes, f)
    requires var c := SeqCode(f, role, next, t, at); c.Some? && Placed(blocks, at, c.value.blocks)
    ensures Follows(Walk(k, m, nodes, blocks, SeqCode(f, role, next, t, at).value.entry, s), k, RunSeq(n, m, f, role, s), n, next, t)
    decreases n, f, 0
  {
    if f.Nil? {
      k := 0;
    } else if f.role != role {
      k := SeqFollows(n, m, nodes, blocks, f.rest, role, next, t, at, s);
    } else {
      var rest := SeqCode(f.rest, role, next, t, at).value;
      var head := StmtCode(f.idx, f.op, f.kids, rest.entry, t, at + |rest.blocks|).value;
      PlacedSplit(blocks, at, rest.blocks, head.blocks);
      k := StmtFollows(n, m, nodes, blocks, f.idx, f.op, f.kids, rest.entry, t, at + |rest.blocks|, s);
      var r := RunStmt(n, m, f.idx, f.op, f.kids, s);
      if r.Ends? && r.way.On? {
        var j := SeqFollows(n, m, nodes, blocks, f.rest, role, next, t, at, r.s);
        FollowsThen(m, nodes, blocks, k, head.entry, s, rest.entry, r.s, j, RunSeq(n, m, f.rest, role, r.s), n, next, t);
        k := k + j;
      }
    }
  }

  lemma {:induction false} StmtFollows<S>(n: nat, m: Machine<S>, nodes: seq<Node>, blocks: seq<Block>,
      idx: nat, op: Op, kids: Forest, next: int, t: Targets, at: nat, s: S) returns (k: nat)
    requires Stored(nodes, kids)
    requires var c := StmtCode(idx, op, kids, next, t, at); c.Some? && Placed(blocks, at, c.value.blocks)
    ensures Follows(Walk(k, m, nodes, blocks, StmtCode(idx, op, kids, next, t, at).value.entry, s), k,
                    RunStmt(n, m, idx, op, kids, s), n, next, t)
    decreases n, kids, 2
  {
    var c := StmtCode(idx, op, kids, next, t, at).value;
    match op
    case Program => k := SeqFollows(n, m, nodes, blocks, kids, Statement, next, t, at, s);
    case If => k := IfFollows(n, m, nodes, blocks, kids, next, t, at, s);
    case While => k := LoopFollows(n, m, nodes, blocks, kids, next, t, at, s);
    case Function(_, _) => k := 0;
    case Struct(_, _) => k := 0;
    case _ =>
      assert blocks[at] == c.blocks[0];
      k := 1;
      OneStep(m, nodes, blocks, at, s);
  }

  lemma OneStep<S>(m: Machine<S>, nodes: seq<Node>, blocks: seq<Block>, b: int, s: S)
    ensures Walk(1, m, nodes, blocks, b, s) == Go(m, nodes, blocks, b, s)
  {
    var g := Go(m, nodes, blocks, b, s);
    if g.At? { assert Walk(0, m, nodes, blocks, g.block, g.s) == g; }
  }

  lemma {:induction false} IfFollows<S>(n: nat, m: Machine<S>, nodes: seq<Node>, blocks: seq<Block>,
      kids: Forest, next: int, t: Targets, at: nat, s: S) returns (k: nat)
    requires Stored(nodes, kids)
    requires var c := IfCode(kids, next, t, at); c.Some? && Placed(blocks, at, c.value.blocks)
    ensures Follows(Walk(k, m, nodes, blocks, IfCode(kids, next, t, at).value.entry, s), k, RunIf(n, m, kids, s), n, next, t)
    decreases n, kids, 1
  {
    var cond := Child(kids, Condition);
    StoredChild(nodes, kids, Condition);
    var yes := SeqCode(kids, Then, next, t, at).value;
    var no := SeqCode(kids, Else, next, t, at + |yes.blocks|).value;
    var test := Block(NO_NODE, cond.idx, yes.entry, no.entry, Branches);
    PlacedSplit(blocks, at, yes.blocks + no.blocks, [test]);
    PlacedSplit(blocks, at, yes.blocks, no.blocks);
    var entry := at + |yes.blocks| + |no.blocks|;
    assert blocks[entry] == [test][0];
    OneStep(m, nodes, blocks, entry, s);
    var d := TestOf(m, kids, s);
    k := 1;
    if d.Test? {
      var j;
      if d.b {
        j := SeqFollows(n, m, nodes, blocks, kids, Then, next, t, at, d.s);
      } else {
        j := SeqFollows(n, m, nodes, blocks, kids, Else, next, t, at + |yes.blocks|, d.s);
      }
      WalkAdd(1, j, m, nodes, blocks, entry, s);
      k := 1 + j;
    }
  }

  lemma {:induction false} LoopFollows<S>(n: nat, m: Machine<S>, nodes: seq<Node>, blocks: seq<Block>,
      kids: Forest, next: int, t: Targets, at: nat, s: S) returns (k: nat)
    requires Stored(nodes, kids)
    requires var c := WhileCode(kids, next, t, at); c.Some? && Placed(blocks, at, c.value.blocks)
    ensures Follows(Walk(k, m, nodes, blocks, at, s), k, RunLoop(n, m, kids, s), n, next, t)
    decreases n, kids, 1
  {
    var cond := Child(kids, Condition);
    StoredChild(nodes, kids, Condition);
    var t1 := Targets(t.exit, next, at);
    var body := SeqCode(kids, Body, at, t1, at + 1).value;
    var test := Block(NO_NODE, cond.idx, body.entry, next, Branches);
    PlacedSplit(blocks, at, [test], body.blocks);
    assert blocks[at] == [test][0];
    OneStep(m, nodes, blocks, at, s);
    var d := TestOf(m, kids, s);
    k := 1;
    if d.Test? && d.b && n > 0 {
      var j := SeqFollows(n, m, nodes, blocks, kids, Body, at, t1, at + 1, d.s);
      WalkAdd(1, j, m, nodes, blocks, at, s);
      k := 1 + j;
      var r := RunSeq(n, m, kids, Body, d.s);
      if r.Ends? && (r.way.On? || r.way.Continuing?) {
        var i := LoopFollows(n - 1, m, nodes, blocks, kids, next, t, at, r.s);
        WalkAdd(k, i, m, nodes, blocks, at, s);
        k := k + i;
      }
    }
  }
}
