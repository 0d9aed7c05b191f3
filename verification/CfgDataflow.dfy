/** The two dataflow problems of src/compiler/cfg.c as equations over sets of
    (block, variable) cells, and what their solutions say about paths. */
module CfgDataflow {
  import opened Hir
  import opened Cfg
  import opened CfgGraph

  type Cells = set<(int, int)>

  predicate Cell(blocks: seq<Block>, vars: nat, b: int, v: int) {
    0 <= b < |blocks| && 0 <= v < vars
  }

  lemma {:induction false} PathPrefix(blocks: seq<Block>, p: seq<int>, n: nat)
    requires Path(blocks, p) && 0 < n <= |p|
    ensures Path(blocks, p[..n])
  {
    forall i | 0 <= i < n - 1 ensures Edge(blocks, p[..n][i], p[..n][i + 1]) { assert Edge(blocks, p[i], p[i + 1]); }
  }

  lemma PathTail(blocks: seq<Block>, p: seq<int>)
    requires Path(blocks, p) && |p| > 1
    ensures Path(blocks, p[1..]) && Edge(blocks, p[0], p[1])
  {
    forall i | 0 <= i < |p| - 2 ensures Edge(blocks, p[1..][i], p[1..][i + 1]) { assert Edge(blocks, p[i + 1], p[i + 2]); }
  }

  lemma PathSnoc(blocks: seq<Block>, p: seq<int>, b: int)
    requires Path(blocks, p) && Edge(blocks, p[|p| - 1], b)
    ensures Path(blocks, p + [b])
  {
  }

  lemma PathCons(blocks: seq<Block>, b: int, p: seq<int>)
    requires Path(blocks, p) && Edge(blocks, b, p[0])
    ensures Path(blocks, [b] + p)
  {
    var q := [b] + p;
    forall i | 0 <= i < |q| - 1 ensures Edge(blocks, q[i], q[i + 1]) {
      if i > 0 { assert Edge(blocks, p[i - 1], p[i]); }
    }
  }

  // ---- Definite assignment: which variables must be set ----

  /** Variables set before an entry block runs, and variables that a block sets. */
  datatype Flow = Flow(blocks: seq<Block>, vars: nat, entries: seq<int>, seed: Cells, defs: Cells)

  predicate Covered(fl: Flow, p: seq<int>, v: int)
    requires p != []
  {
    (p[0], v) in fl.seed || exists i :: 0 <= i < |p| - 1 && (p[i], v) in fl.defs
  }

  /** On every path from an entry to `b`, variable `v` is seeded or set before `b`. */
  ghost predicate Must(fl: Flow, b: int, v: int) {
    forall p :: Path(fl.blocks, p) && p[0] in fl.entries && p[|p| - 1] == b ==> Covered(fl, p, v)
  }

  /** The value the analysis computes for the start of block `b`. */
  ghost predicate Meets(fl: Flow, outs: Cells, b: int, v: int) {
    if b in fl.entries then (b, v) in fl.seed
    else (exists p :: Edge(fl.blocks, p, b)) && forall p :: Edge(fl.blocks, p, b) ==> (p, v) in outs
  }

  ghost predicate InSolved(fl: Flow, ins: Cells, outs: Cells, b: int, v: int) {
    (b, v) in ins <==> Meets(fl, outs, b, v)
  }

  ghost predicate OutSolved(fl: Flow, ins: Cells, outs: Cells, b: int, v: int) {
    (b, v) in outs <==> (b, v) in ins || (b, v) in fl.defs
  }

  ghost predicate Solved(fl: Flow, ins: Cells, outs: Cells) {
    forall b, v :: Cell(fl.blocks, fl.vars, b, v) ==> InSolved(fl, ins, outs, b, v) && OutSolved(fl, ins, outs, b, v)
  }

  /** What every update keeps: cells only ever have to be removed, and no cell is removed
      that all paths justify. */
  ghost predicate Descending(fl: Flow, ins: Cells, outs: Cells) {
    forall b, v :: Cell(fl.blocks, fl.vars, b, v) ==>
      && (Meets(fl, outs, b, v) || (AllReachable(fl.blocks, fl.entries) && Must(fl, b, v)) ==> (b, v) in ins)
      && ((b, v) in ins || (b, v) in fl.defs ==> (b, v) in outs)
  }

  /** Every block can be reached, so that a block without predecessors is an entry. */
  ghost predicate AllReachable(blocks: seq<Block>, entries: seq<int>) {
    forall b :: 0 <= b < |blocks| ==> Reachable(blocks, entries, b)
  }

  predicate Without(cells: Cells, b: int, v: int, value: bool, after: Cells) {
    after == if value then cells else cells - {(b, v)}
  }

  lemma MustPredecessor(fl: Flow, a: int, b: int, v: int)
    requires Must(fl, b, v) && Edge(fl.blocks, a, b)
    ensures (a, v) in fl.defs || Must(fl, a, v)
  {
    if (a, v) !in fl.defs {
      forall p | Path(fl.blocks, p) && p[0] in fl.entries && p[|p| - 1] == a ensures Covered(fl, p, v) {
        PathSnoc(fl.blocks, p, b);
        var q := p + [b];
        assert Covered(fl, q, v);
        if (p[0], v) !in fl.seed {
          var i :| 0 <= i < |q| - 1 && (q[i], v) in fl.defs;
          assert (p[i], v) in fl.defs;
        }
      }
    }
  }

  /** Meeting over predecessors keeps what holds on all paths. */
  lemma MustMeets(fl: Flow, ins: Cells, outs: Cells, b: int, v: int)
    requires Descending(fl, ins, outs) && AllReachable(fl.blocks, fl.entries) && Cell(fl.blocks, fl.vars, b, v) && Must(fl, b, v)
    ensures Meets(fl, outs, b, v)
  {
    if b in fl.entries {
      assert Path(fl.blocks, [b]);
      assert Covered(fl, [b], v);
    } else {
      assert Reachable(fl.blocks, fl.entries, b);
      var p :| Path(fl.blocks, p) && p[0] in fl.entries && p[|p| - 1] == b;
      assert Edge(fl.blocks, p[|p| - 2], p[|p| - 1]);
      forall a | Edge(fl.blocks, a, b) ensures (a, v) in outs {
        MustPredecessor(fl, a, b, v);
        assert Cell(fl.blocks, fl.vars, a, v);
      }
    }
  }

  lemma UpdateIn(fl: Flow, ins: Cells, outs: Cells, b: int, v: int, value: bool, after: Cells)
    requires Descending(fl, ins, outs) && Cell(fl.blocks, fl.vars, b, v)
    requires (value <==> Meets(fl, outs, b, v)) && Without(ins, b, v, value, after)
    ensures value ==> (b, v) in ins
    ensures Descending(fl, after, outs) && InSolved(fl, after, outs, b, v)
  {
    if AllReachable(fl.blocks, fl.entries) && Must(fl, b, v) { MustMeets(fl, ins, outs, b, v); }
  }

  lemma UpdateOut(fl: Flow, ins: Cells, outs: Cells, b: int, v: int, value: bool, after: Cells)
    requires Descending(fl, ins, outs) && Cell(fl.blocks, fl.vars, b, v)
    requires (value <==> (b, v) in ins || (b, v) in fl.defs) && Without(outs, b, v, value, after)
    ensures value ==> (b, v) in outs
    ensures Descending(fl, ins, after) && OutSolved(fl, ins, after, b, v)
  {
    forall c, u | Cell(fl.blocks, fl.vars, c, u) ensures Meets(fl, after, c, u) ==> Meets(fl, outs, c, u) {
    }
  }

  /** Paths from an entry meet no other entry but the exit. */
  ghost predicate Separate(blocks: seq<Block>, entries: seq<int>, exit: int) {
    && Link(exit, |blocks|) && blocks[exit] == ExitBlock
    && forall p :: Path(blocks, p) && p[0] in entries && p[|p| - 1] in entries ==> p[|p| - 1] == p[0] || p[|p| - 1] == exit
  }

  /** A solution only claims what every path guarantees. */
  lemma {:induction false} SolvedCovers(fl: Flow, exit: int, ins: Cells, outs: Cells, p: seq<int>, v: int)
    requires Solved(fl, ins, outs) && Separate(fl.blocks, fl.entries, exit) && 0 <= v < fl.vars
    requires Path(fl.blocks, p) && p[0] in fl.entries && p[|p| - 1] != exit && Link(p[|p| - 1], |fl.blocks|)
    requires (p[|p| - 1], v) in ins
    ensures Covered(fl, p, v)
    decreases |p|
  {
    var b := p[|p| - 1];
    assert Cell(fl.blocks, fl.vars, b, v);
    if b !in fl.entries {
      var q := p[..|p| - 1];
      var a := q[|q| - 1];
      assert Edge(fl.blocks, p[|p| - 2], p[|p| - 1]);
      PathPrefix(fl.blocks, p, |p| - 1);
      assert Cell(fl.blocks, fl.vars, a, v) && OutSolved(fl, ins, outs, a, v);
      if (a, v) in fl.defs {
        assert (p[|p| - 2], v) in fl.defs;
      } else {
        SolvedCovers(fl, exit, ins, outs, q, v);
        if (p[0], v) !in fl.seed {
          var i :| 0 <= i < |q| - 1 && (q[i], v) in fl.defs;
          assert (p[i], v) in fl.defs;
        }
      }
    }
  }

  ghost predicate AllAssigned(fl: Flow, uses: Cells) {
    forall p, v :: Path(fl.blocks, p) && p[0] in fl.entries && (p[|p| - 1], v) in uses ==> Covered(fl, p, v)
  }

  /** Definite assignment is exact over paths. */
  lemma AssignmentExact(fl: Flow, exit: int, ins: Cells, outs: Cells, uses: Cells)
    requires Solved(fl, ins, outs) && Descending(fl, ins, outs)
    requires Separate(fl.blocks, fl.entries, exit) && AllReachable(fl.blocks, fl.entries)
    requires forall b, v :: (b, v) in uses ==> Cell(fl.blocks, fl.vars, b, v) && b != exit
    ensures uses <= ins <==> AllAssigned(fl, uses)
  {
    if uses <= ins {
      forall p, v | Path(fl.blocks, p) && p[0] in fl.entries && (p[|p| - 1], v) in uses ensures Covered(fl, p, v) {
        SolvedCovers(fl, exit, ins, outs, p, v);
      }
    }
    if AllAssigned(fl, uses) {
      forall c | c in uses ensures c in ins {
        assert (c.0, c.1) in uses;
        assert Must(fl, c.0, c.1);
      }
    }
  }

  // ---- Liveness: which variables may still be read ----

  datatype Reads = Reads(blocks: seq<Block>, vars: nat, uses: Cells, defs: Cells)

  ghost predicate ReadAlong(rd: Reads, p: seq<int>, v: int) {
    Path(rd.blocks, p) && (p[|p| - 1], v) in rd.uses && forall i :: 0 <= i < |p| - 1 ==> (p[i], v) !in rd.defs
  }

  /** Some path from `b` reads `v` before an earlier block of the path sets it. */
  ghost predicate Live(rd: Reads, b: int, v: int) {
    exists p :: ReadAlong(rd, p, v) && p[0] == b
  }

  /** Some successor of `b` is in `ins`. */
  predicate Joins(rd: Reads, ins: Cells, b: int, v: int)
    requires 0 <= b < |rd.blocks|
  {
    (rd.blocks[b].yes != NO_NODE && (rd.blocks[b].yes, v) in ins) || (rd.blocks[b].no != NO_NODE && (rd.blocks[b].no, v) in ins)
  }

  predicate Flows(rd: Reads, joined: bool, b: int, v: int) {
    (b, v) in rd.uses || (joined && (b, v) !in rd.defs)
  }

  ghost predicate LiveSolved(rd: Reads, ins: Cells, outs: Cells, b: int, v: int)
    requires 0 <= b < |rd.blocks|
  {
    ((b, v) in outs <==> Joins(rd, ins, b, v)) && ((b, v) in ins <==> Flows(rd, Joins(rd, ins, b, v), b, v))
  }

  ghost predicate AllLiveSolved(rd: Reads, ins: Cells, outs: Cells) {
    forall b, v :: Cell(rd.blocks, rd.vars, b, v) ==> LiveSolved(rd, ins, outs, b, v)
  }

  /** What every update keeps: cells only ever have to be added, and every cell is justified
      by a path. */
  ghost predicate Ascending(rd: Reads, ins: Cells, outs: Cells) {
    forall b, v :: Cell(rd.blocks, rd.vars, b, v) ==>
      && ((b, v) in outs ==> Joins(rd, ins, b, v))
      && ((b, v) in ins ==> Flows(rd, Joins(rd, ins, b, v), b, v) && Live(rd, b, v))
  }

  predicate With(cells: Cells, b: int, v: int, value: bool, after: Cells) {
    after == if value then cells + {(b, v)} else cells
  }

  /** Links lead to blocks. */
  predicate Linked(blocks: seq<Block>) {
    forall b :: 0 <= b < |blocks| ==> OptionalLink(blocks[b].yes, |blocks|) && OptionalLink(blocks[b].no, |blocks|)
  }

  lemma LiveFlows(rd: Reads, ins: Cells, outs: Cells, b: int, v: int)
    requires Ascending(rd, ins, outs) && Linked(rd.blocks) && Cell(rd.blocks, rd.vars, b, v)
    requires Flows(rd, Joins(rd, ins, b, v), b, v)
    ensures Live(rd, b, v)
  {
    if (b, v) in rd.uses {
      assert ReadAlong(rd, [b], v);
    } else {
      var s := if rd.blocks[b].yes != NO_NODE && (rd.blocks[b].yes, v) in ins then rd.blocks[b].yes else rd.blocks[b].no;
      assert Cell(rd.blocks, rd.vars, s, v);
      var p :| ReadAlong(rd, p, v) && p[0] == s;
      assert Edge(rd.blocks, b, s);
      PathCons(rd.blocks, b, p);
      var q := [b] + p;
      forall i | 0 <= i < |q| - 1 ensures (q[i], v) !in rd.defs {
        assert i > 0 ==> q[i] == p[i - 1];
      }
      assert ReadAlong(rd, q, v);
    }
  }

  /** One update of both cells of a block and a variable. */
  lemma UpdateLive(rd: Reads, ins: Cells, outs: Cells, b: int, v: int, ins1: Cells, outs1: Cells)
    requires Ascending(rd, ins, outs) && Linked(rd.blocks) && Cell(rd.blocks, rd.vars, b, v)
    requires With(outs, b, v, Joins(rd, ins, b, v), outs1)
    requires With(ins, b, v, Flows(rd, Joins(rd, ins, b, v), b, v), ins1)
    ensures Ascending(rd, ins1, outs1)
    ensures (b, v) in outs ==> Joins(rd, ins, b, v)
    ensures (b, v) in ins ==> Flows(rd, Joins(rd, ins, b, v), b, v)
  {
    if Flows(rd, Joins(rd, ins, b, v), b, v) { LiveFlows(rd, ins, outs, b, v); }
    forall c, u | Cell(rd.blocks, rd.vars, c, u) ensures Joins(rd, ins, c, u) ==> Joins(rd, ins1, c, u) {
    }
  }

  lemma {:induction false} SolvedLive(rd: Reads, ins: Cells, outs: Cells, p: seq<int>, v: int)
    requires AllLiveSolved(rd, ins, outs) && Linked(rd.blocks) && 0 <= v < rd.vars
    requires ReadAlong(rd, p, v) && 0 <= p[0] < |rd.blocks|
    ensures (p[0], v) in ins
    decreases |p|
  {
    assert Cell(rd.blocks, rd.vars, p[0], v);
    if |p| > 1 {
      PathTail(rd.blocks, p);
      var q := p[1..];
      assert (p[0], v) !in rd.defs;
      forall i | 0 <= i < |q| - 1 ensures (q[i], v) !in rd.defs { assert q[i] == p[i + 1]; }
      SolvedLive(rd, ins, outs, q, v);
    }
  }

  /** Liveness is exact over paths, and the end of a block joins its successors. */
  lemma LivenessExact(rd: Reads, ins: Cells, outs: Cells, b: int, v: int)
    requires AllLiveSolved(rd, ins, outs) && Ascending(rd, ins, outs) && Linked(rd.blocks) && Cell(rd.blocks, rd.vars, b, v)
    ensures (b, v) in ins <==> Live(rd, b, v)
    ensures (b, v) in outs <==> exists s :: Edge(rd.blocks, b, s) && Live(rd, s, v)
  {
    if Live(rd, b, v) {
      var p :| ReadAlong(rd, p, v) && p[0] == b;
      SolvedLive(rd, ins, outs, p, v);
    }
    forall s | Edge(rd.blocks, b, s) ensures Live(rd, s, v) <==> (s, v) in ins {
      assert Cell(rd.blocks, rd.vars, s, v);
      if Live(rd, s, v) {
        var p :| ReadAlong(rd, p, v) && p[0] == s;
        SolvedLive(rd, ins, outs, p, v);
      }
    }
    if Joins(rd, ins, b, v) {
      var s := if rd.blocks[b].yes != NO_NODE && (rd.blocks[b].yes, v) in ins then rd.blocks[b].yes else rd.blocks[b].no;
      assert Edge(rd.blocks, b, s);
    }
  }
}
