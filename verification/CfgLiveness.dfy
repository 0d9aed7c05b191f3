/** Liveness of variables (vnt_cfg_compute_liveness). */
module CfgLiveness {
  import opened Operators
  import opened Pigeonhole
  import opened Hir
  import opened Cfg
  import opened CfgGraph
  import opened CfgDataflow
  import opened CfgBuilder
  import opened CfgBuild
  import opened CfgEffects
  import opened CfgAssignment
  import HirValidate
  import HirValidator

  /** The cells now, against those at the start of a sweep; `changed` tells whether any cell came. */
  ghost predicate Grown(ins0: Cells, outs0: Cells, ins: Cells, outs: Cells, changed: bool) {
    ins0 <= ins && outs0 <= outs && (changed <==> !(ins == ins0 && outs == outs0))
  }

  /** Writes a cell that can only go from clear to set. */
  method Raise(a: array2<bool>, b: nat, v: nat, value: bool, changed: bool) returns (changed1: bool)
    requires b < a.Length0 && v < a.Length1 && (a[b, v] ==> value)
    modifies a
    ensures With(old(CellsOf(a)), b, v, value, CellsOf(a))
    ensures changed1 <==> changed || CellsOf(a) != old(CellsOf(a))
  {
    changed1 := changed || a[b, v] != value;
    assert (b, v) in CellsOf(a) <==> a[b, v];
    a[b, v] := value;
    assert (b, v) in CellsOf(a) <==> value;
  }

  ghost predicate Fits(rd: Reads, a: array2<bool>) {
    a.Length0 == |rd.blocks| && a.Length1 == rd.vars
  }

  /** The union over the successors of block `b`. */
  method JoinSuccessors(blocks: seq<Block>, ins: array2<bool>, b: nat, v: nat, ghost rd: Reads) returns (joined: bool)
    requires blocks == rd.blocks && b < |blocks| && Fits(rd, ins) && v < rd.vars && Linked(blocks)
    ensures joined <==> Joins(rd, CellsOf(ins), b, v)
  {
    joined := false;
    var succ := [blocks[b].yes, blocks[b].no];
    for e := 0 to 2
      invariant joined <==> exists d :: 0 <= d < e && succ[d] != NO_NODE && (succ[d], v as int) in CellsOf(ins)
    {
      if succ[e] != NO_NODE {
        assert OptionalLink(succ[e], |blocks|);
        joined := joined || ins[succ[e], v];
      }
    }
    assert joined <==> (succ[0] != NO_NODE && (succ[0], v as int) in CellsOf(ins)) || (succ[1] != NO_NODE && (succ[1], v as int) in CellsOf(ins));
  }

  /** Both cells of a block and a variable. */
  method UpdateCell(blocks: seq<Block>, uses: array2<bool>, defs: array2<bool>, ins: array2<bool>, outs: array2<bool>, b: nat, v: nat,
      changed: bool, ghost rd: Reads, ghost ins0: Cells, ghost outs0: Cells) returns (changed1: bool)
    requires blocks == rd.blocks && b < |blocks| && v < rd.vars && Linked(blocks)
    requires Fits(rd, uses) && Fits(rd, defs) && Fits(rd, ins) && Fits(rd, outs) && ins != outs
    requires ins != uses && ins != defs && outs != uses && outs != defs
    requires CellsOf(uses) == rd.uses && CellsOf(defs) == rd.defs
    requires Ascending(rd, CellsOf(ins), CellsOf(outs)) && Grown(ins0, outs0, CellsOf(ins), CellsOf(outs), changed)
    modifies ins, outs
    ensures Ascending(rd, CellsOf(ins), CellsOf(outs)) && Grown(ins0, outs0, CellsOf(ins), CellsOf(outs), changed1)
    ensures changed ==> changed1
    ensures !changed1 ==> LiveSolved(rd, ins0, outs0, b, v)
  {
    var joined := JoinSuccessors(blocks, ins, b, v, rd);
    var next := uses[b, v] || (joined && !defs[b, v]);
    assert ((b, v) in CellsOf(uses) <==> uses[b, v]) && ((b, v) in CellsOf(defs) <==> defs[b, v]);
    assert next <==> Flows(rd, joined, b, v);
    ghost var i0, o0 := CellsOf(ins), CellsOf(outs);
    UpdateLive(rd, i0, o0, b, v, if next then i0 + {(b, v)} else i0, if joined then o0 + {(b, v)} else o0);
    assert ((b, v) in i0 <==> ins[b, v]) && ((b, v) in o0 <==> outs[b, v]);
    changed1 := Raise(outs, b, v, joined, changed);
    changed1 := Raise(ins, b, v, next, changed1);
  }

  method SweepBlock(blocks: seq<Block>, uses: array2<bool>, defs: array2<bool>, ins: array2<bool>, outs: array2<bool>, b: nat,
      changed: bool, ghost rd: Reads, ghost ins0: Cells, ghost outs0: Cells) returns (changed1: bool)
    requires blocks == rd.blocks && b < |blocks| && Linked(blocks)
    requires Fits(rd, uses) && Fits(rd, defs) && Fits(rd, ins) && Fits(rd, outs) && ins != outs
    requires ins != uses && ins != defs && outs != uses && outs != defs
    requires CellsOf(uses) == rd.uses && CellsOf(defs) == rd.defs
    requires Ascending(rd, CellsOf(ins), CellsOf(outs)) && Grown(ins0, outs0, CellsOf(ins), CellsOf(outs), changed)
    modifies ins, outs
    ensures Ascending(rd, CellsOf(ins), CellsOf(outs)) && Grown(ins0, outs0, CellsOf(ins), CellsOf(outs), changed1)
    ensures changed ==> changed1
    ensures !changed1 ==> forall u :: 0 <= u < rd.vars ==> LiveSolved(rd, ins0, outs0, b, u)
  {
    changed1 := changed;
    for v := 0 to ins.Length1
      invariant Ascending(rd, CellsOf(ins), CellsOf(outs)) && Grown(ins0, outs0, CellsOf(ins), CellsOf(outs), changed1)
      invariant changed ==> changed1
      invariant !changed1 ==> forall u :: 0 <= u < v ==> LiveSolved(rd, ins0, outs0, b, u)
    {
      changed1 := UpdateCell(blocks, uses, defs, ins, outs, b, v, changed1, rd, ins0, outs0);
    }
  }

  /** One backward sweep: it adds a cell, or the equations hold. */
  method Sweep(blocks: seq<Block>, uses: array2<bool>, defs: array2<bool>, ins: array2<bool>, outs: array2<bool>, ghost rd: Reads)
      returns (changed: bool)
    requires blocks == rd.blocks && Linked(blocks)
    requires Fits(rd, uses) && Fits(rd, defs) && Fits(rd, ins) && Fits(rd, outs) && ins != outs
    requires ins != uses && ins != defs && outs != uses && outs != defs
    requires CellsOf(uses) == rd.uses && CellsOf(defs) == rd.defs && Ascending(rd, CellsOf(ins), CellsOf(outs))
    modifies ins, outs
    ensures Ascending(rd, CellsOf(ins), CellsOf(outs))
    ensures Grown(old(CellsOf(ins)), old(CellsOf(outs)), CellsOf(ins), CellsOf(outs), changed)
    ensures !changed ==> AllLiveSolved(rd, CellsOf(ins), CellsOf(outs))
  {
    ghost var ins0, outs0 := CellsOf(ins), CellsOf(outs);
    changed := false;
    var b := |blocks|;
    while b > 0
      invariant 0 <= b <= |blocks|
      invariant Ascending(rd, CellsOf(ins), CellsOf(outs)) && Grown(ins0, outs0, CellsOf(ins), CellsOf(outs), changed)
      invariant !changed ==> forall c, v :: b <= c && Cell(rd.blocks, rd.vars, c, v) ==> LiveSolved(rd, ins0, outs0, c, v)
    {
      b := b - 1;
      changed := SweepBlock(blocks, uses, defs, ins, outs, b, changed, rd, ins0, outs0);
    }
  }

  ghost function AllCells(rows: nat, vars: nat): Cells {
    set b, v | 0 <= b < rows && 0 <= v < vars :: (b, v)
  }

  /** How many cells can still come. */
  ghost function Room(a: array2<bool>): nat
    reads a
  {
    SubsetSize(CellsOf(a), AllCells(a.Length0, a.Length1));
    |AllCells(a.Length0, a.Length1)| - |CellsOf(a)|
  }

  method NoneSet(rows: nat, vars: nat) returns (a: array2<bool>)
    ensures fresh(a) && a.Length0 == rows && a.Length1 == vars && CellsOf(a) == {}
  {
    a := new bool[rows, vars]((_, _) => false);
  }

  /** Starting from no cell set, sweeps until nothing changes. */
  method Solve(blocks: seq<Block>, vars: nat, uses: array2<bool>, defs: array2<bool>, ghost rd: Reads)
      returns (ins: array2<bool>, outs: array2<bool>)
    requires blocks == rd.blocks && vars == rd.vars && Linked(blocks) && Fits(rd, uses) && Fits(rd, defs)
    requires CellsOf(uses) == rd.uses && CellsOf(defs) == rd.defs
    ensures fresh(ins) && fresh(outs) && Fits(rd, ins) && Fits(rd, outs)
    ensures AllLiveSolved(rd, CellsOf(ins), CellsOf(outs)) && Ascending(rd, CellsOf(ins), CellsOf(outs))
  {
    ins := NoneSet(|blocks|, vars);
    outs := NoneSet(|blocks|, vars);
    var changed := true;
    while changed
      invariant Ascending(rd, CellsOf(ins), CellsOf(outs))
      invariant !changed ==> AllLiveSolved(rd, CellsOf(ins), CellsOf(outs))
      decreases Room(ins) + Room(outs), changed
    {
      ghost var i0, o0 := CellsOf(ins), CellsOf(outs);
      changed := Sweep(blocks, uses, defs, ins, outs, rd);
      SubsetSize(i0, CellsOf(ins));
      SubsetSize(o0, CellsOf(outs));
    }
  }

  // ---- The analysis ----

  class Liveness {
    var names: seq<string>
    var blockCount: nat
    var liveIn: array2<bool>
    var liveOut: array2<bool>

    constructor (names: seq<string>, blockCount: nat, liveIn: array2<bool>, liveOut: array2<bool>)
      ensures this.names == names && this.blockCount == blockCount && this.liveIn == liveIn && this.liveOut == liveOut
    {
      this.names, this.blockCount, this.liveIn, this.liveOut := names, blockCount, liveIn, liveOut;
    }

    ghost predicate Valid()
      reads this
    {
      && liveIn.Length0 == liveOut.Length0 == blockCount && liveIn.Length1 == liveOut.Length1 == |names|
      && DistinctNames(names)
    }

    /** Is `name` live where block `b` starts? */
    method LiveIn(b: nat, name: string) returns (r: bool)
      requires Valid()
      ensures r <==> b < blockCount && exists v :: 0 <= v < |names| && names[v] == name && (b, v) in CellsOf(liveIn)
    {
      if b >= blockCount { return false; }
      var v := VariableIndex(names, name);
      r := v != NO_NODE && liveIn[b, v];
    }

    /** Is `name` live where block `b` ends? */
    method LiveOut(b: nat, name: string) returns (r: bool)
      requires Valid()
      ensures r <==> b < blockCount && exists v :: 0 <= v < |names| && names[v] == name && (b, v) in CellsOf(liveOut)
    {
      if b >= blockCount { return false; }
      var v := VariableIndex(names, name);
      r := v != NO_NODE && liveOut[b, v];
    }
  }

  /** Some path from `b` reads `x` before an earlier block of the path sets it. */
  ghost predicate ReadLater(nodes: seq<Node>, f: Forest, blocks: seq<Block>, b: int, x: string) {
    exists p :: ReadOn(nodes, f, blocks, p, x) && p[0] == b
  }

  ghost predicate ReadOn(nodes: seq<Node>, f: Forest, blocks: seq<Block>, p: seq<int>, x: string) {
    && Path(blocks, p) && ReadAt(nodes, f, blocks, p[|p| - 1], x)
    && forall i :: 0 <= i < |p| - 1 ==> !(Link(p[i], |blocks|) && x in BlockDefs(nodes, f, blocks[p[i]]))
  }

  lemma {:induction false} LiveNames(nodes: seq<Node>, f: Forest, rd: Reads, names: seq<string>, b: int, v: nat)
    requires v < |names| == rd.vars
    requires rd.uses == Rows(nodes, f, rd.blocks, names, |rd.blocks|, false) && rd.defs == Rows(nodes, f, rd.blocks, names, |rd.blocks|, true)
    ensures Live(rd, b, v) <==> ReadLater(nodes, f, rd.blocks, b, names[v])
  {
    forall p | Path(rd.blocks, p) ensures ReadAlong(rd, p, v) <==> ReadOn(nodes, f, rd.blocks, p, names[v]) {
      assert (p[|p| - 1], v as int) in rd.uses <==> ReadAt(nodes, f, rd.blocks, p[|p| - 1], names[v]);
      forall i | 0 <= i < |p| - 1
        ensures (p[i], v as int) in rd.defs <==> Link(p[i], |rd.blocks|) && names[v] in BlockDefs(nodes, f, rd.blocks[p[i]])
      {
      }
    }
    if Live(rd, b, v) {
      var p :| ReadAlong(rd, p, v) && p[0] == b;
      assert ReadOn(nodes, f, rd.blocks, p, names[v]);
    }
    if ReadLater(nodes, f, rd.blocks, b, names[v]) {
      var p :| ReadOn(nodes, f, rd.blocks, p, names[v]) && p[0] == b;
      assert ReadAlong(rd, p, v);
    }
  }

  /** The stored cells are exactly what paths of the graph say. */
  ghost predicate ExactlyLive(nodes: seq<Node>, f: Forest, blocks: seq<Block>, names: seq<string>, ins: Cells, outs: Cells) {
    forall b, v :: Cell(blocks, |names|, b, v) ==>
      && ((b, v) in ins <==> ReadLater(nodes, f, blocks, b, names[v]))
      && ((b, v) in outs <==> exists s :: Edge(blocks, b, s) && ReadLater(nodes, f, blocks, s, names[v]))
  }

  lemma ExactNames(nodes: seq<Node>, f: Forest, rd: Reads, names: seq<string>, ins: Cells, outs: Cells)
    requires |names| == rd.vars && Linked(rd.blocks) && AllLiveSolved(rd, ins, outs) && Ascending(rd, ins, outs)
    requires rd.uses == Rows(nodes, f, rd.blocks, names, |rd.blocks|, false) && rd.defs == Rows(nodes, f, rd.blocks, names, |rd.blocks|, true)
    ensures ExactlyLive(nodes, f, rd.blocks, names, ins, outs)
  {
    forall b, v | Cell(rd.blocks, |names|, b, v)
      ensures (b, v) in ins <==> ReadLater(nodes, f, rd.blocks, b, names[v])
      ensures (b, v) in outs <==> exists s :: Edge(rd.blocks, b, s) && ReadLater(nodes, f, rd.blocks, s, names[v])
    {
      LivenessExact(rd, ins, outs, b, v);
      LiveNames(nodes, f, rd, names, b, v);
      forall s ensures Live(rd, s, v) <==> ReadLater(nodes, f, rd.blocks, s, names[v]) { LiveNames(nodes, f, rd, names, s, v); }
    }
  }

  /** Fails exactly on an invalid program or graph; otherwise the result is exact over paths. */
  method ComputeLiveness(nodes: seq<Node>, root: nat, g: Graph) returns (ok: bool, live: Liveness?)
    ensures ok <==> (exists f :: HirValidate.IsTree(nodes, root, f)) && GraphOk(g.blocks, g.entries, g.exit) && AllReferTo(g.blocks, |nodes|)
    ensures ok ==> live != null && live.Valid() && live.blockCount == |g.blocks| && Named(nodes, live.names)
    ensures ok ==> forall f :: HirValidate.IsTree(nodes, root, f) ==>
      ExactlyLive(nodes, f, g.blocks, live.names, CellsOf(live.liveIn), CellsOf(live.liveOut))
  {
    live := null;
    ok := HirValidator.Validate(nodes, root);
    if !ok { return; }
    ok := ValidateGraph(g);
    if !ok { return; }
    ok := AllRefer(g.blocks, |nodes|);
    if !ok { return; }
    ghost var f :| HirValidate.IsTree(nodes, root, f);
    forall h | HirValidate.IsTree(nodes, root, h) ensures h == f { HirValidate.TreeUnique(nodes, root, h, f); }
    var names := CollectVariables(nodes);
    var uses, defs := CollectEffects(nodes, g.blocks, names, root, f);
    ghost var rd := Reads(g.blocks, |names|, CellsOf(uses), CellsOf(defs));
    assert Linked(g.blocks) by {
      forall b | 0 <= b < |g.blocks| ensures OptionalLink(g.blocks[b].yes, |g.blocks|) && OptionalLink(g.blocks[b].no, |g.blocks|) {
        assert BlockOk(g.blocks[b], b, |g.blocks|, g.exit);
      }
    }
    var ins, outs := Solve(g.blocks, |names|, uses, defs, rd);
    ExactNames(nodes, f, rd, names, CellsOf(ins), CellsOf(outs));
    live := new Liveness(names, |g.blocks|, ins, outs);
  }
}
