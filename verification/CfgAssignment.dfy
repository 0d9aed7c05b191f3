/** The definite-assignment check (vnt_cfg_check_definite_assignment). */
module CfgAssignment {
  import opened Pigeonhole
  import opened Hir
  import opened HirSemantics
  import opened Cfg
  import opened CfgGraph
  import opened CfgDataflow
  import opened CfgBuilder
  import opened CfgBuild
  import opened CfgSeparate
  import opened CfgEffects
  import HirValidate
  import HirValidator

  /** The cells now, against those at the start of a sweep; `changed` tells whether any cell went. */
  ghost predicate Shrunk(ins0: Cells, outs0: Cells, ins: Cells, outs: Cells, changed: bool) {
    ins <= ins0 && outs <= outs0 && (changed <==> !(ins == ins0 && outs == outs0))
  }

  // ---- The fixed point ----

  method MeetPredecessors(blocks: seq<Block>, outs: array2<bool>, b: nat, v: nat) returns (value: bool)
    requires outs.Length0 == |blocks| && v < outs.Length1
    ensures value <==> (exists p :: Edge(blocks, p, b)) && forall p :: Edge(blocks, p, b) ==> (p, v) in CellsOf(outs)
  {
    value := true;
    var any := false;
    for p := 0 to |blocks|
      invariant any <==> exists q :: 0 <= q < p && Edge(blocks, q, b)
      invariant value <==> forall q :: 0 <= q < p && Edge(blocks, q, b) ==> outs[q, v]
    {
      if blocks[p].yes == b || blocks[p].no == b {
        assert Edge(blocks, p, b);
        value := value && outs[p, v];
        any := true;
      }
    }
    if !any { value := false; }
  }

  /** Writes a cell that can only go from set to clear. */
  method Lower(a: array2<bool>, b: nat, v: nat, value: bool, changed: bool) returns (changed1: bool)
    requires b < a.Length0 && v < a.Length1 && (value ==> a[b, v])
    modifies a
    ensures Without(old(CellsOf(a)), b, v, value, CellsOf(a))
    ensures changed1 <==> changed || CellsOf(a) != old(CellsOf(a))
  {
    changed1 := changed || a[b, v] != value;
    assert (b, v) in CellsOf(a) <==> a[b, v];
    a[b, v] := value;
    assert (b, v) in CellsOf(a) <==> value;
  }

  /** The arrays hold a flow problem. */
  ghost predicate Holds(fl: Flow, isEntry: array<bool>, seed: array2<bool>, defs: array2<bool>)
    reads isEntry, seed, defs
  {
    && isEntry.Length == |fl.blocks| && (forall b :: 0 <= b < |fl.blocks| ==> (isEntry[b] <==> b in fl.entries))
    && seed.Length0 == defs.Length0 == |fl.blocks| && seed.Length1 == defs.Length1 == fl.vars
    && CellsOf(seed) == fl.seed && CellsOf(defs) == fl.defs
  }

  ghost predicate Sized(fl: Flow, ins: array2<bool>, outs: array2<bool>) {
    ins.Length0 == outs.Length0 == |fl.blocks| && ins.Length1 == outs.Length1 == fl.vars && ins != outs
  }

  /** The cells at the start of block `b`. */
  method SweepIn(blocks: seq<Block>, isEntry: array<bool>, seed: array2<bool>, defs: array2<bool>, ins: array2<bool>, outs: array2<bool>,
      b: nat, changed: bool, ghost fl: Flow, ghost ins0: Cells, ghost outs0: Cells) returns (changed1: bool)
    requires blocks == fl.blocks && b < |blocks| && Holds(fl, isEntry, seed, defs) && Sized(fl, ins, outs)
    requires ins != seed && ins != defs
    requires Descending(fl, CellsOf(ins), CellsOf(outs)) && Shrunk(ins0, outs0, CellsOf(ins), CellsOf(outs), changed)
    modifies ins
    ensures Descending(fl, CellsOf(ins), CellsOf(outs)) && Shrunk(ins0, outs0, CellsOf(ins), CellsOf(outs), changed1)
    ensures changed ==> changed1
    ensures !changed1 ==> forall v :: 0 <= v < fl.vars ==> InSolved(fl, ins0, outs0, b, v)
  {
    changed1 := changed;
    for v := 0 to ins.Length1
      invariant Descending(fl, CellsOf(ins), CellsOf(outs)) && Shrunk(ins0, outs0, CellsOf(ins), CellsOf(outs), changed1)
      invariant changed ==> changed1
      invariant !changed1 ==> forall u :: 0 <= u < v ==> InSolved(fl, ins0, outs0, b, u)
    {
      var value;
      if isEntry[b] {
        value := seed[b, v];
        assert value <==> (b, v) in CellsOf(seed);
      } else {
        value := MeetPredecessors(blocks, outs, b, v);
      }
      ghost var before := CellsOf(ins);
      UpdateIn(fl, before, CellsOf(outs), b, v, value, if value then before else before - {(b, v)});
      assert value ==> ins[b, v];
      changed1 := Lower(ins, b, v, value, changed1);
    }
  }

  /** The cells at the end of block `b`. */
  method SweepOut(blocks: seq<Block>, defs: array2<bool>, ins: array2<bool>, outs: array2<bool>,
      b: nat, changed: bool, ghost fl: Flow, ghost ins0: Cells, ghost outs0: Cells) returns (changed1: bool)
    requires blocks == fl.blocks && b < |blocks| && Sized(fl, ins, outs) && outs != defs
    requires defs.Length0 == |fl.blocks| && defs.Length1 == fl.vars && CellsOf(defs) == fl.defs
    requires Descending(fl, CellsOf(ins), CellsOf(outs)) && Shrunk(ins0, outs0, CellsOf(ins), CellsOf(outs), changed)
    modifies outs
    ensures Descending(fl, CellsOf(ins), CellsOf(outs)) && Shrunk(ins0, outs0, CellsOf(ins), CellsOf(outs), changed1)
    ensures changed ==> changed1
    ensures !changed1 ==> forall v :: 0 <= v < fl.vars ==> OutSolved(fl, ins0, outs0, b, v)
  {
    changed1 := changed;
    for v := 0 to outs.Length1
      invariant Descending(fl, CellsOf(ins), CellsOf(outs)) && Shrunk(ins0, outs0, CellsOf(ins), CellsOf(outs), changed1)
      invariant changed ==> changed1
      invariant !changed1 ==> forall u :: 0 <= u < v ==> OutSolved(fl, ins0, outs0, b, u)
    {
      var value := ins[b, v] || defs[b, v];
      assert ((b, v) in CellsOf(ins) <==> ins[b, v]) && ((b, v) in CellsOf(defs) <==> defs[b, v]);
      ghost var before := CellsOf(outs);
      UpdateOut(fl, CellsOf(ins), before, b, v, value, if value then before else before - {(b, v)});
      assert value ==> outs[b, v];
      changed1 := Lower(outs, b, v, value, changed1);
    }
  }

  /** One sweep over all blocks: it removes a cell, or the equations hold. */
  method Sweep(blocks: seq<Block>, isEntry: array<bool>, seed: array2<bool>, defs: array2<bool>, ins: array2<bool>, outs: array2<bool>,
      ghost fl: Flow) returns (changed: bool)
    requires blocks == fl.blocks && Holds(fl, isEntry, seed, defs) && Sized(fl, ins, outs)
    requires ins != seed && ins != defs && outs != seed && outs != defs
    requires Descending(fl, CellsOf(ins), CellsOf(outs))
    modifies ins, outs
    ensures Descending(fl, CellsOf(ins), CellsOf(outs))
    ensures changed ==> |CellsOf(ins)| + |CellsOf(outs)| < old(|CellsOf(ins)| + |CellsOf(outs)|)
    ensures !changed ==> CellsOf(ins) == old(CellsOf(ins)) && CellsOf(outs) == old(CellsOf(outs)) && Solved(fl, CellsOf(ins), CellsOf(outs))
  {
    ghost var ins0, outs0 := CellsOf(ins), CellsOf(outs);
    changed := false;
    for b := 0 to |blocks|
      invariant Descending(fl, CellsOf(ins), CellsOf(outs)) && Shrunk(ins0, outs0, CellsOf(ins), CellsOf(outs), changed)
      invariant !changed ==> forall c, v :: 0 <= c < b && Cell(fl.blocks, fl.vars, c, v) ==>
        InSolved(fl, ins0, outs0, c, v) && OutSolved(fl, ins0, outs0, c, v)
    {
      changed := SweepIn(blocks, isEntry, seed, defs, ins, outs, b, changed, fl, ins0, outs0);
      changed := SweepOut(blocks, defs, ins, outs, b, changed, fl, ins0, outs0);
    }
    SubsetSize(CellsOf(ins), ins0);
    SubsetSize(CellsOf(outs), outs0);
  }

  method AllSet(rows: nat, vars: nat) returns (a: array2<bool>)
    ensures fresh(a) && a.Length0 == rows && a.Length1 == vars
    ensures forall b, v :: 0 <= b < rows && 0 <= v < vars ==> (b, v) in CellsOf(a)
  {
    a := new bool[rows, vars]((_, _) => true);
  }

  /** Starting from all cells set, sweeps until nothing changes. */
  method Solve(blocks: seq<Block>, vars: nat, isEntry: array<bool>, seed: array2<bool>, defs: array2<bool>, ghost fl: Flow)
      returns (ins: array2<bool>, outs: array2<bool>)
    requires blocks == fl.blocks && vars == fl.vars && Holds(fl, isEntry, seed, defs)
    ensures fresh(ins) && fresh(outs) && Sized(fl, ins, outs)
    ensures Solved(fl, CellsOf(ins), CellsOf(outs)) && Descending(fl, CellsOf(ins), CellsOf(outs))
  {
    ins := AllSet(|blocks|, vars);
    outs := AllSet(|blocks|, vars);
    assert Descending(fl, CellsOf(ins), CellsOf(outs));
    var changed := true;
    while changed
      invariant Descending(fl, CellsOf(ins), CellsOf(outs))
      invariant !changed ==> Solved(fl, CellsOf(ins), CellsOf(outs))
      decreases |CellsOf(ins)| + |CellsOf(outs)|, changed
    {
      changed := Sweep(blocks, isEntry, seed, defs, ins, outs, fl);
    }
  }

  // ---- What is set on entry ----

  /** Initialised declarations among the statements of the program. */
  function Globals(f: Forest): set<string> {
    if f.Nil? then {}
    else (if f.role == Statement && f.op.Decl? && Child(f.kids, Value).Cons? then {f.op.decl} else {}) + Globals(f.rest)
  }

  function FunctionNodes(nodes: seq<Node>, i: nat): (r: seq<nat>)
    requires i <= |nodes|
    ensures forall j :: 0 <= j < |r| ==> r[j] < i && nodes[r[j]].op.Function?
  {
    if i == 0 then []
    else FunctionNodes(nodes, i - 1) + if nodes[i - 1].op.Function? then [i - 1] else []
  }

  lemma {:induction false} FunctionPrefix(nodes: seq<Node>, i: nat, j: nat)
    requires i <= j <= |nodes|
    ensures FunctionNodes(nodes, i) <= FunctionNodes(nodes, j)
  {
    if i < j { FunctionPrefix(nodes, i, j - 1); }
  }

  function ParamsOf(nodes: seq<Node>, e: nat): set<string> {
    var fns := FunctionNodes(nodes, |nodes|);
    if 0 < e <= |fns| then Elements(nodes[fns[e - 1]].op.params) else {}
  }

  /** The program starts with nothing set, a function with the globals and its parameters. */
  function SeedOf(nodes: seq<Node>, f: Forest, e: nat): set<string>
    requires f.Cons?
  {
    (if e == 0 then {} else Globals(f.kids)) + ParamsOf(nodes, e)
  }

  ghost function Seeds(entries: seq<int>, names: seq<string>, sets: seq<set<string>>): Cells
    requires |sets| == |entries|
  {
    set e, v | 0 <= e < |entries| && 0 <= v < |names| && names[v] in sets[e] :: (entries[e], v)
  }

  lemma SeedsAdd(entries: seq<int>, names: seq<string>, sets: seq<set<string>>, e: nat, s: set<string>)
    requires |sets| == |entries| && e < |entries|
    ensures Seeds(entries, names, sets[e := sets[e] + s]) == Seeds(entries, names, sets) + Row(entries[e], names, s)
  {
    var after := sets[e := sets[e] + s];
    forall c | c in Seeds(entries, names, sets) + Row(entries[e], names, s) ensures c in Seeds(entries, names, after) {
      if c in Row(entries[e], names, s) {
        assert names[c.1] in after[e];
      } else {
        var d, v :| 0 <= d < |entries| && 0 <= v < |names| && names[v] in sets[d] && c == (entries[d], v);
        assert names[v] in after[d];
      }
    }
    forall c | c in Seeds(entries, names, after) ensures c in Seeds(entries, names, sets) + Row(entries[e], names, s) {
      var d, v :| 0 <= d < |entries| && 0 <= v < |names| && names[v] in after[d] && c == (entries[d], v);
      assert names[v] in sets[d] || (d == e && names[v] in s);
    }
  }

  method CollectGlobals(nodes: seq<Node>, root: nat, names: seq<string>, ghost f: Forest) returns (globals: array2<bool>)
    requires HirValidate.IsTree(nodes, root, f) && DistinctNames(names)
    ensures fresh(globals) && globals.Length0 == 1 && globals.Length1 == |names|
    ensures CellsOf(globals) == Row(0, names, Globals(f.kids))
  {
    globals := new bool[1, |names|]((_, _) => false);
    var c := nodes[root].first;
    ghost var todo, done := f.kids, {};
    RowEmpty(0, names);
    while c != NO_NODE
      invariant IsForest(nodes, c, todo) && done + Globals(todo) == Globals(f.kids)
      invariant CellsOf(globals) == Row(0, names, done)
      decreases todo
    {
      if nodes[c].role == Statement && nodes[c].op.Decl? {
        var value := ChildRole(nodes, c, Value, todo.kids);
        if value != NO_NODE {
          MarkVariable(globals, 0, names, nodes[c].op.decl);
          RowUnion(0, names, done, {todo.op.decl});
          done := done + {todo.op.decl};
        }
      }
      c, todo := nodes[c].next, todo.rest;
    }
  }

  /** Copies the globals over the seed row of an entry block. */
  method CopyGlobals(seed: array2<bool>, b: nat, globals: array2<bool>, names: seq<string>, ghost g: set<string>)
    requires seed != globals && b < seed.Length0 && globals.Length0 == 1 && seed.Length1 == globals.Length1 == |names|
    requires CellsOf(globals) == Row(0, names, g)
    requires forall v :: 0 <= v < |names| && seed[b, v] ==> names[v] in g
    modifies seed
    ensures CellsOf(seed) == old(CellsOf(seed)) + Row(b, names, g)
  {
    for v := 0 to |names|
      invariant forall u :: 0 <= u < v ==> (seed[b, u] <==> names[u] in g)
      invariant forall c, u :: 0 <= c < seed.Length0 && 0 <= u < |names| && (c != b || u >= v) ==> seed[c, u] == old(seed[c, u])
    {
      assert globals[0, v] <==> (0, v) in CellsOf(globals);
      seed[b, v] := globals[0, v];
    }
  }

  /** Marks the entry blocks and seeds all but the first with the globals. */
  method SeedGlobals(entries: seq<int>, globals: array2<bool>, names: seq<string>, isEntry: array<bool>, seed: array2<bool>, ghost g: set<string>)
      returns (ghost sets: seq<set<string>>)
    requires seed != globals && globals.Length0 == 1 && seed.Length0 == isEntry.Length && seed.Length1 == globals.Length1 == |names|
    requires CellsOf(globals) == Row(0, names, g) && CellsOf(seed) == {} && forall b :: 0 <= b < isEntry.Length ==> !isEntry[b]
    requires forall e :: 0 <= e < |entries| ==> Link(entries[e], isEntry.Length)
    modifies isEntry, seed
    ensures forall b :: 0 <= b < isEntry.Length ==> (isEntry[b] <==> b in entries)
    ensures |sets| == |entries| && CellsOf(seed) == Seeds(entries, names, sets)
    ensures forall e :: 0 <= e < |entries| ==> sets[e] == if e == 0 then {} else g
  {
    sets := seq(|entries|, _ => {});
    for e := 0 to |entries|
      invariant forall b :: 0 <= b < isEntry.Length ==> (isEntry[b] <==> b in entries[..e])
      invariant |sets| == |entries| && CellsOf(seed) == Seeds(entries, names, sets)
      invariant forall d :: 0 <= d < |entries| ==> sets[d] == if 0 < d < e then g else {}
    {
      isEntry[entries[e]] := true;
      if e > 0 {
        assert forall v :: 0 <= v < |names| && seed[entries[e], v] ==> (entries[e] as int, v) in CellsOf(seed);
        CopyGlobals(seed, entries[e], globals, names, g);
        SeedsAdd(entries, names, sets, e, g);
        sets := sets[e := sets[e] + g];
      }
    }
    assert entries[..|entries|] == entries;
  }

  /** Marks the parameters of one function at its entry. */
  method SeedFunction(entries: seq<int>, e: nat, params: seq<string>, names: seq<string>, seed: array2<bool>, ghost sets: seq<set<string>>)
    requires e < |entries| == |sets| && Link(entries[e], seed.Length0) && seed.Length1 == |names| && DistinctNames(names)
    requires CellsOf(seed) == Seeds(entries, names, sets)
    modifies seed
    ensures CellsOf(seed) == Seeds(entries, names, sets[e := sets[e] + Elements(params)])
  {
    ghost var done := {};
    RowEmpty(entries[e], names);
    for p := 0 to |params|
      invariant done == Elements(params[..p])
      invariant CellsOf(seed) == Seeds(entries, names, sets) + Row(entries[e], names, done)
    {
      MarkVariable(seed, entries[e], names, params[p]);
      RowUnion(entries[e], names, done, {params[p]});
      done := done + {params[p]};
      assert params[..p + 1] == params[..p] + [params[p]];
    }
    assert params[..|params|] == params;
    SeedsAdd(entries, names, sets, e, done);
  }

  method SeedParams(nodes: seq<Node>, entries: seq<int>, names: seq<string>, seed: array2<bool>, ghost g: set<string>, ghost sets0: seq<set<string>>)
      returns (ghost sets: seq<set<string>>)
    requires 0 < |entries| == |sets0| && seed.Length1 == |names| && DistinctNames(names)
    requires forall e :: 0 <= e < |entries| ==> Link(entries[e], seed.Length0)
    requires CellsOf(seed) == Seeds(entries, names, sets0)
    modifies seed
    ensures |sets| == |entries| && CellsOf(seed) == Seeds(entries, names, sets)
    ensures forall e :: 0 <= e < |entries| ==> sets[e] == sets0[e] + ParamsOf(nodes, e)
  {
    sets := sets0;
    ghost var fns := FunctionNodes(nodes, |nodes|);
    var fe, i := 1, 0;
    while i < |nodes| && fe < |entries|
      invariant 0 <= i <= |nodes| && fe == 1 + |FunctionNodes(nodes, i)| <= |entries|
      invariant |sets| == |entries| && CellsOf(seed) == Seeds(entries, names, sets)
      invariant forall e :: 0 <= e < |entries| ==> sets[e] == sets0[e] + if e < fe then ParamsOf(nodes, e) else {}
    {
      if nodes[i].op.Function? {
        FunctionPrefix(nodes, i + 1, |nodes|);
        assert FunctionNodes(nodes, i + 1)[fe - 1] == i == fns[fe - 1];
        SeedFunction(entries, fe, nodes[i].op.params, names, seed, sets);
        sets := sets[fe := sets[fe] + Elements(nodes[i].op.params)];
        fe := fe + 1;
      }
      i := i + 1;
    }
  }

  // ---- The check ----

  /** Every read on every path from every entry is of a variable set before. */
  ghost predicate PathsAssigned(nodes: seq<Node>, f: Forest, blocks: seq<Block>, entries: seq<int>)
    requires f.Cons?
  {
    forall e, p, x :: 0 <= e < |entries| && Path(blocks, p) && p[0] == entries[e] && ReadAt(nodes, f, blocks, p[|p| - 1], x) ==>
      SetBefore(nodes, f, blocks, e, p, x)
  }

  predicate ReadAt(nodes: seq<Node>, f: Forest, blocks: seq<Block>, b: int, x: string) {
    Link(b, |blocks|) && x in BlockUses(nodes, f, blocks[b])
  }

  ghost predicate SetBefore(nodes: seq<Node>, f: Forest, blocks: seq<Block>, e: nat, p: seq<int>, x: string)
    requires f.Cons?
  {
    x in SeedOf(nodes, f, e) || exists i :: 0 <= i < |p| - 1 && Link(p[i], |blocks|) && x in BlockDefs(nodes, f, blocks[p[i]])
  }

  ghost predicate SeedSets(nodes: seq<Node>, f: Forest, sets: seq<set<string>>)
    requires f.Cons?
  {
    forall e :: 0 <= e < |sets| ==> sets[e] == SeedOf(nodes, f, e)
  }

  /** Cells and names say the same. */
  lemma CoveredNames(nodes: seq<Node>, f: Forest, fl: Flow, names: seq<string>, sets: seq<set<string>>, e: nat, p: seq<int>, v: nat)
    requires f.Cons? && fl.vars == |names| && v < |names| && |sets| == |fl.entries| && SeedSets(nodes, f, sets)
    requires fl.seed == Seeds(fl.entries, names, sets) && fl.defs == Rows(nodes, f, fl.blocks, names, |fl.blocks|, true)
    requires p != [] && e < |fl.entries| && p[0] == fl.entries[e]
    requires forall d :: 0 <= d < |fl.entries| && fl.entries[d] == fl.entries[e] ==> d == e
    ensures Covered(fl, p, v) <==> SetBefore(nodes, f, fl.blocks, e, p, names[v])
  {
    assert (p[0], v) in fl.seed <==> names[v] in sets[e];
    forall i | 0 <= i < |p| - 1
      ensures (p[i], v) in fl.defs <==> Link(p[i], |fl.blocks|) && names[v] in BlockDefs(nodes, f, fl.blocks[p[i]])
    {
    }
  }

  lemma {:induction false} AssignedNames(nodes: seq<Node>, root: nat, f: Forest, exit: int, fl: Flow, names: seq<string>, sets: seq<set<string>>, uses: Cells)
    requires HirValidate.IsTree(nodes, root, f) && Named(nodes, names) && fl.vars == |names|
    requires |sets| == |fl.entries| && SeedSets(nodes, f, sets) && Analysable(fl.blocks, fl.entries, exit)
    requires fl.seed == Seeds(fl.entries, names, sets) && fl.defs == Rows(nodes, f, fl.blocks, names, |fl.blocks|, true)
    requires uses == Rows(nodes, f, fl.blocks, names, |fl.blocks|, false)
    ensures AllAssigned(fl, uses) <==> PathsAssigned(nodes, f, fl.blocks, fl.entries)
  {
    if AllAssigned(fl, uses) {
      forall e, p, x | 0 <= e < |fl.entries| && Path(fl.blocks, p) && p[0] == fl.entries[e] && ReadAt(nodes, f, fl.blocks, p[|p| - 1], x)
        ensures SetBefore(nodes, f, fl.blocks, e, p, x)
      {
        UsesNamed(nodes, names, root, f, fl.blocks[p[|p| - 1]]);
        var v :| 0 <= v < |names| && names[v] == x;
        assert (p[|p| - 1], v) in uses;
        ExitLast(fl.blocks, exit, p);
        CoveredNames(nodes, f, fl, names, sets, e, p, v);
      }
    }
    if PathsAssigned(nodes, f, fl.blocks, fl.entries) {
      forall p, v | Path(fl.blocks, p) && p[0] in fl.entries && (p[|p| - 1], v) in uses ensures Covered(fl, p, v) {
        var e :| 0 <= e < |fl.entries| && fl.entries[e] == p[0];
        ExitLast(fl.blocks, exit, p);
        assert ReadAt(nodes, f, fl.blocks, p[|p| - 1], names[v]);
        CoveredNames(nodes, f, fl, names, sets, e, p, v);
      }
    }
  }

  method AllUsesIn(uses: array2<bool>, ins: array2<bool>) returns (ok: bool)
    requires uses.Length0 == ins.Length0 && uses.Length1 == ins.Length1
    ensures ok <==> CellsOf(uses) <= CellsOf(ins)
  {
    for b := 0 to uses.Length0
      invariant forall c, v :: 0 <= c < b && 0 <= v < uses.Length1 && uses[c, v] ==> ins[c, v]
    {
      for v := 0 to uses.Length1
        invariant forall u :: 0 <= u < v && uses[b, u] ==> ins[b, u]
      {
        if uses[b, v] && !ins[b, v] {
          assert (b, v) in CellsOf(uses) && (b, v) !in CellsOf(ins);
          return false;
        }
      }
    }
    ok := true;
  }

  predicate AllReferTo(blocks: seq<Block>, nodes: nat) {
    forall b :: 0 <= b < |blocks| ==> Refers(blocks[b], nodes)
  }

  method AllRefer(blocks: seq<Block>, nodes: nat) returns (ok: bool)
    ensures ok <==> AllReferTo(blocks, nodes)
  {
    for b := 0 to |blocks|
      invariant forall c :: 0 <= c < b ==> Refers(blocks[c], nodes)
    {
      var k := blocks[b];
      if (k.instruction != NO_NODE && !(0 <= k.instruction < nodes)) || (k.condition != NO_NODE && !(0 <= k.condition < nodes)) {
        return false;
      }
    }
    ok := true;
  }

  /** The seeds of all entries. */
  method SeedAll(nodes: seq<Node>, root: nat, entries: seq<int>, count: nat, names: seq<string>, ghost f: Forest)
      returns (isEntry: array<bool>, seed: array2<bool>, ghost sets: seq<set<string>>)
    requires HirValidate.IsTree(nodes, root, f) && DistinctNames(names) && entries != []
    requires forall e :: 0 <= e < |entries| ==> Link(entries[e], count)
    ensures fresh(isEntry) && fresh(seed) && isEntry.Length == seed.Length0 == count && seed.Length1 == |names|
    ensures forall b :: 0 <= b < count ==> (isEntry[b] <==> b in entries)
    ensures |sets| == |entries| && SeedSets(nodes, f, sets) && CellsOf(seed) == Seeds(entries, names, sets)
  {
    var globals := CollectGlobals(nodes, root, names, f);
    isEntry := new bool[count](_ => false);
    seed := new bool[count, |names|]((_, _) => false);
    assert CellsOf(seed) == {};
    sets := SeedGlobals(entries, globals, names, isEntry, seed, Globals(f.kids));
    sets := SeedParams(nodes, entries, names, seed, Globals(f.kids), sets);
  }

  /** On an analysable graph the check succeeds exactly when every path is fine. */
  method CheckPaths(nodes: seq<Node>, root: nat, blocks: seq<Block>, entries: seq<int>, ghost exit: int, ghost f: Forest) returns (ok: bool)
    requires HirValidate.IsTree(nodes, root, f) && GraphOk(blocks, entries, exit)
    requires forall b :: 0 <= b < |blocks| ==> Refers(blocks[b], |nodes|)
    ensures Analysable(blocks, entries, exit) ==> (ok <==> PathsAssigned(nodes, f, blocks, entries))
  {
    var names := CollectVariables(nodes);
    var uses, defs := CollectEffects(nodes, blocks, names, root, f);
    var isEntry, seed;
    ghost var sets;
    isEntry, seed, sets := SeedAll(nodes, root, entries, |blocks|, names, f);
    ghost var fl := Flow(blocks, |names|, entries, CellsOf(seed), CellsOf(defs));
    var ins, outs := Solve(blocks, |names|, isEntry, seed, defs, fl);
    if Analysable(blocks, entries, exit) {
      AssignmentExact(fl, exit, CellsOf(ins), CellsOf(outs), CellsOf(uses));
      AssignedNames(nodes, root, f, exit, fl, names, sets, CellsOf(uses));
    }
    ok := AllUsesIn(uses, ins);
  }

  /** Built graphs refer to existing nodes. */
  lemma {:induction false} BuiltRefers(nodes: seq<Node>, roots: seq<(Forest, Role)>, blocks: seq<Block>, entries: seq<int>, exit: int, map_: seq<int>)
    requires Built(nodes, roots, blocks, entries, exit, map_)
    ensures forall b :: 0 <= b < |blocks| ==> Refers(blocks[b], |nodes|)
  {
    var l := LayoutOf(roots).value;
    LayoutOk(nodes, roots, |l.blocks|);
    forall j | 0 <= j < |blocks| ensures Refers(blocks[j], |nodes|) {
      assert j in map_;
      var b :| 0 <= b < |map_| && map_[b] == j;
      if b > 0 { assert l.blocks[b] == l.blocks[1..][b - 1]; }
    }
  }

  /** Accepts exactly the graphs, built from a program, whose every path assigns before it reads. */
  method CheckDefiniteAssignment(nodes: seq<Node>, root: nat, g: Graph) returns (ok: bool)
    ensures ok ==> (exists f :: HirValidate.IsTree(nodes, root, f)) && GraphOk(g.blocks, g.entries, g.exit)
    ensures forall f :: HirValidate.IsTree(nodes, root, f) && GraphOf(nodes, f, g) ==>
      (ok <==> PathsAssigned(nodes, f, g.blocks, g.entries))
  {
    ok := HirValidator.Validate(nodes, root);
    if !ok { return; }
    ok := ValidateGraph(g);
    if !ok { return; }
    ghost var f :| HirValidate.IsTree(nodes, root, f);
    forall h | HirValidate.IsTree(nodes, root, h) ensures h == f { HirValidate.TreeUnique(nodes, root, h, f); }
    if GraphOf(nodes, f, g) {
      ghost var numbers :| Built(nodes, Roots(nodes, f, |nodes|), g.blocks, g.entries, g.exit, numbers);
      BuiltAnalysable(nodes, Roots(nodes, f, |nodes|), g.blocks, g.entries, g.exit, numbers);
      BuiltRefers(nodes, Roots(nodes, f, |nodes|), g.blocks, g.entries, g.exit, numbers);
    }
    ok := AllRefer(g.blocks, |nodes|);
    if !ok { return; }
    ok := CheckPaths(nodes, root, g.blocks, g.entries, g.exit, f);
  }
}
