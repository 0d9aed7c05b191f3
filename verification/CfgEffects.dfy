/** Which variables the block of a graph reads and sets (collect_block_effects). */
module CfgEffects {
  import opened Hir
  import opened HirPropagate
  import opened Cfg
  import opened CfgGraph
  import opened CfgDataflow
  import opened CfgBuilder
  import HirValidate

  // ---- Specification ----

  function ReadsNode(op: Op, kids: Forest): set<string>
    decreases kids, 1
  {
    if op.Variable? then {op.name} else ReadsList(kids)
  }

  function ReadsList(f: Forest): set<string>
    decreases f, 0
  {
    if f.Nil? then {} else ReadsNode(f.op, f.kids) + ReadsList(f.rest)
  }

  function ReadsFirst(f: Forest): set<string> {
    if f.Nil? then {} else ReadsNode(f.op, f.kids)
  }

  /** What a statement reads; a variable on the left of an assignment is not read. */
  function StmtUses(op: Op, kids: Forest): set<string> {
    match op
    case Decl(_) => ReadsFirst(Child(kids, Value))
    case Reassign(_) => ReadsFirst(Child(kids, Value))
    case Print => ReadsFirst(Child(kids, Value))
    case Return => ReadsFirst(Child(kids, Value))
    case Assign =>
      var target := Child(kids, Target);
      (if target.Cons? && target.op.Variable? then {} else ReadsFirst(target)) + ReadsFirst(Child(kids, Value))
    case _ => ReadsNode(op, kids)
  }

  function StmtDefs(op: Op, kids: Forest): set<string> {
    match op
    case Decl(x) => if Child(kids, Value).Cons? then {x} else {}
    case Reassign(x) => {x}
    case Assign => var target := Child(kids, Target); if target.Cons? && target.op.Variable? then {target.op.name} else {}
    case _ => {}
  }

  predicate Refers(k: Block, nodes: nat) {
    OptionalLink(k.instruction, nodes) && OptionalLink(k.condition, nodes)
  }

  function BlockUses(nodes: seq<Node>, f: Forest, k: Block): set<string> {
    (if Link(k.condition, |nodes|) then ReadsNode(nodes[k.condition].op, HirValidate.KidsOf(f, k.condition)) else {}) +
    (if Link(k.instruction, |nodes|) then StmtUses(nodes[k.instruction].op, HirValidate.KidsOf(f, k.instruction)) else {})
  }

  function BlockDefs(nodes: seq<Node>, f: Forest, k: Block): set<string> {
    if Link(k.instruction, |nodes|) then StmtDefs(nodes[k.instruction].op, HirValidate.KidsOf(f, k.instruction)) else {}
  }

  // ---- Bit rows ----

  ghost function CellsOf(a: array2<bool>): (s: Cells)
    reads a
  {
    set b, v | 0 <= b < a.Length0 && 0 <= v < a.Length1 && a[b, v] :: (b, v)
  }

  /** The cells of row `b` for the variables in `s`. */
  ghost function Row(b: int, names: seq<string>, s: set<string>): Cells {
    set v | 0 <= v < |names| && names[v] in s :: (b, v)
  }

  lemma RowUnion(b: int, names: seq<string>, s: set<string>, t: set<string>)
    ensures Row(b, names, s + t) == Row(b, names, s) + Row(b, names, t)
  {
  }

  predicate DistinctNames(names: seq<string>) {
    forall i, j :: 0 <= i < j < |names| ==> names[i] != names[j]
  }

  method VariableIndex(names: seq<string>, x: string) returns (i: int)
    ensures i == NO_NODE <==> x !in names
    ensures i != NO_NODE ==> 0 <= i < |names| && names[i] == x
  {
    for k := 0 to |names|
      invariant x !in names[..k]
    {
      if names[k] == x { return k; }
    }
    i := NO_NODE;
  }

  method AddVariable(names: seq<string>, x: string) returns (r: seq<string>)
    requires DistinctNames(names)
    ensures DistinctNames(r) && (forall y :: y in r <==> y in names || y == x)
  {
    var i := VariableIndex(names, x);
    r := if i == NO_NODE then names + [x] else names;
  }

  function Elements(s: seq<string>): set<string> {
    set x | x in s
  }

  /** The names a node contributes. */
  function NodeNames(op: Op): set<string> {
    match op
    case Variable(x) => {x}
    case Decl(x) => {x}
    case Reassign(x) => {x}
    case Function(_, params) => Elements(params)
    case _ => {}
  }

  /** Every name used as a variable, each once. */
  method CollectVariables(nodes: seq<Node>) returns (names: seq<string>)
    ensures DistinctNames(names) && Named(nodes, names)
  {
    names := [];
    for i := 0 to |nodes|
      invariant DistinctNames(names)
      invariant forall j, x :: 0 <= j < i && x in NodeNames(nodes[j].op) ==> x in names
    {
      var op := nodes[i].op;
      match op
      case Variable(x) => names := AddVariable(names, x);
      case Decl(x) => names := AddVariable(names, x);
      case Reassign(x) => names := AddVariable(names, x);
      case Function(_, params) =>
        ghost var before := names;
        for p := 0 to |params|
          invariant DistinctNames(names)
          invariant forall x :: x in before ==> x in names
          invariant forall q :: 0 <= q < p ==> params[q] in names
        {
          names := AddVariable(names, params[p]);
        }
      case _ =>
    }
  }

  method MarkVariable(bits: array2<bool>, b: nat, names: seq<string>, x: string)
    requires b < bits.Length0 && bits.Length1 == |names| && DistinctNames(names)
    modifies bits
    ensures CellsOf(bits) == old(CellsOf(bits)) + Row(b, names, {x})
  {
    var i := VariableIndex(names, x);
    if i != NO_NODE { bits[b, i] := true; }
  }

  method CollectReads(nodes: seq<Node>, i: nat, names: seq<string>, bits: array2<bool>, b: nat, ghost kids: Forest)
    requires i < |nodes| && IsForest(nodes, nodes[i].first, kids)
    requires b < bits.Length0 && bits.Length1 == |names| && DistinctNames(names)
    modifies bits
    ensures CellsOf(bits) == old(CellsOf(bits)) + Row(b, names, ReadsNode(nodes[i].op, kids))
    decreases Size(kids)
  {
    if nodes[i].op.Variable? {
      MarkVariable(bits, b, names, nodes[i].op.name);
      return;
    }
    var c := nodes[i].first;
    ghost var todo, done := kids, {};
    while c != NO_NODE
      invariant IsForest(nodes, c, todo) && Size(todo) <= Size(kids)
      invariant done + ReadsList(todo) == ReadsList(kids)
      invariant CellsOf(bits) == old(CellsOf(bits)) + Row(b, names, done)
      decreases todo
    {
      CollectReads(nodes, c, names, bits, b, todo.kids);
      RowUnion(b, names, done, ReadsNode(todo.op, todo.kids));
      done := done + ReadsNode(todo.op, todo.kids);
      c, todo := nodes[c].next, todo.rest;
    }
  }

  /** The reads of the first child with a given role, if there is one. */
  method CollectChildReads(nodes: seq<Node>, i: nat, role: Role, names: seq<string>, bits: array2<bool>, b: nat, ghost kids: Forest)
    requires i < |nodes| && IsForest(nodes, nodes[i].first, kids)
    requires b < bits.Length0 && bits.Length1 == |names| && DistinctNames(names)
    modifies bits
    ensures CellsOf(bits) == old(CellsOf(bits)) + Row(b, names, ReadsFirst(Child(kids, role)))
  {
    var c := ChildRole(nodes, i, role, kids);
    if c != NO_NODE { CollectReads(nodes, c, names, bits, b, Child(kids, role).kids); }
  }

  lemma RowEmpty(b: int, names: seq<string>)
    ensures Row(b, names, {}) == {}
  {
  }

  /** The target of an assignment: a variable is set, anything else is read. */
  function TargetUses(target: Forest): set<string> {
    if target.Cons? && target.op.Variable? then {} else ReadsFirst(target)
  }

  method CollectTarget(nodes: seq<Node>, i: nat, names: seq<string>, uses: array2<bool>, defs: array2<bool>, b: nat, ghost kids: Forest)
    requires i < |nodes| && IsForest(nodes, nodes[i].first, kids) && uses != defs && DistinctNames(names)
    requires b < uses.Length0 == defs.Length0 && uses.Length1 == defs.Length1 == |names|
    modifies uses, defs
    ensures CellsOf(uses) == old(CellsOf(uses)) + Row(b, names, TargetUses(Child(kids, Target)))
    ensures CellsOf(defs) == old(CellsOf(defs)) + Row(b, names, StmtDefs(Assign, kids))
  {
    RowEmpty(b, names);
    var t := ChildRole(nodes, i, Target, kids);
    if t != NO_NODE && nodes[t].op.Variable? {
      MarkVariable(defs, b, names, nodes[t].op.name);
    } else if t != NO_NODE {
      CollectReads(nodes, t, names, uses, b, Child(kids, Target).kids);
    }
  }

  method CollectAssign(nodes: seq<Node>, i: nat, names: seq<string>, uses: array2<bool>, defs: array2<bool>, b: nat, ghost kids: Forest)
    requires i < |nodes| && IsForest(nodes, nodes[i].first, kids) && uses != defs && DistinctNames(names)
    requires b < uses.Length0 == defs.Length0 && uses.Length1 == defs.Length1 == |names|
    modifies uses, defs
    ensures CellsOf(uses) == old(CellsOf(uses)) + Row(b, names, StmtUses(Assign, kids))
    ensures CellsOf(defs) == old(CellsOf(defs)) + Row(b, names, StmtDefs(Assign, kids))
  {
    ghost var u := CellsOf(uses);
    CollectTarget(nodes, i, names, uses, defs, b, kids);
    CollectChildReads(nodes, i, Value, names, uses, b, kids);
    AddRows(u, b, names, TargetUses(Child(kids, Target)), ReadsFirst(Child(kids, Value)));
  }

  lemma AddRows(u: Cells, b: int, names: seq<string>, s: set<string>, t: set<string>)
    ensures u + Row(b, names, s) + Row(b, names, t) == u + Row(b, names, s + t)
  {
    RowUnion(b, names, s, t);
  }

  /** A declaration with a value sets its variable. */
  method CollectDecl(nodes: seq<Node>, i: nat, names: seq<string>, uses: array2<bool>, defs: array2<bool>, b: nat, ghost kids: Forest)
    requires i < |nodes| && nodes[i].op.Decl? && IsForest(nodes, nodes[i].first, kids) && uses != defs && DistinctNames(names)
    requires b < uses.Length0 == defs.Length0 && uses.Length1 == defs.Length1 == |names|
    modifies uses, defs
    ensures CellsOf(uses) == old(CellsOf(uses)) + Row(b, names, StmtUses(nodes[i].op, kids))
    ensures CellsOf(defs) == old(CellsOf(defs)) + Row(b, names, StmtDefs(nodes[i].op, kids))
  {
    ghost var u, d := CellsOf(uses), CellsOf(defs);
    var value := ChildRole(nodes, i, Value, kids);
    if value != NO_NODE {
      CollectReads(nodes, value, names, uses, b, Child(kids, Value).kids);
      MarkVariable(defs, b, names, nodes[i].op.decl);
    } else {
      AddNothing(u, b, names);
      AddNothing(d, b, names);
    }
  }

  lemma AddNothing(u: Cells, b: int, names: seq<string>)
    ensures u + Row(b, names, {}) == u
  {
    RowEmpty(b, names);
  }

  method CollectStatement(nodes: seq<Node>, i: nat, names: seq<string>, uses: array2<bool>, defs: array2<bool>, b: nat, ghost kids: Forest)
    requires i < |nodes| && IsForest(nodes, nodes[i].first, kids) && uses != defs && DistinctNames(names)
    requires b < uses.Length0 == defs.Length0 && uses.Length1 == defs.Length1 == |names|
    modifies uses, defs
    ensures CellsOf(uses) == old(CellsOf(uses)) + Row(b, names, StmtUses(nodes[i].op, kids))
    ensures CellsOf(defs) == old(CellsOf(defs)) + Row(b, names, StmtDefs(nodes[i].op, kids))
  {
    var op := nodes[i].op;
    if op.Decl? {
      CollectDecl(nodes, i, names, uses, defs, b, kids);
    } else if op.Reassign? {
      CollectChildReads(nodes, i, Value, names, uses, b, kids);
      MarkVariable(defs, b, names, op.target);
    } else if op.Assign? {
      CollectAssign(nodes, i, names, uses, defs, b, kids);
    } else {
      RowEmpty(b, names);
      if op.Print? || op.Return? {
        CollectChildReads(nodes, i, Value, names, uses, b, kids);
      } else {
        CollectReads(nodes, i, names, uses, b, kids);
      }
    }
  }

  method CollectBlock(nodes: seq<Node>, k: Block, names: seq<string>, uses: array2<bool>, defs: array2<bool>, b: nat, ghost root: nat, ghost f: Forest)
    requires HirValidate.IsTree(nodes, root, f) && Refers(k, |nodes|) && uses != defs && DistinctNames(names)
    requires b < uses.Length0 == defs.Length0 && uses.Length1 == defs.Length1 == |names|
    modifies uses, defs
    ensures CellsOf(uses) == old(CellsOf(uses)) + Row(b, names, BlockUses(nodes, f, k))
    ensures CellsOf(defs) == old(CellsOf(defs)) + Row(b, names, BlockDefs(nodes, f, k))
  {
    ghost var tested: set<string> := {};
    if k.condition != NO_NODE {
      KidsStoredAt(nodes, root, f, k.condition);
      CollectReads(nodes, k.condition, names, uses, b, HirValidate.KidsOf(f, k.condition));
      tested := ReadsNode(nodes[k.condition].op, HirValidate.KidsOf(f, k.condition));
    }
    if k.instruction != NO_NODE {
      ghost var kids := HirValidate.KidsOf(f, k.instruction);
      KidsStoredAt(nodes, root, f, k.instruction);
      CollectStatement(nodes, k.instruction, names, uses, defs, b, kids);
      RowUnion(b, names, tested, StmtUses(nodes[k.instruction].op, kids));
    }
  }

  lemma {:induction false} KidsStoredAt(nodes: seq<Node>, at: int, f: Forest, i: nat)
    requires IsForest(nodes, at, f) && i in Footprint(f)
    ensures i < |nodes| && IsForest(nodes, nodes[i].first, HirValidate.KidsOf(f, i))
    decreases f
  {
    if f.idx != i {
      if i in Footprint(f.kids) { KidsStoredAt(nodes, nodes[at].first, f.kids, i); } else { KidsStoredAt(nodes, nodes[at].next, f.rest, i); }
    }
  }

  /** All rows. */
  ghost function Rows(nodes: seq<Node>, f: Forest, blocks: seq<Block>, names: seq<string>, n: nat, defs: bool): Cells
    requires n <= |blocks|
  {
    set b, v | 0 <= b < n && 0 <= v < |names| && names[v] in (if defs then BlockDefs(nodes, f, blocks[b]) else BlockUses(nodes, f, blocks[b])) :: (b, v)
  }

  method CollectEffects(nodes: seq<Node>, blocks: seq<Block>, names: seq<string>, ghost root: nat, ghost f: Forest)
      returns (uses: array2<bool>, defs: array2<bool>)
    requires HirValidate.IsTree(nodes, root, f) && DistinctNames(names)
    requires forall b :: 0 <= b < |blocks| ==> Refers(blocks[b], |nodes|)
    ensures fresh(uses) && fresh(defs) && uses != defs
    ensures uses.Length0 == defs.Length0 == |blocks| && uses.Length1 == defs.Length1 == |names|
    ensures CellsOf(uses) == Rows(nodes, f, blocks, names, |blocks|, false)
    ensures CellsOf(defs) == Rows(nodes, f, blocks, names, |blocks|, true)
  {
    uses := new bool[|blocks|, |names|]((_, _) => false);
    defs := new bool[|blocks|, |names|]((_, _) => false);
    var b := 0;
    while b < |blocks|
      invariant 0 <= b <= |blocks|
      invariant CellsOf(uses) == Rows(nodes, f, blocks, names, b, false)
      invariant CellsOf(defs) == Rows(nodes, f, blocks, names, b, true)
    {
      CollectBlock(nodes, blocks[b], names, uses, defs, b, root, f);
      b := b + 1;
    }
  }

  // ---- Every variable read has a name in the list ----

  predicate Named(nodes: seq<Node>, names: seq<string>) {
    forall i, x :: 0 <= i < |nodes| && x in NodeNames(nodes[i].op) ==> x in names
  }

  lemma {:induction false} ReadsNamed(nodes: seq<Node>, names: seq<string>, i: int, f: Forest)
    requires Named(nodes, names) && IsForest(nodes, i, f)
    ensures forall x :: x in ReadsList(f) ==> x in names
    decreases f
  {
    if f.Cons? {
      ReadsNamed(nodes, names, nodes[i].first, f.kids);
      ReadsNamed(nodes, names, nodes[i].next, f.rest);
      assert f.op.Variable? ==> f.op.name in NodeNames(nodes[i].op);
    }
  }

  lemma {:induction false} ChildReadsSubset(f: Forest, role: Role)
    ensures ReadsFirst(Child(f, role)) <= ReadsList(f)
  {
    if f.Cons? && f.role != role { ChildReadsSubset(f.rest, role); }
  }

  lemma {:induction false} NodeReadsNamed(nodes: seq<Node>, names: seq<string>, root: nat, f: Forest, i: nat)
    requires Named(nodes, names) && HirValidate.IsTree(nodes, root, f) && i < |nodes|
    ensures var kids := HirValidate.KidsOf(f, i);
      && (forall x :: x in ReadsNode(nodes[i].op, kids) ==> x in names)
      && (forall x :: x in StmtUses(nodes[i].op, kids) ==> x in names)
  {
    var kids := HirValidate.KidsOf(f, i);
    KidsStoredAt(nodes, root, f, i);
    ReadsNamed(nodes, names, nodes[i].first, kids);
    assert nodes[i].op.Variable? ==> nodes[i].op.name in NodeNames(nodes[i].op);
    ChildReadsSubset(kids, Value);
    ChildReadsSubset(kids, Target);
  }

  lemma UsesNamed(nodes: seq<Node>, names: seq<string>, root: nat, f: Forest, k: Block)
    requires Named(nodes, names) && HirValidate.IsTree(nodes, root, f)
    ensures forall x :: x in BlockUses(nodes, f, k) ==> x in names
  {
    if Link(k.condition, |nodes|) { NodeReadsNamed(nodes, names, root, f, k.condition); }
    if Link(k.instruction, |nodes|) { NodeReadsNamed(nodes, names, root, f, k.instruction); }
  }
}
