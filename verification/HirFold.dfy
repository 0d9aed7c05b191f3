/** The optimizer's in-place passes over the node array (src/compiler/ir.c). Each method
    takes the list it works on as a ghost argument and leaves the array holding the list
    that the corresponding specification function computes. */
module HirFold {
  import opened Options
  import opened Hir
  import opened HirSemantics
  import opened HirRewrite
  import opened HirRewriteSound
  import opened HirArray

  /** A list whose first node has been rewritten, the siblings untouched. */
  function RewriteHead(pass: Pass, f: Forest): Forest
    requires f.Cons?
  {
    var (op, kids) := Rewrite(pass, f.op, Bottom(pass, f.kids));
    f.(op := op, kids := kids)
  }

  lemma {:induction false} PruneFootprint(f: Forest, ended: set<Role>)
    ensures Footprint(Prune(f, ended)) <= Footprint(f)
    ensures Distinct(f) ==> Distinct(Prune(f, ended))
  {
    if f.Cons? {
      PruneFootprint(f.rest, ended);
      PruneFootprint(f.rest, ended + {f.role});
    }
  }

  lemma {:induction false} ArmFootprint(f: Forest, chosen: Role)
    ensures Footprint(Arm(f, chosen)) <= Footprint(f)
    ensures Distinct(f) ==> Distinct(Arm(f, chosen))
  {
    if f.Cons? { ArmFootprint(f.rest, chosen); }
  }

  lemma RewriteFootprint(pass: Pass, op: Op, kids: Forest)
    ensures var k := Rewrite(pass, op, kids).1;
      Footprint(k) <= Footprint(kids) && (Distinct(kids) ==> Distinct(k))
  {
    ArmFootprint(kids, Then);
    ArmFootprint(kids, Else);
    var k := SimplifyNode(op, kids).1;
    PruneFootprint(k, {});
  }

  lemma {:induction false} BottomFootprint(pass: Pass, f: Forest)
    ensures Footprint(Bottom(pass, f)) <= Footprint(f)
    ensures Distinct(f) ==> Distinct(Bottom(pass, f))
  {
    if f.Cons? {
      BottomFootprint(pass, f.kids);
      BottomFootprint(pass, f.rest);
      RewriteFootprint(pass, f.op, Bottom(pass, f.kids));
    }
  }

  /** A pass over the child list `kids` that starts at link `first`: `done` is already
      rewritten in the array and `todo` is not. */
  ghost predicate Progress(nodes: seq<Node>, first: int, pass: Pass, kids: Forest, done: Forest, todo: Forest) {
    && IsSegment(nodes, first, done, Start(todo))
    && IsForest(nodes, Start(todo), todo)
    && Footprint(done) + Footprint(todo) <= Footprint(kids)
    && Footprint(done) !! Footprint(todo)
    && Distinct(todo)
    && Canonical(todo)
    && Append(done, Bottom(pass, todo)) == Bottom(pass, kids)
  }

  lemma {:induction false} ProgressStep(before: seq<Node>, after: seq<Node>, first: int, pass: Pass, kids: Forest, done: Forest, todo: Forest)
    requires todo.Cons? && Progress(before, first, pass, kids, done, todo)
    requires IsForest(after, todo.idx, RewriteHead(pass, todo))
    requires SameOutside(before, after, {todo.idx} + Footprint(todo.kids))
    ensures Progress(after, first, pass, kids, Append(done, Single(RewriteHead(pass, todo))), todo.rest)
    ensures after[todo.idx].next == Start(todo.rest)
    ensures Append(Append(done, Single(todo)), todo.rest) == Append(done, todo)
  {
    var head := Single(RewriteHead(pass, todo));
    var next := after[todo.idx].next;
    assert IsSegment(after, todo.idx, head, next);
    SegmentFrame(before, after, {todo.idx} + Footprint(todo.kids), first, done, todo.idx);
    SegmentAppend(after, first, done, todo.idx, head, next);
    AppendFacts(done, head);
    AppendAssociative(done, head, Bottom(pass, todo.rest));
    AppendAssociative(done, Single(todo), todo.rest);
    BottomFootprint(pass, todo.kids);
    RewriteFootprint(pass, todo.op, Bottom(pass, todo.kids));
  }

  /** The index of the last sibling with a given role. */
  function LastWith(f: Forest, role: Role): int {
    if f.Nil? then NO_NODE
    else if LastWith(f.rest, role) != NO_NODE then LastWith(f.rest, role)
    else if f.role == role then f.idx
    else NO_NODE
  }

  lemma {:induction false} LastWithAppend(f: Forest, g: Forest, role: Role)
    ensures LastWith(Append(f, g), role)
         == if LastWith(g, role) != NO_NODE then LastWith(g, role) else LastWith(f, role)
  {
    if f.Cons? { LastWithAppend(f.rest, g, role); }
  }

  lemma LastWithPair(kids: Forest)
    requires Pair(kids, Left, Right)
    ensures LastWith(kids, Left) == kids.idx && LastWith(kids, Right) == kids.rest.idx
  {
    assert LastWith(kids.rest.rest, Left) == LastWith(kids.rest.rest, Right) == NO_NODE;
    assert LastWith(kids.rest, Left) == NO_NODE;
  }

  /** Folds the children of `index` and finds its left and right operands. */
  method FoldChildren(ir: IrProgram, index: nat, changed: nat, ghost f: Forest) returns (left: int, right: int, total: nat)
    requires f.Cons? && f.idx == index && IsForest(ir.nodes, index, f) && Distinct(f) && Canonical(f)
    modifies ir`nodes
    ensures SameOutside(old(ir.nodes), ir.nodes, Footprint(f.kids))
    ensures IsForest(ir.nodes, ir.nodes[index].first, Bottom(FoldPass, f.kids))
    ensures total >= changed && (total == changed ==> Bottom(FoldPass, f.kids) == f.kids)
    ensures left == LastWith(Bottom(FoldPass, f.kids), Left)
    ensures right == LastWith(Bottom(FoldPass, f.kids), Right)
    decreases f, 0
  {
    left, right, total := NO_NODE, NO_NODE, changed;
    var c := ir.nodes[index].first;
    ghost var first, done, todo := c, Nil, f.kids;
    while c != NO_NODE
      invariant c == Start(todo) && Progress(ir.nodes, first, FoldPass, f.kids, done, todo)
      invariant total >= changed && (total == changed ==> Append(done, todo) == f.kids)
      invariant SameOutside(old(ir.nodes), ir.nodes, Footprint(f.kids))
      invariant left == LastWith(done, Left) && right == LastWith(done, Right)
      decreases todo
    {
      if ir.nodes[c].role == Left { left := c; } else if ir.nodes[c].role == Right { right := c; }
      ghost var before := ir.nodes;
      total := FoldNode(ir, c, total, todo);
      ghost var head := Single(RewriteHead(FoldPass, todo));
      ProgressStep(before, ir.nodes, first, FoldPass, f.kids, done, todo);
      LastWithAppend(done, head, Left);
      LastWithAppend(done, head, Right);
      done, todo, c := Append(done, head), todo.rest, ir.nodes[c].next;
    }
    AppendNil(done);
  }

  /** Folds the subtree at `index` and adds the number of folded nodes to `changed`. */
  method FoldNode(ir: IrProgram, index: nat, changed: nat, ghost f: Forest) returns (total: nat)
    requires f.Cons? && f.idx == index && IsForest(ir.nodes, index, f) && Distinct(f) && Canonical(f)
    modifies ir`nodes
    ensures IsForest(ir.nodes, index, RewriteHead(FoldPass, f))
    ensures SameOutside(old(ir.nodes), ir.nodes, {index} + Footprint(f.kids))
    ensures total >= changed && (total == changed ==> RewriteHead(FoldPass, f) == f)
    decreases f, 1
  {
    var left, right;
    left, right, total := FoldChildren(ir, index, changed, f);
    ghost var kids := Bottom(FoldPass, f.kids);
    BottomNode(FoldPass, f.op, f.kids);
    BottomRoles(FoldPass, f.kids);
    var lit := FoldedLiteral(ir, index, left, right, kids);
    if lit.Some? {
      ir.nodes := ir.nodes[index := ir.nodes[index].(op := lit.value, first := NO_NODE, last := NO_NODE, count := 0)];
      total := total + 1;
    }
    SegmentFrame(old(ir.nodes), ir.nodes, {index} + Footprint(f.kids), old(ir.nodes[index].next), f.rest, NO_NODE);
  }

  /** The literal that node `index` folds to, from its folded operands. */
  method FoldedLiteral(ir: IrProgram, index: nat, left: int, right: int, ghost kids: Forest) returns (lit: Option<Op>)
    requires index < |ir.nodes| && IsForest(ir.nodes, ir.nodes[index].first, kids) && CanonicalNode(ir.nodes[index].op, kids)
    requires left == LastWith(kids, Left) && right == LastWith(kids, Right)
    ensures lit == Folded(ir.nodes[index].op, kids)
  {
    var op := ir.nodes[index].op;
    lit := None;
    if op.Unary? {
      var operand := ChildRole(ir, index, Operand, kids);
      lit := FoldUnary(op.uop, ir.nodes[operand].op);
    } else if op.Binary? {
      LastWithPair(kids);
      assert IsForest(ir.nodes, ir.nodes[left].next, kids.rest);
      lit := FoldBinary(op.bop, ir.nodes[left].op, ir.nodes[right].op);
    }
  }
}
