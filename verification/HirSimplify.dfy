/** Control-flow simplification in place: constant branches and dead statements. */
module HirSimplify {
  import opened Hir
  import opened HirSemantics
  import opened HirRewrite
  import opened HirRewriteSound
  import opened HirArray
  import opened HirFold

  // ---- Dropping statements after a terminator ----

  /** The part of a child list already kept, whose last sibling link is still stale. */
  ghost predicate Kept(nodes: seq<Node>, first: int, last: int, kept: Forest) {
    && last == LastIdx(kept)
    && Distinct(kept)
    && if kept.Nil? then first == NO_NODE
       else 0 <= last < |nodes| && IsSegment(nodes, first, kept, nodes[last].next)
  }

  /** Linking one more node behind the kept ones. */
  lemma {:induction false} KeepNext(before: seq<Node>, first: int, last: nat, kept: Forest, cur: nat, todo: Forest)
    requires Kept(before, first, last, kept) && kept.Cons?
    requires todo.Cons? && IsForest(before, cur, todo) && Distinct(todo) && Footprint(kept) !! Footprint(todo)
    ensures last in Footprint(kept)
    ensures var after := before[last := before[last].(next := cur)];
      && after[cur] == before[cur]
      && Kept(after, first, cur, Append(kept, Single(todo)))
      && IsForest(after, after[cur].next, todo.rest)
  {
    var one := Single(todo);
    SegmentEnd(before, first, kept, before[last].next, cur);
    var after := before[last := before[last].(next := cur)];
    assert IsForest(after, cur, todo) by {
      SegmentFrame(before, after, Footprint(kept), cur, todo, NO_NODE);
    }
    assert Distinct(Append(kept, one)) && LastIdx(Append(kept, one)) == cur by {
      SingleFacts(todo);
      AppendFacts(kept, one);
    }
    assert IsSegment(after, first, Append(kept, one), after[cur].next) by {
      assert IsSegment(after, cur, one, after[cur].next);
      SegmentAppend(after, first, kept, cur, one, after[cur].next);
    }
  }

  lemma KeepFirst(nodes: seq<Node>, cur: nat, todo: Forest)
    requires todo.Cons? && IsForest(nodes, cur, todo) && Distinct(todo)
    ensures Kept(nodes, cur, cur, Append(Nil, Single(todo)))
  {
    assert IsSegment(nodes, cur, Single(todo), nodes[cur].next);
  }

  /** Pruning the child list `kids`: `done` is kept and linked, `todo` starts at `cur`. */
  ghost predicate Pruning(nodes: seq<Node>, first: int, last: int, kids: Forest, done: Forest, todo: Forest, ended: set<Role>) {
    && Kept(nodes, first, last, done)
    && IsForest(nodes, Start(todo), todo) && Distinct(todo)
    && Footprint(done) + Footprint(todo) <= Footprint(kids) && Footprint(done) !! Footprint(todo)
    && Append(done, Prune(todo, ended)) == Prune(kids, {})
  }

  function EndedAfter(ended: set<Role>, role: Role, op: Op): set<Role> {
    if StatementRole(role) && Terminator(op) then ended + {role} else ended
  }

  function LinkedTo(nodes: seq<Node>, last: int, cur: nat): seq<Node> {
    if 0 <= last < |nodes| then nodes[last := nodes[last].(next := cur)] else nodes
  }

  lemma PruneSkip(nodes: seq<Node>, first: int, last: int, kids: Forest, done: Forest, todo: Forest, ended: set<Role>)
    requires todo.Cons? && Pruning(nodes, first, last, kids, done, todo, ended) && StatementRole(todo.role) && todo.role in ended
    ensures Pruning(nodes, first, last, kids, done, todo.rest, ended) && nodes[todo.idx].next == Start(todo.rest)
  {
  }

  lemma PruneKeep(nodes: seq<Node>, first: int, last: int, kids: Forest, done: Forest, todo: Forest, ended: set<Role>)
    requires todo.Cons? && Pruning(nodes, first, last, kids, done, todo, ended) && !(StatementRole(todo.role) && todo.role in ended)
    ensures var after := LinkedTo(nodes, last, todo.idx);
      && Pruning(after, if first == NO_NODE then todo.idx else first, todo.idx, kids, Append(done, Single(todo)), todo.rest,
                 EndedAfter(ended, todo.role, todo.op))
      && after[todo.idx] == nodes[todo.idx] && after[todo.idx].next == Start(todo.rest)
    ensures (first == NO_NODE <==> done.Nil?) && (done.Cons? ==> 0 <= last < |nodes| && last in Footprint(kids))
    ensures Append(Append(done, Single(todo)), todo.rest) == Append(done, todo)
    ensures Len(Append(done, Single(todo))) == Len(done) + 1
  {
    AppendAssociative(done, Single(todo), todo.rest);
    AppendAssociative(done, Single(todo), Prune(todo.rest, EndedAfter(ended, todo.role, todo.op)));
    SingleFacts(todo);
    AppendFacts(done, Single(todo));
    if done.Nil? {
      KeepFirst(nodes, todo.idx, todo);
    } else {
      assert first == done.idx;
      KeepNext(nodes, first, last, done, todo.idx, todo);
    }
  }

  method PruneSequence(ir: IrProgram, parent: nat, changed: nat, ghost kids: Forest) returns (total: nat)
    requires parent < |ir.nodes| && IsForest(ir.nodes, ir.nodes[parent].first, kids)
    requires Distinct(kids) && parent !in Footprint(kids)
    modifies ir`nodes
    ensures SameOutside(old(ir.nodes), ir.nodes, {parent} + Footprint(kids))
    ensures IsForest(ir.nodes, ir.nodes[parent].first, Prune(kids, {}))
    ensures ir.nodes[parent] == old(ir.nodes[parent]).(first := Start(Prune(kids, {})),
                                                       last := LastIdx(Prune(kids, {})),
                                                       count := Len(Prune(kids, {})))
    ensures total >= changed && (total == changed ==> Prune(kids, {}) == kids)
  {
    total := changed;
    var terminated: set<Role> := {};
    var cur, first, last, kept := ir.nodes[parent].first, NO_NODE, NO_NODE, 0;
    ghost var done, todo := Nil, kids;
    while cur != NO_NODE
      invariant cur == Start(todo) && Pruning(ir.nodes, first, last, kids, done, todo, terminated) && kept == Len(done)
      invariant total >= changed && (total == changed ==> Append(done, todo) == kids)
      invariant SameOutside(old(ir.nodes), ir.nodes, Footprint(kids))
      decreases todo
    {
      var current, role := cur, ir.nodes[cur].role;
      if StatementRole(role) && role in terminated {
        PruneSkip(ir.nodes, first, last, kids, done, todo, terminated);
        cur := ir.nodes[current].next;
        total := total + 1;
      } else {
        PruneKeep(ir.nodes, first, last, kids, done, todo, terminated);
        if first == NO_NODE {
          first := current;
        } else {
          ir.nodes := ir.nodes[last := ir.nodes[last].(next := current)];
        }
        last, kept, cur := current, kept + 1, ir.nodes[current].next;
        if StatementRole(role) && Terminator(ir.nodes[current].op) { terminated := terminated + {role}; }
        done := Append(done, Single(todo));
      }
      todo := todo.rest;
    }
    AppendNil(done);
    if last != NO_NODE {
      SegmentEnd(ir.nodes, first, done, ir.nodes[last].next, NO_NODE);
      ir.nodes := ir.nodes[last := ir.nodes[last].(next := NO_NODE)];
    }
    ghost var linked := ir.nodes;
    ir.nodes := ir.nodes[parent := ir.nodes[parent].(first := first, last := last, count := kept)];
    SegmentFrame(linked, ir.nodes, {parent}, first, done, NO_NODE);
  }

  // ---- Selecting an arm of a constant branch ----

  /** The siblings with a given role. */
  function Filter(f: Forest, role: Role): Forest {
    if f.Nil? then Nil
    else if f.role == role then f.(rest := Filter(f.rest, role))
    else Filter(f.rest, role)
  }

  function AsStatements(f: Forest): Forest {
    if f.Nil? then Nil else f.(role := Statement, rest := AsStatements(f.rest))
  }

  lemma {:induction false} ArmIsFilter(f: Forest, role: Role)
    ensures Arm(f, role) == AsStatements(Filter(f, role))
  {
    if f.Cons? { ArmIsFilter(f.rest, role); }
  }

  lemma {:induction false} FilterFacts(f: Forest, role: Role)
    ensures Footprint(Filter(f, role)) <= Footprint(f)
    ensures Distinct(f) ==> Distinct(Filter(f, role))
    ensures LastIdx(Filter(f, role)) == LastWith(f, role)
    ensures Start(Filter(f, role)) == Start(Child(f, role))
  {
    if f.Cons? { FilterFacts(f.rest, role); }
  }

  lemma {:induction false} StatementsFacts(f: Forest)
    ensures Footprint(AsStatements(f)) == Footprint(f) && Len(AsStatements(f)) == Len(f)
    ensures LastIdx(AsStatements(f)) == LastIdx(f)
  {
    if f.Cons? { StatementsFacts(f.rest); }
  }

  lemma {:induction false} UniformFilter(f: Forest, r: Role, role: Role)
    requires AllRole(f, r)
    ensures Filter(f, role) == if r == role then f else Nil
  {
    if f.Cons? { UniformFilter(f.rest, r, role); }
  }

  /** THEN and ELSE children are contiguous, so an arm is a segment of the child list. */
  lemma {:induction false} ArmSegment(nodes: seq<Node>, i: int, f: Forest, role: Role)
    requires IsForest(nodes, i, f) && ThenElse(f) && (role == Then || role == Else) && Filter(f, role).Cons?
    ensures 0 <= LastWith(f, role) < |nodes|
    ensures IsSegment(nodes, Start(Filter(f, role)), Filter(f, role), nodes[LastWith(f, role)].next)
    decreases f
  {
    assert ThenElse(f.rest) by { assert f.role != Then ==> AllRole(f.rest, Else); }
    FilterFacts(f.rest, role);
    if f.role != role {
      ArmSegment(nodes, nodes[i].next, f.rest, role);
    } else if Filter(f.rest, role).Cons? {
      ArmSegment(nodes, nodes[i].next, f.rest, role);
      ThenFirst(f, role);
    }
  }

  lemma {:induction false} ThenFirst(f: Forest, role: Role)
    requires f.Cons? && ThenElse(f) && f.role == role && (role == Then || role == Else) && Filter(f.rest, role).Cons?
    ensures Start(Filter(f.rest, role)) == Start(f.rest) && LastWith(f.rest, role) != NO_NODE
  {
    FilterFacts(f.rest, role);
    if role == Then {
      if f.rest.role != Then { UniformFilter(f.rest, Else, Then); }
    } else {
      UniformFilter(f.rest, Else, Else);
    }
  }

  /** First, last and number of the children with a given role. */
  method ArmBounds(ir: IrProgram, index: nat, chosen: Role, ghost kids: Forest) returns (first: int, last: int, count: nat)
    requires index < |ir.nodes| && IsForest(ir.nodes, ir.nodes[index].first, kids)
    ensures first == Start(Filter(kids, chosen)) && last == LastWith(kids, chosen) && count == Len(Filter(kids, chosen))
  {
    first, last, count := NO_NODE, NO_NODE, 0;
    var c := ir.nodes[index].first;
    ghost var done, todo := Nil, kids;
    while c != NO_NODE
      invariant IsForest(ir.nodes, c, todo) && Append(done, todo) == kids
      invariant first == Start(Filter(done, chosen)) && last == LastWith(done, chosen) && count == Len(Filter(done, chosen))
      decreases todo
    {
      if ir.nodes[c].role == chosen {
        if first == NO_NODE { first := c; }
        last, count := c, count + 1;
      }
      FilterAppend(done, todo, chosen);
      LastWithAppend(done, Single(todo), chosen);
      AppendAssociative(done, Single(todo), todo.rest);
      done, todo, c := Append(done, Single(todo)), todo.rest, ir.nodes[c].next;
    }
    AppendNil(done);
  }

  lemma {:induction false} FilterAppend(f: Forest, g: Forest, role: Role)
    requires g.Cons?
    ensures var h := Filter(Append(f, Single(g)), role);
      && Start(h) == (if Filter(f, role).Cons? then Start(Filter(f, role)) else if g.role == role then g.idx else NO_NODE)
      && Len(h) == Len(Filter(f, role)) + if g.role == role then 1 else 0
  {
    if f.Cons? { FilterAppend(f.rest, g, role); }
  }

  /** Turns a sibling list into plain statements. */
  method MakeStatements(ir: IrProgram, first: int, ghost f: Forest)
    requires IsForest(ir.nodes, first, f) && Distinct(f)
    modifies ir`nodes
    ensures IsForest(ir.nodes, first, AsStatements(f))
    ensures SameOutside(old(ir.nodes), ir.nodes, Footprint(f))
  {
    var c := first;
    ghost var done, todo := Nil, f;
    while c != NO_NODE
      invariant IsSegment(ir.nodes, first, done, c) && IsForest(ir.nodes, c, todo) && Distinct(todo)
      invariant Footprint(done) !! Footprint(todo) && Footprint(todo) <= Footprint(f)
      invariant Append(done, AsStatements(todo)) == AsStatements(f)
      invariant SameOutside(old(ir.nodes), ir.nodes, Footprint(f))
      decreases todo
    {
      ghost var before, head := ir.nodes, todo.(role := Statement);
      SetHead(ir.nodes, todo, todo.op, Statement);
      ir.nodes := ir.nodes[c := ir.nodes[c].(role := Statement)];
      assert ir.nodes == before[c := before[c].(op := todo.op, role := Statement)];
      Advance(before, ir.nodes, {c}, first, done, todo, head);
      SingleFacts(head);
      AppendFacts(done, Single(head));
      AppendAssociative(done, Single(head), AsStatements(todo.rest));
      done, todo, c := Append(done, Single(head)), todo.rest, ir.nodes[c].next;
    }
    AppendNil(done);
  }

  /** Replaces a constant branch by the sequence of its chosen arm. */
  method ChooseArm(ir: IrProgram, index: nat, chosen: Role, ghost kids: Forest)
    requires index < |ir.nodes| && IsForest(ir.nodes, ir.nodes[index].first, kids)
    requires Distinct(kids) && index !in Footprint(kids) && CanonicalNode(If, kids) && (chosen == Then || chosen == Else)
    modifies ir`nodes
    ensures SameOutside(old(ir.nodes), ir.nodes, {index} + Footprint(kids))
    ensures var arm := Arm(kids, chosen);
      IsForest(ir.nodes, Start(arm), arm) &&
      ir.nodes[index] == old(ir.nodes[index]).(op := Program, first := Start(arm), last := LastIdx(arm), count := Len(arm))
  {
    ghost var mid := Filter(kids, chosen);
    FilterFacts(kids, chosen);
    ArmIsFilter(kids, chosen);
    StatementsFacts(mid);
    var first, last, count := ArmBounds(ir, index, chosen, kids);
    if last != NO_NODE {
      assert mid == Filter(kids.rest, chosen);
      FilterFacts(kids.rest, chosen);
      ArmSegment(ir.nodes, ir.nodes[kids.idx].next, kids.rest, chosen);
      SegmentEnd(ir.nodes, first, mid, ir.nodes[last].next, NO_NODE);
      ir.nodes := ir.nodes[last := ir.nodes[last].(next := NO_NODE)];
      MakeStatements(ir, first, mid);
    }
    ghost var before := ir.nodes;
    ir.nodes := ir.nodes[index := ir.nodes[index].(op := Program, first := first, last := last, count := count)];
    SegmentFrame(before, ir.nodes, {index}, first, Arm(kids, chosen), NO_NODE);
  }

  // ---- The recursive pass ----

  method SimplifyChildren(ir: IrProgram, index: nat, changed: nat, ghost f: Forest) returns (total: nat)
    requires f.Cons? && f.idx == index && IsForest(ir.nodes, index, f) && Distinct(f) && Canonical(f)
    modifies ir`nodes
    ensures SameOutside(old(ir.nodes), ir.nodes, Footprint(f.kids))
    ensures IsForest(ir.nodes, ir.nodes[index].first, Bottom(SimplifyPass, f.kids))
    ensures total >= changed && (total == changed ==> Bottom(SimplifyPass, f.kids) == f.kids)
    decreases f, 0
  {
    total := changed;
    var c := ir.nodes[index].first;
    ghost var first, done, todo := c, Nil, f.kids;
    while c != NO_NODE
      invariant c == Start(todo) && Progress(ir.nodes, first, SimplifyPass, f.kids, done, todo)
      invariant total >= changed && (total == changed ==> Append(done, todo) == f.kids)
      invariant SameOutside(old(ir.nodes), ir.nodes, Footprint(f.kids))
      decreases todo
    {
      var next := ir.nodes[c].next;
      ghost var before := ir.nodes;
      total := Simplify(ir, c, total, todo);
      ProgressStep(before, ir.nodes, first, SimplifyPass, f.kids, done, todo);
      done, todo, c := Append(done, Single(RewriteHead(SimplifyPass, todo))), todo.rest, next;
    }
    AppendNil(done);
  }

  /** Rewrites a constant branch or a loop that never runs. */
  method SimplifyBranch(ir: IrProgram, index: nat, changed: nat, ghost kids: Forest) returns (total: nat)
    requires index < |ir.nodes| && IsForest(ir.nodes, ir.nodes[index].first, kids)
    requires Distinct(kids) && index !in Footprint(kids) && CanonicalNode(ir.nodes[index].op, kids)
    requires ir.nodes[index].last == LastIdx(kids) && ir.nodes[index].count == Len(kids)
    modifies ir`nodes
    ensures SameOutside(old(ir.nodes), ir.nodes, {index} + Footprint(kids))
    ensures var (op, k) := SimplifyNode(old(ir.nodes[index].op), kids);
      IsForest(ir.nodes, Start(k), k) &&
      ir.nodes[index] == old(ir.nodes[index]).(op := op, first := Start(k), last := LastIdx(k), count := Len(k))
    ensures total >= changed && (total == changed ==> SimplifyNode(old(ir.nodes[index].op), kids) == (old(ir.nodes[index].op), kids))
  {
    total := changed;
    var op := ir.nodes[index].op;
    if op.If? || op.While? {
      var cond := ChildRole(ir, index, Condition, kids);
      if cond != NO_NODE && ir.nodes[cond].op.Boolean? {
        var b := ir.nodes[cond].op.b;
        if op.If? {
          ChooseArm(ir, index, if b then Then else Else, kids);
          total := total + 1;
        } else if !b {
          ir.nodes := ir.nodes[index := ir.nodes[index].(op := Program, first := NO_NODE, last := NO_NODE, count := 0)];
          total := total + 1;
        }
      }
    }
  }

  lemma SimplifiedKids(f: Forest)
    requires f.Cons? && Distinct(f) && Canonical(f)
    ensures var kids := Bottom(SimplifyPass, f.kids);
      && CanonicalNode(f.op, kids) && Distinct(kids) && Footprint(kids) <= Footprint(f.kids)
      && Len(kids) == Len(f.kids) && LastIdx(kids) == LastIdx(f.kids)
  {
    BottomNode(SimplifyPass, f.op, f.kids);
    BottomRoles(SimplifyPass, f.kids);
    BottomFootprint(SimplifyPass, f.kids);
  }

  lemma SimplifiedFootprint(op: Op, kids: Forest)
    ensures var k := SimplifyNode(op, kids).1; Footprint(k) <= Footprint(kids) && (Distinct(kids) ==> Distinct(k))
  {
    ArmFootprint(kids, Then);
    ArmFootprint(kids, Else);
  }

  /** Simplifies the subtree at `index`, counting what it removes. */
  method Simplify(ir: IrProgram, index: nat, changed: nat, ghost f: Forest) returns (total: nat)
    requires f.Cons? && f.idx == index && IsForest(ir.nodes, index, f) && Distinct(f) && Canonical(f)
    modifies ir`nodes
    ensures IsForest(ir.nodes, index, RewriteHead(SimplifyPass, f))
    ensures SameOutside(old(ir.nodes), ir.nodes, {index} + Footprint(f.kids))
    ensures total >= changed && (total == changed ==> RewriteHead(SimplifyPass, f) == f)
    decreases f, 1
  {
    total := SimplifyChildren(ir, index, changed, f);
    ghost var kids := Bottom(SimplifyPass, f.kids);
    SimplifiedKids(f);
    total := SimplifyBranch(ir, index, total, kids);
    ghost var simplified := SimplifyNode(f.op, kids).1;
    SimplifiedFootprint(f.op, kids);
    total := PruneSequence(ir, index, total, simplified);
    SegmentFrame(old(ir.nodes), ir.nodes, {index} + Footprint(f.kids), old(ir.nodes[index].next), f.rest, NO_NODE);
  }
}
