/** Constant propagation in place. */
module HirPropagatePass {
  import opened Operators
  import opened Hir
  import opened HirArray
  import opened HirPropagate
  import opened HirConstants

  // ---- What substitution and propagation leave alone ----

  lemma {:induction false} SubstFacts(f: Forest, env: Facts)
    ensures var g := SubstList(f, env).0;
      Footprint(g) == Footprint(f) && Len(g) == Len(f) && LastIdx(g) == LastIdx(f) && (Distinct(f) ==> Distinct(g))
    decreases f, 0
  {
    if f.Cons? {
      SubstNodeFacts(f.op, f.kids, env);
      SubstFacts(f.rest, SubstNode(f.op, f.kids, env).2);
    }
  }

  lemma {:induction false} SubstNodeFacts(op: Op, kids: Forest, env: Facts)
    ensures var k := SubstNode(op, kids, env).1;
      Footprint(k) == Footprint(kids) && Len(k) == Len(kids) && LastIdx(k) == LastIdx(kids) && (Distinct(kids) ==> Distinct(k))
    decreases kids, 1
  {
    SubstFacts(kids, env);
  }

  // ---- Expressions ----

  /** Does the subtree at `index` contain a call? */
  method ContainsCallAt(ir: IrProgram, index: nat, ghost f: Forest) returns (b: bool)
    requires f.Cons? && f.idx == index && IsForest(ir.nodes, index, f)
    ensures b <==> f.op.Call? || ContainsCall(f.kids)
    decreases f
  {
    if ir.nodes[index].op.Call? { return true; }
    var c := ir.nodes[index].first;
    ghost var todo := f.kids;
    while c != NO_NODE
      invariant IsForest(ir.nodes, c, todo) && (ContainsCall(todo) <==> ContainsCall(f.kids))
      invariant todo.Cons? ==> todo < f
      decreases todo
    {
      b := ContainsCallAt(ir, c, todo);
      if b { return; }
      c, todo := ir.nodes[c].next, todo.rest;
    }
    b := false;
  }

  /** A direct write forgets its variable; an indirect one may alias any of them. */
  method ForgetTarget(ir: IrProgram, index: nat, env: ConstantEnv, ghost kids: Forest)
    requires index < |ir.nodes| && IsForest(ir.nodes, ir.nodes[index].first, kids) && env.Valid()
    modifies env
    ensures env.Valid() && env.facts == AfterWrite(kids, old(env.facts))
  {
    var target := ChildRole(ir, index, Target, kids);
    if target != NO_NODE && ir.nodes[target].op.Variable? {
      env.Invalidate(ir.nodes[target].op.name);
    } else {
      env.Clear();
    }
  }

  /** A list whose first node has been substituted into. */
  function SubstHead(f: Forest, env: Facts): Forest
    requires f.Cons?
  {
    var s := SubstNode(f.op, f.kids, env);
    f.(op := s.0, kids := s.1)
  }

  method SubstituteChildren(ir: IrProgram, index: nat, env: ConstantEnv, changed: nat, ghost f: Forest) returns (total: nat)
    requires f.Cons? && f.idx == index && IsForest(ir.nodes, index, f) && Distinct(f) && env.Valid()
    modifies ir`nodes, env
    ensures env.Valid() && env.facts == SubstList(f.kids, old(env.facts)).1
    ensures SameOutside(old(ir.nodes), ir.nodes, Footprint(f.kids))
    ensures IsForest(ir.nodes, ir.nodes[index].first, SubstList(f.kids, old(env.facts)).0)
    ensures total >= changed && (total == changed ==> SubstList(f.kids, old(env.facts)).0 == f.kids)
    decreases f, 0
  {
    total := changed;
    var c := ir.nodes[index].first;
    ghost var first, done, todo := c, Nil, f.kids;
    while c != NO_NODE
      invariant IsSegment(ir.nodes, first, done, c) && IsForest(ir.nodes, c, todo) && Distinct(todo) && env.Valid()
      invariant Footprint(done) !! Footprint(todo) && Footprint(todo) <= Footprint(f.kids)
      invariant Append(done, SubstList(todo, env.facts).0) == SubstList(f.kids, old(env.facts)).0
      invariant SubstList(todo, env.facts).1 == SubstList(f.kids, old(env.facts)).1
      invariant total >= changed && (total == changed ==> Append(done, todo) == f.kids)
      invariant SameOutside(old(ir.nodes), ir.nodes, Footprint(f.kids))
      decreases todo
    {
      ghost var before, head := ir.nodes, SubstHead(todo, env.facts);
      ghost var facts := env.facts;
      total := SubstituteExpression(ir, c, env, total, todo);
      SubstNodeFacts(todo.op, todo.kids, facts);
      Advance(before, ir.nodes, {c} + Footprint(todo.kids), first, done, todo, head);
      SingleFacts(head);
      AppendFacts(done, Single(head));
      AppendAssociative(done, Single(head), SubstList(todo.rest, env.facts).0);
      AppendAssociative(done, Single(todo), todo.rest);
      done, todo, c := Append(done, Single(head)), todo.rest, ir.nodes[c].next;
    }
    AppendNil(done);
  }

  /** Replaces known variables by literals in the expression at `index`, and updates the
      facts as its evaluation would. */
  method SubstituteExpression(ir: IrProgram, index: nat, env: ConstantEnv, changed: nat, ghost f: Forest) returns (total: nat)
    requires f.Cons? && f.idx == index && IsForest(ir.nodes, index, f) && Distinct(f) && env.Valid()
    modifies ir`nodes, env
    ensures env.Valid() && env.facts == SubstNode(f.op, f.kids, old(env.facts)).2
    ensures SameOutside(old(ir.nodes), ir.nodes, {index} + Footprint(f.kids))
    ensures IsForest(ir.nodes, index, SubstHead(f, old(env.facts)))
    ensures total >= changed && (total == changed ==> SubstHead(f, old(env.facts)) == f)
    decreases f, 1
  {
    total := changed;
    var op := ir.nodes[index].op;
    if op.Variable? {
      var known := env.Find(op.name);
      if known != NO_NODE {
        SetHead(ir.nodes, f, env.items[known].1, f.role);
        ir.nodes := ir.nodes[index := ir.nodes[index].(op := env.items[known].1, role := ir.nodes[index].role)];
        total := total + 1;
      }
    } else if op.Assign? {
      ForgetTarget(ir, index, env, f.kids);
    } else if op != Unary(Reference) {
      total := SubstituteChildren(ir, index, env, changed, f);
      SubstFacts(f.kids, old(env.facts));
      SegmentFrame(old(ir.nodes), ir.nodes, Footprint(f.kids), old(ir.nodes[index].next), f.rest, NO_NODE);
      if op.Call? { env.Clear(); }
    }
  }

  // ---- One child selected by role ----

  /** The siblings before the first one with a given role. */
  function BeforeRole(f: Forest, role: Role): Forest {
    if f.Nil? || f.role == role then Nil else f.(rest := BeforeRole(f.rest, role))
  }

  lemma {:induction false} SplitAtRole(nodes: seq<Node>, i: int, f: Forest, role: Role)
    requires IsForest(nodes, i, f) && Distinct(f)
    ensures var b, c := BeforeRole(f, role), Child(f, role);
      && Append(b, c) == f && IsSegment(nodes, i, b, Start(c)) && IsForest(nodes, Start(c), c)
      && Footprint(b) !! Footprint(c) && Footprint(b) + Footprint(c) == Footprint(f) && Distinct(c)
    decreases f
  {
    if f.Cons? && f.role != role { SplitAtRole(nodes, nodes[i].next, f.rest, role); }
  }

  lemma {:induction false} SubstChildIsHead(f: Forest, role: Role, env: Facts)
    requires Child(f, role).Cons?
    ensures var c := Child(f, role);
      && SubstChild(f, role, env).0 == Append(BeforeRole(f, role), SubstHead(c, env))
      && SubstChild(f, role, env).1 == SubstNode(c.op, c.kids, env).2
  {
    if f.role != role { SubstChildIsHead(f.rest, role, env); }
  }

  lemma {:induction false} SubstChildNone(f: Forest, role: Role, env: Facts)
    requires Child(f, role).Nil?
    ensures SubstChild(f, role, env) == (f, env)
  {
    if f.Cons? { SubstChildNone(f.rest, role, env); }
  }

  lemma {:induction false} SubstChildFacts(f: Forest, role: Role, env: Facts)
    ensures var g := SubstChild(f, role, env).0;
      Footprint(g) == Footprint(f) && Len(g) == Len(f) && LastIdx(g) == LastIdx(f) && (Distinct(f) ==> Distinct(g))
  {
    if f.Cons? {
      if f.role == role { SubstNodeFacts(f.op, f.kids, env); } else { SubstChildFacts(f.rest, role, env); }
    }
  }

  /** Substitution into the first child with a given role, if there is one. */
  method SubstituteChild(ir: IrProgram, index: nat, role: Role, env: ConstantEnv, changed: nat, ghost kids: Forest)
      returns (child: int, total: nat)
    requires index < |ir.nodes| && IsForest(ir.nodes, ir.nodes[index].first, kids)
    requires Distinct(kids) && index !in Footprint(kids) && env.Valid()
    modifies ir`nodes, env
    ensures env.Valid() && env.facts == SubstChild(kids, role, old(env.facts)).1
    ensures SameOutside(old(ir.nodes), ir.nodes, Footprint(kids))
    ensures IsForest(ir.nodes, ir.nodes[index].first, SubstChild(kids, role, old(env.facts)).0)
    ensures child == Start(Child(kids, role)) == Start(Child(SubstChild(kids, role, old(env.facts)).0, role))
    ensures total >= changed && (total == changed ==> SubstChild(kids, role, old(env.facts)).0 == kids)
  {
    total := changed;
    child := ChildRole(ir, index, role, kids);
    ghost var before, after := BeforeRole(kids, role), Child(kids, role);
    ghost var first, head := ir.nodes[index].first, Nil;
    SplitAtRole(ir.nodes, first, kids, role);
    if child == NO_NODE {
      SubstChildNone(kids, role, env.facts);
    } else {
      head := SubstHead(after, env.facts);
      SubstChildIsHead(kids, role, env.facts);
      total := SubstituteExpression(ir, child, env, changed, after);
      SegmentFrame(old(ir.nodes), ir.nodes, {after.idx} + Footprint(after.kids), first, before, child);
      SegmentAppend(ir.nodes, first, before, child, head, NO_NODE);
      ChildAfterBefore(kids, role, head);
    }
  }

  lemma {:induction false} ChildAfterBefore(f: Forest, role: Role, g: Forest)
    requires g.Cons? && g.role == role
    ensures Child(Append(BeforeRole(f, role), g), role) == g
  {
    if f.Cons? && f.role != role { ChildAfterBefore(f.rest, role, g); }
  }

  // ---- Statements ----

  /** Same nodes in the same places. */
  ghost predicate SameFrame(g: Forest, f: Forest) {
    Footprint(g) == Footprint(f) && Len(g) == Len(f) && LastIdx(g) == LastIdx(f) && Start(g) == Start(f) && (Distinct(f) ==> Distinct(g))
  }

  lemma {:induction false} PropagateNodeFrame(op: Op, kids: Forest, env: Facts)
    ensures SameFrame(PropagateNode(op, kids, env).0, kids)
    decreases Size(kids), 2
  {
    if op.If? {
      SubstChildFacts(kids, Condition, env);
      var (k, e) := SubstChild(kids, Condition, env);
      PropagateArmsFrame(k, e);
    } else if op.Program? {
      PropagateListFrame(kids, env);
    } else if op.Function? {
      PropagateBodyFrame(kids);
    } else {
      PropagateSimpleFrame(op, kids, env);
    }
  }

  lemma {:induction false} PropagateSimpleFrame(op: Op, kids: Forest, env: Facts)
    ensures SameFrame(PropagateSimple(op, kids, env).0, kids)
  {
    SubstFacts(kids, env);
    SubstChildFacts(kids, Value, env);
  }

  lemma {:induction false} PropagateListFrame(f: Forest, env: Facts)
    ensures SameFrame(PropagateList(f, env).0, f)
    decreases Size(f), 1
  {
    if f.Cons? {
      if f.role != Statement {
        PropagateListFrame(f.rest, env);
      } else {
        PropagateNodeFrame(f.op, f.kids, env);
        PropagateListFrame(f.rest, PropagateNode(f.op, f.kids, env).1);
      }
    }
  }

  lemma {:induction false} PropagateArmsFrame(f: Forest, env: Facts)
    ensures SameFrame(PropagateArms(f, env), f)
    decreases Size(f), 1
  {
    if f.Cons? {
      PropagateListFrame(f.kids, env);
      PropagateArmsFrame(f.rest, env);
    }
  }

  lemma {:induction false} PropagateBodyFrame(f: Forest)
    ensures SameFrame(PropagateBody(f), f)
    decreases Size(f), 1
  {
    if f.Cons? {
      PropagateListFrame(f.kids, map[]);
      PropagateBodyFrame(f.rest);
    }
  }

  /** A list whose first node, a statement or not, has been propagated through. */
  function PropagateHead(f: Forest, env: Facts): Forest
    requires f.Cons?
  {
    if f.role == Statement then f.(kids := PropagateNode(f.op, f.kids, env).0) else f
  }

  /** The statements under `parent`, threading the facts through them. */
  method PropagateSequence(ir: IrProgram, parent: nat, env: ConstantEnv, changed: nat, ghost f: Forest) returns (total: nat)
    requires f.Cons? && f.idx == parent && IsForest(ir.nodes, parent, f) && Distinct(f) && env.Valid()
    modifies ir`nodes, env
    ensures env.Valid() && env.facts == PropagateList(f.kids, old(env.facts)).1
    ensures SameOutside(old(ir.nodes), ir.nodes, Footprint(f.kids))
    ensures IsForest(ir.nodes, parent, f.(kids := PropagateList(f.kids, old(env.facts)).0))
    ensures total >= changed && (total == changed ==> PropagateList(f.kids, old(env.facts)).0 == f.kids)
    decreases Size(f.kids), 2
  {
    total := changed;
    var c := ir.nodes[parent].first;
    ghost var first, done, todo := c, Nil, f.kids;
    while c != NO_NODE
      invariant IsSegment(ir.nodes, first, done, c) && IsForest(ir.nodes, c, todo) && Distinct(todo) && env.Valid()
      invariant Footprint(done) !! Footprint(todo) && Footprint(todo) <= Footprint(f.kids) && Size(todo) <= Size(f.kids)
      invariant Append(done, PropagateList(todo, env.facts).0) == PropagateList(f.kids, old(env.facts)).0
      invariant PropagateList(todo, env.facts).1 == PropagateList(f.kids, old(env.facts)).1
      invariant total >= changed && (total == changed ==> Append(done, todo) == f.kids)
      invariant SameOutside(old(ir.nodes), ir.nodes, Footprint(f.kids))
      decreases todo
    {
      var next := ir.nodes[c].next;
      ghost var before, head := ir.nodes, PropagateHead(todo, env.facts);
      PropagateNodeFrame(todo.op, todo.kids, env.facts);
      if ir.nodes[c].role == Statement { total := PropagateStatement(ir, c, env, total, todo); }
      Advance(before, ir.nodes, {c} + Footprint(todo.kids), first, done, todo, head);
      SingleFacts(head);
      AppendFacts(done, Single(head));
      AppendAssociative(done, Single(head), PropagateList(todo.rest, env.facts).0);
      AppendAssociative(done, Single(todo), todo.rest);
      done, todo, c := Append(done, Single(head)), todo.rest, next;
    }
    AppendNil(done);
    PropagateListFrame(f.kids, old(env.facts));
    SegmentFrame(old(ir.nodes), ir.nodes, Footprint(f.kids), old(ir.nodes[parent].next), f.rest, NO_NODE);
  }

  /** A list whose first node has been entered if it is a container in an arm. */
  function ArmHead(f: Forest, env: Facts): Forest
    requires f.Cons?
  {
    if (f.role == Then || f.role == Else) && f.op.Program? then f.(kids := PropagateList(f.kids, env).0) else f
  }

  /** The containers among the arms of the branch at `index`, each from a copy of `env`. */
  method PropagateArmsAt(ir: IrProgram, index: nat, env: ConstantEnv, changed: nat, ghost kids: Forest) returns (total: nat)
    requires index < |ir.nodes| && IsForest(ir.nodes, ir.nodes[index].first, kids)
    requires Distinct(kids) && index !in Footprint(kids) && env.Valid()
    modifies ir`nodes
    ensures SameOutside(old(ir.nodes), ir.nodes, Footprint(kids))
    ensures IsForest(ir.nodes, ir.nodes[index].first, PropagateArms(kids, env.facts))
    ensures total >= changed && (total == changed ==> PropagateArms(kids, env.facts) == kids)
    decreases Size(kids), 2
  {
    total := changed;
    var c := ir.nodes[index].first;
    ghost var first, done, todo := c, Nil, kids;
    while c != NO_NODE
      invariant IsSegment(ir.nodes, first, done, c) && IsForest(ir.nodes, c, todo) && Distinct(todo)
      invariant Footprint(done) !! Footprint(todo) && Footprint(todo) <= Footprint(kids) && Size(todo) <= Size(kids)
      invariant Append(done, PropagateArms(todo, env.facts)) == PropagateArms(kids, env.facts)
      invariant total >= changed && (total == changed ==> Append(done, todo) == kids)
      invariant SameOutside(old(ir.nodes), ir.nodes, Footprint(kids))
      decreases todo
    {
      var next := ir.nodes[c].next;
      ghost var before, head := ir.nodes, ArmHead(todo, env.facts);
      ArmHeadFacts(todo, env.facts, done);
      if ir.nodes[c].role == Then || ir.nodes[c].role == Else {
        var branch := new ConstantEnv.CopyOf(env);
        if ir.nodes[c].op.Program? { total := PropagateSequence(ir, c, branch, total, todo); }
      }
      Advance(before, ir.nodes, {c} + Footprint(todo.kids), first, done, todo, head);
      done, todo, c := Append(done, Single(head)), todo.rest, next;
    }
    AppendNil(done);
  }

  lemma {:induction false} ArmHeadFacts(todo: Forest, env: Facts, done: Forest)
    requires todo.Cons?
    ensures var head := ArmHead(todo, env);
      && head.idx == todo.idx && head.rest == todo.rest
      && Footprint(Append(done, Single(head))) == Footprint(done) + {todo.idx} + Footprint(todo.kids)
      && Append(Append(done, Single(head)), PropagateArms(todo.rest, env)) == Append(done, PropagateArms(todo, env))
    ensures Append(Append(done, Single(todo)), todo.rest) == Append(done, todo)
  {
    var head := ArmHead(todo, env);
    PropagateListFrame(todo.kids, env);
    SingleFacts(head);
    AppendFacts(done, Single(head));
    AppendAssociative(done, Single(head), PropagateArms(todo.rest, env));
    AppendAssociative(done, Single(todo), todo.rest);
  }

  lemma {:induction false} BodyIsHead(f: Forest)
    ensures var c := Child(f, Body);
      PropagateBody(f) == if c.Cons? && c.op.Program?
        then Append(BeforeRole(f, Body), c.(kids := PropagateList(c.kids, map[]).0)) else f
    ensures Child(f, Body).Cons? ==> Size(Child(f, Body).kids) < Size(f)
  {
    if f.Cons? && f.role != Body { BodyIsHead(f.rest); }
  }

  /** The first statement of a function body, if it is a container. */
  method PropagateBodyAt(ir: IrProgram, index: nat, changed: nat, ghost kids: Forest) returns (total: nat)
    requires index < |ir.nodes| && IsForest(ir.nodes, ir.nodes[index].first, kids)
    requires Distinct(kids) && index !in Footprint(kids)
    modifies ir`nodes
    ensures SameOutside(old(ir.nodes), ir.nodes, Footprint(kids))
    ensures IsForest(ir.nodes, ir.nodes[index].first, PropagateBody(kids))
    ensures total >= changed && (total == changed ==> PropagateBody(kids) == kids)
    decreases Size(kids), 2
  {
    total := changed;
    var body := ChildRole(ir, index, Body, kids);
    ghost var before, after := BeforeRole(kids, Body), Child(kids, Body);
    ghost var first := ir.nodes[index].first;
    SplitAtRole(ir.nodes, first, kids, Body);
    BodyIsHead(kids);
    if body != NO_NODE && ir.nodes[body].op.Program? {
      var function_env := new ConstantEnv();
      total := PropagateSequence(ir, body, function_env, changed, after);
      SegmentFrame(old(ir.nodes), ir.nodes, Footprint(after.kids), first, before, body);
      SegmentAppend(ir.nodes, first, before, body, after.(kids := PropagateList(after.kids, map[]).0), NO_NODE);
    }
  }

  /** The children of a statement and the facts it leaves, calls aside. */
  method PropagateKidsAt(ir: IrProgram, index: nat, env: ConstantEnv, changed: nat, ghost f: Forest) returns (total: nat)
    requires f.Cons? && f.idx == index && IsForest(ir.nodes, index, f) && Distinct(f) && env.Valid()
    modifies ir`nodes, env
    ensures env.Valid() && env.facts == PropagateKids(f.op, f.kids, old(env.facts)).1
    ensures SameOutside(old(ir.nodes), ir.nodes, Footprint(f.kids))
    ensures IsForest(ir.nodes, ir.nodes[index].first, PropagateKids(f.op, f.kids, old(env.facts)).0)
    ensures total >= changed && (total == changed ==> PropagateKids(f.op, f.kids, old(env.facts)).0 == f.kids)
    decreases Size(f.kids), 4
  {
    var op := ir.nodes[index].op;
    if op.If? {
      total := PropagateIfAt(ir, index, env, changed, f.kids);
    } else if op.Function? {
      total := PropagateBodyAt(ir, index, changed, f.kids);
    } else if op.Program? {
      total := PropagateSequence(ir, index, env, changed, f);
    } else {
      total := PropagateSimpleAt(ir, index, env, changed, f);
    }
  }

  /** A statement that is not a container, or is a barrier. */
  method PropagateSimpleAt(ir: IrProgram, index: nat, env: ConstantEnv, changed: nat, ghost f: Forest) returns (total: nat)
    requires f.Cons? && f.idx == index && IsForest(ir.nodes, index, f) && Distinct(f) && env.Valid()
    modifies ir`nodes, env
    ensures env.Valid() && env.facts == PropagateSimple(f.op, f.kids, old(env.facts)).1
    ensures SameOutside(old(ir.nodes), ir.nodes, Footprint(f.kids))
    ensures IsForest(ir.nodes, ir.nodes[index].first, PropagateSimple(f.op, f.kids, old(env.facts)).0)
    ensures total >= changed && (total == changed ==> PropagateSimple(f.op, f.kids, old(env.facts)).0 == f.kids)
  {
    total := changed;
    var op := ir.nodes[index].op;
    if op.While? || op.Asm? {
      env.Clear();
    } else if op.Decl? {
      total := PropagateValueAt(ir, index, op.decl, env, changed, f.kids);
    } else if op.Reassign? {
      total := PropagateValueAt(ir, index, op.target, env, changed, f.kids);
    } else if op.Assign? {
      ForgetTarget(ir, index, env, f.kids);
    } else {
      total := SubstituteChildren(ir, index, env, changed, f);
    }
  }

  method PropagateIfAt(ir: IrProgram, index: nat, env: ConstantEnv, changed: nat, ghost kids: Forest) returns (total: nat)
    requires index < |ir.nodes| && IsForest(ir.nodes, ir.nodes[index].first, kids)
    requires Distinct(kids) && index !in Footprint(kids) && env.Valid()
    modifies ir`nodes, env
    ensures env.Valid() && env.facts == map[]
    ensures SameOutside(old(ir.nodes), ir.nodes, Footprint(kids))
    ensures IsForest(ir.nodes, ir.nodes[index].first, PropagateKids(If, kids, old(env.facts)).0)
    ensures total >= changed && (total == changed ==> PropagateKids(If, kids, old(env.facts)).0 == kids)
    decreases Size(kids), 3
  {
    var cond;
    cond, total := SubstituteChild(ir, index, Condition, env, changed, kids);
    SubstChildFacts(kids, Condition, old(env.facts));
    total := PropagateArmsAt(ir, index, env, total, SubstChild(kids, Condition, old(env.facts)).0);
    env.Clear();
  }

  method PropagateValueAt(ir: IrProgram, index: nat, x: string, env: ConstantEnv, changed: nat, ghost kids: Forest) returns (total: nat)
    requires index < |ir.nodes| && IsForest(ir.nodes, ir.nodes[index].first, kids)
    requires Distinct(kids) && index !in Footprint(kids) && env.Valid()
    modifies ir`nodes, env
    ensures var s := AssignValue(x, kids, old(env.facts));
      && env.Valid() && env.facts == s.1
      && SameOutside(old(ir.nodes), ir.nodes, Footprint(kids))
      && IsForest(ir.nodes, ir.nodes[index].first, s.0)
      && total >= changed && (total == changed ==> s.0 == kids)
  {
    var value;
    value, total := SubstituteChild(ir, index, Value, env, changed, kids);
    ghost var after := SubstChild(kids, Value, old(env.facts)).0;
    SubstChildFacts(kids, Value, old(env.facts));
    SplitAtRole(ir.nodes, ir.nodes[index].first, after, Value);
    if value != NO_NODE && (ir.nodes[value].op.Integer? || ir.nodes[value].op.Boolean?) {
      env.Remember(x, ir.nodes[value].op);
    } else {
      env.Invalidate(x);
    }
  }

  /** One statement and the facts it leaves. */
  method PropagateStatement(ir: IrProgram, index: nat, env: ConstantEnv, changed: nat, ghost f: Forest) returns (total: nat)
    requires f.Cons? && f.idx == index && IsForest(ir.nodes, index, f) && Distinct(f) && env.Valid()
    modifies ir`nodes, env
    ensures env.Valid() && env.facts == PropagateNode(f.op, f.kids, old(env.facts)).1
    ensures SameOutside(old(ir.nodes), ir.nodes, Footprint(f.kids))
    ensures IsForest(ir.nodes, index, f.(kids := PropagateNode(f.op, f.kids, old(env.facts)).0))
    ensures total >= changed && (total == changed ==> PropagateNode(f.op, f.kids, old(env.facts)).0 == f.kids)
    decreases Size(f.kids), 5
  {
    ghost var kids := PropagateKids(f.op, f.kids, env.facts).0;
    PropagateNodeFrame(f.op, f.kids, env.facts);
    total := PropagateKidsAt(ir, index, env, changed, f);
    SegmentFrame(old(ir.nodes), ir.nodes, Footprint(f.kids), old(ir.nodes[index].next), f.rest, NO_NODE);
    var call := ContainsCallAt(ir, index, f.(kids := kids));
    if call { env.Clear(); }
  }
}
