/** Where propagation goes wrong: a container that is not the first of its arm gets the facts
    from before the branch. */
module HirLate {
  import opened Operators
  import opened Hir
  import opened HirSemantics
  import opened HirRewrite
  import opened HirPropagate
  import opened HirStale
  import opened HirPropagateSound
  import opened HirClosure
  import opened HirOptimizer

  // ---- Exactly when a container after other statements is right ----

  /** A container with children `kids` after the statements `a` of an arm. */
  function Followed(a: Forest, role: Role, kids: Forest): Forest {
    Append(a, Cons(0, Program, role, kids, Nil))
  }

  /** The fact holds whenever the statements end normally, if it held before. */
  ghost predicate KeepsFact(a: Forest, role: Role, env: Facts, x: string)
    requires x in env
  {
    forall n: nat, w: World, p: Forest, st: State :: Agree(env, st.vars) ==> Holds(Exec(n, w, p, a, role, st), env, x)
  }

  predicate Holds(r: Outcome, env: Facts, x: string)
    requires x in env
  {
    r.Done? && r.c == Normal ==> x in r.st.vars && r.st.vars[x] == Literal(env[x])
  }

  /** Whatever orderly container follows, reading only some variables, the arm runs alike
      before and after the pass, from every state where the facts hold. */
  ghost predicate RightAfter(a: Forest, role: Role, env: Facts, r: set<string>) {
    forall kids :: Canonical(kids) && OrderlyList(kids) && ReadsList(kids) <= r ==> RunsAlike(Followed(a, role, kids), role, env)
  }

  ghost predicate RunsAlike(f: Forest, role: Role, env: Facts) {
    forall n: nat, w: World, p: Forest, st: State :: Agree(env, st.vars) ==> Exec(n, w, p, PropagateArms(f, env), role, st) == Exec(n, w, p, f, role, st)
  }

  lemma {:induction false} PropagateFollowed(a: Forest, role: Role, kids: Forest, env: Facts)
    requires role == Then || role == Else
    ensures PropagateArms(Followed(a, role, kids), env) == Followed(PropagateArms(a, env), role, PropagateList(kids, env).0)
  {
    if a.Cons? {
      PropagateFollowed(a.rest, role, kids, env);
    } else {
      assert PropagateArms(Cons(0, Program, role, kids, Nil), env) == Cons(0, Program, role, PropagateList(kids, env).0, Nil);
    }
  }

  lemma {:induction false} ExecFollowed(n: nat, w: World, p: Forest, a: Forest, role: Role, kids: Forest, st: State)
    ensures var r := Exec(n, w, p, a, role, st);
      Exec(n, w, p, Followed(a, role, kids), role, st) == if r.Done? && r.c == Normal then Exec(n, w, p, kids, Statement, r.st) else r
  {
    if a.Nil? {
      var r := Exec(n, w, p, kids, Statement, st);
      if r.Done? && r.c == Normal { assert Exec(n, w, p, Nil, role, r.st) == r; }
    } else if a.role != role {
      ExecFollowed(n, w, p, a.rest, role, kids, st);
    } else {
      var r := ExecNode(n, w, p, a.op, a.kids, st);
      if r.Done? && r.c == Normal { ExecFollowed(n, w, p, a.rest, role, kids, r.st); }
    }
  }

  /** The pass is right for every container that reads these variables exactly when the
      statements before it keep the facts about them. */
  lemma {:induction false} ArmExact(a: Forest, role: Role, env: Facts, r: set<string>)
    requires Canonical(a) && OrderlyArms(a) && (role == Then || role == Else)
    ensures RightAfter(a, role, env, r) <==> forall x :: x in r && x in env ==> KeepsFact(a, role, env, x)
  {
    if forall x :: x in r && x in env ==> KeepsFact(a, role, env, x) {
      forall kids | Canonical(kids) && OrderlyList(kids) && ReadsList(kids) <= r ensures RunsAlike(Followed(a, role, kids), role, env) {
        KeptRunsAlike(a, role, kids, env, r);
      }
    }
    if RightAfter(a, role, env, r) {
      forall x | x in r && x in env ensures KeepsFact(a, role, env, x) { AlikeKeeps(a, role, env, r, x); }
    }
  }

  lemma {:induction false} KeptRunsAlike(a: Forest, role: Role, kids: Forest, env: Facts, r: set<string>)
    requires Canonical(a) && OrderlyArms(a) && (role == Then || role == Else)
    requires Canonical(kids) && OrderlyList(kids) && ReadsList(kids) <= r
    requires forall x :: x in r && x in env ==> KeepsFact(a, role, env, x)
    ensures RunsAlike(Followed(a, role, kids), role, env)
  {
    PropagateFollowed(a, role, kids, env);
    forall n: nat, w: World, p: Forest, st: State | Agree(env, st.vars)
      ensures Exec(n, w, p, PropagateArms(Followed(a, role, kids), env), role, st) == Exec(n, w, p, Followed(a, role, kids), role, st)
    {
      ArmsExec(n, w, p, a, role, env, st);
      ExecFollowed(n, w, p, a, role, kids, st);
      ExecFollowed(n, w, p, PropagateArms(a, env), role, PropagateList(kids, env).0, st);
      var o := Exec(n, w, p, a, role, st);
      if o.Done? && o.c == Normal {
        forall x | x in r && x in env ensures x in o.st.vars && o.st.vars[x] == Literal(env[x]) {
          assert KeepsFact(a, role, env, x);
          assert Holds(Exec(n, w, p, a, role, st), env, x);
        }
        EntryRunsAlike(n, w, p, kids, env, o.st, r);
      }
    }
  }

  lemma {:induction false} EntryRunsAlike(n: nat, w: World, p: Forest, kids: Forest, env: Facts, st: State, r: set<string>)
    requires Canonical(kids) && OrderlyList(kids) && ReadsList(kids) <= r && AgreeOn(env, st.vars, r)
    ensures Exec(n, w, p, PropagateList(kids, env).0, Statement, st) == Exec(n, w, p, kids, Statement, st)
  {
    OnlyReadFacts(kids, env, r);
    PropagateExec(n, w, p, kids, Restrict(env, r), st);
  }

  /** `print shown` */
  function Shows(shown: Op): Forest {
    Cons(0, Print, Statement, Leaf(shown, Value), Nil)
  }

  lemma {:induction false} ShowsFacts(x: string, env: Facts)
    requires x in env
    ensures var f := Shows(Variable(x));
      Canonical(f) && OrderlyList(f) && ReadsList(f) == {x} && PropagateList(f, env).0 == Shows(env[x])
  {
    var one := Leaf(env[x], Value);
    assert SubstList(Leaf(Variable(x), Value), env) == (one, env);
    assert PropagateNode(Print, Leaf(Variable(x), Value), env).0 == one;
    assert ExprReadsList(Leaf(Variable(x), Value)) == {x};
  }

  lemma {:induction false} ShowsRun(n: nat, w: World, p: Forest, shown: Op, st: State)
    requires shown.Variable? || shown.Integer? || shown.Boolean?
    ensures Exec(n, w, p, Shows(shown), Statement, st) ==
      match EvalNode(n, w, p, shown, Nil, st)
      case Vals(vs, _) => Done(Normal, st.(out := st.out + vs))
      case EvalTrap(st1, why) => Trap(st1, why)
      case EvalTimeout => Timeout
  {
    SingleEval(n, w, p, Leaf(shown, Value), st);
  }

  /** A container that prints the variable shows a fact that does not hold. */
  lemma {:induction false} AlikeKeeps(a: Forest, role: Role, env: Facts, r: set<string>, x: string)
    requires Canonical(a) && OrderlyArms(a) && (role == Then || role == Else) && x in r && x in env && RightAfter(a, role, env, r)
    ensures KeepsFact(a, role, env, x)
  {
    var f, kids := Followed(a, role, Shows(Variable(x))), Shows(Variable(x));
    ShowsFacts(x, env);
    PropagateFollowed(a, role, kids, env);
    assert RunsAlike(f, role, env);
    forall n: nat, w: World, p: Forest, st: State | Agree(env, st.vars) ensures Holds(Exec(n, w, p, a, role, st), env, x) {
      ArmsExec(n, w, p, a, role, env, st);
      ExecFollowed(n, w, p, a, role, kids, st);
      ExecFollowed(n, w, p, PropagateArms(a, env), role, Shows(env[x]), st);
      var o := Exec(n, w, p, a, role, st);
      if o.Done? && o.c == Normal {
        ShowsRun(n, w, p, Variable(x), o.st);
        ShowsRun(n, w, p, env[x], o.st);
        if x in o.st.vars { assert (o.st.out + [o.st.vars[x]])[|o.st.out|] == (o.st.out + [Literal(env[x])])[|o.st.out|]; }
      }
    }
  }

  /** Statements that do not write the variable keep the fact. */
  lemma {:induction false} UnwrittenKeepsFact(a: Forest, role: Role, env: Facts, x: string)
    requires x in env && !WritesList(a, x)
    ensures KeepsFact(a, role, env, x)
  {
    forall n: nat, w: World, p: Forest, st: State | Agree(env, st.vars) ensures Holds(Exec(n, w, p, a, role, st), env, x) {
      ListKeeps(n, w, p, a, role, st, x);
    }
  }

  // ---- A program that the optimizer changes ----

  function Leaf(op: Op, role: Role): Forest {
    Cons(0, op, role, Nil, Nil)
  }

  /** `unsafe { print shown }` after `x = b`, as one arm. */
  function LateArm(b: int64, shown: Op): Forest {
    Cons(0, Reassign("x"), Then, Leaf(Integer(b), Value),
      Cons(0, Program, Then, Cons(0, Print, Statement, Leaf(shown, Value), Nil), Nil))
  }

  /** `x = a; if c { x = b; unsafe { print shown } }` */
  function LateProgram(a: int64, b: int64, shown: Op): Forest {
    Cons(0, Decl("x"), Statement, Leaf(Integer(a), Value),
      Cons(0, If, Statement, Cons(0, Variable("c"), Condition, Nil, LateArm(b, shown)), Nil))
  }

  /** An arm with a late container gets the facts from before the branch: the program
      prints `b`, the optimized one prints `a`. */
  lemma {:induction false} LateContainer(a: int64, b: int64, n: nat, w: World, st: State)
    requires "c" in st.vars && Truth(w, st.vars["c"])
    ensures var p := LateProgram(a, b, Variable("x")); var q := Rounds(p, MAX_ROUNDS);
      && Lowered(p) && NoTopExit(p) && !OrderlyList(p)
      && Run(n, w, p, st) == Done(Normal, Store(st, "x", IntV(b)).(out := st.out + [IntV(b)]))
      && Run(n, w, q, st) == Done(Normal, Store(st, "x", IntV(b)).(out := st.out + [IntV(a)]))
  {
    LateShape(a, b);
    LateRounds(a, b);
    var s := Store(Store(st, "x", IntV(a)), "x", IntV(b));
    assert s == Store(st, "x", IntV(b));
    LateRun(a, b, Variable("x"), IntV(b), n, w, LateProgram(a, b, Variable("x")), st);
    LateRun(a, b, Integer(a), IntV(a), n, w, LateProgram(a, b, Integer(a)), st);
  }

  /** The first round replaces the read, and no round changes more. */
  lemma LateRounds(a: int64, b: int64)
    ensures Rounds(LateProgram(a, b, Variable("x")), MAX_ROUNDS) == LateProgram(a, b, Integer(a))
  {
    var p, q := LateProgram(a, b, Variable("x")), LateProgram(a, b, Integer(a));
    LateRound(a, b, Variable("x"));
    LateRound(a, b, Integer(a));
    assert Iterate(Round, p, 0) == p;
    assert Iterate(Round, p, 1) == q;
    IterateFixed(Round, p, 1, MAX_ROUNDS);
  }

  lemma {:induction false} LateRound(a: int64, b: int64, shown: Op)
    requires shown == Variable("x") || shown == Integer(a)
    ensures Round(LateProgram(a, b, shown)) == LateProgram(a, b, Integer(a))
  {
    var q := LateProgram(a, b, Integer(a));
    LateBottom(FoldPass, a, b, shown);
    LatePropagates(a, b, shown);
    LateBottom(FoldPass, a, b, Integer(a));
    LateBottom(SimplifyPass, a, b, Integer(a));
    RoundSteps(LateProgram(a, b, shown), q);
    assert NoTopExit(q.rest) && NoTopExit(q);
    RootPrune(q);
  }

  lemma RoundSteps(p: Forest, q: Forest)
    requires Bottom(FoldPass, p) == p && Propagate(p) == q && Bottom(FoldPass, q) == q && Bottom(SimplifyPass, q) == q
    ensures Round(p) == Prune(q, {})
  {
  }

  /** There is nothing to fold or to simplify. */
  lemma {:induction false} LateBottom(pass: Pass, a: int64, b: int64, shown: Op)
    requires shown.Variable? || shown.Integer?
    ensures Bottom(pass, LateProgram(a, b, shown)) == LateProgram(a, b, shown)
  {
    var p := LateProgram(a, b, shown);
    LateArmBottom(pass, b, shown);
    LeafBottom(pass, Integer(a), Value);
    KeptBottom(pass, p.rest.kids);
    LateIfKept(pass, p.rest.kids);
    KeptBottom(pass, p.rest);
    ValueKept(pass, Decl("x"), p.kids);
    KeptBottom(pass, p);
  }

  lemma LateArmBottom(pass: Pass, b: int64, shown: Op)
    requires shown.Variable? || shown.Integer?
    ensures Bottom(pass, LateArm(b, shown)) == LateArm(b, shown)
  {
    var arm := LateArm(b, shown);
    LeafBottom(pass, shown, Value);
    LeafBottom(pass, Integer(b), Value);
    ValueKept(pass, Print, Leaf(shown, Value));
    KeptBottom(pass, arm.rest.kids);
    OneKept(pass, arm.rest.kids);
    KeptBottom(pass, arm.rest);
    ValueKept(pass, Reassign("x"), arm.kids);
    KeptBottom(pass, arm);
  }

  lemma LateIfKept(pass: Pass, kids: Forest)
    requires kids.Cons? && kids.role == Condition && !kids.op.Boolean? && kids.rest.Cons? && !Terminator(kids.rest.op)
    requires kids.rest.rest.Cons? && !Terminator(kids.rest.rest.op) && kids.rest.rest.rest.Nil?
    ensures Rewrite(pass, If, kids) == (If, kids)
  {
    assert Prune(kids.rest.rest, {}) == kids.rest.rest;
    assert Prune(kids.rest, {}) == kids.rest;
    assert Prune(kids, {}) == kids;
  }

  lemma OneKept(pass: Pass, kids: Forest)
    requires kids.Cons? && kids.rest.Nil? && !Terminator(kids.op)
    ensures Rewrite(pass, Program, kids) == (Program, kids)
  {
    assert Prune(kids, {}) == kids;
  }

  lemma ValueKept(pass: Pass, op: Op, kids: Forest)
    requires op.Decl? || op.Reassign? || op.Print?
    requires kids.Cons? && kids.rest.Nil? && kids.role == Value
    ensures Rewrite(pass, op, kids) == (op, kids)
  {
    assert Prune(kids, {}) == kids;
  }

  lemma LeafBottom(pass: Pass, op: Op, role: Role)
    requires op.Variable? || op.Integer?
    ensures Bottom(pass, Leaf(op, role)) == Leaf(op, role)
  {
    assert Bottom(pass, Nil) == Nil;
  }

  /** A node whose children and siblings are kept. */
  lemma KeptBottom(pass: Pass, f: Forest)
    requires f.Cons? && Bottom(pass, f.kids) == f.kids && Bottom(pass, f.rest) == f.rest && Rewrite(pass, f.op, f.kids) == (f.op, f.kids)
    ensures Bottom(pass, f) == f
  {
  }

  lemma {:induction false} LateShape(a: int64, b: int64)
    ensures var p := LateProgram(a, b, Variable("x")); Lowered(p) && NoTopExit(p) && !OrderlyList(p)
  {
    var arm := LateArm(b, Variable("x"));
    assert Canonical(arm.rest) && Canonical(arm);
    assert Canonical(Cons(0, Variable("c"), Condition, Nil, arm));
    assert Canonical(LateProgram(a, b, Variable("x")).rest);
    assert Reads(Program, arm.rest.kids) == {"x"} by { assert ExprReadsList(Leaf(Variable("x"), Value)) == {"x"}; }
    assert !Undisturbed(Reassign("x"), arm.kids, Then, arm.rest) by { assert "x" in Reads(Program, arm.rest.kids) && Writes(Reassign("x"), arm.kids, "x"); }
    assert !OrderlyArms(arm);
    assert !OrderlyArms(Cons(0, Variable("c"), Condition, Nil, arm));
    assert !OrderlyList(LateProgram(a, b, Variable("x")).rest);
  }

  lemma {:induction false} LatePropagates(a: int64, b: int64, shown: Op)
    requires shown == Variable("x") || shown == Integer(a)
    ensures Propagate(LateProgram(a, b, shown)) == LateProgram(a, b, Integer(a))
  {
    var env: Facts := map["x" := Integer(a)];
    var p := LateProgram(a, b, shown);
    LateDecl(a);
    LateArms(b, shown, env);
    PropagateIfShape(p.rest.kids, env);
    assert SubstNode(Variable("c"), Nil, env) == (Variable("c"), Nil, env);
    assert PropagateNode(If, p.rest.kids, env).0 == LateProgram(a, b, Integer(a)).rest.kids;
    assert PropagateList(p.rest, env).0 == LateProgram(a, b, Integer(a)).rest;
  }

  lemma {:induction false} LateDecl(a: int64)
    ensures PropagateNode(Decl("x"), Leaf(Integer(a), Value), map[]) == (Leaf(Integer(a), Value), map["x" := Integer(a)])
  {
    var env: Facts, k := map["x" := Integer(a)], Leaf(Integer(a), Value);
    assert SubstChild(k, Value, map[]) == (k, map[]);
    assert Remember(map[], "x", k) == env;
    assert PropagateKids(Decl("x"), k, map[]) == (k, env);
    assert !ContainsCall(Nil) && !ContainsCall(k);
  }

  lemma {:induction false} LateArms(b: int64, shown: Op, env: Facts)
    requires "x" in env && env["x"].Integer? && (shown == Variable("x") || shown == env["x"])
    ensures PropagateArms(LateArm(b, shown), env) == LateArm(b, env["x"])
  {
    var arm, one := LateArm(b, shown), Leaf(env["x"], Value);
    var shows := arm.rest.kids;
    assert SubstNode(shown, Nil, env) == (env["x"], Nil, env);
    assert SubstList(shows.kids, env) == (one, env);
    assert PropagateNode(Print, shows.kids, env).0 == one;
    assert PropagateList(shows, env).0 == shows.(kids := one);
    assert PropagateArms(arm.rest, env) == LateArm(b, env["x"]).rest;
  }

  lemma {:induction false} LateRun(a: int64, b: int64, shown: Op, v: Value, n: nat, w: World, p: Forest, st: State)
    requires "c" in st.vars && Truth(w, st.vars["c"])
    requires var s := Store(st, "x", IntV(b)); EvalNode(n, w, p, shown, Nil, s) == Vals([v], s)
    ensures Exec(n, w, p, LateProgram(a, b, shown), Statement, st)
         == Done(Normal, Store(st, "x", IntV(b)).(out := st.out + [v]))
  {
    var f := LateProgram(a, b, shown);
    var s0, s1 := Store(st, "x", IntV(a)), Store(st, "x", IntV(b));
    SetRuns(n, w, p, Decl("x"), "x", a, st);
    assert Store(s0, "x", IntV(b)) == s1;
    LateArmRuns(b, shown, v, n, w, p, s0);
    assert EvalCondition(n, w, p, f.rest.kids, s0) == Vals([st.vars["c"]], s0);
    assert Exec(n, w, p, f.rest.kids, Then, s0) == Exec(n, w, p, LateArm(b, shown), Then, s0);
    assert Exec(n, w, p, f.rest, Statement, s0) == Done(Normal, s1.(out := s1.out + [v]));
  }

  /** A literal stored in a variable. */
  lemma {:induction false} SetRuns(n: nat, w: World, p: Forest, op: Op, x: string, i: int64, st: State)
    requires op == Decl(x) || op == Reassign(x)
    ensures ExecNode(n, w, p, op, Leaf(Integer(i), Value), st) == Done(Normal, Store(st, x, IntV(i)))
  {
    assert EvalList(n, w, p, Leaf(Integer(i), Value), st) == Vals([IntV(i)], st);
  }

  lemma {:induction false} LateArmRuns(b: int64, shown: Op, v: Value, n: nat, w: World, p: Forest, st: State)
    requires var s := Store(st, "x", IntV(b)); EvalNode(n, w, p, shown, Nil, s) == Vals([v], s)
    ensures var s := Store(st, "x", IntV(b)); Exec(n, w, p, LateArm(b, shown), Then, st) == Done(Normal, s.(out := s.out + [v]))
  {
    var arm, s := LateArm(b, shown), Store(st, "x", IntV(b));
    var shows, t := arm.rest.kids, s.(out := s.out + [v]);
    SetRuns(n, w, p, Reassign("x"), "x", b, st);
    assert EvalList(n, w, p, shows.kids, s) == Vals([v], s);
    assert Exec(n, w, p, shows, Statement, s) == Done(Normal, t);
    assert Exec(n, w, p, arm.rest, Then, s) == Done(Normal, t);
  }
}
