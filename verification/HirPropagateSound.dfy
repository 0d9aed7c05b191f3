/** Constant propagation keeps every run of a program with orderly branch arms. */
module HirPropagateSound {
  import opened Options
  import opened Operators
  import opened Hir
  import opened HirSemantics
  import opened HirSwap
  import opened HirPropagate
  import opened HirStale

  function Literal(c: Constant): Value {
    if c.Integer? then IntV(c.i) else BoolV(c.b)
  }

  /** Every fact is true of the variables. */
  ghost predicate Agree(env: Facts, vars: map<string, Value>) {
    forall x :: x in env ==> x in vars && vars[x] == Literal(env[x])
  }

  ghost predicate Weaker(e: Facts, env: Facts) {
    forall x :: x in e ==> x in env && e[x] == env[x]
  }

  lemma {:induction false} SubstNodeWeaker(op: Op, kids: Forest, env: Facts)
    ensures Weaker(SubstNode(op, kids, env).2, env)
    decreases kids, 1
  {
    SubstListWeaker(kids, env);
  }

  lemma {:induction false} SubstListWeaker(f: Forest, env: Facts)
    ensures Weaker(SubstList(f, env).1, env)
    decreases f, 0
  {
    if f.Cons? {
      SubstNodeWeaker(f.op, f.kids, env);
      SubstListWeaker(f.rest, SubstNode(f.op, f.kids, env).2);
    }
  }

  // ---- Expressions ----

  /** The same result, after which the facts `e` hold. */
  ghost predicate Matches(a: Evaluated, b: Evaluated, e: Facts) {
    a == b && (b.Vals? ==> Agree(e, b.st.vars))
  }

  lemma {:induction false} SubstEvalNode(n: nat, w: World, p: Forest, op: Op, kids: Forest, env: Facts, st: State)
    requires CanonicalNode(op, kids) && Canonical(kids) && Agree(env, st.vars)
    ensures var s := SubstNode(op, kids, env);
      Matches(EvalNode(n, w, p, s.0, s.1, st), EvalNode(n, w, p, op, kids, st), s.2)
    decreases kids, 4
  {
    if op == Binary(And) || op == Binary(Or) {
      SubstLogic(n, w, p, op, kids, env, st);
    } else if op.Call? {
      SubstCallNode(n, w, p, op.callee, kids, env, st);
    } else if Strict(op) && op != Unary(Reference) {
      SubstStrict(n, w, p, op, kids, env, st);
    } else {
      SubstLeaf(n, w, p, op, kids, env, st);
    }
  }

  lemma {:induction false} SubstLogic(n: nat, w: World, p: Forest, op: Op, kids: Forest, env: Facts, st: State)
    requires (op == Binary(And) || op == Binary(Or)) && Pair(kids, Left, Right) && Canonical(kids) && Agree(env, st.vars)
    ensures var s := SubstNode(op, kids, env);
      Matches(EvalNode(n, w, p, s.0, s.1, st), EvalNode(n, w, p, op, kids, st), s.2)
    decreases kids, 3
  {
    SubstShortCircuit(n, w, p, op == Binary(Or), kids, env, st);
  }

  lemma {:induction false} SubstCallNode(n: nat, w: World, p: Forest, f: string, kids: Forest, env: Facts, st: State)
    requires Canonical(kids) && Agree(env, st.vars)
    ensures var s := SubstNode(Call(f), kids, env);
      Matches(EvalNode(n, w, p, s.0, s.1, st), EvalNode(n, w, p, Call(f), kids, st), s.2)
    decreases kids, 3
  {
    SubstCall(n, w, p, f, kids, env, st);
  }

  lemma {:induction false} SubstStrict(n: nat, w: World, p: Forest, op: Op, kids: Forest, env: Facts, st: State)
    requires Strict(op) && op != Unary(Reference) && op != Binary(And) && op != Binary(Or) && Canonical(kids) && Agree(env, st.vars)
    ensures var s := SubstNode(op, kids, env);
      Matches(EvalNode(n, w, p, s.0, s.1, st), EvalNode(n, w, p, op, kids, st), s.2)
    decreases kids, 3
  {
    SubstEvalThen(n, w, p, op, kids, env, st);
  }

  lemma {:induction false} SubstLeaf(n: nat, w: World, p: Forest, op: Op, kids: Forest, env: Facts, st: State)
    requires Agree(env, st.vars) && !op.Call? && (Strict(op) ==> op == Unary(Reference))
    ensures var s := SubstNode(op, kids, env);
      Matches(EvalNode(n, w, p, s.0, s.1, st), EvalNode(n, w, p, op, kids, st), s.2)
  {
    if op.Variable? {
      SubstVariable(n, w, p, op.name, kids, env, st);
    } else if op.Integer? || op.Boolean? || op.Text? || op.Null? {
      SubstListWeaker(kids, env);
    }
  }

  lemma {:induction false} SubstVariable(n: nat, w: World, p: Forest, x: string, kids: Forest, env: Facts, st: State)
    requires Agree(env, st.vars)
    ensures var s := SubstNode(Variable(x), kids, env);
      Matches(EvalNode(n, w, p, s.0, s.1, st), EvalNode(n, w, p, Variable(x), kids, st), s.2)
  {
  }

  lemma {:induction false} SubstCall(n: nat, w: World, p: Forest, f: string, kids: Forest, env: Facts, st: State)
    requires Canonical(kids) && Agree(env, st.vars)
    ensures EvalCall(n, w, p, f, SubstList(kids, env).0, st) == EvalCall(n, w, p, f, kids, st)
    decreases kids, 2
  {
    SubstEvalList(n, w, p, kids, env, st);
  }

  lemma {:induction false} SubstEvalThen(n: nat, w: World, p: Forest, op: Op, kids: Forest, env: Facts, st: State)
    requires Canonical(kids) && Agree(env, st.vars)
    ensures var s := SubstList(kids, env);
      Matches(EvalThen(n, w, p, op, s.0, st), EvalThen(n, w, p, op, kids, st), s.1)
    decreases kids, 2
  {
    SubstEvalList(n, w, p, kids, env, st);
    var a := EvalList(n, w, p, kids, st);
    if a.Vals? { ApplyVars(w, op, a.vs, a.st); }
  }

  lemma {:induction false} SubstShortCircuit(n: nat, w: World, p: Forest, stop: bool, kids: Forest, env: Facts, st: State)
    requires Pair(kids, Left, Right) && Canonical(kids) && Agree(env, st.vars)
    ensures var s := SubstList(kids, env);
      Matches(ShortCircuit(n, w, p, stop, s.0, st), ShortCircuit(n, w, p, stop, kids, st), s.1)
    decreases kids, 2
  {
    var (op1, k1, e1) := SubstNode(kids.op, kids.kids, env);
    var (op2, k2, e2) := SubstNode(kids.rest.op, kids.rest.kids, e1);
    assert SubstList(kids.rest, e1) == (Cons(kids.rest.idx, op2, Right, k2, Nil), e2) by {
      assert SubstList(Nil, e2) == (Nil, e2);
    }
    assert SubstList(kids, env) == (Cons(kids.idx, op1, Left, k1, SubstList(kids.rest, e1).0), e2);
    SubstEvalNode(n, w, p, kids.op, kids.kids, env, st);
    var l := EvalNode(n, w, p, kids.op, kids.kids, st);
    if l.Vals? {
      SubstNodeWeaker(kids.rest.op, kids.rest.kids, e1);
      SubstEvalNode(n, w, p, kids.rest.op, kids.rest.kids, e1, l.st);
    }
  }

  lemma {:induction false} SubstEvalList(n: nat, w: World, p: Forest, f: Forest, env: Facts, st: State)
    requires Canonical(f) && Agree(env, st.vars)
    ensures var s := SubstList(f, env);
      Matches(EvalList(n, w, p, s.0, st), EvalList(n, w, p, f, st), s.1)
    decreases f, 1
  {
    if f.Cons? {
      SubstEvalNode(n, w, p, f.op, f.kids, env, st);
      var e := SubstNode(f.op, f.kids, env).2;
      var r := EvalNode(n, w, p, f.op, f.kids, st);
      if r.Vals? { SubstEvalList(n, w, p, f.rest, e, r.st); }
    }
  }

  // ---- Statements ----

  /** The same outcome; if it is normal, the facts `e` hold afterwards. */
  ghost predicate Follows(a: Outcome, b: Outcome, e: Facts) {
    a == b && (b.Done? && b.c == Normal ==> Agree(e, b.st.vars))
  }

  /** Substitution into a single value. */
  lemma ValueIs(kids: Forest, env: Facts)
    requires kids.Cons? && AllRole(kids, Value) && Len(kids) <= 1
    ensures var s := SubstNode(kids.op, kids.kids, env); var kids1 := kids.(op := s.0, kids := s.1);
      kids.rest == Nil && SubstChild(kids, Value, env) == (kids1, s.2) && Child(kids1, Value) == kids1
  {
    assert Len(kids.rest) == 0;
    var (op1, k, e) := SubstNode(kids.op, kids.kids, env);
  }

  /** Evaluating and remembering a single value. */
  lemma {:induction false} ValueEval(n: nat, w: World, p: Forest, kids: Forest, env: Facts, st: State)
    requires kids.Cons? && AllRole(kids, Value) && Len(kids) <= 1 && Canonical(kids) && Agree(env, st.vars)
    ensures var s := SubstChild(kids, Value, env);
      Matches(EvalList(n, w, p, s.0, st), EvalList(n, w, p, kids, st), s.1)
  {
    ValueIs(kids, env);
    var s := SubstNode(kids.op, kids.kids, env);
    SubstEvalNode(n, w, p, kids.op, kids.kids, env, st);
    SingleEval(n, w, p, kids, st);
    SingleEval(n, w, p, kids.(op := s.0, kids := s.1), st);
  }

  /** Storing an evaluated value makes the remembered fact true. */
  lemma StoredFact(x: string, kids: Forest, e: Facts, r: Evaluated)
    requires r.Vals? ==> Agree(e, r.st.vars) && |r.vs| == 1
    requires kids.Cons? && (kids.op.Integer? || kids.op.Boolean?) && r.Vals? ==> r.vs[0] == Literal(kids.op)
    ensures r.Vals? ==> Agree(Remember(e, x, kids), Store(r.st, x, r.vs[0]).vars)
  {
  }

  lemma {:induction false} PropagateValue(n: nat, w: World, p: Forest, op: Op, kids: Forest, env: Facts, st: State)
    requires (op.Decl? || op.Reassign?) && CanonicalNode(op, kids) && Canonical(kids) && Agree(env, st.vars)
    ensures var s := PropagateNode(op, kids, env);
      Follows(ExecNode(n, w, p, op, s.0, st), ExecNode(n, w, p, op, kids, st), s.1)
  {
    var x := if op.Decl? then op.decl else op.target;
    assert PropagateKids(op, kids, env) == AssignValue(x, kids, env);
    var r := EvalList(n, w, p, kids, st);
    assert ExecNode(n, w, p, op, kids, st) == AfterEval(op, r);
    if kids.Cons? {
      ValueEval(n, w, p, kids, env, st);
      var s := SubstChild(kids, Value, env);
      assert ExecNode(n, w, p, op, s.0, st) == AfterEval(op, EvalList(n, w, p, s.0, st));
      ValueLiteral(n, w, p, kids, env, st);
      StoredFact(x, Child(s.0, Value), s.1, r);
    }
  }

  lemma {:induction false} ValueLiteral(n: nat, w: World, p: Forest, kids: Forest, env: Facts, st: State)
    requires kids.Cons? && AllRole(kids, Value) && Len(kids) <= 1
    ensures var s := SubstChild(kids, Value, env);
      && s.0.Cons? && Child(s.0, Value) == s.0 && Len(s.0) == Len(kids) == 1
      && (s.0.op.Integer? || s.0.op.Boolean? ==> EvalList(n, w, p, s.0, st) == Vals([Literal(s.0.op)], st))
  {
    ValueIs(kids, env);
    var s := SubstNode(kids.op, kids.kids, env);
    if s.0.Integer? || s.0.Boolean? { LiteralValue(n, w, p, kids.(op := s.0, kids := s.1), st); }
  }

  /** A literal evaluates to itself. */
  lemma {:induction false} LiteralValue(n: nat, w: World, p: Forest, kids: Forest, st: State)
    requires kids.Cons? && kids.rest == Nil && (kids.op.Integer? || kids.op.Boolean?)
    ensures EvalList(n, w, p, kids, st) == Vals([Literal(kids.op)], st)
  {
    SingleEval(n, w, p, kids, st);
  }

  lemma {:induction false} SingleEval(n: nat, w: World, p: Forest, f: Forest, st: State)
    requires f.Cons? && f.rest.Nil?
    ensures EvalList(n, w, p, f, st) == EvalNode(n, w, p, f.op, f.kids, st)
  {
    var r := EvalNode(n, w, p, f.op, f.kids, st);
    if r.Vals? {
      assert EvalList(n, w, p, f.rest, r.st) == Vals([], r.st);
      assert r.vs + [] == r.vs;
    }
  }

  lemma {:induction false} PropagateAssign(n: nat, w: World, p: Forest, kids: Forest, env: Facts, st: State)
    requires Pair(kids, Target, Value) && Agree(env, st.vars)
    ensures var s := PropagateNode(Assign, kids, env);
      Follows(ExecNode(n, w, p, Assign, s.0, st), ExecNode(n, w, p, Assign, kids, st), s.1)
  {
    assert Child(kids, Target) == kids;
    if kids.op.Variable? && !ContainsCall(kids) {
      assert !ContainsCall(kids.rest);
      NoCallNode(n, w, p, kids.rest.op, kids.rest.kids, st);
    }
  }

  lemma {:induction false} PropagateOutput(n: nat, w: World, p: Forest, op: Op, kids: Forest, env: Facts, st: State)
    requires (op.Print? || op.Return?) && Canonical(kids) && Agree(env, st.vars)
    ensures var s := PropagateNode(op, kids, env);
      Follows(ExecNode(n, w, p, op, s.0, st), ExecNode(n, w, p, op, kids, st), s.1)
  {
    SubstEvalList(n, w, p, kids, env, st);
    assert PropagateKids(op, kids, env) == SubstList(kids, env);
  }

  lemma {:induction false} PropagateCall(n: nat, w: World, p: Forest, f: string, kids: Forest, env: Facts, st: State)
    requires Canonical(kids) && Agree(env, st.vars)
    ensures var s := PropagateNode(Call(f), kids, env);
      Follows(ExecNode(n, w, p, Call(f), s.0, st), ExecNode(n, w, p, Call(f), kids, st), s.1)
  {
    SubstCall(n, w, p, f, kids, env, st);
    assert PropagateKids(Call(f), kids, env) == SubstList(kids, env);
  }

  /** Statements that evaluate nothing the pass touches. */
  lemma {:induction false} PropagateInert(n: nat, w: World, p: Forest, op: Op, kids: Forest, env: Facts, st: State)
    requires CanonicalNode(op, kids) && Agree(env, st.vars)
    requires !op.If? && !op.Program? && !op.Decl? && !op.Reassign? && !op.Assign? && !op.Print? && !op.Return? && !op.Call?
    ensures var s := PropagateNode(op, kids, env);
      Follows(ExecNode(n, w, p, op, s.0, st), ExecNode(n, w, p, op, kids, st), s.1)
  {
    if op.Struct? { SubstListWeaker(kids, env); }
  }

  lemma {:induction false} PropagateIf(n: nat, w: World, p: Forest, kids: Forest, env: Facts, st: State)
    requires CanonicalNode(If, kids) && Canonical(kids) && Orderly(If, kids) && Agree(env, st.vars)
    ensures var s := PropagateNode(If, kids, env);
      Follows(ExecNode(n, w, p, If, s.0, st), ExecNode(n, w, p, If, kids, st), s.1)
    decreases Size(kids), 3
  {
    var (op1, k, e) := SubstNode(kids.op, kids.kids, env);
    SubstEvalNode(n, w, p, kids.op, kids.kids, env, st);
    var kids1 := kids.(op := op1, kids := k, rest := PropagateArms(kids.rest, e));
    PropagateIfShape(kids, env);
    assert Child(kids, Condition) == kids && Child(kids1, Condition) == kids1;
    var c := EvalCondition(n, w, p, kids, st);
    assert EvalCondition(n, w, p, kids1, st) == c;
    if c.Vals? {
      var role := if Truth(w, c.vs[0]) then Then else Else;
      ArmsExec(n, w, p, kids.rest, role, e, c.st);
    }
  }

  /** What the branches and containers of one arm read. */
  function ArmReads(f: Forest, role: Role): set<string> {
    if f.Nil? then {} else (if f.role == role && Container(f.op) then Reads(f.op, f.kids) else {}) + ArmReads(f.rest, role)
  }

  /** The facts about some variables are true of them. */
  ghost predicate AgreeOn(env: Facts, vars: map<string, Value>, r: set<string>) {
    forall x :: x in env && x in r ==> x in vars && vars[x] == Literal(env[x])
  }

  lemma {:induction false} UndisturbedReads(op: Op, kids: Forest, role: Role, f: Forest)
    requires Undisturbed(op, kids, role, f)
    ensures forall x :: x in ArmReads(f, role) ==> !Writes(op, kids, x)
  {
    if f.Cons? { UndisturbedReads(op, kids, role, f.rest); }
  }

  /** A statement of an arm leaves the facts that its later containers need. */
  lemma {:induction false} StillAgree(n: nat, w: World, p: Forest, f: Forest, role: Role, env: Facts, st: State)
    requires f.Cons? && f.role == role && Undisturbed(f.op, f.kids, role, f.rest) && AgreeOn(env, st.vars, ArmReads(f, role))
    ensures var r := ExecNode(n, w, p, f.op, f.kids, st); r.Done? ==> AgreeOn(env, r.st.vars, ArmReads(f.rest, role))
  {
    var r := ExecNode(n, w, p, f.op, f.kids, st);
    if r.Done? {
      UndisturbedReads(f.op, f.kids, role, f.rest);
      forall x | x in env && x in ArmReads(f.rest, role) ensures x in r.st.vars && r.st.vars[x] == Literal(env[x]) {
        NodeKeeps(n, w, p, f.op, f.kids, st, x);
        assert x in ArmReads(f, role);
      }
    }
  }

  /** Lists whose heads and tails run alike run alike. */
  lemma {:induction false} ArmsStep(n: nat, w: World, p: Forest, f: Forest, g: Forest, role: Role, st: State)
    requires f.Cons? && g.Cons? && g.role == f.role == role
    requires ExecNode(n, w, p, g.op, g.kids, st) == ExecNode(n, w, p, f.op, f.kids, st)
    requires var r := ExecNode(n, w, p, f.op, f.kids, st); r.Done? ==> Exec(n, w, p, g.rest, role, r.st) == Exec(n, w, p, f.rest, role, r.st)
    ensures Exec(n, w, p, g, role, st) == Exec(n, w, p, f, role, st)
  {
  }

  lemma {:induction false} ArmsExec(n: nat, w: World, p: Forest, f: Forest, role: Role, env: Facts, st: State)
    requires Canonical(f) && OrderlyArms(f) && (role == Then || role == Else) && AgreeOn(env, st.vars, ArmReads(f, role))
    ensures Exec(n, w, p, PropagateArms(f, env), role, st) == Exec(n, w, p, f, role, st)
    decreases Size(f), 2
  {
    if f.Cons? {
      if f.role != role {
        ArmsExec(n, w, p, f.rest, role, env, st);
      } else {
        ArmNode(n, w, p, f, env, st);
        StillAgree(n, w, p, f, role, env, st);
        var r := ExecNode(n, w, p, f.op, f.kids, st);
        if r.Done? { ArmsExec(n, w, p, f.rest, role, env, r.st); }
        ArmsStep(n, w, p, f, PropagateArms(f, env), role, st);
      }
    }
  }

  /** A container whose facts are true of what it reads. */
  lemma {:induction false} ArmNode(n: nat, w: World, p: Forest, f: Forest, env: Facts, st: State)
    requires f.Cons? && Canonical(f.kids) && Orderly(f.op, f.kids) && AgreeOn(env, st.vars, ArmReads(f, f.role))
    ensures f.op.Program? ==>
      ExecNode(n, w, p, Program, PropagateList(f.kids, env).0, st) == ExecNode(n, w, p, Program, f.kids, st)
    decreases Size(f), 1
  {
    if f.op.Program? {
      var e := Restrict(env, ReadsList(f.kids));
      OnlyReadFacts(f.kids, env, ReadsList(f.kids));
      forall x | x in e ensures x in st.vars && st.vars[x] == Literal(e[x]) { assert x in ArmReads(f, f.role); }
      PropagateExec(n, w, p, f.kids, e, st);
    }
  }

  lemma {:induction false} PropagateExecNode(n: nat, w: World, p: Forest, op: Op, kids: Forest, env: Facts, st: State)
    requires CanonicalNode(op, kids) && Canonical(kids) && Orderly(op, kids) && Agree(env, st.vars)
    ensures var s := PropagateNode(op, kids, env);
      Follows(ExecNode(n, w, p, op, s.0, st), ExecNode(n, w, p, op, kids, st), s.1)
    decreases Size(kids), 4
  {
    if op.If? {
      PropagateIf(n, w, p, kids, env, st);
    } else if op.Program? {
      PropagateExec(n, w, p, kids, env, st);
    } else if op.Decl? || op.Reassign? {
      PropagateValue(n, w, p, op, kids, env, st);
    } else if op.Assign? {
      PropagateAssign(n, w, p, kids, env, st);
    } else if op.Print? || op.Return? {
      PropagateOutput(n, w, p, op, kids, env, st);
    } else if op.Call? {
      PropagateCall(n, w, p, op.callee, kids, env, st);
    } else {
      PropagateInert(n, w, p, op, kids, env, st);
    }
  }

  lemma {:induction false} PropagateExec(n: nat, w: World, p: Forest, f: Forest, env: Facts, st: State)
    requires Canonical(f) && OrderlyList(f) && Agree(env, st.vars)
    ensures var s := PropagateList(f, env);
      Follows(Exec(n, w, p, s.0, Statement, st), Exec(n, w, p, f, Statement, st), s.1)
    decreases Size(f), 1
  {
    if f.Cons? {
      if f.role != Statement {
        PropagateExec(n, w, p, f.rest, env, st);
      } else {
        PropagateExecNode(n, w, p, f.op, f.kids, env, st);
        var e := PropagateNode(f.op, f.kids, env).1;
        var r := ExecNode(n, w, p, f.op, f.kids, st);
        if r.Done? && r.c == Normal { PropagateExec(n, w, p, f.rest, e, r.st); }
      }
    }
  }

  // ---- Functions and whole programs ----

  lemma {:induction false} BodyExec(n: nat, w: World, p: Forest, f: Forest, st: State)
    requires Canonical(f)
    requires var b := Child(f, Body); b.Cons? ==> Orderly(b.op, b.kids)
    ensures Exec(n, w, p, PropagateBody(f), Body, st) == Exec(n, w, p, f, Body, st)
  {
    if f.Cons? {
      if f.role != Body {
        BodyExec(n, w, p, f.rest, st);
      } else if f.op.Program? {
        PropagateExec(n, w, p, f.kids, map[], st);
      }
    }
  }

  lemma {:induction false} PropagateFunction(p: Forest, env: Facts, name: string)
    requires AllRole(p, Statement)
    ensures FindFunction(p, name).None? <==> FindFunction(PropagateList(p, env).0, name).None?
    ensures FindFunction(p, name).Some? ==>
      var r, s := FindFunction(p, name).value, FindFunction(PropagateList(p, env).0, name).value;
      s.params == r.params && s.body == PropagateBody(r.body)
  {
    if p.Cons? {
      assert p.op.Function? ==> PropagateKids(p.op, p.kids, env).0 == PropagateBody(p.kids);
      PropagateFunction(p.rest, PropagateNode(p.op, p.kids, env).1, name);
    }
  }

  lemma {:induction false} FunctionFacts(p: Forest, name: string)
    requires Canonical(p) && OrderlyList(p) && FindFunction(p, name).Some?
    ensures var b := FindFunction(p, name).value.body;
      Canonical(b) && (Child(b, Body).Cons? ==> Orderly(Child(b, Body).op, Child(b, Body).kids))
  {
    if !(p.op.Function? && p.op.fn == name) { FunctionFacts(p.rest, name); }
  }

  lemma {:induction false} PropagateCalls(n: nat, w: World, p: Forest)
    requires Canonical(p) && OrderlyList(p) && AllRole(p, Statement)
    ensures SameCalls(n, w, p, Propagate(p))
  {
    if n > 0 { PropagateCalls(n - 1, w, p); }
    forall m: nat, f, vs, st | m <= n
      ensures Invoke(m, w, Propagate(p), f, vs, st) == Invoke(m, w, p, f, vs, st)
    {
      PropagateInvoke(m, n, w, p, f, vs, st);
    }
  }

  lemma {:induction false} PropagateInvoke(m: nat, n: nat, w: World, p: Forest, f: string, vs: seq<Value>, st: State)
    requires Canonical(p) && OrderlyList(p) && AllRole(p, Statement) && m <= n
    requires n > 0 ==> SameCalls(n - 1, w, p, Propagate(p))
    ensures Invoke(m, w, Propagate(p), f, vs, st) == Invoke(m, w, p, f, vs, st)
  {
    PropagateFunction(p, map[], f);
    if m > 0 && FindFunction(p, f).Some? {
      var r := FindFunction(p, f).value;
      var st1 := w.enter(f, r.params, vs, st);
      FunctionFacts(p, f);
      BodyExec(m - 1, w, Propagate(p), r.body, st1);
      SwapExec(m - 1, w, p, Propagate(p), r.body, Body, st1);
    }
  }

  /** Propagation preserves every outcome of a program whose branch arms are orderly. */
  lemma {:induction false} PropagateRun(n: nat, w: World, p: Forest, st: State)
    requires Canonical(p) && OrderlyList(p) && AllRole(p, Statement)
    ensures Run(n, w, Propagate(p), st) == Run(n, w, p, st)
  {
    PropagateExec(n, w, Propagate(p), p, map[], st);
    PropagateCalls(n, w, p);
    SwapExec(n, w, p, Propagate(p), p, Statement, st);
  }
}
