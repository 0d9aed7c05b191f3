/** The bound of a run only decides whether it ends: a run that ends has the same outcome
    under every larger bound. */
module HirFuel {
  import opened Operators
  import opened Hir
  import opened HirSemantics

  predicate Settled(a: Evaluated, b: Evaluated) {
    !a.EvalTimeout? ==> b == a
  }

  predicate SettledRun(a: Outcome, b: Outcome) {
    !a.Timeout? ==> b == a
  }

  lemma {:induction false} MoreEvalNode(n: nat, m: nat, w: World, p: Forest, op: Op, kids: Forest, st: State)
    requires n <= m
    ensures Settled(EvalNode(n, w, p, op, kids, st), EvalNode(m, w, p, op, kids, st))
    decreases n, 1, kids, 1
  {
    if op == Binary(And) || op == Binary(Or) {
      MoreShortCircuit(n, m, w, p, op == Binary(Or), kids, st);
    } else {
      MoreEvalList(n, m, w, p, kids, st);
      var a := EvalList(n, w, p, kids, st);
      if op.Call? && a.Vals? { MoreInvoke(n, m, w, p, op.callee, a.vs, a.st); }
    }
  }

  lemma {:induction false} MoreShortCircuit(n: nat, m: nat, w: World, p: Forest, stop: bool, kids: Forest, st: State)
    requires n <= m
    ensures Settled(ShortCircuit(n, w, p, stop, kids, st), ShortCircuit(m, w, p, stop, kids, st))
    decreases n, 1, kids, 0
  {
    if kids.Cons? && kids.rest.Cons? {
      MoreEvalNode(n, m, w, p, kids.op, kids.kids, st);
      var l := EvalNode(n, w, p, kids.op, kids.kids, st);
      if l.Vals? { MoreEvalNode(n, m, w, p, kids.rest.op, kids.rest.kids, l.st); }
    }
  }

  lemma {:induction false} MoreEvalList(n: nat, m: nat, w: World, p: Forest, f: Forest, st: State)
    requires n <= m
    ensures Settled(EvalList(n, w, p, f, st), EvalList(m, w, p, f, st))
    decreases n, 1, f, 0
  {
    if f.Cons? {
      MoreEvalNode(n, m, w, p, f.op, f.kids, st);
      var r := EvalNode(n, w, p, f.op, f.kids, st);
      if r.Vals? { MoreEvalList(n, m, w, p, f.rest, r.st); }
    }
  }

  lemma {:induction false} MoreInvoke(n: nat, m: nat, w: World, p: Forest, f: string, vs: seq<Value>, st: State)
    requires n <= m
    ensures Settled(Invoke(n, w, p, f, vs, st), Invoke(m, w, p, f, vs, st))
    decreases n, 0
  {
    if n > 0 && FindFunction(p, f).Some? {
      var r := FindFunction(p, f).value;
      MoreExec(n - 1, m - 1, w, p, r.body, Body, w.enter(f, r.params, vs, st));
    }
  }

  lemma {:induction false} MoreCondition(n: nat, m: nat, w: World, p: Forest, kids: Forest, st: State)
    requires n <= m
    ensures Settled(EvalCondition(n, w, p, kids, st), EvalCondition(m, w, p, kids, st))
    decreases n, 1, kids, 2
  {
    var c := Child(kids, Condition);
    if c.Cons? { MoreEvalNode(n, m, w, p, c.op, c.kids, st); }
  }

  lemma {:induction false} MoreAssign(n: nat, m: nat, w: World, p: Forest, kids: Forest, st: State)
    requires n <= m
    ensures SettledRun(ExecAssign(n, w, p, kids, st), ExecAssign(m, w, p, kids, st))
    decreases n, 1, kids, 2
  {
    if kids.Cons? && kids.rest.Cons? {
      if kids.op.Variable? {
        MoreEvalNode(n, m, w, p, kids.rest.op, kids.rest.kids, st);
      } else {
        MoreEvalList(n, m, w, p, kids.kids, st);
        var a := EvalList(n, w, p, kids.kids, st);
        if a.Vals? { MoreEvalNode(n, m, w, p, kids.rest.op, kids.rest.kids, a.st); }
      }
    }
  }

  lemma {:induction false} MoreExecNode(n: nat, m: nat, w: World, p: Forest, op: Op, kids: Forest, st: State)
    requires n <= m
    ensures SettledRun(ExecNode(n, w, p, op, kids, st), ExecNode(m, w, p, op, kids, st))
    decreases n, 1, kids, 4
  {
    match op
    case Program => MoreExec(n, m, w, p, kids, Statement, st);
    case If =>
      MoreCondition(n, m, w, p, kids, st);
      var c := EvalCondition(n, w, p, kids, st);
      if c.Vals? { MoreExec(n, m, w, p, kids, if Truth(w, c.vs[0]) then Then else Else, c.st); }
    case While => MoreLoop(n, m, w, p, kids, st);
    case Print | Return | Decl(_) | Reassign(_) => MoreEvalList(n, m, w, p, kids, st);
    case Assign => MoreAssign(n, m, w, p, kids, st);
    case Call(_) => MoreEvalNode(n, m, w, p, op, kids, st);
    case _ =>
  }

  lemma {:induction false} MoreLoop(n: nat, m: nat, w: World, p: Forest, kids: Forest, st: State)
    requires n <= m
    ensures SettledRun(ExecLoop(n, w, p, kids, st), ExecLoop(m, w, p, kids, st))
    decreases n, 1, kids, 3
  {
    MoreCondition(n, m, w, p, kids, st);
    var c := EvalCondition(n, w, p, kids, st);
    if c.Vals? && Truth(w, c.vs[0]) && n > 0 {
      MoreExec(n, m, w, p, kids, Body, c.st);
      var r := Exec(n, w, p, kids, Body, c.st);
      if r.Done? { MoreLoop(n - 1, m - 1, w, p, kids, r.st); }
    }
  }

  lemma {:induction false} MoreExec(n: nat, m: nat, w: World, p: Forest, f: Forest, role: Role, st: State)
    requires n <= m
    ensures SettledRun(Exec(n, w, p, f, role, st), Exec(m, w, p, f, role, st))
    decreases n, 1, f, 2
  {
    if f.Cons? {
      if f.role != role {
        MoreExec(n, m, w, p, f.rest, role, st);
      } else {
        MoreExecNode(n, m, w, p, f.op, f.kids, st);
        var r := ExecNode(n, w, p, f.op, f.kids, st);
        if r.Done? { MoreExec(n, m, w, p, f.rest, role, r.st); }
      }
    }
  }
}
