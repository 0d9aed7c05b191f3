/** Meaning does not depend on where nodes are stored. */
module HirSimilar {
  import opened Options
  import opened Operators
  import opened Hir
  import opened HirSemantics
  import opened HirSwap
  import opened HirPropagate
  import opened HirCompact

  /** Equal up to node indices. */
  predicate Similar(f: Forest, g: Forest) {
    if f.Nil? || g.Nil? then f.Nil? && g.Nil?
    else f.op == g.op && f.role == g.role && Similar(f.kids, g.kids) && Similar(f.rest, g.rest)
  }

  lemma {:induction false} RenumberSimilar(f: Forest, start: nat)
    ensures Similar(f, Renumber(f, start))
  {
    if f.Cons? {
      RenumberSimilar(f.kids, start + 1);
      RenumberSimilar(f.rest, start + 1 + Size(f.kids));
    }
  }

  lemma {:induction false} SimilarChild(f: Forest, g: Forest, role: Role)
    requires Similar(f, g)
    ensures Similar(Child(f, role), Child(g, role))
  {
    if f.Cons? && f.role != role { SimilarChild(f.rest, g.rest, role); }
  }

  lemma {:induction false} SimilarEvalNode(n: nat, w: World, p: Forest, op: Op, f: Forest, g: Forest, st: State)
    requires Similar(f, g)
    ensures EvalNode(n, w, p, op, g, st) == EvalNode(n, w, p, op, f, st)
    decreases f, 1
  {
    if op == Binary(And) || op == Binary(Or) {
      if f.Cons? && f.rest.Cons? {
        SimilarEvalNode(n, w, p, f.op, f.kids, g.kids, st);
        var l := EvalNode(n, w, p, f.op, f.kids, st);
        if l.Vals? { SimilarEvalNode(n, w, p, f.rest.op, f.rest.kids, g.rest.kids, l.st); }
      }
    } else {
      SimilarEvalList(n, w, p, f, g, st);
    }
  }

  lemma {:induction false} SimilarEvalList(n: nat, w: World, p: Forest, f: Forest, g: Forest, st: State)
    requires Similar(f, g)
    ensures EvalList(n, w, p, g, st) == EvalList(n, w, p, f, st)
    decreases f, 0
  {
    if f.Cons? {
      SimilarEvalNode(n, w, p, f.op, f.kids, g.kids, st);
      var r := EvalNode(n, w, p, f.op, f.kids, st);
      if r.Vals? { SimilarEvalList(n, w, p, f.rest, g.rest, r.st); }
    }
  }

  lemma {:induction false} SimilarCondition(n: nat, w: World, p: Forest, f: Forest, g: Forest, st: State)
    requires Similar(f, g)
    ensures EvalCondition(n, w, p, g, st) == EvalCondition(n, w, p, f, st)
  {
    SimilarChild(f, g, Condition);
    var c, d := Child(f, Condition), Child(g, Condition);
    if c.Cons? { SimilarEvalNode(n, w, p, c.op, c.kids, d.kids, st); }
  }

  lemma {:induction false} SimilarAssign(n: nat, w: World, p: Forest, f: Forest, g: Forest, st: State)
    requires Similar(f, g)
    ensures ExecAssign(n, w, p, g, st) == ExecAssign(n, w, p, f, st)
  {
    if f.Cons? && f.rest.Cons? {
      if f.op.Variable? {
        SimilarEvalNode(n, w, p, f.rest.op, f.rest.kids, g.rest.kids, st);
      } else {
        SimilarEvalList(n, w, p, f.kids, g.kids, st);
        var a := EvalList(n, w, p, f.kids, st);
        if a.Vals? { SimilarEvalNode(n, w, p, f.rest.op, f.rest.kids, g.rest.kids, a.st); }
      }
    }
  }

  lemma {:induction false} SimilarExecNode(n: nat, w: World, p: Forest, op: Op, f: Forest, g: Forest, st: State)
    requires Similar(f, g)
    ensures ExecNode(n, w, p, op, g, st) == ExecNode(n, w, p, op, f, st)
    decreases n, f, 2
  {
    match op
    case Program => SimilarExec(n, w, p, f, g, Statement, st);
    case If =>
      SimilarCondition(n, w, p, f, g, st);
      var c := EvalCondition(n, w, p, f, st);
      if c.Vals? { SimilarExec(n, w, p, f, g, if Truth(w, c.vs[0]) then Then else Else, c.st); }
    case While => SimilarLoop(n, w, p, f, g, st);
    case Print | Return | Decl(_) | Reassign(_) => SimilarEvalList(n, w, p, f, g, st);
    case Assign => SimilarAssign(n, w, p, f, g, st);
    case Call(_) => SimilarEvalNode(n, w, p, op, f, g, st);
    case _ =>
  }

  lemma {:induction false} SimilarLoop(n: nat, w: World, p: Forest, f: Forest, g: Forest, st: State)
    requires Similar(f, g)
    ensures ExecLoop(n, w, p, g, st) == ExecLoop(n, w, p, f, st)
    decreases n, f, 1
  {
    SimilarCondition(n, w, p, f, g, st);
    var c := EvalCondition(n, w, p, f, st);
    if c.Vals? && Truth(w, c.vs[0]) && n > 0 {
      SimilarExec(n, w, p, f, g, Body, c.st);
      var r := Exec(n, w, p, f, Body, c.st);
      if r.Done? { SimilarLoop(n - 1, w, p, f, g, r.st); }
    }
  }

  lemma {:induction false} SimilarExec(n: nat, w: World, p: Forest, f: Forest, g: Forest, role: Role, st: State)
    requires Similar(f, g)
    ensures Exec(n, w, p, g, role, st) == Exec(n, w, p, f, role, st)
    decreases n, f, 0
  {
    if f.Cons? {
      if f.role != role {
        SimilarExec(n, w, p, f.rest, g.rest, role, st);
      } else {
        SimilarExecNode(n, w, p, f.op, f.kids, g.kids, st);
        var r := ExecNode(n, w, p, f.op, f.kids, st);
        if r.Done? { SimilarExec(n, w, p, f.rest, g.rest, role, r.st); }
      }
    }
  }

  lemma {:induction false} SimilarFunction(p: Forest, q: Forest, name: string)
    requires Similar(p, q)
    ensures FindFunction(p, name).None? <==> FindFunction(q, name).None?
    ensures FindFunction(p, name).Some? ==>
      var r, s := FindFunction(p, name).value, FindFunction(q, name).value;
      s.params == r.params && Similar(r.body, s.body)
  {
    if p.Cons? { SimilarFunction(p.rest, q.rest, name); }
  }

  lemma {:induction false} SimilarCalls(n: nat, w: World, p: Forest, q: Forest)
    requires Similar(p, q)
    ensures SameCalls(n, w, p, q)
  {
    if n > 0 { SimilarCalls(n - 1, w, p, q); }
    forall m: nat, f, vs, st | m <= n
      ensures Invoke(m, w, q, f, vs, st) == Invoke(m, w, p, f, vs, st)
    {
      SimilarInvoke(m, n, w, p, q, f, vs, st);
    }
  }

  lemma {:induction false} SimilarInvoke(m: nat, n: nat, w: World, p: Forest, q: Forest, f: string, vs: seq<Value>, st: State)
    requires Similar(p, q) && m <= n
    requires n > 0 ==> SameCalls(n - 1, w, p, q)
    ensures Invoke(m, w, q, f, vs, st) == Invoke(m, w, p, f, vs, st)
  {
    SimilarFunction(p, q, f);
    if m > 0 && FindFunction(p, f).Some? {
      var r, s := FindFunction(p, f).value, FindFunction(q, f).value;
      var st1 := w.enter(f, r.params, vs, st);
      SimilarExec(m - 1, w, q, r.body, s.body, Body, st1);
      SwapExec(m - 1, w, p, q, r.body, Body, st1);
    }
  }

  lemma {:induction false} SimilarRun(n: nat, w: World, p: Forest, q: Forest, st: State)
    requires Similar(p, q)
    ensures Run(n, w, q, st) == Run(n, w, p, st)
  {
    SimilarExec(n, w, q, p, q, Statement, st);
    SimilarCalls(n, w, p, q);
    SwapExec(n, w, p, q, p, Statement, st);
  }
}
