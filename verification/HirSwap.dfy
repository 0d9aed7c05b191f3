/** Running the same statements inside two programs whose functions behave alike. */
module HirSwap {
  import opened Operators
  import opened Hir
  import opened HirSemantics

  /** Every call has the same result in `p` and in `q`, with up to `n` units. */
  ghost predicate SameCalls(n: nat, w: World, p: Forest, q: Forest) {
    forall m: nat, f, vs, st :: m <= n ==> Invoke(m, w, q, f, vs, st) == Invoke(m, w, p, f, vs, st)
  }

  lemma {:induction false} SwapEvalNode(n: nat, w: World, p: Forest, q: Forest, op: Op, kids: Forest, st: State)
    requires SameCalls(n, w, p, q)
    ensures EvalNode(n, w, q, op, kids, st) == EvalNode(n, w, p, op, kids, st)
    decreases n, kids, 1
  {
    if op == Binary(And) || op == Binary(Or) {
      SwapShortCircuit(n, w, p, q, op == Binary(Or), kids, st);
    } else {
      SwapEvalList(n, w, p, q, kids, st);
      var a := EvalList(n, w, p, kids, st);
      if op.Call? && a.Vals? {
        assert Invoke(n, w, q, op.callee, a.vs, a.st) == Invoke(n, w, p, op.callee, a.vs, a.st);
      }
    }
  }

  lemma {:induction false} SwapShortCircuit(n: nat, w: World, p: Forest, q: Forest, stop: bool, kids: Forest, st: State)
    requires SameCalls(n, w, p, q)
    ensures ShortCircuit(n, w, q, stop, kids, st) == ShortCircuit(n, w, p, stop, kids, st)
    decreases n, kids, 0
  {
    if kids.Cons? && kids.rest.Cons? {
      SwapEvalNode(n, w, p, q, kids.op, kids.kids, st);
      var l := EvalNode(n, w, p, kids.op, kids.kids, st);
      if l.Vals? { SwapEvalNode(n, w, p, q, kids.rest.op, kids.rest.kids, l.st); }
    }
  }

  lemma {:induction false} SwapEvalList(n: nat, w: World, p: Forest, q: Forest, f: Forest, st: State)
    requires SameCalls(n, w, p, q)
    ensures EvalList(n, w, q, f, st) == EvalList(n, w, p, f, st)
    decreases n, f, 0
  {
    if f.Cons? {
      SwapEvalNode(n, w, p, q, f.op, f.kids, st);
      var r := EvalNode(n, w, p, f.op, f.kids, st);
      if r.Vals? { SwapEvalList(n, w, p, q, f.rest, r.st); }
    }
  }

  lemma {:induction false} SwapCondition(n: nat, w: World, p: Forest, q: Forest, kids: Forest, st: State)
    requires SameCalls(n, w, p, q)
    ensures EvalCondition(n, w, q, kids, st) == EvalCondition(n, w, p, kids, st)
  {
    var c := Child(kids, Condition);
    if c.Cons? { SwapEvalNode(n, w, p, q, c.op, c.kids, st); }
  }

  lemma {:induction false} SwapAssign(n: nat, w: World, p: Forest, q: Forest, kids: Forest, st: State)
    requires SameCalls(n, w, p, q)
    ensures ExecAssign(n, w, q, kids, st) == ExecAssign(n, w, p, kids, st)
  {
    if kids.Cons? && kids.rest.Cons? {
      if kids.op.Variable? {
        SwapEvalNode(n, w, p, q, kids.rest.op, kids.rest.kids, st);
      } else {
        SwapEvalList(n, w, p, q, kids.kids, st);
        var a := EvalList(n, w, p, kids.kids, st);
        if a.Vals? { SwapEvalNode(n, w, p, q, kids.rest.op, kids.rest.kids, a.st); }
      }
    }
  }

  lemma {:induction false} SwapExecNode(n: nat, w: World, p: Forest, q: Forest, op: Op, kids: Forest, st: State)
    requires SameCalls(n, w, p, q)
    ensures ExecNode(n, w, q, op, kids, st) == ExecNode(n, w, p, op, kids, st)
    decreases n, kids, 2
  {
    match op
    case Program => SwapExec(n, w, p, q, kids, Statement, st);
    case If =>
      SwapCondition(n, w, p, q, kids, st);
      var c := EvalCondition(n, w, p, kids, st);
      if c.Vals? { SwapExec(n, w, p, q, kids, if Truth(w, c.vs[0]) then Then else Else, c.st); }
    case While => SwapLoop(n, w, p, q, kids, st);
    case Print | Return | Decl(_) | Reassign(_) => SwapEvalList(n, w, p, q, kids, st);
    case Assign => SwapAssign(n, w, p, q, kids, st);
    case Call(_) => SwapEvalNode(n, w, p, q, op, kids, st);
    case _ =>
  }

  lemma {:induction false} SwapLoop(n: nat, w: World, p: Forest, q: Forest, kids: Forest, st: State)
    requires SameCalls(n, w, p, q)
    ensures ExecLoop(n, w, q, kids, st) == ExecLoop(n, w, p, kids, st)
    decreases n, kids, 1
  {
    SwapCondition(n, w, p, q, kids, st);
    var c := EvalCondition(n, w, p, kids, st);
    if c.Vals? && Truth(w, c.vs[0]) && n > 0 {
      SwapExec(n, w, p, q, kids, Body, c.st);
      var r := Exec(n, w, p, kids, Body, c.st);
      if r.Done? { SwapLoop(n - 1, w, p, q, kids, r.st); }
    }
  }

  lemma {:induction false} SwapExec(n: nat, w: World, p: Forest, q: Forest, f: Forest, role: Role, st: State)
    requires SameCalls(n, w, p, q)
    ensures Exec(n, w, q, f, role, st) == Exec(n, w, p, f, role, st)
    decreases n, f, 0
  {
    if f.Cons? {
      if f.role != role {
        SwapExec(n, w, p, q, f.rest, role, st);
      } else {
        SwapExecNode(n, w, p, q, f.op, f.kids, st);
        var r := ExecNode(n, w, p, f.op, f.kids, st);
        if r.Done? { SwapExec(n, w, p, q, f.rest, role, r.st); }
      }
    }
  }
}
