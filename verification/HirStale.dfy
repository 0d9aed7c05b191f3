/** What facts the pass uses, and what running a statement leaves of the variables. */
module HirStale {
  import opened Operators
  import opened Hir
  import opened HirSemantics
  import opened HirPropagate

  // ---- The pass depends on the facts about what is read ----

  /** The facts agree on some variables. */
  ghost predicate SameOn(a: Facts, b: Facts, r: set<string>) {
    forall x :: x in r ==> (x in a <==> x in b) && (x in a ==> a[x] == b[x])
  }

  lemma {:induction false} SubstNodeUses(op: Op, kids: Forest, a: Facts, b: Facts, r: set<string>)
    requires SameOn(a, b, r) && ExprReads(op, kids) <= r
    ensures var s, t := SubstNode(op, kids, a), SubstNode(op, kids, b); s.0 == t.0 && s.1 == t.1 && SameOn(s.2, t.2, r)
    decreases kids, 1
  {
    if !op.Variable? && !op.Assign? && op != Unary(Reference) { SubstListUses(kids, a, b, r); }
  }

  lemma {:induction false} SubstListUses(f: Forest, a: Facts, b: Facts, r: set<string>)
    requires SameOn(a, b, r) && ExprReadsList(f) <= r
    ensures var s, t := SubstList(f, a), SubstList(f, b); s.0 == t.0 && SameOn(s.1, t.1, r)
    decreases f, 0
  {
    if f.Cons? {
      SubstNodeUses(f.op, f.kids, a, b, r);
      SubstListUses(f.rest, SubstNode(f.op, f.kids, a).2, SubstNode(f.op, f.kids, b).2, r);
    }
  }


  lemma {:induction false} PropagateUses(op: Op, kids: Forest, a: Facts, b: Facts, r: set<string>)
    requires CanonicalNode(op, kids) && Canonical(kids) && SameOn(a, b, r) && Reads(op, kids) <= r
    ensures var s, t := PropagateNode(op, kids, a), PropagateNode(op, kids, b); s.0 == t.0 && SameOn(s.1, t.1, r)
    decreases Size(kids), 4
  {
    PropagateKidsUses(op, kids, a, b, r);
  }

  lemma {:induction false} PropagateKidsUses(op: Op, kids: Forest, a: Facts, b: Facts, r: set<string>)
    requires CanonicalNode(op, kids) && Canonical(kids) && SameOn(a, b, r) && Reads(op, kids) <= r
    ensures var s, t := PropagateKids(op, kids, a), PropagateKids(op, kids, b); s.0 == t.0 && SameOn(s.1, t.1, r)
    decreases Size(kids), 3
  {
    if op.If? {
      PropagateIfUses(kids, a, b, r);
    } else if op.Program? {
      PropagateListUses(kids, a, b, r);
    } else if !op.Function? {
      PropagateSimpleUses(op, kids, a, b, r);
    }
  }

  lemma {:induction false} PropagateIfUses(kids: Forest, a: Facts, b: Facts, r: set<string>)
    requires CanonicalNode(If, kids) && Canonical(kids) && SameOn(a, b, r) && ReadsList(kids) <= r
    ensures var s, t := PropagateKids(If, kids, a), PropagateKids(If, kids, b); s.0 == t.0 && SameOn(s.1, t.1, r)
    decreases Size(kids), 2
  {
    PropagateIfShape(kids, a);
    PropagateIfShape(kids, b);
    SubstNodeUses(kids.op, kids.kids, a, b, r);
    PropagateArmsUses(kids.rest, SubstNode(kids.op, kids.kids, a).2, SubstNode(kids.op, kids.kids, b).2, r);
  }

  lemma {:induction false} PropagateSimpleUses(op: Op, kids: Forest, a: Facts, b: Facts, r: set<string>)
    requires !op.If? && !op.Program? && !op.Function? && SameOn(a, b, r) && Reads(op, kids) <= r
    ensures var s, t := PropagateSimple(op, kids, a), PropagateSimple(op, kids, b); s.0 == t.0 && SameOn(s.1, t.1, r)
  {
    if op.Decl? || op.Reassign? {
      ValueUses(kids, a, b, r);
    } else if !op.While? && !op.Asm? && !op.Assign? {
      SubstListUses(kids, a, b, r);
    }
  }

  lemma {:induction false} ValueUses(f: Forest, a: Facts, b: Facts, r: set<string>)
    requires SameOn(a, b, r) && ExprReadsList(f) <= r
    ensures var s, t := SubstChild(f, Value, a), SubstChild(f, Value, b); s.0 == t.0 && SameOn(s.1, t.1, r)
  {
    if f.Cons? {
      if f.role == Value { SubstNodeUses(f.op, f.kids, a, b, r); } else { ValueUses(f.rest, a, b, r); }
    }
  }

  lemma {:induction false} PropagateListUses(f: Forest, a: Facts, b: Facts, r: set<string>)
    requires Canonical(f) && SameOn(a, b, r) && ReadsList(f) <= r
    ensures var s, t := PropagateList(f, a), PropagateList(f, b); s.0 == t.0 && SameOn(s.1, t.1, r)
    decreases Size(f), 1
  {
    if f.Cons? {
      if f.role != Statement {
        PropagateListUses(f.rest, a, b, r);
      } else {
        PropagateUses(f.op, f.kids, a, b, r);
        PropagateListUses(f.rest, PropagateNode(f.op, f.kids, a).1, PropagateNode(f.op, f.kids, b).1, r);
      }
    }
  }

  lemma {:induction false} PropagateArmsUses(f: Forest, a: Facts, b: Facts, r: set<string>)
    requires Canonical(f) && SameOn(a, b, r) && ReadsList(f) <= r
    ensures PropagateArms(f, a) == PropagateArms(f, b)
    decreases Size(f), 1
  {
    if f.Cons? {
      PropagateArmsUses(f.rest, a, b, r);
      if f.op.Program? && StatementRole(f.role) { PropagateListUses(f.kids, a, b, r); }
    }
  }

  /** The facts about some variables only. */
  function Restrict(env: Facts, r: set<string>): Facts {
    map x | x in env && x in r :: env[x]
  }

  /** Facts about other variables than those read make no difference. */
  lemma OnlyReadFacts(f: Forest, env: Facts, r: set<string>)
    requires Canonical(f) && ReadsList(f) <= r
    ensures PropagateList(f, env).0 == PropagateList(f, Restrict(env, r)).0
  {
    PropagateListUses(f, env, Restrict(env, r), r);
  }

  // ---- What is not written keeps its value ----

  /** The variable is as it was. */
  predicate Kept(a: State, b: State, x: string) {
    (x in a.vars <==> x in b.vars) && (x in a.vars ==> a.vars[x] == b.vars[x])
  }

  predicate KeptBy(a: State, r: Outcome, x: string) {
    r.Done? ==> Kept(a, r.st, x)
  }

  lemma {:induction false} UnwrittenCalls(f: Forest, x: string)
    requires !WritesList(f, x)
    ensures !ContainsCall(f)
  {
    if f.Cons? {
      UnwrittenCalls(f.kids, x);
      UnwrittenCalls(f.rest, x);
    }
  }

  lemma ApplyVars(w: World, op: Op, vs: seq<Value>, st: State)
    ensures var r := Apply(w, op, vs, st); r.Vals? ==> r.st.vars == st.vars
  {
  }

  lemma {:induction false} NoCallNode(n: nat, w: World, p: Forest, op: Op, kids: Forest, st: State)
    requires !op.Call? && !ContainsCall(kids)
    ensures var r := EvalNode(n, w, p, op, kids, st); r.Vals? ==> r.st.vars == st.vars
    decreases kids, 1
  {
    if op == Binary(And) || op == Binary(Or) {
      if kids.Cons? && kids.rest.Cons? {
        NoCallNode(n, w, p, kids.op, kids.kids, st);
        var l := EvalNode(n, w, p, kids.op, kids.kids, st);
        if l.Vals? { NoCallNode(n, w, p, kids.rest.op, kids.rest.kids, l.st); }
      }
    } else if Strict(op) {
      NoCallList(n, w, p, kids, st);
      var a := EvalList(n, w, p, kids, st);
      if a.Vals? { ApplyVars(w, op, a.vs, a.st); }
    }
  }

  lemma {:induction false} NoCallList(n: nat, w: World, p: Forest, f: Forest, st: State)
    requires !ContainsCall(f)
    ensures var r := EvalList(n, w, p, f, st); r.Vals? ==> r.st.vars == st.vars
    decreases f, 0
  {
    if f.Cons? {
      NoCallNode(n, w, p, f.op, f.kids, st);
      var r := EvalNode(n, w, p, f.op, f.kids, st);
      if r.Vals? { NoCallList(n, w, p, f.rest, r.st); }
    }
  }

  lemma {:induction false} ConditionKeeps(n: nat, w: World, p: Forest, kids: Forest, st: State)
    requires !ContainsCall(kids)
    ensures var r := EvalCondition(n, w, p, kids, st); r.Vals? ==> r.st.vars == st.vars
  {
    ChildCalls(kids, Condition);
    var c := Child(kids, Condition);
    if c.Cons? { NoCallNode(n, w, p, c.op, c.kids, st); }
  }

  lemma {:induction false} ChildCalls(f: Forest, role: Role)
    requires !ContainsCall(f)
    ensures !ContainsCall(Child(f, role))
  {
    if f.Cons? && f.role != role { ChildCalls(f.rest, role); }
  }

  lemma {:induction false} AssignKeeps(n: nat, w: World, p: Forest, kids: Forest, st: State, x: string)
    requires !Writes(Assign, kids, x)
    ensures KeptBy(st, ExecAssign(n, w, p, kids, st), x)
  {
    UnwrittenCalls(kids, x);
    if kids.Cons? && kids.rest.Cons? { NoCallNode(n, w, p, kids.rest.op, kids.rest.kids, st); }
  }

  lemma {:induction false} ValueKeeps(n: nat, w: World, p: Forest, op: Op, kids: Forest, st: State, x: string)
    requires !Writes(op, kids, x) && (op.Print? || op.Return? || op.Decl? || op.Reassign?)
    ensures KeptBy(st, ExecNode(n, w, p, op, kids, st), x)
  {
    UnwrittenCalls(kids, x);
    NoCallList(n, w, p, kids, st);
  }

  lemma {:induction false} NodeKeeps(n: nat, w: World, p: Forest, op: Op, kids: Forest, st: State, x: string)
    requires !Writes(op, kids, x)
    ensures KeptBy(st, ExecNode(n, w, p, op, kids, st), x)
    decreases n, kids, 3
  {
    if op.Program? {
      ListKeeps(n, w, p, kids, Statement, st, x);
    } else if op.If? {
      UnwrittenCalls(kids, x);
      ConditionKeeps(n, w, p, kids, st);
      var c := EvalCondition(n, w, p, kids, st);
      if c.Vals? { ListKeeps(n, w, p, kids, if Truth(w, c.vs[0]) then Then else Else, c.st, x); }
    } else if op.While? {
      LoopKeeps(n, w, p, kids, st, x);
    } else if op.Assign? {
      AssignKeeps(n, w, p, kids, st, x);
    } else if op.Print? || op.Return? || op.Decl? || op.Reassign? {
      ValueKeeps(n, w, p, op, kids, st, x);
    }
  }

  lemma {:induction false} LoopKeeps(n: nat, w: World, p: Forest, kids: Forest, st: State, x: string)
    requires !WritesList(kids, x)
    ensures KeptBy(st, ExecLoop(n, w, p, kids, st), x)
    decreases n, kids, 2
  {
    UnwrittenCalls(kids, x);
    ConditionKeeps(n, w, p, kids, st);
    var c := EvalCondition(n, w, p, kids, st);
    if c.Vals? && Truth(w, c.vs[0]) && n > 0 {
      ListKeeps(n, w, p, kids, Body, c.st, x);
      var r := Exec(n, w, p, kids, Body, c.st);
      if r.Done? { LoopKeeps(n - 1, w, p, kids, r.st, x); }
    }
  }

  lemma {:induction false} ListKeeps(n: nat, w: World, p: Forest, f: Forest, role: Role, st: State, x: string)
    requires !WritesList(f, x)
    ensures KeptBy(st, Exec(n, w, p, f, role, st), x)
    decreases n, f, 1
  {
    if f.Cons? {
      if f.role != role {
        ListKeeps(n, w, p, f.rest, role, st, x);
      } else {
        NodeKeeps(n, w, p, f.op, f.kids, st, x);
        var r := ExecNode(n, w, p, f.op, f.kids, st);
        if r.Done? && r.c == Normal { ListKeeps(n, w, p, f.rest, role, r.st, x); }
      }
    }
  }
}
