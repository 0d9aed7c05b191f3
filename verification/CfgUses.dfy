/** The variables that the analyses take a statement to read and to set, against what happens
    when the statement is executed. */
module CfgUses {
  import opened Options
  import opened Operators
  import opened Hir
  import opened HirSemantics
  import opened CfgEffects
  import opened HirStale
  import opened CfgMeaning
  import HirPropagate

  // ---- Statements that a block holds ----

  predicate CallFree(op: Op, kids: Forest) {
    !op.Call? && !HirPropagate.ContainsCall(kids)
  }

  /** A statement that only evaluates and sets variables: no assembly and no memory writes. */
  predicate Plain(op: Op, kids: Forest) {
    CallFree(op, kids) && !op.Asm? && (op.Assign? ==> kids.Cons? && kids.op.Variable?)
  }

  lemma {:induction false} ValueKids(kids: Forest)
    requires AllRole(kids, Value) && Len(kids) <= 1
    ensures Child(kids, Value) == kids && ReadsList(kids) == ReadsFirst(kids)
  {
    if kids.Cons? { assert ReadsList(kids.rest) == {}; }
  }

  lemma {:induction false} PairKids(kids: Forest)
    requires Pair(kids, Target, Value)
    ensures Child(kids, Target) == kids && Child(kids, Value) == kids.rest
    ensures HirPropagate.ContainsCall(kids) <==> !CallFree(kids.op, kids.kids) || !CallFree(kids.rest.op, kids.rest.kids)
  {
    assert Child(kids.rest, Value) == kids.rest;
    assert HirPropagate.ContainsCall(kids.rest) <==> !CallFree(kids.rest.op, kids.rest.kids);
  }

  // ---- Only what is read matters ----

  /** Reading memory does not look at variables. */
  ghost predicate Blind(w: World) {
    forall op, vs, s: State, t: State :: s.mem == t.mem && s.out == t.out ==> w.read(op, vs, s) == w.read(op, vs, t)
  }

  ghost predicate Agree(s: State, t: State, r: set<string>) {
    && s.mem == t.mem && s.out == t.out
    && (forall x :: x in r ==> (x in s.vars <==> x in t.vars))
    && (forall x :: x in r && x in s.vars && x in t.vars ==> s.vars[x] == t.vars[x])
  }

  /** The same values or the same trap, with the same memory and output. */
  predicate Alike(a: Evaluated, b: Evaluated, s: State, t: State) {
    match a
    case Vals(vs, s1) => b.Vals? && b.vs == vs && s1 == s.(mem := s1.mem) && b.st == t.(mem := s1.mem)
    case EvalTrap(s1, why) => b.EvalTrap? && b.why == why && s1 == s.(mem := s1.mem) && b.st == t.(mem := s1.mem)
    case EvalTimeout => b.EvalTimeout?
  }

  lemma ApplyAlike(w: World, op: Op, vs: seq<Value>, s: State, t: State)
    requires Blind(w) && s.mem == t.mem && s.out == t.out
    ensures Alike(Apply(w, op, vs, s), Apply(w, op, vs, t), s, t)
  {
  }

  lemma AlikeStep(a: Evaluated, b: Evaluated, s: State, t: State, r: set<string>)
    requires Agree(s, t, r) && Alike(a, b, s, t) && a.Vals?
    ensures Agree(a.st, b.st, r)
  {
  }

  lemma AlikeTrans(a: Evaluated, b: Evaluated, s1: State, t1: State, s: State, t: State)
    requires Alike(a, b, s1, t1) && s1 == s.(mem := s1.mem) && t1 == t.(mem := t1.mem) && s1.mem == t1.mem
    ensures Alike(a, b, s, t)
  {
  }

  lemma {:induction false} AgreeNode(n: nat, w: World, p: Forest, op: Op, kids: Forest, s: State, t: State, r: set<string>)
    requires Blind(w) && CallFree(op, kids) && Agree(s, t, r) && ReadsNode(op, kids) <= r
    ensures Alike(EvalNode(n, w, p, op, kids, s), EvalNode(n, w, p, op, kids, t), s, t)
    decreases kids, 2
  {
    if op == Binary(And) || op == Binary(Or) {
      AgreeShort(n, w, p, op == Binary(Or), kids, s, t, r);
    } else if Strict(op) && op != Unary(Reference) {
      AgreeList(n, w, p, kids, s, t, r);
      AgreeThen(w, op, EvalList(n, w, p, kids, s), EvalList(n, w, p, kids, t), s, t);
      StrictIs(n, w, p, op, kids, s);
      StrictIs(n, w, p, op, kids, t);
    }
  }

  function Then(w: World, op: Op, a: Evaluated): Evaluated {
    if a.Vals? then Apply(w, op, a.vs, a.st) else a
  }

  lemma {:induction false} StrictIs(n: nat, w: World, p: Forest, op: Op, kids: Forest, st: State)
    requires Strict(op) && op != Binary(And) && op != Binary(Or) && op != Unary(Reference)
    ensures EvalNode(n, w, p, op, kids, st) == Then(w, op, EvalList(n, w, p, kids, st))
  {
  }

  lemma {:induction false} AgreeThen(w: World, op: Op, a: Evaluated, b: Evaluated, s: State, t: State)
    requires Blind(w) && s.mem == t.mem && s.out == t.out && Alike(a, b, s, t)
    ensures Alike(Then(w, op, a), Then(w, op, b), s, t)
  {
    if a.Vals? {
      ApplyAlike(w, op, a.vs, a.st, b.st);
      AlikeTrans(Apply(w, op, a.vs, a.st), Apply(w, op, a.vs, b.st), a.st, b.st, s, t);
    }
  }

  lemma {:induction false} AgreeShort(n: nat, w: World, p: Forest, stop: bool, kids: Forest, s: State, t: State, r: set<string>)
    requires Blind(w) && !HirPropagate.ContainsCall(kids) && Agree(s, t, r) && ReadsList(kids) <= r
    ensures Alike(ShortCircuit(n, w, p, stop, kids, s), ShortCircuit(n, w, p, stop, kids, t), s, t)
    decreases kids, 1
  {
    if kids.Cons? && kids.rest.Cons? {
      AgreeNode(n, w, p, kids.op, kids.kids, s, t, r);
      var a, b := EvalNode(n, w, p, kids.op, kids.kids, s), EvalNode(n, w, p, kids.op, kids.kids, t);
      if a.Vals? {
        AlikeStep(a, b, s, t, r);
        AgreeNode(n, w, p, kids.rest.op, kids.rest.kids, a.st, b.st, r);
      }
    }
  }

  lemma {:induction false} AgreeList(n: nat, w: World, p: Forest, f: Forest, s: State, t: State, r: set<string>)
    requires Blind(w) && !HirPropagate.ContainsCall(f) && Agree(s, t, r) && ReadsList(f) <= r
    ensures Alike(EvalList(n, w, p, f, s), EvalList(n, w, p, f, t), s, t)
    decreases f, 0
  {
    if f.Cons? {
      AgreeNode(n, w, p, f.op, f.kids, s, t, r);
      var a, b := EvalNode(n, w, p, f.op, f.kids, s), EvalNode(n, w, p, f.op, f.kids, t);
      if a.Vals? {
        AlikeStep(a, b, s, t, r);
        AgreeList(n, w, p, f.rest, a.st, b.st, r);
      }
    }
  }

  /** Two outcomes alike: the same end with the same memory and output, and exactly the
      variables in `d` set, to the same values. */
  ghost predicate SameEffect(a: Outcome, b: Outcome, s: State, t: State, d: set<string>) {
    match a
    case Done(c, s1) =>
      && b.Done? && b.c == c && s1.mem == b.st.mem && s1.out == b.st.out
      && exists u: map<string, Value> :: u.Keys == d && s1.vars == s.vars + u && b.st.vars == t.vars + u
    case Trap(s1, why) => b.Trap? && b.why == why && s1.mem == b.st.mem && s1.out == b.st.out
    case Timeout => b.Timeout?
  }

  lemma StoreEffect(s: State, t: State, x: string, v: Value)
    requires s.mem == t.mem && s.out == t.out
    ensures SameEffect(Done(Normal, Store(s, x, v)), Done(Normal, Store(t, x, v)), s, t, {x})
  {
    var u := map[x := v];
    assert s.vars[x := v] == s.vars + u && t.vars[x := v] == t.vars + u;
  }

  lemma NoEffect(a: Outcome, b: Outcome, s: State, t: State)
    requires a.Done? && b.Done? && a.c == b.c && a.st.mem == b.st.mem && a.st.out == b.st.out
    requires a.st.vars == s.vars && b.st.vars == t.vars
    ensures SameEffect(a, b, s, t, {})
  {
    var u: map<string, Value> := map[];
    assert s.vars == s.vars + u && t.vars == t.vars + u;
  }

  /** The outcome of a plain statement depends on the variables that it is taken to use, and it
      sets exactly those that it is taken to define. */
  lemma {:induction false} StatementExact(n: nat, w: World, p: Forest, op: Op, kids: Forest, s: State, t: State)
    requires Blind(w) && Simple(op) && CanonicalNode(op, kids) && Plain(op, kids) && Agree(s, t, StmtUses(op, kids))
    ensures SameEffect(ExecNode(n, w, p, op, kids, s), ExecNode(n, w, p, op, kids, t), s, t, StmtDefs(op, kids))
  {
    var r := StmtUses(op, kids);
    match op
    case Print | Return | Decl(_) | Reassign(_) =>
      ValueKids(kids);
      AgreeList(n, w, p, kids, s, t, r);
      ValueExact(op, kids, EvalList(n, w, p, kids, s), EvalList(n, w, p, kids, t), s, t);
    case Assign =>
      PairKids(kids);
      AgreeNode(n, w, p, kids.rest.op, kids.rest.kids, s, t, r);
      var a, b := EvalNode(n, w, p, kids.rest.op, kids.rest.kids, s), EvalNode(n, w, p, kids.rest.op, kids.rest.kids, t);
      AssignIs(n, w, p, kids, s);
      AssignIs(n, w, p, kids, t);
      AssignExact(kids.op.name, a, b, s, t);
    case Break => NoEffect(Done(Broke, s), Done(Broke, t), s, t);
    case Continue => NoEffect(Done(Continued, s), Done(Continued, t), s, t);
    case _ =>
  }

  function Stored(x: string, a: Evaluated): Outcome
    requires a.Vals? ==> |a.vs| == 1
  {
    match a
    case Vals(vs, st) => Done(Normal, Store(st, x, vs[0]))
    case EvalTrap(st, why) => Trap(st, why)
    case EvalTimeout => Timeout
  }

  lemma {:induction false} AssignIs(n: nat, w: World, p: Forest, kids: Forest, st: State)
    requires Pair(kids, Target, Value) && kids.op.Variable?
    ensures ExecNode(n, w, p, Assign, kids, st) == Stored(kids.op.name, EvalNode(n, w, p, kids.rest.op, kids.rest.kids, st))
  {
    assert ExecNode(n, w, p, Assign, kids, st) == ExecAssign(n, w, p, kids, st);
  }

  lemma {:induction false} AssignExact(x: string, a: Evaluated, b: Evaluated, s: State, t: State)
    requires Alike(a, b, s, t) && s.mem == t.mem && s.out == t.out && (a.Vals? ==> |a.vs| == 1)
    ensures SameEffect(Stored(x, a), Stored(x, b), s, t, {x})
  {
    if a.Vals? { StoreEffect(s.(mem := a.st.mem), t.(mem := a.st.mem), x, a.vs[0]); }
  }

  lemma {:induction false} ValueExact(op: Op, kids: Forest, a: Evaluated, b: Evaluated, s: State, t: State)
    requires op.Print? || op.Return? || op.Decl? || op.Reassign?
    requires CanonicalNode(op, kids) && Alike(a, b, s, t) && s.mem == t.mem && s.out == t.out && (a.Vals? ==> |a.vs| == Len(kids))
    ensures SameEffect(AfterEval(op, a), AfterEval(op, b), s, t, StmtDefs(op, kids))
  {
    ValueKids(kids);
    if a.Vals? {
      var s1, t1 := s.(mem := a.st.mem), t.(mem := a.st.mem);
      if (op.Decl? || op.Reassign?) && kids.Cons? {
        StoreEffect(s1, t1, if op.Decl? then op.decl else op.target, a.vs[0]);
      } else {
        NoEffect(AfterEval(op, a), AfterEval(op, b), s, t);
      }
    }
  }

  // ---- A strict read of an unset variable traps ----

  /** All operands are evaluated: no call, no short circuit, no address of a variable. */
  predicate StrictNode(op: Op, kids: Forest)
    decreases kids, 1
  {
    if op.Variable? then true
    else if op.Integer? || op.Boolean? || op.Text? || op.Null? then kids.Nil?
    else Strict(op) && op != Binary(And) && op != Binary(Or) && op != Unary(Reference) && StrictList(kids)
  }

  predicate StrictList(f: Forest)
    decreases f, 0
  {
    f.Cons? ==> StrictNode(f.op, f.kids) && StrictList(f.rest)
  }

  lemma {:induction false} UnsetTraps(n: nat, w: World, p: Forest, op: Op, kids: Forest, st: State, x: string)
    requires StrictNode(op, kids) && x in ReadsNode(op, kids) && x !in st.vars
    ensures EvalNode(n, w, p, op, kids, st).EvalTrap?
    decreases kids, 1
  {
    if !op.Variable? { UnsetListTraps(n, w, p, kids, st, x); }
  }

  lemma {:induction false} StrictKeeps(n: nat, w: World, p: Forest, op: Op, kids: Forest, st: State)
    requires StrictNode(op, kids)
    ensures var r := EvalNode(n, w, p, op, kids, st); !r.EvalTimeout? && (r.Vals? ==> r.st.vars == st.vars)
    decreases kids, 1
  {
    if !op.Variable? && Strict(op) {
      StrictListKeeps(n, w, p, kids, st);
      var a := EvalList(n, w, p, kids, st);
      if a.Vals? { ApplyVars(w, op, a.vs, a.st); }
    }
  }

  lemma {:induction false} StrictListKeeps(n: nat, w: World, p: Forest, f: Forest, st: State)
    requires StrictList(f)
    ensures var r := EvalList(n, w, p, f, st); !r.EvalTimeout? && (r.Vals? ==> r.st.vars == st.vars)
    decreases f, 0
  {
    if f.Cons? {
      StrictKeeps(n, w, p, f.op, f.kids, st);
      var a := EvalNode(n, w, p, f.op, f.kids, st);
      if a.Vals? { StrictListKeeps(n, w, p, f.rest, a.st); }
    }
  }

  lemma {:induction false} UnsetListTraps(n: nat, w: World, p: Forest, f: Forest, st: State, x: string)
    requires StrictList(f) && x in ReadsList(f) && x !in st.vars
    ensures EvalList(n, w, p, f, st).EvalTrap?
    decreases f, 0
  {
    StrictKeeps(n, w, p, f.op, f.kids, st);
    var a := EvalNode(n, w, p, f.op, f.kids, st);
    if x in ReadsNode(f.op, f.kids) {
      UnsetTraps(n, w, p, f.op, f.kids, st, x);
    } else if a.Vals? {
      UnsetListTraps(n, w, p, f.rest, a.st, x);
    }
  }

  // ---- What is set afterwards ----

  /** Assembly, memory writes and builtins neither set variables nor unset them. */
  ghost predicate KeepsNames(w: World) {
    forall op, vs, st :: w.act(op, vs, st).Acted? ==> w.act(op, vs, st).st.vars.Keys == st.vars.Keys
  }

  /** A statement without calls that ends has set exactly the variables that it is taken to define. */
  lemma {:induction false} DefinesExactly(n: nat, w: World, p: Forest, op: Op, kids: Forest, st: State)
    requires KeepsNames(w) && Simple(op) && CanonicalNode(op, kids) && CallFree(op, kids)
    ensures var o := ExecNode(n, w, p, op, kids, st);
      o.Done? ==> o.st.vars.Keys == st.vars.Keys + StmtDefs(op, kids)
  {
    match op
    case Print | Return | Decl(_) | Reassign(_) =>
      ValueKids(kids);
      NoCallList(n, w, p, kids, st);
    case Assign =>
      PairKids(kids);
      if kids.op.Variable? {
        NoCallNode(n, w, p, kids.rest.op, kids.rest.kids, st);
        AssignIs(n, w, p, kids, st);
      } else {
        WriteKeeps(n, w, p, kids, st);
      }
    case _ =>
  }

  lemma {:induction false} WriteKeeps(n: nat, w: World, p: Forest, kids: Forest, st: State)
    requires KeepsNames(w) && Pair(kids, Target, Value) && !kids.op.Variable? && CallFree(kids.op, kids.kids) && CallFree(kids.rest.op, kids.rest.kids)
    ensures var o := ExecAssign(n, w, p, kids, st); o.Done? ==> o.st.vars.Keys == st.vars.Keys
  {
    NoCallList(n, w, p, kids.kids, st);
    var a := EvalList(n, w, p, kids.kids, st);
    if a.Vals? { NoCallNode(n, w, p, kids.rest.op, kids.rest.kids, a.st); }
  }

  // ---- Nothing that is set is missing ----

  /** Calls, assembly and memory writes unset no variable, and a function starts with its
      parameters set. */
  ghost predicate Tame(w: World) {
    && (forall op, vs, st :: w.act(op, vs, st).Acted? ==> st.vars.Keys <= w.act(op, vs, st).st.vars.Keys)
    && (forall f, params, vs, st: State, x :: x in st.vars || x in params ==> x in w.enter(f, params, vs, st).vars)
    && (forall st: State, st1: State :: st.vars.Keys <= w.leave(st, st1).vars.Keys)
  }

  /** No unset variable was read, and no variable has been unset. */
  predicate SafeEval(st: State, r: Evaluated) {
    match r
    case Vals(_, st1) => st.vars.Keys <= st1.vars.Keys
    case EvalTrap(_, why) => !why.Unset?
    case EvalTimeout => true
  }

  predicate SafeRun(st: State, o: Outcome, d: set<string>) {
    match o
    case Done(_, st1) => st.vars.Keys + d <= st1.vars.Keys
    case Trap(_, why) => !why.Unset?
    case Timeout => true
  }

  /** Calls made while the variables in `g` are set read no unset variable. */
  ghost predicate CallsSafe(n: nat, w: World, p: Forest, g: set<string>) {
    forall f, vs, st :: CallSafe(n, w, p, g, f, vs, st)
  }

  predicate CallSafe(n: nat, w: World, p: Forest, g: set<string>, f: string, vs: seq<Value>, st: State) {
    g <= st.vars.Keys ==> SafeEval(st, Invoke(n, w, p, f, vs, st))
  }

  /** What is to be set before an expression: what it reads, and `g` if it calls. */
  predicate Prepared(op: Op, kids: Forest, g: set<string>, st: State) {
    ReadsNode(op, kids) <= st.vars.Keys && (!CallFree(op, kids) ==> g <= st.vars.Keys)
  }

  predicate PreparedList(f: Forest, g: set<string>, st: State) {
    ReadsList(f) <= st.vars.Keys && (HirPropagate.ContainsCall(f) ==> g <= st.vars.Keys)
  }

  lemma ApplySafe(w: World, op: Op, vs: seq<Value>, st: State)
    ensures SafeEval(st, Apply(w, op, vs, st))
  {
    ApplyVars(w, op, vs, st);
  }

  lemma {:induction false} SafeNode(n: nat, w: World, p: Forest, op: Op, kids: Forest, g: set<string>, st: State)
    requires Tame(w) && CallsSafe(n, w, p, g) && Prepared(op, kids, g, st)
    ensures SafeEval(st, EvalNode(n, w, p, op, kids, st))
    decreases kids, 2
  {
    if op == Binary(And) || op == Binary(Or) {
      SafeShort(n, w, p, op == Binary(Or), kids, g, st);
    } else if op.Call? {
      SafeList(n, w, p, kids, g, st);
      var a := EvalList(n, w, p, kids, st);
      if a.Vals? { assert CallSafe(n, w, p, g, op.callee, a.vs, a.st); }
    } else if Strict(op) && op != Unary(Reference) {
      SafeList(n, w, p, kids, g, st);
      StrictIs(n, w, p, op, kids, st);
      var a := EvalList(n, w, p, kids, st);
      if a.Vals? { ApplySafe(w, op, a.vs, a.st); }
    }
  }

  lemma {:induction false} PreparedFirst(f: Forest, g: set<string>, st: State)
    requires f.Cons? && PreparedList(f, g, st)
    ensures Prepared(f.op, f.kids, g, st) && PreparedList(f.rest, g, st)
  {
  }

  lemma {:induction false} SafeShort(n: nat, w: World, p: Forest, stop: bool, kids: Forest, g: set<string>, st: State)
    requires Tame(w) && CallsSafe(n, w, p, g) && PreparedList(kids, g, st)
    ensures SafeEval(st, ShortCircuit(n, w, p, stop, kids, st))
    decreases kids, 1
  {
    if kids.Cons? && kids.rest.Cons? {
      PreparedFirst(kids, g, st);
      PreparedFirst(kids.rest, g, st);
      SafeNode(n, w, p, kids.op, kids.kids, g, st);
      var l := EvalNode(n, w, p, kids.op, kids.kids, st);
      if l.Vals? { SafeNode(n, w, p, kids.rest.op, kids.rest.kids, g, l.st); }
    }
  }

  lemma {:induction false} SafeList(n: nat, w: World, p: Forest, f: Forest, g: set<string>, st: State)
    requires Tame(w) && CallsSafe(n, w, p, g) && PreparedList(f, g, st)
    ensures SafeEval(st, EvalList(n, w, p, f, st))
    decreases f, 0
  {
    if f.Cons? {
      SafeNode(n, w, p, f.op, f.kids, g, st);
      var r := EvalNode(n, w, p, f.op, f.kids, st);
      if r.Vals? { SafeList(n, w, p, f.rest, g, r.st); }
    }
  }

  /** A statement whose uses are set reads no unset variable, and afterwards its definitions
      are set as well. */
  lemma {:induction false} SafeStatement(n: nat, w: World, p: Forest, op: Op, kids: Forest, g: set<string>, st: State)
    requires Tame(w) && CallsSafe(n, w, p, g) && Simple(op) && CanonicalNode(op, kids)
    requires StmtUses(op, kids) <= st.vars.Keys && (!CallFree(op, kids) ==> g <= st.vars.Keys)
    ensures SafeRun(st, ExecNode(n, w, p, op, kids, st), StmtDefs(op, kids))
  {
    match op
    case Print | Return | Decl(_) | Reassign(_) =>
      ValueKids(kids);
      SafeList(n, w, p, kids, g, st);
    case Assign =>
      PairKids(kids);
      if kids.op.Variable? {
        SafeNode(n, w, p, kids.rest.op, kids.rest.kids, g, st);
        AssignIs(n, w, p, kids, st);
      } else {
        SafeWrite(n, w, p, kids, g, st);
      }
    case Call(_) => SafeNode(n, w, p, op, kids, g, st);
    case _ =>
  }

  lemma {:induction false} SafeWrite(n: nat, w: World, p: Forest, kids: Forest, g: set<string>, st: State)
    requires Tame(w) && CallsSafe(n, w, p, g) && Pair(kids, Target, Value) && !kids.op.Variable?
    requires Prepared(kids.op, kids.kids, g, st) && Prepared(kids.rest.op, kids.rest.kids, g, st)
    ensures SafeRun(st, ExecAssign(n, w, p, kids, st), {})
  {
    SafeList(n, w, p, kids.kids, g, st);
    var a := EvalList(n, w, p, kids.kids, st);
    if a.Vals? { SafeNode(n, w, p, kids.rest.op, kids.rest.kids, g, a.st); }
  }
}
