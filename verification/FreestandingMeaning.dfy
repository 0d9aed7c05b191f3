/** The freestanding subset means what the HIR means: its programs, written as HIR, run alike,
    so that what is proved of the optimizer and of the emitted code is about the same language. */
module FreestandingMeaning {
  import opened Options
  import opened Operators
  import opened Hir
  import opened HirSemantics
  import opened X86
  import opened Freestanding
  import opened FreestandingTypes
  import opened FreestandingProgram
  import opened FreestandingAccepts

  // ---- As HIR ----

  function OpOf(e: Expr): Op {
    match e
    case Literal(i) => Integer(i)
    case Flag(b) => Boolean(b)
    case Local(x) => Variable(x)
    case Minus(_) => Unary(Negate)
    case Negation(_) => Unary(Not)
    case Infix(op, _, _) => Binary(op)
    case Apply(f, _) => Op.Call(f)
  }

  function Operands(e: Expr): Forest
    decreases e, 0
  {
    match e
    case Minus(a) => OfExpr(a, Operand, Nil)
    case Negation(a) => OfExpr(a, Operand, Nil)
    case Infix(_, l, r) => OfExpr(l, Left, OfExpr(r, Right, Nil))
    case Apply(_, args) => OfArgs(args)
    case _ => Nil
  }

  function OfExpr(e: Expr, role: Role, rest: Forest): Forest
    decreases e, 1
  {
    Cons(0, OpOf(e), role, Operands(e), rest)
  }

  function OfArgs(a: Args): Forest
    decreases a, 0
  {
    if a.Nothing? then Nil else OfExpr(a.e, Argument, OfArgs(a.rest))
  }

  function StmtOp(s: Stmt): Op {
    match s
    case Declare(x, _, _) => Decl(x)
    case Set(x, _) => Reassign(x)
    case Do(f, _) => Op.Call(f)
    case Give(_) => Return
    case Choose(_, _, _) => If
    case Loop(_, _) => While
    case Exit => Break
    case Again => Continue
    case Group(_) => Program
  }

  function Parts(s: Stmt): Forest
    decreases s, 0
  {
    match s
    case Declare(_, _, init) => if init.Some? then OfExpr(init.value, Value, Nil) else Nil
    case Set(_, e) => OfExpr(e, Value, Nil)
    case Do(_, args) => OfArgs(args)
    case Give(value) => if value.Some? then OfExpr(value.value, Value, Nil) else Nil
    case Choose(c, yes, no) => OfExpr(c, Condition, OfBlock(yes, Role.Then, OfBlock(no, Else, Nil)))
    case Loop(c, body) => OfExpr(c, Condition, OfBlock(body, Body, Nil))
    case Group(body) => OfBlock(body, Statement, Nil)
    case _ => Nil
  }

  /** The statements of a block in front of other siblings. */
  function OfBlock(b: Stmts, role: Role, rest: Forest): Forest
    decreases b, 1
  {
    if b.Empty? then rest else Cons(0, StmtOp(b.s), role, Parts(b.s), OfBlock(b.rest, role, rest))
  }

  function OfProgram(p: Prog): Forest {
    if p == [] then Nil else Cons(0, Function(p[0].name, p[0].params), Statement, OfBlock(p[0].body, Body, Nil), OfProgram(p[1..]))
  }

  /** The parameters with their values. */
  function Binding(ps: seq<string>, vs: seq<Value>): map<string, Value>
    decreases |ps|
  {
    if ps == [] || vs == [] then map[] else Binding(ps[1..], vs[1..])[ps[0] := vs[0]]
  }

  /** Locals belong to a call; there is nothing to act on. */
  function Bare(): World {
    World((v: Value) => false,
          (op: Op, vs: seq<Value>, st: State) => Faulted,
          (op: Op, vs: seq<Value>, st: State) => Crashed(st),
          (f: string) => false,
          (f: string, ps: seq<string>, vs: seq<Value>, st: State) => State(Binding(ps, vs), st.mem, st.out),
          (st: State, st1: State) => State(st.vars, st1.mem, st1.out))
  }

  // ---- Alike ----

  /** What is computed is computed, and what overflows traps. */
  predicate Same(r: Ev, h: Evaluated, st: State) {
    match r
    case Val(v) => h == Vals([v], st)
    case Overflow => h.EvalTrap? && h.why == Wrong
    case Unfinished => h.EvalTimeout?
    case Stuck => true
  }

  predicate SameArgs(r: EvArgs, h: Evaluated, st: State) {
    match r
    case Passed(vs) => h == Vals(vs, st)
    case Failed(why) => !why.Val? && Same(why, h, st)
  }

  predicate SameFlow(f: Flow, o: Outcome, st: State) {
    match f
    case On(env) => o == Done(Normal, st.(vars := env))
    case Exits(env) => o == Done(Broke, st.(vars := env))
    case Repeats(env) => o == Done(Continued, st.(vars := env))
    case Returns(v) => o.Done? && o.c == Returned(v) && o.st.mem == st.mem && o.st.out == st.out
    case Stops(Overflow) => o.Trap? && o.why == Wrong
    case Stops(Unfinished) => o == Timeout
    case Stops(_) => true
  }

  // ---- Expressions ----

  lemma {:induction false} EvalMeans(n: nat, p: Prog, e: Expr, st: State)
    ensures Same(Eval(n, p, e, st.vars), EvalNode(n, Bare(), OfProgram(p), OpOf(e), Operands(e), st), st)
    decreases n, 1, e, 1
  {
    match e
    case Minus(a) => EvalMeans(n, p, a, st); OneMeans(n, p, e, a, st);
    case Negation(a) => EvalMeans(n, p, a, st); OneMeans(n, p, e, a, st);
    case Infix(op, l, r) => if op == And || op == Or { LogicMeans(n, p, op, l, r, st); } else { BothMean(n, p, op, l, r, st); }
    case Apply(f, args) => ApplyMeans(n, p, f, args, st);
    case _ =>
  }

  /** An operator on one operand. */
  function OneOperand(op: UnaryOp, a: Evaluated): Evaluated {
    if a.Vals? then HirSemantics.Apply(Bare(), Unary(op), a.vs, a.st) else a
  }

  lemma {:induction false} OneIs(n: nat, p: Prog, op: UnaryOp, a: Expr, st: State)
    requires op == Negate || op == Not
    ensures EvalNode(n, Bare(), OfProgram(p), Unary(op), OfExpr(a, Operand, Nil), st) ==
      OneOperand(op, EvalNode(n, Bare(), OfProgram(p), OpOf(a), Operands(a), st))
  {
    OneList(n, Bare(), OfProgram(p), OfExpr(a, Operand, Nil), st);
  }

  lemma {:induction false} OneMeans(n: nat, p: Prog, e: Expr, a: Expr, st: State)
    requires (e == Minus(a) || e == Negation(a)) && Same(Eval(n, p, a, st.vars), EvalNode(n, Bare(), OfProgram(p), OpOf(a), Operands(a), st), st)
    ensures Same(Eval(n, p, e, st.vars), EvalNode(n, Bare(), OfProgram(p), OpOf(e), Operands(e), st), st)
  {
    OneIs(n, p, if e.Minus? then Negate else Not, a, st);
  }

  lemma {:induction false} OneList(n: nat, w: World, h: Forest, f: Forest, st: State)
    requires f.Cons? && f.rest.Nil?
    ensures EvalList(n, w, h, f, st) == EvalNode(n, w, h, f.op, f.kids, st)
  {
    var r := EvalNode(n, w, h, f.op, f.kids, st);
    if r.Vals? {
      assert EvalList(n, w, h, f.rest, r.st) == Vals([], r.st);
      assert r.vs + [] == r.vs;
    }
  }

  lemma {:induction false} LogicMeans(n: nat, p: Prog, op: BinaryOp, l: Expr, r: Expr, st: State)
    requires op == And || op == Or
    ensures Same(Eval(n, p, Infix(op, l, r), st.vars), EvalNode(n, Bare(), OfProgram(p), Binary(op), Operands(Infix(op, l, r)), st), st)
    decreases n, 1, Infix(op, l, r), 0
  {
    EvalMeans(n, p, l, st);
    EvalMeans(n, p, r, st);
    assert EvalNode(n, Bare(), OfProgram(p), Binary(op), Operands(Infix(op, l, r)), st)
      == ShortCircuit(n, Bare(), OfProgram(p), op == Or, Operands(Infix(op, l, r)), st);
    assert Eval(n, p, Infix(op, l, r), st.vars) == EvalLogic(n, p, op, l, r, st.vars);
  }

  lemma {:induction false} BothMean(n: nat, p: Prog, op: BinaryOp, l: Expr, r: Expr, st: State)
    requires op != And && op != Or
    ensures Same(Eval(n, p, Infix(op, l, r), st.vars), EvalNode(n, Bare(), OfProgram(p), Binary(op), Operands(Infix(op, l, r)), st), st)
    decreases n, 1, Infix(op, l, r), 0
  {
    var w, h, right := Bare(), OfProgram(p), OfExpr(r, Right, Nil);
    var kids := OfExpr(l, Left, right);
    assert Operands(Infix(op, l, r)) == kids;
    EvalMeans(n, p, l, st);
    EvalMeans(n, p, r, st);
    var a, b := EvalNode(n, w, h, OpOf(l), Operands(l), st), EvalNode(n, w, h, OpOf(r), Operands(r), st);
    OneList(n, w, h, right, st);
    TwoList(n, w, h, kids, a, b, st);
    assert Eval(n, p, Infix(op, l, r), st.vars) == EvalBoth(n, p, op, l, r, st.vars);
    assert EvalNode(n, w, h, Binary(op), kids, st) == EvalThen(n, w, h, Binary(op), kids, st);
    if a.Vals? && b.Vals? && |a.vs| == 1 && |b.vs| == 1 { OperateMeans(op, a.vs[0], b.vs[0], st); }
  }

  lemma {:induction false} TwoList(n: nat, w: World, h: Forest, kids: Forest, a: Evaluated, b: Evaluated, st: State)
    requires kids.Cons? && a == EvalNode(n, w, h, kids.op, kids.kids, st) && b == EvalList(n, w, h, kids.rest, st)
    ensures EvalList(n, w, h, kids, st) ==
      if !a.Vals? then a
      else if a.st != st then EvalList(n, w, h, kids, st)
      else if b.Vals? then Vals(a.vs + b.vs, b.st) else b
  {
  }

  lemma {:induction false} OperateMeans(op: BinaryOp, x: Value, y: Value, st: State)
    requires op != And && op != Or
    ensures Same(Operate(op, x, y), HirSemantics.Apply(Bare(), Binary(op), [x] + [y], st), st)
  {
    assert ([x] + [y]) == [x, y];
  }

  lemma {:induction false} ArgsMean(n: nat, p: Prog, a: Args, st: State)
    ensures SameArgs(EvalArgs(n, p, a, st.vars), EvalList(n, Bare(), OfProgram(p), OfArgs(a), st), st)
    decreases n, 1, a, 0
  {
    if a.Arg? {
      EvalMeans(n, p, a.e, st);
      ArgsMean(n, p, a.rest, st);
    }
  }

  lemma {:induction false} ApplyMeans(n: nat, p: Prog, f: string, args: Args, st: State)
    ensures Same(EvalApply(n, p, f, args, st.vars), EvalNode(n, Bare(), OfProgram(p), Op.Call(f), OfArgs(args), st), st)
    decreases n, 1, args, 1
  {
    ArgsMean(n, p, args, st);
    var r := EvalArgs(n, p, args, st.vars);
    if r.Passed? { EnterMeans(n, p, f, r.vs, st); }
  }

  // ---- Calls ----

  lemma {:induction false} FoundMeans(p: Prog, f: string)
    ensures FindFunction(OfProgram(p), f) == match Find(p, f)
      case None => None
      case Some(fn) => Some(Routine(fn.params, OfBlock(fn.body, Body, Nil)))
  {
    if p != [] { FoundMeans(p[1..], f); }
  }

  lemma {:induction false} BoundMeans(tab: Table, ps: seq<string>, vs: seq<Value>)
    requires Bind(tab, ps, vs).Some?
    ensures Bind(tab, ps, vs).value == Binding(ps, vs)
    decreases |ps|
  {
    if ps != [] { BoundMeans(tab, ps[1..], vs[1..]); }
  }

  /** A call gives what the HIR's call gives. */
  lemma {:induction false} EnterMeans(n: nat, p: Prog, f: string, vs: seq<Value>, st: State)
    ensures Same(Enter(n, p, f, vs), Invoke(n, Bare(), OfProgram(p), f, vs, st), st)
    decreases n, 0
  {
    FoundMeans(p, f);
    var found := Find(p, f);
    if found.Some? && Bind(TableOf(found.value), found.value.params, vs).Some? && n > 0 {
      var fn := found.value;
      BoundMeans(TableOf(fn), fn.params, vs);
      var st1 := State(Binding(fn.params, vs), st.mem, st.out);
      BlockMeans(n - 1, p, TableOf(fn), fn.body, Body, Nil, st1);
    }
  }

  // ---- Statements ----

  /** No sibling has the role. */
  predicate Without(f: Forest, role: Role) {
    f.Cons? ==> f.role != role && Without(f.rest, role)
  }

  lemma {:induction false} WithoutRuns(n: nat, w: World, h: Forest, f: Forest, role: Role, st: State)
    requires Without(f, role)
    ensures Exec(n, w, h, f, role, st) == Done(Normal, st)
  {
    if f.Cons? { WithoutRuns(n, w, h, f.rest, role, st); }
  }

  lemma {:induction false} OtherRole(b: Stmts, role: Role, other: Role, rest: Forest)
    requires role != other && Without(rest, other)
    ensures Without(OfBlock(b, role, rest), other)
  {
    if b.Then? { OtherRole(b.rest, role, other, rest); }
  }

  /** Statements of another role are passed over. */
  lemma {:induction false} PassedOver(n: nat, w: World, h: Forest, b: Stmts, role: Role, other: Role, rest: Forest, st: State)
    requires role != other
    ensures Exec(n, w, h, OfBlock(b, role, rest), other, st) == Exec(n, w, h, rest, other, st)
  {
    if b.Then? { PassedOver(n, w, h, b.rest, role, other, rest, st); }
  }

  lemma {:induction false} BlockMeans(n: nat, p: Prog, tab: Table, b: Stmts, role: Role, rest: Forest, st: State)
    requires Without(rest, role)
    ensures SameFlow(PerformAll(n, p, tab, b, st.vars), Exec(n, Bare(), OfProgram(p), OfBlock(b, role, rest), role, st), st)
    decreases n, 1, b, 1
  {
    if b.Empty? {
      WithoutRuns(n, Bare(), OfProgram(p), rest, role, st);
    } else {
      StmtMeans(n, p, tab, b.s, st);
      var f := Perform(n, p, tab, b.s, st.vars);
      if f.On? { BlockMeans(n, p, tab, b.rest, role, rest, st.(vars := f.env)); }
    }
  }

  lemma {:induction false} StmtMeans(n: nat, p: Prog, tab: Table, s: Stmt, st: State)
    ensures SameFlow(Perform(n, p, tab, s, st.vars), ExecNode(n, Bare(), OfProgram(p), StmtOp(s), Parts(s), st), st)
    decreases n, 1, s, 2
  {
    match s
    case Declare(x, _, init) => if init.Some? { ValueMeans(n, p, tab, Decl(x), x, init.value, st); } else { NoValue(n, p, Decl(x), st); }
    case Set(x, e) => ValueMeans(n, p, tab, Reassign(x), x, e, st);
    case Do(f, args) => ApplyMeans(n, p, f, args, st);
    case Give(value) => if value.Some? { GiveMeans(n, p, tab, value.value, st); } else { NoValue(n, p, Return, st); }
    case Choose(c, yes, no) => ChooseMean(n, p, tab, c, yes, no, st);
    case Loop(c, body) => RepeatMeans(n, p, tab, c, body, st);
    case Group(body) => BlockMeans(n, p, tab, body, Statement, Nil, st);
    case _ =>
  }

  lemma {:induction false} NoValue(n: nat, p: Prog, op: Op, st: State)
    requires op.Decl? || op.Return?
    ensures ExecNode(n, Bare(), OfProgram(p), op, Nil, st) == Done(if op.Return? then Returned(Opaque(0)) else Normal, st)
  {
    assert EvalList(n, Bare(), OfProgram(p), Nil, st) == Vals([], st);
  }

  lemma {:induction false} ValueMeans(n: nat, p: Prog, tab: Table, op: Op, x: string, e: Expr, st: State)
    requires op == Decl(x) || op == Reassign(x)
    ensures SameFlow(Update(tab, x, Eval(n, p, e, st.vars), st.vars), ExecNode(n, Bare(), OfProgram(p), op, OfExpr(e, Value, Nil), st), st)
    decreases n, 1, e, 2
  {
    EvalMeans(n, p, e, st);
    OneList(n, Bare(), OfProgram(p), OfExpr(e, Value, Nil), st);
  }

  lemma {:induction false} GiveMeans(n: nat, p: Prog, tab: Table, e: Expr, st: State)
    ensures SameFlow(Perform(n, p, tab, Give(Some(e)), st.vars), ExecNode(n, Bare(), OfProgram(p), Return, OfExpr(e, Value, Nil), st), st)
    decreases n, 1, e, 2
  {
    EvalMeans(n, p, e, st);
    OneList(n, Bare(), OfProgram(p), OfExpr(e, Value, Nil), st);
  }

  lemma {:induction false} ConditionMeans(n: nat, p: Prog, c: Expr, rest: Forest, st: State)
    ensures Same(Eval(n, p, c, st.vars), EvalCondition(n, Bare(), OfProgram(p), OfExpr(c, Condition, rest), st), st)
    decreases n, 1, c, 2
  {
    EvalMeans(n, p, c, st);
  }

  lemma {:induction false} ChooseMean(n: nat, p: Prog, tab: Table, c: Expr, yes: Stmts, no: Stmts, st: State)
    ensures SameFlow(Perform(n, p, tab, Choose(c, yes, no), st.vars), ExecNode(n, Bare(), OfProgram(p), If, Parts(Choose(c, yes, no)), st), st)
    decreases n, 1, Choose(c, yes, no), 0
  {
    var w, h, kids := Bare(), OfProgram(p), Parts(Choose(c, yes, no));
    var other := OfBlock(no, Else, Nil);
    ConditionMeans(n, p, c, kids.rest, st);
    OtherRole(no, Else, Role.Then, Nil);
    BlockMeans(n, p, tab, yes, Role.Then, other, st);
    BlockMeans(n, p, tab, no, Else, Nil, st);
    PassedOver(n, w, h, yes, Role.Then, Else, other, st);
    assert Exec(n, w, h, kids, Role.Then, st) == Exec(n, w, h, kids.rest, Role.Then, st);
    assert Exec(n, w, h, kids, Else, st) == Exec(n, w, h, kids.rest, Else, st);
  }

  lemma {:induction false} RepeatMeans(n: nat, p: Prog, tab: Table, c: Expr, body: Stmts, st: State)
    ensures SameFlow(PerformLoop(n, p, tab, c, body, st.vars), ExecLoop(n, Bare(), OfProgram(p), Parts(Loop(c, body)), st), st)
    decreases n, 1, Loop(c, body), 1
  {
    var w, h, kids := Bare(), OfProgram(p), Parts(Loop(c, body));
    ConditionMeans(n, p, c, kids.rest, st);
    if n > 0 {
      BlockMeans(n, p, tab, body, Body, Nil, st);
      assert Exec(n, w, h, kids, Body, st) == Exec(n, w, h, kids.rest, Body, st);
      var f := PerformAll(n, p, tab, body, st.vars);
      if f.On? || f.Repeats? { RepeatMeans(n - 1, p, tab, c, body, st.(vars := f.env)); }
    }
  }

  // ---- Compiled programs ----

  /** What the machine does, against the call of the entry routine in HIR. */
  ghost predicate RunsAs(m: Machine, k: nat, s: Cpu, u: Cpu, h: Evaluated, n: nat) {
    match h
    case Vals(vs, _) => |vs| == 1 && FreestandingProgram.Returned(m, k, s, u, vs[0]) && m.run(k + 1, s) == Halted
    case EvalTrap(_, _) => m.run(k, s) == Trapped
    case EvalTimeout => m.run(k, s).Running? && k >= n
  }

  /** The code of a well-typed program that is emitted does what the HIR says a call of
      `kernel_main` does: it returns that value and halts, or traps, or runs on. */
  lemma {:induction false} CompiledMeans(p: Prog, ts: Types, n: nat, s: Cpu, st: State) returns (code: seq<Instr>, k: nat, u: Cpu)
    requires WellTyped(p, ts) && FreestandingProgram.Checked(p) && s.pc == 0
    requires forall i, j :: 0 <= i < j < |p| ==> p[i].name != p[j].name
    requires exists i :: 0 <= i < |p| && p[i].name == "kernel_main" && p[i].params == []
    requires forall i :: 0 <= i < |p| ==> |p[i].params| <= 6 && Nesting(p[i].body) <= 64
    ensures ProgramCode(p) == Some(code)
    ensures RunsAs(Load(code), k, s, u, Invoke(n, Bare(), OfProgram(p), "kernel_main", [], st), n)
  {
    code, k, u := TypedRuns(p, ts, n, s);
    MainSafe(p, ts, code, n);
    EnterMeans(n, p, "kernel_main", [], st);
  }
}
