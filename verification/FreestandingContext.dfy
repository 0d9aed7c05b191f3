/** A context names the meaning and the code of program parts by function values, so that
    the soundness proof composes parts without expanding their definitions. */
module FreestandingContext {
  import opened Options
  import opened Operators
  import opened Hir
  import opened HirSemantics
  import opened X86
  import opened Freestanding
  import opened FreestandingLabels
  import opened FreestandingSteps
  import opened FreestandingFrames

  type Loops = seq<(nat, nat)>

  datatype Context = Context(
    p: Prog, m: Machine, tab: Table,
    eval: (nat, Expr, Env) -> Ev, evalArgs: (nat, Args, Env) -> EvArgs, enter: (nat, string, seq<Value>) -> Ev,
    code: (Expr, nat) -> Option<Code>, argsCode: (Args, nat, nat) -> Option<Code>,
    perform: (nat, Stmt, Env) -> Flow, performAll: (nat, Stmts, Env) -> Flow, performLoop: (nat, Expr, Stmts, Env) -> Flow,
    stmtCode: (Loops, Stmt, nat) -> Emitted, blockCode: (Loops, Stmts, nat) -> Emitted)

  function Make(p: Prog, m: Machine, tab: Table): Context {
    Context(p, m, tab,
      (n: nat, e, env) => Eval(n, p, e, env), (n: nat, a, env) => EvalArgs(n, p, a, env), (n: nat, f, vs) => Enter(n, p, f, vs),
      (e, lab: nat) => ExprCode(p, tab, e, lab), (a, i: nat, lab: nat) => ArgsCode(p, tab, a, i, lab),
      (n: nat, s, env) => Perform(n, p, tab, s, env), (n: nat, b, env) => PerformAll(n, p, tab, b, env),
      (n: nat, c, b, env) => PerformLoop(n, p, tab, c, b, env),
      (ls: Loops, s, lab: nat) => StmtCode(p, tab, ls, s, lab), (ls: Loops, b, lab: nat) => BlockCode(p, tab, ls, b, lab))
  }

  /** The function values are the definitions. */
  ghost predicate True(x: Context) {
    && (forall n, e, env {:trigger Eval(n, x.p, e, env)} :: x.eval(n, e, env) == Eval(n, x.p, e, env))
    && (forall n, a, env {:trigger EvalArgs(n, x.p, a, env)} :: x.evalArgs(n, a, env) == EvalArgs(n, x.p, a, env))
    && (forall n, f, vs {:trigger Enter(n, x.p, f, vs)} :: x.enter(n, f, vs) == Enter(n, x.p, f, vs))
    && (forall e, lab {:trigger ExprCode(x.p, x.tab, e, lab)} :: x.code(e, lab) == ExprCode(x.p, x.tab, e, lab))
    && (forall a, i, lab {:trigger ArgsCode(x.p, x.tab, a, i, lab)} :: x.argsCode(a, i, lab) == ArgsCode(x.p, x.tab, a, i, lab))
    && (forall n, s, env {:trigger Perform(n, x.p, x.tab, s, env)} :: x.perform(n, s, env) == Perform(n, x.p, x.tab, s, env))
    && (forall n, b, env {:trigger PerformAll(n, x.p, x.tab, b, env)} :: x.performAll(n, b, env) == PerformAll(n, x.p, x.tab, b, env))
    && (forall n, c, b, env {:trigger PerformLoop(n, x.p, x.tab, c, b, env)} ::
          x.performLoop(n, c, b, env) == PerformLoop(n, x.p, x.tab, c, b, env))
    && (forall ls, s, lab {:trigger StmtCode(x.p, x.tab, ls, s, lab)} :: x.stmtCode(ls, s, lab) == StmtCode(x.p, x.tab, ls, s, lab))
    && (forall ls, b, lab {:trigger BlockCode(x.p, x.tab, ls, b, lab)} :: x.blockCode(ls, b, lab) == BlockCode(x.p, x.tab, ls, b, lab))
  }

  ghost predicate Known(x: Context) {
    forall u {:trigger ShowMeaning(u)} :: ShowMeaning(u) ==> True(x)
  }

  lemma {:induction false} MakeKnown(p: Prog, m: Machine, tab: Table)
    ensures Known(Make(p, m, tab))
  {
    assert True(Make(p, m, tab));
  }

  // ---- One level of the definitions ----

  lemma {:induction false} LeafIs(x: Context, n: nat, e: Expr, lab: nat, env: Env)
    requires Known(x) && (e.Literal? || e.Flag? || e.Local?)
    ensures x.eval(n, e, env) == Eval(n, x.p, e, env) && x.code(e, lab) == ExprCode(x.p, x.tab, e, lab)
  {
    assert ShowMeaning(0);
    var a, b := Eval(n, x.p, e, env), ExprCode(x.p, x.tab, e, lab);
  }

  function Behind(c: Option<Code>, ops: seq<Instr>): Option<Code> {
    match c case None => None case Some(k) => Some(Code(k.ops + ops, k.next))
  }

  lemma {:induction false} MinusIs(x: Context, n: nat, a: Expr, lab: nat, env: Env)
    requires Known(x)
    ensures x.eval(n, Minus(a), env) == NegateEv(x.eval(n, a, env))
    ensures x.code(Minus(a), lab) == Behind(x.code(a, lab), [NegQ, Jcc(O, Fault)])
  {
    assert ShowMeaning(0);
    assert Eval(n, x.p, Minus(a), env) == NegateEv(Eval(n, x.p, a, env));
    assert ExprCode(x.p, x.tab, Minus(a), lab) == Behind(ExprCode(x.p, x.tab, a, lab), [NegQ, Jcc(O, Fault)]);
  }

  lemma {:induction false} NegationIs(x: Context, n: nat, a: Expr, lab: nat, env: Env)
    requires Known(x)
    ensures x.eval(n, Negation(a), env) == InvertEv(x.eval(n, a, env))
    ensures x.code(Negation(a), lab) == Behind(x.code(a, lab), [TestL, Instr.Set(E), MovzbAl])
  {
    assert ShowMeaning(0);
    assert Eval(n, x.p, Negation(a), env) == InvertEv(Eval(n, x.p, a, env));
    assert ExprCode(x.p, x.tab, Negation(a), lab) == Behind(ExprCode(x.p, x.tab, a, lab), [TestL, Instr.Set(E), MovzbAl]);
  }

  function LogicEv(op: BinaryOp, a: Ev, b: Ev): Ev {
    if !a.Val? then a
    else if !a.v.BoolV? then Stuck
    else if a.v.b == (op == Or) then a
    else if b.Val? && !b.v.BoolV? then Stuck
    else b
  }

  function LogicTest(op: BinaryOp, lab: nat): seq<Instr> {
    [TestL, Jcc(if op == Or then NE else E, Free(lab))]
  }

  lemma {:induction false} LogicIs(x: Context, n: nat, op: BinaryOp, l: Expr, r: Expr, lab: nat, env: Env)
    requires Known(x) && (op == And || op == Or)
    ensures x.eval(n, Infix(op, l, r), env) == LogicEv(op, x.eval(n, l, env), x.eval(n, r, env))
    ensures var c := x.code(Infix(op, l, r), lab); c.Some? ==>
      && x.code(l, lab + 2).Some? && x.code(r, x.code(l, lab + 2).value.next).Some?
      && var cl := x.code(l, lab + 2).value; var cr := x.code(r, cl.next).value;
         c.value == Code(cl.ops + LogicTest(op, lab) + cr.ops + LogicTail(op == Or, lab), cr.next)
  {
    assert ShowMeaning(0);
    var a, b := Eval(n, x.p, l, env), Eval(n, x.p, r, env);
    assert Eval(n, x.p, Infix(op, l, r), env) == EvalLogic(n, x.p, op, l, r, env) == LogicEv(op, a, b);
    assert ExprCode(x.p, x.tab, Infix(op, l, r), lab) == LogicCode(x.p, x.tab, op, l, r, lab);
    var cl := ExprCode(x.p, x.tab, l, lab + 2);
    if cl.Some? { var cr := ExprCode(x.p, x.tab, r, cl.value.next); }
  }

  function BothEv(op: BinaryOp, a: Ev, b: Ev): Ev {
    if !a.Val? then a else if !b.Val? then b else Operate(op, a.v, b.v)
  }

  lemma {:induction false} BothIs(x: Context, n: nat, op: BinaryOp, l: Expr, r: Expr, lab: nat, env: Env)
    requires Known(x) && op != And && op != Or
    ensures x.eval(n, Infix(op, l, r), env) == BothEv(op, x.eval(n, l, env), x.eval(n, r, env))
    ensures var c := x.code(Infix(op, l, r), lab); c.Some? ==>
      && x.code(l, lab).Some? && x.code(r, x.code(l, lab).value.next).Some?
      && var cl := x.code(l, lab).value; var cr := x.code(r, cl.next).value;
         && OperatorCode(op, cr.next).Some?
         && var co := OperatorCode(op, cr.next).value;
            c.value == Code(cl.ops + SpillCode + cr.ops + UnspillCode + co.ops, co.next)
  {
    assert ShowMeaning(0);
    var a, b := Eval(n, x.p, l, env), Eval(n, x.p, r, env);
    assert Eval(n, x.p, Infix(op, l, r), env) == EvalBoth(n, x.p, op, l, r, env) == BothEv(op, a, b);
    assert ExprCode(x.p, x.tab, Infix(op, l, r), lab) == BothCode(x.p, x.tab, op, l, r, lab);
    var cl := ExprCode(x.p, x.tab, l, lab);
    if cl.Some? { var cr := ExprCode(x.p, x.tab, r, cl.value.next); }
  }

  function ApplyEv(x: Context, n: nat, f: string, r: EvArgs): Ev {
    if r.Passed? then x.enter(n, f, r.vs) else r.why
  }

  function CallOps(args: seq<Instr>, argc: nat, area: nat, f: string): seq<Instr> {
    Reserve(area) + args + LoadCode(argc) + [Instr.Call(f)] + Release(area)
  }

  /** The code of a call. */
  ghost predicate CallIs(x: Context, c: Code, f: string, args: Args, lab: nat) {
    && Find(x.p, f).Some? && x.argsCode(args, 0, lab).Some?
    && var argc := |Find(x.p, f).value.params|; var ca := x.argsCode(args, 0, lab).value;
       Count(args) == argc <= MAX_ARGS && c == Code(CallOps(ca.ops, argc, Area(argc), f), ca.next)
  }

  lemma {:induction false} ApplyIs(x: Context, n: nat, f: string, args: Args, lab: nat, env: Env)
    requires Known(x)
    ensures x.eval(n, Apply(f, args), env) == ApplyEv(x, n, f, x.evalArgs(n, args, env))
    ensures var c := x.code(Apply(f, args), lab); c.Some? ==> CallIs(x, c.value, f, args, lab)
  {
    assert ShowMeaning(0);
    var r := EvalArgs(n, x.p, args, env);
    assert Eval(n, x.p, Apply(f, args), env) == EvalApply(n, x.p, f, args, env);
    if r.Passed? { var e := Enter(n, x.p, f, r.vs); }
    assert ExprCode(x.p, x.tab, Apply(f, args), lab) == CallCode(x.p, x.tab, f, args, lab);
    var c := ArgsCode(x.p, x.tab, args, 0, lab);
  }

  function ConsEv(a: Ev, r: EvArgs): EvArgs {
    if !a.Val? then Failed(a) else if r.Passed? then Passed([a.v] + r.vs) else r
  }

  lemma {:induction false} ArgsAre(x: Context, n: nat, a: Args, i: nat, lab: nat, env: Env)
    requires Known(x)
    ensures a.Nothing? ==> x.evalArgs(n, a, env) == Passed([]) && x.argsCode(a, i, lab) == Some(Code([], lab))
    ensures a.Arg? ==> x.evalArgs(n, a, env) == ConsEv(x.eval(n, a.e, env), x.evalArgs(n, a.rest, env))
    ensures a.Arg? ==> var c := x.argsCode(a, i, lab); c.Some? ==>
      && x.code(a.e, lab).Some? && x.argsCode(a.rest, i + 1, x.code(a.e, lab).value.next).Some?
      && var ce := x.code(a.e, lab).value; var rest := x.argsCode(a.rest, i + 1, ce.next).value;
         c.value == Code(ce.ops + [Spill(8 * i)] + rest.ops, rest.next)
    ensures var r := x.evalArgs(n, a, env); (r.Passed? ==> |r.vs| == Count(a)) && (r.Failed? ==> !r.why.Val?)
  {
    assert ShowMeaning(0);
    var r, c := EvalArgs(n, x.p, a, env), ArgsCode(x.p, x.tab, a, i, lab);
    if a.Arg? {
      var e, q := Eval(n, x.p, a.e, env), EvalArgs(n, x.p, a.rest, env);
      assert r == ConsEv(e, q);
      var ce := ExprCode(x.p, x.tab, a.e, lab);
      if ce.Some? { var rest := ArgsCode(x.p, x.tab, a.rest, i + 1, ce.value.next); }
    }
  }

  // ---- Statements ----

  /** The code of an assignment to `y` of `e`. */
  ghost predicate AssignIs(x: Context, c: Code, y: string, e: Expr, lab: nat) {
    && x.code(e, lab).Some? && SlotOf(x.tab, y) != -1
    && var ce := x.code(e, lab).value; c == Code(ce.ops + StoreVar(x.tab, SlotOf(x.tab, y)), ce.next)
  }

  lemma {:induction false} AssignmentIs(x: Context, n: nat, ls: Loops, s: Stmt, lab: nat, env: Env)
    requires Known(x) && (s.Set? || s.Declare?) && x.stmtCode(ls, s, lab).Whole?
    ensures s.Declare? ==> s.init.Some?
    ensures var e := if s.Set? then s.e else s.init.value;
      x.perform(n, s, env) == Update(x.tab, s.x, x.eval(n, e, env), env) && AssignIs(x, x.stmtCode(ls, s, lab).c, s.x, e, lab)
  {
    assert ShowMeaning(0);
    assert StmtCode(x.p, x.tab, ls, s, lab).Whole?;
    var e := if s.Set? then s.e else s.init.value;
    var r, c := Eval(n, x.p, e, env), ExprCode(x.p, x.tab, e, lab);
    assert Perform(n, x.p, x.tab, s, env) == Update(x.tab, s.x, r, env);
    assert StmtCode(x.p, x.tab, ls, s, lab) == AssignCode(x.p, x.tab, s.x, e, lab);
  }

  function DoEffect(r: Ev, env: Env): Flow {
    if r.Val? then On(env) else Stops(r)
  }

  lemma {:induction false} DoIs(x: Context, n: nat, ls: Loops, f: string, args: Args, lab: nat, env: Env)
    requires Known(x) && x.stmtCode(ls, Do(f, args), lab).Whole?
    ensures x.perform(n, Do(f, args), env) == DoEffect(x.eval(n, Apply(f, args), env), env)
    ensures x.code(Apply(f, args), lab) == Some(x.stmtCode(ls, Do(f, args), lab).c)
  {
    assert ShowMeaning(0);
    var r := Eval(n, x.p, Apply(f, args), env);
    assert r == EvalApply(n, x.p, f, args, env);
    assert Perform(n, x.p, x.tab, Do(f, args), env) == DoEffect(r, env);
    assert StmtCode(x.p, x.tab, ls, Do(f, args), lab) == OfCode(CallCode(x.p, x.tab, f, args, lab));
    assert ExprCode(x.p, x.tab, Apply(f, args), lab) == CallCode(x.p, x.tab, f, args, lab);
  }

  function GiveEffect(r: Ev): Flow {
    if r.Val? then Returns(r.v) else Stops(r)
  }

  lemma {:induction false} GiveIs(x: Context, n: nat, ls: Loops, value: Option<Expr>, lab: nat, env: Env)
    requires Known(x) && x.stmtCode(ls, Give(value), lab).Whole?
    ensures value.None? ==> x.perform(n, Give(value), env) == Returns(Opaque(0)) && x.stmtCode(ls, Give(value), lab).c == Code([Leave, Ret], lab)
    ensures value.Some? ==>
      && x.perform(n, Give(value), env) == GiveEffect(x.eval(n, value.value, env))
      && Some(x.stmtCode(ls, Give(value), lab).c) == Behind(x.code(value.value, lab), [Leave, Ret])
  {
    assert ShowMeaning(0);
    var r, c := Perform(n, x.p, x.tab, Give(value), env), StmtCode(x.p, x.tab, ls, Give(value), lab);
    if value.Some? {
      var e, ce := Eval(n, x.p, value.value, env), ExprCode(x.p, x.tab, value.value, lab);
      assert r == GiveEffect(e);
    }
  }

  lemma {:induction false} JumpIs(x: Context, n: nat, ls: Loops, s: Stmt, lab: nat, env: Env)
    requires Known(x) && (s.Exit? || s.Again?) && x.stmtCode(ls, s, lab).Whole?
    ensures x.perform(n, s, env) == if s.Exit? then Exits(env) else Repeats(env)
    ensures ls != [] && x.stmtCode(ls, s, lab).c.ops == [Jmp(Free(if s.Exit? then ls[|ls| - 1].1 else ls[|ls| - 1].0))]
  {
    assert ShowMeaning(0);
    var r, c := Perform(n, x.p, x.tab, s, env), StmtCode(x.p, x.tab, ls, s, lab);
  }

  lemma {:induction false} GroupIs(x: Context, n: nat, ls: Loops, body: Stmts, lab: nat, env: Env)
    requires Known(x)
    ensures x.perform(n, Group(body), env) == x.performAll(n, body, env) && x.stmtCode(ls, Group(body), lab) == x.blockCode(ls, body, lab)
  {
    assert ShowMeaning(0);
    assert Perform(n, x.p, x.tab, Group(body), env) == PerformAll(n, x.p, x.tab, body, env);
    assert StmtCode(x.p, x.tab, ls, Group(body), lab) == BlockCode(x.p, x.tab, ls, body, lab);
  }

  /** The code of a branch with the parts of its condition and arms. */
  ghost predicate ChooseIs(c: Code, cc: Code, cy: Code, cn: Code) {
    var other, done := cc.next, cc.next + 1;
    c == Code(cc.ops + [TestL, Jcc(E, Free(other))] + cy.ops + [Jmp(Free(done)), Label(Free(other))] + cn.ops + [Label(Free(done))], cn.next)
  }

  lemma {:induction false} ChooseCodeIs(x: Context, ls: Loops, c: Expr, yes: Stmts, no: Stmts, lab: nat)
    requires Known(x) && x.stmtCode(ls, Choose(c, yes, no), lab).Whole?
    ensures x.code(c, lab).Some? && x.blockCode(ls, yes, x.code(c, lab).value.next + 2).Whole?
    ensures var cc := x.code(c, lab).value; var cy := x.blockCode(ls, yes, cc.next + 2).c;
      x.blockCode(ls, no, cy.next).Whole? && ChooseIs(x.stmtCode(ls, Choose(c, yes, no), lab).c, cc, cy, x.blockCode(ls, no, cy.next).c)
  {
    assert ShowMeaning(0);
    assert StmtCode(x.p, x.tab, ls, Choose(c, yes, no), lab) == ChooseCode(x.p, x.tab, ls, c, yes, no, lab);
    var cc := ExprCode(x.p, x.tab, c, lab).value;
    var cy := BlockCode(x.p, x.tab, ls, yes, cc.next + 2).c;
    var cn := BlockCode(x.p, x.tab, ls, no, cy.next);
  }

  lemma {:induction false} ChooseMeans(x: Context, n: nat, c: Expr, yes: Stmts, no: Stmts, env: Env)
    requires Known(x)
    ensures var r := x.eval(n, c, env);
      x.perform(n, Choose(c, yes, no), env) ==
        if !r.Val? then Stops(r) else if !r.v.BoolV? then Stops(Stuck) else x.performAll(n, if r.v.b then yes else no, env)
  {
    assert ShowMeaning(0);
    var r := Eval(n, x.p, c, env);
    var q := Perform(n, x.p, x.tab, Choose(c, yes, no), env);
    if r.Val? && r.v.BoolV? { assert q == PerformAll(n, x.p, x.tab, if r.v.b then yes else no, env); }
  }

  /** The code of a loop with the parts of its condition and body. */
  ghost predicate LoopIs(c: Code, cc: Code, cb: Code, lab: nat) {
    c == Code([Label(Free(lab))] + cc.ops + [TestL, Jcc(E, Free(lab + 1))] + cb.ops + [Jmp(Free(lab)), Label(Free(lab + 1))], cb.next)
  }

  lemma {:induction false} LoopCodeIs(x: Context, ls: Loops, c: Expr, body: Stmts, lab: nat)
    requires Known(x) && x.stmtCode(ls, Loop(c, body), lab).Whole?
    ensures x.code(c, lab + 2).Some? && x.blockCode(ls + [(lab, lab + 1)], body, x.code(c, lab + 2).value.next).Whole?
    ensures var cc := x.code(c, lab + 2).value;
      LoopIs(x.stmtCode(ls, Loop(c, body), lab).c, cc, x.blockCode(ls + [(lab, lab + 1)], body, cc.next).c, lab)
  {
    assert ShowMeaning(0);
    assert StmtCode(x.p, x.tab, ls, Loop(c, body), lab) == LoopCode(x.p, x.tab, ls, c, body, lab);
    var cc := ExprCode(x.p, x.tab, c, lab + 2).value;
    var cb := BlockCode(x.p, x.tab, ls + [(lab, lab + 1)], body, cc.next);
  }

  /** What a loop does after its body. */
  function IterateFlow(x: Context, n: nat, c: Expr, body: Stmts, q: Flow): Flow {
    match q
    case On(e) => x.performLoop(n, c, body, e)
    case Repeats(e) => x.performLoop(n, c, body, e)
    case Exits(e) => On(e)
    case _ => q
  }

  lemma {:induction false} LoopMeans(x: Context, n: nat, c: Expr, body: Stmts, env: Env)
    requires Known(x)
    ensures x.perform(n, Loop(c, body), env) == x.performLoop(n, c, body, env)
    ensures var r := x.eval(n, c, env);
      x.performLoop(n, c, body, env) ==
        if !r.Val? then Stops(r)
        else if !r.v.BoolV? then Stops(Stuck)
        else if !r.v.b then On(env)
        else if n == 0 then Stops(Unfinished)
        else IterateFlow(x, n - 1, c, body, x.performAll(n, body, env))
  {
    assert ShowMeaning(0);
    var r := Eval(n, x.p, c, env);
    assert Perform(n, x.p, x.tab, Loop(c, body), env) == PerformLoop(n, x.p, x.tab, c, body, env);
    if r.Val? && r.v.BoolV? && r.v.b && n > 0 {
      var q := PerformAll(n, x.p, x.tab, body, env);
      if q.On? || q.Repeats? { assert PerformLoop(n, x.p, x.tab, c, body, env) == PerformLoop(n - 1, x.p, x.tab, c, body, q.env); }
    }
  }

  lemma {:induction false} BlockIs(x: Context, n: nat, ls: Loops, b: Stmts, lab: nat, env: Env)
    requires Known(x) && x.blockCode(ls, b, lab).Whole?
    ensures b.Empty? ==> x.performAll(n, b, env) == On(env) && x.blockCode(ls, b, lab).c == Code([], lab)
    ensures b.Then? ==> var r := x.perform(n, b.s, env); x.performAll(n, b, env) == if r.On? then x.performAll(n, b.rest, r.env) else r
    ensures b.Then? ==>
      && x.stmtCode(ls, b.s, lab).Whole? && x.blockCode(ls, b.rest, x.stmtCode(ls, b.s, lab).c.next).Whole?
      && var c := x.stmtCode(ls, b.s, lab).c; var rest := x.blockCode(ls, b.rest, c.next).c;
         x.blockCode(ls, b, lab).c == Code(c.ops + rest.ops, rest.next)
  {
    assert ShowMeaning(0);
    assert BlockCode(x.p, x.tab, ls, b, lab).Whole?;
    assert PerformAll(n, x.p, x.tab, b, env) == x.performAll(n, b, env);
    if b.Then? {
      var r := Perform(n, x.p, x.tab, b.s, env);
      if r.On? { var q := PerformAll(n, x.p, x.tab, b.rest, r.env); }
      var c := StmtCode(x.p, x.tab, ls, b.s, lab).c;
      var rest := BlockCode(x.p, x.tab, ls, b.rest, c.next);
    }
  }
}
