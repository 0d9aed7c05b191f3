/** Static types and definite assignment for the freestanding subset: a program that passes
    is never stuck. */
module FreestandingTypes {
  import opened Options
  import opened Operators
  import opened Hir
  import opened HirSemantics
  import opened Freestanding

  datatype Ty = IntTy | BoolTy | VoidTy

  type Locals = map<string, Ty>

  /** The types of a function's parameters, of its result and of all its locals. */
  datatype Signature = Signature(params: seq<Ty>, result: Ty, locals: Locals)

  type Types = map<string, Signature>

  // ---- Checking ----

  predicate Arithmetical(op: BinaryOp) {
    op == Add || op == Subtract || op == Multiply || op == Divide || op == Modulo
  }

  function InfixType(op: BinaryOp, a: Option<Ty>, b: Option<Ty>): Option<Ty> {
    if op == And || op == Or then (if a == Some(BoolTy) && b == Some(BoolTy) then Some(BoolTy) else None)
    else if a == Some(IntTy) && b == Some(IntTy) then Some(if Arithmetical(op) then IntTy else BoolTy)
    else if a == Some(BoolTy) && b == Some(BoolTy) && (op == Equal || op == NotEqual) then Some(BoolTy)
    else None
  }

  /** The type of an expression when the variables in `d` are set. */
  function TypeOf(ts: Types, ls: Locals, d: set<string>, e: Expr): Option<Ty>
    decreases e
  {
    match e
    case Literal(_) => Some(IntTy)
    case Flag(_) => Some(BoolTy)
    case Local(x) => if x in d && x in ls && !ls[x].VoidTy? then Some(ls[x]) else None
    case Minus(a) => if TypeOf(ts, ls, d, a) == Some(IntTy) then Some(IntTy) else None
    case Negation(a) => if TypeOf(ts, ls, d, a) == Some(BoolTy) then Some(BoolTy) else None
    case Infix(op, l, r) => InfixType(op, TypeOf(ts, ls, d, l), TypeOf(ts, ls, d, r))
    case Apply(f, args) => if CallFits(ts, ls, d, f, args) && !ts[f].result.VoidTy? then Some(ts[f].result) else None
  }

  predicate CallFits(ts: Types, ls: Locals, d: set<string>, f: string, args: Args)
    decreases args, 1
  {
    f in ts && ArgsFit(ts, ls, d, args, ts[f].params)
  }

  predicate ArgsFit(ts: Types, ls: Locals, d: set<string>, args: Args, tys: seq<Ty>)
    decreases args, 0
  {
    if args.Nothing? then tys == []
    else tys != [] && TypeOf(ts, ls, d, args.e) == Some(tys[0]) && ArgsFit(ts, ls, d, args.rest, tys[1..])
  }

  /** Whether the end of a statement is reached, and with which variables set. */
  datatype Reach = Dead | Live(d: set<string>)

  function Join(a: Reach, b: Reach): Reach {
    if a.Dead? then b else if b.Dead? then a else Live(a.d * b.d)
  }

  function Assign(ts: Types, g: Signature, d: set<string>, x: string, e: Expr): Option<Reach> {
    if x in g.locals && TypeOf(ts, g.locals, d, e) == Some(g.locals[x]) then Some(Live(d + {x})) else None
  }

  /** Checks a statement that starts with the variables in `d` set. */
  function After(ts: Types, g: Signature, looping: bool, s: Stmt, d: set<string>): Option<Reach>
    decreases s
  {
    match s
    case Declare(x, _, init) => if init.None? then Some(Live(d)) else Assign(ts, g, d, x, init.value)
    case Set(x, e) => Assign(ts, g, d, x, e)
    case Do(f, args) => if CallFits(ts, g.locals, d, f, args) then Some(Live(d)) else None
    case Give(value) =>
      if value.None? then (if g.result.VoidTy? then Some(Dead) else None)
      else if TypeOf(ts, g.locals, d, value.value) == Some(g.result) then Some(Dead) else None
    case Choose(c, yes, no) =>
      var a, b := AfterAll(ts, g, looping, yes, d), AfterAll(ts, g, looping, no, d);
      if TypeOf(ts, g.locals, d, c) == Some(BoolTy) && a.Some? && b.Some? then Some(Join(a.value, b.value)) else None
    case Loop(c, body) =>
      if TypeOf(ts, g.locals, d, c) == Some(BoolTy) && AfterAll(ts, g, true, body, d).Some? then Some(Live(d)) else None
    case Exit => if looping then Some(Dead) else None
    case Again => if looping then Some(Dead) else None
    case Group(body) => AfterAll(ts, g, looping, body, d)
  }

  /** What follows a statement that never ends normally is not run; it is checked as if
      everything were set. */
  function AfterAll(ts: Types, g: Signature, looping: bool, b: Stmts, d: set<string>): Option<Reach>
    decreases b
  {
    if b.Empty? then Some(Live(d))
    else match After(ts, g, looping, b.s, d)
      case None => None
      case Some(Dead) => if AfterAll(ts, g, looping, b.rest, g.locals.Keys).Some? then Some(Dead) else None
      case Some(Live(d1)) => AfterAll(ts, g, looping, b.rest, d1)
  }

  function NamesOf(ps: seq<string>): set<string> {
    set i | 0 <= i < |ps| :: ps[i]
  }

  /** An integer never lives in a 32-bit slot. */
  predicate SlotsFit(tab: Table, ls: Locals) {
    forall i :: 0 <= i < |tab| && tab[i].x in ls && ls[tab[i].x] == IntTy ==> tab[i].wide
  }

  predicate FuncTyped(ts: Types, fn: Func) {
    && fn.name in ts
    && var g := ts[fn.name];
    && |g.params| == |fn.params|
    && (forall i :: 0 <= i < |fn.params| ==> fn.params[i] in g.locals && g.locals[fn.params[i]] == g.params[i] && !g.params[i].VoidTy?)
    && SlotsFit(TableOf(fn), g.locals)
    && var r := AfterAll(ts, g, false, fn.body, NamesOf(fn.params));
    && r.Some? && (r.value.Live? ==> g.result.VoidTy?)
  }

  /** The types fit every function, and name no others. */
  predicate WellTyped(p: Prog, ts: Types) {
    && (forall i :: 0 <= i < |p| ==> FuncTyped(ts, p[i]))
    && (forall f :: f in ts ==> Find(p, f).Some?)
  }

  // ---- Soundness ----

  predicate HasType(v: Value, t: Ty) {
    match t
    case IntTy => v.IntV?
    case BoolTy => v.BoolV?
    case VoidTy => v.Opaque?
  }

  /** Not stuck, and a value of the type if any. */
  predicate Safe(r: Ev, t: Ty) {
    match r
    case Val(v) => HasType(v, t)
    case Stuck => false
    case _ => true
  }

  ghost predicate EnvOk(ls: Locals, d: set<string>, env: Env) {
    && (forall x :: x in d ==> x in env)
    && (forall x :: x in env ==> x in ls && HasType(env[x], ls[x]))
  }

  predicate Passes(vs: seq<Value>, tys: seq<Ty>) {
    |vs| == |tys| && forall i :: 0 <= i < |vs| ==> HasType(vs[i], tys[i])
  }

  /** `base` is set wherever the enclosing loop starts. */
  ghost predicate FlowOk(g: Signature, looping: bool, base: set<string>, f: Flow, r: Reach) {
    match f
    case On(env) => r.Live? && EnvOk(g.locals, r.d, env)
    case Exits(env) => looping && EnvOk(g.locals, base, env)
    case Repeats(env) => looping && EnvOk(g.locals, base, env)
    case Returns(v) => HasType(v, g.result)
    case Stops(why) => why.Overflow? || why.Unfinished?
  }

  lemma {:induction false} FindNamed(p: Prog, f: string)
    requires Find(p, f).Some?
    ensures Find(p, f).value.name == f && exists i :: 0 <= i < |p| && p[i] == Find(p, f).value
  {
    if p[0].name == f {
    } else {
      FindNamed(p[1..], f);
      var i :| 0 <= i < |p[1..]| && p[1..][i] == Find(p, f).value;
      assert p[i + 1] == Find(p, f).value;
    }
  }

  lemma OperateSafe(op: BinaryOp, x: Value, y: Value, a: Ty, b: Ty)
    requires HasType(x, a) && HasType(y, b) && op != And && op != Or && InfixType(op, Some(a), Some(b)).Some?
    ensures Safe(Operate(op, x, y), InfixType(op, Some(a), Some(b)).value)
  {
  }

  lemma {:induction false} EvalSafe(n: nat, p: Prog, ts: Types, ls: Locals, d: set<string>, e: Expr, env: Env)
    requires WellTyped(p, ts) && EnvOk(ls, d, env) && TypeOf(ts, ls, d, e).Some?
    ensures Safe(Eval(n, p, e, env), TypeOf(ts, ls, d, e).value)
    decreases n, 1, e, 1
  {
    match e
    case Minus(a) => EvalSafe(n, p, ts, ls, d, a, env);
    case Negation(a) => EvalSafe(n, p, ts, ls, d, a, env);
    case Infix(op, l, r) => InfixSafe(n, p, ts, ls, d, op, l, r, env);
    case Apply(f, args) => ApplySafe(n, p, ts, ls, d, f, args, env);
    case _ =>
  }

  lemma {:induction false} InfixSafe(n: nat, p: Prog, ts: Types, ls: Locals, d: set<string>, op: BinaryOp, l: Expr, r: Expr, env: Env)
    requires WellTyped(p, ts) && EnvOk(ls, d, env) && TypeOf(ts, ls, d, Infix(op, l, r)).Some?
    ensures Safe(Eval(n, p, Infix(op, l, r), env), TypeOf(ts, ls, d, Infix(op, l, r)).value)
    decreases n, 1, Infix(op, l, r), 0
  {
    EvalSafe(n, p, ts, ls, d, l, env);
    EvalSafe(n, p, ts, ls, d, r, env);
    var a, b := Eval(n, p, l, env), Eval(n, p, r, env);
    if op == And || op == Or {
      assert Eval(n, p, Infix(op, l, r), env) == EvalLogic(n, p, op, l, r, env);
    } else {
      assert Eval(n, p, Infix(op, l, r), env) == EvalBoth(n, p, op, l, r, env);
      if a.Val? && b.Val? { OperateSafe(op, a.v, b.v, TypeOf(ts, ls, d, l).value, TypeOf(ts, ls, d, r).value); }
    }
  }

  lemma {:induction false} ApplySafe(n: nat, p: Prog, ts: Types, ls: Locals, d: set<string>, f: string, args: Args, env: Env)
    requires WellTyped(p, ts) && EnvOk(ls, d, env) && CallFits(ts, ls, d, f, args)
    ensures Safe(EvalApply(n, p, f, args, env), ts[f].result)
    decreases n, 1, args, 1
  {
    ArgsSafe(n, p, ts, ls, d, args, ts[f].params, env);
    var r := EvalArgs(n, p, args, env);
    if r.Passed? { EnterSafe(n, p, ts, f, r.vs); }
  }

  lemma {:induction false} ArgsSafe(n: nat, p: Prog, ts: Types, ls: Locals, d: set<string>, args: Args, tys: seq<Ty>, env: Env)
    requires WellTyped(p, ts) && EnvOk(ls, d, env) && ArgsFit(ts, ls, d, args, tys)
    ensures var r := EvalArgs(n, p, args, env); if r.Passed? then Passes(r.vs, tys) else r.why.Overflow? || r.why.Unfinished?
    decreases n, 1, args, 0
  {
    if args.Arg? {
      EvalSafe(n, p, ts, ls, d, args.e, env);
      ArgsSafe(n, p, ts, ls, d, args.rest, tys[1..], env);
    }
  }

  lemma {:induction false} BindSafe(tab: Table, ls: Locals, ps: seq<string>, tys: seq<Ty>, vs: seq<Value>)
    requires Passes(vs, tys) && |tys| == |ps| && SlotsFit(tab, ls)
    requires forall i :: 0 <= i < |ps| ==> ps[i] in ls && ls[ps[i]] == tys[i] && !tys[i].VoidTy?
    ensures Bind(tab, ps, vs).Some? && EnvOk(ls, NamesOf(ps), Bind(tab, ps, vs).value)
    decreases |ps|
  {
    if ps != [] {
      BindSafe(tab, ls, ps[1..], tys[1..], vs[1..]);
      assert NamesOf(ps) == {ps[0]} + NamesOf(ps[1..]) by {
        forall x | x in NamesOf(ps) ensures x in {ps[0]} + NamesOf(ps[1..]) {
          var i :| 0 <= i < |ps| && ps[i] == x;
          if i > 0 { assert ps[1..][i - 1] == x; }
        }
        forall x | x in NamesOf(ps[1..]) ensures x in NamesOf(ps) {
          var i :| 0 <= i < |ps[1..]| && ps[1..][i] == x;
          assert ps[i + 1] == x;
        }
      }
    }
  }

  /** A call with arguments of the parameter types. */
  lemma {:induction false} EnterSafe(n: nat, p: Prog, ts: Types, f: string, vs: seq<Value>)
    requires WellTyped(p, ts) && f in ts && Passes(vs, ts[f].params)
    ensures Safe(Enter(n, p, f, vs), ts[f].result)
    decreases n, 0
  {
    FindNamed(p, f);
    var fn, g := Find(p, f).value, ts[f];
    assert FuncTyped(ts, fn);
    BindSafe(TableOf(fn), g.locals, fn.params, g.params, vs);
    var env := Bind(TableOf(fn), fn.params, vs).value;
    if n > 0 {
      AllSafe(n - 1, p, ts, g, TableOf(fn), false, {}, fn.body, NamesOf(fn.params), env);
    }
  }

  lemma UpdateSafe(g: Signature, tab: Table, d: set<string>, x: string, r: Ev, env: Env, looping: bool, base: set<string>)
    requires x in g.locals && Safe(r, g.locals[x]) && !g.locals[x].VoidTy? && SlotsFit(tab, g.locals) && EnvOk(g.locals, d, env)
    ensures FlowOk(g, looping, base, Update(tab, x, r, env), Live(d + {x}))
  {
  }

  lemma {:induction false} TypeNotVoid(ts: Types, ls: Locals, d: set<string>, e: Expr)
    ensures TypeOf(ts, ls, d, e) != Some(VoidTy)
  {
  }

  lemma {:induction false} StmtSafe(n: nat, p: Prog, ts: Types, g: Signature, tab: Table, looping: bool, base: set<string>, s: Stmt, d: set<string>, env: Env)
    requires WellTyped(p, ts) && SlotsFit(tab, g.locals) && EnvOk(g.locals, d, env) && base <= d && After(ts, g, looping, s, d).Some?
    ensures FlowOk(g, looping, base, Perform(n, p, tab, s, env), After(ts, g, looping, s, d).value)
    decreases n, 1, s, 1
  {
    match s
    case Declare(x, _, init) => if init.Some? { AssignSafe(n, p, ts, g, tab, looping, base, x, init.value, d, env); }
    case Set(x, e) => AssignSafe(n, p, ts, g, tab, looping, base, x, e, d, env);
    case Do(f, args) => ApplySafe(n, p, ts, g.locals, d, f, args, env);
    case Give(value) => if value.Some? { EvalSafe(n, p, ts, g.locals, d, value.value, env); }
    case Choose(c, yes, no) =>
      EvalSafe(n, p, ts, g.locals, d, c, env);
      AllSafe(n, p, ts, g, tab, looping, base, yes, d, env);
      AllSafe(n, p, ts, g, tab, looping, base, no, d, env);
    case Loop(c, body) => LoopSafe(n, p, ts, g, tab, c, body, d, env);
    case Group(body) => AllSafe(n, p, ts, g, tab, looping, base, body, d, env);
    case _ =>
  }

  lemma {:induction false} AssignSafe(n: nat, p: Prog, ts: Types, g: Signature, tab: Table, looping: bool, base: set<string>,
                                      x: string, e: Expr, d: set<string>, env: Env)
    requires WellTyped(p, ts) && SlotsFit(tab, g.locals) && EnvOk(g.locals, d, env) && Assign(ts, g, d, x, e).Some?
    ensures FlowOk(g, looping, base, Update(tab, x, Eval(n, p, e, env), env), Live(d + {x}))
    decreases n, 1, e, 2
  {
    EvalSafe(n, p, ts, g.locals, d, e, env);
    TypeNotVoid(ts, g.locals, d, e);
    UpdateSafe(g, tab, d, x, Eval(n, p, e, env), env, looping, base);
  }

  /** A loop starts every turn with the variables set that were set before it. */
  lemma {:induction false} LoopSafe(n: nat, p: Prog, ts: Types, g: Signature, tab: Table, c: Expr, body: Stmts, d: set<string>, env: Env)
    requires WellTyped(p, ts) && SlotsFit(tab, g.locals) && EnvOk(g.locals, d, env)
    requires TypeOf(ts, g.locals, d, c) == Some(BoolTy) && AfterAll(ts, g, true, body, d).Some?
    ensures var r := PerformLoop(n, p, tab, c, body, env); FlowOk(g, false, {}, r, Live(d))
    decreases n, 1, Loop(c, body), 0
  {
    EvalSafe(n, p, ts, g.locals, d, c, env);
    if n > 0 && Eval(n, p, c, env) == Val(BoolV(true)) {
      AllSafe(n, p, ts, g, tab, true, d, body, d, env);
      var f := PerformAll(n, p, tab, body, env);
      if f.On? {
        AllGrows(ts, g, true, body, d);
        LoopSafe(n - 1, p, ts, g, tab, c, body, d, f.env);
      } else if f.Repeats? {
        LoopSafe(n - 1, p, ts, g, tab, c, body, d, f.env);
      }
    }
  }

  lemma {:induction false} StmtGrows(ts: Types, g: Signature, looping: bool, s: Stmt, d: set<string>)
    ensures var r := After(ts, g, looping, s, d); r.Some? && r.value.Live? ==> d <= r.value.d
    decreases s
  {
    match s
    case Choose(_, yes, no) =>
      AllGrows(ts, g, looping, yes, d);
      AllGrows(ts, g, looping, no, d);
    case Group(body) => AllGrows(ts, g, looping, body, d);
    case _ =>
  }

  lemma {:induction false} AllGrows(ts: Types, g: Signature, looping: bool, b: Stmts, d: set<string>)
    ensures var r := AfterAll(ts, g, looping, b, d); r.Some? && r.value.Live? ==> d <= r.value.d
    decreases b
  {
    if b.Then? {
      StmtGrows(ts, g, looping, b.s, d);
      var r := After(ts, g, looping, b.s, d);
      if r.Some? && r.value.Live? { AllGrows(ts, g, looping, b.rest, r.value.d); }
    }
  }

  lemma {:induction false} AllSafe(n: nat, p: Prog, ts: Types, g: Signature, tab: Table, looping: bool, base: set<string>, b: Stmts, d: set<string>, env: Env)
    requires WellTyped(p, ts) && SlotsFit(tab, g.locals) && EnvOk(g.locals, d, env) && base <= d && AfterAll(ts, g, looping, b, d).Some?
    ensures FlowOk(g, looping, base, PerformAll(n, p, tab, b, env), AfterAll(ts, g, looping, b, d).value)
    decreases n, 1, b, 0
  {
    if b.Then? {
      StmtSafe(n, p, ts, g, tab, looping, base, b.s, d, env);
      var f, r := Perform(n, p, tab, b.s, env), After(ts, g, looping, b.s, d).value;
      if f.On? {
        StmtGrows(ts, g, looping, b.s, d);
        AllSafe(n, p, ts, g, tab, looping, base, b.rest, r.d, f.env);
      }
    }
  }
}
