/** The emitted code computes what the program means: values end up in %rax, the stack
    pointer is restored, memory in use is left alone, and the trap is reached exactly when
    the program overflows or divides badly. */
module FreestandingSound {
  import opened Options
  import opened Operators
  import opened Hir
  import opened HirSemantics
  import opened X86
  import opened Freestanding
  import opened FreestandingLabels
  import opened FreestandingSteps
  import opened FreestandingFrames
  import opened FreestandingContext

  /** The code of a function stands at its label. */
  ghost predicate FuncPlaced(p: Prog, m: Machine, fn: Func, lab: nat) {
    && |fn.params| <= MAX_ARGS && DistinctNames(fn.params)
    && BlockCode(p, TableOf(fn), [], fn.body, lab).Whole?
    && m.position(Fn(fn.name)) >= 0
    && At(m.code, m.position(Fn(fn.name)), FuncCode(p, fn, lab).value.ops)
  }

  /** Names a function whose placement is needed. */
  predicate Called(f: string) {
    true
  }

  ghost predicate Linked(p: Prog, m: Machine) {
    forall f {:trigger Called(f)} :: Called(f) && Find(p, f).Some? ==>
      Find(p, f).value.name == f && exists lab :: FuncPlaced(p, m, Find(p, f).value, lab)
  }

  ghost predicate Ready(x: Context) {
    Known(x) && Good(x.m) && Linked(x.p, x.m)
  }

  /** What running the code of an expression leads to. */
  ghost predicate ExprEnds(m: Machine, k: nat, s: Cpu, t: Cpu, r: Ev, n: nat, end: int) {
    match r
    case Val(v) => m.run(k, s) == Running(t) && t.pc == end && Word(v, t.rax) && Calm(s, t)
    case Overflow => m.run(k, s) == Trapped
    case Unfinished => m.run(k, s).Running? && k >= n
    case Stuck => true
  }

  lemma CalmTrans(s: Cpu, t: Cpu, u: Cpu)
    requires Calm(s, t) && Calm(t, u)
    ensures Calm(s, u)
  {
  }

  /** First a stretch that leaves memory in use alone, then the rest. */
  lemma {:induction false} After(m: Machine, j: nat, s: Cpu, t: Cpu, k: nat, u: Cpu, r: Ev, n: nat, end: int)
    requires Good(m) && m.run(j, s) == Running(t) && Calm(s, t) && ExprEnds(m, k, t, u, r, n, end)
    ensures ExprEnds(m, j + k, s, u, r, n, end)
  {
    Compose(m, j, k, s);
    if r.Val? { CalmTrans(s, t, u); }
  }

  lemma {:induction false} AfterComputes(m: Machine, j: nat, s: Cpu, t: Cpu, k: nat, u: Cpu, size: int, r: Ev, n: nat)
    requires Good(m) && m.run(j, s) == Running(t) && Calm(s, t) && Computes(m, k, t, u, size, r) && !r.Unfinished?
    ensures ExprEnds(m, j + k, s, u, r, n, t.pc + size)
  {
    Compose(m, j, k, s);
  }

  // ---- Expressions ----

  lemma {:induction false} ExprRuns(x: Context, n: nat, e: Expr, lab: nat, env: Env, s: Cpu) returns (k: nat, t: Cpu)
    requires Ready(x) && Framed(x.tab, env, s, 0)
    requires x.code(e, lab).Some? && At(x.m.code, s.pc, x.code(e, lab).value.ops)
    ensures ExprEnds(x.m, k, s, t, x.eval(n, e, env), n, s.pc + |x.code(e, lab).value.ops|)
    decreases n, 1, e, 1
  {
    match e
    case Minus(a) => k, t := MinusRuns(x, n, a, lab, env, s);
    case Negation(a) => k, t := NegationRuns(x, n, a, lab, env, s);
    case Infix(op, l, r) => k, t := InfixRuns(x, n, op, l, r, lab, env, s);
    case Apply(f, args) =>
      ApplyIs(x, n, f, args, lab, env);
      k, t := CallRuns(x, n, f, args, lab, env, s, x.code(e, lab).value);
    case _ => k, t := LeafRuns(x, n, e, lab, env, s);
  }

  lemma {:induction false} MinusRuns(x: Context, n: nat, a: Expr, lab: nat, env: Env, s: Cpu) returns (k: nat, t: Cpu)
    requires Ready(x) && Framed(x.tab, env, s, 0)
    requires x.code(Minus(a), lab).Some? && At(x.m.code, s.pc, x.code(Minus(a), lab).value.ops)
    ensures ExprEnds(x.m, k, s, t, x.eval(n, Minus(a), env), n, s.pc + |x.code(Minus(a), lab).value.ops|)
    decreases n, 1, Minus(a), 0
  {
    MinusIs(x, n, a, lab, env);
    var c := x.code(a, lab).value;
    AtSplit(x.m.code, s.pc, c.ops, [NegQ, Jcc(O, Fault)]);
    k, t := ExprRuns(x, n, a, lab, env, s);
    k, t := MinusEnd(x.m, k, s, t, x.eval(n, a, env), n, s.pc + |c.ops|);
  }

  lemma {:induction false} NegationRuns(x: Context, n: nat, a: Expr, lab: nat, env: Env, s: Cpu) returns (k: nat, t: Cpu)
    requires Ready(x) && Framed(x.tab, env, s, 0)
    requires x.code(Negation(a), lab).Some? && At(x.m.code, s.pc, x.code(Negation(a), lab).value.ops)
    ensures ExprEnds(x.m, k, s, t, x.eval(n, Negation(a), env), n, s.pc + |x.code(Negation(a), lab).value.ops|)
    decreases n, 1, Negation(a), 0
  {
    NegationIs(x, n, a, lab, env);
    var c := x.code(a, lab).value;
    AtSplit(x.m.code, s.pc, c.ops, [TestL, Instr.Set(E), MovzbAl]);
    k, t := ExprRuns(x, n, a, lab, env, s);
    k, t := NegationEnd(x.m, k, s, t, x.eval(n, a, env), n, s.pc + |c.ops|);
  }

  lemma {:induction false} InfixRuns(x: Context, n: nat, op: BinaryOp, l: Expr, r: Expr, lab: nat, env: Env, s: Cpu) returns (k: nat, t: Cpu)
    requires Ready(x) && Framed(x.tab, env, s, 0)
    requires x.code(Infix(op, l, r), lab).Some? && At(x.m.code, s.pc, x.code(Infix(op, l, r), lab).value.ops)
    ensures ExprEnds(x.m, k, s, t, x.eval(n, Infix(op, l, r), env), n, s.pc + |x.code(Infix(op, l, r), lab).value.ops|)
    decreases n, 1, Infix(op, l, r), 0, 2
  {
    if op == And || op == Or {
      k, t := InfixLogic(x, n, op, l, r, lab, env, s);
    } else {
      k, t := InfixBoth(x, n, op, l, r, lab, env, s);
    }
  }

  lemma {:induction false} InfixLogic(x: Context, n: nat, op: BinaryOp, l: Expr, r: Expr, lab: nat, env: Env, s: Cpu) returns (k: nat, t: Cpu)
    requires Ready(x) && Framed(x.tab, env, s, 0) && (op == And || op == Or)
    requires x.code(Infix(op, l, r), lab).Some? && At(x.m.code, s.pc, x.code(Infix(op, l, r), lab).value.ops)
    ensures ExprEnds(x.m, k, s, t, x.eval(n, Infix(op, l, r), env), n, s.pc + |x.code(Infix(op, l, r), lab).value.ops|)
    decreases n, 1, Infix(op, l, r), 0, 1
  {
    LogicIs(x, n, op, l, r, lab, env);
    var cl := x.code(l, lab + 2).value;
    var cr := x.code(r, cl.next).value;
    LogicParts(x.m.code, s.pc, cl.ops, LogicTest(op, lab), cr.ops, LogicTail(op == Or, lab));
    k, t := LogicRuns(x, n, op, l, r, lab, env, s, cl, cr);
  }

  lemma {:induction false} InfixBoth(x: Context, n: nat, op: BinaryOp, l: Expr, r: Expr, lab: nat, env: Env, s: Cpu) returns (k: nat, t: Cpu)
    requires Ready(x) && Framed(x.tab, env, s, 0) && op != And && op != Or
    requires x.code(Infix(op, l, r), lab).Some? && At(x.m.code, s.pc, x.code(Infix(op, l, r), lab).value.ops)
    ensures ExprEnds(x.m, k, s, t, x.eval(n, Infix(op, l, r), env), n, s.pc + |x.code(Infix(op, l, r), lab).value.ops|)
    decreases n, 1, Infix(op, l, r), 0, 1
  {
    BothIs(x, n, op, l, r, lab, env);
    var cl := x.code(l, lab).value;
    var cr := x.code(r, cl.next).value;
    var co := OperatorCode(op, cr.next).value;
    FiveParts(x.m.code, s.pc, cl.ops, SpillCode, cr.ops, UnspillCode, co.ops);
    k, t := BothRuns(x, n, op, l, r, lab, env, s, cl, cr, co);
  }

  lemma {:induction false} LeafRuns(x: Context, n: nat, e: Expr, lab: nat, env: Env, s: Cpu) returns (k: nat, t: Cpu)
    requires Ready(x) && Framed(x.tab, env, s, 0) && (e.Literal? || e.Flag? || e.Local?)
    requires x.code(e, lab).Some? && At(x.m.code, s.pc, x.code(e, lab).value.ops)
    ensures ExprEnds(x.m, k, s, t, x.eval(n, e, env), n, s.pc + |x.code(e, lab).value.ops|)
  {
    assert ShowFrame(0);
    LeafIs(x, n, e, lab, env);
    k, t := 1, s;
    if e.Local? {
      if e.x in env { t := LoadRuns(x.m, x.tab, env, s, e.x, 0); }
    } else {
      var op := if e.Literal? then MovImm(e.i) else MovImmL(e.b);
      At1(x.m.code, s.pc, op);
      DataStep(x.m, s, op);
      Once(x.m, s);
      t := s.(pc := s.pc + 1, rax := if e.Literal? then e.i else Bit(e.b));
    }
  }

  /** What an operand leads to, and then one more instruction pattern. */
  lemma {:induction false} MinusEnd(m: Machine, k: nat, s: Cpu, t: Cpu, r: Ev, n: nat, mid: int) returns (j: nat, u: Cpu)
    requires Good(m) && ExprEnds(m, k, s, t, r, n, mid) && At(m.code, mid, [NegQ, Jcc(O, Fault)])
    ensures ExprEnds(m, j, s, u, NegateEv(r), n, mid + 2)
  {
    j, u := k, t;
    if r.Val? && r.v.IntV? {
      var i, w := ArithmeticRuns(m, t, NegQ, 0 - t.rax);
      AfterComputes(m, k, s, t, i, w, 2, OfOption(Checked(0 - r.v.i)), n);
      j, u := k + i, w;
    }
  }

  lemma {:induction false} NegationEnd(m: Machine, k: nat, s: Cpu, t: Cpu, r: Ev, n: nat, mid: int) returns (j: nat, u: Cpu)
    requires Good(m) && ExprEnds(m, k, s, t, r, n, mid) && At(m.code, mid, [TestL, Instr.Set(E), MovzbAl])
    ensures ExprEnds(m, j, s, u, InvertEv(r), n, mid + 3)
  {
    j, u := k, t;
    if r.Val? && r.v.BoolV? {
      var b := r.v.b;
      var i := TestRuns(m, t, E, b);
      var w := t.(pc := t.pc + 3, rax := Bit(!b), eq := !b, lt := false, of := false);
      AfterComputes(m, k, s, t, i, w, 3, Val(BoolV(!b)), n);
      j, u := k + i, w;
    }
  }

  // ---- Operators that evaluate both operands ----

  /** The left value waits on the stack below everything in use. */
  ghost predicate Pushed(s: Cpu, t: Cpu, a: Value) {
    t.rsp == s.rsp - 16 && t.rbp == s.rbp && Word(a, Peek(t.mem, t.rsp)) && SameAbove(s.mem, t.mem, s.rsp)
  }

  lemma {:induction false} BothStep(m: Machine, tab: Table, env: Env, k: nat, s: Cpu, t: Cpu, a: Value, n: nat, mid: int) returns (j: nat, u: Cpu)
    requires Good(m) && Framed(tab, env, s, 0) && ExprEnds(m, k, s, t, Val(a), n, mid) && At(m.code, mid, SpillCode)
    ensures m.run(j, s) == Running(u) && u.pc == mid + 2 && Framed(tab, env, u, 0) && Pushed(s, u, a)
  {
    assert ShowFrame(0);
    FrameCalm(tab, env, s, t, 0);
    j, u := SpillRuns(m, tab, env, t);
    Compose(m, k, j, s);
    j := k + j;
  }

  lemma {:induction false} BothEnd(m: Machine, tab: Table, env: Env, k: nat, s: Cpu, t: Cpu, i: nat, u: Cpu, op: BinaryOp, lab: nat, a: Value, b: Ev, n: nat, mid: int)
      returns (j: nat, w: Cpu)
    requires Good(m) && m.run(k, s) == Running(t) && Pushed(s, t, a) && Framed(tab, env, t, 0)
    requires ExprEnds(m, i, t, u, b, n, mid) && OperatorCode(op, lab).Some?
    requires At(m.code, mid, UnspillCode) && At(m.code, mid + 3, OperatorCode(op, lab).value.ops)
    ensures ExprEnds(m, j, s, w, if b.Val? then Operate(op, a, b.v) else b, n, mid + 3 + |OperatorCode(op, lab).value.ops|)
  {
    assert ShowFrame(0);
    Compose(m, k, i, s);
    j, w := k + i, u;
    if b.Val? {
      var h, u1 := UnspillRuns(m, u);
      Compose(m, j, h, s);
      j, w := j + h, u1;
      if !Operate(op, a, b.v).Stuck? {
        var g, z := OperatorRuns(m, u1, op, lab, a, b.v);
        AfterComputes(m, j, s, u1, g, z, |OperatorCode(op, lab).value.ops|, Operate(op, a, b.v), n);
        j, w := j + g, z;
      }
    }
  }

  lemma {:induction false} BothRuns(x: Context, n: nat, op: BinaryOp, l: Expr, r: Expr, lab: nat, env: Env, s: Cpu, cl: Code, cr: Code, co: Code)
      returns (k: nat, t: Cpu)
    requires Ready(x) && Framed(x.tab, env, s, 0)
    requires x.code(l, lab) == Some(cl) && x.code(r, cl.next) == Some(cr) && OperatorCode(op, cr.next) == Some(co)
    requires At(x.m.code, s.pc, cl.ops) && At(x.m.code, s.pc + |cl.ops|, SpillCode) && At(x.m.code, s.pc + |cl.ops| + 2, cr.ops)
    requires At(x.m.code, s.pc + |cl.ops| + 2 + |cr.ops|, UnspillCode) && At(x.m.code, s.pc + |cl.ops| + 5 + |cr.ops|, co.ops)
    ensures ExprEnds(x.m, k, s, t, BothEv(op, x.eval(n, l, env), x.eval(n, r, env)), n, s.pc + |cl.ops| + 5 + |cr.ops| + |co.ops|)
    decreases n, 1, Infix(op, l, r), 0, 0
  {
    k, t := ExprRuns(x, n, l, lab, env, s);
    var a := x.eval(n, l, env);
    if a.Val? { k, t := BothRest(x, n, op, r, cl.next, env, s, a.v, cr, co, s.pc + |cl.ops|, k, t); }
  }

  lemma {:induction false} BothRest(x: Context, n: nat, op: BinaryOp, r: Expr, lab: nat, env: Env, s: Cpu, a: Value, cr: Code, co: Code, mid: int,
      j: nat, w: Cpu) returns (k: nat, t: Cpu)
    requires Ready(x) && Framed(x.tab, env, s, 0) && x.code(r, lab) == Some(cr) && OperatorCode(op, cr.next) == Some(co)
    requires ExprEnds(x.m, j, s, w, Val(a), n, mid) && At(x.m.code, mid, SpillCode) && At(x.m.code, mid + 2, cr.ops)
    requires At(x.m.code, mid + 2 + |cr.ops|, UnspillCode) && At(x.m.code, mid + 5 + |cr.ops|, co.ops)
    ensures ExprEnds(x.m, k, s, t, BothEv(op, Val(a), x.eval(n, r, env)), n, mid + 5 + |cr.ops| + |co.ops|)
    decreases n, 1, r, 2
  {
    var h, t1 := BothStep(x.m, x.tab, env, j, s, w, a, n, mid);
    var i, u := ExprRuns(x, n, r, lab, env, t1);
    k, t := BothEnd(x.m, x.tab, env, h, s, t1, i, u, op, cr.next, a, x.eval(n, r, env), n, mid + 2 + |cr.ops|);
  }

  // ---- Short-circuit operators ----

  lemma LogicParts(code: seq<Instr>, pc: int, a: seq<Instr>, test: seq<Instr>, b: seq<Instr>, tail: seq<Instr>)
    requires At(code, pc, a + test + b + tail)
    ensures At(code, pc, a) && At(code, pc + |a|, test) && At(code, pc + |a| + |test|, b) && At(code, pc + |a| + |test| + |b|, tail)
  {
    AtSplit(code, pc, a + test + b, tail);
    AtSplit(code, pc, a + test, b);
    AtSplit(code, pc, a, test);
  }

  lemma {:induction false} TailAt(code: seq<Instr>, pc: int, stop: bool, lab: nat)
    requires At(code, pc, LogicTail(stop, lab))
    ensures At(code, pc, [TestL, Instr.Set(NE), MovzbAl]) && code[pc + 3] == Jmp(Free(lab + 1))
    ensures code[pc + 4] == Label(Free(lab)) && code[pc + 5] == MovImmL(stop) && code[pc + 6] == Label(Free(lab + 1))
  {
    var test, rest := [TestL, Instr.Set(NE), MovzbAl], [Jmp(Free(lab + 1)), Label(Free(lab)), MovImmL(stop), Label(Free(lab + 1))];
    assert LogicTail(stop, lab) == test + rest;
    AtSplit(code, pc, test, rest);
    AtGet(code, pc + 3, rest, 0);
    AtGet(code, pc + 3, rest, 1);
    AtGet(code, pc + 3, rest, 2);
    AtGet(code, pc + 3, rest, 3);
  }

  lemma {:induction false} TailParts(m: Machine, pc: int, stop: bool, lab: nat)
    requires Good(m) && At(m.code, pc, LogicTail(stop, lab))
    ensures At(m.code, pc, [TestL, Instr.Set(NE), MovzbAl]) && m.code[pc + 3] == Jmp(Free(lab + 1))
    ensures m.code[pc + 4] == Label(Free(lab)) && m.code[pc + 5] == MovImmL(stop) && m.code[pc + 6] == Label(Free(lab + 1))
    ensures m.position(Free(lab)) == pc + 4 && m.position(Free(lab + 1)) == pc + 6
  {
    TailAt(m.code, pc, stop, lab);
    LabelAt(m, pc + 4, Free(lab));
    LabelAt(m, pc + 6, Free(lab + 1));
  }

  /** From the label of the deciding left operand to the end. */
  lemma {:induction false} ShortRuns(m: Machine, s: Cpu, stop: bool, lab: nat) returns (k: nat, t: Cpu)
    requires Good(m) && At(m.code, s.pc - 4, LogicTail(stop, lab))
    ensures Computes(m, k, s, t, 3, Val(BoolV(stop)))
  {
    TailParts(m, s.pc - 4, stop, lab);
    var t1 := s.(pc := s.pc + 1);
    var t2 := t1.(pc := s.pc + 2, rax := Bit(stop));
    JumpStep(m, s);
    Once(m, s);
    DataStep(m, t1, MovImmL(stop));
    More(m, 1, s, t1);
    JumpStep(m, t2);
    More(m, 2, s, t2);
    k, t := 3, t2.(pc := s.pc + 3);
  }

  /** From the value of the right operand to the end. */
  lemma {:induction false} LongRuns(m: Machine, s: Cpu, stop: bool, lab: nat, b: bool) returns (k: nat, t: Cpu)
    requires Good(m) && At(m.code, s.pc, LogicTail(stop, lab)) && s.rax == Bit(b)
    ensures Computes(m, k, s, t, 7, Val(BoolV(b)))
  {
    TailParts(m, s.pc, stop, lab);
    k := TestRuns(m, s, NE, b);
    var t1 := s.(pc := s.pc + 3, rax := Bit(b), eq := !b, lt := false, of := false);
    JumpStep(m, t1);
    More(m, k, s, t1);
    var t2 := t1.(pc := s.pc + 6);
    JumpStep(m, t2);
    More(m, k + 1, s, t2);
    k, t := k + 2, t2.(pc := s.pc + 7);
  }

  lemma {:induction false} LogicRuns(x: Context, n: nat, op: BinaryOp, l: Expr, r: Expr, lab: nat, env: Env, s: Cpu, cl: Code, cr: Code)
      returns (k: nat, t: Cpu)
    requires Ready(x) && Framed(x.tab, env, s, 0) && x.code(l, lab + 2) == Some(cl) && x.code(r, cl.next) == Some(cr)
    requires At(x.m.code, s.pc, cl.ops) && At(x.m.code, s.pc + |cl.ops|, LogicTest(op, lab))
    requires At(x.m.code, s.pc + |cl.ops| + 2, cr.ops) && At(x.m.code, s.pc + |cl.ops| + 2 + |cr.ops|, LogicTail(op == Or, lab))
    ensures ExprEnds(x.m, k, s, t, LogicEv(op, x.eval(n, l, env), x.eval(n, r, env)), n, s.pc + |cl.ops| + 2 + |cr.ops| + 7)
    decreases n, 1, Infix(op, l, r), 0, 0
  {
    var mid := s.pc + |cl.ops|;
    var tail := mid + 2 + |cr.ops|;
    k, t := ExprRuns(x, n, l, lab + 2, env, s);
    var a := x.eval(n, l, env);
    if a.Val? && a.v.BoolV? {
      if a.v.b == (op == Or) {
        k, t := LogicShort(x.m, k, s, t, op == Or, lab, n, mid, tail);
      } else {
        k, t := LogicRest(x, n, op, r, lab, cl.next, env, s, cr, mid, k, t);
      }
    }
  }

  lemma {:induction false} LogicRest(x: Context, n: nat, op: BinaryOp, r: Expr, lab: nat, lab1: nat, env: Env, s: Cpu, cr: Code, mid: int,
      j: nat, w: Cpu) returns (k: nat, t: Cpu)
    requires Ready(x) && Framed(x.tab, env, s, 0) && x.code(r, lab1) == Some(cr) && ExprEnds(x.m, j, s, w, Val(BoolV(op != Or)), n, mid)
    requires At(x.m.code, mid, LogicTest(op, lab)) && At(x.m.code, mid + 2, cr.ops) && At(x.m.code, mid + 2 + |cr.ops|, LogicTail(op == Or, lab))
    ensures ExprEnds(x.m, k, s, t, LogicEv(op, Val(BoolV(op != Or)), x.eval(n, r, env)), n, mid + 2 + |cr.ops| + 7)
    decreases n, 1, r, 2
  {
    var tail := mid + 2 + |cr.ops|;
    var h, t1 := LogicOn(x.m, x.tab, env, j, s, w, op == Or, lab, n, mid, tail);
    var i, u := ExprRuns(x, n, r, lab1, env, t1);
    k, t := LogicLong(x.m, h, s, t1, i, u, op == Or, lab, x.eval(n, r, env), n, tail);
  }

  lemma Branch(m: Machine, s: Cpu, cc: Condition, l: nat, b: bool) returns (k: nat, t: Cpu)
    requires Good(m) && At(m.code, s.pc, [TestL, Jcc(cc, Free(l))]) && s.rax == Bit(b) && (cc == E || cc == NE) && m.position(Free(l)) >= 0
    ensures m.run(k, s) == Running(t) && t.pc == (if b == (cc == NE) then m.position(Free(l)) else s.pc + 2) && Calm(s, t) && t.mem == s.mem
  {
    k := BranchRuns(m, s, cc, l, b);
    t := s.(pc := if b == (cc == NE) then m.position(Free(l)) else s.pc + 2, eq := !b, lt := false, of := false);
  }

  /** The left operand decides. */
  lemma {:induction false} LogicShort(m: Machine, k: nat, s: Cpu, t: Cpu, stop: bool, lab: nat, n: nat, mid: int, tail: int) returns (j: nat, u: Cpu)
    requires Good(m) && ExprEnds(m, k, s, t, Val(BoolV(stop)), n, mid)
    requires At(m.code, mid, [TestL, Jcc(if stop then NE else E, Free(lab))]) && At(m.code, tail, LogicTail(stop, lab))
    ensures ExprEnds(m, j, s, u, Val(BoolV(stop)), n, tail + 7)
  {
    TailParts(m, tail, stop, lab);
    var h, t1 := Branch(m, t, if stop then NE else E, lab, stop);
    Compose(m, k, h, s);
    CalmTrans(s, t, t1);
    var i, w := ShortRuns(m, t1, stop, lab);
    AfterComputes(m, k + h, s, t1, i, w, 3, Val(BoolV(stop)), n);
    j, u := k + h + i, w;
  }

  /** The left operand does not decide. */
  lemma {:induction false} LogicOn(m: Machine, tab: Table, env: Env, k: nat, s: Cpu, t: Cpu, stop: bool, lab: nat, n: nat, mid: int, tail: int) returns (j: nat, u: Cpu)
    requires Good(m) && Framed(tab, env, s, 0) && ExprEnds(m, k, s, t, Val(BoolV(!stop)), n, mid)
    requires At(m.code, mid, [TestL, Jcc(if stop then NE else E, Free(lab))]) && At(m.code, tail, LogicTail(stop, lab))
    ensures m.run(j, s) == Running(u) && u.pc == mid + 2 && Calm(s, u) && Framed(tab, env, u, 0)
  {
    TailParts(m, tail, stop, lab);
    var h;
    h, u := Branch(m, t, if stop then NE else E, lab, !stop);
    Compose(m, k, h, s);
    CalmTrans(s, t, u);
    FramedCalm(tab, env, s, u, 0);
    j := k + h;
  }

  lemma FramedCalm(tab: Table, env: Env, s: Cpu, t: Cpu, room: nat)
    requires Framed(tab, env, s, room) && Calm(s, t)
    ensures Framed(tab, env, t, room)
  {
    assert ShowFrame(0);
    FrameCalm(tab, env, s, t, room);
  }

  lemma {:induction false} LogicLong(m: Machine, h: nat, s: Cpu, s1: Cpu, i: nat, t: Cpu, stop: bool, lab: nat, b: Ev, n: nat, tail: int) returns (j: nat, u: Cpu)
    requires Good(m) && m.run(h, s) == Running(s1) && Calm(s, s1)
    requires ExprEnds(m, i, s1, t, b, n, tail) && At(m.code, tail, LogicTail(stop, lab))
    ensures ExprEnds(m, j, s, u, if b.Val? && !b.v.BoolV? then Stuck else b, n, tail + 7)
  {
    After(m, h, s, s1, i, t, b, n, tail);
    var k := h + i;
    j, u := k, t;
    if b.Val? && b.v.BoolV? {
      var g, w := LongRuns(m, t, stop, lab, b.v.b);
      AfterComputes(m, k, s, t, g, w, 7, Val(b.v), n);
      j, u := k + g, w;
    }
  }

  // ---- Calls ----

  ghost predicate ArgsEnd(m: Machine, k: nat, s: Cpu, t: Cpu, r: EvArgs, i: nat, n: nat, end: int) {
    match r
    case Passed(vs) =>
      && m.run(k, s) == Running(t) && t.pc == end && t.rsp == s.rsp && t.rbp == s.rbp
      && (forall b :: b >= s.rsp && !(s.rsp + 8 * i <= b < s.rsp + 8 * (i + |vs|)) ==> Peek(t.mem, b) == Peek(s.mem, b))
      && (forall j :: 0 <= j < |vs| ==> Word(vs[j], Peek(t.mem, s.rsp + 8 * (i + j))))
    case Failed(Overflow) => m.run(k, s) == Trapped
    case Failed(Unfinished) => m.run(k, s).Running? && k >= n
    case _ => true
  }

  /** One evaluated argument goes to its place in the argument area. */
  lemma {:induction false} PassRuns(m: Machine, tab: Table, env: Env, s: Cpu, i: nat, room: nat) returns (t: Cpu)
    requires Good(m) && At(m.code, s.pc, [Spill(8 * i)]) && Framed(tab, env, s, room) && 8 * i + 8 <= room
    ensures m.run(1, s) == Running(t) && t == s.(pc := s.pc + 1, mem := s.mem[s.rsp + 8 * i := s.rax])
    ensures Framed(tab, env, t, room)
  {
    assert ShowFrame(0);
    At1(m.code, s.pc, Spill(8 * i));
    Aligned(s.rsp, i);
    MemoryStep(m, s, Spill(8 * i));
    Once(m, s);
    t := s.(pc := s.pc + 1, mem := s.mem[s.rsp + 8 * i := s.rax]);
    SlotsBelow(tab, env, s.mem, s.rbp, s.rsp + 8 * i, s.rax);
  }

  lemma {:induction false} PassedOn(m: Machine, s: Cpu, t: Cpu, u: Cpu, w: Cpu, j: nat, k: nat, v: Value, r: EvArgs, i: nat, n: nat, end: int)
    requires Good(m) && m.run(j, s) == Running(u) && Calm(s, t) && Word(v, t.rax)
    requires u == t.(pc := u.pc, mem := t.mem[t.rsp + 8 * i := t.rax]) && ArgsEnd(m, k, u, w, r, i + 1, n, end)
    ensures r.Passed? ==> ArgsEnd(m, j + k, s, w, Passed([v] + r.vs), i, n, end)
    ensures r.Failed? ==> ArgsEnd(m, j + k, s, w, r, i, n, end)
  {
    Compose(m, j, k, s);
    if r.Passed? {
      var vs := [v] + r.vs;
      forall h | 0 <= h < |vs| ensures Word(vs[h], Peek(w.mem, s.rsp + 8 * (i + h))) {
        if h > 0 { assert vs[h] == r.vs[h - 1] && i + h == (i + 1) + (h - 1); }
      }
    }
  }

  lemma ArgParts(code: seq<Instr>, pc: int, a: seq<Instr>, i: nat, b: seq<Instr>)
    requires At(code, pc, a + [Spill(8 * i)] + b)
    ensures At(code, pc, a) && At(code, pc + |a|, [Spill(8 * i)]) && At(code, pc + |a| + 1, b)
  {
    AtSplit(code, pc, a + [Spill(8 * i)], b);
    AtSplit(code, pc, a, [Spill(8 * i)]);
  }

  lemma {:induction false} ArgsRun(x: Context, n: nat, a: Args, i: nat, lab: nat, env: Env, s: Cpu, room: nat) returns (k: nat, t: Cpu)
    requires Ready(x) && Framed(x.tab, env, s, room) && 8 * (i + Count(a)) <= room
    requires x.argsCode(a, i, lab).Some? && At(x.m.code, s.pc, x.argsCode(a, i, lab).value.ops)
    ensures ArgsEnd(x.m, k, s, t, x.evalArgs(n, a, env), i, n, s.pc + |x.argsCode(a, i, lab).value.ops|)
    decreases n, 1, a, 0
  {
    ArgsAre(x, n, a, i, lab, env);
    Stay(x.m, s);
    k, t := 0, s;
    if a.Arg? {
      var c := x.code(a.e, lab).value;
      var rest := x.argsCode(a.rest, i + 1, c.next).value;
      ArgParts(x.m.code, s.pc, c.ops, i, rest.ops);
      k, t := ExprRuns(x, n, a.e, lab, env, s);
      var r := x.eval(n, a.e, env);
      if r.Val? {
        var j, u := ArgStep(x.m, x.tab, env, k, s, t, r.v, n, s.pc + |c.ops|, i, room);
        var h, w := ArgsRun(x, n, a.rest, i + 1, c.next, env, u, room);
        PassedOn(x.m, s, t, u, w, j, h, r.v, x.evalArgs(n, a.rest, env), i, n, s.pc + |c.ops| + 1 + |rest.ops|);
        k, t := j + h, w;
      }
    }
  }

  lemma {:induction false} ArgStep(m: Machine, tab: Table, env: Env, k: nat, s: Cpu, t: Cpu, v: Value, n: nat, mid: int, i: nat, room: nat) returns (j: nat, u: Cpu)
    requires Good(m) && Framed(tab, env, s, room) && ExprEnds(m, k, s, t, Val(v), n, mid) && At(m.code, mid, [Spill(8 * i)])
    requires 8 * i + 8 <= room
    ensures m.run(j, s) == Running(u) && u == t.(pc := mid + 1, mem := t.mem[t.rsp + 8 * i := t.rax]) && Framed(tab, env, u, room)
  {
    assert ShowFrame(0);
    FrameCalm(tab, env, s, t, room);
    u := PassRuns(m, tab, env, t, i, room);
    Compose(m, k, 1, s);
    j := k + 1;
  }

  lemma {:induction false} ReserveRuns(m: Machine, s: Cpu, bytes: nat) returns (k: nat, t: Cpu)
    requires Good(m) && At(m.code, s.pc, Reserve(bytes))
    ensures m.run(k, s) == Running(t) && t == s.(pc := s.pc + |Reserve(bytes)|, rsp := s.rsp - bytes)
  {
    Stay(m, s);
    k, t := 0, s;
    if bytes > 0 {
      At1(m.code, s.pc, SubSp(bytes));
      MemoryStep(m, s, SubSp(bytes));
      Once(m, s);
      k, t := 1, s.(pc := s.pc + 1, rsp := s.rsp - bytes);
    }
  }

  lemma {:induction false} ReleaseRuns(m: Machine, s: Cpu, bytes: nat) returns (k: nat, t: Cpu)
    requires Good(m) && At(m.code, s.pc, Release(bytes))
    ensures m.run(k, s) == Running(t) && t == s.(pc := s.pc + |Release(bytes)|, rsp := s.rsp + bytes)
  {
    Stay(m, s);
    k, t := 0, s;
    if bytes > 0 {
      At1(m.code, s.pc, AddSp(bytes));
      MemoryStep(m, s, AddSp(bytes));
      Once(m, s);
      k, t := 1, s.(pc := s.pc + 1, rsp := s.rsp + bytes);
    }
  }

  lemma AreaAligned(argc: nat)
    ensures Area(argc) % 16 == 0 && Area(argc) >= 8 * argc
  {
    assert (argc + argc % 2) % 2 == 0;
    var h := (argc + argc % 2) / 2;
    assert Area(argc) == 16 * h;
  }

  lemma FiveParts(code: seq<Instr>, pc: int, a: seq<Instr>, b: seq<Instr>, c: seq<Instr>, d: seq<Instr>, e: seq<Instr>)
    requires At(code, pc, a + b + c + d + e)
    ensures At(code, pc, a) && At(code, pc + |a|, b) && At(code, pc + |a| + |b|, c)
    ensures At(code, pc + |a| + |b| + |c|, d) && At(code, pc + |a| + |b| + |c| + |d|, e)
  {
    AtSplit(code, pc, a + b + c + d, e);
    AtSplit(code, pc, a + b + c, d);
    AtSplit(code, pc, a + b, c);
    AtSplit(code, pc, a, b);
  }

  /** The call instruction, with the stack aligned. */
  lemma {:induction false} EnterRuns(m: Machine, s: Cpu, f: string) returns (t: Cpu)
    requires Good(m) && At(m.code, s.pc, [Instr.Call(f)]) && s.rsp % 16 == 0 && m.position(Fn(f)) >= 0
    ensures m.run(1, s) == Running(t)
    ensures t == s.(pc := m.position(Fn(f)), rsp := s.rsp - 8, mem := s.mem[s.rsp - 8 := s.pc + 1]) && t.rsp % 16 == 8
  {
    assert Show(0);
    At1(m.code, s.pc, Instr.Call(f));
    t := s.(pc := m.position(Fn(f)), rsp := s.rsp - 8, mem := s.mem[s.rsp - 8 := s.pc + 1]);
    assert Position(m.code, Fn(f)) == m.position(Fn(f));
    assert Step(m.code, s) == Running(t);
    Once(m, s);
  }

  ghost predicate FuncEnds(m: Machine, k: nat, s: Cpu, t: Cpu, r: Ev, n: nat) {
    match r
    case Val(v) =>
      && m.run(k, s) == Running(t) && t.pc == Peek(s.mem, s.rsp) && t.rsp == s.rsp + 8 && t.rbp == s.rbp
      && Word(v, t.rax) && SameAbove(s.mem, t.mem, s.rsp)
    case Overflow => m.run(k, s) == Trapped
    case Unfinished => m.run(k, s).Running? && k >= n
    case Stuck => true
  }

  ghost predicate InRegisters(s: Cpu, vs: seq<Value>) {
    |vs| <= MAX_ARGS && forall j :: 0 <= j < |vs| ==> Word(vs[j], Get(s, ArgRegister(j)))
  }

  /** From the call with its arguments in registers to the end of the calling sequence. */
  lemma {:induction false} InvokeRuns(x: Context, n: nat, f: string, vs: seq<Value>, s: Cpu, area: nat) returns (k: nat, t: Cpu)
    requires Ready(x) && At(x.m.code, s.pc, [Instr.Call(f)]) && At(x.m.code, s.pc + 1, Release(area))
    requires s.rsp % 16 == 0 && Find(x.p, f).Some? && |vs| == |Find(x.p, f).value.params| && InRegisters(s, vs)
    ensures CallEnds(x.m, k, s, t, x.enter(n, f, vs), n, area)
    decreases n, 0, 1
  {
    assert Called(f);
    var lab :| FuncPlaced(x.p, x.m, Find(x.p, f).value, lab);
    var u := EnterRuns(x.m, s, f);
    EnteredRegisters(s, u, vs);
    var j, w := FuncRuns(x, n, Find(x.p, f).value, lab, vs, u);
    k, t := InvokeEnd(x.m, s, u, j, w, x.enter(n, f, vs), n, area);
  }

  lemma EnteredRegisters(s: Cpu, t: Cpu, vs: seq<Value>)
    requires t == s.(pc := t.pc, rsp := t.rsp, mem := t.mem) && InRegisters(s, vs)
    ensures InRegisters(t, vs)
  {
    forall j | 0 <= j < |vs| ensures Word(vs[j], Get(t, ArgRegister(j))) { KeptRegisters(s, t, j); }
  }

  /** What a call leads to, up to the end of the calling sequence. */
  ghost predicate CallEnds(m: Machine, k: nat, s: Cpu, t: Cpu, r: Ev, n: nat, area: nat) {
    match r
    case Val(v) =>
      && m.run(k, s) == Running(t) && t.pc == s.pc + 1 + |Release(area)| && t.rsp == s.rsp + area && t.rbp == s.rbp
      && Word(v, t.rax) && SameAbove(s.mem, t.mem, s.rsp)
    case Overflow => m.run(k, s) == Trapped
    case Unfinished => m.run(k, s).Running? && k >= n
    case Stuck => true
  }

  lemma {:induction false} InvokeEnd(m: Machine, s: Cpu, u: Cpu, j: nat, w: Cpu, r: Ev, n: nat, area: nat) returns (k: nat, t: Cpu)
    requires Good(m) && m.run(1, s) == Running(u) && FuncEnds(m, j, u, w, r, n) && At(m.code, s.pc + 1, Release(area))
    requires u == s.(pc := u.pc, rsp := s.rsp - 8, mem := s.mem[s.rsp - 8 := s.pc + 1])
    ensures CallEnds(m, k, s, t, r, n, area)
  {
    Compose(m, 1, j, s);
    k, t := 1 + j, w;
    if r.Val? {
      var i, z := ReleaseRuns(m, w, area);
      Compose(m, k, i, s);
      k, t := k + i, z;
    }
  }

  lemma KeptRegisters(s: Cpu, t: Cpu, j: nat)
    requires t == s.(pc := t.pc, rsp := t.rsp, mem := t.mem)
    ensures Get(t, ArgRegister(j)) == Get(s, ArgRegister(j))
  {
  }

  lemma {:induction false} CallRuns(x: Context, n: nat, f: string, args: Args, lab: nat, env: Env, s: Cpu, c: Code) returns (k: nat, t: Cpu)
    requires Ready(x) && Framed(x.tab, env, s, 0) && CallIs(x, c, f, args, lab) && At(x.m.code, s.pc, c.ops)
    ensures ExprEnds(x.m, k, s, t, ApplyEv(x, n, f, x.evalArgs(n, args, env)), n, s.pc + |c.ops|)
    decreases n, 1, args, 2
  {
    var argc, ca, area := CallSplit(x, c, f, args, lab, s.pc);
    var k0, s0 := CallFrame(x.m, x.tab, env, s, area, ca.ops, argc, f);
    k, t := PassAndCall(x, n, f, args, lab, env, k0, s, s0, ca, argc, area, s.pc + |c.ops|);
  }

  /** The pieces of a calling sequence of `ops` at `pc`. */
  predicate Pieces(code: seq<Instr>, pc: int, args: seq<Instr>, argc: nat, area: nat, f: string) {
    var p1 := pc + |Reserve(area)|;
    var p2 := p1 + |args| + |LoadCode(argc)|;
    && At(code, pc, Reserve(area)) && At(code, p1, args) && At(code, p1 + |args|, LoadCode(argc))
    && At(code, p2, [Instr.Call(f)]) && At(code, p2 + 1, Release(area))
  }

  lemma CallPieces(code: seq<Instr>, pc: int, args: seq<Instr>, argc: nat, area: nat, f: string)
    requires At(code, pc, CallOps(args, argc, area, f))
    ensures Pieces(code, pc, args, argc, area, f)
    ensures |CallOps(args, argc, area, f)| == |Reserve(area)| + |args| + |LoadCode(argc)| + 1 + |Release(area)|
  {
    FiveParts(code, pc, Reserve(area), args, LoadCode(argc), [Instr.Call(f)], Release(area));
  }

  lemma {:induction false} CallFrame(m: Machine, tab: Table, env: Env, s: Cpu, area: nat, args: seq<Instr>, argc: nat, f: string) returns (k: nat, t: Cpu)
    requires Good(m) && Framed(tab, env, s, 0) && Pieces(m.code, s.pc, args, argc, area, f) && area % 16 == 0
    ensures m.run(k, s) == Running(t) && t == s.(pc := s.pc + |Reserve(area)|, rsp := s.rsp - area) && Framed(tab, env, t, area)
  {
    k, t := ReserveRuns(m, s, area);
    FrameReserved(tab, env, s, t, area);
  }

  lemma CallSplit(x: Context, c: Code, f: string, args: Args, lab: nat, pc: int) returns (argc: nat, ca: Code, area: nat)
    requires CallIs(x, c, f, args, lab) && At(x.m.code, pc, c.ops)
    ensures Find(x.p, f).Some? && argc == |Find(x.p, f).value.params| == Count(args) <= MAX_ARGS && x.argsCode(args, 0, lab) == Some(ca)
    ensures area % 16 == 0 && 8 * argc <= area && Pieces(x.m.code, pc, ca.ops, argc, area, f)
    ensures pc + |c.ops| == pc + |Reserve(area)| + |ca.ops| + |LoadCode(argc)| + 1 + |Release(area)|
  {
    argc, ca := |Find(x.p, f).value.params|, x.argsCode(args, 0, lab).value;
    area := Area(argc);
    AreaAligned(argc);
    CallPieces(x.m.code, pc, ca.ops, argc, area, f);
  }

  lemma {:induction false} PassAndCall(x: Context, n: nat, f: string, args: Args, lab: nat, env: Env, k0: nat, s: Cpu, s0: Cpu,
      ca: Code, argc: nat, area: nat, end: int) returns (k: nat, t: Cpu)
    requires Ready(x) && Framed(x.tab, env, s0, area) && 8 * argc <= area && Count(args) == argc <= MAX_ARGS
    requires x.m.run(k0, s) == Running(s0) && s0 == s.(pc := s0.pc, rsp := s.rsp - area)
    requires Find(x.p, f).Some? && argc == |Find(x.p, f).value.params| && x.argsCode(args, 0, lab) == Some(ca)
    requires s0.pc == s.pc + |Reserve(area)| && Pieces(x.m.code, s.pc, ca.ops, argc, area, f)
    requires end == s.pc + |Reserve(area)| + |ca.ops| + |LoadCode(argc)| + 1 + |Release(area)|
    ensures ExprEnds(x.m, k, s, t, ApplyEv(x, n, f, x.evalArgs(n, args, env)), n, end)
    decreases n, 1, args, 1
  {
    ArgsAre(x, n, args, 0, lab, env);
    var k1, s1 := ArgsRun(x, n, args, 0, lab, env, s0, area);
    var r := x.evalArgs(n, args, env);
    if r.Passed? {
      k, t := CallTail(x, n, f, r.vs, env, k0, s, s0, k1, s1, ca.ops, argc, area, end);
    } else {
      k, t := ArgsFail(x.m, k0, s, s0, k1, s1, r, n, s0.pc + |ca.ops|, end);
    }
  }

  lemma {:induction false} ArgsFail(m: Machine, k0: nat, s: Cpu, s0: Cpu, k1: nat, s1: Cpu, r: EvArgs, n: nat, mid: int, end: int) returns (k: nat, t: Cpu)
    requires Good(m) && m.run(k0, s) == Running(s0) && ArgsEnd(m, k1, s0, s1, r, 0, n, mid) && r.Failed? && !r.why.Val?
    ensures ExprEnds(m, k, s, t, r.why, n, end)
  {
    Compose(m, k0, k1, s);
    k, t := k0 + k1, s1;
  }

  lemma {:induction false} CallTail(x: Context, n: nat, f: string, vs: seq<Value>, env: Env, k0: nat, s: Cpu, s0: Cpu, k1: nat, s1: Cpu,
      args: seq<Instr>, argc: nat, area: nat, end: int) returns (k: nat, t: Cpu)
    requires Ready(x) && Framed(x.tab, env, s0, area) && 8 * argc <= area && |vs| == argc <= MAX_ARGS
    requires x.m.run(k0, s) == Running(s0) && s0 == s.(pc := s.pc + |Reserve(area)|, rsp := s.rsp - area)
    requires ArgsEnd(x.m, k1, s0, s1, Passed(vs), 0, n, s0.pc + |args|)
    requires Find(x.p, f).Some? && argc == |Find(x.p, f).value.params| && Pieces(x.m.code, s.pc, args, argc, area, f)
    requires end == s.pc + |Reserve(area)| + |args| + |LoadCode(argc)| + 1 + |Release(area)|
    ensures ExprEnds(x.m, k, s, t, x.enter(n, f, vs), n, end)
    decreases n, 0, 2
  {
    var k2, s2 := ArgsReady(x.m, x.tab, env, s, k1, s0, s1, vs, n, args, argc, area, f);
    var k3, s3 := InvokeRuns(x, n, f, vs, s2, area);
    k, t := CallEnd(x.m, k0, s, s0, k2, s2, k3, s3, x.enter(n, f, vs), n, area);
  }

  lemma {:induction false} ArgsReady(m: Machine, tab: Table, env: Env, s: Cpu, k1: nat, s0: Cpu, s1: Cpu, vs: seq<Value>, n: nat, args: seq<Instr>,
      argc: nat, area: nat, f: string) returns (k2: nat, s2: Cpu)
    requires Good(m) && Framed(tab, env, s0, area) && 8 * argc <= area && |vs| == argc <= MAX_ARGS
    requires s0 == s.(pc := s.pc + |Reserve(area)|, rsp := s.rsp - area) && Pieces(m.code, s.pc, args, argc, area, f)
    requires ArgsEnd(m, k1, s0, s1, Passed(vs), 0, n, s0.pc + |args|)
    ensures m.run(k2, s0) == Running(s2) && s2.pc == s0.pc + |args| + |LoadCode(argc)| && s2.rsp == s0.rsp && s2.rbp == s0.rbp
    ensures s2.rsp % 16 == 0 && InRegisters(s2, vs) && SameAbove(s0.mem, s2.mem, s.rsp)
    ensures At(m.code, s2.pc, [Instr.Call(f)]) && At(m.code, s2.pc + 1, Release(area))
  {
    k2, s2 := LoadedArgs(m, tab, env, area, k1, s0, s1, vs, n, s0.pc + |args|, argc);
    CallReady(m.code, s, s0, s2, args, argc, area, f);
  }

  lemma {:induction false} CallReady(code: seq<Instr>, s: Cpu, s0: Cpu, s2: Cpu, args: seq<Instr>, argc: nat, area: nat, f: string)
    requires Pieces(code, s.pc, args, argc, area, f) && s0 == s.(pc := s.pc + |Reserve(area)|, rsp := s.rsp - area) && 8 * argc <= area
    requires s2.pc == s0.pc + |args| + |LoadCode(argc)| && SameAbove(s0.mem, s2.mem, s0.rsp + 8 * argc)
    ensures At(code, s2.pc, [Instr.Call(f)]) && At(code, s2.pc + 1, Release(area)) && SameAbove(s0.mem, s2.mem, s.rsp)
  {
  }

  lemma FrameReserved(tab: Table, env: Env, s: Cpu, t: Cpu, area: nat)
    requires Framed(tab, env, s, 0) && t == s.(pc := t.pc, rsp := s.rsp - area) && area % 16 == 0
    ensures Framed(tab, env, t, area)
  {
    assert ShowFrame(0);
    assert (s.rsp - area) % 16 == 0 by {
      assert s.rsp == 16 * (s.rsp / 16) && area == 16 * (area / 16);
      assert s.rsp - area == 16 * (s.rsp / 16 - area / 16);
    }
  }

  /** Evaluated arguments, loaded into registers. */
  lemma {:induction false} LoadedArgs(m: Machine, tab: Table, env: Env, room: nat, k: nat, s: Cpu, t: Cpu, vs: seq<Value>, n: nat, end: int, argc: nat) returns (j: nat, u: Cpu)
    requires Good(m) && ArgsEnd(m, k, s, t, Passed(vs), 0, n, end) && |vs| == argc <= MAX_ARGS
    requires At(m.code, end, LoadCode(argc)) && Framed(tab, env, s, room)
    ensures u.rsp % 16 == 0
    ensures m.run(j, s) == Running(u) && u.pc == end + |LoadCode(argc)| && u.rsp == s.rsp && u.rbp == s.rbp
    ensures InRegisters(u, vs) && SameAbove(s.mem, u.mem, s.rsp + 8 * argc)
  {
    assert ShowFrame(0);
    var i;
    i, u := LoadArgsRun(m, t, argc);
    Compose(m, k, i, s);
    j := k + i;
    forall h | 0 <= h < |vs| ensures Word(vs[h], Get(u, ArgRegister(h))) {
      assert Get(u, ArgRegister(h)) == Peek(u.mem, t.rsp + 8 * h);
      assert Word(vs[h], Peek(t.mem, s.rsp + 8 * (0 + h)));
    }
  }

  lemma {:induction false} CallEnd(m: Machine, k0: nat, s: Cpu, s0: Cpu, k2: nat, s2: Cpu, k3: nat, s3: Cpu, r: Ev, n: nat, area: nat) returns (k: nat, t: Cpu)
    requires Good(m) && m.run(k0, s) == Running(s0) && s0 == s.(pc := s0.pc, rsp := s.rsp - area)
    requires m.run(k2, s0) == Running(s2) && s2.rsp == s0.rsp && s2.rbp == s0.rbp && SameAbove(s0.mem, s2.mem, s.rsp)
    requires CallEnds(m, k3, s2, s3, r, n, area)
    ensures ExprEnds(m, k, s, t, r, n, s2.pc + 1 + |Release(area)|)
  {
    Compose(m, k0, k2, s);
    Compose(m, k0 + k2, k3, s);
    k, t := k0 + k2 + k3, s3;
  }

  // ---- Statements ----

  /** Within a function: the frame stays, and nothing from the saved frame pointer up changes. */
  ghost predicate Kept(s: Cpu, t: Cpu) {
    t.rsp == s.rsp && t.rbp == s.rbp && SameAbove(s.mem, t.mem, s.rbp)
  }

  /** What running the code of a statement leads to. */
  ghost predicate StmtEnds(m: Machine, tab: Table, k: nat, s: Cpu, t: Cpu, r: Flow, n: nat, end: int, ls: Loops) {
    match r
    case On(env) => m.run(k, s) == Running(t) && t.pc == end && Kept(s, t) && Framed(tab, env, t, 0)
    case Exits(env) =>
      ls != [] && m.run(k, s) == Running(t) && t.pc == m.position(Free(ls[|ls| - 1].1)) && Kept(s, t) && Framed(tab, env, t, 0)
    case Repeats(env) =>
      ls != [] && m.run(k, s) == Running(t) && t.pc == m.position(Free(ls[|ls| - 1].0)) && Kept(s, t) && Framed(tab, env, t, 0)
    case Returns(v) => m.run(k, s) == Running(t) && At(m.code, t.pc, [Leave, Ret]) && Kept(s, t) && Word(v, t.rax)
    case Stops(Overflow) => m.run(k, s) == Trapped
    case Stops(Unfinished) => m.run(k, s).Running? && k >= n
    case Stops(_) => true
  }

  lemma CalmKept(tab: Table, env: Env, s: Cpu, t: Cpu)
    requires Framed(tab, env, s, 0) && Calm(s, t)
    ensures Kept(s, t) && Framed(tab, env, t, 0)
  {
    assert ShowFrame(0);
    FrameCalm(tab, env, s, t, 0);
  }

  lemma {:induction false} AfterStmt(m: Machine, tab: Table, j: nat, s: Cpu, t: Cpu, k: nat, u: Cpu, r: Flow, n: nat, end: int, ls: Loops)
    requires Good(m) && m.run(j, s) == Running(t) && Kept(s, t) && StmtEnds(m, tab, k, t, u, r, n, end, ls)
    ensures StmtEnds(m, tab, j + k, s, u, r, n, end, ls)
  {
    Compose(m, j, k, s);
  }

  /** A label behind a statement is passed. */
  lemma {:induction false} PassLabel(m: Machine, tab: Table, k: nat, s: Cpu, t: Cpu, r: Flow, n: nat, mid: int, ls: Loops) returns (j: nat, u: Cpu)
    requires Good(m) && StmtEnds(m, tab, k, s, t, r, n, mid, ls) && 0 <= mid < |m.code| && m.code[mid].Label?
    ensures StmtEnds(m, tab, j, s, u, r, n, mid + 1, ls)
  {
    j, u := k, t;
    if r.On? {
      JumpStep(m, t);
      More(m, k, s, t);
      j, u := k + 1, t.(pc := mid + 1);
      Moved(tab, r.env, s, t, u);
    }
  }

  lemma Moved(tab: Table, env: Env, s: Cpu, t: Cpu, u: Cpu)
    requires Framed(tab, env, t, 0) && Kept(s, t) && u.rsp == t.rsp && u.rbp == t.rbp && u.mem == t.mem
    ensures Framed(tab, env, u, 0) && Kept(s, u)
  {
    assert ShowFrame(0);
    FrameCalm(tab, env, t, u, 0);
  }

  /** A jump behind a statement is taken. */
  lemma {:induction false} TakeJump(m: Machine, tab: Table, k: nat, s: Cpu, t: Cpu, r: Flow, n: nat, mid: int, l: Lab, ls: Loops) returns (j: nat, u: Cpu)
    requires Good(m) && StmtEnds(m, tab, k, s, t, r, n, mid, ls) && 0 <= mid < |m.code| && m.code[mid] == Jmp(l) && m.position(l) >= 0
    ensures StmtEnds(m, tab, j, s, u, r, n, m.position(l), ls) && j >= k
  {
    j, u := k, t;
    if r.On? {
      JumpStep(m, t);
      More(m, k, s, t);
      j, u := k + 1, t.(pc := m.position(l));
      Moved(tab, r.env, s, t, u);
    }
  }

  lemma {:induction false} AssignEnd(m: Machine, tab: Table, env: Env, k: nat, s: Cpu, t: Cpu, ev: Ev, y: string, n: nat, mid: int, ls: Loops) returns (j: nat, u: Cpu)
    requires Good(m) && Framed(tab, env, s, 0) && ExprEnds(m, k, s, t, ev, n, mid) && SlotOf(tab, y) != -1
    requires At(m.code, mid, StoreVar(tab, SlotOf(tab, y)))
    ensures StmtEnds(m, tab, j, s, u, Update(tab, y, ev, env), n, mid + 1, ls)
  {
    j, u := k, t;
    if ev.Val? && Suits(tab, y, ev.v) {
      CalmKept(tab, env, s, t);
      assert ShowFrame(0);
      u := StoreRuns(m, tab, env, t, y, ev.v);
      Compose(m, k, 1, s);
      j := k + 1;
    }
  }

  lemma {:induction false} AssignRuns(x: Context, n: nat, ls: Loops, e: Expr, y: string, c: Code, lab: nat, env: Env, s: Cpu) returns (k: nat, t: Cpu)
    requires Ready(x) && Framed(x.tab, env, s, 0) && AssignIs(x, c, y, e, lab) && At(x.m.code, s.pc, c.ops)
    ensures StmtEnds(x.m, x.tab, k, s, t, Update(x.tab, y, x.eval(n, e, env), env), n, s.pc + |c.ops|, ls)
    decreases n, 1, e, 2
  {
    var ce := x.code(e, lab).value;
    AtSplit(x.m.code, s.pc, ce.ops, StoreVar(x.tab, SlotOf(x.tab, y)));
    k, t := ExprRuns(x, n, e, lab, env, s);
    k, t := AssignEnd(x.m, x.tab, env, k, s, t, x.eval(n, e, env), y, n, s.pc + |ce.ops|, ls);
  }

  lemma DoEnd(m: Machine, tab: Table, env: Env, k: nat, s: Cpu, t: Cpu, ev: Ev, n: nat, end: int, ls: Loops)
    requires Framed(tab, env, s, 0) && ExprEnds(m, k, s, t, ev, n, end)
    ensures StmtEnds(m, tab, k, s, t, DoEffect(ev, env), n, end, ls)
  {
    if ev.Val? { CalmKept(tab, env, s, t); }
  }

  lemma {:induction false} DoRuns(x: Context, n: nat, ls: Loops, f: string, args: Args, lab: nat, env: Env, s: Cpu) returns (k: nat, t: Cpu)
    requires Ready(x) && Framed(x.tab, env, s, 0) && x.stmtCode(ls, Do(f, args), lab).Whole?
    requires At(x.m.code, s.pc, x.stmtCode(ls, Do(f, args), lab).c.ops)
    ensures StmtEnds(x.m, x.tab, k, s, t, x.perform(n, Do(f, args), env), n, s.pc + |x.stmtCode(ls, Do(f, args), lab).c.ops|, ls)
    decreases n, 1, args, 3
  {
    DoIs(x, n, ls, f, args, lab, env);
    ApplyIs(x, n, f, args, lab, env);
    var c := x.stmtCode(ls, Do(f, args), lab).c;
    k, t := CallRuns(x, n, f, args, lab, env, s, c);
    DoEnd(x.m, x.tab, env, k, s, t, x.eval(n, Apply(f, args), env), n, s.pc + |c.ops|, ls);
  }

  lemma GiveEnd(m: Machine, tab: Table, env: Env, k: nat, s: Cpu, t: Cpu, ev: Ev, n: nat, mid: int, ls: Loops)
    requires Framed(tab, env, s, 0) && ExprEnds(m, k, s, t, ev, n, mid) && At(m.code, mid, [Leave, Ret])
    ensures StmtEnds(m, tab, k, s, t, GiveEffect(ev), n, mid + 2, ls)
  {
    if ev.Val? { CalmKept(tab, env, s, t); }
  }

  lemma {:induction false} GiveRuns(x: Context, n: nat, ls: Loops, value: Option<Expr>, lab: nat, env: Env, s: Cpu) returns (k: nat, t: Cpu)
    requires Ready(x) && Framed(x.tab, env, s, 0) && x.stmtCode(ls, Give(value), lab).Whole?
    requires At(x.m.code, s.pc, x.stmtCode(ls, Give(value), lab).c.ops)
    ensures StmtEnds(x.m, x.tab, k, s, t, x.perform(n, Give(value), env), n, s.pc + |x.stmtCode(ls, Give(value), lab).c.ops|, ls)
    decreases n, 1, value, 3
  {
    GiveIs(x, n, ls, value, lab, env);
    if value.None? {
      Stay(x.m, s);
      k, t := 0, s;
    } else {
      var c := x.code(value.value, lab).value;
      AtSplit(x.m.code, s.pc, c.ops, [Leave, Ret]);
      k, t := ExprRuns(x, n, value.value, lab, env, s);
      GiveEnd(x.m, x.tab, env, k, s, t, x.eval(n, value.value, env), n, s.pc + |c.ops|, ls);
    }
  }

  lemma {:induction false} JumpRuns(x: Context, n: nat, ls: Loops, st: Stmt, lab: nat, env: Env, s: Cpu) returns (k: nat, t: Cpu)
    requires Ready(x) && Framed(x.tab, env, s, 0) && (st.Exit? || st.Again?) && x.stmtCode(ls, st, lab).Whole? && LoopsOk(x.m, ls)
    requires At(x.m.code, s.pc, x.stmtCode(ls, st, lab).c.ops)
    ensures StmtEnds(x.m, x.tab, k, s, t, x.perform(n, st, env), n, s.pc + |x.stmtCode(ls, st, lab).c.ops|, ls)
  {
    JumpIs(x, n, ls, st, lab, env);
    var l := Free(if st.Exit? then ls[|ls| - 1].1 else ls[|ls| - 1].0);
    At1(x.m.code, s.pc, Jmp(l));
    JumpStep(x.m, s);
    Once(x.m, s);
    k, t := 1, s.(pc := x.m.position(l));
    CalmKept(x.tab, env, s, t);
  }

  ghost predicate LoopsOk(m: Machine, ls: Loops) {
    forall i :: 0 <= i < |ls| ==> m.position(Free(ls[i].0)) >= 0 && m.position(Free(ls[i].1)) >= 0
  }

  lemma {:induction false} StmtRuns(x: Context, n: nat, ls: Loops, st: Stmt, lab: nat, env: Env, s: Cpu) returns (k: nat, t: Cpu)
    requires Ready(x) && Framed(x.tab, env, s, 0) && LoopsOk(x.m, ls) && x.stmtCode(ls, st, lab).Whole?
    requires At(x.m.code, s.pc, x.stmtCode(ls, st, lab).c.ops)
    ensures StmtEnds(x.m, x.tab, k, s, t, x.perform(n, st, env), n, s.pc + |x.stmtCode(ls, st, lab).c.ops|, ls)
    decreases n, 1, st, 5
  {
    match st
    case Declare(y, _, init) =>
      AssignmentIs(x, n, ls, st, lab, env);
      k, t := AssignRuns(x, n, ls, init.value, y, x.stmtCode(ls, st, lab).c, lab, env, s);
    case Set(y, e) =>
      AssignmentIs(x, n, ls, st, lab, env);
      k, t := AssignRuns(x, n, ls, e, y, x.stmtCode(ls, st, lab).c, lab, env, s);
    case Do(f, args) => k, t := DoRuns(x, n, ls, f, args, lab, env, s);
    case Give(value) => k, t := GiveRuns(x, n, ls, value, lab, env, s);
    case Choose(c, yes, no) => k, t := ChooseRuns(x, n, ls, c, yes, no, lab, env, s);
    case Loop(c, body) => k, t := WhileRuns(x, n, ls, c, body, lab, env, s);
    case Group(body) =>
      GroupIs(x, n, ls, body, lab, env);
      k, t := BlockRuns(x, n, ls, body, lab, env, s);
    case _ => k, t := JumpRuns(x, n, ls, st, lab, env, s);
  }

  lemma {:induction false} BlockRuns(x: Context, n: nat, ls: Loops, b: Stmts, lab: nat, env: Env, s: Cpu) returns (k: nat, t: Cpu)
    requires Ready(x) && Framed(x.tab, env, s, 0) && LoopsOk(x.m, ls) && x.blockCode(ls, b, lab).Whole?
    requires At(x.m.code, s.pc, x.blockCode(ls, b, lab).c.ops)
    ensures StmtEnds(x.m, x.tab, k, s, t, x.performAll(n, b, env), n, s.pc + |x.blockCode(ls, b, lab).c.ops|, ls)
    decreases n, 1, b, 4
  {
    BlockIs(x, n, ls, b, lab, env);
    if b.Empty? {
      Stay(x.m, s);
      k, t := 0, s;
    } else {
      var c := x.stmtCode(ls, b.s, lab).c;
      var rest := x.blockCode(ls, b.rest, c.next).c;
      AtSplit(x.m.code, s.pc, c.ops, rest.ops);
      k, t := StmtRuns(x, n, ls, b.s, lab, env, s);
      var r := x.perform(n, b.s, env);
      if r.On? {
        var j, u := BlockRuns(x, n, ls, b.rest, c.next, r.env, t);
        AfterStmt(x.m, x.tab, k, s, t, j, u, x.performAll(n, b.rest, r.env), n, s.pc + |c.ops| + |rest.ops|, ls);
        k, t := k + j, u;
      }
    }
  }

  // ---- Branches ----

  /** Where the pieces of a branch are. */
  ghost predicate ChooseAt(m: Machine, pc: int, cc: Code, cy: Code, cn: Code) {
    var p1 := pc + |cc.ops|;
    var p2 := p1 + 2 + |cy.ops|;
    var p3 := p2 + 2 + |cn.ops|;
    && At(m.code, pc, cc.ops) && At(m.code, p1, [TestL, Jcc(E, Free(cc.next))]) && At(m.code, p1 + 2, cy.ops) && 0 <= p2
    && p3 < |m.code| && m.code[p2] == Jmp(Free(cc.next + 1)) && m.code[p2 + 1] == Label(Free(cc.next)) && At(m.code, p2 + 2, cn.ops)
    && m.code[p3] == Label(Free(cc.next + 1)) && m.position(Free(cc.next)) == p2 + 1 && m.position(Free(cc.next + 1)) == p3
  }

  lemma {:induction false} ChooseSplit(m: Machine, pc: int, c: Code, cc: Code, cy: Code, cn: Code)
    requires Good(m) && ChooseIs(c, cc, cy, cn) && At(m.code, pc, c.ops)
    ensures ChooseAt(m, pc, cc, cy, cn) && |c.ops| == |cc.ops| + |cy.ops| + |cn.ops| + 5
  {
    var test, turn, last := [TestL, Jcc(E, Free(cc.next))], [Jmp(Free(cc.next + 1)), Label(Free(cc.next))], [Label(Free(cc.next + 1))];
    AtSplit(m.code, pc, cc.ops + test + cy.ops + turn + cn.ops, last);
    FiveParts(m.code, pc, cc.ops, test, cy.ops, turn, cn.ops);
    var p2 := pc + |cc.ops| + 2 + |cy.ops|;
    At2(m.code, p2, turn[0], turn[1]);
    At1(m.code, p2 + 2 + |cn.ops|, last[0]);
    LabelAt(m, p2 + 1, Free(cc.next));
    LabelAt(m, p2 + 2 + |cn.ops|, Free(cc.next + 1));
  }

  /** The condition of a branch or a loop, tested. */
  lemma {:induction false} ConditionStep(m: Machine, tab: Table, env: Env, k: nat, s: Cpu, t: Cpu, b: bool, l: nat, n: nat, mid: int) returns (j: nat, u: Cpu)
    requires Good(m) && Framed(tab, env, s, 0) && ExprEnds(m, k, s, t, Val(BoolV(b)), n, mid)
    requires At(m.code, mid, [TestL, Jcc(E, Free(l))]) && m.position(Free(l)) >= 0
    ensures m.run(j, s) == Running(u) && u.pc == (if b then mid + 2 else m.position(Free(l))) && Kept(s, u) && Framed(tab, env, u, 0)
    ensures j >= k
  {
    var h;
    h, u := Branch(m, t, E, l, b);
    Compose(m, k, h, s);
    CalmTrans(s, t, u);
    CalmKept(tab, env, s, u);
    j := k + h;
  }

  lemma ConditionStops(m: Machine, tab: Table, k: nat, s: Cpu, t: Cpu, r: Ev, n: nat, mid: int, end: int, ls: Loops)
    requires ExprEnds(m, k, s, t, r, n, mid) && !(r.Val? && r.v.BoolV?)
    ensures StmtEnds(m, tab, k, s, t, Stops(if r.Val? then Stuck else r), n, end, ls)
  {
  }

  lemma {:induction false} ChooseRuns(x: Context, n: nat, ls: Loops, c: Expr, yes: Stmts, no: Stmts, lab: nat, env: Env, s: Cpu) returns (k: nat, t: Cpu)
    requires Ready(x) && Framed(x.tab, env, s, 0) && LoopsOk(x.m, ls) && x.stmtCode(ls, Choose(c, yes, no), lab).Whole?
    requires At(x.m.code, s.pc, x.stmtCode(ls, Choose(c, yes, no), lab).c.ops)
    ensures StmtEnds(x.m, x.tab, k, s, t, x.perform(n, Choose(c, yes, no), env), n, s.pc + |x.stmtCode(ls, Choose(c, yes, no), lab).c.ops|, ls)
    decreases n, 1, Choose(c, yes, no), 3
  {
    ChooseCodeIs(x, ls, c, yes, no, lab);
    ChooseMeans(x, n, c, yes, no, env);
    var cc := x.code(c, lab).value;
    var cy := x.blockCode(ls, yes, cc.next + 2).c;
    var cn := x.blockCode(ls, no, cy.next).c;
    ChooseSplit(x.m, s.pc, x.stmtCode(ls, Choose(c, yes, no), lab).c, cc, cy, cn);
    var end := s.pc + |cc.ops| + |cy.ops| + |cn.ops| + 5;
    k, t := ExprRuns(x, n, c, lab, env, s);
    var r := x.eval(n, c, env);
    if r.Val? && r.v.BoolV? {
      var j, u := ConditionStep(x.m, x.tab, env, k, s, t, r.v.b, cc.next, n, s.pc + |cc.ops|);
      if r.v.b {
        k, t := YesRuns(x, n, ls, yes, env, s, cc, cy, cn, j, u);
      } else {
        k, t := NoRuns(x, n, ls, no, env, s, cc, cy, cn, j, u);
      }
    } else {
      ConditionStops(x.m, x.tab, k, s, t, r, n, s.pc + |cc.ops|, end, ls);
    }
  }

  lemma {:induction false} YesRuns(x: Context, n: nat, ls: Loops, yes: Stmts, env: Env, s: Cpu, cc: Code, cy: Code, cn: Code, j: nat, u: Cpu)
      returns (k: nat, t: Cpu)
    requires Ready(x) && Framed(x.tab, env, u, 0) && LoopsOk(x.m, ls) && ChooseAt(x.m, s.pc, cc, cy, cn)
    requires x.blockCode(ls, yes, cc.next + 2) == Whole(cy) && x.m.run(j, s) == Running(u) && Kept(s, u) && u.pc == s.pc + |cc.ops| + 2
    ensures StmtEnds(x.m, x.tab, k, s, t, x.performAll(n, yes, env), n, s.pc + |cc.ops| + |cy.ops| + |cn.ops| + 5, ls)
    decreases n, 1, yes, 5
  {
    var i, w := BlockRuns(x, n, ls, yes, cc.next + 2, env, u);
    k, t := YesEnd(x.m, x.tab, s.pc, cc, cy, cn, j, s, i, u, w, x.performAll(n, yes, env), n, ls);
  }

  lemma {:induction false} NoRuns(x: Context, n: nat, ls: Loops, no: Stmts, env: Env, s: Cpu, cc: Code, cy: Code, cn: Code, j: nat, u: Cpu)
      returns (k: nat, t: Cpu)
    requires Ready(x) && Framed(x.tab, env, u, 0) && LoopsOk(x.m, ls) && ChooseAt(x.m, s.pc, cc, cy, cn)
    requires x.blockCode(ls, no, cy.next) == Whole(cn) && x.m.run(j, s) == Running(u) && Kept(s, u) && u.pc == x.m.position(Free(cc.next))
    ensures StmtEnds(x.m, x.tab, k, s, t, x.performAll(n, no, env), n, s.pc + |cc.ops| + |cy.ops| + |cn.ops| + 5, ls)
    decreases n, 1, no, 5
  {
    var h, v := NoStart(x.m, x.tab, env, s.pc, cc, cy, cn, j, s, u);
    var i, w := BlockRuns(x, n, ls, no, cy.next, env, v);
    k, t := NoEnd(x.m, x.tab, s.pc, cc, cy, cn, h, s, i, v, w, x.performAll(n, no, env), n, ls);
  }

  lemma {:induction false} YesEnd(m: Machine, tab: Table, pc: int, cc: Code, cy: Code, cn: Code, h: nat, s0: Cpu, k: nat, s: Cpu, t: Cpu, r: Flow, n: nat, ls: Loops)
      returns (j: nat, u: Cpu)
    requires Good(m) && ChooseAt(m, pc, cc, cy, cn) && StmtEnds(m, tab, k, s, t, r, n, pc + |cc.ops| + 2 + |cy.ops|, ls)
    requires m.run(h, s0) == Running(s) && Kept(s0, s)
    ensures StmtEnds(m, tab, j, s0, u, r, n, pc + |cc.ops| + |cy.ops| + |cn.ops| + 5, ls)
  {
    var p2 := pc + |cc.ops| + 2 + |cy.ops|;
    j, u := TakeJump(m, tab, k, s, t, r, n, p2, Free(cc.next + 1), ls);
    j, u := PassLabel(m, tab, j, s, u, r, n, p2 + 2 + |cn.ops|, ls);
    AfterStmt(m, tab, h, s0, s, j, u, r, n, p2 + 3 + |cn.ops|, ls);
    j := h + j;
  }

  lemma {:induction false} NoEnd(m: Machine, tab: Table, pc: int, cc: Code, cy: Code, cn: Code, h: nat, s0: Cpu, k: nat, s: Cpu, t: Cpu, r: Flow, n: nat, ls: Loops)
      returns (j: nat, u: Cpu)
    requires Good(m) && ChooseAt(m, pc, cc, cy, cn) && StmtEnds(m, tab, k, s, t, r, n, pc + |cc.ops| + |cy.ops| + 4 + |cn.ops|, ls)
    requires m.run(h, s0) == Running(s) && Kept(s0, s)
    ensures StmtEnds(m, tab, j, s0, u, r, n, pc + |cc.ops| + |cy.ops| + |cn.ops| + 5, ls)
  {
    var p3 := pc + |cc.ops| + |cy.ops| + 4 + |cn.ops|;
    j, u := PassLabel(m, tab, k, s, t, r, n, p3, ls);
    AfterStmt(m, tab, h, s0, s, j, u, r, n, p3 + 1, ls);
    j := h + j;
  }

  lemma {:induction false} NoStart(m: Machine, tab: Table, env: Env, pc: int, cc: Code, cy: Code, cn: Code, k: nat, s: Cpu, t: Cpu) returns (j: nat, u: Cpu)
    requires Good(m) && ChooseAt(m, pc, cc, cy, cn) && m.run(k, s) == Running(t) && t.pc == m.position(Free(cc.next))
    requires Kept(s, t) && Framed(tab, env, t, 0)
    ensures m.run(j, s) == Running(u) && u.pc == pc + |cc.ops| + |cy.ops| + 4 && Kept(s, u) && Framed(tab, env, u, 0)
  {
    JumpStep(m, t);
    More(m, k, s, t);
    j, u := k + 1, t.(pc := t.pc + 1);
    Moved(tab, env, s, t, u);
  }

  // ---- Loops ----

  ghost predicate LoopAt(m: Machine, pc: int, cc: Code, cb: Code, lab: nat) {
    var p1 := pc + 1 + |cc.ops|;
    var p2 := p1 + 2 + |cb.ops|;
    && 0 <= pc && p2 + 1 < |m.code| && m.code[pc] == Label(Free(lab)) && At(m.code, pc + 1, cc.ops)
    && At(m.code, p1, [TestL, Jcc(E, Free(lab + 1))]) && At(m.code, p1 + 2, cb.ops)
    && m.code[p2] == Jmp(Free(lab)) && m.code[p2 + 1] == Label(Free(lab + 1))
    && m.position(Free(lab)) == pc && m.position(Free(lab + 1)) == p2 + 1
  }

  lemma {:induction false} LoopSplit(m: Machine, pc: int, c: Code, cc: Code, cb: Code, lab: nat)
    requires Good(m) && LoopIs(c, cc, cb, lab) && At(m.code, pc, c.ops)
    ensures LoopAt(m, pc, cc, cb, lab) && |c.ops| == |cc.ops| + |cb.ops| + 5
  {
    var first, test, last := [Label(Free(lab))], [TestL, Jcc(E, Free(lab + 1))], [Jmp(Free(lab)), Label(Free(lab + 1))];
    FiveParts(m.code, pc, first, cc.ops, test, cb.ops, last);
    var p2 := pc + 3 + |cc.ops| + |cb.ops|;
    At1(m.code, pc, first[0]);
    At2(m.code, p2, last[0], last[1]);
    LabelAt(m, pc, Free(lab));
    LabelAt(m, p2 + 1, Free(lab + 1));
  }

  lemma {:induction false} WhileRuns(x: Context, n: nat, ls: Loops, c: Expr, body: Stmts, lab: nat, env: Env, s: Cpu) returns (k: nat, t: Cpu)
    requires Ready(x) && Framed(x.tab, env, s, 0) && LoopsOk(x.m, ls) && x.stmtCode(ls, Loop(c, body), lab).Whole?
    requires At(x.m.code, s.pc, x.stmtCode(ls, Loop(c, body), lab).c.ops)
    ensures StmtEnds(x.m, x.tab, k, s, t, x.perform(n, Loop(c, body), env), n, s.pc + |x.stmtCode(ls, Loop(c, body), lab).c.ops|, ls)
    decreases n, 1, Loop(c, body), 4
  {
    LoopCodeIs(x, ls, c, body, lab);
    LoopMeans(x, n, c, body, env);
    var cc := x.code(c, lab + 2).value;
    var cb := x.blockCode(ls + [(lab, lab + 1)], body, cc.next).c;
    LoopSplit(x.m, s.pc, x.stmtCode(ls, Loop(c, body), lab).c, cc, cb, lab);
    k, t := LoopRuns(x, n, ls, c, body, lab, env, s, cc, cb);
  }

  /** From the start label to the condition. */
  lemma {:induction false} LoopStart(m: Machine, tab: Table, env: Env, s: Cpu, cc: Code, cb: Code, lab: nat) returns (t: Cpu)
    requires Good(m) && LoopAt(m, s.pc, cc, cb, lab) && Framed(tab, env, s, 0)
    ensures m.run(1, s) == Running(t) && t.pc == s.pc + 1 && Calm(s, t) && Framed(tab, env, t, 0)
  {
    JumpStep(m, s);
    Once(m, s);
    t := s.(pc := s.pc + 1);
    FramedCalm(tab, env, s, t, 0);
  }

  /** Leaving the loop. */
  lemma {:induction false} LoopOut(m: Machine, tab: Table, env: Env, pc: int, cc: Code, cb: Code, lab: nat, k: nat, s: Cpu, t: Cpu, n: nat, ls: Loops)
      returns (j: nat, u: Cpu)
    requires Good(m) && LoopAt(m, pc, cc, cb, lab) && m.run(k, s) == Running(t) && t.pc == m.position(Free(lab + 1))
    requires Kept(s, t) && Framed(tab, env, t, 0)
    ensures StmtEnds(m, tab, j, s, u, On(env), n, pc + |cc.ops| + |cb.ops| + 5, ls)
  {
    JumpStep(m, t);
    More(m, k, s, t);
    j, u := k + 1, t.(pc := t.pc + 1);
    Moved(tab, env, s, t, u);
  }

  /** The end of the body leads back to the start label. */
  lemma {:induction false} LoopBack(m: Machine, tab: Table, pc: int, cc: Code, cb: Code, lab: nat, k: nat, s: Cpu, t: Cpu, r: Flow, n: nat, ls: Loops)
      returns (j: nat, u: Cpu)
    requires Good(m) && LoopAt(m, pc, cc, cb, lab) && (r.On? || r.Repeats?)
    requires StmtEnds(m, tab, k, s, t, r, n, pc + 3 + |cc.ops| + |cb.ops|, ls + [(lab, lab + 1)])
    ensures m.run(j, s) == Running(u) && u.pc == pc && Kept(s, u) && Framed(tab, r.env, u, 0) && j >= k
  {
    if r.On? {
      j, u := TakeJump(m, tab, k, s, t, r, n, pc + 3 + |cc.ops| + |cb.ops|, Free(lab), ls + [(lab, lab + 1)]);
    } else {
      j, u := k, t;
    }
  }

  /** Results that leave an inner loop pass through it. */
  lemma LoopThrough(m: Machine, tab: Table, k: nat, s: Cpu, t: Cpu, r: Flow, n: nat, mid: int, end: int, inner: Loops, ls: Loops)
    requires StmtEnds(m, tab, k, s, t, r, n, mid, inner) && (r.Returns? || r.Stops?)
    ensures StmtEnds(m, tab, k, s, t, r, n, end, ls)
  {
  }

  /** One more iteration costs at least one step. */
  lemma {:induction false} LoopAgain(m: Machine, tab: Table, j: nat, s: Cpu, t: Cpu, k: nat, u: Cpu, r: Flow, n: nat, end: int, ls: Loops)
    requires Good(m) && j >= 1 && n >= 1 && m.run(j, s) == Running(t) && Kept(s, t) && StmtEnds(m, tab, k, t, u, r, n - 1, end, ls)
    ensures StmtEnds(m, tab, j + k, s, u, r, n, end, ls)
  {
    Compose(m, j, k, s);
  }

  lemma {:induction false} LoopRuns(x: Context, n: nat, ls: Loops, c: Expr, body: Stmts, lab: nat, env: Env, s: Cpu, cc: Code, cb: Code)
      returns (k: nat, t: Cpu)
    requires Ready(x) && Framed(x.tab, env, s, 0) && LoopsOk(x.m, ls) && LoopAt(x.m, s.pc, cc, cb, lab)
    requires x.code(c, lab + 2) == Some(cc) && x.blockCode(ls + [(lab, lab + 1)], body, cc.next) == Whole(cb)
    ensures StmtEnds(x.m, x.tab, k, s, t, x.performLoop(n, c, body, env), n, s.pc + |cc.ops| + |cb.ops| + 5, ls)
    decreases n, 1, Loop(c, body), 3
  {
    LoopMeans(x, n, c, body, env);
    var end := s.pc + |cc.ops| + |cb.ops| + 5;
    var s1 := LoopStart(x.m, x.tab, env, s, cc, cb, lab);
    var i, u := ExprRuns(x, n, c, lab + 2, env, s1);
    var r := x.eval(n, c, env);
    After(x.m, 1, s, s1, i, u, r, n, s.pc + 1 + |cc.ops|);
    k, t := 1 + i, u;
    if r.Val? && r.v.BoolV? {
      var j, w := ConditionStep(x.m, x.tab, env, k, s, t, r.v.b, lab + 1, n, s.pc + 1 + |cc.ops|);
      if !r.v.b {
        k, t := LoopOut(x.m, x.tab, env, s.pc, cc, cb, lab, j, s, w, n, ls);
      } else if n == 0 {
        k, t := j, w;
      } else {
        k, t := IterationRuns(x, n, ls, c, body, lab, env, s, cc, cb, j, w);
      }
    } else {
      ConditionStops(x.m, x.tab, k, s, t, r, n, s.pc + 1 + |cc.ops|, end, ls);
    }
  }

  lemma {:induction false} IterationRuns(x: Context, n: nat, ls: Loops, c: Expr, body: Stmts, lab: nat, env: Env, s: Cpu, cc: Code, cb: Code,
      j: nat, w: Cpu) returns (k: nat, t: Cpu)
    requires Ready(x) && Framed(x.tab, env, w, 0) && LoopsOk(x.m, ls) && LoopAt(x.m, s.pc, cc, cb, lab) && n > 0
    requires x.code(c, lab + 2) == Some(cc) && x.blockCode(ls + [(lab, lab + 1)], body, cc.next) == Whole(cb)
    requires j >= 1 && x.m.run(j, s) == Running(w) && Kept(s, w) && w.pc == s.pc + 3 + |cc.ops|
    ensures StmtEnds(x.m, x.tab, k, s, t, IterateFlow(x, n - 1, c, body, x.performAll(n, body, env)), n, s.pc + |cc.ops| + |cb.ops| + 5, ls)
    decreases n, 1, Loop(c, body), 2
  {
    k, t := BodyRuns(x, n, ls, body, lab, env, s, cc, cb, j, w);
    var r := x.performAll(n, body, env);
    if r.On? || r.Repeats? {
      k, t := AgainRuns(x, n, ls, c, body, lab, r, s, cc, cb, k, t);
    } else {
      k, t := LoopLeave(x.m, x.tab, s.pc, cc, cb, lab, k, s, t, r, n, ls);
    }
  }

  lemma {:induction false} BodyRuns(x: Context, n: nat, ls: Loops, body: Stmts, lab: nat, env: Env, s: Cpu, cc: Code, cb: Code, j: nat, w: Cpu)
      returns (k: nat, t: Cpu)
    requires Ready(x) && Framed(x.tab, env, w, 0) && LoopsOk(x.m, ls) && LoopAt(x.m, s.pc, cc, cb, lab)
    requires x.blockCode(ls + [(lab, lab + 1)], body, cc.next) == Whole(cb)
    requires x.m.run(j, s) == Running(w) && Kept(s, w) && w.pc == s.pc + 3 + |cc.ops|
    ensures k >= j && StmtEnds(x.m, x.tab, k, s, t, x.performAll(n, body, env), n, s.pc + 3 + |cc.ops| + |cb.ops|, ls + [(lab, lab + 1)])
    decreases n, 1, body, 5
  {
    MoreLoops(x.m, ls, s.pc, cc, cb, lab);
    var i, u := BlockRuns(x, n, ls + [(lab, lab + 1)], body, cc.next, env, w);
    AfterStmt(x.m, x.tab, j, s, w, i, u, x.performAll(n, body, env), n, s.pc + 3 + |cc.ops| + |cb.ops|, ls + [(lab, lab + 1)]);
    k, t := j + i, u;
  }

  lemma {:induction false} AgainRuns(x: Context, n: nat, ls: Loops, c: Expr, body: Stmts, lab: nat, r: Flow, s: Cpu, cc: Code, cb: Code, j: nat, w: Cpu)
      returns (k: nat, t: Cpu)
    requires Ready(x) && LoopsOk(x.m, ls) && LoopAt(x.m, s.pc, cc, cb, lab) && n > 0 && j >= 1 && (r.On? || r.Repeats?)
    requires x.code(c, lab + 2) == Some(cc) && x.blockCode(ls + [(lab, lab + 1)], body, cc.next) == Whole(cb)
    requires StmtEnds(x.m, x.tab, j, s, w, r, n, s.pc + 3 + |cc.ops| + |cb.ops|, ls + [(lab, lab + 1)])
    ensures StmtEnds(x.m, x.tab, k, s, t, x.performLoop(n - 1, c, body, r.env), n, s.pc + |cc.ops| + |cb.ops| + 5, ls)
    decreases n, 1, Loop(c, body), 1
  {
    var h, v := LoopBack(x.m, x.tab, s.pc, cc, cb, lab, j, s, w, r, n, ls);
    var g, z := LoopRuns(x, n - 1, ls, c, body, lab, r.env, v, cc, cb);
    LoopAgain(x.m, x.tab, h, s, v, g, z, x.performLoop(n - 1, c, body, r.env), n, s.pc + |cc.ops| + |cb.ops| + 5, ls);
    k, t := h + g, z;
  }

  /** A body that does not lead to another iteration. */
  lemma {:induction false} LoopLeave(m: Machine, tab: Table, pc: int, cc: Code, cb: Code, lab: nat, j: nat, s: Cpu, w: Cpu, r: Flow, n: nat, ls: Loops)
      returns (k: nat, t: Cpu)
    requires Good(m) && LoopAt(m, pc, cc, cb, lab) && !r.On? && !r.Repeats?
    requires StmtEnds(m, tab, j, s, w, r, n, pc + 3 + |cc.ops| + |cb.ops|, ls + [(lab, lab + 1)])
    ensures StmtEnds(m, tab, k, s, t, if r.Exits? then On(r.env) else r, n, pc + |cc.ops| + |cb.ops| + 5, ls)
  {
    if r.Exits? {
      k, t := LoopOut(m, tab, r.env, pc, cc, cb, lab, j, s, w, n, ls);
    } else {
      LoopThrough(m, tab, j, s, w, r, n, pc + 3 + |cc.ops| + |cb.ops|, pc + |cc.ops| + |cb.ops| + 5, ls + [(lab, lab + 1)], ls);
      k, t := j, w;
    }
  }

  lemma MoreLoops(m: Machine, ls: Loops, pc: int, cc: Code, cb: Code, lab: nat)
    requires LoopsOk(m, ls) && LoopAt(m, pc, cc, cb, lab)
    ensures LoopsOk(m, ls + [(lab, lab + 1)])
  {
  }

  // ---- Functions ----

  /** The first three instructions of a function: link the frames. */
  lemma {:induction false} LinkFrames(m: Machine, s: Cpu, f: string) returns (k: nat, t: Cpu)
    requires Good(m) && At(m.code, s.pc, [Label(Fn(f)), PushRbp, MovRbpSp]) && s.rsp % 16 == 8
    ensures k >= 1 && m.run(k, s) == Running(t) && t == s.(pc := s.pc + 3, rsp := s.rsp - 8, rbp := s.rsp - 8, mem := s.mem[s.rsp - 8 := s.rbp])
    ensures t.rbp % 16 == 0
  {
    At3(m.code, s.pc, Label(Fn(f)), PushRbp, MovRbpSp);
    var t1 := s.(pc := s.pc + 1);
    var t2 := t1.(pc := s.pc + 2, rsp := s.rsp - 8, mem := s.mem[s.rsp - 8 := s.rbp]);
    JumpStep(m, s);
    Once(m, s);
    assert (s.rsp - 8) % 16 == 0;
    Aligned(s.rsp - 8, 0);
    MemoryStep(m, t1, PushRbp);
    More(m, 1, s, t1);
    MemoryStep(m, t2, MovRbpSp);
    More(m, 2, s, t2);
    k, t := 3, t2.(pc := s.pc + 3, rbp := s.rsp - 8);
  }

  lemma {:induction false} BindFacts(tab: Table, ps: seq<string>, vs: seq<Value>, j: nat)
    requires Bind(tab, ps, vs).Some? && DistinctNames(ps) && j < |ps|
    ensures |vs| == |ps| && ps[j] in Bind(tab, ps, vs).value && Bind(tab, ps, vs).value[ps[j]] == vs[j] && Suits(tab, ps[j], vs[j])
    decreases |ps|
  {
    if j > 0 {
      assert ps[j] == ps[1..][j - 1] && vs[j] == vs[1..][j - 1];
      BindFacts(tab, ps[1..], vs[1..], j - 1);
    }
  }

  lemma {:induction false} BoundNames(tab: Table, ps: seq<string>, vs: seq<Value>, y: string)
    requires Bind(tab, ps, vs).Some? && y in Bind(tab, ps, vs).value
    ensures y in ps
    decreases |ps|
  {
    if ps[0] != y { BoundNames(tab, ps[1..], vs[1..], y); }
  }

  /** The saved arguments are the bound parameters. */
  lemma {:induction false} SavedSlots(fn: Func, s: Cpu, mem: Memory, vs: seq<Value>)
    requires DistinctNames(fn.params) && Bind(TableOf(fn), fn.params, vs).Some? && InRegisters(s, vs) && Saved(s, mem, |fn.params|)
    ensures Slots(TableOf(fn), Bind(TableOf(fn), fn.params, vs).value, mem, s.rbp) && Separate(TableOf(fn))
  {
    TableFacts(fn);
    var tab := TableOf(fn);
    var env := Bind(tab, fn.params, vs).value;
    forall i | 0 <= i < |tab| && Nth(tab, i).x in env ensures SlotHolds(tab[i].wide, Peek(mem, s.rbp + Disp(i)), env[tab[i].x]) {
      BoundNames(tab, fn.params, vs, tab[i].x);
      var j :| 0 <= j < |fn.params| && fn.params[j] == tab[i].x;
      BindFacts(tab, fn.params, vs, j);
      assert tab[j].x == fn.params[j];
      assert i == j;
      if vs[j].BoolV? { LowBit(vs[j].b); }
    }
  }

  lemma FrameSize(tab: Table)
    ensures Frame(tab) % 16 == 0 && Frame(tab) >= 8 * |tab|
  {
    var h := (|tab| + |tab| % 2) / 2;
    assert Frame(tab) == 16 * h;
  }

  lemma PrologueParts(code: seq<Instr>, pc: int, fn: Func, a: seq<Instr>)
    requires At(code, pc, Prologue(fn) + a)
    ensures var r := Reserve(Frame(TableOf(fn)));
      && At(code, pc, [Label(Fn(fn.name)), PushRbp, MovRbpSp]) && At(code, pc + 3, r) && At(code, pc + 3 + |r|, SaveCode(|fn.params|))
      && At(code, pc + |Prologue(fn)|, a) && |Prologue(fn)| == 3 + |r| + |SaveCode(|fn.params|)|
  {
    var link, r := [Label(Fn(fn.name)), PushRbp, MovRbpSp], Reserve(Frame(TableOf(fn)));
    AtSplit(code, pc, Prologue(fn), a);
    AtSplit(code, pc, link + r, SaveCode(|fn.params|));
    AtSplit(code, pc, link, r);
  }

  /** The prologue builds the frame of the callee. */
  lemma {:induction false} PrologueRuns(m: Machine, fn: Func, vs: seq<Value>, s: Cpu, body: seq<Instr>) returns (k: nat, t: Cpu)
    requires Good(m) && At(m.code, s.pc, Prologue(fn) + body) && s.rsp % 16 == 8 && |fn.params| <= MAX_ARGS
    requires DistinctNames(fn.params) && Bind(TableOf(fn), fn.params, vs).Some? && InRegisters(s, vs)
    ensures k >= 1 && m.run(k, s) == Running(t) && t.pc == s.pc + |Prologue(fn)| && t.rbp == s.rsp - 8
    ensures Framed(TableOf(fn), Bind(TableOf(fn), fn.params, vs).value, t, 0)
    ensures Peek(t.mem, t.rbp) == s.rbp && SameAbove(s.mem, t.mem, s.rsp)
  {
    PrologueParts(m.code, s.pc, fn, body);
    FrameSize(TableOf(fn));
    var k1, t1 := LinkFrames(m, s, fn.name);
    var k2, t2 := ReserveRuns(m, t1, Frame(TableOf(fn)));
    Compose(m, k1, k2, s);
    assert m.run(k1 + k2, s) == Running(t2);
    var k3, t3 := SaveArgsRun(m, t2, |fn.params|);
    Compose(m, k1 + k2, k3, s);
    k, t := k1 + k2 + k3, t3;
    ParamsKept(s, t2, vs);
    SavedSlots(fn, t2, t3.mem, vs);
    FrameBuilt(fn, s.rsp, t3, vs);
  }

  lemma {:induction false} ParamsKept(s: Cpu, t: Cpu, vs: seq<Value>)
    requires InRegisters(s, vs) && t == s.(pc := t.pc, rsp := t.rsp, rbp := t.rbp, mem := t.mem)
    ensures InRegisters(t, vs)
  {
    forall j | 0 <= j < |vs| ensures Get(t, ArgRegister(j)) == Get(s, ArgRegister(j)) { SameParam(s, t, j); }
  }

  lemma {:induction false} SameParam(s: Cpu, t: Cpu, j: nat)
    requires t == s.(pc := t.pc, rsp := t.rsp, rbp := t.rbp, mem := t.mem)
    ensures Get(t, ArgRegister(j)) == Get(s, ArgRegister(j))
  {
  }

  lemma {:induction false} FrameBuilt(fn: Func, top: int, t: Cpu, vs: seq<Value>)
    requires top % 16 == 8 && t.rbp == top - 8 && t.rsp == t.rbp - Frame(TableOf(fn)) && Bind(TableOf(fn), fn.params, vs).Some?
    requires Slots(TableOf(fn), Bind(TableOf(fn), fn.params, vs).value, t.mem, t.rbp) && Separate(TableOf(fn))
    ensures Framed(TableOf(fn), Bind(TableOf(fn), fn.params, vs).value, t, 0)
  {
    FrameSize(TableOf(fn));
    assert t.rbp % 16 == 0;
    var f := Frame(TableOf(fn));
    assert (t.rbp - f) % 16 == 0 by {
      assert t.rbp == 16 * (t.rbp / 16) && f == 16 * (f / 16);
      assert t.rbp - f == 16 * (t.rbp / 16 - f / 16);
    }
  }

  /** Leaving a function restores the frame of the caller. */
  lemma {:induction false} EpilogueRuns(m: Machine, s: Cpu, top: int) returns (t: Cpu)
    requires Good(m) && At(m.code, s.pc, [Leave, Ret]) && s.rbp == top - 8 && top % 16 == 8
    ensures m.run(2, s) == Running(t)
    ensures t == s.(pc := Peek(s.mem, top), rsp := top + 8, rbp := Peek(s.mem, top - 8))
  {
    At2(m.code, s.pc, Leave, Ret);
    assert (top - 8) % 16 == 0;
    Aligned(top - 8, 0);
    Aligned(top - 8, 1);
    var u := s.(pc := s.pc + 1, rsp := top, rbp := Peek(s.mem, top - 8));
    MemoryStep(m, s, Leave);
    Once(m, s);
    RetStep(m, u);
    More(m, 1, s, u);
    t := u.(pc := Peek(s.mem, top), rsp := top + 8);
  }

  lemma {:induction false} RetStep(m: Machine, s: Cpu)
    requires Good(m) && 0 <= s.pc < |m.code| && m.code[s.pc] == Ret && s.rsp % 8 == 0
    ensures m.step(s) == Running(s.(pc := Peek(s.mem, s.rsp), rsp := s.rsp + 8))
  {
    assert Show(0);
    assert m.step(s) == Step(m.code, s);
  }

  /** From the end of the body back to the caller. */
  lemma {:induction false} ReturnEnd(m: Machine, tab: Table, k0: nat, s: Cpu, s0: Cpu, k: nat, t: Cpu, r: Flow, n: nat, end: int) returns (j: nat, u: Cpu)
    requires Good(m) && k0 >= 1 && n >= 1 && m.run(k0, s) == Running(s0) && s0.rbp == s.rsp - 8 && s.rsp % 16 == 8
    requires Peek(s0.mem, s0.rbp) == s.rbp && SameAbove(s.mem, s0.mem, s.rsp)
    requires StmtEnds(m, tab, k, s0, t, r, n - 1, end, []) && At(m.code, end, [Leave, Ret])
    ensures FuncEnds(m, j, s, u, ResultOf(r), n)
  {
    Compose(m, k0, k, s);
    j, u := k0 + k, t;
    if r.On? || r.Returns? {
      var w := EpilogueRuns(m, t, s.rsp);
      Compose(m, j, 2, s);
      assert Peek(t.mem, s.rsp - 8) == s.rbp && Peek(t.mem, s.rsp) == Peek(s.mem, s.rsp);
      j, u := j + 2, w;
    }
  }

  function ResultOf(r: Flow): Ev {
    match r
    case Returns(v) => Val(v)
    case On(_) => Val(Opaque(0))
    case Stops(why) => if why.Val? then Stuck else why
    case _ => Stuck
  }

  lemma {:induction false} FuncRuns(x: Context, n: nat, fn: Func, lab: nat, vs: seq<Value>, s: Cpu) returns (k: nat, t: Cpu)
    requires Ready(x) && FuncPlaced(x.p, x.m, fn, lab) && Find(x.p, fn.name) == Some(fn)
    requires s.pc == x.m.position(Fn(fn.name)) && s.rsp % 16 == 8 && |vs| == |fn.params| && InRegisters(s, vs)
    ensures FuncEnds(x.m, k, s, t, x.enter(n, fn.name, vs), n)
    decreases n, 0, 0
  {
    var y := Make(x.p, x.m, TableOf(fn));
    MakeKnown(x.p, x.m, TableOf(fn));
    EnterIs(x, y, n, fn, vs);
    Stay(x.m, s);
    k, t := 0, s;
    if n > 0 && Bind(TableOf(fn), fn.params, vs).Some? {
      var env := Bind(TableOf(fn), fn.params, vs).value;
      var c := BodyIs(x.p, x.m, y, fn, lab);
      var k0, s0 := PrologueRuns(x.m, fn, vs, s, c.ops + [Leave, Ret]);
      BodyParts(x.m.code, s.pc, fn, c.ops);
      var i, u := BlockRuns(y, n - 1, [], fn.body, lab, env, s0);
      k, t := ReturnEnd(x.m, TableOf(fn), k0, s, s0, i, u, y.performAll(n - 1, fn.body, env), n, s0.pc + |c.ops|);
    }
  }

  lemma {:induction false} EnterIs(x: Context, y: Context, n: nat, fn: Func, vs: seq<Value>)
    requires Known(x) && Known(y) && x.p == y.p && y.tab == TableOf(fn) && Find(x.p, fn.name) == Some(fn)
    ensures var b := Bind(TableOf(fn), fn.params, vs);
      x.enter(n, fn.name, vs) == if b.None? then Stuck else if n == 0 then Unfinished else ResultOf(y.performAll(n - 1, fn.body, b.value))
  {
    assert ShowMeaning(0);
    var b := Bind(TableOf(fn), fn.params, vs);
    assert x.enter(n, fn.name, vs) == Enter(n, x.p, fn.name, vs);
    if n > 0 && b.Some? {
      var r := PerformAll(n - 1, x.p, y.tab, fn.body, b.value);
      assert r == y.performAll(n - 1, fn.body, b.value);
    }
  }

  lemma {:induction false} BodyIs(p: Prog, m: Machine, y: Context, fn: Func, lab: nat) returns (c: Code)
    requires Known(y) && y.p == p && y.tab == TableOf(fn) && FuncPlaced(p, m, fn, lab)
    ensures y.blockCode([], fn.body, lab) == Whole(c) && At(m.code, m.position(Fn(fn.name)), Prologue(fn) + (c.ops + [Leave, Ret]))
  {
    assert ShowMeaning(0);
    var b := BlockCode(p, TableOf(fn), [], fn.body, lab);
    assert y.blockCode([], fn.body, lab) == b;
    c := b.c;
    assert FuncCode(p, fn, lab).value.ops == Prologue(fn) + c.ops + [Leave, Ret];
    assert Prologue(fn) + (c.ops + [Leave, Ret]) == Prologue(fn) + c.ops + [Leave, Ret];
  }

  lemma BodyParts(code: seq<Instr>, pc: int, fn: Func, body: seq<Instr>)
    requires At(code, pc, Prologue(fn) + (body + [Leave, Ret]))
    ensures At(code, pc + |Prologue(fn)|, body) && At(code, pc + |Prologue(fn)| + |body|, [Leave, Ret])
  {
    AtSplit(code, pc, Prologue(fn), body + [Leave, Ret]);
    AtSplit(code, pc + |Prologue(fn)|, body, [Leave, Ret]);
  }
}
