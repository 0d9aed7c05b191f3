/** Labels of emitted code are fresh and occur once, so every jump is unambiguous. */
module FreestandingLabels {
  import opened Operators
  import opened Hir
  import opened HirSemantics
  import opened X86
  import opened Freestanding

  /** How often a label occurs. */
  function Occ(ops: seq<Instr>, l: Lab): nat {
    if ops == [] then 0 else (if ops[0] == Label(l) then 1 else 0) + Occ(ops[1..], l)
  }

  predicate Between(l: Lab, lo: nat, hi: nat) {
    l.Free? && lo <= l.n < hi
  }

  /** Only labels within a range occur, and none twice. */
  ghost predicate Fresh(ops: seq<Instr>, lo: nat, hi: nat) {
    lo <= hi && forall l :: Occ(ops, l) <= if Between(l, lo, hi) then 1 else 0
  }

  lemma {:induction false} OccConcat(a: seq<Instr>, b: seq<Instr>, l: Lab)
    ensures Occ(a + b, l) == Occ(a, l) + Occ(b, l)
  {
    if a == [] {
      assert a + b == b;
    } else {
      OccConcat(a[1..], b, l);
      assert (a + b)[1..] == a[1..] + b;
    }
  }

  lemma FreshConcat(a: seq<Instr>, lo: nat, mid: nat, b: seq<Instr>, hi: nat)
    requires Fresh(a, lo, mid) && Fresh(b, mid, hi)
    ensures Fresh(a + b, lo, hi)
  {
    forall l ensures Occ(a + b, l) <= if Between(l, lo, hi) then 1 else 0 { OccConcat(a, b, l); }
  }

  predicate Plain(a: seq<Instr>) {
    forall i :: 0 <= i < |a| ==> !a[i].Label?
  }

  /** Instructions without labels can go anywhere. */
  lemma {:induction false} OccPlain(a: seq<Instr>, l: Lab)
    requires Plain(a)
    ensures Occ(a, l) == 0
  {
    if a != [] { OccPlain(a[1..], l); }
  }

  lemma FreshPlain(a: seq<Instr>, n: nat)
    requires Plain(a)
    ensures Fresh(a, n, n)
  {
    forall l ensures Occ(a, l) == 0 { OccPlain(a, l); }
  }

  /** Code with labels around it that were taken before it. */
  lemma FreshAround(a: seq<Instr>, b: seq<Instr>, c: seq<Instr>, lo: nat, mid: nat, hi: nat)
    requires Fresh(b, mid, hi) && Fresh(a + c, lo, mid)
    ensures Fresh(a + b + c, lo, hi)
  {
    forall l ensures Occ(a + b + c, l) <= if Between(l, lo, hi) then 1 else 0 {
      OccConcat(a + b, c, l);
      OccConcat(a, b, l);
      OccConcat(a, c, l);
    }
  }

  lemma FreshBehind(b: seq<Instr>, c: seq<Instr>, lo: nat, mid: nat, hi: nat)
    requires Fresh(b, mid, hi) && Fresh(c, lo, mid)
    ensures Fresh(b + c, lo, hi)
  {
    forall l ensures Occ(b + c, l) <= if Between(l, lo, hi) then 1 else 0 { OccConcat(b, c, l); }
  }

  /** One label among other instructions. */
  lemma FreshOne(a: seq<Instr>, n: nat, b: seq<Instr>)
    requires Plain(a) && Plain(b)
    ensures Fresh(a + [Label(Free(n))] + b, n, n + 1)
  {
    forall l ensures Occ(a + [Label(Free(n))] + b, l) <= if Between(l, n, n + 1) then 1 else 0 {
      OccConcat(a + [Label(Free(n))], b, l);
      OccConcat(a, [Label(Free(n))], l);
      OccPlain(a, l);
      OccPlain(b, l);
    }
  }

  lemma {:induction false} OperatorFresh(op: BinaryOp, lab: nat)
    requires OperatorCode(op, lab).Some?
    ensures Fresh(OperatorCode(op, lab).value.ops, lab, OperatorCode(op, lab).value.next)
  {
    var c := OperatorCode(op, lab).value.ops;
    if op == Divide || op == Modulo {
      FreshOne(c[..7], lab, c[8..]);
      assert c == c[..7] + [Label(Free(lab))] + c[8..];
    } else {
      FreshPlain(c, lab);
    }
  }

  /** The labels behind a short-circuit operator. */
  lemma TailFresh(stop: bool, lab: nat)
    ensures Fresh(LogicTail(stop, lab), lab, lab + 2)
  {
    var t := LogicTail(stop, lab);
    FreshOne(t[..4], lab, t[5..6]);
    FreshOne([], lab + 1, []);
    assert t[..4] + [Label(Free(lab))] + t[5..6] == t[..6];
    assert [] + [Label(Free(lab + 1))] + [] == t[6..];
    FreshConcat(t[..6], lab, lab + 1, t[6..], lab + 2);
    assert t == t[..6] + t[6..];
  }

  lemma {:induction false} ExprFresh(p: Prog, tab: Table, e: Expr, lab: nat)
    requires ExprCode(p, tab, e, lab).Some?
    ensures Fresh(ExprCode(p, tab, e, lab).value.ops, lab, ExprCode(p, tab, e, lab).value.next)
    decreases e, 1
  {
    match e
    case Minus(a) =>
      ExprFresh(p, tab, a, lab);
      var c := ExprCode(p, tab, a, lab).value;
      FreshPlain([NegQ, Jcc(O, Fault)], c.next);
      FreshConcat(c.ops, lab, c.next, [NegQ, Jcc(O, Fault)], c.next);
    case Negation(a) =>
      ExprFresh(p, tab, a, lab);
      var c := ExprCode(p, tab, a, lab).value;
      FreshPlain([TestL, Instr.Set(E), MovzbAl], c.next);
      FreshConcat(c.ops, lab, c.next, [TestL, Instr.Set(E), MovzbAl], c.next);
    case Infix(op, l, r) =>
      if op == And || op == Or { LogicFresh(p, tab, op, l, r, lab); } else { BothFresh(p, tab, op, l, r, lab); }
    case Apply(f, args) => CallFresh(p, tab, f, args, lab);
    case _ =>
  }

  lemma {:induction false} LogicFresh(p: Prog, tab: Table, op: BinaryOp, l: Expr, r: Expr, lab: nat)
    requires LogicCode(p, tab, op, l, r, lab).Some?
    ensures Fresh(LogicCode(p, tab, op, l, r, lab).value.ops, lab, LogicCode(p, tab, op, l, r, lab).value.next)
    decreases Infix(op, l, r), 0
  {
    ExprFresh(p, tab, l, lab + 2);
    var mid := ExprCode(p, tab, l, lab + 2).value.next;
    ExprFresh(p, tab, r, mid);
    LogicShape(p, tab, op, l, r, lab);
    LogicJoin(op, ExprCode(p, tab, l, lab + 2).value, ExprCode(p, tab, r, mid).value, lab);
  }

  function LogicJoined(op: BinaryOp, l: Code, r: Code, lab: nat): Code {
    Code(l.ops + [TestL, Jcc(if op == Or then NE else E, Free(lab))] + r.ops + LogicTail(op == Or, lab), r.next)
  }

  lemma {:induction false} LogicShape(p: Prog, tab: Table, op: BinaryOp, l: Expr, r: Expr, lab: nat)
    requires LogicCode(p, tab, op, l, r, lab).Some?
    ensures ExprCode(p, tab, l, lab + 2).Some? && ExprCode(p, tab, r, ExprCode(p, tab, l, lab + 2).value.next).Some?
    ensures var a := ExprCode(p, tab, l, lab + 2).value;
      LogicCode(p, tab, op, l, r, lab).value == LogicJoined(op, a, ExprCode(p, tab, r, a.next).value, lab)
  {
  }

  lemma {:induction false} LogicJoin(op: BinaryOp, l: Code, r: Code, lab: nat)
    requires Fresh(l.ops, lab + 2, l.next) && Fresh(r.ops, l.next, r.next)
    ensures Fresh(LogicJoined(op, l, r, lab).ops, lab, LogicJoined(op, l, r, lab).next)
  {
    var a, b, mid, hi := l.ops, r.ops, l.next, r.next;
    var test, tail := [TestL, Jcc(if op == Or then NE else E, Free(lab))], LogicTail(op == Or, lab);
    FreshPlain(test, mid);
    FreshConcat(a, lab + 2, mid, test, mid);
    FreshConcat(a + test, lab + 2, mid, b, hi);
    TailFresh(op == Or, lab);
    FreshBehind(a + test + b, tail, lab, lab + 2, hi);
  }

  lemma {:induction false} BothFresh(p: Prog, tab: Table, op: BinaryOp, l: Expr, r: Expr, lab: nat)
    requires BothCode(p, tab, op, l, r, lab).Some?
    ensures Fresh(BothCode(p, tab, op, l, r, lab).value.ops, lab, BothCode(p, tab, op, l, r, lab).value.next)
    decreases Infix(op, l, r), 0
  {
    ExprFresh(p, tab, l, lab);
    var cl := ExprCode(p, tab, l, lab).value;
    ExprFresh(p, tab, r, cl.next);
    var cr := ExprCode(p, tab, r, cl.next).value;
    FreshPlain(SpillCode, cl.next);
    FreshPlain(UnspillCode, cr.next);
    OperatorFresh(op, cr.next);
    var co := OperatorCode(op, cr.next).value;
    FreshConcat(cl.ops, lab, cl.next, SpillCode, cl.next);
    FreshConcat(cl.ops + SpillCode, lab, cl.next, cr.ops, cr.next);
    FreshConcat(cl.ops + SpillCode + cr.ops, lab, cr.next, UnspillCode, cr.next);
    FreshConcat(cl.ops + SpillCode + cr.ops + UnspillCode, lab, cr.next, co.ops, co.next);
  }

  lemma {:induction false} ArgsFresh(p: Prog, tab: Table, a: Args, i: nat, lab: nat)
    requires ArgsCode(p, tab, a, i, lab).Some?
    ensures Fresh(ArgsCode(p, tab, a, i, lab).value.ops, lab, ArgsCode(p, tab, a, i, lab).value.next)
    decreases a, 0
  {
    if a.Arg? {
      ExprFresh(p, tab, a.e, lab);
      var c := ExprCode(p, tab, a.e, lab).value;
      ArgsFresh(p, tab, a.rest, i + 1, c.next);
      var rest := ArgsCode(p, tab, a.rest, i + 1, c.next).value;
      FreshPlain([Spill(8 * i)], c.next);
      FreshConcat(c.ops, lab, c.next, [Spill(8 * i)], c.next);
      FreshConcat(c.ops + [Spill(8 * i)], lab, c.next, rest.ops, rest.next);
    }
  }

  lemma {:induction false} LoadPlain(argc: nat)
    ensures Plain(LoadCode(argc)) && Plain(SaveCode(argc))
  {
    if argc > 0 { LoadPlain(argc - 1); }
  }

  lemma {:induction false} CallFresh(p: Prog, tab: Table, f: string, args: Args, lab: nat)
    requires CallCode(p, tab, f, args, lab).Some?
    ensures Fresh(CallCode(p, tab, f, args, lab).value.ops, lab, CallCode(p, tab, f, args, lab).value.next)
    decreases args, 1
  {
    var argc := |Find(p, f).value.params|;
    ArgsFresh(p, tab, args, 0, lab);
    var c := ArgsCode(p, tab, args, 0, lab).value;
    var tail := LoadCode(argc) + [Instr.Call(f)] + Release(Area(argc));
    LoadPlain(argc);
    FreshPlain(tail, c.next);
    FreshPlain(Reserve(Area(argc)), lab);
    FreshConcat(Reserve(Area(argc)), lab, lab, c.ops, c.next);
    FreshConcat(Reserve(Area(argc)) + c.ops, lab, c.next, tail, c.next);
    assert Reserve(Area(argc)) + c.ops + tail
        == Reserve(Area(argc)) + c.ops + LoadCode(argc) + [Instr.Call(f)] + Release(Area(argc));
  }

  // ---- Statements ----

  lemma {:induction false} StmtFresh(p: Prog, tab: Table, loops: seq<(nat, nat)>, s: Stmt, lab: nat)
    requires StmtCode(p, tab, loops, s, lab).Whole?
    ensures Fresh(StmtCode(p, tab, loops, s, lab).c.ops, lab, StmtCode(p, tab, loops, s, lab).c.next)
    decreases s, 1
  {
    match s
    case Declare(x, _, init) => AssignFresh(p, tab, x, init.value, lab);
    case Set(x, e) => AssignFresh(p, tab, x, e, lab);
    case Do(f, args) => CallFresh(p, tab, f, args, lab);
    case Give(value) =>
      FreshPlain([Leave, Ret], lab);
      if value.Some? {
        ExprFresh(p, tab, value.value, lab);
        var c := ExprCode(p, tab, value.value, lab).value;
        FreshPlain([Leave, Ret], c.next);
        FreshConcat(c.ops, lab, c.next, [Leave, Ret], c.next);
      }
    case Choose(c, yes, no) => ChooseFresh(p, tab, loops, c, yes, no, lab);
    case Loop(c, body) => LoopFresh(p, tab, loops, c, body, lab);
    case Group(body) => BlockFresh(p, tab, loops, body, lab);
    case _ =>
  }

  lemma AssignFresh(p: Prog, tab: Table, x: string, e: Expr, lab: nat)
    requires AssignCode(p, tab, x, e, lab).Whole?
    ensures Fresh(AssignCode(p, tab, x, e, lab).c.ops, lab, AssignCode(p, tab, x, e, lab).c.next)
  {
    ExprFresh(p, tab, e, lab);
    var c := ExprCode(p, tab, e, lab).value;
    var store := StoreVar(tab, SlotOf(tab, x));
    FreshPlain(store, c.next);
    FreshConcat(c.ops, lab, c.next, store, c.next);
  }

  lemma {:induction false} ChooseFresh(p: Prog, tab: Table, loops: seq<(nat, nat)>, c: Expr, yes: Stmts, no: Stmts, lab: nat)
    requires ChooseCode(p, tab, loops, c, yes, no, lab).Whole?
    ensures Fresh(ChooseCode(p, tab, loops, c, yes, no, lab).c.ops, lab, ChooseCode(p, tab, loops, c, yes, no, lab).c.next)
    decreases Choose(c, yes, no), 0
  {
    ExprFresh(p, tab, c, lab);
    var cc := ExprCode(p, tab, c, lab).value;
    var other, done := cc.next, cc.next + 1;
    BlockFresh(p, tab, loops, yes, cc.next + 2);
    var cy := BlockCode(p, tab, loops, yes, cc.next + 2).c;
    BlockFresh(p, tab, loops, no, cy.next);
    var cn := BlockCode(p, tab, loops, no, cy.next).c;
    var test, turn, last := [TestL, Jcc(E, Free(other))], [Jmp(Free(done)), Label(Free(other))], [Label(Free(done))];
    FreshPlain(test, cc.next);
    FreshConcat(cc.ops, lab, cc.next, test, cc.next);
    ArmsFresh(cy.ops, turn, cn.ops, last, cc.next, cy.next, cn.next);
    FreshConcat(cc.ops + test, lab, cc.next, cy.ops + turn + cn.ops + last, cn.next);
    assert cc.ops + test + (cy.ops + turn + cn.ops + last) == cc.ops + test + cy.ops + turn + cn.ops + last;
  }

  /** Two arms and the labels `n` and `n + 1` between and behind them. */
  lemma ArmsFresh(a: seq<Instr>, turn: seq<Instr>, b: seq<Instr>, last: seq<Instr>, n: nat, mid: nat, hi: nat)
    requires Fresh(a, n + 2, mid) && Fresh(b, mid, hi) && turn == [Jmp(Free(n + 1)), Label(Free(n))] && last == [Label(Free(n + 1))]
    ensures Fresh(a + turn + b + last, n, hi)
  {
    FreshOne([Jmp(Free(n + 1))], n, []);
    assert turn == [Jmp(Free(n + 1))] + [Label(Free(n))] + [];
    FreshOne([], n + 1, []);
    assert last == [] + [Label(Free(n + 1))] + [];
    forall l ensures Occ(a + turn + b + last, l) <= if Between(l, n, hi) then 1 else 0 {
      OccConcat(a + turn + b, last, l);
      OccConcat(a + turn, b, l);
      OccConcat(a, turn, l);
    }
  }

  lemma {:induction false} LoopFresh(p: Prog, tab: Table, loops: seq<(nat, nat)>, c: Expr, body: Stmts, lab: nat)
    requires LoopCode(p, tab, loops, c, body, lab).Whole?
    ensures Fresh(LoopCode(p, tab, loops, c, body, lab).c.ops, lab, LoopCode(p, tab, loops, c, body, lab).c.next)
    decreases Loop(c, body), 0
  {
    ExprFresh(p, tab, c, lab + 2);
    var cc := ExprCode(p, tab, c, lab + 2).value;
    BlockFresh(p, tab, loops + [(lab, lab + 1)], body, cc.next);
    var cb := BlockCode(p, tab, loops + [(lab, lab + 1)], body, cc.next).c;
    var first, test, last := [Label(Free(lab))], [TestL, Jcc(E, Free(lab + 1))], [Jmp(Free(lab)), Label(Free(lab + 1))];
    FreshPlain(test, cc.next);
    FreshConcat(cc.ops, lab + 2, cc.next, test, cc.next);
    FreshConcat(cc.ops + test, lab + 2, cc.next, cb.ops, cb.next);
    FreshOne([], lab, []);
    FreshOne([Jmp(Free(lab))], lab + 1, []);
    assert first == [] + [Label(Free(lab))] + [] && last == [Jmp(Free(lab))] + [Label(Free(lab + 1))] + [];
    FreshConcat(first, lab, lab + 1, last, lab + 2);
    FreshAround(first, cc.ops + test + cb.ops, last, lab, lab + 2, cb.next);
    assert first + (cc.ops + test + cb.ops) + last == first + cc.ops + test + cb.ops + last;
  }

  lemma {:induction false} BlockFresh(p: Prog, tab: Table, loops: seq<(nat, nat)>, b: Stmts, lab: nat)
    requires BlockCode(p, tab, loops, b, lab).Whole?
    ensures Fresh(BlockCode(p, tab, loops, b, lab).c.ops, lab, BlockCode(p, tab, loops, b, lab).c.next)
    decreases b, 2
  {
    if b.Then? {
      StmtFresh(p, tab, loops, b.s, lab);
      var c := StmtCode(p, tab, loops, b.s, lab).c;
      BlockFresh(p, tab, loops, b.rest, c.next);
      var rest := BlockCode(p, tab, loops, b.rest, c.next).c;
      FreshConcat(c.ops, lab, c.next, rest.ops, rest.next);
    }
  }

  // ---- The whole image ----

  lemma {:induction false} OccAt(code: seq<Instr>, i: nat, l: Lab)
    requires i < |code| && code[i] == Label(l)
    ensures Occ(code, l) >= 1
  {
    if i > 0 { OccAt(code[1..], i - 1, l); }
  }

  /** A label stands where the search finds it. */
  lemma {:induction false} PositionIs(code: seq<Instr>, i: nat, l: Lab)
    requires Occ(code, l) <= 1 && i < |code| && code[i] == Label(l)
    ensures Position(code, l) == i
  {
    if i > 0 {
      OccAt(code[1..], i - 1, l);
      PositionIs(code[1..], i - 1, l);
    }
  }
}
