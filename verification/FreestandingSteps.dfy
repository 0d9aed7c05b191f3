/** What the fixed instruction patterns of the back end do. */
module FreestandingSteps {
  import opened Operators
  import opened Hir
  import opened HirSemantics
  import opened HirRewrite
  import opened X86
  import opened Freestanding
  import opened FreestandingLabels

  predicate At(code: seq<Instr>, pc: int, ops: seq<Instr>) {
    0 <= pc && pc + |ops| <= |code| && forall i {:trigger ops[i]} :: 0 <= i < |ops| ==> code[pc + i] == ops[i]
  }

  lemma AtSplit(code: seq<Instr>, pc: int, a: seq<Instr>, b: seq<Instr>)
    requires At(code, pc, a + b)
    ensures At(code, pc, a) && At(code, pc + |a|, b)
  {
    var c := a + b;
    forall i | 0 <= i < |a| ensures code[pc + i] == a[i] { assert c[i] == a[i]; }
    forall i | 0 <= i < |b| ensures code[pc + |a| + i] == b[i] { assert c[|a| + i] == b[i]; }
  }

  lemma AtGet(code: seq<Instr>, pc: int, ops: seq<Instr>, i: nat)
    requires At(code, pc, ops) && i < |ops|
    ensures code[pc + i] == ops[i]
  {
  }

  lemma At1(code: seq<Instr>, pc: int, a: Instr)
    requires At(code, pc, [a])
    ensures code[pc] == a
  {
    AtGet(code, pc, [a], 0);
  }

  lemma At2(code: seq<Instr>, pc: int, a: Instr, b: Instr)
    requires At(code, pc, [a, b])
    ensures code[pc] == a && code[pc + 1] == b
  {
    AtGet(code, pc, [a, b], 0);
    AtGet(code, pc, [a, b], 1);
  }

  lemma At3(code: seq<Instr>, pc: int, a: Instr, b: Instr, c: Instr)
    requires At(code, pc, [a, b, c])
    ensures code[pc] == a && code[pc + 1] == b && code[pc + 2] == c
  {
    AtGet(code, pc, [a, b, c], 0);
    AtGet(code, pc, [a, b, c], 1);
    AtGet(code, pc, [a, b, c], 2);
  }

  /** Complete code: unambiguous labels and the fault handler at the end. */
  ghost predicate Image(m: Machine) {
    && Faithful(m) && |m.code| >= 2 && m.code[|m.code| - 2] == Label(Fault) && m.code[|m.code| - 1] == Ud2
    && forall l :: Occ(m.code, l) <= 1
  }

  /** Facts that composed runs only pass on stand behind this marker; a proof that looks
      into them writes the marker down. */
  predicate Show(u: int) {
    true
  }

  /** The marker for frames. */
  predicate ShowFrame(u: int) {
    true
  }

  /** The marker for definitions. */
  predicate ShowMeaning(u: int) {
    true
  }

  ghost predicate Good(m: Machine) {
    forall u {:trigger Show(u)} :: Show(u) ==> Image(m)
  }

  lemma Compose(m: Machine, j: nat, k: nat, s: Cpu)
    requires Good(m)
    ensures m.run(j + k, s) == match m.run(j, s) case Running(t) => m.run(k, t) case o => o
  {
    assert Show(0);
    RunAdd(m, j, k, s);
  }

  lemma More(m: Machine, k: nat, s: Cpu, t: Cpu)
    requires Good(m) && m.run(k, s) == Running(t)
    ensures m.run(k + 1, s) == m.step(t)
  {
    assert Show(0);
    Extend(m, k, s, t);
  }

  lemma Once(m: Machine, s: Cpu)
    requires Good(m)
    ensures m.run(1, s) == m.step(s)
  {
    assert Show(0);
    RunOne(m, s);
  }

  lemma Stay(m: Machine, s: Cpu)
    requires Good(m)
    ensures m.run(0, s) == Running(s)
  {
    assert Show(0);
    RunNone(m, s);
  }

  /** A machine word that represents a value; a call of a function without a result leaves
      anything. */
  predicate Word(v: Value, w: int) {
    match v
    case IntV(i) => w == i
    case BoolV(b) => w == Bit(b)
    case _ => true
  }

  lemma LowBit(b: bool)
    ensures Low(Bit(b)) == Bit(b)
  {
  }

  /** A label of complete code is where it stands. */
  lemma {:induction false} LabelAt(m: Machine, pc: int, l: Lab)
    requires Good(m) && 0 <= pc < |m.code| && m.code[pc] == Label(l)
    ensures m.position(l) == pc
  {
    assert Show(0);
    PositionIs(m.code, pc, l);
  }

  /** The fault handler ends the code. */
  lemma FaultAt(m: Machine)
    requires Good(m)
    ensures |m.code| >= 2 && m.code[|m.code| - 2] == Label(Fault) && m.code[|m.code| - 1] == Ud2
  {
    assert Show(0);
  }

  function Goto(m: Machine, s: Cpu, l: Lab): Status {
    if m.position(l) == -1 then Broken else Running(s.(pc := m.position(l)))
  }

  predicate Control(i: Instr) {
    i.Label? || i.Jmp? || i.Jcc? || i.Call? || i.Ret? || i.Ud2? || i.Hlt?
  }

  lemma {:induction false} DataStep(m: Machine, s: Cpu, i: Instr)
    requires Good(m) && 0 <= s.pc < |m.code| && m.code[s.pc] == i && !Control(i) && !MemoryInstr(i)
    ensures m.step(s) == StepData(i, s)
  {
    assert Show(0);
    assert Step(m.code, s) == StepData(i, s);
  }

  lemma {:induction false} MemoryStep(m: Machine, s: Cpu, i: Instr)
    requires Good(m) && 0 <= s.pc < |m.code| && m.code[s.pc] == i && MemoryInstr(i)
    ensures m.step(s) == StepMemory(i, s)
  {
    assert Show(0);
    assert Step(m.code, s) == StepMemory(i, s);
  }

  lemma {:induction false} JumpStep(m: Machine, s: Cpu)
    requires Good(m) && 0 <= s.pc < |m.code|
    ensures m.code[s.pc].Label? ==> m.step(s) == Next(s)
    ensures m.code[s.pc].Jmp? ==> m.step(s) == Goto(m, s, m.code[s.pc].target)
    ensures m.code[s.pc].Jcc? ==> m.step(s) == if Holds(s, m.code[s.pc].cc) then Goto(m, s, m.code[s.pc].target) else Next(s)
    ensures m.code[s.pc].Ud2? ==> m.step(s) == Trapped
  {
    assert Show(0);
    assert m.step(s) == Step(m.code, s);
  }

  /** Taking the jump to the fault handler ends in the trap. */
  lemma {:induction false} FaultTraps(m: Machine, s: Cpu) returns (k: nat)
    requires Good(m) && 0 <= s.pc < |m.code| && m.code[s.pc].Jcc? && m.code[s.pc].target == Fault && Holds(s, m.code[s.pc].cc)
    ensures m.run(k, s) == Trapped
  {
    FaultAt(m);
    LabelAt(m, |m.code| - 2, Fault);
    var t := s.(pc := |m.code| - 2);
    JumpStep(m, s);
    Once(m, s);
    JumpStep(m, t);
    More(m, 1, s, t);
    JumpStep(m, t.(pc := |m.code| - 1));
    More(m, 2, s, t.(pc := |m.code| - 1));
    k := 3;
  }

  /** An instruction that sets the overflow flag, and the check behind it. */
  lemma {:induction false} CheckedRuns(m: Machine, s: Cpu, x: int) returns (k: nat)
    requires Good(m) && 0 <= s.pc < |m.code| - 1 && m.code[s.pc + 1] == Jcc(O, Fault)
    requires m.step(s) == Result(s, x)
    ensures Fits(x) ==> m.run(k, s) == Running(s.(pc := s.pc + 2, rax := x, of := false))
    ensures !Fits(x) ==> m.run(k, s) == Trapped
  {
    WrapFits(x);
    var t := s.(pc := s.pc + 1, rax := Wrap(x), of := !Fits(x));
    Once(m, s);
    if Fits(x) {
      JumpStep(m, t);
      More(m, 1, s, t);
      k := 2;
    } else {
      var j := FaultTraps(m, t);
      Compose(m, 1, j, s);
      k := 1 + j;
    }
  }

  /** Turning a flag into 0 or 1. */
  lemma {:induction false} FlagRuns(m: Machine, s: Cpu, cc: Condition) returns (k: nat)
    requires Good(m) && 0 <= s.pc < |m.code| - 1 && m.code[s.pc] == Instr.Set(cc) && m.code[s.pc + 1] == MovzbAl
    ensures m.run(k, s) == Running(s.(pc := s.pc + 2, rax := Bit(Holds(s, cc))))
  {
    var w := s.rax - s.rax % 256 + Bit(Holds(s, cc));
    var t := s.(pc := s.pc + 1, rax := w);
    assert w % 256 == Bit(Holds(s, cc));
    DataStep(m, s, Instr.Set(cc));
    Once(m, s);
    DataStep(m, t, MovzbAl);
    More(m, 1, s, t);
    k := 2;
  }

  /** Testing a boolean and turning the flag into a value. */
  lemma {:induction false} TestRuns(m: Machine, s: Cpu, cc: Condition, b: bool) returns (k: nat)
    requires Good(m) && At(m.code, s.pc, [TestL, Instr.Set(cc), MovzbAl]) && s.rax == Bit(b) && (cc == E || cc == NE)
    ensures m.run(k, s) == Running(s.(pc := s.pc + 3, rax := Bit(b == (cc == NE)), eq := !b, lt := false, of := false))
  {
    At3(m.code, s.pc, TestL, Instr.Set(cc), MovzbAl);
    LowBit(b);
    var t := s.(pc := s.pc + 1, eq := !b, lt := false, of := false);
    DataStep(m, s, TestL);
    Once(m, s);
    k := FlagRuns(m, t, cc);
    Compose(m, 1, k, s);
    k := 1 + k;
  }

  /** Testing a boolean and jumping on it. */
  lemma {:induction false} BranchRuns(m: Machine, s: Cpu, cc: Condition, l: nat, b: bool) returns (k: nat)
    requires Good(m) && At(m.code, s.pc, [TestL, Jcc(cc, Free(l))]) && s.rax == Bit(b) && (cc == E || cc == NE)
    requires m.position(Free(l)) >= 0
    ensures m.run(k, s)
         == Running(s.(pc := if b == (cc == NE) then m.position(Free(l)) else s.pc + 2, eq := !b, lt := false, of := false))
  {
    At2(m.code, s.pc, TestL, Jcc(cc, Free(l)));
    LowBit(b);
    var t := s.(pc := s.pc + 1, eq := !b, lt := false, of := false);
    DataStep(m, s, TestL);
    Once(m, s);
    JumpStep(m, t);
    More(m, 1, s, t);
    k := 2;
  }

  lemma {:induction false} CompareRuns(m: Machine, s: Cpu, cc: Condition) returns (k: nat)
    requires Good(m) && At(m.code, s.pc, CompareCode(cc))
    ensures var t := s.(pc := s.pc + 3, eq := s.rax == s.rcx, lt := s.rax < s.rcx, of := false);
      m.run(k, s) == Running(t.(rax := Bit(Holds(t, cc))))
  {
    At3(m.code, s.pc, CmpQ, Instr.Set(cc), MovzbAl);
    var t := s.(pc := s.pc + 1, eq := s.rax == s.rcx, lt := s.rax < s.rcx, of := false);
    DataStep(m, s, CmpQ);
    Once(m, s);
    k := FlagRuns(m, t, cc);
    Compose(m, 1, k, s);
    k := 1 + k;
  }

  /** Registers and flags may change, the stack and memory do not. */
  predicate Quiet(s: Cpu, t: Cpu, size: int) {
    t.pc == s.pc + size && t.rsp == s.rsp && t.rbp == s.rbp && t.mem == s.mem
  }

  const Guard1: seq<Instr> := [TestRcx, Jcc(E, Fault)]
  const Guard3: seq<Instr> := [MovRdxMin, CmpRdx, Jcc(E, Fault)]

  /** The first test of a division: a zero divisor traps. */
  lemma {:induction false} ZeroGuard(m: Machine, s: Cpu) returns (k: nat)
    requires Good(m) && At(m.code, s.pc, Guard1)
    ensures s.rcx == 0 ==> m.run(k, s) == Trapped
    ensures s.rcx != 0 ==> m.run(k, s) == Running(s.(pc := s.pc + 2, eq := false, lt := s.rcx < 0, of := false))
  {
    At2(m.code, s.pc, TestRcx, Jcc(E, Fault));
    var t := s.(pc := s.pc + 1, eq := s.rcx == 0, lt := s.rcx < 0, of := false);
    DataStep(m, s, TestRcx);
    Once(m, s);
    if s.rcx == 0 {
      k := FaultTraps(m, t);
      Compose(m, 1, k, s);
      k := 1 + k;
    } else {
      JumpStep(m, t);
      More(m, 1, s, t);
      k := 2;
    }
  }

  /** The second test skips the third unless the divisor is -1. */
  lemma {:induction false} MinusOneGuard(m: Machine, s: Cpu, lab: nat) returns (k: nat)
    requires Good(m) && At(m.code, s.pc, [CmpRcx, Jcc(NE, Free(lab))]) && m.position(Free(lab)) >= 0
    ensures m.run(k, s) == Running(s.(pc := if s.rcx == -1 then s.pc + 2 else m.position(Free(lab)),
                                              eq := s.rcx == -1, lt := s.rcx < -1, of := false))
  {
    At2(m.code, s.pc, CmpRcx, Jcc(NE, Free(lab)));
    var t := s.(pc := s.pc + 1, eq := s.rcx == -1, lt := s.rcx < -1, of := false);
    DataStep(m, s, CmpRcx);
    Once(m, s);
    JumpStep(m, t);
    More(m, 1, s, t);
    k := 2;
  }

  /** The third test: the least integer traps. */
  lemma {:induction false} MinimumGuard(m: Machine, s: Cpu) returns (k: nat)
    requires Good(m) && At(m.code, s.pc, Guard3)
    ensures s.rax == INT64_MIN ==> m.run(k, s) == Trapped
    ensures s.rax != INT64_MIN ==>
      m.run(k, s) == Running(s.(pc := s.pc + 3, rdx := INT64_MIN, eq := false, lt := s.rax < INT64_MIN, of := false))
  {
    At3(m.code, s.pc, MovRdxMin, CmpRdx, Jcc(E, Fault));
    var t := s.(pc := s.pc + 1, rdx := INT64_MIN);
    var u := t.(pc := s.pc + 2, eq := s.rax == INT64_MIN, lt := s.rax < INT64_MIN, of := false);
    DataStep(m, s, MovRdxMin);
    Once(m, s);
    DataStep(m, t, CmpRdx);
    More(m, 1, s, t);
    if s.rax == INT64_MIN {
      k := FaultTraps(m, u);
      Compose(m, 2, k, s);
      k := 2 + k;
    } else {
      JumpStep(m, u);
      More(m, 2, s, u);
      k := 3;
    }
  }

  predicate Undivided(x: int, y: int) {
    y == 0 || (y == -1 && x == INT64_MIN)
  }

  predicate SameOperands(s: Cpu, t: Cpu, size: int) {
    Quiet(s, t, size) && t.rax == s.rax && t.rcx == s.rcx
  }

  /** All three tests: into the trap, or on to the label with the operands intact. */
  lemma {:induction false} GuardRuns(m: Machine, s: Cpu, lab: nat) returns (k: nat, t: Cpu)
    requires Good(m) && At(m.code, s.pc, Guard1) && At(m.code, s.pc + 2, [CmpRcx, Jcc(NE, Free(lab))]) && At(m.code, s.pc + 4, Guard3)
    requires m.position(Free(lab)) == s.pc + 7
    ensures Undivided(s.rax, s.rcx) ==> m.run(k, s) == Trapped
    ensures !Undivided(s.rax, s.rcx) ==> m.run(k, s) == Running(t) && SameOperands(s, t, 7)
  {
    k := ZeroGuard(m, s);
    t := s;
    if s.rcx != 0 {
      t := s.(pc := s.pc + 2, eq := false, lt := s.rcx < 0, of := false);
      var j := MinusOneGuard(m, t, lab);
      Compose(m, k, j, s);
      k, t := k + j, t.(pc := if s.rcx == -1 then s.pc + 4 else s.pc + 7, eq := s.rcx == -1, lt := s.rcx < -1, of := false);
      if s.rcx == -1 {
        j := MinimumGuard(m, t);
        Compose(m, k, j, s);
        k, t := k + j, t.(pc := s.pc + 7, rdx := INT64_MIN, eq := false, lt := s.rax < INT64_MIN, of := false);
      }
    }
  }

  /** The division behind the tests. */
  lemma {:induction false} QuotientRuns(m: Machine, s: Cpu, lab: nat) returns (k: nat)
    requires Good(m) && At(m.code, s.pc, [Label(Free(lab)), Cqto, IdivQ]) && Fits(s.rax) && Fits(s.rcx) && !Undivided(s.rax, s.rcx)
    ensures m.run(k, s) == Running(s.(pc := s.pc + 3, rax := TruncDiv(s.rax, s.rcx), rdx := TruncMod(s.rax, s.rcx)))
  {
    At3(m.code, s.pc, Label(Free(lab)), Cqto, IdivQ);
    TruncFits(s.rax, s.rcx);
    var t := s.(pc := s.pc + 1);
    var u := t.(pc := s.pc + 2, rdx := if s.rax < 0 then -1 else 0);
    JumpStep(m, s);
    Once(m, s);
    DataStep(m, t, Cqto);
    More(m, 1, s, t);
    DataStep(m, u, IdivQ);
    More(m, 2, s, u);
    k := 3;
  }

  lemma {:induction false} DivideParts(code: seq<Instr>, pc: int, lab: nat, modulo: bool)
    requires At(code, pc, DivideCode(lab, modulo))
    ensures At(code, pc, Guard1) && At(code, pc + 2, [CmpRcx, Jcc(NE, Free(lab))]) && At(code, pc + 4, Guard3)
    ensures At(code, pc + 7, [Label(Free(lab)), Cqto, IdivQ]) && (modulo ==> At(code, pc + 10, [MovRaxRdx]))
  {
    var test, divide := [CmpRcx, Jcc(NE, Free(lab))], [Label(Free(lab)), Cqto, IdivQ];
    var rest := if modulo then [MovRaxRdx] else [];
    assert DivideCode(lab, modulo) == Guard1 + (test + (Guard3 + (divide + rest)));
    AtSplit(code, pc, Guard1, test + (Guard3 + (divide + rest)));
    AtSplit(code, pc + 2, test, Guard3 + (divide + rest));
    AtSplit(code, pc + 4, Guard3, divide + rest);
    AtSplit(code, pc + 7, divide, rest);
  }

  lemma {:induction false} DivideRuns(m: Machine, s: Cpu, lab: nat, modulo: bool) returns (k: nat, t: Cpu)
    requires Good(m) && At(m.code, s.pc, DivideCode(lab, modulo)) && Fits(s.rax) && Fits(s.rcx)
    ensures Undivided(s.rax, s.rcx) ==> m.run(k, s) == Trapped
    ensures !Undivided(s.rax, s.rcx) ==>
      && m.run(k, s) == Running(t) && Quiet(s, t, |DivideCode(lab, modulo)|)
      && t.rax == if modulo then TruncMod(s.rax, s.rcx) else TruncDiv(s.rax, s.rcx)
  {
    DivideParts(m.code, s.pc, lab, modulo);
    At3(m.code, s.pc + 7, Label(Free(lab)), Cqto, IdivQ);
    LabelAt(m, s.pc + 7, Free(lab));
    k, t := GuardRuns(m, s, lab);
    if !Undivided(s.rax, s.rcx) {
      var j := QuotientRuns(m, t, lab);
      Compose(m, k, j, s);
      k, t := k + j, t.(pc := t.pc + 3, rax := TruncDiv(s.rax, s.rcx), rdx := TruncMod(s.rax, s.rcx));
      if modulo {
        At1(m.code, t.pc, MovRaxRdx);
        DataStep(m, t, MovRaxRdx);
        More(m, k, s, t);
        k, t := k + 1, t.(pc := t.pc + 1, rax := t.rdx);
      }
    }
  }

  /** Checked addition, subtraction and multiplication. */
  lemma {:induction false} ArithmeticRuns(m: Machine, s: Cpu, i: Instr, z: int) returns (k: nat, t: Cpu)
    requires Good(m) && At(m.code, s.pc, [i, Jcc(O, Fault)]) && (i == AddQ || i == SubQ || i == ImulQ || i == NegQ)
    requires StepData(i, s) == Result(s, z)
    ensures !Fits(z) ==> m.run(k, s) == Trapped
    ensures Fits(z) ==> m.run(k, s) == Running(t) && Quiet(s, t, 2) && t.rax == z
  {
    At2(m.code, s.pc, i, Jcc(O, Fault));
    DataStep(m, s, i);
    k := CheckedRuns(m, s, z);
    t := s.(pc := s.pc + 2, rax := z, of := false);
  }

  lemma MinQuotient()
    ensures TruncDiv(INT64_MIN, -1) == INT64_MAX + 1
  {
  }

  /** What an operator computes, as a word or a trap. */
  ghost predicate Computes(m: Machine, k: nat, s: Cpu, t: Cpu, size: int, r: Ev) {
    match r
    case Val(v) => m.run(k, s) == Running(t) && Quiet(s, t, size) && Word(v, t.rax)
    case Overflow => m.run(k, s) == Trapped
    case _ => true
  }

  lemma {:induction false} IntegerRuns(m: Machine, s: Cpu, op: BinaryOp, lab: nat, x: int64, y: int64) returns (k: nat, t: Cpu)
    requires Good(m) && op in {Add, Subtract, Multiply, Divide, Modulo} && At(m.code, s.pc, OperatorCode(op, lab).value.ops)
    requires s.rax == x && s.rcx == y
    ensures Computes(m, k, s, t, |OperatorCode(op, lab).value.ops|, OfOption(Arithmetic(op, x, y)))
  {
    match op
    case Add => k, t := ArithmeticRuns(m, s, AddQ, x + y);
    case Subtract => k, t := ArithmeticRuns(m, s, SubQ, x - y);
    case Multiply => k, t := ArithmeticRuns(m, s, ImulQ, x * y);
    case _ =>
      k, t := DivideRuns(m, s, lab, op == Modulo);
      MinQuotient();
      if !Undivided(x, y) { TruncFits(x, y); }
  }

  /** The operation on %rax and %rcx computes the operator, or traps when it overflows. */
  lemma {:induction false} OperatorRuns(m: Machine, s: Cpu, op: BinaryOp, lab: nat, x: Value, y: Value) returns (k: nat, t: Cpu)
    requires Good(m) && OperatorCode(op, lab).Some? && At(m.code, s.pc, OperatorCode(op, lab).value.ops)
    requires Word(x, s.rax) && Word(y, s.rcx) && !Operate(op, x, y).Stuck?
    ensures Computes(m, k, s, t, |OperatorCode(op, lab).value.ops|, Operate(op, x, y))
  {
    if op in {Add, Subtract, Multiply, Divide, Modulo} {
      k, t := IntegerRuns(m, s, op, lab, x.i, y.i);
    } else {
      var cc := match op case Equal => E case NotEqual => NE case Greater => G case Less => L case GreaterEqual => GE case _ => LE;
      k := CompareRuns(m, s, cc);
      t := s.(pc := s.pc + 3, eq := s.rax == s.rcx, lt := s.rax < s.rcx, of := false);
      t := t.(rax := Bit(Holds(t, cc)));
    }
  }
}
