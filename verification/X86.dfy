/** The x86-64 instructions that the freestanding back end emits, and what they do. Memory
    is a map from 8-byte aligned addresses to 64-bit words, held as signed integers. */
module X86 {
  import opened Operators
  import opened Hir
  import opened HirSemantics

  datatype Condition = E | NE | G | L | GE | LE | O

  datatype Lab = Free(n: nat) | Fn(name: string) | Fault

  datatype Register = RDI | RSI | RDX | RCX | R8 | R9

  datatype Instr =
    | MovImm(i: int64)                  // movq $i, %rax
    | MovImmL(b: bool)                  // movl $b, %eax
    | LoadQ(disp: int)                  // movq disp(%rbp), %rax
    | LoadL(disp: int)                  // movl disp(%rbp), %eax
    | StoreQ(disp: int)                 // movq %rax, disp(%rbp)
    | StoreL(disp: int)                 // movl %eax, disp(%rbp)
    | NegQ                              // negq %rax
    | TestL                             // testl %eax, %eax
    | Set(cc: Condition)                // setcc %al
    | MovzbAl                           // movzbl %al, %eax
    | SubSp(n: nat)                     // subq $n, %rsp
    | AddSp(n: nat)                     // addq $n, %rsp
    | AndSp                             // andq $-16, %rsp
    | Spill(off: nat)                   // movq %rax, off(%rsp)
    | Top                               // movq (%rsp), %rax
    | MovRcxRax                         // movq %rax, %rcx
    | AddQ | SubQ | ImulQ | CmpQ        // op %rcx, %rax
    | TestRcx                           // testq %rcx, %rcx
    | CmpRcx                            // cmpq $-1, %rcx
    | MovRdxMin                         // movabsq $-9223372036854775808, %rdx
    | CmpRdx                            // cmpq %rdx, %rax
    | Cqto | IdivQ | MovRaxRdx          // cqto; idivq %rcx; movq %rdx, %rax
    | Jcc(cc: Condition, target: Lab) | Jmp(target: Lab) | Label(lab: Lab)
    | LoadArg(off: nat, reg: Register)  // movq off(%rsp), reg
    | StoreArg(reg: Register, disp: int) // movq reg, disp(%rbp)
    | Call(f: string) | PushRbp | MovRbpSp | Leave | Ret | Ud2 | Hlt

  type Memory = map<int, int>

  datatype Cpu = Cpu(pc: int, rax: int, rcx: int, rdx: int, rdi: int, rsi: int, r8: int, r9: int,
                         rsp: int, rbp: int, eq: bool, lt: bool, of: bool, mem: Memory)

  /** `Trapped` is the undefined instruction at the fault label; `Broken` is anything the
      code must never do: a hardware divide error, a misaligned access or call, or leaving
      the code. */
  datatype Status = Running(s: Cpu) | Trapped | Halted | Broken

  function Peek(m: Memory, a: int): int {
    if a in m then m[a] else 0
  }

  /** The low 32 bits, zero-extended. */
  function Low(w: int): int {
    w % 0x1_0000_0000
  }

  function Wrap(x: int): int {
    (x - INT64_MIN) % 0x1_0000_0000_0000_0000 + INT64_MIN
  }

  function Bit(b: bool): int {
    if b then 1 else 0
  }

  predicate Holds(s: Cpu, cc: Condition) {
    match cc
    case E => s.eq
    case NE => !s.eq
    case L => s.lt
    case GE => !s.lt
    case G => !s.lt && !s.eq
    case LE => s.lt || s.eq
    case O => s.of
  }

  function Get(s: Cpu, r: Register): int {
    match r
    case RDI => s.rdi case RSI => s.rsi case RDX => s.rdx case RCX => s.rcx case R8 => s.r8 case R9 => s.r9
  }

  function Put(s: Cpu, r: Register, v: int): Cpu {
    match r
    case RDI => s.(rdi := v) case RSI => s.(rsi := v) case RDX => s.(rdx := v)
    case RCX => s.(rcx := v) case R8 => s.(r8 := v) case R9 => s.(r9 := v)
  }

  /** The position of a label: its first occurrence. */
  function Position(code: seq<Instr>, lab: Lab): (i: int)
    ensures i == -1 || (0 <= i < |code| && code[i] == Label(lab))
    ensures Label(lab) in code ==> i >= 0
  {
    if code == [] then -1
    else if code[0] == Label(lab) then 0
    else var i := Position(code[1..], lab); if i == -1 then -1 else i + 1
  }

  function Jump(code: seq<Instr>, s: Cpu, lab: Lab): Status {
    if Position(code, lab) == -1 then Broken else Running(s.(pc := Position(code, lab)))
  }

  function Next(s: Cpu): Status {
    Running(s.(pc := s.pc + 1))
  }

  function LoadTo(s: Cpu, a: int): Status {
    if a % 8 != 0 then Broken else Next(s.(rax := Peek(s.mem, a)))
  }

  function StoreTo(s: Cpu, a: int, w: int): Status {
    if a % 8 != 0 then Broken else Next(s.(mem := s.mem[a := w]))
  }

  function Compare(s: Cpu, x: int, y: int): Status {
    Next(s.(eq := x == y, lt := x < y, of := false))
  }

  function Result(s: Cpu, x: int): Status {
    Next(s.(rax := Wrap(x), of := !Fits(x)))
  }

  /** Integer instructions. */
  function StepData(i: Instr, s: Cpu): Status {
    match i
    case MovImm(n) => Next(s.(rax := n))
    case MovImmL(b) => Next(s.(rax := Bit(b)))
    case NegQ => Result(s, 0 - s.rax)
    case TestL => Compare(s, Low(s.rax), 0)
    case Set(cc) => Next(s.(rax := s.rax - s.rax % 256 + Bit(Holds(s, cc))))
    case MovzbAl => Next(s.(rax := s.rax % 256))
    case MovRcxRax => Next(s.(rcx := s.rax))
    case AddQ => Result(s, s.rax + s.rcx)
    case SubQ => Result(s, s.rax - s.rcx)
    case ImulQ => Result(s, s.rax * s.rcx)
    case CmpQ => Compare(s, s.rax, s.rcx)
    case TestRcx => Compare(s, s.rcx, 0)
    case CmpRcx => Compare(s, s.rcx, -1)
    case MovRdxMin => Next(s.(rdx := INT64_MIN))
    case CmpRdx => Compare(s, s.rax, s.rdx)
    case Cqto => Next(s.(rdx := if s.rax < 0 then -1 else 0))
    case IdivQ =>
      if s.rcx == 0 || s.rdx != (if s.rax < 0 then -1 else 0) || !Fits(TruncDiv(s.rax, s.rcx)) then Broken
      else Next(s.(rax := TruncDiv(s.rax, s.rcx), rdx := TruncMod(s.rax, s.rcx)))
    case MovRaxRdx => Next(s.(rax := s.rdx))
    case _ => Broken
  }

  /** Memory and stack instructions. */
  function StepMemory(i: Instr, s: Cpu): Status {
    match i
    case LoadQ(d) => LoadTo(s, s.rbp + d)
    case LoadL(d) => if (s.rbp + d) % 8 != 0 then Broken else Next(s.(rax := Low(Peek(s.mem, s.rbp + d))))
    case StoreQ(d) => StoreTo(s, s.rbp + d, s.rax)
    case StoreL(d) =>
      var w := Peek(s.mem, s.rbp + d);
      StoreTo(s, s.rbp + d, w - Low(w) + Low(s.rax))
    case SubSp(n) => Next(s.(rsp := s.rsp - n))
    case AddSp(n) => Next(s.(rsp := s.rsp + n))
    case AndSp => Next(s.(rsp := s.rsp - s.rsp % 16))
    case Spill(off) => StoreTo(s, s.rsp + off, s.rax)
    case Top => LoadTo(s, s.rsp)
    case LoadArg(off, r) => if (s.rsp + off) % 8 != 0 then Broken else Next(Put(s, r, Peek(s.mem, s.rsp + off)))
    case StoreArg(r, d) => StoreTo(s, s.rbp + d, Get(s, r))
    case PushRbp => StoreTo(s.(rsp := s.rsp - 8), s.rsp - 8, s.rbp)
    case MovRbpSp => Next(s.(rbp := s.rsp))
    case Leave => if s.rbp % 8 != 0 then Broken else Next(s.(rsp := s.rbp + 8, rbp := Peek(s.mem, s.rbp)))
    case _ => Broken
  }

  function Step(code: seq<Instr>, s: Cpu): Status {
    if !(0 <= s.pc < |code|) then Broken
    else match code[s.pc]
      case Label(_) => Next(s)
      case Jmp(t) => Jump(code, s, t)
      case Jcc(cc, t) => if Holds(s, cc) then Jump(code, s, t) else Next(s)
      // a call needs a 16-byte aligned stack and pushes the return address
      case Call(f) =>
        if s.rsp % 16 != 0 then Broken
        else Jump(code, s.(rsp := s.rsp - 8, mem := s.mem[s.rsp - 8 := s.pc + 1]), Fn(f))
      case Ret => if s.rsp % 8 != 0 then Broken else Running(s.(pc := Peek(s.mem, s.rsp), rsp := s.rsp + 8))
      case Ud2 => Trapped
      case Hlt => Halted
      case i => if MemoryInstr(i) then StepMemory(i, s) else StepData(i, s)
  }

  predicate MemoryInstr(i: Instr) {
    i.LoadQ? || i.LoadL? || i.StoreQ? || i.StoreL? || i.SubSp? || i.AddSp? || i.AndSp? || i.Spill? || i.Top? ||
    i.LoadArg? || i.StoreArg? || i.PushRbp? || i.MovRbpSp? || i.Leave?
  }

  /** At most `k` steps. */
  function Iterate(step: Cpu -> Status, k: nat, s: Cpu): Status {
    if k == 0 then Running(s)
    else match step(s)
      case Running(t) => Iterate(step, k - 1, t)
      case o => o
  }

  lemma {:induction false} IterateAdd(step: Cpu -> Status, j: nat, k: nat, s: Cpu)
    ensures Iterate(step, j + k, s) == match Iterate(step, j, s) case Running(t) => Iterate(step, k, t) case o => o
  {
    if j > 0 {
      var o := step(s);
      if o.Running? { IterateAdd(step, j - 1, k, o.s); }
    }
  }

  /** Code together with the functions that run one instruction, find a label, and run up to
      a number of instructions. Keeping these abstract lets proofs compose runs without
      looking into single instructions. */
  datatype Machine = Machine(code: seq<Instr>, step: Cpu -> Status, position: Lab -> int, run: (nat, Cpu) -> Status)

  function Load(code: seq<Instr>): Machine {
    var step := (s: Cpu) => Step(code, s);
    Machine(code, step, (l: Lab) => Position(code, l), (k: nat, s: Cpu) => Iterate(step, k, s))
  }

  ghost predicate Faithful(m: Machine) {
    && (forall s {:trigger Step(m.code, s)} :: m.step(s) == Step(m.code, s))
    && (forall l {:trigger Position(m.code, l)} :: m.position(l) == Position(m.code, l))
    && (forall k, s {:trigger Iterate(m.step, k, s)} :: m.run(k, s) == Iterate(m.step, k, s))
  }

  lemma LoadFaithful(code: seq<Instr>)
    ensures Faithful(Load(code))
  {
  }

  lemma RunNone(m: Machine, s: Cpu)
    requires Faithful(m)
    ensures m.run(0, s) == Running(s)
  {
    assert Iterate(m.step, 0, s) == Running(s);
  }

  lemma RunOne(m: Machine, s: Cpu)
    requires Faithful(m)
    ensures m.run(1, s) == m.step(s)
  {
    var o := m.step(s);
    assert o.Running? ==> Iterate(m.step, 0, o.s) == o;
    assert Iterate(m.step, 1, s) == o;
  }

  lemma RunAdd(m: Machine, j: nat, k: nat, s: Cpu)
    requires Faithful(m)
    ensures m.run(j + k, s) == match m.run(j, s) case Running(t) => m.run(k, t) case o => o
  {
    IterateAdd(m.step, j, k, s);
    var o := Iterate(m.step, j, s);
    if o.Running? { assert m.run(k, o.s) == Iterate(m.step, k, o.s); }
    assert m.run(j + k, s) == Iterate(m.step, j + k, s);
  }

  /** One more step. */
  lemma Extend(m: Machine, k: nat, s: Cpu, t: Cpu)
    requires Faithful(m) && m.run(k, s) == Running(t)
    ensures m.run(k + 1, s) == m.step(t)
  {
    RunAdd(m, k, 1, s);
    RunOne(m, t);
  }

  lemma WrapFits(x: int)
    ensures Fits(Wrap(x)) && (Fits(x) ==> Wrap(x) == x)
  {
  }
}
