/** Calling sequences of the hosted x86-64 back end (src/compiler/x86_backend.c): they keep
    the stack aligned, pass every argument where the callee looks for it, and clean up. */
module HostedCalls {

  datatype Register = RAX | RCX | RDX | R8 | R9 | R10

  datatype Instr =
    | SubSp(n: nat) | AddSp(n: nat)
    | Load(off: nat, reg: Register)   // movq off(%rsp), reg
    | Store(reg: Register, off: nat)  // movq reg, off(%rsp)
    | Zero(reg: Register)             // xorq reg, reg
    | StoreZero(off: nat)             // movq $0, off(%rsp)

  type Memory = map<int, int>

  datatype Cpu = Cpu(regs: map<Register, int>, rsp: int, mem: Memory)

  function Peek(m: Memory, a: int): int {
    if a in m then m[a] else 0
  }

  function Get(s: Cpu, r: Register): int {
    if r in s.regs then s.regs[r] else 0
  }

  function Step(i: Instr, s: Cpu): Cpu {
    match i
    case SubSp(n) => s.(rsp := s.rsp - n)
    case AddSp(n) => s.(rsp := s.rsp + n)
    case Load(off, r) => s.(regs := s.regs[r := Peek(s.mem, s.rsp + off)])
    case Store(r, off) => s.(mem := s.mem[s.rsp + off := Get(s, r)])
    case Zero(r) => s.(regs := s.regs[r := 0])
    case StoreZero(off) => s.(mem := s.mem[s.rsp + off := 0])
  }

  function Run(ops: seq<Instr>, s: Cpu): Cpu {
    if ops == [] then s else Step(ops[|ops| - 1], Run(ops[..|ops| - 1], s))
  }

  lemma {:induction false} RunConcat(a: seq<Instr>, b: seq<Instr>, s: Cpu)
    ensures Run(a + b, s) == Run(b, Run(a, s))
    decreases |b|
  {
    if b == [] {
      assert a + b == a;
    } else {
      assert (a + b)[..|a + b| - 1] == a + b[..|b| - 1];
      RunConcat(a, b[..|b| - 1], s);
    }
  }

  lemma {:induction false} RunOne(i: Instr, s: Cpu)
    ensures Run([i], s) == Step(i, s)
  {
    assert [i][..0] == [] && Run([], s) == s;
  }

  /** What is done before and after a call, chosen by `testq $8, %rsp`: the first for a stack
      that is not a multiple of 16. */
  datatype Site = Site(ops: seq<Instr>, after: seq<Instr>)

  datatype Sequence = Sequence(head: seq<Instr>, odd: Site, even: Site, tail: seq<Instr>)

  function Chosen(q: Sequence, s: Cpu): Site {
    if s.rsp % 16 == 8 then q.odd else q.even
  }

  /** The state at the call. */
  function AtCall(q: Sequence, s: Cpu): Cpu {
    var t := Run(q.head, s);
    Run(Chosen(q, t).ops, t)
  }

  /** The state after the sequence when the call returns in state `r`. */
  function AfterCall(q: Sequence, s: Cpu, r: Cpu): Cpu {
    Run(q.tail, Run(Chosen(q, Run(q.head, s)).after, r))
  }

  // ---- The code ----

  function ArgRegister(a: nat): Register {
    match a case 0 => RCX case 1 => RDX case 2 => R8 case _ => R9
  }

  /** A call of the runtime (call0). */
  function RuntimeCall(head: seq<Instr>): Sequence {
    Sequence(head, Site([SubSp(40)], [AddSp(40)]), Site([SubSp(32)], [AddSp(32)]), [])
  }

  /** Loads of the first `n` arguments, pushed in order, from `base` bytes up. */
  function Loads(count: nat, base: nat, n: nat): seq<Instr>
    requires n <= count
  {
    if n == 0 then [] else Loads(count, base, n - 1) + [Load(base + (count - n) * 8, ArgRegister(n - 1))]
  }

  /** Copies of arguments 4 to `n` - 1 to the stack arguments of the call. */
  function Moves(count: nat, base: nat, n: nat): seq<Instr>
    requires n <= count
  {
    if n <= 4 then []
    else Moves(count, base, n - 1) + [Load(base + (count - n) * 8, R10), Store(R10, 32 + (n - 5) * 8)]
  }

  function Area(count: nat): nat
    requires count > 4
  {
    32 + (count - 4) * 8
  }

  function UserArea(count: nat, area: nat): Site
    requires count > 4
  {
    Site([SubSp(area)] + Loads(count, area, 4) + Moves(count, area, count), [AddSp(area + count * 8)])
  }

  /** A call of a function of the program, with its arguments pushed (emit_user_call). */
  function UserCall(count: nat): Sequence {
    if count <= 4 then RuntimeCall(Loads(count, 0, count) + (if count > 0 then [AddSp(count * 8)] else []))
    else
      var area := Area(count);
      if area % 16 == 0 then Sequence([], UserArea(count, area + 8), UserArea(count, area), [])
      else Sequence([], UserArea(count, area), UserArea(count, area + 8), [])
  }

  /** A call of a foreign function: library, symbol and up to six integers have been pushed,
      and then their number (emit_ffi_call_area). */
  function FfiArea(count: nat, area: nat): Site
    requires 2 <= count <= 8
  {
    Site([SubSp(area), Load(area + count * 8, RCX), Load(area + (count - 1) * 8, RDX)]
         + FfiRegister(count, area, 2) + FfiRegister(count, area, 3)
         + FfiStack(count, area, 8) + [Load(area, R10), Store(R10, 64)],
         [AddSp(area)])
  }

  function FfiRegister(count: nat, area: nat, a: nat): seq<Instr> {
    [if a >= count then Zero(ArgRegister(a)) else Load(area + 8 + (count - 1 - a) * 8, ArgRegister(a))]
  }

  /** Stack arguments 4 to `n` - 1. */
  function FfiStack(count: nat, area: nat, n: nat): seq<Instr> {
    if n <= 4 then [] else FfiStack(count, area, n - 1) + FfiMove(count, area, n - 1)
  }

  function FfiMove(count: nat, area: nat, a: nat): seq<Instr>
    requires a >= 4
  {
    if a >= count then [StoreZero(32 + (a - 4) * 8)]
    else [Load(area + 8 + (count - 1 - a) * 8, R10), Store(R10, 32 + (a - 4) * 8)]
  }

  function FfiCall(count: nat): Sequence
    requires 2 <= count <= 8
  {
    Sequence([], FfiArea(count, 72), FfiArea(count, 80), [AddSp((count + 1) * 8)])
  }

  // ---- What a call needs ----

  /** The word of argument `a` of `count` pushed one after the other. */
  predicate Word(s: Cpu, base: nat, count: nat, a: nat, v: int) {
    a < count && Peek(s.mem, s.rsp + base + (count - 1 - a) * 8) == v
  }

  ghost predicate Pushed(s: Cpu, base: nat, vs: seq<int>) {
    forall a :: 0 <= a < |vs| ==> Word(s, base, |vs|, a, vs[a])
  }

  predicate InRegister(c: Cpu, a: nat, v: int) {
    Get(c, ArgRegister(a)) == v
  }

  /** Above the home space of the four registers. */
  predicate OnStack(c: Cpu, a: nat, v: int) {
    Peek(c.mem, c.rsp + 32 + (a - 4) * 8) == v
  }

  /** Aligned, with the first four arguments in registers and the others on the stack. */
  ghost predicate Passed(c: Cpu, vs: seq<int>) {
    && c.rsp % 16 == 0
    && (|vs| > 0 ==> Get(c, RCX) == vs[0]) && (|vs| > 1 ==> Get(c, RDX) == vs[1])
    && (|vs| > 2 ==> Get(c, R8) == vs[2]) && (|vs| > 3 ==> Get(c, R9) == vs[3])
    && (forall a :: 0 <= a < |vs| && a < 4 ==> InRegister(c, a, vs[a]))
    && (forall a :: 4 <= a < |vs| ==> OnStack(c, a, vs[a]))
  }

  ghost predicate SameAbove(m: Memory, m1: Memory, a: int) {
    forall b :: b >= a ==> Peek(m1, b) == Peek(m, b)
  }

  /** A call returns with the stack pointer back and memory above its own arguments as it
      was. */
  ghost predicate Returns(c: Cpu, r: Cpu, own: nat) {
    r.rsp == c.rsp && SameAbove(c.mem, r.mem, c.rsp + own)
  }

  // ---- Loading and moving ----

  lemma {:induction false} LoadsRun(count: nat, base: nat, n: nat, s: Cpu, vs: seq<int>)
    requires |vs| == count && n <= count && n <= 4 && Pushed(s, base, vs)
    ensures var t := Run(Loads(count, base, n), s);
      t.rsp == s.rsp && t.mem == s.mem && forall a :: 0 <= a < n ==> InRegister(t, a, vs[a])
    decreases n
  {
    if n > 0 {
      LoadsRun(count, base, n - 1, s, vs);
      assert Word(s, base, count, n - 1, vs[n - 1]);
      LoadOne(Loads(count, base, n - 1), base + (count - n) * 8, n - 1, s);
      var t, u := Run(Loads(count, base, n - 1), s), Run(Loads(count, base, n), s);
      forall a | 0 <= a < n ensures InRegister(u, a, vs[a]) {
        if a < n - 1 { assert InRegister(t, a, vs[a]); }
      }
    }
  }

  lemma {:induction false} LoadOne(before: seq<Instr>, off: nat, a: nat, s: Cpu)
    requires a < 4
    ensures var t, u := Run(before, s), Run(before + [Load(off, ArgRegister(a))], s);
      && u.rsp == t.rsp && u.mem == t.mem && InRegister(u, a, Peek(t.mem, t.rsp + off))
      && (forall b, v :: 0 <= b < 4 && b != a && InRegister(t, b, v) ==> InRegister(u, b, v))
  {
    RunConcat(before, [Load(off, ArgRegister(a))], s);
    RunOne(Load(off, ArgRegister(a)), Run(before, s));
  }

  /** What moving leaves: the stack arguments so far, and everything from `base` up. */
  ghost predicate Moved(s: Cpu, t: Cpu, base: nat, n: nat, vs: seq<int>)
    requires n <= |vs|
  {
    && t.rsp == s.rsp && SameAbove(s.mem, t.mem, s.rsp + base)
    && (forall a, v :: 0 <= a < 4 && InRegister(s, a, v) ==> InRegister(t, a, v))
    && (forall a :: 4 <= a < n ==> OnStack(t, a, vs[a]))
  }

  /** No argument is overwritten before it is read: all destinations lie below `base`. */
  lemma {:induction false} MovesRun(count: nat, base: nat, n: nat, s: Cpu, vs: seq<int>)
    requires |vs| == count && n <= count && 4 < count && base >= Area(count) && Pushed(s, base, vs)
    ensures Moved(s, Run(Moves(count, base, n), s), base, n, vs)
    decreases n
  {
    if n > 4 {
      var before := Moves(count, base, n - 1);
      MovesRun(count, base, n - 1, s, vs);
      MoveOne(base + (count - n) * 8, 32 + (n - 5) * 8, before, s);
      assert Word(s, base, count, n - 1, vs[n - 1]);
      MovedOne(s, Run(before, s), Run(Moves(count, base, n), s), base, n, vs);
    }
  }

  lemma {:induction false} MovedOne(s: Cpu, t: Cpu, u: Cpu, base: nat, n: nat, vs: seq<int>)
    requires 4 < n <= |vs| && base >= 32 + (n - 4) * 8 && Moved(s, t, base, n - 1, vs) && Word(s, base, |vs|, n - 1, vs[n - 1])
    requires var v := Peek(t.mem, t.rsp + (base + (|vs| - n) * 8));
      u == t.(regs := t.regs[R10 := v], mem := t.mem[t.rsp + (32 + (n - 5) * 8) := v])
    ensures Moved(s, u, base, n, vs)
  {
    assert u.mem[t.rsp + (32 + (n - 5) * 8)] == vs[n - 1];
    forall a | 4 <= a < n ensures OnStack(u, a, vs[a]) {
      if a < n - 1 { assert OnStack(t, a, vs[a]); }
    }
  }

  lemma {:induction false} MoveOne(from: nat, to: nat, before: seq<Instr>, s: Cpu)
    ensures var t := Run(before, s); var v := Peek(t.mem, t.rsp + from);
      Run(before + [Load(from, R10), Store(R10, to)], s) == t.(regs := t.regs[R10 := v], mem := t.mem[t.rsp + to := v])
  {
    var t := Run(before, s);
    var two := [Load(from, R10), Store(R10, to)];
    RunConcat(before, two, s);
    RunConcat([Load(from, R10)], [Store(R10, to)], t);
    assert two == [Load(from, R10)] + [Store(R10, to)];
    RunOne(Load(from, R10), t);
    RunOne(Store(R10, to), Step(Load(from, R10), t));
  }

  // ---- Alignment ----

  lemma {:induction false} Aligned(rsp: int, area: nat)
    requires rsp % 8 == 0 && area % 8 == 0
    ensures rsp % 16 == 0 || rsp % 16 == 8
    ensures area % 16 == 0 || area % 16 == 8
    ensures (rsp - area) % 16 == 0 <==> rsp % 16 == area % 16
  {
    var q, p := rsp / 8, area / 8;
    assert rsp == 8 * q && area == 8 * p;
  }

  // ---- The sequences ----

  /** A runtime call is made with an aligned stack from every depth, with the registers as
      they were, and leaves the stack pointer as it was. */
  lemma {:induction false} RuntimeRuns(head: seq<Instr>, s: Cpu, r: Cpu)
    requires Run(head, s).rsp % 8 == 0
    ensures var q := RuntimeCall(head); var t, c := Run(head, s), AtCall(q, s);
      && c.rsp % 16 == 0 && c.regs == t.regs && c.mem == t.mem && c.rsp + 32 <= t.rsp
      && (r.rsp == c.rsp ==> AfterCall(q, s, r) == r.(rsp := t.rsp))
  {
    var q, t := RuntimeCall(head), Run(head, s);
    var n := if t.rsp % 16 == 8 then 40 else 32;
    Aligned(t.rsp, n);
    RunOne(SubSp(n), t);
    RunOne(AddSp(n), r);
    assert Run([], Run([AddSp(n)], r)) == Run([AddSp(n)], r);
  }

  /** Loading at most four arguments and popping them. */
  lemma {:induction false} SmallHead(vs: seq<int>, s: Cpu)
    requires |vs| <= 4 && Pushed(s, 0, vs)
    ensures var t := Run(UserCall(|vs|).head, s);
      t.rsp == s.rsp + 8 * |vs| && t.mem == s.mem && forall a :: 0 <= a < |vs| ==> InRegister(t, a, vs[a])
  {
    var count := |vs|;
    var loads, pop := Loads(count, 0, count), if count > 0 then [AddSp(count * 8)] else [];
    LoadsRun(count, 0, count, s, vs);
    RunConcat(loads, pop, s);
    if count > 0 { RunOne(AddSp(count * 8), Run(loads, s)); } else { assert Run([], Run(loads, s)) == Run(loads, s); }
  }

  /** At most four arguments: they are in registers, and popped before the call. */
  lemma {:induction false} SmallCall(vs: seq<int>, s: Cpu, r: Cpu)
    requires |vs| <= 4 && s.rsp % 8 == 0 && Pushed(s, 0, vs)
    ensures var q := UserCall(|vs|); var c := AtCall(q, s);
      && Passed(c, vs) && SameAbove(s.mem, c.mem, s.rsp)
      && (Returns(c, r, 32) ==> AfterCall(q, s, r) == r.(rsp := s.rsp + 8 * |vs|) && SameAbove(s.mem, r.mem, s.rsp + 8 * |vs|))
  {
    var q := UserCall(|vs|);
    var t, c := Run(q.head, s), AtCall(q, s);
    SmallHead(vs, s);
    Words(s.rsp, |vs|);
    RuntimeRuns(q.head, s, r);
    forall a | 0 <= a < |vs| ensures InRegister(c, a, vs[a]) { assert InRegister(t, a, vs[a]); }
    PassedFew(c, vs);
  }

  lemma {:induction false} PassedFew(c: Cpu, vs: seq<int>)
    requires |vs| <= 4 && c.rsp % 16 == 0 && forall a :: 0 <= a < |vs| ==> InRegister(c, a, vs[a])
    ensures Passed(c, vs)
  {
    assert |vs| > 0 ==> InRegister(c, 0, vs[0]);
    assert |vs| > 1 ==> InRegister(c, 1, vs[1]);
    assert |vs| > 2 ==> InRegister(c, 2, vs[2]);
    assert |vs| > 3 ==> InRegister(c, 3, vs[3]);
  }

  lemma {:induction false} Words(rsp: int, n: nat)
    requires rsp % 8 == 0
    ensures (rsp + 8 * n) % 8 == 0
  {
  }

  /** The area of a call whose padding fits the depth. */
  lemma {:induction false} AreaRuns(count: nat, area: nat, vs: seq<int>, s: Cpu)
    requires |vs| == count > 4 && area >= Area(count) && area % 8 == 0 && s.rsp % 8 == 0 && s.rsp % 16 == area % 16 && Pushed(s, 0, vs)
    ensures var c := Run(UserArea(count, area).ops, s); c.rsp == s.rsp - area && Passed(c, vs) && SameAbove(s.mem, c.mem, s.rsp)
  {
    var t := Step(SubSp(area), s);
    var loads, moves := Loads(count, area, 4), Moves(count, area, count);
    RunOne(SubSp(area), s);
    Aligned(s.rsp, area);
    RunConcat([SubSp(area)], loads, s);
    RunConcat([SubSp(area)] + loads, moves, s);
    PushedBelow(s, area, vs);
    LoadsRun(count, area, 4, t, vs);
    var u := Run(loads, t);
    PushedSame(t, u, area, vs);
    MovesRun(count, area, count, u, vs);
    PassedAll(u, Run(moves, u), area, vs);
  }

  lemma {:induction false} PassedAll(u: Cpu, c: Cpu, area: nat, vs: seq<int>)
    requires |vs| > 4 && Moved(u, c, area, |vs|, vs) && u.rsp % 16 == 0 && forall a :: 0 <= a < 4 ==> InRegister(u, a, vs[a])
    ensures Passed(c, vs)
  {
    forall a | 0 <= a < 4 ensures InRegister(c, a, vs[a]) { assert InRegister(u, a, vs[a]); }
  }

  lemma {:induction false} PushedBelow(s: Cpu, area: nat, vs: seq<int>)
    requires Pushed(s, 0, vs)
    ensures Pushed(Step(SubSp(area), s), area, vs)
  {
    var t := Step(SubSp(area), s);
    forall a | 0 <= a < |vs| ensures Word(t, area, |vs|, a, vs[a]) { assert Word(s, 0, |vs|, a, vs[a]); }
  }

  lemma {:induction false} PushedSame(s: Cpu, t: Cpu, base: nat, vs: seq<int>)
    requires Pushed(s, base, vs) && t.rsp == s.rsp && t.mem == s.mem
    ensures Pushed(t, base, vs)
  {
    forall a | 0 <= a < |vs| ensures Word(t, base, |vs|, a, vs[a]) { assert Word(s, base, |vs|, a, vs[a]); }
  }

  /** One of the two areas fits the depth. */
  lemma {:induction false} Fitting(rsp: int, area: nat) returns (used: nat)
    requires rsp % 8 == 0 && area % 8 == 0
    ensures (used == area || used == area + 8) && used % 8 == 0 && rsp % 16 == used % 16
    ensures used == if area % 16 == 0 then (if rsp % 16 == 8 then area + 8 else area) else (if rsp % 16 == 8 then area else area + 8)
  {
    Aligned(rsp, area);
    Aligned(rsp, area + 8);
    used := if rsp % 16 == area % 16 then area else area + 8;
  }

  /** The padded area is taken exactly when the other would be misaligned. */
  lemma {:induction false} AreaChosen(count: nat, s: Cpu) returns (used: nat)
    requires count > 4 && s.rsp % 8 == 0
    ensures (used == Area(count) || used == Area(count) + 8) && used % 8 == 0 && s.rsp % 16 == used % 16
    ensures Run(UserCall(count).head, s) == s && Chosen(UserCall(count), s) == UserArea(count, used)
  {
    used := Fitting(s.rsp, Area(count));
    assert Run([], s) == s;
  }

  /** More than four arguments: the area is padded according to the depth. */
  lemma {:induction false} LargeCall(vs: seq<int>, s: Cpu, r: Cpu)
    requires |vs| > 4 && s.rsp % 8 == 0 && Pushed(s, 0, vs)
    ensures var q := UserCall(|vs|); var c := AtCall(q, s);
      && Passed(c, vs) && SameAbove(s.mem, c.mem, s.rsp)
      && (Returns(c, r, Area(|vs|)) ==> AfterCall(q, s, r) == r.(rsp := s.rsp + 8 * |vs|) && SameAbove(s.mem, r.mem, s.rsp))
  {
    var used := AreaChosen(|vs|, s);
    AreaRuns(|vs|, used, vs, s);
    var all := used + |vs| * 8;
    RunOne(AddSp(all), r);
    assert Run([], Run([AddSp(all)], r)) == Run([AddSp(all)], r);
  }

  // ---- Foreign calls ----

  /** An argument, or 0 if it was not given. */
  function Given(vs: seq<int>, a: nat): int {
    if a < |vs| then vs[a] else 0
  }

  /** What the callee gets: arguments that were not given are 0, and the number of integers
      comes last. */
  ghost predicate FfiPassed(c: Cpu, vs: seq<int>) {
    && c.rsp % 16 == 0
    && (forall a :: 0 <= a < 4 ==> InRegister(c, a, Given(vs, a)))
    && (forall a :: 4 <= a < 8 ==> OnStack(c, a, Given(vs, a)))
    && OnStack(c, 8, |vs| - 2)
  }

  /** Stack arguments 4 to `n` - 1 are in place. */
  ghost predicate FfiDone(s: Cpu, t: Cpu, area: nat, n: nat, vs: seq<int>) {
    && t.rsp == s.rsp && SameAbove(s.mem, t.mem, s.rsp + area)
    && (forall a, v :: 0 <= a < 4 && InRegister(s, a, v) ==> InRegister(t, a, v))
    && (forall a :: 4 <= a < n ==> OnStack(t, a, Given(vs, a)))
  }

  lemma {:induction false} FfiMoves(count: nat, area: nat, n: nat, s: Cpu, vs: seq<int>)
    requires |vs| == count && n <= 8 && area >= 72 && Pushed(s, area + 8, vs)
    ensures FfiDone(s, Run(FfiStack(count, area, n), s), area, n, vs)
    decreases n
  {
    if n > 4 {
      var before := FfiStack(count, area, n - 1);
      FfiMoves(count, area, n - 1, s, vs);
      if n - 1 < count {
        MoveOne(area + 8 + (count - n) * 8, 32 + (n - 5) * 8, before, s);
        assert Word(s, area + 8, count, n - 1, vs[n - 1]);
      } else {
        RunConcat(before, [StoreZero(32 + (n - 5) * 8)], s);
        RunOne(StoreZero(32 + (n - 5) * 8), Run(before, s));
      }
      FfiMoved(s, Run(before, s), Run(FfiStack(count, area, n), s), area, n, vs);
    }
  }

  lemma {:induction false} FfiMoved(s: Cpu, t: Cpu, u: Cpu, area: nat, n: nat, vs: seq<int>)
    requires 4 < n <= 8 && area >= 72 && u.rsp == t.rsp && FfiDone(s, t, area, n - 1, vs)
    requires u.mem == t.mem[t.rsp + (32 + (n - 5) * 8) := Given(vs, n - 1)]
    requires u.regs == t.regs || u.regs == t.regs[R10 := Get(u, R10)]
    ensures FfiDone(s, u, area, n, vs)
  {
    forall a | 4 <= a < n ensures OnStack(u, a, Given(vs, a)) {
      if a < n - 1 { assert OnStack(t, a, Given(vs, a)); }
    }
    forall a, v | 0 <= a < 4 && InRegister(s, a, v) ensures InRegister(u, a, v) { assert InRegister(t, a, v); }
  }

  /** The four register arguments. */
  function FfiLoads(count: nat, area: nat, n: nat): seq<Instr>
    requires 2 <= count && n <= 4
  {
    if n == 0 then [] else FfiLoads(count, area, n - 1) + FfiRegister(count, area, n - 1)
  }

  lemma {:induction false} FfiLoadsRun(count: nat, area: nat, n: nat, s: Cpu, vs: seq<int>)
    requires |vs| == count && 2 <= count && n <= 4 && Pushed(s, area + 8, vs)
    ensures var t := Run(FfiLoads(count, area, n), s);
      t.rsp == s.rsp && t.mem == s.mem && forall a :: 0 <= a < n ==> InRegister(t, a, Given(vs, a))
    decreases n
  {
    if n > 0 {
      var before := FfiLoads(count, area, n - 1);
      FfiLoadsRun(count, area, n - 1, s, vs);
      FfiLoadOne(before, count, area, n - 1, s, vs);
      var t, u := Run(before, s), Run(FfiLoads(count, area, n), s);
      forall a | 0 <= a < n ensures InRegister(u, a, Given(vs, a)) {
        if a < n - 1 { assert InRegister(t, a, Given(vs, a)); }
      }
    }
  }

  lemma {:induction false} FfiLoadOne(before: seq<Instr>, count: nat, area: nat, a: nat, s: Cpu, vs: seq<int>)
    requires |vs| == count && 2 <= count && a < 4 && Pushed(s, area + 8, vs)
    requires Run(before, s).rsp == s.rsp && Run(before, s).mem == s.mem
    ensures var t, u := Run(before, s), Run(before + FfiRegister(count, area, a), s);
      && u.rsp == s.rsp && u.mem == s.mem && InRegister(u, a, Given(vs, a))
      && (forall b, v :: 0 <= b < 4 && b != a && InRegister(t, b, v) ==> InRegister(u, b, v))
  {
    if a < count {
      assert Word(s, area + 8, count, a, vs[a]);
      LoadOne(before, area + 8 + (count - 1 - a) * 8, a, s);
    } else {
      RunConcat(before, [Zero(ArgRegister(a))], s);
      RunOne(Zero(ArgRegister(a)), Run(before, s));
      ZeroOne(Run(before, s), a);
    }
  }

  lemma {:induction false} ZeroOne(t: Cpu, a: nat)
    requires a < 4
    ensures var u := Step(Zero(ArgRegister(a)), t);
      InRegister(u, a, 0) && forall b, v :: 0 <= b < 4 && b != a && InRegister(t, b, v) ==> InRegister(u, b, v)
  {
  }

  /** The code in the parts that the lemmas are about. */
  lemma {:induction false} FfiParts(count: nat, area: nat)
    requires 2 <= count <= 8
    ensures FfiArea(count, area).ops ==
      [SubSp(area)] + FfiLoads(count, area, 4) + FfiStack(count, area, 8) + [Load(area, R10), Store(R10, 64)]
  {
    assert FfiLoads(count, area, 1) == [Load(area + count * 8, RCX)];
    assert FfiLoads(count, area, 2) == [Load(area + count * 8, RCX), Load(area + (count - 1) * 8, RDX)];
    assert FfiLoads(count, area, 4) == FfiLoads(count, area, 2) + FfiRegister(count, area, 2) + FfiRegister(count, area, 3);
  }

  /** Up to the register arguments. */
  lemma {:induction false} FfiHead(vs: seq<int>, area: nat, s: Cpu)
    requires 2 <= |vs| <= 8 && Pushed(s, 8, vs)
    ensures var u := Run([SubSp(area)] + FfiLoads(|vs|, area, 4), s);
      u.rsp == s.rsp - area && u.mem == s.mem && Pushed(u, area + 8, vs) && forall a :: 0 <= a < 4 ==> InRegister(u, a, Given(vs, a))
  {
    var t := Step(SubSp(area), s);
    RunOne(SubSp(area), s);
    RunConcat([SubSp(area)], FfiLoads(|vs|, area, 4), s);
    PushedUnder(s, area, vs);
    FfiLoadsRun(|vs|, area, 4, t, vs);
    PushedSame(t, Run(FfiLoads(|vs|, area, 4), t), area + 8, vs);
  }

  /** The run in three parts. */
  lemma {:induction false} FfiSplit(count: nat, area: nat, s: Cpu) returns (u: Cpu, m: Cpu, c: Cpu)
    requires 2 <= count <= 8
    ensures c == Run(FfiArea(count, area).ops, s)
    ensures u == Run([SubSp(area)] + FfiLoads(count, area, 4), s) && m == Run(FfiStack(count, area, 8), u)
    ensures var v := Peek(m.mem, m.rsp + area); c == m.(regs := m.regs[R10 := v], mem := m.mem[m.rsp + 64 := v])
  {
    var head, moves := [SubSp(area)] + FfiLoads(count, area, 4), FfiStack(count, area, 8);
    FfiParts(count, area);
    RunConcat(head, moves, s);
    MoveOne(area, 64, head + moves, s);
    u := Run(head, s);
    m := Run(moves, u);
    c := Run(FfiArea(count, area).ops, s);
  }

  lemma {:induction false} FfiRuns(vs: seq<int>, area: nat, s: Cpu)
    requires 2 <= |vs| <= 8 && (area == 72 || area == 80) && s.rsp % 8 == 0 && s.rsp % 16 == area % 16
    requires Pushed(s, 8, vs) && Peek(s.mem, s.rsp) == |vs| - 2
    ensures var c := Run(FfiArea(|vs|, area).ops, s); c.rsp == s.rsp - area && FfiPassed(c, vs) && SameAbove(s.mem, c.mem, s.rsp)
  {
    var u, m, c := FfiSplit(|vs|, area, s);
    Aligned(s.rsp, area);
    FfiHead(vs, area, s);
    assert u.rsp % 16 == 0 && u.rsp + area == s.rsp && Peek(u.mem, u.rsp + area) == |vs| - 2;
    FfiMoves(|vs|, area, 8, u, vs);
    FfiLast(u, m, c, area, vs);
  }

  lemma {:induction false} PushedUnder(s: Cpu, area: nat, vs: seq<int>)
    requires Pushed(s, 8, vs)
    ensures Pushed(Step(SubSp(area), s), area + 8, vs)
  {
    var t := Step(SubSp(area), s);
    forall a | 0 <= a < |vs| ensures Word(t, area + 8, |vs|, a, vs[a]) { assert Word(s, 8, |vs|, a, vs[a]); }
  }

  lemma {:induction false} FfiLast(u: Cpu, m: Cpu, c: Cpu, area: nat, vs: seq<int>)
    requires 2 <= |vs| <= 8 && area >= 72 && u.rsp % 16 == 0 && FfiDone(u, m, area, 8, vs)
    requires Peek(u.mem, u.rsp + area) == |vs| - 2
    requires forall a :: 0 <= a < 4 ==> InRegister(u, a, Given(vs, a))
    requires var v := Peek(m.mem, m.rsp + area); c == m.(regs := m.regs[R10 := v], mem := m.mem[m.rsp + 64 := v])
    ensures FfiPassed(c, vs) && SameAbove(u.mem, c.mem, u.rsp + area)
  {
    forall a | 0 <= a < 4 ensures InRegister(c, a, Given(vs, a)) {
      assert InRegister(u, a, Given(vs, a));
      assert InRegister(m, a, Given(vs, a));
    }
    forall a | 4 <= a < 8 ensures OnStack(c, a, Given(vs, a)) { assert OnStack(m, a, Given(vs, a)); }
  }

  /** A foreign call of any depth and number of arguments. */
  lemma {:induction false} ForeignCall(vs: seq<int>, s: Cpu, r: Cpu)
    requires 2 <= |vs| <= 8 && s.rsp % 8 == 0 && Pushed(s, 8, vs) && Peek(s.mem, s.rsp) == |vs| - 2
    ensures var q := FfiCall(|vs|); var c := AtCall(q, s);
      && FfiPassed(c, vs) && SameAbove(s.mem, c.mem, s.rsp)
      && (Returns(c, r, 72) ==> AfterCall(q, s, r) == r.(rsp := s.rsp + 8 * (|vs| + 1)) && SameAbove(s.mem, r.mem, s.rsp))
  {
    var used := Fitting(s.rsp, 72);
    assert Run([], s) == s;
    FfiRuns(vs, used, s);
    RunOne(AddSp(used), r);
    RunOne(AddSp((|vs| + 1) * 8), Step(AddSp(used), r));
  }

  // ---- The callee ----

  /** The address from which the callee's prologue loads parameter `p` of more than four: the
      frame pointer is two words below the stack pointer of the call. */
  function ParamAddress(rbp: int, p: nat): int
    requires p >= 4
  {
    rbp + 48 + (p - 4) * 8
  }

  /** The word that the prologue stores for parameter `p`, when it is entered from state `c`
      with the return address and the frame pointer pushed. */
  function Received(c: Cpu, m: Memory, p: nat): int {
    if p < 4 then Get(c, ArgRegister(p)) else Peek(m, ParamAddress(c.rsp - 16, p))
  }

  /** The callee receives every argument, whatever it has pushed and stored below. */
  lemma {:induction false} Delivered(vs: seq<int>, c: Cpu, m: Memory, p: nat)
    requires Passed(c, vs) && p < |vs| && SameAbove(c.mem, m, c.rsp)
    ensures Received(c, m, p) == vs[p]
  {
    if p < 4 { assert InRegister(c, p, vs[p]); } else { assert OnStack(c, p, vs[p]); }
  }

  // ---- Builtins with more than four arguments ----

  /** Their area is chosen for one depth only. */
  function BuiltinArea(count: nat): nat
    requires count > 4
  {
    var area := Area(count);
    if (count * 8 + area) % 16 != 0 then area + 8 else area
  }

  /** They are called with an aligned stack exactly when the stack was aligned before their
      arguments were pushed: a spilled operand breaks it. */
  lemma {:induction false} BuiltinAligned(count: nat, rsp: int)
    requires count > 4 && rsp % 8 == 0
    ensures (rsp - 8 * count - BuiltinArea(count)) % 16 == 0 <==> rsp % 16 == 0
  {
    Sixteens(0, count);
    assert count * 8 + Area(count) == 16 * count;
    Sixteens(rsp, count);
  }

  lemma {:induction false} Sixteens(rsp: int, n: int)
    ensures (rsp - 16 * n) % 16 == rsp % 16 && (16 * n) % 16 == 0
  {
  }

  // ---- Emitting ----

  /** emit_user_call_area */
  method EmitUserArea(count: nat, area: nat) returns (site: Site)
    requires count > 4
    ensures site == UserArea(count, area)
  {
    var ops := [SubSp(area)];
    for a := 0 to 4
      invariant ops == [SubSp(area)] + Loads(count, area, a)
    {
      ops := ops + [Load(area + (count - 1 - a) * 8, ArgRegister(a))];
    }
    for a := 4 to count
      invariant ops == [SubSp(area)] + Loads(count, area, 4) + Moves(count, area, a)
    {
      ops := ops + [Load(area + (count - 1 - a) * 8, R10), Store(R10, 32 + (a - 4) * 8)];
    }
    site := Site(ops, [AddSp(area + count * 8)]);
  }

  /** emit_user_call, after the arguments have been evaluated and pushed. */
  method EmitUserCall(count: nat) returns (q: Sequence)
    ensures q == UserCall(count)
  {
    if count <= 4 {
      var ops := [];
      for a := 0 to count
        invariant ops == Loads(count, 0, a)
      {
        ops := ops + [Load((count - 1 - a) * 8, ArgRegister(a))];
      }
      if count > 0 { ops := ops + [AddSp(count * 8)]; }
      q := RuntimeCall(ops);
    } else {
      var area := 32 + (count - 4) * 8;
      var plain := EmitUserArea(count, area);
      var padded := EmitUserArea(count, area + 8);
      q := if area % 16 == 0 then Sequence([], padded, plain, []) else Sequence([], plain, padded, []);
    }
  }

  /** emit_ffi_call_area */
  method EmitFfiArea(count: nat, area: nat) returns (site: Site)
    requires 2 <= count <= 8
    ensures site == FfiArea(count, area)
  {
    var ops := [SubSp(area), Load(area + count * 8, RCX), Load(area + (count - 1) * 8, RDX)];
    ghost var head := ops;
    ops := ops + FfiRegister(count, area, 2);
    ops := ops + FfiRegister(count, area, 3);
    for a := 4 to 8
      invariant ops == head + FfiRegister(count, area, 2) + FfiRegister(count, area, 3) + FfiStack(count, area, a)
    {
      if a >= count {
        ops := ops + [StoreZero(32 + (a - 4) * 8)];
      } else {
        ops := ops + [Load(area + 8 + (count - 1 - a) * 8, R10), Store(R10, 32 + (a - 4) * 8)];
      }
    }
    site := Site(ops + [Load(area, R10), Store(R10, 64)], [AddSp(area)]);
  }
}
