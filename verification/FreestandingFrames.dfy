/** Frames: slots of locals, what calls and spills leave alone, prologue and epilogue. */
module FreestandingFrames {
  import opened Hir
  import opened HirSemantics
  import opened X86
  import opened Freestanding
  import opened FreestandingLabels
  import opened FreestandingSteps

  // ---- The slot table ----

  predicate DistinctSlots(tab: Table) {
    forall i, j :: 0 <= i < j < |tab| ==> tab[i].x != tab[j].x
  }

  /** Slots are never moved. */
  predicate Extends(tab: Table, more: Table) {
    |tab| <= |more| && DistinctSlots(more) && forall i :: 0 <= i < |tab| ==> more[i].x == tab[i].x
  }

  lemma AddExtends(tab: Table, x: string)
    requires DistinctSlots(tab)
    ensures Extends(tab, AddSlot(tab, x))
  {
  }

  lemma RetypeExtends(tab: Table, x: string, t: Type)
    requires DistinctSlots(tab)
    ensures Extends(tab, Retype(tab, x, t))
  {
  }

  lemma {:induction false} ExprExtends(tab: Table, e: Expr)
    requires DistinctSlots(tab)
    ensures Extends(tab, CollectExpr(tab, e))
    decreases e
  {
    match e
    case Local(x) => AddExtends(tab, x);
    case Minus(a) => ExprExtends(tab, a);
    case Negation(a) => ExprExtends(tab, a);
    case Infix(_, l, r) => ExprExtends(tab, l); ExprExtends(CollectExpr(tab, l), r);
    case Apply(_, args) => ArgsExtend(tab, args);
    case _ =>
  }

  lemma {:induction false} ArgsExtend(tab: Table, a: Args)
    requires DistinctSlots(tab)
    ensures Extends(tab, CollectArgs(tab, a))
    decreases a
  {
    if a.Arg? {
      ExprExtends(tab, a.e);
      ArgsExtend(CollectExpr(tab, a.e), a.rest);
    }
  }

  lemma {:induction false} StmtExtends(tab: Table, s: Stmt)
    requires DistinctSlots(tab)
    ensures Extends(tab, CollectStmt(tab, s))
    decreases s
  {
    match s
    case Declare(x, t, init) =>
      AddExtends(tab, x);
      RetypeExtends(AddSlot(tab, x), x, t);
      if init.Some? { ExprExtends(Retype(AddSlot(tab, x), x, t), init.value); }
    case Set(x, e) => AddExtends(tab, x); ExprExtends(AddSlot(tab, x), e);
    case Do(_, args) => ArgsExtend(tab, args);
    case Give(value) => if value.Some? { ExprExtends(tab, value.value); }
    case Choose(c, yes, no) =>
      ExprExtends(tab, c);
      StmtsExtend(CollectExpr(tab, c), yes);
      StmtsExtend(CollectStmts(CollectExpr(tab, c), yes), no);
    case Loop(c, body) => ExprExtends(tab, c); StmtsExtend(CollectExpr(tab, c), body);
    case Group(body) => StmtsExtend(tab, body);
    case _ =>
  }

  lemma {:induction false} StmtsExtend(tab: Table, b: Stmts)
    requires DistinctSlots(tab)
    ensures Extends(tab, CollectStmts(tab, b))
    decreases b
  {
    if b.Then? {
      StmtExtends(tab, b.s);
      StmtsExtend(CollectStmt(tab, b.s), b.rest);
    }
  }

  predicate DistinctNames(ps: seq<string>) {
    forall i, j :: 0 <= i < j < |ps| ==> ps[i] != ps[j]
  }

  lemma {:induction false} ParamSlots(tab: Table, ps: seq<string>)
    requires DistinctSlots(tab) && DistinctNames(ps) && forall i, j :: 0 <= i < |tab| && 0 <= j < |ps| ==> tab[i].x != ps[j]
    ensures Extends(tab, CollectParams(tab, ps)) && |CollectParams(tab, ps)| == |tab| + |ps|
    ensures forall j :: 0 <= j < |ps| ==> CollectParams(tab, ps)[|tab| + j].x == ps[j]
    decreases |ps|
  {
    if ps != [] {
      var one := tab + [Slot(ps[0], true)];
      assert AddSlot(tab, ps[0]) == one;
      ParamRest(tab, ps);
      ParamSlots(one, ps[1..]);
      var r := CollectParams(one, ps[1..]);
      forall j | 0 <= j < |ps| ensures r[|tab| + j].x == ps[j] {
        if j > 0 { assert ps[j] == ps[1..][j - 1]; } else { assert r[|tab|].x == one[|tab|].x; }
      }
    }
  }

  lemma ParamRest(tab: Table, ps: seq<string>)
    requires ps != [] && DistinctSlots(tab) && DistinctNames(ps) && forall i, j :: 0 <= i < |tab| && 0 <= j < |ps| ==> tab[i].x != ps[j]
    ensures var one := tab + [Slot(ps[0], true)];
      && DistinctSlots(one) && DistinctNames(ps[1..])
      && forall i, j :: 0 <= i < |one| && 0 <= j < |ps[1..]| ==> one[i].x != ps[1..][j]
  {
    assert forall j :: 0 <= j < |ps[1..]| ==> ps[1..][j] == ps[j + 1];
  }

  /** Parameters have the first slots, in order. */
  lemma TableFacts(fn: Func)
    requires DistinctNames(fn.params)
    ensures var tab := TableOf(fn);
      DistinctSlots(tab) && |fn.params| <= |tab| && forall j :: 0 <= j < |fn.params| ==> tab[j].x == fn.params[j]
  {
    ParamSlots([], fn.params);
    StmtsExtend(CollectParams([], fn.params), fn.body);
  }

  // ---- Memory ----

  /** Nothing at or above the stack pointer has changed. */
  ghost predicate Calm(s: Cpu, t: Cpu) {
    t.rsp == s.rsp && t.rbp == s.rbp && SameAbove(s.mem, t.mem, s.rsp)
  }

  ghost predicate SameAbove(m: Memory, m1: Memory, a: int) {
    forall b :: b >= a ==> Peek(m1, b) == Peek(m, b)
  }

  predicate SlotHolds(wide: bool, w: int, v: Value) {
    if wide then (v.IntV? || v.BoolV?) && Word(v, w) else v.BoolV? && Low(w) == Bit(v.b)
  }

  function Nth(tab: Table, i: nat): Slot
    requires i < |tab|
  {
    tab[i]
  }

  /** The slots hold the variables. */
  ghost predicate Slots(tab: Table, env: Env, mem: Memory, rbp: int) {
    forall i {:trigger Nth(tab, i)} :: 0 <= i < |tab| && Nth(tab, i).x in env ==>
      SlotHolds(tab[i].wide, Peek(mem, rbp + Disp(i)), env[tab[i].x])
  }

  ghost predicate Separate(tab: Table) {
    forall i, j {:trigger Nth(tab, i), Nth(tab, j)} :: 0 <= i < |tab| && 0 <= j < |tab| && Nth(tab, i).x == Nth(tab, j).x ==> i == j
  }

  /** A frame with `room` free bytes between the stack pointer and the slots. */
  ghost predicate FrameOk(tab: Table, env: Env, s: Cpu, room: nat) {
    && s.rsp % 16 == 0 && s.rbp % 16 == 0
    && s.rsp + room <= s.rbp - 8 * |tab|
    && Slots(tab, env, s.mem, s.rbp)
    && Separate(tab)
  }

  ghost predicate Framed(tab: Table, env: Env, s: Cpu, room: nat) {
    forall u {:trigger ShowFrame(u)} :: ShowFrame(u) ==> FrameOk(tab, env, s, room)
  }

  lemma FrameCalm(tab: Table, env: Env, s: Cpu, t: Cpu, room: nat)
    requires FrameOk(tab, env, s, room) && Calm(s, t)
    ensures FrameOk(tab, env, t, room)
  {
    forall i | 0 <= i < |tab| && Nth(tab, i).x in env
      ensures SlotHolds(tab[i].wide, Peek(t.mem, t.rbp + Disp(i)), env[tab[i].x])
    {
      assert s.rbp + Disp(i) >= s.rsp;
    }
  }

  /** Writing below the slots keeps them. */
  lemma SlotsBelow(tab: Table, env: Env, mem: Memory, rbp: int, a: int, w: int)
    requires Slots(tab, env, mem, rbp) && a < rbp - 8 * |tab|
    ensures Slots(tab, env, mem[a := w], rbp)
  {
    forall i | 0 <= i < |tab| && Nth(tab, i).x in env
      ensures SlotHolds(tab[i].wide, Peek(mem[a := w], rbp + Disp(i)), env[tab[i].x])
    {
      assert rbp + Disp(i) != a;
    }
  }

  lemma Aligned(a: int, i: int)
    requires a % 16 == 0
    ensures (a + 8 * i) % 8 == 0
  {
    assert a == 16 * (a / 16);
    assert a + 8 * i == 8 * (2 * (a / 16) + i);
  }

  lemma {:induction false} SpillSteps(m: Machine, s: Cpu) returns (k: nat, t: Cpu)
    requires Good(m) && At(m.code, s.pc, SpillCode) && s.rsp % 16 == 0
    ensures m.run(k, s) == Running(t) && t == s.(pc := s.pc + 2, rsp := s.rsp - 16, mem := s.mem[s.rsp - 16 := s.rax])
  {
    At2(m.code, s.pc, SubSp(16), Spill(0));
    var u := s.(pc := s.pc + 1, rsp := s.rsp - 16);
    MemoryStep(m, s, SubSp(16));
    Once(m, s);
    Aligned(s.rsp, -2);
    MemoryStep(m, u, Spill(0));
    More(m, 1, s, u);
    k, t := 2, u.(pc := s.pc + 2, mem := s.mem[s.rsp - 16 := s.rax]);
  }

  /** Saving a value on the stack. */
  lemma {:induction false} SpillRuns(m: Machine, tab: Table, env: Env, s: Cpu) returns (k: nat, t: Cpu)
    requires Good(m) && At(m.code, s.pc, SpillCode) && FrameOk(tab, env, s, 0)
    ensures m.run(k, s) == Running(t) && FrameOk(tab, env, t, 0)
    ensures t.pc == s.pc + 2 && t.rsp == s.rsp - 16 && t.rbp == s.rbp && t.mem == s.mem[s.rsp - 16 := s.rax]
  {
    k, t := SpillSteps(m, s);
    SlotsBelow(tab, env, s.mem, s.rbp, s.rsp - 16, s.rax);
  }

  lemma {:induction false} UnspillRuns(m: Machine, s: Cpu) returns (k: nat, t: Cpu)
    requires Good(m) && At(m.code, s.pc, UnspillCode) && s.rsp % 16 == 0
    ensures m.run(k, s) == Running(t)
    ensures t.pc == s.pc + 3 && t.rsp == s.rsp + 16 && t.rbp == s.rbp && t.mem == s.mem && t.rcx == s.rax && t.rax == Peek(s.mem, s.rsp)
  {
    At3(m.code, s.pc, MovRcxRax, Top, AddSp(16));
    Aligned(s.rsp, 0);
    var u := s.(pc := s.pc + 1, rcx := s.rax);
    var v := u.(pc := s.pc + 2, rax := Peek(s.mem, s.rsp));
    DataStep(m, s, MovRcxRax);
    Once(m, s);
    MemoryStep(m, u, Top);
    More(m, 1, s, u);
    MemoryStep(m, v, AddSp(16));
    More(m, 2, s, v);
    k, t := 3, v.(pc := s.pc + 3, rsp := s.rsp + 16);
  }

  /** Loading a local. */
  lemma {:induction false} LoadRuns(m: Machine, tab: Table, env: Env, s: Cpu, x: string, room: nat) returns (t: Cpu)
    requires Good(m) && FrameOk(tab, env, s, room) && x in env && SlotOf(tab, x) != -1
    requires var i := SlotOf(tab, x); At(m.code, s.pc, [if tab[i].wide then LoadQ(Disp(i)) else LoadL(Disp(i))])
    ensures m.run(1, s) == Running(t) && Quiet(s, t, 1) && Word(env[x], t.rax)
  {
    var i := SlotOf(tab, x);
    var load := if tab[i].wide then LoadQ(Disp(i)) else LoadL(Disp(i));
    At1(m.code, s.pc, load);
    Aligned(s.rbp, -(i + 1));
    assert Nth(tab, i).x == x;
    assert SlotHolds(tab[i].wide, Peek(s.mem, s.rbp + Disp(i)), env[tab[i].x]);
    MemoryStep(m, s, load);
    Once(m, s);
    var w := Peek(s.mem, s.rbp + Disp(i));
    t := s.(pc := s.pc + 1, rax := if tab[i].wide then w else Low(w));
  }

  lemma {:induction false} StoreStep(m: Machine, tab: Table, i: nat, s: Cpu) returns (t: Cpu)
    requires Good(m) && i < |tab| && s.rbp % 16 == 0 && At(m.code, s.pc, StoreVar(tab, i))
    ensures m.run(1, s) == Running(t)
    ensures var before := Peek(s.mem, s.rbp + Disp(i));
      t == s.(pc := s.pc + 1, mem := s.mem[s.rbp + Disp(i) := if tab[i].wide then s.rax else before - Low(before) + Low(s.rax)])
  {
    var store := if tab[i].wide then StoreQ(Disp(i)) else StoreL(Disp(i));
    At1(m.code, s.pc, store);
    Aligned(s.rbp, -(i + 1));
    MemoryStep(m, s, store);
    Once(m, s);
    var before := Peek(s.mem, s.rbp + Disp(i));
    t := s.(pc := s.pc + 1, mem := s.mem[s.rbp + Disp(i) := if tab[i].wide then s.rax else before - Low(before) + Low(s.rax)]);
  }

  lemma SlotsStored(tab: Table, env: Env, mem: Memory, rbp: int, i: nat, v: Value, w: int)
    requires Slots(tab, env, mem, rbp) && Separate(tab) && i < |tab| && SlotHolds(tab[i].wide, w, v)
    ensures Slots(tab, env[tab[i].x := v], mem[rbp + Disp(i) := w], rbp)
  {
    var env1, mem1 := env[tab[i].x := v], mem[rbp + Disp(i) := w];
    forall j | 0 <= j < |tab| && Nth(tab, j).x in env1 ensures SlotHolds(tab[j].wide, Peek(mem1, rbp + Disp(j)), env1[tab[j].x]) {
      assert j != i ==> Nth(tab, j).x != Nth(tab, i).x;
    }
  }

  /** Storing a local changes that variable only. */
  lemma {:induction false} StoreRuns(m: Machine, tab: Table, env: Env, s: Cpu, x: string, v: Value) returns (t: Cpu)
    requires Good(m) && FrameOk(tab, env, s, 0) && SlotOf(tab, x) != -1 && Suits(tab, x, v) && Word(v, s.rax)
    requires At(m.code, s.pc, StoreVar(tab, SlotOf(tab, x)))
    ensures m.run(1, s) == Running(t) && FrameOk(tab, env[x := v], t, 0)
    ensures t.pc == s.pc + 1 && t.rsp == s.rsp && t.rbp == s.rbp && SameAbove(s.mem, t.mem, s.rbp)
  {
    var i := SlotOf(tab, x);
    t := StoreStep(m, tab, i, s);
    var before := Peek(s.mem, s.rbp + Disp(i));
    StoredSlot(tab[i].wide, v, s.rax, before);
    SlotsStored(tab, env, s.mem, s.rbp, i, v, if tab[i].wide then s.rax else before - Low(before) + Low(s.rax));
  }

  lemma StoredSlot(wide: bool, v: Value, w: int, before: int)
    requires Word(v, w) && (v.BoolV? || (v.IntV? && wide))
    ensures SlotHolds(wide, if wide then w else before - Low(before) + Low(w), v)
  {
    if v.BoolV? { LowBit(v.b); }
  }

  // ---- Registers of arguments ----

  lemma {:induction false} PutGet(s: Cpu, i: nat, j: nat, w: int)
    requires i < MAX_ARGS && j < MAX_ARGS
    ensures Get(Put(s, ArgRegister(i), w), ArgRegister(j)) == if i == j then w else Get(s, ArgRegister(j))
    ensures var t := Put(s, ArgRegister(i), w); t.pc == s.pc && t.rsp == s.rsp && t.rbp == s.rbp && t.mem == s.mem
  {
  }

  ghost predicate Loaded(s: Cpu, base: int, argc: nat) {
    forall j :: 0 <= j < argc ==> Get(s, ArgRegister(j)) == Peek(s.mem, base + 8 * j)
  }

  lemma {:induction false} LoadStep(m: Machine, s: Cpu, i: nat, base: int) returns (t: Cpu)
    requires Good(m) && i < MAX_ARGS && At(m.code, s.pc, [LoadArg(8 * i, ArgRegister(i))]) && s.rsp % 16 == 0 && base == s.rsp && Loaded(s, base, i)
    ensures m.run(1, s) == Running(t) && Quiet(s, t, 1) && Loaded(t, base, i + 1)
  {
    var load := LoadArg(8 * i, ArgRegister(i));
    At1(m.code, s.pc, load);
    Aligned(s.rsp, i);
    MemoryStep(m, s, load);
    Once(m, s);
    var w := Peek(s.mem, s.rsp + 8 * i);
    PutGet(s, i, i, w);
    t := Put(s, ArgRegister(i), w).(pc := s.pc + 1);
    forall j | 0 <= j < i + 1 ensures Get(t, ArgRegister(j)) == Peek(t.mem, base + 8 * j) {
      PutGet(s, i, j, w);
      SameRegisters(Put(s, ArgRegister(i), w), t, j);
    }
  }

  /** Loading the argument registers from the argument area. */
  lemma {:induction false} LoadArgsRun(m: Machine, s: Cpu, argc: nat) returns (k: nat, t: Cpu)
    requires Good(m) && argc <= MAX_ARGS && At(m.code, s.pc, LoadCode(argc)) && s.rsp % 16 == 0
    ensures m.run(k, s) == Running(t) && Quiet(s, t, |LoadCode(argc)|) && Loaded(t, s.rsp, argc)
  {
    if argc == 0 {
      Stay(m, s);
      k, t := 0, s;
    } else {
      var i := argc - 1;
      AtSplit(m.code, s.pc, LoadCode(i), [LoadArg(8 * i, ArgRegister(i))]);
      k, t := LoadArgsRun(m, s, i);
      assert |LoadCode(argc)| == |LoadCode(i)| + 1;
      var u := LoadStep(m, t, i, s.rsp);
      Compose(m, k, 1, s);
      k, t := k + 1, u;
    }
  }

  lemma {:induction false} SaveStep(m: Machine, s: Cpu, i: nat) returns (t: Cpu)
    requires Good(m) && At(m.code, s.pc, [StoreArg(ArgRegister(i), Disp(i))]) && s.rbp % 16 == 0
    ensures m.run(1, s) == Running(t)
    ensures t == s.(pc := s.pc + 1, mem := s.mem[s.rbp + Disp(i) := Get(s, ArgRegister(i))])
  {
    var save := StoreArg(ArgRegister(i), Disp(i));
    At1(m.code, s.pc, save);
    Aligned(s.rbp, -(i + 1));
    MemoryStep(m, s, save);
    Once(m, s);
    t := s.(pc := s.pc + 1, mem := s.mem[s.rbp + Disp(i) := Get(s, ArgRegister(i))]);
  }

  lemma SameRegisters(s: Cpu, t: Cpu, j: nat)
    requires t == s.(pc := t.pc, mem := t.mem)
    ensures Get(t, ArgRegister(j)) == Get(s, ArgRegister(j))
  {
  }

  ghost predicate Saved(s: Cpu, mem: Memory, argc: nat) {
    forall j :: 0 <= j < argc ==> Peek(mem, s.rbp + Disp(j)) == Get(s, ArgRegister(j))
  }

  lemma SavedMore(s: Cpu, t: Cpu, mem: Memory, i: nat)
    requires t == s.(pc := t.pc, mem := t.mem) && Saved(s, t.mem, i) && SameAbove(s.mem, t.mem, s.rbp)
    requires mem == t.mem[t.rbp + Disp(i) := Get(t, ArgRegister(i))]
    ensures Saved(s, mem, i + 1) && SameAbove(s.mem, mem, s.rbp)
  {
    SameRegisters(s, t, i);
  }

  /** Saving the argument registers in the first slots. */
  lemma {:induction false} SaveArgsRun(m: Machine, s: Cpu, argc: nat) returns (k: nat, t: Cpu)
    requires Good(m) && argc <= MAX_ARGS && At(m.code, s.pc, SaveCode(argc)) && s.rbp % 16 == 0
    ensures m.run(k, s) == Running(t) && t == s.(pc := s.pc + |SaveCode(argc)|, mem := t.mem)
    ensures Saved(s, t.mem, argc) && SameAbove(s.mem, t.mem, s.rbp)
  {
    if argc == 0 {
      Stay(m, s);
      k, t := 0, s;
    } else {
      AtSplit(m.code, s.pc, SaveCode(argc - 1), [StoreArg(ArgRegister(argc - 1), Disp(argc - 1))]);
      k, t := SaveArgsRun(m, s, argc - 1);
      var u := SaveStep(m, t, argc - 1);
      Compose(m, k, 1, s);
      SavedMore(s, t, u.mem, argc - 1);
      k, t := k + 1, u;
    }
  }
}
