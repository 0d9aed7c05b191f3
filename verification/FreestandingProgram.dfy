/** Whole freestanding programs: the image is well formed, and running it from the start
    does what `kernel_main` does. */
module FreestandingProgram {
  import opened Options
  import opened Operators
  import opened Hir
  import opened HirSemantics
  import opened X86
  import opened Freestanding
  import opened FreestandingLabels
  import opened FreestandingSteps
  import opened FreestandingFrames
  import opened FreestandingContext
  import opened FreestandingSound
  import opened FreestandingTypes

  // ---- What parsing and type checking guarantee ----

  /** Every declaration has an initializer. */
  predicate Initialised(b: Stmts) {
    b.Then? ==> InitialisedStmt(b.s) && Initialised(b.rest)
  }

  predicate InitialisedStmt(s: Stmt) {
    match s
    case Declare(_, _, init) => init.Some?
    case Choose(_, yes, no) => Initialised(yes) && Initialised(no)
    case Loop(_, body) => Initialised(body)
    case Group(body) => Initialised(body)
    case _ => true
  }

  ghost predicate Checked(p: Prog) {
    forall i :: 0 <= i < |p| ==> DistinctNames(p[i].params) && Initialised(p[i].body)
  }

  /** Such code is never cut short. */
  lemma {:induction false} BlockWhole(p: Prog, tab: Table, ls: Loops, b: Stmts, lab: nat)
    requires Initialised(b)
    ensures !BlockCode(p, tab, ls, b, lab).Cut?
    decreases b, 1
  {
    if b.Then? {
      StmtWhole(p, tab, ls, b.s, lab);
      var c := StmtCode(p, tab, ls, b.s, lab);
      if c.Whole? { BlockWhole(p, tab, ls, b.rest, c.c.next); }
    }
  }

  lemma {:induction false} StmtWhole(p: Prog, tab: Table, ls: Loops, s: Stmt, lab: nat)
    requires InitialisedStmt(s)
    ensures !StmtCode(p, tab, ls, s, lab).Cut?
    decreases s, 0
  {
    match s
    case Choose(c, yes, no) =>
      var cc := ExprCode(p, tab, c, lab);
      if cc.Some? {
        BlockWhole(p, tab, ls, yes, cc.value.next + 2);
        var cy := BlockCode(p, tab, ls, yes, cc.value.next + 2);
        if cy.Whole? { BlockWhole(p, tab, ls, no, cy.c.next); }
      }
    case Loop(c, body) =>
      var cc := ExprCode(p, tab, c, lab + 2);
      if cc.Some? { BlockWhole(p, tab, ls + [(lab, lab + 1)], body, cc.value.next); }
    case Group(body) => BlockWhole(p, tab, ls, body, lab);
    case _ =>
  }

  // ---- Labels of the image ----

  predicate Defines(fns: seq<Func>, l: Lab) {
    l.Fn? && exists i :: 0 <= i < |fns| && fns[i].name == l.name
  }

  /** Free labels in a range and the labels of some functions, none twice. */
  ghost predicate Labelled(ops: seq<Instr>, lo: nat, hi: nat, fns: seq<Func>) {
    lo <= hi && forall l :: Occ(ops, l) <= if Between(l, lo, hi) || Defines(fns, l) then 1 else 0
  }

  lemma {:induction false} PrologueOcc(fn: Func, l: Lab)
    ensures Occ(Prologue(fn), l) == if l == Fn(fn.name) then 1 else 0
  {
    var rest := [PushRbp, MovRbpSp] + Reserve(Frame(TableOf(fn))) + SaveCode(|fn.params|);
    LoadPlain(|fn.params|);
    OccPlain(rest, l);
    assert Prologue(fn) == [Label(Fn(fn.name))] + rest;
    OccConcat([Label(Fn(fn.name))], rest, l);
  }

  lemma {:induction false} FuncLabels(p: Prog, fn: Func, lab: nat)
    requires FuncCode(p, fn, lab).Some? && BlockCode(p, TableOf(fn), [], fn.body, lab).Whole?
    ensures Labelled(FuncCode(p, fn, lab).value.ops, lab, FuncCode(p, fn, lab).value.next, [fn])
  {
    var c := BlockCode(p, TableOf(fn), [], fn.body, lab).c;
    BlockFresh(p, TableOf(fn), [], fn.body, lab);
    forall l ensures Occ(Prologue(fn) + c.ops + [Leave, Ret], l) <= if Between(l, lab, c.next) || Defines([fn], l) then 1 else 0 {
      FuncOcc(fn, c.ops, lab, c.next, l);
    }
  }

  lemma {:induction false} FuncOcc(fn: Func, body: seq<Instr>, lo: nat, hi: nat, l: Lab)
    requires Fresh(body, lo, hi)
    ensures Occ(Prologue(fn) + body + [Leave, Ret], l) <= if Between(l, lo, hi) || Defines([fn], l) then 1 else 0
  {
    OccConcat(Prologue(fn) + body, [Leave, Ret], l);
    OccConcat(Prologue(fn), body, l);
    PrologueOcc(fn, l);
    OccPlain([Leave, Ret], l);
    if l == Fn(fn.name) { assert [fn][0].name == l.name; }
  }

  lemma {:induction false} FuncsLabels(p: Prog, fns: seq<Func>, lab: nat)
    requires FuncsCode(p, fns, lab).Some? && Checked(fns) && DistinctFunctions(fns)
    ensures Labelled(FuncsCode(p, fns, lab).value.ops, lab, FuncsCode(p, fns, lab).value.next, fns)
    decreases |fns|
  {
    if fns != [] {
      var c := FuncCode(p, fns[0], lab).value;
      BlockWhole(p, TableOf(fns[0]), [], fns[0].body, lab);
      FuncLabels(p, fns[0], lab);
      FuncsLabels(p, fns[1..], c.next);
      var rest := FuncsCode(p, fns[1..], c.next).value;
      forall l ensures Occ(c.ops + rest.ops, l) <= if Between(l, lab, rest.next) || Defines(fns, l) then 1 else 0 {
        OccConcat(c.ops, rest.ops, l);
        DefinesSplit(fns, l);
      }
    }
  }

  lemma DefinesSplit(fns: seq<Func>, l: Lab)
    requires fns != [] && DistinctFunctions(fns)
    ensures Defines(fns, l) <==> Defines([fns[0]], l) || Defines(fns[1..], l)
    ensures !(Defines([fns[0]], l) && Defines(fns[1..], l))
  {
    if Defines(fns[1..], l) {
      var i :| 0 <= i < |fns[1..]| && fns[1..][i].name == l.name;
      assert fns[i + 1].name == l.name && fns[0].name != fns[i + 1].name;
    }
    if Defines([fns[0]], l) { assert fns[0].name == l.name; }
    if Defines(fns, l) {
      var i :| 0 <= i < |fns| && fns[i].name == l.name;
      if i == 0 { assert [fns[0]][0].name == l.name; } else { assert fns[1..][i - 1].name == l.name; }
    }
  }

  lemma {:induction false} ImageLabels(p: Prog, code: seq<Instr>)
    requires ProgramCode(p) == Some(code) && Checked(p)
    ensures forall l :: Occ(code, l) <= 1
  {
    var c := FuncsCode(p, p, 0).value;
    FuncsLabels(p, p, 0);
    forall l ensures Occ(BootCode + c.ops + FaultCode, l) <= 1 {
      OccConcat(BootCode + c.ops, FaultCode, l);
      OccConcat(BootCode, c.ops, l);
      EdgeLabels(l);
    }
  }

  lemma {:induction false} EdgeLabels(l: Lab)
    ensures Occ(BootCode, l) == 0 && Occ(FaultCode, l) == if l == Fault then 1 else 0
  {
    OccPlain(BootCode, l);
    OccConcat([Label(Fault)], [Ud2], l);
    OccPlain([Ud2], l);
    assert FaultCode == [Label(Fault)] + [Ud2];
  }

  // ---- Placement of functions ----

  /** The code of the function named `f` within the code of `fns`. */
  lemma {:induction false} FuncsPlaced(p: Prog, fns: seq<Func>, lab: nat, code: seq<Instr>, at: int, f: string) returns (lab1: nat, at1: int)
    requires FuncsCode(p, fns, lab).Some? && At(code, at, FuncsCode(p, fns, lab).value.ops) && Find(fns, f).Some?
    ensures Find(fns, f).value.name == f && Find(fns, f).value in fns
    ensures FuncCode(p, Find(fns, f).value, lab1).Some? && At(code, at1, FuncCode(p, Find(fns, f).value, lab1).value.ops)
    decreases |fns|
  {
    var c := FuncCode(p, fns[0], lab).value;
    var rest := FuncsCode(p, fns[1..], c.next).value;
    AtSplit(code, at, c.ops, rest.ops);
    if fns[0].name == f {
      lab1, at1 := lab, at;
    } else {
      lab1, at1 := FuncsPlaced(p, fns[1..], c.next, code, at + |c.ops|, f);
      assert forall i :: 0 <= i < |fns[1..]| ==> fns[1..][i] == fns[i + 1];
    }
  }

  lemma {:induction false} FuncIsPlaced(p: Prog, m: Machine, f: string) returns (lab: nat)
    requires ProgramCode(p) == Some(m.code) && Checked(p) && Good(m) && Find(p, f).Some?
    ensures Find(p, f).value.name == f && FuncPlaced(p, m, Find(p, f).value, lab)
  {
    var c := FuncsCode(p, p, 0).value;
    WholeParts(m.code, c.ops);
    var at;
    lab, at := FuncsPlaced(p, p, 0, m.code, 3, f);
    var fn := Find(p, f).value;
    var i :| 0 <= i < |p| && p[i] == fn;
    BlockWhole(p, TableOf(fn), [], fn.body, lab);
    var ops := FuncCode(p, fn, lab).value.ops;
    AtGet(m.code, at, ops, 0);
    LabelAt(m, at, Fn(f));
  }

  lemma AtSelf(code: seq<Instr>)
    ensures At(code, 0, code)
  {
  }

  lemma ThreeParts(code: seq<Instr>, a: seq<Instr>, b: seq<Instr>, c: seq<Instr>)
    requires code == a + b + c
    ensures At(code, 0, a) && At(code, |a|, b)
  {
    AtSelf(code);
    AtSplit(code, 0, a + b, c);
    AtSplit(code, 0, a, b);
  }

  lemma WholeParts(code: seq<Instr>, ops: seq<Instr>)
    requires code == BootCode + ops + FaultCode
    ensures At(code, 0, BootCode) && At(code, 3, ops)
  {
    ThreeParts(code, BootCode, ops, FaultCode);
  }

  lemma {:induction false} ImageGood(p: Prog, code: seq<Instr>)
    requires ProgramCode(p) == Some(code) && Checked(p)
    ensures Good(Load(code)) && Linked(p, Load(code))
  {
    var m := Load(code);
    ImageLabels(p, code);
    LoadFaithful(code);
    assert code[|code| - 2] == FaultCode[0] && code[|code| - 1] == FaultCode[1];
    assert Good(m);
    forall f | Called(f) && Find(p, f).Some?
      ensures Find(p, f).value.name == f && exists lab :: FuncPlaced(p, m, Find(p, f).value, lab)
    {
      var lab := FuncIsPlaced(p, m, f);
    }
  }

  // ---- The theorem ----

  /** What the machine does, against what the program means: a result waits in %rax before
      the halt, with the memory in use at the start left alone. */
  ghost predicate ProgramEnds(m: Machine, k: nat, s: Cpu, u: Cpu, r: Ev, n: nat) {
    match r
    case Val(v) => Returned(m, k, s, u, v) && m.run(k + 1, s) == Halted
    case Overflow => m.run(k, s) == Trapped
    case Unfinished => m.run(k, s).Running? && k >= n
    case Stuck => true
  }

  ghost predicate Returned(m: Machine, k: nat, s: Cpu, u: Cpu, v: Value) {
    m.run(k, s) == Running(u) && u.pc == 2 && Word(v, u.rax) && u.rsp == s.rsp - s.rsp % 16 && SameAbove(s.mem, u.mem, u.rsp)
  }

  lemma BootAt(code: seq<Instr>)
    requires At(code, 0, BootCode)
    ensures code[0] == AndSp && code[1] == Instr.Call(MainName) && code[2] == Hlt
  {
    AtGet(code, 0, BootCode, 0);
    AtGet(code, 0, BootCode, 1);
    AtGet(code, 0, BootCode, 2);
  }

  lemma {:induction false} StartRuns(m: Machine, s: Cpu) returns (t: Cpu)
    requires Good(m) && |m.code| >= 3 && m.code[0] == AndSp && s.pc == 0
    ensures m.run(1, s) == Running(t) && t == s.(pc := 1, rsp := s.rsp - s.rsp % 16) && t.rsp % 16 == 0
  {
    MemoryStep(m, s, AndSp);
    Once(m, s);
    t := s.(pc := 1, rsp := s.rsp - s.rsp % 16);
  }

  lemma HaltRuns(m: Machine, k: nat, s: Cpu, t: Cpu)
    requires Good(m) && m.run(k, s) == Running(t) && |m.code| >= 3 && m.code[2] == Hlt && t.pc == 2
    ensures m.run(k + 1, s) == Halted
  {
    HaltStep(m, t);
    More(m, k, s, t);
  }

  lemma {:induction false} HaltStep(m: Machine, t: Cpu)
    requires Good(m) && 0 <= t.pc < |m.code| && m.code[t.pc] == Hlt
    ensures m.step(t) == Halted
  {
    assert Show(0);
    assert m.step(t) == Step(m.code, t);
  }

  /** The boot code around a call of `f`. */
  lemma {:induction false} BootRuns(x: Context, n: nat, f: string, s: Cpu) returns (k: nat, u: Cpu)
    requires Ready(x) && |x.m.code| >= 3 && x.m.code[0] == AndSp && x.m.code[1] == Instr.Call(f) && x.m.code[2] == Hlt && s.pc == 0
    requires Find(x.p, f).Some? && Find(x.p, f).value.params == []
    ensures ProgramEnds(x.m, k, s, u, x.enter(n, f, []), n)
  {
    var t := StartRuns(x.m, s);
    var j;
    j, u := InvokeRuns(x, n, f, [], t, 0);
    k := BootEnd(x.m, s, t, j, u, x.enter(n, f, []), n);
  }

  lemma {:induction false} BootEnd(m: Machine, s: Cpu, t: Cpu, j: nat, u: Cpu, r: Ev, n: nat) returns (k: nat)
    requires Good(m) && |m.code| >= 3 && m.code[2] == Hlt && m.run(1, s) == Running(t) && CallEnds(m, j, t, u, r, n, 0)
    requires t == s.(pc := 1, rsp := s.rsp - s.rsp % 16)
    ensures ProgramEnds(m, k, s, u, r, n)
  {
    Compose(m, 1, j, s);
    k := 1 + j;
    if r.Val? { HaltRuns(m, k, s, u); }
  }

  lemma {:induction false} BootReady(p: Prog, code: seq<Instr>)
    requires ProgramCode(p) == Some(code) && Checked(p)
    ensures Ready(Make(p, Load(code), [])) && At(code, 0, BootCode)
  {
    ImageGood(p, code);
    WholeParts(code, FuncsCode(p, p, 0).value.ops);
    MakeKnown(p, Load(code), []);
  }

  /** A well-typed program is never stuck. */
  lemma {:induction false} MainSafe(p: Prog, ts: Types, code: seq<Instr>, n: nat)
    requires ProgramCode(p) == Some(code) && WellTyped(p, ts)
    ensures MainName in ts && Safe(Enter(n, p, MainName, []), ts[MainName].result)
  {
    FindNamed(p, MainName);
    EnterSafe(n, p, ts, MainName, []);
  }

  /** From any state at the first instruction, the code of a well-typed program returns the
      value of `kernel_main`, of its type, and halts; traps exactly when the program overflows
      or divides badly; and otherwise runs on. It never misaligns a call, faults in hardware
      or leaves its code; the stack is taken to have room. */
  lemma {:induction false} ProgramRuns(p: Prog, ts: Types, code: seq<Instr>, n: nat, s: Cpu) returns (k: nat, u: Cpu)
    requires ProgramCode(p) == Some(code) && Checked(p) && WellTyped(p, ts) && s.pc == 0
    ensures ProgramEnds(Load(code), k, s, u, Enter(n, p, MainName, []), n)
    ensures MainName in ts && Safe(Enter(n, p, MainName, []), ts[MainName].result)
  {
    MainSafe(p, ts, code, n);
    BootReady(p, code);
    BootAt(code);
    MainIs(Make(p, Load(code), []), n, MainName);
    k, u := BootRuns(Make(p, Load(code), []), n, MainName, s);
  }

  lemma {:induction false} MainIs(x: Context, n: nat, f: string)
    requires Known(x)
    ensures x.enter(n, f, []) == Enter(n, x.p, f, [])
  {
    assert ShowMeaning(0);
    var e := Enter(n, x.p, f, []);
  }

  /** Runs are deterministic, so the end of a run decides what the program means. */
  lemma {:induction false} RunsOnce(m: Machine, j: nat, k: nat, s: Cpu)
    requires Good(m) && j <= k && !m.run(j, s).Running?
    ensures m.run(k, s) == m.run(j, s)
  {
    Compose(m, j, k - j, s);
  }

  /** The trap is reached exactly when the program overflows, the halt when it returns, and
      the code never breaks. */
  lemma {:induction false} ProgramExact(p: Prog, ts: Types, code: seq<Instr>, s: Cpu, k: nat)
    requires ProgramCode(p) == Some(code) && Checked(p) && WellTyped(p, ts) && s.pc == 0
    ensures var o := Load(code).run(k, s);
      && o != Broken
      && (o == Trapped ==> Enter(k + 1, p, MainName, []) == Overflow)
      && (o == Halted ==> Enter(k + 1, p, MainName, []).Val?)
  {
    var m := Load(code);
    ImageGood(p, code);
    var j, u := ProgramRuns(p, ts, code, k + 1, s);
    var r := Enter(k + 1, p, MainName, []);
    var end := if r.Val? then j + 1 else j;
    if !m.run(k, s).Running? {
      if end <= k && !m.run(end, s).Running? { RunsOnce(m, end, k, s); }
      if k <= end { RunsOnce(m, k, end, s); }
    }
  }

  // ---- Declarations without an initializer ----

  /** A declaration without an initializer, then a division by zero. The parser always gives
      declarations a value, so such a body only arrives through the HIR interface. */
  const CutMain: Func := 
    Func(MainName, [], Stmts.Then(Declare("x", Inferred, None), Stmts.Then(Stmt.Set("y", Infix(Divide, Literal(1), Literal(0))), Empty)))

  /** Such a body is cut short silently: the program overflows, the accepted code halts. */
  lemma {:induction false} CutProgram(s: Cpu) returns (k: nat)
    requires s.pc == 0
    ensures !Initialised(CutMain.body) && Enter(1, [CutMain], MainName, []) == Overflow
    ensures ProgramCode([CutMain]) == Some(CutCode) && Load(CutCode).run(k, s) == Halted
  {
    CutMeaning();
    CutEmission();
    k := CutRuns(s);
  }

  const CutTail: seq<Instr> := [PushRbp, MovRbpSp, SubSp(16), Leave, Ret]
  const CutCode: seq<Instr> := BootCode + ([Label(Fn(MainName))] + (CutTail + FaultCode))

  lemma {:induction false} CutMeaning()
    ensures !Initialised(CutMain.body) && Enter(1, [CutMain], MainName, []) == Overflow
  {
    var p, tab := [CutMain], TableOf(CutMain);
    var e := Infix(Divide, Literal(1), Literal(0));
    assert Eval(0, p, Literal(1), map[]) == Val(IntV(1)) && Eval(0, p, Literal(0), map[]) == Val(IntV(0));
    assert Eval(0, p, e, map[]) == EvalBoth(0, p, Divide, Literal(1), Literal(0), map[]) == Overflow;
    assert Perform(0, p, tab, Stmt.Set("y", e), map[]) == Stops(Overflow);
    assert PerformAll(0, p, tab, CutMain.body.rest, map[]) == Stops(Overflow);
    assert PerformAll(0, p, tab, CutMain.body, map[]) == Stops(Overflow);
    assert Find(p, MainName) == Some(CutMain);
    assert Bind(tab, [], []) == Some(map[]);
  }

  lemma CutTable()
    ensures |TableOf(CutMain)| == 2
  {
    var e := Infix(Divide, Literal(1), Literal(0));
    var t0: Table, t1: Table := [Slot("x", true)], [Slot("x", true), Slot("y", true)];
    assert CollectStmt([], CutMain.body.s) == t0;
    assert AddSlot(t0, "y") == t1 && CollectExpr(t1, e) == t1;
    assert CollectStmts(t0, CutMain.body.rest) == t1;
  }

  lemma {:induction false} CutEmission()
    ensures ProgramCode([CutMain]) == Some(CutCode)
  {
    var p := [CutMain];
    CutTable();
    var c := CutFunc(p);
    assert FuncsCode(p, p[1..], 0) == Some(Code([], 0));
    assert FuncsCode(p, p, 0) == Some(Code(c + [], 0));
    assert Find(p, MainName) == Some(CutMain);
    assert CutCode == BootCode + (c + []) + FaultCode;
  }

  lemma {:induction false} CutFunc(p: Prog) returns (c: seq<Instr>)
    requires |TableOf(CutMain)| == 2
    ensures c == [Label(Fn(MainName))] + CutTail && FuncCode(p, CutMain, 0) == Some(Code(c, 0))
  {
    c := [Label(Fn(MainName))] + CutTail;
    assert BlockCode(p, TableOf(CutMain), [], CutMain.body, 0) == Cut(Code([], 0));
    assert Prologue(CutMain) == [Label(Fn(MainName)), PushRbp, MovRbpSp, SubSp(16)];
    assert Prologue(CutMain) + [] + [Leave, Ret] == c;
  }

  /** A label, then the fault handler, among plain instructions. */
  lemma FourLabels(a: seq<Instr>, i: Instr, c: seq<Instr>, d: seq<Instr>, l: Lab)
    requires Plain(a) && Plain(c) && i.Label? && i.lab.Fn? && (forall k :: Occ(d, k) == if k == Fault then 1 else 0)
    ensures Occ(a + ([i] + (c + d)), l) <= 1
  {
    OccConcat(a, [i] + (c + d), l);
    OccConcat([i], c + d, l);
    OccConcat(c, d, l);
    OccPlain(a, l);
    OccPlain(c, l);
  }

  lemma CutLabels(l: Lab)
    ensures Occ(CutCode, l) <= 1
  {
    forall k ensures Occ(FaultCode, k) == if k == Fault then 1 else 0 { EdgeLabels(k); }
    FourLabels(BootCode, Label(Fn(MainName)), CutTail, FaultCode, l);
  }

  lemma {:induction false} CutShape()
    ensures |CutCode| == 11 && CutCode[0] == AndSp && CutCode[1] == Instr.Call(MainName) && CutCode[2] == Hlt
    ensures CutCode[3] == Label(Fn(MainName)) && CutCode[4] == PushRbp && CutCode[5] == MovRbpSp && CutCode[6] == SubSp(16)
    ensures CutCode[7] == Leave && CutCode[8] == Ret && CutCode[9] == Label(Fault) && CutCode[10] == Ud2
  {
  }

  lemma {:induction false} CutGood()
    ensures Good(Load(CutCode)) && Load(CutCode).position(Fn(MainName)) == 3
  {
    LoadFaithful(CutCode);
    CutShape();
    forall l ensures Occ(CutCode, l) <= 1 { CutLabels(l); }
    LabelAt(Load(CutCode), 3, Fn(MainName));
  }

  lemma {:induction false} CutRuns(s: Cpu) returns (k: nat)
    requires s.pc == 0
    ensures Load(CutCode).run(k, s) == Halted
  {
    CutGood();
    CutShape();
    var m := Load(CutCode);
    var t0 := StartRuns(m, s);
    var t1 := EnterRuns(m, t0, MainName);
    Compose(m, 1, 1, s);
    k := CutBody(m, 2, s, t1, t0.rsp);
  }

  /** The body that is left: nothing. */
  lemma {:induction false} CutBody(m: Machine, j: nat, s: Cpu, t: Cpu, top: int) returns (k: nat)
    requires Good(m) && m.code == CutCode && m.run(j, s) == Running(t) && t.pc == 3 && t.rsp == top - 8 && t.rsp % 16 == 8 && Peek(t.mem, top - 8) == 2
    ensures m.run(k, s) == Halted
  {
    CutShape();
    var k1, t1 := LinkFrames(m, t, MainName);
    Compose(m, j, k1, s);
    var k2, t2 := ReserveRuns(m, t1, 16);
    Compose(m, j + k1, k2, s);
    var t3 := EpilogueRuns(m, t2, t.rsp);
    Compose(m, j + k1 + k2, 2, s);
    HaltRuns(m, j + k1 + k2 + 2, s, t3);
    k := j + k1 + k2 + 3;
  }
}
