/** The generator itself: a record of output, label counter, loop stack and locals that is
    updated while the program is walked (FreestandingGen). It emits exactly the specified
    code. */
module FreestandingGen {
  import opened Options
  import opened Operators
  import opened Hir
  import opened HirSemantics
  import opened X86
  import opened Freestanding
  import opened FreestandingContext
  import opened FreestandingProgram

  class Generator {
    const p: Prog
    var out: seq<Instr>
    var nextLabel: nat
    var variables: Table
    var loopDepth: nat
    const loopStart: array<nat>
    const loopEnd: array<nat>
    var failed: bool

    constructor (p: Prog)
      ensures this.p == p && out == [] && nextLabel == 0 && variables == [] && loopDepth == 0 && !failed
      ensures Valid() && fresh(loopStart) && fresh(loopEnd)
    {
      this.p := p;
      out, nextLabel, variables, loopDepth, failed := [], 0, [], 0, false;
      loopStart := new nat[MAX_LOOPS];
      loopEnd := new nat[MAX_LOOPS];
    }

    ghost predicate Valid()
      reads this`loopDepth
    {
      loopStart != loopEnd && loopStart.Length == loopEnd.Length == MAX_LOOPS && loopDepth <= MAX_LOOPS
    }

    /** The labels of the enclosing loops. */
    ghost function Enclosing(): (ls: Loops)
      requires Valid()
      reads this`loopDepth, loopStart, loopEnd
      ensures |ls| == loopDepth && forall i :: 0 <= i < loopDepth ==> ls[i] == (loopStart[i], loopEnd[i])
    {
      Zip(loopStart[..loopDepth], loopEnd[..loopDepth])
    }

    method NewLabel() returns (l: nat)
      modifies this`nextLabel
      ensures l == old(nextLabel) && nextLabel == l + 1
    {
      l := nextLabel;
      nextLabel := nextLabel + 1;
    }

    method Emit(ops: seq<Instr>)
      modifies this`out
      ensures out == old(out) + ops
    {
      out := out + ops;
    }

    // ---- Expressions ----

    method EmitExpression(e: Expr) returns (ok: bool)
      modifies this`out, this`nextLabel, this`failed
      ensures ok <==> ExprCode(p, variables, e, old(nextLabel)).Some?
      ensures ok ==> Appended(old(out), out, nextLabel, ExprCode(p, variables, e, old(nextLabel)).value)
      ensures ok ==> failed == old(failed)
      ensures !ok ==> failed
      decreases e, 1
    {
      match e
      case Literal(i) => Emit([MovImm(i)]); ok := true;
      case Flag(b) => Emit([MovImmL(b)]); ok := true;
      case Local(x) =>
        var i := VariableIndex(x);
        if i == -1 { failed := true; return false; }
        Emit([if variables[i].wide then LoadQ(Disp(i)) else LoadL(Disp(i))]);
        ok := true;
      case Minus(a) =>
        ok := EmitExpression(a);
        if ok { Emit([NegQ, Jcc(O, Fault)]); }
      case Negation(a) =>
        ok := EmitExpression(a);
        if ok { Emit([TestL, Instr.Set(E), MovzbAl]); }
      case Infix(op, l, r) =>
        if op == And || op == Or {
          ok := EmitLogic(op, l, r);
        } else {
          ok := EmitBoth(op, l, r);
        }
      case Apply(f, args) => ok := EmitCall(f, args);
    }

    method EmitLogic(op: BinaryOp, l: Expr, r: Expr) returns (ok: bool)
      modifies this`out, this`nextLabel, this`failed
      ensures ok <==> LogicCode(p, variables, op, l, r, old(nextLabel)).Some?
      ensures ok ==> Appended(old(out), out, nextLabel, LogicCode(p, variables, op, l, r, old(nextLabel)).value)
      ensures ok ==> failed == old(failed)
      ensures !ok ==> failed
      decreases Infix(op, l, r), 0
    {
      ghost var o := out;
      ghost var lab := nextLabel;
      var short := NewLabel();
      var done := NewLabel();
      ok := EmitThen(l, LogicTest(op, short));
      if ok {
        ghost var mid, lab1 := out, nextLabel;
        ok := EmitThen(r, LogicTail(op == Or, short));
        if ok { LogicWhole(p, variables, op, l, r, short, lab1, nextLabel, o, mid, out); }
      }
      if !ok { LogicParts(p, variables, op, l, r, lab); }
    }

    /** An expression and the instructions behind it. */
    method EmitThen(e: Expr, ops: seq<Instr>) returns (ok: bool)
      modifies this`out, this`nextLabel, this`failed
      ensures ok <==> ExprCode(p, variables, e, old(nextLabel)).Some?
      ensures ok ==> out == old(out) + ExprCode(p, variables, e, old(nextLabel)).value.ops + ops
      ensures ok ==> nextLabel == ExprCode(p, variables, e, old(nextLabel)).value.next
      ensures ok ==> failed == old(failed)
      ensures !ok ==> failed
      decreases e, 2
    {
      ok := EmitExpression(e);
      if ok { Emit(ops); }
    }

    method EmitBoth(op: BinaryOp, l: Expr, r: Expr) returns (ok: bool)
      modifies this`out, this`nextLabel, this`failed
      ensures ok <==> BothCode(p, variables, op, l, r, old(nextLabel)).Some?
      ensures ok ==> Appended(old(out), out, nextLabel, BothCode(p, variables, op, l, r, old(nextLabel)).value)
      ensures ok ==> failed == old(failed)
      ensures !ok ==> failed
      decreases Infix(op, l, r), 0
    {
      ghost var o, lab := out, nextLabel;
      BothParts(p, variables, op, l, r, lab);
      ok := EmitThen(l, SpillCode);
      if ok {
        ghost var mid, lab1 := out, nextLabel;
        ok := EmitThen(r, UnspillCode);
        if ok {
          ghost var mid2, lab2 := out, nextLabel;
          ok := EmitOperator(op);
          if ok { BothWhole(p, variables, op, l, r, lab, lab1, lab2, nextLabel, o, mid, mid2, out); }
        }
      }
    }

    method EmitOperator(op: BinaryOp) returns (ok: bool)
      modifies this`out, this`nextLabel, this`failed
      ensures ok <==> OperatorCode(op, old(nextLabel)).Some?
      ensures ok ==> Appended(old(out), out, nextLabel, OperatorCode(op, old(nextLabel)).value)
      ensures ok ==> failed == old(failed)
      ensures !ok ==> failed
    {
      ok := true;
      match op
      case Add => Emit([AddQ, Jcc(O, Fault)]);
      case Subtract => Emit([SubQ, Jcc(O, Fault)]);
      case Multiply => Emit([ImulQ, Jcc(O, Fault)]);
      case Divide =>
        var safe := NewLabel();
        Emit(DivideCode(safe, false));
      case Modulo =>
        var safe := NewLabel();
        Emit(DivideCode(safe, true));
      case Equal => Emit(CompareCode(E));
      case NotEqual => Emit(CompareCode(NE));
      case Greater => Emit(CompareCode(G));
      case Less => Emit(CompareCode(L));
      case GreaterEqual => Emit(CompareCode(GE));
      case LessEqual => Emit(CompareCode(LE));
      case _ => failed := true; ok := false;
    }

    method EmitCall(f: string, args: Args) returns (ok: bool)
      modifies this`out, this`nextLabel, this`failed
      ensures ok <==> CallCode(p, variables, f, args, old(nextLabel)).Some?
      ensures ok ==> Appended(old(out), out, nextLabel, CallCode(p, variables, f, args, old(nextLabel)).value)
      ensures ok ==> failed == old(failed)
      ensures !ok ==> failed
      decreases args, 1
    {
      var target := FindFunction(f);
      if target.None? { failed := true; return false; }
      var argc := |target.value.params|;
      if Count(args) != argc || argc > MAX_ARGS { failed := true; return false; }
      ghost var o, lab := out, nextLabel;
      Emit(Reserve(Area(argc)));
      ok := EmitArguments(args, 0);
      if !ok { return; }
      EmitLoads(argc);
      Emit([Instr.Call(f)]);
      Emit(Release(Area(argc)));
      Join4(o, Reserve(Area(argc)), ArgsCode(p, variables, args, 0, lab).value.ops, LoadCode(argc), [Instr.Call(f)], Release(Area(argc)));
    }

    method EmitLoads(argc: nat)
      modifies this`out
      ensures out == old(out) + LoadCode(argc)
    {
      var i := 0;
      while i < argc
        invariant 0 <= i <= argc && out == old(out) + LoadCode(i)
      {
        ghost var before := out;
        Emit([LoadArg(8 * i, ArgRegister(i))]);
        Cat(old(out), LoadCode(i), [LoadArg(8 * i, ArgRegister(i))]);
        i := i + 1;
      }
    }

    method EmitArguments(args: Args, i: nat) returns (ok: bool)
      modifies this`out, this`nextLabel, this`failed
      ensures ok <==> ArgsCode(p, variables, args, i, old(nextLabel)).Some?
      ensures ok ==> Appended(old(out), out, nextLabel, ArgsCode(p, variables, args, i, old(nextLabel)).value)
      ensures ok ==> failed == old(failed)
      ensures !ok ==> failed
      decreases args, 0
    {
      ok := true;
      if args.Arg? {
        ok := EmitExpression(args.e);
        if !ok { return; }
        Emit([Spill(8 * i)]);
        ok := EmitArguments(args.rest, i + 1);
      }
    }

    method FindFunction(f: string) returns (r: Option<Func>)
      ensures r == Find(p, f)
    {
      var i := 0;
      assert p[0..] == p;
      while i < |p|
        invariant 0 <= i <= |p| && Find(p, f) == Find(p[i..], f)
      {
        if p[i].name == f { return Some(p[i]); }
        assert p[i..][1..] == p[i + 1..];
        i := i + 1;
      }
      r := None;
    }

    method VariableIndex(x: string) returns (i: int)
      ensures i == SlotOf(variables, x)
    {
      i := 0;
      assert variables[0..] == variables;
      while i < |variables|
        invariant 0 <= i <= |variables|
        invariant SlotOf(variables, x) == var r := SlotOf(variables[i..], x); if r == -1 then -1 else r + i
      {
        if variables[i].x == x { return; }
        assert variables[i..][1..] == variables[i + 1..];
        i := i + 1;
      }
      i := -1;
    }

    // ---- Statements ----

    method EmitAssign(x: string, e: Expr) returns (ok: bool)
      modifies this`out, this`nextLabel, this`failed
      ensures AssignCode(p, variables, x, e, old(nextLabel)).Whole? <==> ok
      ensures ok ==> Appended(old(out), out, nextLabel, AssignCode(p, variables, x, e, old(nextLabel)).c)
      ensures ok ==> failed == old(failed)
      ensures !ok ==> failed
    {
      ok := EmitExpression(e);
      if !ok { return; }
      var i := VariableIndex(x);
      if i == -1 { failed := true; return false; }
      Emit([if variables[i].wide then StoreQ(Disp(i)) else StoreL(Disp(i))]);
    }

    method EmitStatement(s: Stmt) returns (ok: bool)
      requires Valid()
      modifies this`out, this`nextLabel, this`failed, this`loopDepth, loopStart, loopEnd
      ensures Valid()
      ensures Produced(old(out), old(failed), ok, out, nextLabel, failed, StmtCode(p, variables, old(Enclosing()), s, old(nextLabel)))
      ensures ok ==> Enclosing() == old(Enclosing())
      decreases s, 2
    {
      match s
      case Declare(x, _, init) =>
        if init.None? { return false; }
        ok := EmitAssign(x, init.value);
      case Set(x, e) => ok := EmitAssign(x, e);
      case Do(f, args) => ok := EmitCall(f, args);
      case Give(value) =>
        ok := true;
        if value.Some? {
          ok := EmitExpression(value.value);
          if !ok { return; }
        }
        Emit([Leave, Ret]);
      case Choose(c, yes, no) => ok := EmitChoose(c, yes, no);
      case Loop(c, body) => ok := EmitLoop(c, body);
      case Exit =>
        if loopDepth == 0 { failed := true; return false; }
        Emit([Jmp(Free(loopEnd[loopDepth - 1]))]);
        ok := true;
      case Again =>
        if loopDepth == 0 { failed := true; return false; }
        Emit([Jmp(Free(loopStart[loopDepth - 1]))]);
        ok := true;
      case Group(body) => ok := EmitBlock(body);
    }

    method EmitBlock(b: Stmts) returns (ok: bool)
      requires Valid()
      modifies this`out, this`nextLabel, this`failed, this`loopDepth, loopStart, loopEnd
      ensures Valid()
      ensures Produced(old(out), old(failed), ok, out, nextLabel, failed, BlockCode(p, variables, old(Enclosing()), b, old(nextLabel)))
      ensures ok ==> Enclosing() == old(Enclosing())
      decreases b, 2
    {
      ok := true;
      if b.Then? {
        ok := EmitStatement(b.s);
        if !ok { return; }
        ok := EmitBlock(b.rest);
      }
    }

    method EmitChoose(c: Expr, yes: Stmts, no: Stmts) returns (ok: bool)
      requires Valid()
      modifies this`out, this`nextLabel, this`failed, this`loopDepth, loopStart, loopEnd
      ensures Valid()
      ensures Produced(old(out), old(failed), ok, out, nextLabel, failed, ChooseCode(p, variables, old(Enclosing()), c, yes, no, old(nextLabel)))
      ensures ok ==> Enclosing() == old(Enclosing())
      decreases Choose(c, yes, no), 1
    {
      ghost var o, lab, ls := out, nextLabel, Enclosing();
      ok := EmitExpression(c);
      if ok {
        var other := NewLabel();
        var done := NewLabel();
        Emit([TestL, Jcc(E, Free(other))]);
        ghost var mid := out;
        ok := EmitArms(yes, no, other, done, c);
        ChooseWhole(p, variables, ls, c, yes, no, lab, o, old(failed), mid, ok, out, nextLabel, failed);
      }
    }

    method EmitArms(yes: Stmts, no: Stmts, other: nat, done: nat, ghost c: Expr) returns (ok: bool)
      requires Valid()
      modifies this`out, this`nextLabel, this`failed, this`loopDepth, loopStart, loopEnd
      ensures Valid()
      ensures Produced(old(out), old(failed), ok, out, nextLabel, failed, ArmsCode(p, variables, old(Enclosing()), yes, no, other, done, old(nextLabel)))
      ensures ok ==> Enclosing() == old(Enclosing())
      decreases Choose(c, yes, no), 0
    {
      ghost var o, lab, ls := out, nextLabel, Enclosing();
      ok := EmitBlock(yes);
      if ok {
        Emit([Jmp(Free(done)), Label(Free(other))]);
        ghost var mid, lab1 := out, nextLabel;
        ok := EmitLast(no, done);
        ArmsWhole(p, variables, ls, yes, no, other, done, lab, lab1, o, old(failed), mid, ok, out, nextLabel, failed);
      }
    }

    /** The second arm and the label behind it. */
    method EmitLast(no: Stmts, done: nat) returns (ok: bool)
      requires Valid()
      modifies this`out, this`nextLabel, this`failed, this`loopDepth, loopStart, loopEnd
      ensures Valid()
      ensures Produced(old(out), old(failed), ok, out, nextLabel, failed, LastCode(p, variables, old(Enclosing()), no, done, old(nextLabel)))
      ensures ok ==> Enclosing() == old(Enclosing())
      decreases no, 3
    {
      ok := EmitBlock(no);
      if ok { Emit([Label(Free(done))]); }
    }

    method EmitLoop(c: Expr, body: Stmts) returns (ok: bool)
      requires Valid()
      modifies this`out, this`nextLabel, this`failed, this`loopDepth, loopStart, loopEnd
      ensures Valid()
      ensures Produced(old(out), old(failed), ok, out, nextLabel, failed, LoopCode(p, variables, old(Enclosing()), c, body, old(nextLabel)))
      ensures ok ==> Enclosing() == old(Enclosing())
      decreases Loop(c, body), 0
    {
      if loopDepth >= MAX_LOOPS { failed := true; return false; }
      ghost var o, ls := out, Enclosing();
      var start := NewLabel();
      var done := NewLabel();
      PushLoop(start, done);
      Emit([Label(Free(start))]);
      ok := EmitThen(c, [TestL, Jcc(E, Free(done))]);
      if ok {
        ghost var mid, lab1 := out, nextLabel;
        ok := EmitBody(body, start, done);
        LoopWhole(p, variables, ls, c, body, start, lab1, o, old(failed), mid, ok, out, nextLabel, failed);
        if ok { PopLoop(ls, (start, done)); }
      }
    }

    /** The body and the jump back. */
    method EmitBody(body: Stmts, start: nat, done: nat) returns (ok: bool)
      requires Valid()
      modifies this`out, this`nextLabel, this`failed, this`loopDepth, loopStart, loopEnd
      ensures Valid()
      ensures Produced(old(out), old(failed), ok, out, nextLabel, failed, BodyCode(p, variables, old(Enclosing()), body, start, done, old(nextLabel)))
      ensures ok ==> Enclosing() == old(Enclosing())
      decreases body, 3
    {
      ok := EmitBlock(body);
      if ok { Emit([Jmp(Free(start)), Label(Free(done))]); }
    }

    method PushLoop(start: nat, done: nat)
      requires Valid() && loopDepth < MAX_LOOPS
      modifies this`loopDepth, loopStart, loopEnd
      ensures Valid() && Enclosing() == old(Enclosing()) + [(start, done)]
    {
      loopStart[loopDepth] := start;
      loopEnd[loopDepth] := done;
      loopDepth := loopDepth + 1;
    }

    method PopLoop(ghost ls: Loops, ghost l: (nat, nat))
      requires Valid() && Enclosing() == ls + [l]
      modifies this`loopDepth
      ensures Valid() && Enclosing() == ls
    {
      ghost var inner := Enclosing();
      loopDepth := loopDepth - 1;
      assert forall i :: 0 <= i < loopDepth ==> Enclosing()[i] == inner[i] == ls[i];
    }

    // ---- Locals ----

    method AddVariable(x: string)
      modifies this`variables
      ensures variables == AddSlot(old(variables), x)
    {
      var i := VariableIndex(x);
      if i == -1 { variables := variables + [Slot(x, true)]; }
    }

    method CollectExpression(e: Expr)
      modifies this`variables
      ensures variables == CollectExpr(old(variables), e)
      decreases e
    {
      match e
      case Local(x) => AddVariable(x);
      case Minus(a) => CollectExpression(a);
      case Negation(a) => CollectExpression(a);
      case Infix(_, l, r) =>
        CollectExpression(l);
        CollectExpression(r);
      case Apply(_, args) => CollectArguments(args);
      case _ =>
    }

    method CollectArguments(a: Args)
      modifies this`variables
      ensures variables == CollectArgs(old(variables), a)
      decreases a
    {
      if a.Arg? {
        CollectExpression(a.e);
        CollectArguments(a.rest);
      }
    }

    method CollectStatement(st: Stmt)
      modifies this`variables
      ensures variables == CollectStmt(old(variables), st)
      decreases st
    {
      match st
      case Declare(x, t, init) =>
        AddVariable(x);
        var i := VariableIndex(x);
        if !t.Inferred? && i != -1 { variables := variables[i := Slot(x, t.Wide?)]; }
        if init.Some? { CollectExpression(init.value); }
      case Set(x, e) =>
        AddVariable(x);
        CollectExpression(e);
      case Do(_, args) => CollectArguments(args);
      case Give(value) => if value.Some? { CollectExpression(value.value); }
      case Choose(c, yes, no) =>
        CollectExpression(c);
        CollectBlock(yes);
        CollectBlock(no);
      case Loop(c, body) =>
        CollectExpression(c);
        CollectBlock(body);
      case Group(body) => CollectBlock(body);
      case _ =>
    }

    method CollectBlock(b: Stmts)
      modifies this`variables
      ensures variables == CollectStmts(old(variables), b)
      decreases b
    {
      if b.Then? {
        CollectStatement(b.s);
        CollectBlock(b.rest);
      }
    }

    method CollectFunction(fn: Func)
      modifies this`variables
      ensures variables == TableOf(fn)
    {
      variables := [];
      var i := 0;
      assert fn.params[0..] == fn.params;
      while i < |fn.params|
        invariant 0 <= i <= |fn.params| && CollectParams(variables, fn.params[i..]) == CollectParams([], fn.params)
      {
        assert fn.params[i..][1..] == fn.params[i + 1..];
        AddVariable(fn.params[i]);
        i := i + 1;
      }
      CollectBlock(fn.body);
    }

    // ---- Functions and programs ----

    method EmitSaves(argc: nat)
      modifies this`out
      ensures out == old(out) + SaveCode(argc)
    {
      var i := 0;
      while i < argc
        invariant 0 <= i <= argc && out == old(out) + SaveCode(i)
      {
        Emit([StoreArg(ArgRegister(i), Disp(i))]);
        Cat(old(out), SaveCode(i), [StoreArg(ArgRegister(i), Disp(i))]);
        i := i + 1;
      }
    }

    method EmitPrologue(fn: Func)
      requires variables == TableOf(fn)
      modifies this`out
      ensures out == old(out) + Prologue(fn)
    {
      Emit([Label(Fn(fn.name)), PushRbp, MovRbpSp]);
      Emit(Reserve(Frame(variables)));
      EmitSaves(|fn.params|);
      Join2(old(out), [Label(Fn(fn.name)), PushRbp, MovRbpSp], Reserve(Frame(TableOf(fn))), SaveCode(|fn.params|));
    }

    /** A body that is cut short still ends in `leave; ret`. */
    method EmitFunction(fn: Func)
      requires Valid() && loopDepth == 0 && !failed
      modifies this`out, this`nextLabel, this`failed, this`loopDepth, this`variables, loopStart, loopEnd
      ensures Valid()
      ensures failed <==> FuncCode(p, fn, old(nextLabel)).None?
      ensures !failed ==> Appended(old(out), out, nextLabel, FuncCode(p, fn, old(nextLabel)).value)
      ensures !failed && Initialised(fn.body) ==> loopDepth == 0
    {
      if |fn.params| > MAX_ARGS { failed := true; return; }
      CollectFunction(fn);
      ghost var o, lab, tab := out, nextLabel, TableOf(fn);
      EmitPrologue(fn);
      assert Enclosing() == [];
      var ok := EmitBlock(fn.body);
      if Initialised(fn.body) { BlockWhole(p, tab, [], fn.body, lab); }
      if !failed {
        Emit([Leave, Ret]);
        FuncWhole(p, fn, lab, o, out, nextLabel);
      }
    }

    /** Only functions with different names, and `kernel_main` among them without parameters. */
    method CheckFunctions() returns (ok: bool)
      ensures ok <==> DistinctFunctions(p) && Find(p, MainName).Some? && Find(p, MainName).value.params == []
    {
      var i := 0;
      while i < |p|
        invariant 0 <= i <= |p| && forall a, b :: 0 <= a < i && a < b < |p| ==> p[a].name != p[b].name
      {
        var j := i + 1;
        while j < |p|
          invariant i < j <= |p| && forall b :: i < b < j ==> p[i].name != p[b].name
        {
          if p[i].name == p[j].name { return false; }
          j := j + 1;
        }
        i := i + 1;
      }
      var main := FindFunction(MainName);
      ok := main.Some? && main.value.params == [];
    }

    /** The whole program; the output is the specified image. */
    method EmitProgram() returns (ok: bool)
      requires Valid() && out == [] && nextLabel == 0 && loopDepth == 0 && !failed
      requires forall i :: 0 <= i < |p| ==> Initialised(p[i].body)
      modifies this, loopStart, loopEnd
      ensures ok <==> ProgramCode(p).Some?
      ensures ok ==> out == ProgramCode(p).value
    {
      ok := CheckFunctions();
      if !ok { return; }
      Emit(BootCode);
      var i := 0;
      ghost var done: seq<Instr> := [];
      FuncsFrom(p, 0, 0);
      while i < |p| && !failed
        invariant 0 <= i <= |p| && Valid() && loopDepth == 0
        invariant !failed ==> out == BootCode + done && FuncsRest(p, i, nextLabel, done)
        invariant failed ==> FuncsCode(p, p, 0).None?
      {
        ghost var lab := nextLabel;
        EmitFunction(p[i]);
        FuncsStep(p, i, lab, done);
        if !failed {
          ghost var c := FuncCode(p, p[i], lab).value;
          Cat(BootCode, done, c.ops);
          done := done + c.ops;
          i := i + 1;
        } else {
          break;
        }
      }
      Emit(FaultCode);
      ok := !failed;
    }
  }

  function Zip(a: seq<nat>, b: seq<nat>): (r: Loops)
    requires |a| == |b|
    ensures |r| == |a| && forall i :: 0 <= i < |r| ==> r[i] == (a[i], b[i])
  {
    seq(|a|, i requires 0 <= i < |a| => (a[i], b[i]))
  }

  lemma {:induction false} LogicParts(p: Prog, tab: Table, op: BinaryOp, l: Expr, r: Expr, lab: nat)
    ensures LogicCode(p, tab, op, l, r, lab).Some? <==>
      ExprCode(p, tab, l, lab + 2).Some? && ExprCode(p, tab, r, ExprCode(p, tab, l, lab + 2).value.next).Some?
  {
  }

  lemma {:induction false} LogicWhole(p: Prog, tab: Table, op: BinaryOp, l: Expr, r: Expr, lab: nat, lab1: nat, lab2: nat, o: seq<Instr>, mid: seq<Instr>, out: seq<Instr>)
    requires ExprCode(p, tab, l, lab + 2).Some? && ExprCode(p, tab, r, lab1).Some?
    requires lab1 == ExprCode(p, tab, l, lab + 2).value.next && lab2 == ExprCode(p, tab, r, lab1).value.next
    requires mid == o + ExprCode(p, tab, l, lab + 2).value.ops + LogicTest(op, lab)
    requires out == mid + ExprCode(p, tab, r, lab1).value.ops + LogicTail(op == Or, lab)
    ensures LogicCode(p, tab, op, l, r, lab).Some? && Appended(o, out, lab2, LogicCode(p, tab, op, l, r, lab).value)
  {
    var cl, cr := ExprCode(p, tab, l, lab + 2).value, ExprCode(p, tab, r, lab1).value;
    Join3(o, cl.ops, LogicTest(op, lab), cr.ops, LogicTail(op == Or, lab));
    var c := Code(cl.ops + LogicTest(op, lab) + cr.ops + LogicTail(op == Or, lab), cr.next);
    assert LogicCode(p, tab, op, l, r, lab) == Some(c);
  }

  lemma {:induction false} BothParts(p: Prog, tab: Table, op: BinaryOp, l: Expr, r: Expr, lab: nat)
    ensures BothCode(p, tab, op, l, r, lab).Some? <==>
      && ExprCode(p, tab, l, lab).Some?
      && var lab1 := ExprCode(p, tab, l, lab).value.next;
         ExprCode(p, tab, r, lab1).Some? && OperatorCode(op, ExprCode(p, tab, r, lab1).value.next).Some?
  {
  }

  lemma {:induction false} BothWhole(p: Prog, tab: Table, op: BinaryOp, l: Expr, r: Expr, lab: nat, lab1: nat, lab2: nat, lab3: nat,
      o: seq<Instr>, mid: seq<Instr>, mid2: seq<Instr>, out: seq<Instr>)
    requires ExprCode(p, tab, l, lab).Some? && ExprCode(p, tab, r, lab1).Some? && OperatorCode(op, lab2).Some?
    requires lab1 == ExprCode(p, tab, l, lab).value.next && lab2 == ExprCode(p, tab, r, lab1).value.next && lab3 == OperatorCode(op, lab2).value.next
    requires mid == o + ExprCode(p, tab, l, lab).value.ops + SpillCode
    requires mid2 == mid + ExprCode(p, tab, r, lab1).value.ops + UnspillCode && out == mid2 + OperatorCode(op, lab2).value.ops
    ensures BothCode(p, tab, op, l, r, lab).Some? && Appended(o, out, lab3, BothCode(p, tab, op, l, r, lab).value)
  {
    var cl, cr, co := ExprCode(p, tab, l, lab).value, ExprCode(p, tab, r, lab1).value, OperatorCode(op, lab2).value;
    Join4(o, cl.ops, SpillCode, cr.ops, UnspillCode, co.ops);
    var c := Code(cl.ops + SpillCode + cr.ops + UnspillCode + co.ops, co.next);
    assert BothCode(p, tab, op, l, r, lab) == Some(c);
  }

  /** Code with more instructions behind it, when it is whole. */
  function Followed(e: Emitted, ops: seq<Instr>): Emitted {
    if e.Whole? then Whole(Code(e.c.ops + ops, e.c.next)) else e
  }

  function LastCode(p: Prog, tab: Table, ls: Loops, no: Stmts, done: nat, lab: nat): Emitted {
    Followed(BlockCode(p, tab, ls, no, lab), [Label(Free(done))])
  }

  function ArmsCode(p: Prog, tab: Table, ls: Loops, yes: Stmts, no: Stmts, other: nat, done: nat, lab: nat): Emitted {
    var e := BlockCode(p, tab, ls, yes, lab);
    if !e.Whole? then e
    else Before(e.c.ops + [Jmp(Free(done)), Label(Free(other))], LastCode(p, tab, ls, no, done, e.c.next))
  }

  function BodyCode(p: Prog, tab: Table, ls: Loops, body: Stmts, start: nat, done: nat, lab: nat): Emitted {
    Followed(BlockCode(p, tab, ls, body, lab), [Jmp(Free(start)), Label(Free(done))])
  }

  /** Producing the rest behind `head` produces the whole. */
  lemma {:induction false} Behind(o: seq<Instr>, f0: bool, head: seq<Instr>, mid: seq<Instr>, ok: bool, out: seq<Instr>, next: nat, failed: bool, e: Emitted)
    requires mid == o + head && Produced(mid, f0, ok, out, next, failed, e)
    ensures Produced(o, f0, ok, out, next, failed, Before(head, e))
  {
    if !e.Rejected? { Cat(o, head, e.c.ops); }
  }

  lemma {:induction false} ArmsWhole(p: Prog, tab: Table, ls: Loops, yes: Stmts, no: Stmts, other: nat, done: nat, lab: nat, lab1: nat,
      o: seq<Instr>, f0: bool, mid: seq<Instr>, ok: bool, out: seq<Instr>, next: nat, failed: bool)
    requires BlockCode(p, tab, ls, yes, lab).Whole? && lab1 == BlockCode(p, tab, ls, yes, lab).c.next
    requires mid == o + BlockCode(p, tab, ls, yes, lab).c.ops + [Jmp(Free(done)), Label(Free(other))]
    requires Produced(mid, f0, ok, out, next, failed, LastCode(p, tab, ls, no, done, lab1))
    ensures Produced(o, f0, ok, out, next, failed, ArmsCode(p, tab, ls, yes, no, other, done, lab))
  {
    var cy := BlockCode(p, tab, ls, yes, lab).c;
    Cat(o, cy.ops, [Jmp(Free(done)), Label(Free(other))]);
    Behind(o, f0, cy.ops + [Jmp(Free(done)), Label(Free(other))], mid, ok, out, next, failed, LastCode(p, tab, ls, no, done, lab1));
  }

  lemma {:induction false} ChooseWhole(p: Prog, tab: Table, ls: Loops, c: Expr, yes: Stmts, no: Stmts, lab: nat,
      o: seq<Instr>, f0: bool, mid: seq<Instr>, ok: bool, out: seq<Instr>, next: nat, failed: bool)
    requires ExprCode(p, tab, c, lab).Some? && mid == o + ExprCode(p, tab, c, lab).value.ops + [TestL, Jcc(E, Free(ExprCode(p, tab, c, lab).value.next))]
    requires var n := ExprCode(p, tab, c, lab).value.next; Produced(mid, f0, ok, out, next, failed, ArmsCode(p, tab, ls, yes, no, n, n + 1, n + 2))
    ensures Produced(o, f0, ok, out, next, failed, ChooseCode(p, tab, ls, c, yes, no, lab))
  {
    var cc := ExprCode(p, tab, c, lab).value;
    var head := cc.ops + [TestL, Jcc(E, Free(cc.next))];
    Cat(o, cc.ops, [TestL, Jcc(E, Free(cc.next))]);
    Behind(o, f0, head, mid, ok, out, next, failed, ArmsCode(p, tab, ls, yes, no, cc.next, cc.next + 1, cc.next + 2));
    ChooseIsArms(p, tab, ls, c, yes, no, lab);
  }

  lemma {:induction false} ChooseIsArms(p: Prog, tab: Table, ls: Loops, c: Expr, yes: Stmts, no: Stmts, lab: nat)
    requires ExprCode(p, tab, c, lab).Some?
    ensures var cc := ExprCode(p, tab, c, lab).value;
      ChooseCode(p, tab, ls, c, yes, no, lab)
        == Before(cc.ops + [TestL, Jcc(E, Free(cc.next))], ArmsCode(p, tab, ls, yes, no, cc.next, cc.next + 1, cc.next + 2))
  {
    var cc := ExprCode(p, tab, c, lab).value;
    var head, turn := cc.ops + [TestL, Jcc(E, Free(cc.next))], [Jmp(Free(cc.next + 1)), Label(Free(cc.next))];
    var ey := BlockCode(p, tab, ls, yes, cc.next + 2);
    if ey.Whole? {
      var en := BlockCode(p, tab, ls, no, ey.c.next);
      Cat(head, ey.c.ops, turn);
      if !en.Rejected? {
        Cat(head, ey.c.ops + turn, en.c.ops);
        Cat(head + ey.c.ops + turn, en.c.ops, [Label(Free(cc.next + 1))]);
        Cat(head, ey.c.ops + turn, en.c.ops + [Label(Free(cc.next + 1))]);
      }
    }
  }

  lemma {:induction false} LoopWhole(p: Prog, tab: Table, ls: Loops, c: Expr, body: Stmts, lab: nat, lab1: nat,
      o: seq<Instr>, f0: bool, mid: seq<Instr>, ok: bool, out: seq<Instr>, next: nat, failed: bool)
    requires |ls| < MAX_LOOPS && ExprCode(p, tab, c, lab + 2).Some? && lab1 == ExprCode(p, tab, c, lab + 2).value.next
    requires mid == o + [Label(Free(lab))] + ExprCode(p, tab, c, lab + 2).value.ops + [TestL, Jcc(E, Free(lab + 1))]
    requires Produced(mid, f0, ok, out, next, failed, BodyCode(p, tab, ls + [(lab, lab + 1)], body, lab, lab + 1, lab1))
    ensures Produced(o, f0, ok, out, next, failed, LoopCode(p, tab, ls, c, body, lab))
  {
    var cc := ExprCode(p, tab, c, lab + 2).value;
    var head := [Label(Free(lab))] + cc.ops + [TestL, Jcc(E, Free(lab + 1))];
    Join2(o, [Label(Free(lab))], cc.ops, [TestL, Jcc(E, Free(lab + 1))]);
    Behind(o, f0, head, mid, ok, out, next, failed, BodyCode(p, tab, ls + [(lab, lab + 1)], body, lab, lab + 1, lab1));
    LoopIsBody(p, tab, ls, c, body, lab);
  }

  lemma {:induction false} LoopIsBody(p: Prog, tab: Table, ls: Loops, c: Expr, body: Stmts, lab: nat)
    requires |ls| < MAX_LOOPS && ExprCode(p, tab, c, lab + 2).Some?
    ensures var cc := ExprCode(p, tab, c, lab + 2).value;
      LoopCode(p, tab, ls, c, body, lab)
        == Before([Label(Free(lab))] + cc.ops + [TestL, Jcc(E, Free(lab + 1))], BodyCode(p, tab, ls + [(lab, lab + 1)], body, lab, lab + 1, cc.next))
  {
    var cc := ExprCode(p, tab, c, lab + 2).value;
    var head := [Label(Free(lab))] + cc.ops + [TestL, Jcc(E, Free(lab + 1))];
    var eb := BlockCode(p, tab, ls + [(lab, lab + 1)], body, cc.next);
    if eb.Whole? { Cat(head, eb.c.ops, [Jmp(Free(lab)), Label(Free(lab + 1))]); }
  }

  /** What is left of the functions from number `i` on, given what is `done`. */
  ghost predicate FuncsRest(p: Prog, i: nat, lab: nat, done: seq<Instr>)
    requires i <= |p|
  {
    var rest := FuncsCode(p, p[i..], lab);
    FuncsCode(p, p, 0) == if rest.None? then None else Some(Code(done + rest.value.ops, rest.value.next))
  }

  lemma {:induction false} FuncsFrom(p: Prog, i: nat, lab: nat)
    requires i == 0 && lab == 0
    ensures FuncsRest(p, 0, 0, [])
  {
    assert p[0..] == p;
    var rest := FuncsCode(p, p, 0);
    if rest.Some? { assert [] + rest.value.ops == rest.value.ops; }
  }

  lemma {:induction false} FuncsStep(p: Prog, i: nat, lab: nat, done: seq<Instr>)
    requires i < |p| && FuncsRest(p, i, lab, done)
    ensures FuncCode(p, p[i], lab).None? ==> FuncsCode(p, p, 0).None?
    ensures FuncCode(p, p[i], lab).Some? ==> var c := FuncCode(p, p[i], lab).value; FuncsRest(p, i + 1, c.next, done + c.ops)
  {
    assert p[i..][1..] == p[i + 1..];
    if FuncCode(p, p[i], lab).Some? {
      var c := FuncCode(p, p[i], lab).value;
      var rest := FuncsCode(p, p[i + 1..], c.next);
      if rest.Some? { Cat(done, c.ops, rest.value.ops); }
    }
  }

  lemma {:induction false} FuncWhole(p: Prog, fn: Func, lab: nat, o: seq<Instr>, out: seq<Instr>, next: nat)
    requires |fn.params| <= MAX_ARGS && !BlockCode(p, TableOf(fn), [], fn.body, lab).Rejected?
    requires var c := BlockCode(p, TableOf(fn), [], fn.body, lab).c; next == c.next && out == o + Prologue(fn) + c.ops + [Leave, Ret]
    ensures FuncCode(p, fn, lab).Some?
    ensures Appended(o, out, next, FuncCode(p, fn, lab).value)
  {
    Join2(o, Prologue(fn), BlockCode(p, TableOf(fn), [], fn.body, lab).c.ops, [Leave, Ret]);
  }

  lemma {:induction false} Cat(o: seq<Instr>, a: seq<Instr>, b: seq<Instr>)
    ensures o + a + b == o + (a + b)
  {
  }

  lemma {:induction false} Join2(o: seq<Instr>, a: seq<Instr>, b: seq<Instr>, c: seq<Instr>)
    ensures o + a + b + c == o + (a + b + c)
  {
    Cat(o, a, b);
    Cat(o, a + b, c);
  }

  lemma {:induction false} Join3(o: seq<Instr>, a: seq<Instr>, b: seq<Instr>, c: seq<Instr>, d: seq<Instr>)
    ensures o + a + b + c + d == o + (a + b + c + d)
  {
    Join2(o, a, b, c);
    Cat(o, a + b + c, d);
  }

  lemma {:induction false} Join4(o: seq<Instr>, a: seq<Instr>, b: seq<Instr>, c: seq<Instr>, d: seq<Instr>, e: seq<Instr>)
    ensures o + a + b + c + d + e == o + (a + b + c + d + e)
  {
    Join3(o, a, b, c, d);
    Cat(o, a + b + c + d, e);
  }

  /** Code appended to the output, with the label counter behind it. */
  ghost predicate Appended(before: seq<Instr>, after: seq<Instr>, next: nat, c: Code) {
    after == before + c.ops && next == c.next
  }

  ghost predicate Produced(before: seq<Instr>, failed0: bool, ok: bool, after: seq<Instr>, next: nat, failed: bool, e: Emitted) {
    match e
    case Whole(c) => ok && failed == failed0 && Appended(before, after, next, c)
    case Cut(c) => !ok && failed == failed0 && Appended(before, after, next, c)
    case Rejected => !ok && failed
  }
}
