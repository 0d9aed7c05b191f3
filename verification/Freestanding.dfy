/** The integer and boolean subset that the freestanding back end compiles, its meaning, and
    the code emitted for it (src/compiler/freestanding_x86.c). */
module Freestanding {
  import opened Options
  import opened Operators
  import opened Hir
  import opened HirSemantics
  import opened X86

  // ---- Programs ----

  datatype Expr =
    | Literal(i: int64) | Flag(b: bool) | Local(x: string)
    | Minus(e: Expr) | Negation(e: Expr) | Infix(op: BinaryOp, l: Expr, r: Expr)
    | Apply(f: string, args: Args)

  datatype Args = Nothing | Arg(e: Expr, rest: Args)

  /** The declared type of a local, if any: only booleans have 32-bit slots. */
  datatype Type = Inferred | Wide | Narrow

  datatype Stmt =
    | Declare(x: string, t: Type, init: Option<Expr>)
    | Set(x: string, e: Expr)
    | Do(f: string, args: Args)
    | Give(value: Option<Expr>)
    | Choose(c: Expr, yes: Stmts, no: Stmts)
    | Loop(c: Expr, body: Stmts)
    | Exit | Again
    | Group(body: Stmts)

  datatype Stmts = Empty | Then(s: Stmt, rest: Stmts)

  datatype Func = Func(name: string, params: seq<string>, body: Stmts)

  type Prog = seq<Func>

  function Count(a: Args): nat {
    if a.Nothing? then 0 else 1 + Count(a.rest)
  }

  function Find(p: Prog, f: string): Option<Func> {
    if p == [] then None else if p[0].name == f then Some(p[0]) else Find(p[1..], f)
  }

  // ---- Slots: every local of a function in order of first occurrence ----

  datatype Slot = Slot(x: string, wide: bool)

  type Table = seq<Slot>

  function SlotOf(tab: Table, x: string): (i: int)
    ensures i == -1 || (0 <= i < |tab| && tab[i].x == x)
    ensures i == -1 ==> forall j :: 0 <= j < |tab| ==> tab[j].x != x
  {
    if tab == [] then -1
    else if tab[0].x == x then 0
    else var i := SlotOf(tab[1..], x); if i == -1 then -1 else i + 1
  }

  function AddSlot(tab: Table, x: string): Table {
    if SlotOf(tab, x) == -1 then tab + [Slot(x, true)] else tab
  }

  function Retype(tab: Table, x: string, t: Type): Table {
    var i := SlotOf(tab, x);
    if t.Inferred? || i == -1 then tab else tab[i := Slot(x, t.Wide?)]
  }

  function CollectExpr(tab: Table, e: Expr): Table
    decreases e
  {
    match e
    case Local(x) => AddSlot(tab, x)
    case Minus(a) => CollectExpr(tab, a)
    case Negation(a) => CollectExpr(tab, a)
    case Infix(_, l, r) => CollectExpr(CollectExpr(tab, l), r)
    case Apply(_, args) => CollectArgs(tab, args)
    case _ => tab
  }

  function CollectArgs(tab: Table, a: Args): Table
    decreases a
  {
    if a.Nothing? then tab else CollectArgs(CollectExpr(tab, a.e), a.rest)
  }

  function CollectStmt(tab: Table, s: Stmt): Table
    decreases s
  {
    match s
    case Declare(x, t, init) =>
      var named := Retype(AddSlot(tab, x), x, t);
      if init.Some? then CollectExpr(named, init.value) else named
    case Set(x, e) => CollectExpr(AddSlot(tab, x), e)
    case Do(_, args) => CollectArgs(tab, args)
    case Give(value) => if value.Some? then CollectExpr(tab, value.value) else tab
    case Choose(c, yes, no) => CollectStmts(CollectStmts(CollectExpr(tab, c), yes), no)
    case Loop(c, body) => CollectStmts(CollectExpr(tab, c), body)
    case Group(body) => CollectStmts(tab, body)
    case _ => tab
  }

  function CollectStmts(tab: Table, b: Stmts): Table
    decreases b
  {
    if b.Empty? then tab else CollectStmts(CollectStmt(tab, b.s), b.rest)
  }

  function CollectParams(tab: Table, ps: seq<string>): Table
    decreases |ps|
  {
    if ps == [] then tab else CollectParams(AddSlot(tab, ps[0]), ps[1..])
  }

  function TableOf(fn: Func): Table {
    CollectStmts(CollectParams([], fn.params), fn.body)
  }

  // ---- Meaning ----

  type Env = map<string, Value>

  /** `Stuck` is an operand of the wrong type or an unset variable: no well-typed program gets
      there, but programs with untyped parameters or results may. */
  datatype Ev = Val(v: Value) | Overflow | Stuck | Unfinished

  datatype EvArgs = Passed(vs: seq<Value>) | Failed(why: Ev)

  datatype Flow = On(env: Env) | Exits(env: Env) | Repeats(env: Env) | Returns(v: Value) | Stops(why: Ev)

  function OfOption(o: Option<Value>): Ev {
    match o case Some(v) => Val(v) case None => Overflow
  }

  function Operate(op: BinaryOp, x: Value, y: Value): Ev {
    if x.IntV? && y.IntV? then OfOption(Arithmetic(op, x.i, y.i))
    else if x.BoolV? && y.BoolV? && (op == Equal || op == NotEqual) then Val(BoolV((x.b == y.b) == (op == Equal)))
    else Stuck
  }

  function NegateEv(r: Ev): Ev {
    match r
    case Val(v) => if v.IntV? then OfOption(Checked(0 - v.i)) else Stuck
    case _ => r
  }

  function InvertEv(r: Ev): Ev {
    match r
    case Val(v) => if v.BoolV? then Val(BoolV(!v.b)) else Stuck
    case _ => r
  }

  /** `n` bounds loop iterations and call depth. */
  function Eval(n: nat, p: Prog, e: Expr, env: Env): Ev
    decreases n, 1, e, 1
  {
    match e
    case Literal(i) => Val(IntV(i))
    case Flag(b) => Val(BoolV(b))
    case Local(x) => if x in env then Val(env[x]) else Stuck
    case Minus(a) => NegateEv(Eval(n, p, a, env))
    case Negation(a) => InvertEv(Eval(n, p, a, env))
    case Infix(op, l, r) => if op == And || op == Or then EvalLogic(n, p, op, l, r, env) else EvalBoth(n, p, op, l, r, env)
    case Apply(f, args) => EvalApply(n, p, f, args, env)
  }

  function EvalApply(n: nat, p: Prog, f: string, args: Args, env: Env): Ev
    decreases n, 1, args, 1
  {
    match EvalArgs(n, p, args, env)
    case Passed(vs) => Enter(n, p, f, vs)
    case Failed(r) => r
  }

  function EvalLogic(n: nat, p: Prog, op: BinaryOp, l: Expr, r: Expr, env: Env): Ev
    decreases n, 1, Infix(op, l, r), 0
  {
    match Eval(n, p, l, env)
    case Val(v) =>
      if !v.BoolV? then Stuck
      else if v.b == (op == Or) then Val(v)
      else (match Eval(n, p, r, env)
            case Val(u) => if u.BoolV? then Val(u) else Stuck
            case x => x)
    case x => x
  }

  function EvalBoth(n: nat, p: Prog, op: BinaryOp, l: Expr, r: Expr, env: Env): Ev
    decreases n, 1, Infix(op, l, r), 0
  {
    match Eval(n, p, l, env)
    case Val(x) => (match Eval(n, p, r, env) case Val(y) => Operate(op, x, y) case o => o)
    case o => o
  }

  function EvalArgs(n: nat, p: Prog, a: Args, env: Env): (r: EvArgs)
    ensures r.Passed? ==> |r.vs| == Count(a)
    ensures r.Failed? ==> !r.why.Val?
    decreases n, 1, a, 0
  {
    if a.Nothing? then Passed([])
    else match Eval(n, p, a.e, env)
      case Val(v) =>
        (match EvalArgs(n, p, a.rest, env)
         case Passed(vs) => Passed([v] + vs)
         case r => r)
      case r => Failed(r)
  }

  /** A variable can hold a value: 32-bit slots only hold booleans. */
  predicate Suits(tab: Table, x: string, v: Value) {
    v.BoolV? || (v.IntV? && forall i :: 0 <= i < |tab| && tab[i].x == x ==> tab[i].wide)
  }

  function Bind(tab: Table, ps: seq<string>, vs: seq<Value>): Option<Env>
    decreases |ps|
  {
    if |ps| != |vs| then None
    else if ps == [] then Some(map[])
    else match Bind(tab, ps[1..], vs[1..])
      case None => None
      case Some(env) => if Suits(tab, ps[0], vs[0]) then Some(env[ps[0] := vs[0]]) else None
  }

  function Enter(n: nat, p: Prog, f: string, vs: seq<Value>): Ev
    decreases n, 0
  {
    match Find(p, f)
    case None => Stuck
    case Some(fn) =>
      match Bind(TableOf(fn), fn.params, vs)
      case None => Stuck
      case Some(env) =>
        if n == 0 then Unfinished
        else match PerformAll(n - 1, p, TableOf(fn), fn.body, env)
          case Returns(v) => Val(v)
          case On(_) => Val(Opaque(0))
          case Stops(r) => if r.Val? then Stuck else r
          case _ => Stuck
  }

  function Update(tab: Table, x: string, r: Ev, env: Env): Flow {
    match r
    case Val(v) => if Suits(tab, x, v) then On(env[x := v]) else Stops(Stuck)
    case o => Stops(o)
  }

  function Perform(n: nat, p: Prog, tab: Table, s: Stmt, env: Env): Flow
    decreases n, 1, s, 1
  {
    match s
    case Declare(x, _, init) => if init.None? then On(env) else Update(tab, x, Eval(n, p, init.value, env), env)
    case Set(x, e) => Update(tab, x, Eval(n, p, e, env), env)
    case Do(f, args) => (match EvalApply(n, p, f, args, env) case Val(_) => On(env) case r => Stops(r))
    case Give(value) =>
      if value.None? then Returns(Opaque(0))
      else (match Eval(n, p, value.value, env) case Val(v) => Returns(v) case r => Stops(r))
    case Choose(c, yes, no) =>
      (match Eval(n, p, c, env)
       case Val(BoolV(b)) => PerformAll(n, p, tab, if b then yes else no, env)
       case Val(_) => Stops(Stuck)
       case r => Stops(r))
    case Loop(c, body) => PerformLoop(n, p, tab, c, body, env)
    case Exit => Exits(env)
    case Again => Repeats(env)
    case Group(body) => PerformAll(n, p, tab, body, env)
  }

  function PerformLoop(n: nat, p: Prog, tab: Table, c: Expr, body: Stmts, env: Env): Flow
    decreases n, 1, Loop(c, body), 0
  {
    match Eval(n, p, c, env)
    case Val(BoolV(false)) => On(env)
    case Val(BoolV(true)) =>
      if n == 0 then Stops(Unfinished)
      else (match PerformAll(n, p, tab, body, env)
            case On(e) => PerformLoop(n - 1, p, tab, c, body, e)
            case Repeats(e) => PerformLoop(n - 1, p, tab, c, body, e)
            case Exits(e) => On(e)
            case r => r)
    case Val(_) => Stops(Stuck)
    case r => Stops(r)
  }

  function PerformAll(n: nat, p: Prog, tab: Table, b: Stmts, env: Env): Flow
    decreases n, 1, b, 0
  {
    if b.Empty? then On(env)
    else match Perform(n, p, tab, b.s, env)
      case On(e) => PerformAll(n, p, tab, b.rest, e)
      case r => r
  }

  // ---- Emitted code ----

  const MAX_ARGS: nat := 6
  const MAX_LOOPS: nat := 64

  function ArgRegister(i: nat): Register {
    match i case 0 => RDI case 1 => RSI case 2 => RDX case 3 => RCX case 4 => R8 case _ => R9
  }

  /** Instructions and the next unused label. */
  datatype Code = Code(ops: seq<Instr>, next: nat)

  /** Frame-relative address of a slot. */
  function Disp(i: nat): int {
    -8 * (i + 1)
  }

  /** Argument area: a word per argument, kept 16-byte aligned. */
  function Area(argc: nat): nat {
    (argc + argc % 2) * 8
  }

  function CompareCode(cc: Condition): seq<Instr> {
    [CmpQ, Instr.Set(cc), MovzbAl]
  }

  function DivideCode(lab: nat, modulo: bool): seq<Instr> {
    [TestRcx, Jcc(E, Fault), CmpRcx, Jcc(NE, Free(lab)), MovRdxMin, CmpRdx, Jcc(E, Fault), Label(Free(lab)), Cqto, IdivQ] +
    if modulo then [MovRaxRdx] else []
  }

  /** The operation on %rax and %rcx. */
  function OperatorCode(op: BinaryOp, lab: nat): Option<Code> {
    match op
    case Add => Some(Code([AddQ, Jcc(O, Fault)], lab))
    case Subtract => Some(Code([SubQ, Jcc(O, Fault)], lab))
    case Multiply => Some(Code([ImulQ, Jcc(O, Fault)], lab))
    case Divide => Some(Code(DivideCode(lab, false), lab + 1))
    case Modulo => Some(Code(DivideCode(lab, true), lab + 1))
    case Equal => Some(Code(CompareCode(E), lab))
    case NotEqual => Some(Code(CompareCode(NE), lab))
    case Greater => Some(Code(CompareCode(G), lab))
    case Less => Some(Code(CompareCode(L), lab))
    case GreaterEqual => Some(Code(CompareCode(GE), lab))
    case LessEqual => Some(Code(CompareCode(LE), lab))
    case _ => None
  }

  const SpillCode: seq<Instr> := [SubSp(16), Spill(0)]
  const UnspillCode: seq<Instr> := [MovRcxRax, Top, AddSp(16)]

  function ExprCode(p: Prog, tab: Table, e: Expr, lab: nat): Option<Code>
    decreases e, 1
  {
    match e
    case Literal(i) => Some(Code([MovImm(i)], lab))
    case Flag(b) => Some(Code([MovImmL(b)], lab))
    case Local(x) =>
      var i := SlotOf(tab, x);
      if i == -1 then None else Some(Code([if tab[i].wide then LoadQ(Disp(i)) else LoadL(Disp(i))], lab))
    case Minus(a) =>
      (match ExprCode(p, tab, a, lab)
       case None => None
       case Some(c) => Some(Code(c.ops + [NegQ, Jcc(O, Fault)], c.next)))
    case Negation(a) =>
      (match ExprCode(p, tab, a, lab)
       case None => None
       case Some(c) => Some(Code(c.ops + [TestL, Instr.Set(E), MovzbAl], c.next)))
    case Infix(op, l, r) => if op == And || op == Or then LogicCode(p, tab, op, l, r, lab) else BothCode(p, tab, op, l, r, lab)
    case Apply(f, args) => CallCode(p, tab, f, args, lab)
  }

  function LogicTail(stop: bool, lab: nat): seq<Instr> {
    [TestL, Instr.Set(NE), MovzbAl, Jmp(Free(lab + 1)), Label(Free(lab)), MovImmL(stop), Label(Free(lab + 1))]
  }

  function LogicCode(p: Prog, tab: Table, op: BinaryOp, l: Expr, r: Expr, lab: nat): Option<Code>
    decreases Infix(op, l, r), 0
  {
    match ExprCode(p, tab, l, lab + 2)
    case None => None
    case Some(cl) =>
      match ExprCode(p, tab, r, cl.next)
      case None => None
      case Some(cr) => Some(Code(cl.ops + [TestL, Jcc(if op == Or then NE else E, Free(lab))] + cr.ops + LogicTail(op == Or, lab), cr.next))
  }

  function BothCode(p: Prog, tab: Table, op: BinaryOp, l: Expr, r: Expr, lab: nat): Option<Code>
    decreases Infix(op, l, r), 0
  {
    match ExprCode(p, tab, l, lab)
    case None => None
    case Some(cl) =>
      match ExprCode(p, tab, r, cl.next)
      case None => None
      case Some(cr) =>
        match OperatorCode(op, cr.next)
        case None => None
        case Some(co) => Some(Code(cl.ops + SpillCode + cr.ops + UnspillCode + co.ops, co.next))
  }

  /** Evaluates the arguments from number `i` on into the argument area. */
  function ArgsCode(p: Prog, tab: Table, a: Args, i: nat, lab: nat): Option<Code>
    decreases a, 0
  {
    if a.Nothing? then Some(Code([], lab))
    else match ExprCode(p, tab, a.e, lab)
      case None => None
      case Some(c) =>
        match ArgsCode(p, tab, a.rest, i + 1, c.next)
        case None => None
        case Some(rest) => Some(Code(c.ops + [Spill(8 * i)] + rest.ops, rest.next))
  }

  /** Loads the registers from the argument area. */
  function LoadCode(argc: nat): seq<Instr> {
    if argc == 0 then [] else LoadCode(argc - 1) + [LoadArg(8 * (argc - 1), ArgRegister(argc - 1))]
  }

  function Reserve(n: nat): seq<Instr> {
    if n == 0 then [] else [SubSp(n)]
  }

  function Release(n: nat): seq<Instr> {
    if n == 0 then [] else [AddSp(n)]
  }

  function CallCode(p: Prog, tab: Table, f: string, args: Args, lab: nat): Option<Code>
    decreases args, 1
  {
    match Find(p, f)
    case None => None
    case Some(fn) =>
      if Count(args) != |fn.params| || |fn.params| > MAX_ARGS then None
      else match ArgsCode(p, tab, args, 0, lab)
        case None => None
        case Some(c) =>
          var argc := |fn.params|;
          Some(Code(Reserve(Area(argc)) + c.ops + LoadCode(argc) + [Instr.Call(f)] + Release(Area(argc)), c.next))
  }

  function StoreVar(tab: Table, i: nat): seq<Instr>
    requires i < |tab|
  {
    [if tab[i].wide then StoreQ(Disp(i)) else StoreL(Disp(i))]
  }

  /** A statement either is emitted, is rejected with an error, or is silently cut short. */
  datatype Emitted = Whole(c: Code) | Cut(c: Code) | Rejected

  function AssignCode(p: Prog, tab: Table, x: string, e: Expr, lab: nat): Emitted {
    match ExprCode(p, tab, e, lab)
    case None => Rejected
    case Some(c) =>
      if SlotOf(tab, x) == -1 then Rejected else Whole(Code(c.ops + StoreVar(tab, SlotOf(tab, x)), c.next))
  }

  function OfCode(c: Option<Code>): Emitted {
    match c case None => Rejected case Some(k) => Whole(k)
  }

  /** `loops` holds the start and end labels of the enclosing loops, innermost last. */
  function StmtCode(p: Prog, tab: Table, loops: seq<(nat, nat)>, s: Stmt, lab: nat): Emitted
    decreases s, 1
  {
    match s
    case Declare(x, _, init) => if init.None? then Cut(Code([], lab)) else AssignCode(p, tab, x, init.value, lab)
    case Set(x, e) => AssignCode(p, tab, x, e, lab)
    case Do(f, args) => OfCode(CallCode(p, tab, f, args, lab))
    case Give(value) =>
      if value.None? then Whole(Code([Leave, Ret], lab))
      else (match ExprCode(p, tab, value.value, lab)
            case None => Rejected
            case Some(c) => Whole(Code(c.ops + [Leave, Ret], c.next)))
    case Choose(c, yes, no) => ChooseCode(p, tab, loops, c, yes, no, lab)
    case Loop(c, body) => LoopCode(p, tab, loops, c, body, lab)
    case Exit => if loops == [] then Rejected else Whole(Code([Jmp(Free(loops[|loops| - 1].1))], lab))
    case Again => if loops == [] then Rejected else Whole(Code([Jmp(Free(loops[|loops| - 1].0))], lab))
    case Group(body) => BlockCode(p, tab, loops, body, lab)
  }

  function Before(head: seq<Instr>, e: Emitted): Emitted {
    match e
    case Whole(c) => Whole(Code(head + c.ops, c.next))
    case Cut(c) => Cut(Code(head + c.ops, c.next))
    case Rejected => Rejected
  }

  function ChooseCode(p: Prog, tab: Table, loops: seq<(nat, nat)>, c: Expr, yes: Stmts, no: Stmts, lab: nat): Emitted
    decreases Choose(c, yes, no), 0
  {
    match ExprCode(p, tab, c, lab)
    case None => Rejected
    case Some(cc) =>
      var other, done := cc.next, cc.next + 1;
      var head := cc.ops + [TestL, Jcc(E, Free(other))];
      match BlockCode(p, tab, loops, yes, cc.next + 2)
      case Whole(cy) =>
        var mid := head + cy.ops + [Jmp(Free(done)), Label(Free(other))];
        (match BlockCode(p, tab, loops, no, cy.next)
         case Whole(cn) => Whole(Code(mid + cn.ops + [Label(Free(done))], cn.next))
         case r => Before(mid, r))
      case r => Before(head, r)
  }

  function LoopCode(p: Prog, tab: Table, loops: seq<(nat, nat)>, c: Expr, body: Stmts, lab: nat): Emitted
    decreases Loop(c, body), 0
  {
    if |loops| >= MAX_LOOPS then Rejected
    else
      var start, done := lab, lab + 1;
      match ExprCode(p, tab, c, lab + 2)
      case None => Rejected
      case Some(cc) =>
        var head := [Label(Free(start))] + cc.ops + [TestL, Jcc(E, Free(done))];
        match BlockCode(p, tab, loops + [(start, done)], body, cc.next)
        case Whole(cb) => Whole(Code(head + cb.ops + [Jmp(Free(start)), Label(Free(done))], cb.next))
        case r => Before(head, r)
  }

  function BlockCode(p: Prog, tab: Table, loops: seq<(nat, nat)>, b: Stmts, lab: nat): Emitted
    decreases b, 1
  {
    if b.Empty? then Whole(Code([], lab))
    else match StmtCode(p, tab, loops, b.s, lab)
      case Whole(c) => Before(c.ops, BlockCode(p, tab, loops, b.rest, c.next))
      case r => r
  }

  function Frame(tab: Table): nat {
    8 * (|tab| + |tab| % 2)
  }

  /** Saves the parameters in their slots. */
  function SaveCode(argc: nat): seq<Instr> {
    if argc == 0 then [] else SaveCode(argc - 1) + [StoreArg(ArgRegister(argc - 1), Disp(argc - 1))]
  }

  function Prologue(fn: Func): seq<Instr> {
    [Label(Fn(fn.name)), PushRbp, MovRbpSp] + Reserve(Frame(TableOf(fn))) + SaveCode(|fn.params|)
  }

  /** A function whose body is cut short is still finished and accepted. */
  function FuncCode(p: Prog, fn: Func, lab: nat): Option<Code> {
    if |fn.params| > MAX_ARGS then None
    else match BlockCode(p, TableOf(fn), [], fn.body, lab)
      case Rejected => None
      case Whole(c) => Some(Code(Prologue(fn) + c.ops + [Leave, Ret], c.next))
      case Cut(c) => Some(Code(Prologue(fn) + c.ops + [Leave, Ret], c.next))
  }

  function FuncsCode(p: Prog, fns: seq<Func>, lab: nat): Option<Code>
    decreases |fns|
  {
    if fns == [] then Some(Code([], lab))
    else match FuncCode(p, fns[0], lab)
      case None => None
      case Some(c) =>
        match FuncsCode(p, fns[1..], c.next)
        case None => None
        case Some(rest) => Some(Code(c.ops + rest.ops, rest.next))
  }

  const MainName: string := "kernel_main"
  const BootCode: seq<Instr> := [AndSp, Instr.Call(MainName), Hlt]
  const FaultCode: seq<Instr> := [Label(Fault), Ud2]

  predicate DistinctFunctions(p: Prog) {
    forall i, j :: 0 <= i < j < |p| ==> p[i].name != p[j].name
  }

  function ProgramCode(p: Prog): Option<seq<Instr>> {
    if !DistinctFunctions(p) || Find(p, MainName).None? || Find(p, MainName).value.params != [] then None
    else match FuncsCode(p, p, 0)
      case None => None
      case Some(c) => Some(BootCode + c.ops + FaultCode)
  }
}
