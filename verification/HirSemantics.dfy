/** What a HIR program means: variables by storage key, the printed output, and an
    outcome. Everything the optimizer does not look into (calls to builtins, inline
    assembly, memory, calling convention) is an arbitrary function of the whole state. */
module HirSemantics {
  import opened Options
  import opened Operators
  import opened Hir

  datatype Value = IntV(i: int64) | BoolV(b: bool) | RefV(key: string) | Opaque(id: nat)

  datatype State = State(vars: map<string, Value>, mem: nat, out: seq<Value>)

  /** A read may touch memory but never a variable. */
  datatype Read = Got(v: Value, mem: nat) | Faulted

  datatype Effect = Acted(v: Value, st: State) | Crashed(st: State)

  /** The parts of the language left uninterpreted. */
  datatype World = World(
    truth: Value -> bool,
    read: (Op, seq<Value>, State) -> Read,
    act: (Op, seq<Value>, State) -> Effect,
    builtin: string -> bool,
    enter: (string, seq<string>, seq<Value>, State) -> State,
    leave: (State, State) -> State)

  /** Why a run traps: it reads a variable that is not set, or anything else. */
  datatype Cause = Unset(x: string) | Wrong

  /** Result of evaluating expressions. */
  datatype Evaluated = Vals(vs: seq<Value>, st: State) | EvalTrap(st: State, why: Cause) | EvalTimeout

  datatype Control = Normal | Broke | Continued | Returned(v: Value)

  datatype Outcome = Done(c: Control, st: State) | Trap(st: State, why: Cause) | Timeout

  function Truth(w: World, v: Value): bool {
    match v
    case BoolV(b) => b
    case _ => w.truth(v)
  }

  /** C division and remainder: truncation toward zero. */
  function TruncDiv(x: int, y: int): int
    requires y != 0
  {
    if (x < 0) == (y < 0) then Magnitude(x) / Magnitude(y) else -(Magnitude(x) / Magnitude(y))
  }

  function TruncMod(x: int, y: int): int
    requires y != 0
  {
    x - TruncDiv(x, y) * y
  }

  function Magnitude(x: int): int {
    if x < 0 then -x else x
  }

  /** 64-bit arithmetic; `None` is the trapping case. */
  function Arithmetic(op: BinaryOp, x: int64, y: int64): Option<Value> {
    match op
    case Add => Checked(x + y)
    case Subtract => Checked(x - y)
    case Multiply => Checked(x * y)
    case Divide => if y == 0 then None else Checked(TruncDiv(x, y))
    case Modulo => if y == 0 || (x == INT64_MIN && y == -1) then None else Checked(TruncMod(x, y))
    case Equal => Some(BoolV(x == y))
    case NotEqual => Some(BoolV(x != y))
    case Greater => Some(BoolV(x > y))
    case Less => Some(BoolV(x < y))
    case GreaterEqual => Some(BoolV(x >= y))
    case LessEqual => Some(BoolV(x <= y))
    case And => Some(BoolV(x != 0 && y != 0))
    case Or => Some(BoolV(x != 0 || y != 0))
  }

  function Checked(x: int): Option<Value> {
    if Fits(x) then Some(IntV(x)) else None
  }

  function FromRead(r: Read, st: State): Evaluated {
    match r
    case Got(v, m) => Vals([v], st.(mem := m))
    case Faulted => EvalTrap(st, Wrong)
  }

  function FromOption(o: Option<Value>, st: State): Evaluated {
    match o
    case Some(v) => Vals([v], st)
    case None => EvalTrap(st, Wrong)
  }

  /** An operator applied to evaluated operands. */
  function Apply(w: World, op: Op, vs: seq<Value>, st: State): Evaluated {
    if op.Binary? && |vs| == 2 && vs[0].IntV? && vs[1].IntV? then
      FromOption(Arithmetic(op.bop, vs[0].i, vs[1].i), st)
    else if op.Binary? && |vs| == 2 && vs[0].BoolV? && vs[1].BoolV? && op.bop in {Equal, NotEqual} then
      Vals([BoolV((vs[0].b == vs[1].b) == (op.bop == Equal))], st)
    else if op.Unary? && op.uop == Not && |vs| == 1 then
      Vals([BoolV(!Truth(w, vs[0]))], st)
    else if op.Unary? && op.uop == Negate && |vs| == 1 && vs[0].IntV? then
      FromOption(Checked(0 - vs[0].i), st)
    else
      FromRead(w.read(op, vs, st), st)
  }

  datatype Routine = Routine(params: seq<string>, body: Forest)

  /** The top-level function with a given name. */
  function FindFunction(p: Forest, name: string): Option<Routine> {
    if p.Nil? then None
    else if p.op.Function? && p.op.fn == name then Some(Routine(p.op.params, p.kids))
    else FindFunction(p.rest, name)
  }

  /** Evaluates one expression node. `p` is the list of top-level statements and `n`
      bounds loop iterations and call depth. */
  function EvalNode(n: nat, w: World, p: Forest, op: Op, kids: Forest, st: State): (r: Evaluated)
    ensures r.Vals? ==> |r.vs| == 1
    decreases n, 1, kids, 2
  {
    if op.Integer? then Vals([IntV(op.i)], st)
    else if op.Boolean? then Vals([BoolV(op.b)], st)
    else if op.Variable? then
      if op.name in st.vars then Vals([st.vars[op.name]], st) else EvalTrap(st, Unset(op.name))
    else if op.Text? || op.Null? then FromRead(w.read(op, [], st), st)
    else if op == Unary(Reference) then
      if kids.Cons? && kids.op.Variable? then Vals([RefV(kids.op.name)], st) else EvalTrap(st, Wrong)
    else if op == Binary(And) || op == Binary(Or) then ShortCircuit(n, w, p, op == Binary(Or), kids, st)
    else if op.Call? then EvalCall(n, w, p, op.callee, kids, st)
    else if Strict(op) then EvalThen(n, w, p, op, kids, st)
    else EvalTrap(st, Wrong)
  }

  /** Operators that evaluate all operands first. */
  predicate Strict(op: Op) {
    op.Binary? || op.Unary? || op.Array? || op.Index? || op.Member?
  }

  function EvalCall(n: nat, w: World, p: Forest, f: string, kids: Forest, st: State): (r: Evaluated)
    ensures r.Vals? ==> |r.vs| == 1
    decreases n, 1, kids, 1
  {
    match EvalList(n, w, p, kids, st)
    case Vals(vs, st1) => Invoke(n, w, p, f, vs, st1)
    case r => r
  }

  function EvalThen(n: nat, w: World, p: Forest, op: Op, kids: Forest, st: State): (r: Evaluated)
    ensures r.Vals? ==> |r.vs| == 1
    decreases n, 1, kids, 1
  {
    match EvalList(n, w, p, kids, st)
    case Vals(vs, st1) => Apply(w, op, vs, st1)
    case r => r
  }

  /** `stop` is the value of the left operand that decides the result. */
  function ShortCircuit(n: nat, w: World, p: Forest, stop: bool, kids: Forest, st: State): (r: Evaluated)
    ensures r.Vals? ==> |r.vs| == 1
    decreases n, 1, kids, 1
  {
    if kids.Nil? || kids.rest.Nil? then EvalTrap(st, Wrong)
    else match EvalNode(n, w, p, kids.op, kids.kids, st)
      case Vals(vs, st1) =>
        if Truth(w, vs[0]) == stop then Vals([BoolV(stop)], st1)
        else (match EvalNode(n, w, p, kids.rest.op, kids.rest.kids, st1)
              case Vals(us, st2) => Vals([BoolV(Truth(w, us[0]))], st2)
              case r => r)
      case r => r
  }

  /** Sibling expressions from left to right. */
  function EvalList(n: nat, w: World, p: Forest, f: Forest, st: State): (r: Evaluated)
    ensures r.Vals? ==> |r.vs| == Len(f)
    decreases n, 1, f, 0
  {
    if f.Nil? then Vals([], st)
    else match EvalNode(n, w, p, f.op, f.kids, st)
      case Vals(vs, st1) =>
        (match EvalList(n, w, p, f.rest, st1)
         case Vals(us, st2) => Vals(vs + us, st2)
         case r => r)
      case r => r
  }

  function Invoke(n: nat, w: World, p: Forest, f: string, vs: seq<Value>, st: State): (r: Evaluated)
    ensures r.Vals? ==> |r.vs| == 1
    decreases n, 0
  {
    if w.builtin(f) || FindFunction(p, f).None? then
      match w.act(Call(f), vs, st)
      case Acted(v, st1) => Vals([v], st1)
      case Crashed(st1) => EvalTrap(st1, Wrong)
    else if n == 0 then EvalTimeout
    else
      var r := FindFunction(p, f).value;
      match Exec(n - 1, w, p, r.body, Body, w.enter(f, r.params, vs, st))
      case Done(Returned(v), st1) => Vals([v], w.leave(st, st1))
      case Done(Normal, st1) => Vals([Opaque(0)], w.leave(st, st1))
      case Done(_, st1) => EvalTrap(st1, Wrong)
      case Trap(st1, why) => EvalTrap(st1, why)
      case Timeout => EvalTimeout
  }

  function Store(st: State, x: string, v: Value): State {
    st.(vars := st.vars[x := v])
  }

  /** A statement whose only operand is an optional value. */
  function Finish(op: Op, vs: seq<Value>, st: State): Outcome {
    match op
    case Print => Done(Normal, st.(out := st.out + vs))
    case Return => Done(Returned(if vs == [] then Opaque(0) else vs[0]), st)
    case Decl(x) => Done(Normal, if vs == [] then st else Store(st, x, vs[0]))
    case Reassign(x) => Done(Normal, if vs == [] then st else Store(st, x, vs[0]))
    case _ => Done(Normal, st)
  }

  function AfterEval(op: Op, r: Evaluated): Outcome {
    match r
    case Vals(vs, st) => Finish(op, vs, st)
    case EvalTrap(st, why) => Trap(st, why)
    case EvalTimeout => Timeout
  }

  function AfterAct(e: Effect): Outcome {
    match e
    case Acted(_, st) => Done(Normal, st)
    case Crashed(st) => Trap(st, Wrong)
  }

  predicate MemoryTarget(op: Op) {
    op.Index? || op.Member? || op == Unary(Dereference)
  }

  /** `target = value`: a variable is stored to; any other target is a memory write
      through the values of the target's operands. */
  function ExecAssign(n: nat, w: World, p: Forest, kids: Forest, st: State): Outcome
    decreases n, 1, kids, 3
  {
    if kids.Nil? || kids.rest.Nil? then Trap(st, Wrong)
    else if kids.op.Variable? then
      match EvalNode(n, w, p, kids.rest.op, kids.rest.kids, st)
      case Vals(vs, st1) => Done(Normal, Store(st1, kids.op.name, vs[0]))
      case EvalTrap(st1, why) => Trap(st1, why)
      case EvalTimeout => Timeout
    else if !MemoryTarget(kids.op) then Trap(st, Wrong)
    else
      match EvalList(n, w, p, kids.kids, st)
      case EvalTrap(st1, why) => Trap(st1, why)
      case EvalTimeout => Timeout
      case Vals(vs, st1) =>
        match EvalNode(n, w, p, kids.rest.op, kids.rest.kids, st1)
        case Vals(us, st2) => AfterAct(w.act(kids.op, vs + us, st2))
        case EvalTrap(st2, why) => Trap(st2, why)
        case EvalTimeout => Timeout
  }

  function EvalCondition(n: nat, w: World, p: Forest, kids: Forest, st: State): (r: Evaluated)
    ensures r.Vals? ==> |r.vs| == 1
    decreases n, 1, kids, 3
  {
    var c := Child(kids, Condition);
    if c.Nil? then EvalTrap(st, Wrong) else EvalNode(n, w, p, c.op, c.kids, st)
  }

  function ExecNode(n: nat, w: World, p: Forest, op: Op, kids: Forest, st: State): Outcome
    decreases n, 1, kids, 5
  {
    match op
    case Program => Exec(n, w, p, kids, Statement, st)
    case If =>
      (match EvalCondition(n, w, p, kids, st)
       case Vals(vs, st1) =>
         Exec(n, w, p, kids, if Truth(w, vs[0]) then Then else Else, st1)
       case EvalTrap(st1, why) => Trap(st1, why)
       case EvalTimeout => Timeout)
    case While => ExecLoop(n, w, p, kids, st)
    case Print => AfterEval(op, EvalList(n, w, p, kids, st))
    case Return => AfterEval(op, EvalList(n, w, p, kids, st))
    case Decl(_) => AfterEval(op, EvalList(n, w, p, kids, st))
    case Reassign(_) => AfterEval(op, EvalList(n, w, p, kids, st))
    case Assign => ExecAssign(n, w, p, kids, st)
    case Call(_) => AfterEval(op, EvalNode(n, w, p, op, kids, st))
    case Asm(_) => AfterAct(w.act(op, [], st))
    case Break => Done(Broke, st)
    case Continue => Done(Continued, st)
    case Function(_, _) => Done(Normal, st)
    case Struct(_, _) => Done(Normal, st)
    case _ => Trap(st, Wrong)
  }

  /** One unit of `n` is spent for each iteration that enters the body, so a loop whose
      condition is false costs nothing. */
  function ExecLoop(n: nat, w: World, p: Forest, kids: Forest, st: State): Outcome
    decreases n, 1, kids, 4
  {
    match EvalCondition(n, w, p, kids, st)
    case EvalTrap(st1, why) => Trap(st1, why)
    case EvalTimeout => Timeout
    case Vals(vs, st1) =>
      if !Truth(w, vs[0]) then Done(Normal, st1)
      else if n == 0 then Timeout
      else match Exec(n, w, p, kids, Body, st1)
        case Done(Broke, st2) => Done(Normal, st2)
        case Done(Returned(v), st2) => Done(Returned(v), st2)
        case Done(_, st2) => ExecLoop(n - 1, w, p, kids, st2)
        case r => r
  }

  /** The siblings with role `role`, in order. */
  function Exec(n: nat, w: World, p: Forest, f: Forest, role: Role, st: State): Outcome
    decreases n, 1, f, 3
  {
    if f.Nil? then Done(Normal, st)
    else if f.role != role then Exec(n, w, p, f.rest, role, st)
    else match ExecNode(n, w, p, f.op, f.kids, st)
      case Done(Normal, st1) => Exec(n, w, p, f.rest, role, st1)
      case r => r
  }

  /** A whole program, given the statements under its root. */
  function Run(n: nat, w: World, p: Forest, st: State): Outcome {
    Exec(n, w, p, p, Statement, st)
  }
}
