/** What integer operations compute, in terms of plain arithmetic: the evaluator, constant
    folding and the machine's division agree with it one by one. */
module HirArithmetic {
  import opened Options
  import opened Operators
  import opened Hir
  import opened HirSemantics
  import opened HirRewrite
  import opened HirPropagate
  import opened HirClosure
  import opened HirOptimizer
  import X86

  // ---- Division in C ----

  /** `q` and `r` are the quotient and the remainder of C: the remainder is smaller than the
      divisor and has the sign of the dividend. */
  predicate Divides(x: int, y: int, q: int, r: int) {
    && x == q * y + r
    && (if r < 0 then -r else r) < (if y < 0 then -y else y)
    && (r == 0 || (r < 0 <==> x < 0))
  }

  lemma NotSmaller(d: int, y: int)
    requires d != 0
    ensures (if d * y < 0 then -(d * y) else d * y) >= (if y < 0 then -y else y)
  {
    if d > 0 { MulMonotone(1, d, Magnitude(y)); } else { MulMonotone(1, -d, Magnitude(y)); }
    SignedProduct(d, y);
  }

  /** There is only one such pair. */
  lemma {:induction false} DividesOnce(x: int, y: int, q: int, r: int, q1: int, r1: int)
    requires Divides(x, y, q, r) && Divides(x, y, q1, r1)
    ensures q == q1 && r == r1
  {
    assert (q - q1) * y == r1 - r;
    if q != q1 { NotSmaller(q - q1, y); }
  }

  lemma {:induction false} Truncates(x: int, y: int)
    requires y != 0
    ensures Divides(x, y, TruncDiv(x, y), TruncMod(x, y))
  {
    var a, b := Magnitude(x), Magnitude(y);
    RemainderBound(x, y);
    SignedProduct(a / b, y);
    DivisionIdentity(a, b);
  }

  /** Truncating division is C's, and nothing else is. */
  lemma {:induction false} DivisionExact(x: int, y: int, q: int, r: int)
    requires y != 0
    ensures Divides(x, y, q, r) <==> q == TruncDiv(x, y) && r == TruncMod(x, y)
  {
    Truncates(x, y);
    if Divides(x, y, q, r) { DividesOnce(x, y, q, r, TruncDiv(x, y), TruncMod(x, y)); }
  }

  // ---- Every operator ----

  predicate In64(x: int) {
    -9223372036854775808 <= x <= 9223372036854775807
  }

  /** The results of an operator on two integers: none exactly where it traps. */
  ghost predicate Result(op: BinaryOp, x: int, y: int, r: Option<Value>) {
    match op
    case Add => if In64(x + y) then r == Some(IntV(x + y)) else r == None
    case Subtract => if In64(x - y) then r == Some(IntV(x - y)) else r == None
    case Multiply => if In64(x * y) then r == Some(IntV(x * y)) else r == None
    case Divide =>
      if y == 0 || (x == -9223372036854775808 && y == -1) then r == None
      else r.Some? && r.value.IntV? && exists m :: Divides(x, y, r.value.i, m)
    case Modulo =>
      if y == 0 || (x == -9223372036854775808 && y == -1) then r == None
      else r.Some? && r.value.IntV? && exists q :: Divides(x, y, q, r.value.i)
    case Equal => r == Some(BoolV(x == y))
    case NotEqual => r == Some(BoolV(x != y))
    case Greater => r == Some(BoolV(x > y))
    case Less => r == Some(BoolV(x < y))
    case GreaterEqual => r == Some(BoolV(x >= y))
    case LessEqual => r == Some(BoolV(x <= y))
    case And => r == Some(BoolV(x != 0 && y != 0))
    case Or => r == Some(BoolV(x != 0 || y != 0))
  }

  lemma {:induction false} MinimumByMinusOne()
    ensures !Fits(TruncDiv(INT64_MIN, -1))
  {
    DivisionExact(INT64_MIN, -1, -INT64_MIN, 0);
  }

  /** The evaluator computes this, and nothing else satisfies it. */
  lemma {:induction false} EvaluatorExact(op: BinaryOp, x: int64, y: int64, r: Option<Value>)
    ensures Result(op, x, y, r) <==> r == Arithmetic(op, x, y)
  {
    if y != 0 {
      Truncates(x, y);
      MinimumByMinusOne();
      if !(x == INT64_MIN && y == -1) { TruncFits(x, y); }
      forall q, m | Divides(x, y, q, m) ensures q == TruncDiv(x, y) && m == TruncMod(x, y) { DivisionExact(x, y, q, m); }
    }
  }

  /** The literal that an operator node is folded to has the value of the operator; a node that
      traps is left alone, and so are the logical operators on integers. */
  lemma {:induction false} FoldExact(op: BinaryOp, x: int64, y: int64)
    ensures var f := FoldBinary(op, Integer(x), Integer(y));
      if op == And || op == Or then f == None
      else Result(op, x, y, match f case None => None case Some(lit) => LiteralValue(lit))
  {
    EvaluatorExact(op, x, y, Arithmetic(op, x, y));
    if y != 0 {
      MinimumByMinusOne();
      if !(x == INT64_MIN && y == -1) { TruncFits(x, y); }
    }
  }

  function LiteralValue(op: Op): Option<Value> {
    match op
    case Integer(i) => Some(IntV(i))
    case Boolean(b) => Some(BoolV(b))
    case _ => None
  }

  /** On two booleans. */
  lemma FoldBooleansExact(op: BinaryOp, a: bool, b: bool)
    ensures FoldBinary(op, Boolean(a), Boolean(b)) ==
      match op
      case And => Some(Boolean(a && b))
      case Or => Some(Boolean(a || b))
      case Equal => Some(Boolean(a <==> b))
      case NotEqual => Some(Boolean(!(a <==> b)))
      case _ => None
  {
  }

  /** Both operations on the same literals: a quotient and its remainder. */
  lemma {:induction false} FoldedDivision(x: int64, y: int64, q: int64, r: int64)
    requires FoldBinary(Divide, Integer(x), Integer(y)) == Some(Integer(q))
    requires FoldBinary(Modulo, Integer(x), Integer(y)) == Some(Integer(r))
    ensures x == q * y + r && (if r < 0 then 0 - r else r) < (if y < 0 then 0 - y else y) && (r == 0 || (r < 0 <==> x < 0))
  {
    Truncates(x, y);
  }

  // ---- Whole programs ----

  /** `print x op y` on two literals. */
  function PrintOf(op: BinaryOp, x: int64, y: int64): Forest {
    Cons(1, Print, Statement, Cons(2, Binary(op), Role.Value, Cons(3, Integer(x), Left, Nil, Cons(4, Integer(y), Right, Nil, Nil)), Nil), Nil)
  }

  lemma {:induction false} PrintOptimizable(op: BinaryOp, x: int64, y: int64)
    ensures Optimizable(PrintOf(op, x, y))
  {
    var f := PrintOf(op, x, y);
    var operands := Cons(3, Integer(x), Left, Nil, Cons(4, Integer(y), Right, Nil, Nil));
    assert Canonical(operands.rest) && Canonical(operands) && Pair(operands, Left, Right);
    assert Canonical(f.kids) && Len(f.kids) == 1 && AllRole(f.kids, Role.Value);
    assert CanonicalNode(Print, f.kids);
    assert OrderlyList(Nil) && OrderlyList(operands.rest) && OrderlyList(operands) && OrderlyList(f.kids);
  }

  lemma {:induction false} PrintRuns(n: nat, w: World, op: BinaryOp, x: int64, y: int64, st: State)
    requires op != And && op != Or
    ensures var p := PrintOf(op, x, y); var r := Arithmetic(op, x, y);
      Run(n, w, p, st) == if r.None? then Trap(st, Wrong) else Done(Normal, st.(out := st.out + [r.value]))
  {
    var p := PrintOf(op, x, y);
    var operands := p.kids.kids;
    assert EvalNode(n, w, p, Integer(y), Nil, st) == Vals([IntV(y)], st);
    assert EvalList(n, w, p, operands.rest, st) == Vals([IntV(y)] + [], st);
    assert EvalList(n, w, p, operands, st) == Vals([IntV(x)] + ([IntV(y)] + []), st);
    var vs := [IntV(x)] + ([IntV(y)] + []);
    assert vs == [IntV(x), IntV(y)];
    assert EvalNode(n, w, p, Binary(op), operands, st) == Apply(w, Binary(op), vs, st);
    var r := EvalNode(n, w, p, Binary(op), operands, st);
    SinglePrint(n, w, p, r, st);
  }

  lemma {:induction false} SinglePrint(n: nat, w: World, p: Forest, r: Evaluated, st: State)
    requires p.Cons? && p.op == Print && p.role == Statement && p.rest.Nil? && p.kids.Cons? && p.kids.rest.Nil?
    requires r == EvalNode(n, w, p, p.kids.op, p.kids.kids, st)
    ensures Run(n, w, p, st) == match r
      case Vals(vs, st1) => Done(Normal, st1.(out := st1.out + vs))
      case EvalTrap(st1, why) => Trap(st1, why)
      case EvalTimeout => Timeout
  {
    if r.Vals? {
      assert EvalList(n, w, p, p.kids.rest, r.st) == Vals([], r.st);
      assert r.vs + [] == r.vs;
    }
    assert EvalList(n, w, p, p.kids, st) == r;
    var o := ExecNode(n, w, p, Print, p.kids, st);
    assert o == AfterEval(Print, r);
    assert o.Done? ==> Exec(n, w, p, p.rest, Statement, o.st) == Done(Normal, o.st);
  }

  /** Optimized, `print x op y` still prints the result, or traps when there is none. */
  lemma {:induction false} PrintedExact(n: nat, w: World, op: BinaryOp, x: int64, y: int64, st: State)
    requires op != And && op != Or
    ensures var o := Run(n, w, Rounds(PrintOf(op, x, y), 8), st);
      exists r :: Result(op, x, y, r) && o == if r.None? then Trap(st, Wrong) else Done(Normal, st.(out := st.out + [r.value]))
  {
    PrintOptimizable(op, x, y);
    RoundsSound(8, PrintOf(op, x, y));
    PrintRuns(n, w, op, x, y, st);
    var r := Arithmetic(op, x, y);
    EvaluatorExact(op, x, y, r);
    assert Run(n, w, Rounds(PrintOf(op, x, y), 8), st) == Run(n, w, PrintOf(op, x, y), st);
  }

  // ---- The machine ----

  /** The division instruction leaves the quotient in %rax and the remainder in %rdx, and
      fails on a zero divisor, on a dividend that is not sign-extended, and when the quotient
      does not fit. */
  lemma {:induction false} IdivDivides(s: X86.Cpu)
    requires In64(s.rax) && In64(s.rcx)
    ensures var o := X86.StepData(X86.IdivQ, s);
      if s.rcx == 0 || s.rdx != (if s.rax < 0 then -1 else 0) || (s.rax == -9223372036854775808 && s.rcx == -1) then o == X86.Broken
      else o.Running? && Divides(s.rax, s.rcx, o.s.rax, o.s.rdx) && o.s == s.(pc := s.pc + 1, rax := o.s.rax, rdx := o.s.rdx)
  {
    if s.rcx != 0 {
      Truncates(s.rax, s.rcx);
      MinimumByMinusOne();
      if !(s.rax == INT64_MIN && s.rcx == -1) { TruncFits(s.rax, s.rcx); }
    }
  }

  /** Addition, subtraction and multiplication leave the result, or set the overflow flag when it
      does not fit. */
  lemma {:induction false} MachineComputes(s: X86.Cpu)
    ensures Leaves(X86.StepData(X86.AddQ, s), s.rax + s.rcx)
    ensures Leaves(X86.StepData(X86.SubQ, s), s.rax - s.rcx)
    ensures Leaves(X86.StepData(X86.ImulQ, s), s.rax * s.rcx)
    ensures Leaves(X86.StepData(X86.NegQ, s), 0 - s.rax)
  {
    X86.WrapFits(s.rax + s.rcx);
    X86.WrapFits(s.rax - s.rcx);
    X86.WrapFits(s.rax * s.rcx);
    X86.WrapFits(0 - s.rax);
  }

  predicate Leaves(o: X86.Status, z: int) {
    o.Running? && (X86.Holds(o.s, X86.O) <==> !In64(z)) && (In64(z) ==> o.s.rax == z)
  }

  /** After a comparison each condition holds when the numbers compare so. */
  lemma {:induction false} MachineCompares(s: X86.Cpu)
    ensures var o := X86.StepData(X86.CmpQ, s);
      && o.Running?
      && (X86.Holds(o.s, X86.E) <==> s.rax == s.rcx) && (X86.Holds(o.s, X86.NE) <==> s.rax != s.rcx)
      && (X86.Holds(o.s, X86.G) <==> s.rax > s.rcx) && (X86.Holds(o.s, X86.L) <==> s.rax < s.rcx)
      && (X86.Holds(o.s, X86.GE) <==> s.rax >= s.rcx) && (X86.Holds(o.s, X86.LE) <==> s.rax <= s.rcx)
  {
  }
}
