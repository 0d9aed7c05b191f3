/** The two bottom-up passes of the optimizer, constant folding and control-flow
    simplification, as rewrites of one node whose children are already rewritten. */
module HirRewrite {
  import opened Options
  import opened Operators
  import opened Hir
  import opened HirSemantics

  datatype Pass = FoldPass | SimplifyPass

  // ---- Constant folding (hir_fold_node) ----

  function FoldUnary(u: UnaryOp, operand: Op): Option<Op> {
    if u == Not && operand.Boolean? then Some(Boolean(!operand.b))
    else if u == Negate && operand.Integer? && operand.i != INT64_MIN then Some(Integer(0 - operand.i))
    else None
  }

  function FoldIntegers(bop: BinaryOp, x: int64, y: int64): Option<Op> {
    match bop
    case Add => if Fits(x + y) then Some(Integer(x + y)) else None
    case Subtract => if Fits(x - y) then Some(Integer(x - y)) else None
    case Multiply => if Fits(x * y) then Some(Integer(x * y)) else None
    case Divide =>
      if y != 0 && !(x == INT64_MIN && y == -1) then TruncFits(x, y); Some(Integer(TruncDiv(x, y))) else None
    case Modulo =>
      if y != 0 && !(x == INT64_MIN && y == -1) then TruncFits(x, y); Some(Integer(TruncMod(x, y))) else None
    case Equal => Some(Boolean(x == y))
    case NotEqual => Some(Boolean(x != y))
    case Greater => Some(Boolean(x > y))
    case Less => Some(Boolean(x < y))
    case GreaterEqual => Some(Boolean(x >= y))
    case LessEqual => Some(Boolean(x <= y))
    case _ => None
  }

  function FoldBooleans(bop: BinaryOp, x: bool, y: bool): Option<Op> {
    match bop
    case And => Some(Boolean(x && y))
    case Or => Some(Boolean(x || y))
    case Equal => Some(Boolean(x == y))
    case NotEqual => Some(Boolean(x != y))
    case _ => None
  }

  function FoldBinary(bop: BinaryOp, l: Op, r: Op): Option<Op> {
    if l.Integer? && r.Integer? then FoldIntegers(bop, l.i, r.i)
    else if l.Boolean? && r.Boolean? then FoldBooleans(bop, l.b, r.b)
    else None
  }

  /** The literal a node with these (folded) children becomes, if any. */
  function Folded(op: Op, kids: Forest): Option<Op> {
    if op.Unary? && kids.Cons? then FoldUnary(op.uop, kids.op)
    else if op.Binary? && kids.Cons? && kids.rest.Cons? then FoldBinary(op.bop, kids.op, kids.rest.op)
    else None
  }

  /** Truncating division stays in range except for INT64_MIN / -1. */
  lemma TruncFits(x: int64, y: int64)
    requires y != 0 && !(x == INT64_MIN && y == -1)
    ensures Fits(TruncDiv(x, y)) && Fits(TruncMod(x, y))
  {
    QuotientBound(x, y);
    RemainderBound(x, y);
  }

  lemma QuotientBound(x: int, y: int)
    requires y != 0
    ensures -Magnitude(x) <= TruncDiv(x, y) <= Magnitude(x)
    ensures y < -1 ==> 2 * TruncDiv(x, y) <= Magnitude(x)
    ensures y > 0 && x < 0 ==> TruncDiv(x, y) <= 0
  {
    var a, b := Magnitude(x), Magnitude(y);
    DivBounds(a, b);
    if y < -1 { DivAntitone(a, b, 2); }
  }

  lemma RemainderBound(x: int, y: int)
    requires y != 0
    ensures -Magnitude(y) < TruncMod(x, y) < Magnitude(y)
  {
    var a, b := Magnitude(x), Magnitude(y);
    SignedProduct(a / b, y);
    DivisionIdentity(a, b);
  }

  lemma DivisionIdentity(a: int, b: int)
    requires b > 0
    ensures 0 <= a - b * (a / b) < b
  {
  }

  lemma SignedProduct(q: int, y: int)
    ensures q * y == if y < 0 then -(Magnitude(y) * q) else Magnitude(y) * q
    ensures (-q) * y == -(q * y)
  {
  }

  lemma MulMonotone(x: int, y: int, z: int)
    requires x <= y && 0 <= z
    ensures x * z <= y * z
  {
  }

  lemma DivBounds(a: int, b: int)
    requires 0 <= a && b > 0
    ensures 0 <= a / b <= a
  {
    var q := a / b;
    assert a == b * q + a % b;
    MulMonotone(1, b, q);
  }

  lemma DivAntitone(a: int, b: int, c: int)
    requires 0 <= a && b >= c > 0
    ensures a / b <= a / c
  {
    var q, r := a / b, a / c;
    assert a == b * q + a % b && a == c * r + a % c;
    MulMonotone(c, b, q);
    assert q * c < (r + 1) * c;
    if q >= r + 1 { MulMonotone(r + 1, q, c); }
  }

  // ---- Control-flow simplification (hir_simplify_control_flow, hir_prune_sequence) ----

  predicate Terminator(op: Op) {
    op.Return? || op.Break? || op.Continue?
  }

  /** Drops the statements that follow a terminator of the same sequence; `ended` holds
      the roles whose sequence has ended. */
  function Prune(f: Forest, ended: set<Role>): Forest {
    if f.Nil? then Nil
    else if StatementRole(f.role) && f.role in ended then Prune(f.rest, ended)
    else
      f.(rest := Prune(f.rest, if StatementRole(f.role) && Terminator(f.op) then ended + {f.role} else ended))
  }

  /** The children of the chosen arm, turned into plain statements. */
  function Arm(f: Forest, chosen: Role): Forest {
    if f.Nil? then Nil
    else if f.role == chosen then f.(role := Statement, rest := Arm(f.rest, chosen))
    else Arm(f.rest, chosen)
  }

  function SimplifyNode(op: Op, kids: Forest): (Op, Forest) {
    var c := Child(kids, Condition);
    if op.If? && c.Cons? && c.op.Boolean? then (Program, Arm(kids, if c.op.b then Then else Else))
    else if op.While? && c.Cons? && c.op.Boolean? && !c.op.b then (Program, Nil)
    else (op, kids)
  }

  // ---- Both passes ----

  function Rewrite(pass: Pass, op: Op, kids: Forest): (Op, Forest) {
    match pass
    case FoldPass => (match Folded(op, kids) case Some(lit) => (lit, Nil) case None => (op, kids))
    case SimplifyPass => var (op1, kids1) := SimplifyNode(op, kids); (op1, Prune(kids1, {}))
  }

  function Bottom(pass: Pass, f: Forest): Forest {
    if f.Nil? then Nil
    else
      var (op, kids) := Rewrite(pass, f.op, Bottom(pass, f.kids));
      Cons(f.idx, op, f.role, kids, Bottom(pass, f.rest))
  }

  // ---- Shape ----

  lemma {:induction false} BottomRoles(pass: Pass, f: Forest)
    ensures Len(Bottom(pass, f)) == Len(f) && LastIdx(Bottom(pass, f)) == LastIdx(f)
    ensures forall r :: AllRole(f, r) <==> AllRole(Bottom(pass, f), r)
    ensures ThenElse(f) <==> ThenElse(Bottom(pass, f))
  {
    if f.Cons? { BottomRoles(pass, f.rest); }
  }

  lemma {:induction false} PruneRoles(f: Forest, ended: set<Role>)
    ensures Len(Prune(f, ended)) <= Len(f)
    ensures forall r :: AllRole(f, r) ==> AllRole(Prune(f, ended), r)
    ensures ThenElse(f) ==> ThenElse(Prune(f, ended))
    ensures Canonical(f) ==> Canonical(Prune(f, ended))
  {
    if f.Cons? {
      PruneRoles(f.rest, ended);
      PruneRoles(f.rest, ended + {f.role});
    }
  }
}
