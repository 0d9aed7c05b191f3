/** What the optimizer leaves behind: folding leaves nothing to fold, and simplification leaves
    no decided condition and nothing after a jump. */
module HirNormal {
  import opened Options
  import opened Operators
  import opened Hir
  import opened HirSemantics
  import opened HirRewrite
  import HirPropagate
  import opened HirArithmetic
  import opened HirOptimizer

  // ---- Folding ----

  /** An operator on literals that has a value. */
  ghost predicate Foldable(op: Op, kids: Forest) {
    match op
    case Unary(Not) => kids.Cons? && kids.op.Boolean?
    case Unary(Negate) => kids.Cons? && kids.op.Integer? && kids.op.i != -9223372036854775808
    case Binary(bop) =>
      && kids.Cons? && kids.rest.Cons?
      && ((kids.op.Boolean? && kids.rest.op.Boolean? && bop in {And, Or, Equal, NotEqual})
          || (kids.op.Integer? && kids.rest.op.Integer? && bop != And && bop != Or && !Result(bop, kids.op.i, kids.rest.op.i, None)))
    case _ => false
  }

  ghost predicate NothingToFold(f: Forest) {
    f.Cons? ==> !Foldable(f.op, f.kids) && NothingToFold(f.kids) && NothingToFold(f.rest)
  }

  /** A node is folded exactly when it is foldable. */
  lemma {:induction false} FoldableExact(op: Op, kids: Forest)
    ensures Foldable(op, kids) <==> Folded(op, kids).Some?
  {
    if op.Binary? && kids.Cons? && kids.rest.Cons? {
      if kids.op.Integer? && kids.rest.op.Integer? {
        FoldExact(op.bop, kids.op.i, kids.rest.op.i);
        EvaluatorExact(op.bop, kids.op.i, kids.rest.op.i, None);
        EvaluatorExact(op.bop, kids.op.i, kids.rest.op.i, Arithmetic(op.bop, kids.op.i, kids.rest.op.i));
        FoldValue(op.bop, kids.op.i, kids.rest.op.i);
      } else if kids.op.Boolean? && kids.rest.op.Boolean? {
        FoldBooleansExact(op.bop, kids.op.b, kids.rest.op.b);
      }
    }
  }

  lemma {:induction false} FoldValue(bop: BinaryOp, x: int64, y: int64)
    ensures FoldIntegers(bop, x, y).Some? ==> LiteralValue(FoldIntegers(bop, x, y).value).Some?
    ensures bop != And && bop != Or ==> (FoldIntegers(bop, x, y).Some? <==> Arithmetic(bop, x, y).Some?)
  {
    FoldExact(bop, x, y);
    if bop != And && bop != Or {
      var f := FoldIntegers(bop, x, y);
      EvaluatorExact(bop, x, y, match f case None => None case Some(lit) => LiteralValue(lit));
    }
  }

  lemma {:induction false} FoldedFully(f: Forest)
    ensures NothingToFold(Bottom(FoldPass, f))
  {
    if f.Cons? {
      FoldedFully(f.kids);
      FoldedFully(f.rest);
      var kids := Bottom(FoldPass, f.kids);
      FoldableExact(f.op, kids);
      if Folded(f.op, kids).Some? { LiteralDone(f.op, kids); }
    }
  }

  lemma {:induction false} LiteralDone(op: Op, kids: Forest)
    requires Folded(op, kids).Some?
    ensures !Foldable(Folded(op, kids).value, Nil)
  {
  }

  // ---- Simplification ----

  /** A condition that is decided already. */
  predicate Decided(op: Op, kids: Forest) {
    var c := Child(kids, Condition);
    c.Cons? && ((op.If? && c.op.Boolean?) || (op.While? && c.op == Boolean(false)))
  }

  /** No statement of a sequence follows a return, break or continue of it; `ended` are the
      sequences that have ended. */
  predicate Trimmed(f: Forest, ended: set<Role>) {
    f.Cons? ==>
      && f.role !in ended
      && Trimmed(f.rest, if StatementRole(f.role) && (f.op.Return? || f.op.Break? || f.op.Continue?) then ended + {f.role} else ended)
  }

  predicate NothingDead(f: Forest) {
    f.Cons? ==> !Decided(f.op, f.kids) && Trimmed(f.kids, {}) && NothingDead(f.kids) && NothingDead(f.rest)
  }

  ghost predicate Sequences(roles: set<Role>) {
    forall r :: r in roles ==> StatementRole(r)
  }

  lemma {:induction false} PruneTrims(f: Forest, ended: set<Role>)
    requires Sequences(ended)
    ensures Trimmed(Prune(f, ended), ended)
    ensures NothingDead(f) ==> NothingDead(Prune(f, ended))
    ensures Child(Prune(f, ended), Condition).Cons? <==> Child(f, Condition).Cons?
    ensures Child(f, Condition).Cons? ==> Child(Prune(f, ended), Condition).op == Child(f, Condition).op
  {
    if f.Cons? {
      if StatementRole(f.role) && f.role in ended {
        PruneTrims(f.rest, ended);
      } else {
        PruneTrims(f.rest, if StatementRole(f.role) && Terminator(f.op) then ended + {f.role} else ended);
      }
    }
  }

  lemma {:induction false} ArmDead(f: Forest, chosen: Role)
    requires NothingDead(f)
    ensures NothingDead(Arm(f, chosen))
  {
    if f.Cons? { ArmDead(f.rest, chosen); }
  }

  lemma {:induction false} SimplifiedFully(f: Forest)
    ensures NothingDead(Bottom(SimplifyPass, f))
  {
    if f.Cons? {
      SimplifiedFully(f.kids);
      SimplifiedFully(f.rest);
      NodeSimplified(f.op, Bottom(SimplifyPass, f.kids));
    }
  }

  lemma {:induction false} NodeSimplified(op: Op, kids: Forest)
    requires NothingDead(kids)
    ensures var (op1, kids1) := Rewrite(SimplifyPass, op, kids); !Decided(op1, kids1) && Trimmed(kids1, {}) && NothingDead(kids1)
  {
    var (op1, kids1) := SimplifyNode(op, kids);
    ArmDead(kids, Then);
    ArmDead(kids, Else);
    PruneTrims(kids1, {});
  }

  /** Whatever the optimizer returns has no decided condition and nothing after a jump. */
  lemma {:induction false} RoundsLeaveNothingDead(p: Forest, k: nat)
    requires k > 0
    ensures NothingDead(Rounds(p, k)) && Trimmed(Rounds(p, k), {})
  {
    var q := Rounds(p, k - 1);
    var r := Bottom(FoldPass, HirPropagate.Propagate(Bottom(FoldPass, q)));
    SimplifiedFully(r);
    PruneTrims(Bottom(SimplifyPass, r), {});
    assert Rounds(p, k) == Round(q);
  }
}
