/** The programs the optimizer is sound on are closed under its passes. */
module HirClosure {
  import opened Operators
  import opened Hir
  import opened HirSemantics
  import opened HirRewrite
  import opened HirRewriteSound
  import opened HirPropagate
  import opened HirShrink

  /** Type checking rejects `return`, `break` and `continue` at top level. */
  predicate NoTopExit(p: Forest) {
    p.Cons? ==> !Terminator(p.op) && NoTopExit(p.rest)
  }

  /** The statements of a program as lowering leaves them. */
  predicate Lowered(p: Forest) {
    Canonical(p) && AllRole(p, Statement)
  }

  /** With orderly branch arms, and as type checking leaves it. */
  predicate Optimizable(p: Forest) {
    Lowered(p) && OrderlyList(p) && NoTopExit(p)
  }

  // ---- Substitution keeps the child order ----

  lemma {:induction false} SubstListCanonical(f: Forest, env: Facts)
    requires Canonical(f)
    ensures var g := SubstList(f, env).0;
      Canonical(g) && Len(g) == Len(f) && (forall r :: AllRole(f, r) ==> AllRole(g, r)) && (ThenElse(f) ==> ThenElse(g))
    ensures forall a, b :: Pair(f, a, b) ==> Pair(SubstList(f, env).0, a, b)
    decreases f, 0
  {
    if f.Cons? {
      SubstNodeCanonical(f.op, f.kids, env);
      SubstListCanonical(f.rest, SubstNode(f.op, f.kids, env).2);
    }
  }

  lemma {:induction false} SubstNodeCanonical(op: Op, kids: Forest, env: Facts)
    requires CanonicalNode(op, kids) && Canonical(kids)
    ensures var s := SubstNode(op, kids, env); CanonicalNode(s.0, s.1) && Canonical(s.1)
    decreases kids, 2
  {
    if op.If? || op.While? {
      SubstControlCanonical(op, kids, env);
    } else if !op.Variable? && !op.Assign? && op != Unary(Reference) {
      ListCanonical(op, kids, env);
    }
  }

  lemma {:induction false} SubstControlCanonical(op: Op, kids: Forest, env: Facts)
    requires (op.If? || op.While?) && CanonicalNode(op, kids) && Canonical(kids)
    ensures var k := SubstList(kids, env).0; CanonicalNode(op, k) && Canonical(k)
    decreases kids, 1
  {
    SubstListCanonical(kids, env);
    SubstListCanonical(kids.rest, SubstNode(kids.op, kids.kids, env).2);
    ControlCanonical(op, kids, env);
  }

  /** Substitution below a condition and its statements keeps their order. */
  lemma ControlCanonical(op: Op, kids: Forest, env: Facts)
    requires (op.If? || op.While?) && CanonicalNode(op, kids)
    requires var e := SubstNode(kids.op, kids.kids, env).2; var g := SubstList(kids.rest, e).0;
      (forall r :: AllRole(kids.rest, r) ==> AllRole(g, r)) && (ThenElse(kids.rest) ==> ThenElse(g))
    ensures CanonicalNode(op, SubstList(kids, env).0)
  {
  }

  lemma {:induction false} SubstChildCanonical(f: Forest, role: Role, env: Facts)
    requires Canonical(f)
    ensures var g := SubstChild(f, role, env).0;
      Canonical(g) && Len(g) == Len(f) && (forall r :: AllRole(f, r) ==> AllRole(g, r)) && (ThenElse(f) ==> ThenElse(g))
  {
    if f.Cons? {
      if f.role == role { SubstNodeCanonical(f.op, f.kids, env); } else { SubstChildCanonical(f.rest, role, env); }
    }
  }

  // ---- Propagation keeps the child order ----

  lemma {:induction false} PropagateNodeCanonical(op: Op, kids: Forest, env: Facts)
    requires CanonicalNode(op, kids) && Canonical(kids)
    ensures var k := PropagateNode(op, kids, env).0; CanonicalNode(op, k) && Canonical(k)
    decreases Size(kids), 3
  {
    if op.If? {
      PropagateIfCanonical(kids, env);
    } else if op.Function? {
      PropagateBodyCanonical(kids);
    } else if op.Program? {
      PropagateListCanonical(kids, env);
    } else {
      PropagateSimpleCanonical(op, kids, env);
    }
  }

  lemma {:induction false} PropagateIfCanonical(kids: Forest, env: Facts)
    requires CanonicalNode(If, kids) && Canonical(kids)
    ensures var k := PropagateKids(If, kids, env).0; CanonicalNode(If, k) && Canonical(k)
    decreases Size(kids), 2
  {
    PropagateIfShape(kids, env);
    SubstNodeCanonical(kids.op, kids.kids, env);
    PropagateArmsCanonical(kids.rest, SubstNode(kids.op, kids.kids, env).2);
  }

  lemma {:induction false} PropagateSimpleCanonical(op: Op, kids: Forest, env: Facts)
    requires CanonicalNode(op, kids) && Canonical(kids) && !op.If? && !op.Function? && !op.Program?
    ensures var k := PropagateSimple(op, kids, env).0; CanonicalNode(op, k) && Canonical(k)
  {
    if op.Decl? || op.Reassign? {
      SubstChildCanonical(kids, Value, env);
    } else if !op.While? && !op.Asm? && !op.Assign? {
      ListCanonical(op, kids, env);
    }
  }

  lemma {:induction false} ListCanonical(op: Op, kids: Forest, env: Facts)
    requires CanonicalNode(op, kids) && Canonical(kids) && !op.If? && !op.While?
    ensures var k := SubstList(kids, env).0; CanonicalNode(op, k) && Canonical(k)
    decreases kids, 1
  {
    SubstListCanonical(kids, env);
  }

  lemma {:induction false} PropagateListCanonical(f: Forest, env: Facts)
    requires Canonical(f)
    ensures var g := PropagateList(f, env).0;
      Canonical(g) && (forall r :: AllRole(f, r) ==> AllRole(g, r)) && (NoTopExit(f) ==> NoTopExit(g))
    decreases Size(f), 1
  {
    if f.Cons? {
      if f.role != Statement {
        PropagateListCanonical(f.rest, env);
      } else {
        PropagateNodeCanonical(f.op, f.kids, env);
        PropagateListCanonical(f.rest, PropagateNode(f.op, f.kids, env).1);
      }
    }
  }

  lemma {:induction false} PropagateArmsCanonical(f: Forest, env: Facts)
    requires Canonical(f)
    ensures var g := PropagateArms(f, env);
      Canonical(g) && (forall r :: AllRole(f, r) ==> AllRole(g, r)) && (ThenElse(f) ==> ThenElse(g))
    decreases Size(f), 1
  {
    if f.Cons? {
      PropagateArmsCanonical(f.rest, env);
      if f.op.Program? { PropagateListCanonical(f.kids, env); }
    }
  }

  lemma {:induction false} PropagateBodyCanonical(f: Forest)
    requires Canonical(f)
    ensures var g := PropagateBody(f); Canonical(g) && (forall r :: AllRole(f, r) ==> AllRole(g, r))
    decreases Size(f), 1
  {
    if f.Cons? {
      if f.role != Body { PropagateBodyCanonical(f.rest); }
      else if f.op.Program? { PropagateListCanonical(f.kids, map[]); }
    }
  }

  // ---- Propagation keeps arms orderly ----

  lemma {:induction false} PropagateNodeOrderly(op: Op, kids: Forest, env: Facts)
    requires CanonicalNode(op, kids) && Canonical(kids) && Orderly(op, kids)
    ensures Orderly(op, PropagateNode(op, kids, env).0)
    decreases Size(kids), 2
  {
    match op
    case If =>
      PropagateIfShape(kids, env);
      PropagateArmsOrderly(kids.rest, SubstNode(kids.op, kids.kids, env).2);
    case Program => PropagateListOrderly(kids, env);
    case Function(_, _) =>
      assert PropagateKids(op, kids, env).0 == PropagateBody(kids);
      if kids.Cons? && kids.op.Program? { PropagateListOrderly(kids.kids, map[]); }
    case _ =>
  }

  lemma {:induction false} PropagateListOrderly(f: Forest, env: Facts)
    requires Canonical(f) && OrderlyList(f)
    ensures OrderlyList(PropagateList(f, env).0)
    decreases Size(f), 1
  {
    if f.Cons? {
      if f.role != Statement {
        PropagateListOrderly(f.rest, env);
      } else {
        PropagateNodeOrderly(f.op, f.kids, env);
        PropagateListOrderly(f.rest, PropagateNode(f.op, f.kids, env).1);
      }
    }
  }

  lemma {:induction false} PropagateArmsOrderly(f: Forest, env: Facts)
    requires Canonical(f) && OrderlyArms(f)
    ensures OrderlyArms(PropagateArms(f, env))
    decreases Size(f), 1
  {
    if f.Cons? {
      PropagateArmsOrderly(f.rest, env);
      if f.role == Then || f.role == Else { PropagateArmOrderly(f, env); }
    }
  }

  /** One statement of an arm. */
  lemma {:induction false} PropagateArmOrderly(f: Forest, env: Facts)
    requires f.Cons? && (f.role == Then || f.role == Else) && Canonical(f)
    requires Orderly(f.op, f.kids) && Undisturbed(f.op, f.kids, f.role, f.rest)
    ensures var g := PropagateArms(f, env); Orderly(g.op, g.kids) && Undisturbed(g.op, g.kids, g.role, g.rest)
    decreases Size(f), 0
  {
    UndisturbedPropagate(f.op, f.kids, f.role, f.rest, env);
    if f.op.Program? {
      var k := PropagateList(f.kids, env).0;
      PropagateListOrderly(f.kids, env);
      PropagateListShrinks(f.kids, env);
      KidsShrink(f.op, f.kids, k);
      UndisturbedWrites(f.op, f.kids, f.op, k, f.role, PropagateArms(f.rest, env));
    }
  }

  // ---- The bottom-up passes keep arms orderly ----

  lemma {:induction false} PruneArmsOrderly(f: Forest, ended: set<Role>)
    requires OrderlyArms(f)
    ensures OrderlyArms(Prune(f, ended))
  {
    if f.Cons? {
      PruneArmsOrderly(f.rest, ended);
      PruneArmsOrderly(f.rest, ended + {f.role});
      if f.role == Then || f.role == Else {
        UndisturbedPrune(f.op, f.kids, f.role, f.rest, ended);
        UndisturbedPrune(f.op, f.kids, f.role, f.rest, ended + {f.role});
      }
    }
  }

  lemma {:induction false} PruneListOrderly(f: Forest, ended: set<Role>)
    requires OrderlyList(f)
    ensures OrderlyList(Prune(f, ended))
  {
    if f.Cons? {
      PruneListOrderly(f.rest, ended);
      PruneListOrderly(f.rest, ended + {f.role});
    }
  }

  lemma {:induction false} ArmOrderly(f: Forest, chosen: Role)
    requires OrderlyArms(f) && (chosen == Then || chosen == Else)
    ensures OrderlyList(Arm(f, chosen))
  {
    if f.Cons? { ArmOrderly(f.rest, chosen); }
  }

  lemma {:induction false} RewriteOrderly(pass: Pass, op: Op, kids: Forest)
    requires CanonicalNode(op, kids) && Orderly(op, kids)
    ensures var s := Rewrite(pass, op, kids); Orderly(s.0, s.1)
  {
    if pass.SimplifyPass? {
      if op.If? {
        ArmOrderly(kids, Then);
        ArmOrderly(kids, Else);
        PruneListOrderly(Arm(kids, Then), {});
        PruneListOrderly(Arm(kids, Else), {});
        PruneArmsOrderly(kids, {});
      } else if op.Program? {
        PruneListOrderly(kids, {});
      }
    }
  }

  lemma {:induction false} BottomNodeOrderly(pass: Pass, op: Op, kids: Forest)
    requires CanonicalNode(op, kids) && Canonical(kids) && Orderly(op, kids)
    ensures Orderly(op, Bottom(pass, kids))
    decreases kids, 2
  {
    if op.If? {
      BottomArmsOrderly(pass, kids);
    } else if op.Program? {
      BottomListOrderly(pass, kids);
    } else if op.Function? && kids.Cons? {
      BottomNodeOrderly(pass, kids.op, kids.kids);
      BottomNode(pass, kids.op, kids.kids);
      RewriteOrderly(pass, kids.op, Bottom(pass, kids.kids));
    }
  }

  lemma {:induction false} BottomListOrderly(pass: Pass, f: Forest)
    requires Canonical(f) && OrderlyList(f)
    ensures OrderlyList(Bottom(pass, f))
    decreases f, 1
  {
    if f.Cons? {
      BottomNodeOrderly(pass, f.op, f.kids);
      BottomNode(pass, f.op, f.kids);
      RewriteOrderly(pass, f.op, Bottom(pass, f.kids));
      BottomListOrderly(pass, f.rest);
    }
  }

  lemma {:induction false} BottomArmsOrderly(pass: Pass, f: Forest)
    requires Canonical(f) && OrderlyArms(f)
    ensures OrderlyArms(Bottom(pass, f))
    decreases f, 1
  {
    if f.Cons? {
      BottomArmsOrderly(pass, f.rest);
      if f.role == Then || f.role == Else { BottomArmOrderly(pass, f); }
    }
  }

  lemma {:induction false} BottomArmOrderly(pass: Pass, f: Forest)
    requires f.Cons? && (f.role == Then || f.role == Else) && Canonical(f)
    requires Orderly(f.op, f.kids) && Undisturbed(f.op, f.kids, f.role, f.rest)
    ensures var g := Bottom(pass, f); Orderly(g.op, g.kids) && Undisturbed(g.op, g.kids, g.role, g.rest)
    decreases f, 0
  {
    var g := Bottom(pass, f);
    BottomNodeOrderly(pass, f.op, f.kids);
    BottomNode(pass, f.op, f.kids);
    RewriteOrderly(pass, f.op, Bottom(pass, f.kids));
    BottomShrinks(pass, f);
    UndisturbedBottom(pass, f.op, f.kids, f.role, f.rest);
    UndisturbedWrites(f.op, f.kids, g.op, g.kids, f.role, g.rest);
  }

  // ---- Whole programs ----

  lemma {:induction false} BottomTopExit(pass: Pass, p: Forest)
    requires NoTopExit(p)
    ensures NoTopExit(Bottom(pass, p))
  {
    if p.Cons? { BottomTopExit(pass, p.rest); }
  }

  lemma BottomOptimizable(pass: Pass, p: Forest)
    requires Optimizable(p)
    ensures Optimizable(Bottom(pass, p))
  {
    BottomCanonical(pass, p);
    BottomRoles(pass, p);
    BottomListOrderly(pass, p);
    BottomTopExit(pass, p);
  }

  lemma PropagateOptimizable(p: Forest)
    requires Optimizable(p)
    ensures Optimizable(Propagate(p))
  {
    PropagateListCanonical(p, map[]);
    PropagateListOrderly(p, map[]);
  }

  /** Without a top-level exit the root sequence loses nothing to pruning. */
  lemma {:induction false} RootPrune(p: Forest)
    requires NoTopExit(p)
    ensures Prune(p, {}) == p
  {
    if p.Cons? { RootPrune(p.rest); }
  }
}
