/** The passes only take reads and writes away, so the programs on which propagation is sound
    stay so. */
module HirShrink {
  import opened Hir
  import opened HirSemantics
  import opened HirRewrite
  import opened HirPropagate

  /** The second node reads and writes no more than the first. */
  ghost predicate Shrinks(op: Op, kids: Forest, op1: Op, kids1: Forest) {
    && Reads(op1, kids1) <= Reads(op, kids)
    && ExprReads(op1, kids1) <= ExprReads(op, kids)
    && forall x :: Writes(op1, kids1, x) ==> Writes(op, kids, x)
  }

  ghost predicate ShrinksList(f: Forest, g: Forest) {
    && ReadsList(g) <= ReadsList(f)
    && ExprReadsList(g) <= ExprReadsList(f)
    && forall x :: WritesList(g, x) ==> WritesList(f, x)
  }

  lemma ConsShrinks(f: Forest, g: Forest)
    requires f.Cons? && g.Cons? && f.role == g.role && Shrinks(f.op, f.kids, g.op, g.kids) && ShrinksList(f.rest, g.rest)
    ensures ShrinksList(f, g)
  {
  }

  /** A node that is no assignment, or keeps its target. */
  lemma {:induction false} KidsShrink(op: Op, kids: Forest, kids1: Forest)
    requires ShrinksList(kids, kids1)
    requires op.Assign? && kids1.Cons? ==> kids.Cons? && (kids.op.Variable? || kids1.op.Variable? ==> kids1.op == kids.op)
    ensures Shrinks(op, kids, op, kids1)
  {
  }

  // ---- Propagation ----

  lemma {:induction false} SubstNodeShrinks(op: Op, kids: Forest, env: Facts)
    requires CanonicalNode(op, kids) && Canonical(kids)
    ensures var s := SubstNode(op, kids, env); Shrinks(op, kids, s.0, s.1)
    decreases kids, 1
  {
    SubstListShrinks(kids, env);
    if !op.Variable? && !op.Assign? { KidsShrink(op, kids, SubstNode(op, kids, env).1); }
  }

  lemma {:induction false} SubstListShrinks(f: Forest, env: Facts)
    requires Canonical(f)
    ensures ShrinksList(f, SubstList(f, env).0)
    decreases f, 0
  {
    if f.Cons? {
      SubstNodeShrinks(f.op, f.kids, env);
      SubstListShrinks(f.rest, SubstNode(f.op, f.kids, env).2);
      ConsShrinks(f, SubstList(f, env).0);
    }
  }

  lemma {:induction false} SubstChildShrinks(f: Forest, role: Role, env: Facts)
    requires Canonical(f)
    ensures ShrinksList(f, SubstChild(f, role, env).0)
  {
    if f.Cons? {
      if f.role == role {
        SubstNodeShrinks(f.op, f.kids, env);
      } else {
        SubstChildShrinks(f.rest, role, env);
      }
      ConsShrinks(f, SubstChild(f, role, env).0);
    }
  }

  lemma {:induction false} PropagateShrinks(op: Op, kids: Forest, env: Facts)
    requires CanonicalNode(op, kids) && Canonical(kids)
    ensures Shrinks(op, kids, op, PropagateNode(op, kids, env).0)
    decreases Size(kids), 3
  {
    if op.If? {
      PropagateIfShape(kids, env);
      var s := SubstNode(kids.op, kids.kids, env);
      SubstNodeShrinks(kids.op, kids.kids, env);
      PropagateArmsShrinks(kids.rest, s.2);
      ConsShrinks(kids, PropagateKids(If, kids, env).0);
    } else if op.Function? {
      PropagateBodyShrinks(kids);
    } else if op.Program? {
      PropagateListShrinks(kids, env);
    } else if op.Decl? || op.Reassign? {
      SubstChildShrinks(kids, Value, env);
    } else if !op.While? && !op.Asm? && !op.Assign? {
      SubstListShrinks(kids, env);
    }
    var k := PropagateKids(op, kids, env).0;
    assert PropagateNode(op, kids, env).0 == k;
    if !op.Assign? { KidsShrink(op, kids, k); }
  }

  lemma {:induction false} PropagateListShrinks(f: Forest, env: Facts)
    requires Canonical(f)
    ensures ShrinksList(f, PropagateList(f, env).0)
    decreases Size(f), 1
  {
    if f.Cons? {
      if f.role != Statement {
        PropagateListShrinks(f.rest, env);
      } else {
        PropagateShrinks(f.op, f.kids, env);
        PropagateListShrinks(f.rest, PropagateNode(f.op, f.kids, env).1);
      }
      ConsShrinks(f, PropagateList(f, env).0);
    }
  }

  lemma {:induction false} PropagateArmsShrinks(f: Forest, env: Facts)
    requires Canonical(f)
    ensures ShrinksList(f, PropagateArms(f, env))
    decreases Size(f), 1
  {
    if f.Cons? {
      PropagateArmsShrinks(f.rest, env);
      if f.op.Program? {
        PropagateListShrinks(f.kids, env);
        KidsShrink(f.op, f.kids, PropagateList(f.kids, env).0);
      }
      ConsShrinks(f, PropagateArms(f, env));
    }
  }

  lemma {:induction false} PropagateBodyShrinks(f: Forest)
    requires Canonical(f)
    ensures ShrinksList(f, PropagateBody(f))
    decreases Size(f), 1
  {
    if f.Cons? {
      if f.role != Body {
        PropagateBodyShrinks(f.rest);
      } else if f.op.Program? {
        PropagateListShrinks(f.kids, map[]);
        KidsShrink(f.op, f.kids, PropagateList(f.kids, map[]).0);
      }
      ConsShrinks(f, PropagateBody(f));
    }
  }

  // ---- The bottom-up passes ----

  lemma {:induction false} PruneShrinks(f: Forest, ended: set<Role>)
    ensures ShrinksList(f, Prune(f, ended))
  {
    if f.Cons? {
      PruneShrinks(f.rest, ended);
      PruneShrinks(f.rest, ended + {f.role});
    }
  }

  lemma {:induction false} ArmShrinks(f: Forest, chosen: Role)
    requires StatementRole(chosen)
    ensures ShrinksList(f, Arm(f, chosen))
  {
    if f.Cons? { ArmShrinks(f.rest, chosen); }
  }

  lemma {:induction false} RewriteShrinks(pass: Pass, op: Op, kids: Forest)
    ensures var s := Rewrite(pass, op, kids); Shrinks(op, kids, s.0, s.1)
  {
    if pass.SimplifyPass? {
      var (op1, kids1) := SimplifyNode(op, kids);
      ArmShrinks(kids, Then);
      ArmShrinks(kids, Else);
      PruneShrinks(kids1, {});
      if op1 == op { KidsShrink(op, kids, Prune(kids, {})); }
    }
  }

  lemma RewriteVariable(pass: Pass, op: Op, kids: Forest)
    ensures op.Variable? || Rewrite(pass, op, kids).0.Variable? ==> Rewrite(pass, op, kids).0 == op
  {
  }

  lemma {:induction false} BottomShrinks(pass: Pass, f: Forest)
    ensures ShrinksList(f, Bottom(pass, f))
    ensures f.Cons? ==> Bottom(pass, f).Cons? && (f.op.Variable? || Bottom(pass, f).op.Variable? ==> Bottom(pass, f).op == f.op)
    ensures f.Cons? ==> Shrinks(f.op, f.kids, Bottom(pass, f).op, Bottom(pass, f).kids)
  {
    if f.Cons? {
      var k := Bottom(pass, f.kids);
      BottomShrinks(pass, f.kids);
      BottomShrinks(pass, f.rest);
      KidsShrink(f.op, f.kids, k);
      RewriteShrinks(pass, f.op, k);
      RewriteVariable(pass, f.op, k);
      ConsShrinks(f, Bottom(pass, f));
    }
  }

  // ---- Undisturbed branches ----

  lemma {:induction false} UndisturbedWrites(op: Op, kids: Forest, op1: Op, kids1: Forest, role: Role, f: Forest)
    requires Undisturbed(op, kids, role, f) && Shrinks(op, kids, op1, kids1)
    ensures Undisturbed(op1, kids1, role, f)
    decreases f
  {
    if f.Cons? { UndisturbedWrites(op, kids, op1, kids1, role, f.rest); }
  }

  /** A head that reads less. */
  lemma UndisturbedFewer(op: Op, kids: Forest, role: Role, f: Forest, g: Forest)
    requires f.Cons? && g.Cons? && g.role == f.role && (Container(g.op) ==> Container(f.op) && Reads(g.op, g.kids) <= Reads(f.op, f.kids))
    requires Undisturbed(op, kids, role, f) && Undisturbed(op, kids, role, g.rest)
    ensures Undisturbed(op, kids, role, g)
  {
  }

  lemma {:induction false} UndisturbedPropagate(op: Op, kids: Forest, role: Role, f: Forest, env: Facts)
    requires Undisturbed(op, kids, role, f) && Canonical(f)
    ensures Undisturbed(op, kids, role, PropagateArms(f, env))
    decreases f
  {
    if f.Cons? {
      UndisturbedPropagate(op, kids, role, f.rest, env);
      var g := PropagateArms(f, env);
      if f.op.Program? && StatementRole(f.role) { PropagateListShrinks(f.kids, env); }
      UndisturbedFewer(op, kids, role, f, g);
    }
  }

  lemma {:induction false} UndisturbedPrune(op: Op, kids: Forest, role: Role, f: Forest, ended: set<Role>)
    requires Undisturbed(op, kids, role, f)
    ensures Undisturbed(op, kids, role, Prune(f, ended))
    decreases f
  {
    if f.Cons? {
      UndisturbedPrune(op, kids, role, f.rest, ended);
      UndisturbedPrune(op, kids, role, f.rest, ended + {f.role});
    }
  }

  /** A container comes from a container, or is empty. */
  lemma RewriteContainer(pass: Pass, op: Op, kids: Forest)
    ensures var s := Rewrite(pass, op, kids); Container(s.0) ==> Container(op) || Reads(s.0, s.1) == {}
  {
  }

  lemma {:induction false} UndisturbedBottom(pass: Pass, op: Op, kids: Forest, role: Role, f: Forest)
    requires Undisturbed(op, kids, role, f)
    ensures Undisturbed(op, kids, role, Bottom(pass, f))
    decreases f
  {
    if f.Cons? {
      BottomShrinks(pass, f);
      RewriteContainer(pass, f.op, Bottom(pass, f.kids));
      UndisturbedBottom(pass, op, kids, role, f.rest);
    }
  }
}
