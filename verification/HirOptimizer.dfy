/** The whole optimizer (vnt_ir_optimize): validate, up to eight rounds of fold, propagate,
    fold and simplify in place, then compact. */
module HirOptimizer {
  import opened Hir
  import opened HirSemantics
  import opened HirRewrite
  import opened HirRewriteSound
  import opened HirPropagate
  import opened HirPropagateSound
  import opened HirClosure
  import opened HirArray
  import opened HirFold
  import opened HirSimplify
  import opened HirConstants
  import opened HirPropagatePass
  import opened HirCompact
  import opened HirSimilar
  import opened HirValidate
  import opened HirValidator

  const MAX_ROUNDS: nat := 8

  function Round(p: Forest): Forest {
    Prune(Bottom(SimplifyPass, Bottom(FoldPass, Propagate(Bottom(FoldPass, p)))), {})
  }

  function Iterate(step: Forest -> Forest, p: Forest, k: nat): Forest {
    if k == 0 then p else step(Iterate(step, p, k - 1))
  }

  function Rounds(p: Forest, k: nat): Forest {
    Iterate(Round, p, k)
  }

  ghost predicate SameMeaning(p: Forest, q: Forest) {
    forall n, w, st :: Run(n, w, q, st) == Run(n, w, p, st)
  }

  // ---- A round keeps meaning, the supported fragment and the nodes ----

  lemma RoundOptimizable(p: Forest)
    requires Optimizable(p)
    ensures Optimizable(Round(p))
    ensures Round(p) == Bottom(SimplifyPass, Bottom(FoldPass, Propagate(Bottom(FoldPass, p))))
  {
    BottomOptimizable(FoldPass, p);
    PropagateOptimizable(Bottom(FoldPass, p));
    BottomOptimizable(FoldPass, Propagate(Bottom(FoldPass, p)));
    BottomOptimizable(SimplifyPass, Bottom(FoldPass, Propagate(Bottom(FoldPass, p))));
    RootPrune(Bottom(SimplifyPass, Bottom(FoldPass, Propagate(Bottom(FoldPass, p)))));
  }

  /** One round keeps the final state, the output and the outcome of every run. */
  lemma {:induction false} RoundRun(n: nat, w: World, p: Forest, st: State)
    requires Optimizable(p)
    ensures Run(n, w, Round(p), st) == Run(n, w, p, st)
  {
    RoundOptimizable(p);
    var a := Bottom(FoldPass, p);
    BottomOptimizable(FoldPass, p);
    BottomRun(FoldPass, n, w, p, st);
    var b := Propagate(a);
    PropagateOptimizable(a);
    PropagateRun(n, w, a, st);
    BottomOptimizable(FoldPass, b);
    BottomRun(FoldPass, n, w, b, st);
    BottomRun(SimplifyPass, n, w, Bottom(FoldPass, b), st);
  }

  lemma {:induction false} IterateSound(step: Forest -> Forest, p: Forest, k: nat)
    requires forall q :: Optimizable(q) ==> Optimizable(step(q)) && SameMeaning(q, step(q))
    requires Optimizable(p)
    ensures Optimizable(Iterate(step, p, k)) && SameMeaning(p, Iterate(step, p, k))
  {
    if k > 0 { IterateSound(step, p, k - 1); }
  }

  /** Once a round changes nothing, later rounds change nothing. */
  lemma {:induction false} IterateFixed(step: Forest -> Forest, p: Forest, j: nat, k: nat)
    requires j <= k && step(Iterate(step, p, j)) == Iterate(step, p, j)
    ensures Iterate(step, p, k) == Iterate(step, p, j)
  {
    if j < k { IterateFixed(step, p, j, k - 1); }
  }

  lemma {:induction false} RoundLowered(p: Forest)
    requires Lowered(p)
    ensures Lowered(Round(p))
  {
    var a := Bottom(FoldPass, p);
    LoweredBottom(FoldPass, p);
    PropagateListCanonical(a, map[]);
    LoweredBottom(FoldPass, Propagate(a));
    var b := Bottom(FoldPass, Propagate(a));
    LoweredBottom(SimplifyPass, b);
    PruneRoles(Bottom(SimplifyPass, b), {});
  }

  lemma LoweredBottom(pass: Pass, p: Forest)
    requires Lowered(p)
    ensures Lowered(Bottom(pass, p))
  {
    BottomCanonical(pass, p);
    BottomRoles(pass, p);
  }

  lemma {:induction false} RoundsLowered(k: nat, p: Forest)
    requires Lowered(p)
    ensures Lowered(Rounds(p, k))
  {
    if k > 0 {
      RoundsLowered(k - 1, p);
      RoundLowered(Rounds(p, k - 1));
    }
  }

  /** Any number of rounds keeps the fragment and the meaning. */
  lemma {:induction false} RoundsSound(k: nat, p: Forest)
    requires Optimizable(p)
    ensures Optimizable(Rounds(p, k)) && SameMeaning(p, Rounds(p, k))
  {
    forall q | Optimizable(q) ensures Optimizable(Round(q)) && SameMeaning(q, Round(q)) {
      RoundOptimizable(q);
      forall n, w, st ensures Run(n, w, Round(q), st) == Run(n, w, q, st) { RoundRun(n, w, q, st); }
    }
    IterateSound(Round, p, k);
  }

  // ---- The result validates ----

  lemma {:induction false} CountAll(f: Forest, r: Role)
    requires AllRole(f, r)
    ensures Count(RolesOf(f), r) == Len(f)
    ensures forall q :: q != r ==> Count(RolesOf(f), q) == 0
  {
    if f.Cons? {
      CountAll(f.rest, r);
      forall q ensures Count(RolesOf(f), q) == Count(RolesOf(f.rest), q) + if f.role == q then 1 else 0 {
        CountFront(RolesOf(f.rest), f.role, q);
      }
    }
  }

  lemma {:induction false} CountThenElse(f: Forest)
    requires ThenElse(f)
    ensures Count(RolesOf(f), Then) + Count(RolesOf(f), Else) == Len(f) && Count(RolesOf(f), Condition) == 0
  {
    if f.Cons? {
      if f.role == Then {
        CountThenElse(f.rest);
        forall q ensures Count(RolesOf(f), q) == Count(RolesOf(f.rest), q) + if f.role == q then 1 else 0 {
          CountFront(RolesOf(f.rest), f.role, q);
        }
      } else {
        CountAll(f, Else);
      }
    }
  }

  lemma {:induction false} CanonicalShape(op: Op, kids: Forest)
    requires CanonicalNode(op, kids)
    ensures ShapeOk(op, RolesOf(kids))
  {
    if kids.Cons? {
      var rest := kids.rest;
      forall q ensures Count(RolesOf(kids), q) == Count(RolesOf(rest), q) + if kids.role == q then 1 else 0 {
        CountFront(RolesOf(rest), kids.role, q);
      }
      if AllRole(kids, kids.role) { CountAll(kids, kids.role); }
      if op.If? { CountThenElse(rest); }
      if op.While? { CountAll(rest, Body); }
      if op.Index? || op.Assign? || op.Binary? { CountAll(rest, rest.role); }
    }
  }

  /** Lowering's child order has the shapes that validation demands. */
  lemma {:induction false} CanonicalShaped(f: Forest)
    requires Canonical(f)
    ensures Shaped(f)
  {
    if f.Cons? {
      CanonicalShape(f.op, f.kids);
      CanonicalShaped(f.kids);
      CanonicalShaped(f.rest);
    }
  }

  /** Nothing the fragment demands depends on node numbers. */
  lemma {:induction false} RenumberCanonical(f: Forest, start: nat)
    ensures var g := Renumber(f, start);
      && Len(g) == Len(f) && (ThenElse(f) ==> ThenElse(g)) && (forall r :: AllRole(f, r) ==> AllRole(g, r))
      && (Canonical(f) ==> Canonical(g))
  {
    if f.Cons? {
      RenumberCanonical(f.kids, start + 1);
      RenumberCanonical(f.rest, start + 1 + Size(f.kids));
      if Canonical(f) {
        if f.kids.Cons? {
          RenumberCanonical(f.kids.rest, start + 2 + Size(f.kids.kids));
        }
      }
    }
  }

  lemma {:induction false} SimilarOrderly(op: Op, f: Forest, g: Forest)
    requires Similar(f, g) && Orderly(op, f)
    ensures Orderly(op, g)
    decreases f, 2
  {
    if op.Program? {
      SimilarOrderlyList(f, g);
    } else if op.If? {
      SimilarOrderlyArms(f, g);
    } else if op.Function? {
      SimilarChild(f, g, Body);
      var b := Child(f, Body);
      if b.Cons? { SimilarOrderly(b.op, b.kids, Child(g, Body).kids); }
    }
  }

  lemma {:induction false} SimilarOrderlyList(f: Forest, g: Forest)
    requires Similar(f, g) && OrderlyList(f)
    ensures OrderlyList(g)
    decreases f, 1
  {
    if f.Cons? {
      SimilarOrderly(f.op, f.kids, g.kids);
      SimilarOrderlyList(f.rest, g.rest);
    }
  }

  lemma {:induction false} SimilarOrderlyArms(f: Forest, g: Forest)
    requires Similar(f, g) && OrderlyArms(f)
    ensures OrderlyArms(g)
    decreases f, 1
  {
    if f.Cons? {
      if f.role == Then || f.role == Else {
        SimilarOrderly(f.op, f.kids, g.kids);
        SimilarUndisturbed(f.op, f.kids, g.kids, f.role, f.rest, g.rest);
      }
      SimilarOrderlyArms(f.rest, g.rest);
    }
  }

  lemma {:induction false} SimilarNode(op: Op, kids: Forest, kids1: Forest)
    requires Similar(kids, kids1) && ReadsList(kids) == ReadsList(kids1) && ExprReadsList(kids) == ExprReadsList(kids1)
    requires forall x :: WritesList(kids, x) == WritesList(kids1, x)
    ensures Reads(op, kids) == Reads(op, kids1) && ExprReads(op, kids) == ExprReads(op, kids1)
    ensures forall x :: Writes(op, kids, x) == Writes(op, kids1, x)
  {
  }

  lemma {:induction false} SimilarReads(f: Forest, g: Forest)
    requires Similar(f, g)
    ensures ReadsList(f) == ReadsList(g) && ExprReadsList(f) == ExprReadsList(g)
    ensures forall x :: WritesList(f, x) == WritesList(g, x)
  {
    if f.Cons? {
      SimilarReads(f.kids, g.kids);
      SimilarReads(f.rest, g.rest);
      SimilarNode(f.op, f.kids, g.kids);
    }
  }

  lemma {:induction false} SimilarUndisturbed(op: Op, kids: Forest, kids1: Forest, role: Role, f: Forest, g: Forest)
    requires Similar(kids, kids1) && Similar(f, g) && Undisturbed(op, kids, role, f)
    ensures Undisturbed(op, kids1, role, g)
    decreases f
  {
    if f.Cons? {
      SimilarReads(kids, kids1);
      SimilarNode(op, kids, kids1);
      SimilarReads(f.kids, g.kids);
      SimilarNode(f.op, f.kids, g.kids);
      SimilarUndisturbed(op, kids, kids1, role, f.rest, g.rest);
    }
  }

  lemma {:induction false} SimilarTopExit(f: Forest, g: Forest)
    requires Similar(f, g) && NoTopExit(f)
    ensures NoTopExit(g)
  {
    if f.Cons? { SimilarTopExit(f.rest, g.rest); }
  }

  lemma RenumberOptimizable(p: Forest, start: nat)
    requires Optimizable(p)
    ensures Optimizable(Renumber(p, start))
  {
    RenumberSimilar(p, start);
    RenumberCanonical(p, start);
    SimilarOrderlyList(p, Renumber(p, start));
    SimilarTopExit(p, Renumber(p, start));
  }

  lemma RenumberLowered(p: Forest, start: nat)
    requires Lowered(p)
    ensures Lowered(Renumber(p, start))
  {
    RenumberCanonical(p, start);
  }

  lemma {:induction false} RenumberMeaning(p: Forest, start: nat)
    ensures SameMeaning(p, Renumber(p, start))
  {
    RenumberSimilar(p, start);
    forall n, w, st ensures Run(n, w, Renumber(p, start), st) == Run(n, w, p, st) {
      SimilarRun(n, w, p, Renumber(p, start), st);
    }
  }

  // ---- One round in place ----

  /** The array holds the statements `p` below the root. */
  ghost predicate Holds(nodes: seq<Node>, root: nat, p: Forest) {
    var f := Cons(root, Program, Root, p, Nil);
    IsForest(nodes, root, f) && Distinct(f)
  }

  method FoldRoot(ir: IrProgram, changed: nat, ghost p: Forest) returns (total: nat)
    requires Holds(ir.nodes, ir.root, p) && Lowered(p)
    modifies ir`nodes
    ensures Holds(ir.nodes, ir.root, Bottom(FoldPass, p))
    ensures total >= changed && (total == changed ==> Bottom(FoldPass, p) == p)
  {
    ghost var f := Cons(ir.root, Program, Root, p, Nil);
    total := FoldNode(ir, ir.root, changed, f);
    BottomFootprint(FoldPass, p);
    assert RewriteHead(FoldPass, f) == Cons(ir.root, Program, Root, Bottom(FoldPass, p), Nil);
  }

  method PropagateRoot(ir: IrProgram, changed: nat, ghost p: Forest) returns (total: nat)
    requires Holds(ir.nodes, ir.root, p)
    modifies ir`nodes
    ensures Holds(ir.nodes, ir.root, Propagate(p))
    ensures total >= changed && (total == changed ==> Propagate(p) == p)
  {
    var env := new ConstantEnv();
    total := PropagateSequence(ir, ir.root, env, changed, Cons(ir.root, Program, Root, p, Nil));
    PropagateListFrame(p, map[]);
  }

  method SimplifyRoot(ir: IrProgram, changed: nat, ghost p: Forest) returns (total: nat)
    requires Holds(ir.nodes, ir.root, p) && Lowered(p)
    modifies ir`nodes
    ensures Holds(ir.nodes, ir.root, Prune(Bottom(SimplifyPass, p), {}))
    ensures total >= changed && (total == changed ==> Prune(Bottom(SimplifyPass, p), {}) == p)
  {
    ghost var f := Cons(ir.root, Program, Root, p, Nil);
    total := Simplify(ir, ir.root, changed, f);
    BottomFootprint(SimplifyPass, p);
    PruneFootprint(Bottom(SimplifyPass, p), {});
    assert RewriteHead(SimplifyPass, f) == Cons(ir.root, Program, Root, Prune(Bottom(SimplifyPass, p), {}), Nil);
  }

  method OneRound(ir: IrProgram, ghost p: Forest) returns (changed: nat)
    requires Holds(ir.nodes, ir.root, p) && Lowered(p)
    modifies ir`nodes
    ensures Holds(ir.nodes, ir.root, Round(p))
    ensures changed == 0 ==> Round(p) == p
  {
    changed := FoldRoot(ir, 0, p);
    ghost var a := Bottom(FoldPass, p);
    LoweredBottom(FoldPass, p);
    changed := PropagateRoot(ir, changed, a);
    ghost var b := Propagate(a);
    PropagateListCanonical(a, map[]);
    changed := FoldRoot(ir, changed, b);
    LoweredBottom(FoldPass, b);
    changed := SimplifyRoot(ir, changed, Bottom(FoldPass, b));
  }

  // ---- The optimizer ----

  /** What optimizing a valid tree `f` into `g` promises: the rounds, in preorder; and the
      same runs when the arms are orderly. */
  ghost predicate Optimized(f: Forest, g: Forest) {
    && f.Cons? && g.Cons?
    && Lowered(g.kids)
    && (Optimizable(f.kids) ==> SameMeaning(f.kids, g.kids) && Optimizable(g.kids))
    && g == Renumber(Cons(f.idx, Program, Root, Rounds(f.kids, 8), Nil), 0)
  }

  lemma {:induction false} OptimizedTree(f: Forest, nodes: seq<Node>)
    requires f.Cons? && Lowered(f.kids)
    requires var r := Renumber(Cons(f.idx, Program, Root, Rounds(f.kids, MAX_ROUNDS), Nil), 0);
      IsForest(nodes, 0, r) && |nodes| == Size(r)
    ensures exists g :: IsTree(nodes, 0, g) && Optimized(f, g)
  {
    var q := Rounds(f.kids, MAX_ROUNDS);
    var g := Renumber(Cons(f.idx, Program, Root, q, Nil), 0);
    RoundsLowered(MAX_ROUNDS, f.kids);
    RenumberLowered(q, 1);
    if Optimizable(f.kids) {
      RoundsSound(MAX_ROUNDS, f.kids);
      RenumberOptimizable(q, 1);
      RenumberMeaning(q, 1);
    }
    CompactTree(q, f.idx, nodes);
  }

  lemma {:induction false} CompactTree(p: Forest, root: nat, nodes: seq<Node>)
    requires Lowered(p)
    requires var r := Renumber(Cons(root, Program, Root, p, Nil), 0); IsForest(nodes, 0, r) && |nodes| == Size(r)
    ensures IsTree(nodes, 0, Renumber(Cons(root, Program, Root, p, Nil), 0))
  {
    var s := Cons(root, Program, Root, p, Nil);
    var g := Renumber(s, 0);
    assert g == Cons(0, Program, Root, Renumber(p, 1), Nil);
    assert Canonical(g) by { RenumberCanonical(p, 1); }
    CanonicalShaped(g);
    RenumberFacts(s, 0);
    RenumberSize(s, 0);
  }

  /** Optimizing succeeds exactly on valid programs and leaves a valid, compact program: that
      of the rounds, numbered in preorder. It has the same runs when the arms are orderly. */
  method Optimize(ir: IrProgram) returns (ok: bool)
    requires forall f :: IsTree(ir.nodes, ir.root, f) ==> Lowered(f.kids)
    modifies ir
    ensures ok <==> exists f :: IsTree(old(ir.nodes), old(ir.root), f)
    ensures !ok ==> ir.nodes == old(ir.nodes) && ir.root == old(ir.root)
    ensures forall f :: IsTree(old(ir.nodes), old(ir.root), f) ==>
      exists g :: IsTree(ir.nodes, ir.root, g) && Optimized(f, g)
  {
    ok := Validate(ir.nodes, ir.root);
    if !ok { return; }
    ghost var f :| IsTree(ir.nodes, ir.root, f);
    forall h | IsTree(ir.nodes, ir.root, h) ensures h == f {
      TreeUnique(ir.nodes, ir.root, h, f);
    }
    OptimizeRounds(ir, MAX_ROUNDS, f.kids);
    var compact := new IrProgram([], 0);
    var root := CopyNode(ir.nodes, compact, ir.root, Cons(ir.root, Program, Root, Rounds(f.kids, MAX_ROUNDS), Nil));
    RenumberSize(Cons(ir.root, Program, Root, Rounds(f.kids, MAX_ROUNDS), Nil), 0);
    OptimizedTree(f, compact.nodes);
    ir.nodes, ir.root := compact.nodes, root;
    ok := Validate(ir.nodes, ir.root);
  }

  /** Stopping at the first round that changes nothing gives what all the rounds give. */
  method OptimizeRounds(ir: IrProgram, limit: nat, ghost p: Forest)
    requires Holds(ir.nodes, ir.root, p) && Lowered(p)
    modifies ir`nodes
    ensures Holds(ir.nodes, ir.root, Rounds(p, limit))
  {
    ghost var q := p;
    var i := 0;
    while i < limit
      invariant i <= limit && Holds(ir.nodes, ir.root, q) && q == Rounds(p, i) && Lowered(q)
    {
      var changed := OneRound(ir, q);
      RoundLowered(q);
      if changed == 0 {
        IterateFixed(Round, p, i, limit);
        break;
      }
      q := Round(q);
      i := i + 1;
    }
  }

  lemma {:induction false} RenumberSize(f: Forest, start: nat)
    ensures Size(Renumber(f, start)) == Size(f)
  {
    if f.Cons? {
      RenumberSize(f.kids, start + 1);
      RenumberSize(f.rest, start + 1 + Size(f.kids));
    }
  }
}
