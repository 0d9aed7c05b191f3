/** Both bottom-up passes preserve the meaning of every program in lowered child order. */
module HirRewriteSound {
  import opened Options
  import opened Operators
  import opened Hir
  import opened HirSemantics
  import opened HirRewrite
  import opened HirSwap

  // ---- Constant folding ----

  function Literal(op: Op): Value
    requires op.Integer? || op.Boolean?
  {
    if op.Integer? then IntV(op.i) else BoolV(op.b)
  }

  lemma {:induction false} EvalOneLiteral(n: nat, w: World, p: Forest, kids: Forest, st: State)
    requires Len(kids) == 1 && (kids.op.Integer? || kids.op.Boolean?)
    ensures EvalList(n, w, p, kids, st) == Vals([Literal(kids.op)], st)
  {
    assert Len(kids.rest) == 0;
    assert EvalNode(n, w, p, kids.op, kids.kids, st) == Vals([Literal(kids.op)], st);
    assert EvalList(n, w, p, kids.rest, st) == Vals([], st);
  }

  lemma {:induction false} EvalTwoLiterals(n: nat, w: World, p: Forest, kids: Forest, st: State)
    requires Pair(kids, Left, Right)
    requires kids.op.Integer? || kids.op.Boolean?
    requires kids.rest.op.Integer? || kids.rest.op.Boolean?
    ensures EvalList(n, w, p, kids, st) == Vals([Literal(kids.op), Literal(kids.rest.op)], st)
  {
    EvalOneLiteral(n, w, p, kids.rest, st);
    assert EvalNode(n, w, p, kids.op, kids.kids, st) == Vals([Literal(kids.op)], st);
  }

  lemma FoldIntegersSound(bop: BinaryOp, x: int64, y: int64)
    requires FoldIntegers(bop, x, y).Some?
    ensures bop != And && bop != Or
    ensures FoldIntegers(bop, x, y).value.Integer? || FoldIntegers(bop, x, y).value.Boolean?
    ensures Arithmetic(bop, x, y) == Some(Literal(FoldIntegers(bop, x, y).value))
  {
    if bop == Divide || bop == Modulo { TruncFits(x, y); }
  }

  lemma {:induction false} FoldSound(n: nat, w: World, p: Forest, op: Op, kids: Forest, st: State)
    requires CanonicalNode(op, kids) && Folded(op, kids).Some?
    ensures EvalNode(n, w, p, Folded(op, kids).value, Nil, st) == EvalNode(n, w, p, op, kids, st)
  {
    if op.Unary? {
      EvalOneLiteral(n, w, p, kids, st);
    } else if op.bop == And || op.bop == Or {
      FoldLogicSound(n, w, p, op, kids, st);
    } else {
      FoldBothSound(n, w, p, op, kids, st);
    }
  }

  lemma {:induction false} FoldLogicSound(n: nat, w: World, p: Forest, op: Op, kids: Forest, st: State)
    requires (op == Binary(And) || op == Binary(Or)) && CanonicalNode(op, kids) && Folded(op, kids).Some?
    ensures EvalNode(n, w, p, Folded(op, kids).value, Nil, st) == EvalNode(n, w, p, op, kids, st)
  {
    assert EvalNode(n, w, p, kids.op, kids.kids, st) == Vals([Literal(kids.op)], st);
    assert EvalNode(n, w, p, kids.rest.op, kids.rest.kids, st) == Vals([Literal(kids.rest.op)], st);
  }

  lemma {:induction false} FoldBothSound(n: nat, w: World, p: Forest, op: Op, kids: Forest, st: State)
    requires op.Binary? && op.bop != And && op.bop != Or && CanonicalNode(op, kids) && Folded(op, kids).Some?
    ensures EvalNode(n, w, p, Folded(op, kids).value, Nil, st) == EvalNode(n, w, p, op, kids, st)
  {
    EvalTwoLiterals(n, w, p, kids, st);
    if kids.op.Integer? { FoldIntegersSound(op.bop, kids.op.i, kids.rest.op.i); }
  }

  // ---- Pruning and branch selection ----

  lemma {:induction false} PruneExec(n: nat, w: World, p: Forest, f: Forest, ended: set<Role>, role: Role, st: State)
    requires StatementRole(role) && role !in ended
    ensures Exec(n, w, p, Prune(f, ended), role, st) == Exec(n, w, p, f, role, st)
  {
    if f.Cons? {
      var ended1 := if StatementRole(f.role) && Terminator(f.op) then ended + {f.role} else ended;
      if f.role != role {
        PruneExec(n, w, p, f.rest, ended, role, st);
        PruneExec(n, w, p, f.rest, ended1, role, st);
      } else {
        var r := ExecNode(n, w, p, f.op, f.kids, st);
        if r.Done? && r.c == Normal { PruneExec(n, w, p, f.rest, ended1, role, r.st); }
      }
    }
  }

  lemma {:induction false} PruneCondition(n: nat, w: World, p: Forest, kids: Forest, ended: set<Role>, st: State)
    ensures EvalCondition(n, w, p, Prune(kids, ended), st) == EvalCondition(n, w, p, kids, st)
  {
    if kids.Cons? && kids.role != Condition {
      PruneCondition(n, w, p, kids.rest, ended, st);
      PruneCondition(n, w, p, kids.rest, ended + {kids.role}, st);
    }
  }

  lemma {:induction false} PruneLoop(n: nat, w: World, p: Forest, kids: Forest, st: State)
    ensures ExecLoop(n, w, p, Prune(kids, {}), st) == ExecLoop(n, w, p, kids, st)
  {
    PruneCondition(n, w, p, kids, {}, st);
    var c := EvalCondition(n, w, p, kids, st);
    if c.Vals? && Truth(w, c.vs[0]) && n > 0 {
      PruneExec(n, w, p, kids, {}, Body, c.st);
      var r := Exec(n, w, p, kids, Body, c.st);
      if r.Done? { PruneLoop(n - 1, w, p, kids, r.st); }
    }
  }

  lemma {:induction false} ArmExec(n: nat, w: World, p: Forest, f: Forest, chosen: Role, st: State)
    ensures Exec(n, w, p, Arm(f, chosen), Statement, st) == Exec(n, w, p, f, chosen, st)
  {
    if f.Cons? {
      if f.role != chosen {
        ArmExec(n, w, p, f.rest, chosen, st);
      } else {
        var r := ExecNode(n, w, p, f.op, f.kids, st);
        if r.Done? { ArmExec(n, w, p, f.rest, chosen, r.st); }
      }
    }
  }

  predicate Expression(op: Op) {
    op.Call? || op.Array? || op.Index? || op.Member? || op.Binary? || op.Unary?
  }

  predicate NoStatements(f: Forest) {
    f.Cons? ==> !StatementRole(f.role) && NoStatements(f.rest)
  }

  lemma {:induction false} PruneNothing(f: Forest, ended: set<Role>)
    requires NoStatements(f)
    ensures Prune(f, ended) == f
  {
    if f.Cons? { PruneNothing(f.rest, ended); }
  }

  lemma {:induction false} UniformRole(f: Forest, r: Role)
    requires AllRole(f, r) && !StatementRole(r)
    ensures NoStatements(f)
  {
    if f.Cons? { UniformRole(f.rest, r); }
  }

  lemma ExpressionHasNoStatements(op: Op, kids: Forest)
    requires CanonicalNode(op, kids) && Expression(op)
    ensures NoStatements(kids)
  {
    if op.Call? { UniformRole(kids, Argument); }
    if op.Array? { UniformRole(kids, Element); }
  }

  lemma {:induction false} SimplifyExec(n: nat, w: World, p: Forest, op: Op, kids: Forest, st: State)
    requires CanonicalNode(op, kids)
    ensures ExecNode(n, w, p, SimplifyNode(op, kids).0, SimplifyNode(op, kids).1, st)
         == ExecNode(n, w, p, op, kids, st)
  {
    var c := Child(kids, Condition);
    if (op.If? || op.While?) && c.op.Boolean? {
      assert EvalCondition(n, w, p, kids, st) == Vals([BoolV(c.op.b)], st);
      ArmExec(n, w, p, kids, if c.op.b then Then else Else, st);
    }
  }

  lemma {:induction false} PruneNode(n: nat, w: World, p: Forest, op: Op, kids: Forest, st: State)
    requires CanonicalNode(op, kids)
    ensures ExecNode(n, w, p, op, Prune(kids, {}), st) == ExecNode(n, w, p, op, kids, st)
  {
    match op
    case Program => PruneExec(n, w, p, kids, {}, Statement, st);
    case If =>
      PruneCondition(n, w, p, kids, {}, st);
      var c := EvalCondition(n, w, p, kids, st);
      if c.Vals? {
        PruneExec(n, w, p, kids, {}, Then, c.st);
        PruneExec(n, w, p, kids, {}, Else, c.st);
      }
    case While => PruneLoop(n, w, p, kids, st);
    case Call(_) => ExpressionHasNoStatements(op, kids); PruneNothing(kids, {});
    case Print | Return | Decl(_) | Reassign(_) => UniformRole(kids, Value); PruneNothing(kids, {});
    case Assign => PruneNothing(kids, {});
    case _ =>
  }

  // ---- One rewritten node ----

  lemma {:induction false} RewriteEval(pass: Pass, n: nat, w: World, p: Forest, op: Op, kids: Forest, st: State)
    requires CanonicalNode(op, kids)
    ensures EvalNode(n, w, p, Rewrite(pass, op, kids).0, Rewrite(pass, op, kids).1, st)
         == EvalNode(n, w, p, op, kids, st)
  {
    match pass
    case FoldPass =>
      if Folded(op, kids).Some? { FoldSound(n, w, p, op, kids, st); }
    case SimplifyPass =>
      if Expression(op) {
        ExpressionHasNoStatements(op, kids);
        PruneNothing(kids, {});
      }
  }

  lemma {:induction false} RewriteExec(pass: Pass, n: nat, w: World, p: Forest, op: Op, kids: Forest, st: State)
    requires CanonicalNode(op, kids)
    ensures ExecNode(n, w, p, Rewrite(pass, op, kids).0, Rewrite(pass, op, kids).1, st)
         == ExecNode(n, w, p, op, kids, st)
  {
    match pass
    case FoldPass =>
    case SimplifyPass =>
      var (op1, kids1) := SimplifyNode(op, kids);
      SimplifyExec(n, w, p, op, kids, st);
      SimplifyCanonical(op, kids);
      PruneNode(n, w, p, op1, kids1, st);
  }

  // ---- The rewritten forest keeps the lowered child order ----

  lemma {:induction false} ArmRoles(f: Forest, chosen: Role)
    ensures AllRole(Arm(f, chosen), Statement)
    ensures Canonical(f) ==> Canonical(Arm(f, chosen))
  {
    if f.Cons? { ArmRoles(f.rest, chosen); }
  }

  lemma {:induction false} SimplifyCanonical(op: Op, kids: Forest)
    requires CanonicalNode(op, kids)
    ensures CanonicalNode(SimplifyNode(op, kids).0, SimplifyNode(op, kids).1)
    ensures Canonical(kids) ==> Canonical(SimplifyNode(op, kids).1)
  {
    ArmRoles(kids, Then);
    ArmRoles(kids, Else);
  }

  lemma {:induction false} PruneCanonical(op: Op, kids: Forest)
    requires CanonicalNode(op, kids)
    ensures CanonicalNode(op, Prune(kids, {}))
    ensures Canonical(kids) ==> Canonical(Prune(kids, {}))
  {
    PruneRoles(kids, {});
    if op.If? || op.While? {
      PruneRoles(kids.rest, {});
    } else if Expression(op) {
      ExpressionHasNoStatements(op, kids);
      PruneNothing(kids, {});
    } else if op.Assign? {
      PruneNothing(kids, {});
    } else if op.Reassign? {
      UniformRole(kids, Value);
      PruneNothing(kids, {});
    }
  }

  lemma {:induction false} RewriteCanonical(pass: Pass, op: Op, kids: Forest)
    requires CanonicalNode(op, kids) && Canonical(kids)
    ensures CanonicalNode(Rewrite(pass, op, kids).0, Rewrite(pass, op, kids).1)
    ensures Canonical(Rewrite(pass, op, kids).1)
  {
    match pass
    case FoldPass =>
    case SimplifyPass =>
      var (op1, kids1) := SimplifyNode(op, kids);
      SimplifyCanonical(op, kids);
      PruneCanonical(op1, kids1);
  }

  lemma BottomNode(pass: Pass, op: Op, kids: Forest)
    requires CanonicalNode(op, kids)
    ensures CanonicalNode(op, Bottom(pass, kids))
  {
    BottomRoles(pass, kids);
    if kids.Cons? { BottomRoles(pass, kids.rest); }
  }

  lemma {:induction false} BottomCanonical(pass: Pass, f: Forest)
    requires Canonical(f)
    ensures Canonical(Bottom(pass, f))
  {
    if f.Cons? {
      BottomCanonical(pass, f.kids);
      BottomCanonical(pass, f.rest);
      BottomNode(pass, f.op, f.kids);
      RewriteCanonical(pass, f.op, Bottom(pass, f.kids));
    }
  }

  // ---- The whole pass ----

  lemma {:induction false} BottomEvalNode(pass: Pass, n: nat, w: World, p: Forest, op: Op, kids: Forest, st: State)
    requires CanonicalNode(op, kids) && Canonical(kids)
    ensures EvalNode(n, w, p, op, Bottom(pass, kids), st) == EvalNode(n, w, p, op, kids, st)
    decreases n, 1, kids, 3
  {
    if op == Binary(And) || op == Binary(Or) {
      BottomShortCircuit(pass, n, w, p, op == Binary(Or), kids, st);
    } else if op.Call? {
      BottomEvalList(pass, n, w, p, kids, st);
    } else if op == Unary(Reference) {
      BottomReference(pass, n, w, p, kids, st);
    } else if Strict(op) {
      BottomEvalThen(pass, n, w, p, op, kids, st);
    }
  }

  lemma {:induction false} BottomReference(pass: Pass, n: nat, w: World, p: Forest, kids: Forest, st: State)
    requires CanonicalNode(Unary(Reference), kids) && Canonical(kids)
    ensures EvalNode(n, w, p, Unary(Reference), Bottom(pass, kids), st) == EvalNode(n, w, p, Unary(Reference), kids, st)
  {
    TargetKept(pass, kids);
  }

  lemma {:induction false} BottomEvalThen(pass: Pass, n: nat, w: World, p: Forest, op: Op, kids: Forest, st: State)
    requires Canonical(kids)
    ensures EvalThen(n, w, p, op, Bottom(pass, kids), st) == EvalThen(n, w, p, op, kids, st)
    decreases n, 1, kids, 2
  {
    BottomEvalList(pass, n, w, p, kids, st);
  }

  lemma {:induction false} BottomShortCircuit(pass: Pass, n: nat, w: World, p: Forest, stop: bool, kids: Forest, st: State)
    requires Canonical(kids) && Pair(kids, Left, Right)
    ensures ShortCircuit(n, w, p, stop, Bottom(pass, kids), st) == ShortCircuit(n, w, p, stop, kids, st)
    decreases n, 1, kids, 2
  {
    BottomEvalHead(pass, n, w, p, kids, st);
    var l := EvalNode(n, w, p, kids.op, kids.kids, st);
    if l.Vals? { BottomEvalHead(pass, n, w, p, kids.rest, l.st); }
  }

  /** The first node of a list, rewritten. */
  lemma {:induction false} BottomEvalHead(pass: Pass, n: nat, w: World, p: Forest, f: Forest, st: State)
    requires Canonical(f) && f.Cons?
    ensures var g := Bottom(pass, f);
      EvalNode(n, w, p, g.op, g.kids, st) == EvalNode(n, w, p, f.op, f.kids, st)
    decreases n, 1, f, 0
  {
    BottomEvalNode(pass, n, w, p, f.op, f.kids, st);
    BottomNode(pass, f.op, f.kids);
    RewriteEval(pass, n, w, p, f.op, Bottom(pass, f.kids), st);
  }

  lemma {:induction false} BottomEvalList(pass: Pass, n: nat, w: World, p: Forest, f: Forest, st: State)
    requires Canonical(f)
    ensures EvalList(n, w, p, Bottom(pass, f), st) == EvalList(n, w, p, f, st)
    decreases n, 1, f, 1
  {
    if f.Cons? {
      BottomEvalHead(pass, n, w, p, f, st);
      var r := EvalNode(n, w, p, f.op, f.kids, st);
      if r.Vals? { BottomEvalList(pass, n, w, p, f.rest, r.st); }
    }
  }

  lemma {:induction false} BottomCondition(pass: Pass, n: nat, w: World, p: Forest, kids: Forest, st: State)
    requires Canonical(kids)
    ensures EvalCondition(n, w, p, Bottom(pass, kids), st) == EvalCondition(n, w, p, kids, st)
    decreases n, 1, kids, 2
  {
    if kids.Cons? {
      if kids.role == Condition {
        BottomEvalHead(pass, n, w, p, kids, st);
      } else {
        BottomCondition(pass, n, w, p, kids.rest, st);
      }
    }
  }

  /** Rewriting turns no other node into a storage target and keeps every target. */
  lemma TargetKept(pass: Pass, f: Forest)
    requires f.Cons? && CanonicalNode(f.op, f.kids)
    ensures var g := Bottom(pass, f);
      && (f.op.Variable? || g.op.Variable? || MemoryTarget(g.op) ==> g.op == f.op)
      && (MemoryTarget(f.op) ==> g.op == f.op && g.kids == Bottom(pass, f.kids))
  {
    if MemoryTarget(f.op) {
      MemoryKept(pass, f);
    } else {
      RewriteOp(pass, f.op, Bottom(pass, f.kids));
    }
  }

  lemma {:induction false} MemoryKept(pass: Pass, f: Forest)
    requires f.Cons? && CanonicalNode(f.op, f.kids) && MemoryTarget(f.op)
    ensures var g := Bottom(pass, f); g.op == f.op && g.kids == Bottom(pass, f.kids)
  {
    BottomNode(pass, f.op, f.kids);
    ExpressionHasNoStatements(f.op, Bottom(pass, f.kids));
    PruneNothing(Bottom(pass, f.kids), {});
  }

  /** Rewriting yields a literal, an empty program, or the same opcode. */
  lemma {:induction false} RewriteOp(pass: Pass, op: Op, kids: Forest)
    ensures var o := Rewrite(pass, op, kids).0; o == op || o.Integer? || o.Boolean? || o.Program?
  {
  }

  lemma {:induction false} BottomAssign(pass: Pass, n: nat, w: World, p: Forest, kids: Forest, st: State)
    requires Canonical(kids) && Pair(kids, Target, Value)
    ensures ExecAssign(n, w, p, Bottom(pass, kids), st) == ExecAssign(n, w, p, kids, st)
    decreases n, 1, kids, 3
  {
    TargetKept(pass, kids);
    if MemoryTarget(kids.op) {
      BottomEvalList(pass, n, w, p, kids.kids, st);
      var a := EvalList(n, w, p, kids.kids, st);
      if a.Vals? { BottomEvalHead(pass, n, w, p, kids.rest, a.st); }
    } else {
      BottomEvalHead(pass, n, w, p, kids.rest, st);
    }
  }

  lemma {:induction false} BottomExecNode(pass: Pass, n: nat, w: World, p: Forest, op: Op, kids: Forest, st: State)
    requires CanonicalNode(op, kids) && Canonical(kids)
    ensures ExecNode(n, w, p, op, Bottom(pass, kids), st) == ExecNode(n, w, p, op, kids, st)
    decreases n, 1, kids, 5
  {
    match op
    case Program => BottomExec(pass, n, w, p, kids, Statement, st);
    case If =>
      BottomCondition(pass, n, w, p, kids, st);
      var c := EvalCondition(n, w, p, kids, st);
      if c.Vals? {
        BottomExec(pass, n, w, p, kids, if Truth(w, c.vs[0]) then Then else Else, c.st);
      }
    case While => BottomLoop(pass, n, w, p, kids, st);
    case Print | Return | Decl(_) | Reassign(_) => BottomEvalList(pass, n, w, p, kids, st);
    case Assign => BottomAssign(pass, n, w, p, kids, st);
    case Call(_) => BottomEvalNode(pass, n, w, p, op, kids, st);
    case _ =>
  }

  lemma {:induction false} BottomLoop(pass: Pass, n: nat, w: World, p: Forest, kids: Forest, st: State)
    requires Canonical(kids)
    ensures ExecLoop(n, w, p, Bottom(pass, kids), st) == ExecLoop(n, w, p, kids, st)
    decreases n, 1, kids, 4
  {
    BottomCondition(pass, n, w, p, kids, st);
    var c := EvalCondition(n, w, p, kids, st);
    if c.Vals? && Truth(w, c.vs[0]) && n > 0 {
      BottomExec(pass, n, w, p, kids, Body, c.st);
      var r := Exec(n, w, p, kids, Body, c.st);
      if r.Done? { BottomLoop(pass, n - 1, w, p, kids, r.st); }
    }
  }

  /** Folding and simplification preserve every outcome, including running out of `n`,
      so a rewritten program diverges exactly when the original does. */
  lemma {:induction false} BottomHead(pass: Pass, n: nat, w: World, p: Forest, f: Forest, st: State)
    requires Canonical(f) && f.Cons?
    ensures var g := Bottom(pass, f);
      g.role == f.role && g.rest == Bottom(pass, f.rest) && ExecNode(n, w, p, g.op, g.kids, st) == ExecNode(n, w, p, f.op, f.kids, st)
    decreases n, 1, f, 2
  {
    BottomExecNode(pass, n, w, p, f.op, f.kids, st);
    BottomNode(pass, f.op, f.kids);
    RewriteExec(pass, n, w, p, f.op, Bottom(pass, f.kids), st);
  }

  lemma {:induction false} BottomExec(pass: Pass, n: nat, w: World, p: Forest, f: Forest, role: Role, st: State)
    requires Canonical(f)
    ensures Exec(n, w, p, Bottom(pass, f), role, st) == Exec(n, w, p, f, role, st)
    decreases n, 1, f, 3
  {
    if f.Cons? {
      if f.role != role {
        BottomExec(pass, n, w, p, f.rest, role, st);
      } else {
        BottomHead(pass, n, w, p, f, st);
        var r := ExecNode(n, w, p, f.op, f.kids, st);
        if r.Done? { BottomExec(pass, n, w, p, f.rest, role, r.st); }
      }
    }
  }

  // ---- Functions called by a rewritten program ----

  lemma {:induction false} BottomFunction(pass: Pass, p: Forest, name: string)
    ensures FindFunction(p, name).None? <==> FindFunction(Bottom(pass, p), name).None?
    ensures FindFunction(p, name).Some? ==>
      var r, s := FindFunction(p, name).value, FindFunction(Bottom(pass, p), name).value;
      s.params == r.params && s.body == Rewrite(pass, Function(name, r.params), Bottom(pass, r.body)).1
  {
    if p.Cons? { BottomFunction(pass, p.rest, name); }
  }

  lemma {:induction false} FunctionCanonical(p: Forest, name: string)
    requires Canonical(p) && FindFunction(p, name).Some?
    ensures AllRole(FindFunction(p, name).value.body, Body) && Canonical(FindFunction(p, name).value.body)
  {
    if !(p.op.Function? && p.op.fn == name) { FunctionCanonical(p.rest, name); }
  }

  /** Calls behave alike in a program and in its rewritten form. */
  lemma {:induction false} BottomCalls(pass: Pass, n: nat, w: World, p: Forest)
    requires Canonical(p)
    ensures SameCalls(n, w, p, Bottom(pass, p))
  {
    if n > 0 { BottomCalls(pass, n - 1, w, p); }
    forall m: nat, f, vs, st | m <= n
      ensures Invoke(m, w, Bottom(pass, p), f, vs, st) == Invoke(m, w, p, f, vs, st)
    {
      BottomInvoke(pass, m, n, w, p, f, vs, st);
    }
  }

  lemma {:induction false} BottomInvoke(pass: Pass, m: nat, n: nat, w: World, p: Forest, f: string, vs: seq<Value>, st: State)
    requires Canonical(p) && m <= n
    requires n > 0 ==> SameCalls(n - 1, w, p, Bottom(pass, p))
    ensures Invoke(m, w, Bottom(pass, p), f, vs, st) == Invoke(m, w, p, f, vs, st)
  {
    BottomFunction(pass, p, f);
    if m > 0 && FindFunction(p, f).Some? {
      var r := FindFunction(p, f).value;
      FunctionCanonical(p, f);
      BottomBody(pass, m - 1, n, w, p, Function(f, r.params), r.body, w.enter(f, r.params, vs, st));
    }
  }

  lemma {:induction false} BottomBody(pass: Pass, m: nat, n: nat, w: World, p: Forest, op: Op, body: Forest, st: State)
    requires Canonical(p) && Canonical(body) && AllRole(body, Body) && m < n && op.Function?
    requires SameCalls(n - 1, w, p, Bottom(pass, p))
    ensures Exec(m, w, Bottom(pass, p), Rewrite(pass, op, Bottom(pass, body)).1, Body, st) == Exec(m, w, p, body, Body, st)
  {
    var q := Bottom(pass, p);
    BottomExec(pass, m, w, q, body, Body, st);
    if pass.SimplifyPass? { PruneExec(m, w, q, Bottom(pass, body), {}, Body, st); }
    SwapExec(m, w, p, q, body, Body, st);
  }

  /** A pass over a whole program preserves every outcome. */
  lemma {:induction false} BottomRun(pass: Pass, n: nat, w: World, p: Forest, st: State)
    requires Canonical(p)
    ensures Run(n, w, Bottom(pass, p), st) == Run(n, w, p, st)
  {
    BottomExec(pass, n, w, Bottom(pass, p), p, Statement, st);
    BottomCalls(pass, n, w, p);
    SwapExec(n, w, p, Bottom(pass, p), p, Statement, st);
  }
}
