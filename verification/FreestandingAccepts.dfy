/** Which programs the freestanding back end takes: a condition on their syntax. */
module FreestandingAccepts {
  import opened Options
  import opened Operators
  import opened Hir
  import opened HirSemantics
  import opened X86
  import opened Freestanding
  import opened FreestandingContext
  import opened FreestandingTypes
  import opened FreestandingProgram

  // ---- The condition ----

  /** Every call is of a function of the program, with as many arguments as it has parameters,
      which are at most six. */
  predicate ExprFits(p: Prog, e: Expr)
    decreases e
  {
    match e
    case Literal(_) => true
    case Flag(_) => true
    case Local(_) => true
    case Minus(a) => ExprFits(p, a)
    case Negation(a) => ExprFits(p, a)
    case Infix(_, l, r) => ExprFits(p, l) && ExprFits(p, r)
    case Apply(f, args) => Callable(p, f, Count(args)) && ArgsFit(p, args)
  }

  predicate ArgsFit(p: Prog, a: Args)
    decreases a
  {
    a.Arg? ==> ExprFits(p, a.e) && ArgsFit(p, a.rest)
  }

  /** A function of the program that takes this many arguments. */
  predicate Callable(p: Prog, f: string, argc: nat) {
    argc <= 6 && Find(p, f).Some? && |Find(p, f).value.params| == argc
  }

  /** Jumps are inside loops and at most 64 loops are nested. Nothing is asked of what follows
      a declaration without a value: there the output is cut. */
  predicate StmtFits(p: Prog, s: Stmt, depth: nat)
    decreases s
  {
    match s
    case Declare(_, _, init) => init.Some? ==> ExprFits(p, init.value)
    case Set(_, e) => ExprFits(p, e)
    case Do(f, args) => Callable(p, f, Count(args)) && ArgsFit(p, args)
    case Give(value) => value.Some? ==> ExprFits(p, value.value)
    case Choose(c, yes, no) => ExprFits(p, c) && BlockFits(p, yes, depth) && (Initialised(yes) ==> BlockFits(p, no, depth))
    case Loop(c, body) => depth < 64 && ExprFits(p, c) && BlockFits(p, body, depth + 1)
    case Exit => depth > 0
    case Again => depth > 0
    case Group(body) => BlockFits(p, body, depth)
  }

  predicate BlockFits(p: Prog, b: Stmts, depth: nat)
    decreases b
  {
    b.Then? ==> StmtFits(p, b.s, depth) && (InitialisedStmt(b.s) ==> BlockFits(p, b.rest, depth))
  }

  /** No two functions of the same name, an entry routine without parameters, at most six
      parameters each, and bodies that fit. */
  predicate Acceptable(p: Prog) {
    && (forall i, j :: 0 <= i < j < |p| ==> p[i].name != p[j].name)
    && (exists i :: 0 <= i < |p| && p[i].name == "kernel_main" && p[i].params == [])
    && (forall i :: 0 <= i < |p| ==> |p[i].params| <= 6 && BlockFits(p, p[i].body, 0))
  }

  // ---- Every name that occurs has a slot ----

  ghost function Names(tab: Table): set<string> {
    set i | 0 <= i < |tab| :: tab[i].x
  }

  function ExprNames(e: Expr): set<string>
    decreases e
  {
    match e
    case Local(x) => {x}
    case Minus(a) => ExprNames(a)
    case Negation(a) => ExprNames(a)
    case Infix(_, l, r) => ExprNames(l) + ExprNames(r)
    case Apply(_, args) => ArgsNames(args)
    case _ => {}
  }

  function ArgsNames(a: Args): set<string>
    decreases a
  {
    if a.Nothing? then {} else ExprNames(a.e) + ArgsNames(a.rest)
  }

  function StmtNames(s: Stmt): set<string>
    decreases s
  {
    match s
    case Declare(x, _, init) => {x} + if init.Some? then ExprNames(init.value) else {}
    case Set(x, e) => {x} + ExprNames(e)
    case Do(_, args) => ArgsNames(args)
    case Give(value) => if value.Some? then ExprNames(value.value) else {}
    case Choose(c, yes, no) => ExprNames(c) + BlockNames(yes) + BlockNames(no)
    case Loop(c, body) => ExprNames(c) + BlockNames(body)
    case Group(body) => BlockNames(body)
    case _ => {}
  }

  function BlockNames(b: Stmts): set<string>
    decreases b
  {
    if b.Empty? then {} else StmtNames(b.s) + BlockNames(b.rest)
  }

  lemma {:induction false} AddNames(tab: Table, x: string)
    ensures Names(AddSlot(tab, x)) == Names(tab) + {x}
  {
    var t := AddSlot(tab, x);
    if SlotOf(tab, x) == -1 {
      forall y | y in Names(tab) ensures y in Names(t) {
        var i :| 0 <= i < |tab| && tab[i].x == y;
        assert t[i].x == y;
      }
      assert t[|tab|].x == x;
    }
  }

  lemma {:induction false} RetypeNames(tab: Table, x: string, t: Type)
    ensures Names(Retype(tab, x, t)) == Names(tab)
  {
    var r := Retype(tab, x, t);
    assert |r| == |tab| && forall i :: 0 <= i < |tab| ==> r[i].x == tab[i].x;
  }

  lemma {:induction false} ExprCollects(tab: Table, e: Expr)
    ensures Names(CollectExpr(tab, e)) == Names(tab) + ExprNames(e)
    decreases e
  {
    match e
    case Local(x) => AddNames(tab, x);
    case Minus(a) => ExprCollects(tab, a);
    case Negation(a) => ExprCollects(tab, a);
    case Infix(_, l, r) => ExprCollects(tab, l); ExprCollects(CollectExpr(tab, l), r);
    case Apply(_, args) => ArgsCollect(tab, args);
    case _ =>
  }

  lemma {:induction false} ArgsCollect(tab: Table, a: Args)
    ensures Names(CollectArgs(tab, a)) == Names(tab) + ArgsNames(a)
    decreases a
  {
    if a.Arg? {
      ExprCollects(tab, a.e);
      ArgsCollect(CollectExpr(tab, a.e), a.rest);
    }
  }

  lemma {:induction false} StmtCollects(tab: Table, s: Stmt)
    ensures Names(CollectStmt(tab, s)) == Names(tab) + StmtNames(s)
    decreases s
  {
    match s
    case Declare(x, t, init) =>
      AddNames(tab, x);
      RetypeNames(AddSlot(tab, x), x, t);
      if init.Some? { ExprCollects(Retype(AddSlot(tab, x), x, t), init.value); }
    case Set(x, e) => AddNames(tab, x); ExprCollects(AddSlot(tab, x), e);
    case Do(_, args) => ArgsCollect(tab, args);
    case Give(value) => if value.Some? { ExprCollects(tab, value.value); }
    case Choose(c, yes, no) =>
      ExprCollects(tab, c);
      BlockCollects(CollectExpr(tab, c), yes);
      BlockCollects(CollectStmts(CollectExpr(tab, c), yes), no);
    case Loop(c, body) => ExprCollects(tab, c); BlockCollects(CollectExpr(tab, c), body);
    case Group(body) => BlockCollects(tab, body);
    case _ =>
  }

  lemma {:induction false} BlockCollects(tab: Table, b: Stmts)
    ensures Names(CollectStmts(tab, b)) == Names(tab) + BlockNames(b)
    decreases b
  {
    if b.Then? {
      StmtCollects(tab, b.s);
      BlockCollects(CollectStmt(tab, b.s), b.rest);
    }
  }

  lemma {:induction false} HasSlot(tab: Table, x: string)
    requires x in Names(tab)
    ensures SlotOf(tab, x) != -1
  {
  }

  // ---- Expressions ----

  /** Every operator but the two logical ones has code of its own. */
  lemma OperatorAccepted(op: BinaryOp, lab: nat)
    requires op != And && op != Or
    ensures OperatorCode(op, lab).Some?
  {
  }

  lemma {:induction false} ExprAccepted(p: Prog, tab: Table, e: Expr, lab: nat)
    requires ExprNames(e) <= Names(tab)
    ensures ExprCode(p, tab, e, lab).Some? <==> ExprFits(p, e)
    decreases e, 1
  {
    match e
    case Local(x) => HasSlot(tab, x);
    case Minus(a) => ExprAccepted(p, tab, a, lab);
    case Negation(a) => ExprAccepted(p, tab, a, lab);
    case Infix(op, l, r) => InfixAccepted(p, tab, op, l, r, lab);
    case Apply(f, args) => CallAccepted(p, tab, f, args, lab);
    case _ =>
  }

  lemma {:induction false} InfixAccepted(p: Prog, tab: Table, op: BinaryOp, l: Expr, r: Expr, lab: nat)
    requires ExprNames(l) <= Names(tab) && ExprNames(r) <= Names(tab)
    ensures ExprCode(p, tab, Infix(op, l, r), lab).Some? <==> ExprFits(p, l) && ExprFits(p, r)
    decreases Infix(op, l, r), 0
  {
    var logical := op == And || op == Or;
    var start := if logical then lab + 2 else lab;
    ExprAccepted(p, tab, l, start);
    var a := ExprCode(p, tab, l, start);
    if a.Some? { ExprAccepted(p, tab, r, a.value.next); }
    if logical {
      assert ExprCode(p, tab, Infix(op, l, r), lab) == LogicCode(p, tab, op, l, r, lab);
    } else {
      assert ExprCode(p, tab, Infix(op, l, r), lab) == BothCode(p, tab, op, l, r, lab);
      if a.Some? {
        var b := ExprCode(p, tab, r, a.value.next);
        if b.Some? { OperatorAccepted(op, b.value.next); }
      }
    }
  }

  lemma {:induction false} ArgsAccepted(p: Prog, tab: Table, a: Args, i: nat, lab: nat)
    requires ArgsNames(a) <= Names(tab)
    ensures ArgsCode(p, tab, a, i, lab).Some? <==> ArgsFit(p, a)
    decreases a, 0
  {
    if a.Arg? {
      ExprAccepted(p, tab, a.e, lab);
      var c := ExprCode(p, tab, a.e, lab);
      if c.Some? { ArgsAccepted(p, tab, a.rest, i + 1, c.value.next); }
    }
  }

  lemma {:induction false} CallAccepted(p: Prog, tab: Table, f: string, args: Args, lab: nat)
    requires ArgsNames(args) <= Names(tab)
    ensures CallCode(p, tab, f, args, lab).Some? <==> Callable(p, f, Count(args)) && ArgsFit(p, args)
    decreases args, 1
  {
    ArgsAccepted(p, tab, args, 0, lab);
  }

  // ---- Statements ----

  /** Code is whole, cut or refused. */
  predicate Verdict(e: Emitted, fits: bool, whole: bool) {
    if !fits then e.Rejected? else if whole then e.Whole? else e.Cut?
  }

  lemma {:induction false} StmtAccepted(p: Prog, tab: Table, ls: Loops, s: Stmt, lab: nat)
    requires StmtNames(s) <= Names(tab)
    ensures Verdict(StmtCode(p, tab, ls, s, lab), StmtFits(p, s, |ls|), InitialisedStmt(s))
    decreases s, 1
  {
    match s
    case Declare(x, _, init) =>
      if init.Some? {
        ExprAccepted(p, tab, init.value, lab);
        HasSlot(tab, x);
      }
    case Set(x, e) => ExprAccepted(p, tab, e, lab); HasSlot(tab, x);
    case Do(f, args) => CallAccepted(p, tab, f, args, lab);
    case Give(value) => if value.Some? { ExprAccepted(p, tab, value.value, lab); }
    case Choose(c, yes, no) => ChooseAccepted(p, tab, ls, c, yes, no, lab);
    case Loop(c, body) => LoopAccepted(p, tab, ls, c, body, lab);
    case Group(body) => BlockAccepted(p, tab, ls, body, lab);
    case _ =>
  }

  lemma {:induction false} ChooseAccepted(p: Prog, tab: Table, ls: Loops, c: Expr, yes: Stmts, no: Stmts, lab: nat)
    requires ExprNames(c) + BlockNames(yes) + BlockNames(no) <= Names(tab)
    ensures Verdict(ChooseCode(p, tab, ls, c, yes, no, lab), StmtFits(p, Choose(c, yes, no), |ls|), Initialised(yes) && Initialised(no))
    decreases Choose(c, yes, no), 0
  {
    ExprAccepted(p, tab, c, lab);
    ChooseEmits(p, tab, ls, c, yes, no, lab);
    var cc := ExprCode(p, tab, c, lab);
    if cc.Some? {
      BlockAccepted(p, tab, ls, yes, cc.value.next + 2);
      var y := BlockCode(p, tab, ls, yes, cc.value.next + 2);
      if y.Whole? { BlockAccepted(p, tab, ls, no, y.c.next); }
    }
  }

  predicate SameKind(a: Emitted, b: Emitted) {
    (a.Whole? <==> b.Whole?) && (a.Cut? <==> b.Cut?)
  }

  /** The code of a branch is whole, cut or refused as its parts are. */
  lemma {:induction false} ChooseEmits(p: Prog, tab: Table, ls: Loops, c: Expr, yes: Stmts, no: Stmts, lab: nat)
    ensures var e := ChooseCode(p, tab, ls, c, yes, no, lab); var cc := ExprCode(p, tab, c, lab);
      if cc.None? then e.Rejected?
      else var y := BlockCode(p, tab, ls, yes, cc.value.next + 2); SameKind(e, if y.Whole? then BlockCode(p, tab, ls, no, y.c.next) else y)
  {
  }

  lemma {:induction false} LoopAccepted(p: Prog, tab: Table, ls: Loops, c: Expr, body: Stmts, lab: nat)
    requires ExprNames(c) + BlockNames(body) <= Names(tab)
    ensures Verdict(LoopCode(p, tab, ls, c, body, lab), StmtFits(p, Loop(c, body), |ls|), Initialised(body))
    decreases Loop(c, body), 0
  {
    ExprAccepted(p, tab, c, lab + 2);
    var cc := ExprCode(p, tab, c, lab + 2);
    if cc.Some? { BlockAccepted(p, tab, ls + [(lab, lab + 1)], body, cc.value.next); }
  }

  lemma {:induction false} BlockAccepted(p: Prog, tab: Table, ls: Loops, b: Stmts, lab: nat)
    requires BlockNames(b) <= Names(tab)
    ensures Verdict(BlockCode(p, tab, ls, b, lab), BlockFits(p, b, |ls|), Initialised(b))
    decreases b, 1
  {
    if b.Then? {
      StmtAccepted(p, tab, ls, b.s, lab);
      var c := StmtCode(p, tab, ls, b.s, lab);
      if c.Whole? { BlockAccepted(p, tab, ls, b.rest, c.c.next); }
    }
  }

  // ---- Programs ----

  lemma {:induction false} FuncAccepted(p: Prog, fn: Func, lab: nat)
    ensures FuncCode(p, fn, lab).Some? <==> |fn.params| <= 6 && BlockFits(p, fn.body, 0)
  {
    BlockCollects(CollectParams([], fn.params), fn.body);
    BlockAccepted(p, TableOf(fn), [], fn.body, lab);
  }

  lemma {:induction false} FuncsAccepted(p: Prog, fns: seq<Func>, lab: nat)
    ensures FuncsCode(p, fns, lab).Some? <==> forall i :: 0 <= i < |fns| ==> |fns[i].params| <= 6 && BlockFits(p, fns[i].body, 0)
    decreases |fns|
  {
    if fns != [] {
      FuncAccepted(p, fns[0], lab);
      var c := FuncCode(p, fns[0], lab);
      if c.Some? { FuncsAccepted(p, fns[1..], c.value.next); }
      assert fns == [fns[0]] + fns[1..];
    }
  }

  lemma {:induction false} FindFirst(p: Prog, i: nat)
    requires DistinctFunctions(p) && i < |p|
    ensures Find(p, p[i].name) == Some(p[i])
  {
    if i > 0 {
      FindFirst(p[1..], i - 1);
    }
  }

  /** A program is emitted if and only if it is acceptable. */
  lemma {:induction false} EmittedExact(p: Prog)
    ensures ProgramCode(p).Some? <==> Acceptable(p)
  {
    FuncsAccepted(p, p, 0);
    if DistinctFunctions(p) {
      if Find(p, MainName).Some? { FindNamed(p, MainName); }
      if i :| 0 <= i < |p| && p[i].name == MainName { FindFirst(p, i); }
    }
  }

  // ---- Well-typed programs ----

  /** How deeply loops are nested. */
  function Nesting(b: Stmts): nat
    decreases b
  {
    if b.Empty? then 0 else Larger(StmtNesting(b.s), Nesting(b.rest))
  }

  function StmtNesting(s: Stmt): nat
    decreases s
  {
    match s
    case Choose(_, yes, no) => Larger(Nesting(yes), Nesting(no))
    case Loop(_, body) => 1 + Nesting(body)
    case Group(body) => Nesting(body)
    case _ => 0
  }

  function Larger(a: nat, b: nat): nat {
    if a < b then b else a
  }

  predicate FewParams(p: Prog) {
    forall i :: 0 <= i < |p| ==> |p[i].params| <= 6
  }

  lemma {:induction false} FoundFew(p: Prog, f: string)
    requires FewParams(p) && Find(p, f).Some?
    ensures |Find(p, f).value.params| <= 6
  {
    FindNamed(p, f);
  }

  lemma {:induction false} TypedCall(p: Prog, ts: Types, ls: Locals, d: set<string>, f: string, args: Args)
    requires WellTyped(p, ts) && FewParams(p) && CallFits(ts, ls, d, f, args)
    ensures Callable(p, f, Count(args)) && ArgsFit(p, args)
    decreases args, 1
  {
    FindNamed(p, f);
    FoundFew(p, f);
    assert FuncTyped(ts, Find(p, f).value);
    TypedArgs(p, ts, ls, d, args, ts[f].params);
  }

  lemma {:induction false} TypedArgs(p: Prog, ts: Types, ls: Locals, d: set<string>, args: Args, tys: seq<Ty>)
    requires WellTyped(p, ts) && FewParams(p) && FreestandingTypes.ArgsFit(ts, ls, d, args, tys)
    ensures Count(args) == |tys| && ArgsFit(p, args)
    decreases args, 0
  {
    if args.Arg? {
      TypedExpr(p, ts, ls, d, args.e);
      TypedArgs(p, ts, ls, d, args.rest, tys[1..]);
    }
  }

  lemma {:induction false} TypedExpr(p: Prog, ts: Types, ls: Locals, d: set<string>, e: Expr)
    requires WellTyped(p, ts) && FewParams(p) && TypeOf(ts, ls, d, e).Some?
    ensures ExprFits(p, e)
    decreases e, 1
  {
    match e
    case Minus(a) => TypedExpr(p, ts, ls, d, a);
    case Negation(a) => TypedExpr(p, ts, ls, d, a);
    case Infix(op, l, r) =>
      TypedExpr(p, ts, ls, d, l);
      TypedExpr(p, ts, ls, d, r);
    case Apply(f, args) => TypedCall(p, ts, ls, d, f, args);
    case _ =>
  }

  lemma {:induction false} TypedStmt(p: Prog, ts: Types, g: Signature, s: Stmt, d: set<string>, depth: nat)
    requires WellTyped(p, ts) && FewParams(p) && After(ts, g, depth > 0, s, d).Some? && depth + StmtNesting(s) <= 64
    ensures StmtFits(p, s, depth)
    decreases s
  {
    match s
    case Declare(x, _, init) => if init.Some? { TypedExpr(p, ts, g.locals, d, init.value); }
    case Set(x, e) => TypedExpr(p, ts, g.locals, d, e);
    case Do(f, args) => TypedCall(p, ts, g.locals, d, f, args);
    case Give(value) => if value.Some? { TypedExpr(p, ts, g.locals, d, value.value); }
    case Choose(c, yes, no) =>
      TypedExpr(p, ts, g.locals, d, c);
      TypedBlock(p, ts, g, yes, d, depth);
      TypedBlock(p, ts, g, no, d, depth);
    case Loop(c, body) =>
      TypedExpr(p, ts, g.locals, d, c);
      TypedBlock(p, ts, g, body, d, depth + 1);
    case Group(body) => TypedBlock(p, ts, g, body, d, depth);
    case _ =>
  }

  lemma {:induction false} TypedBlock(p: Prog, ts: Types, g: Signature, b: Stmts, d: set<string>, depth: nat)
    requires WellTyped(p, ts) && FewParams(p) && AfterAll(ts, g, depth > 0, b, d).Some? && depth + Nesting(b) <= 64
    ensures BlockFits(p, b, depth)
    decreases b
  {
    if b.Then? {
      TypedStmt(p, ts, g, b.s, d, depth);
      var r := After(ts, g, depth > 0, b.s, d).value;
      TypedBlock(p, ts, g, b.rest, if r.Live? then r.d else g.locals.Keys, depth);
    }
  }

  /** What is emitted in full does not nest deeper. */
  lemma {:induction false} FitsNesting(p: Prog, b: Stmts, depth: nat)
    requires BlockFits(p, b, depth) && Initialised(b) && depth <= 64
    ensures depth + Nesting(b) <= 64
    decreases b
  {
    if b.Then? {
      StmtFitsNesting(p, b.s, depth);
      FitsNesting(p, b.rest, depth);
    }
  }

  lemma {:induction false} StmtFitsNesting(p: Prog, s: Stmt, depth: nat)
    requires StmtFits(p, s, depth) && InitialisedStmt(s) && depth <= 64
    ensures depth + StmtNesting(s) <= 64
    decreases s
  {
    match s
    case Choose(_, yes, no) => FitsNesting(p, yes, depth); FitsNesting(p, no, depth);
    case Loop(_, body) => FitsNesting(p, body, depth + 1);
    case Group(body) => FitsNesting(p, body, depth);
    case _ =>
  }

  /** A well-typed program whose declarations have values is emitted if and only if no two
      functions have the same name, `kernel_main` is one of them and takes no parameters, none
      takes more than six, and at most 64 loops are nested. */
  lemma {:induction false} TypedEmitted(p: Prog, ts: Types)
    requires WellTyped(p, ts) && FreestandingProgram.Checked(p)
    ensures ProgramCode(p).Some? <==>
      && (forall i, j :: 0 <= i < j < |p| ==> p[i].name != p[j].name)
      && (exists i :: 0 <= i < |p| && p[i].name == "kernel_main" && p[i].params == [])
      && (forall i :: 0 <= i < |p| ==> |p[i].params| <= 6 && Nesting(p[i].body) <= 64)
  {
    EmittedExact(p);
    if FewParams(p) {
      forall i | 0 <= i < |p| ensures BlockFits(p, p[i].body, 0) <==> Nesting(p[i].body) <= 64 {
        assert FuncTyped(ts, p[i]);
        if Nesting(p[i].body) <= 64 { TypedBlock(p, ts, ts[p[i].name], p[i].body, NamesOf(p[i].params), 0); }
        if BlockFits(p, p[i].body, 0) { FitsNesting(p, p[i].body, 0); }
      }
    }
  }

  /** Such a program is emitted, and its code does what it means. */
  lemma {:induction false} TypedRuns(p: Prog, ts: Types, n: nat, s: Cpu) returns (code: seq<Instr>, k: nat, u: Cpu)
    requires WellTyped(p, ts) && FreestandingProgram.Checked(p) && s.pc == 0
    requires forall i, j :: 0 <= i < j < |p| ==> p[i].name != p[j].name
    requires exists i :: 0 <= i < |p| && p[i].name == "kernel_main" && p[i].params == []
    requires forall i :: 0 <= i < |p| ==> |p[i].params| <= 6 && Nesting(p[i].body) <= 64
    ensures ProgramCode(p) == Some(code) && ProgramEnds(Load(code), k, s, u, Enter(n, p, "kernel_main", []), n)
  {
    TypedEmitted(p, ts);
    code := ProgramCode(p).value;
    k, u := ProgramRuns(p, ts, code, n, s);
  }
}
