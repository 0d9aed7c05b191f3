/** The symbol stack of the type checker: which names are visible and which bindings declare
    (find_symbol_index, check_statements, discard_symbols_to in src/compiler/typecheck.c). */
module ScopeChecker {
  import opened Options
  import opened Scopes

  datatype Sym = Sym(name: string, depth: nat)

  /** The last symbol of a name, or -1. */
  function Last(syms: seq<Sym>, x: string): (i: int)
    ensures i == -1 || (0 <= i < |syms| && syms[i].name == x && forall j :: i < j < |syms| ==> syms[j].name != x)
    ensures i == -1 ==> forall j :: 0 <= j < |syms| ==> syms[j].name != x
  {
    if syms == [] then -1
    else if syms[|syms| - 1].name == x then |syms| - 1
    else Last(syms[..|syms| - 1], x)
  }

  predicate AllKnown(syms: seq<Sym>, names: Names) {
    forall i :: 0 <= i < |names| ==> Last(syms, names[i]) != -1
  }

  // ---- What the checker does ----

  function CheckStmt(s: Stmt, syms: seq<Sym>, depth: nat): Option<(Node, seq<Sym>)>
    decreases s, 1
  {
    match s
    case Bind(x, annotated, value) => CheckBind(x, annotated, value, syms, depth)
    case Use(names) => if AllKnown(syms, names) then Some((Uses(names), syms)) else None
    case If(cond, yes, no) => if AllKnown(syms, cond) then CheckIf(cond, yes, no, syms, depth) else None
    case While(cond, body) =>
      if !AllKnown(syms, cond) then None
      else CheckLoop(cond, body, syms, depth)
    case Unsafe(body) => (match CheckAll(body, syms, depth + 1) case None => None case Some((b, _)) => Some((Block(b), syms)))
  }

  function CheckIf(cond: Names, yes: Stmts, no: Stmts, syms: seq<Sym>, depth: nat): Option<(Node, seq<Sym>)>
    decreases If(cond, yes, no), 0
  {
    match CheckAll(yes, syms, depth + 1)
    case None => None
    case Some((y, _)) =>
      match CheckAll(no, syms, depth + 1)
      case None => None
      case Some((n, _)) => Some((Branch(cond, y, n), syms))
  }

  function CheckLoop(cond: Names, body: Stmts, syms: seq<Sym>, depth: nat): Option<(Node, seq<Sym>)>
    decreases While(cond, body), 0
  {
    match CheckAll(body, syms, depth + 1)
    case None => None
    case Some((b, _)) => Some((Loop(cond, b), syms))
  }

  function CheckBind(x: string, annotated: bool, value: Names, syms: seq<Sym>, depth: nat): Option<(Node, seq<Sym>)> {
    var e := Last(syms, x);
    var shadows := annotated && e != -1 && syms[e].depth < depth;
    if !AllKnown(syms, value) then None
    else if e != -1 && !shadows then (if annotated then None else Some((Reassign(x, value), syms)))
    else Some((Decl(x, value), syms + [Sym(x, depth)]))
  }

  function CheckAll(b: Stmts, syms: seq<Sym>, depth: nat): Option<(Nodes, seq<Sym>)>
    decreases b, 0
  {
    match b
    case Nil => Some((Done, syms))
    case Cons(s, tail) =>
      match CheckStmt(s, syms, depth)
      case None => None
      case Some((h, syms1)) =>
        match CheckAll(tail, syms1, depth)
        case None => None
        case Some((t, syms2)) => Some((More(h, t), syms2))
  }

  function ParamSyms(params: seq<string>): seq<Sym> {
    seq(|params|, i requires 0 <= i < |params| => Sym(params[i], 1))
  }

  function CheckTop(t: Top, syms: seq<Sym>): Option<(TopNode, seq<Sym>)> {
    match t
    case Plain(s) => (match CheckStmt(s, syms, 0) case None => None case Some((n, syms1)) => Some((PlainNode(n), syms1)))
    case Fun(params, body) =>
      if !Distinct(params) then None
      else (match CheckAll(body, syms + ParamSyms(params), 1) case None => None case Some((b, _)) => Some((FunNode(params, b), syms)))
  }

  function CheckTops(p: seq<Top>): Option<(seq<TopNode>, seq<Sym>)> {
    if p == [] then Some(([], []))
    else match CheckTops(p[..|p| - 1])
      case None => None
      case Some((hir, syms)) =>
        match CheckTop(p[|p| - 1], syms)
        case None => None
        case Some((h, syms1)) => Some((hir + [h], syms1))
  }

  // ---- It is lexical scoping ----

  /** The stack holds what is visible, and what the innermost block declared on top. */
  ghost predicate Holds(syms: seq<Sym>, depth: nat, sc: Scope) {
    && (forall x :: x in sc.env <==> Last(syms, x) != -1)
    && (forall x :: x in sc.own <==> Last(syms, x) != -1 && syms[Last(syms, x)].depth == depth)
    && (forall i :: 0 <= i < |syms| ==> syms[i].depth <= depth)
  }

  /** The checker accepts what the reference accepts, and leaves the same stack relation. */
  ghost predicate Agrees(c: Option<(Node, seq<Sym>)>, l: Option<Bound>, syms: seq<Sym>, depth: nat) {
    match l
    case None => c == None
    case Some(b) => c.Some? && c.value.0 == b.hir && syms <= c.value.1 && Holds(c.value.1, depth, b.sc)
  }

  ghost predicate AgreesAll(c: Option<(Nodes, seq<Sym>)>, l: Option<BoundAll>, syms: seq<Sym>, depth: nat) {
    match l
    case None => c == None
    case Some(b) => c.Some? && c.value.0 == b.hir && syms <= c.value.1 && Holds(c.value.1, depth, b.sc)
  }

  lemma {:induction false} LastPush(syms: seq<Sym>, s: Sym, x: string)
    ensures Last(syms + [s], x) == if s.name == x then |syms| else Last(syms, x)
  {
    assert (syms + [s])[..|syms|] == syms;
  }

  lemma {:induction false} HoldsPush(syms: seq<Sym>, depth: nat, sc: Scope, x: string, sc1: Scope)
    requires Holds(syms, depth, sc) && sc1.env.Keys == sc.env.Keys + {x} && sc1.own == sc.own + {x}
    ensures Holds(syms + [Sym(x, depth)], depth, sc1)
  {
    var s := Sym(x, depth);
    forall y ensures Last(syms + [s], y) == if x == y then |syms| else Last(syms, y) { LastPush(syms, s, y); }
    forall y ensures y in sc1.own <==> Last(syms + [s], y) != -1 && (syms + [s])[Last(syms + [s], y)].depth == depth {
      if y != x && Last(syms, y) != -1 { assert (syms + [s])[Last(syms, y)] == syms[Last(syms, y)]; }
    }
  }

  lemma {:induction false} HoldsInner(syms: seq<Sym>, depth: nat, sc: Scope)
    requires Holds(syms, depth, sc)
    ensures Holds(syms, depth + 1, Inner(sc))
  {
  }

  lemma {:induction false} StmtAgrees(s: Stmt, syms: seq<Sym>, depth: nat, sc: Scope)
    requires Holds(syms, depth, sc)
    ensures Agrees(CheckStmt(s, syms, depth), LexStmt(s, sc), syms, depth)
    decreases s, 1
  {
    match s
    case Bind(x, annotated, value) => BindAgrees(x, annotated, value, syms, depth, sc);
    case Use(names) => KnownVisible(names, syms, depth, sc);
    case If(cond, yes, no) =>
      KnownVisible(cond, syms, depth, sc);
      if Visible(sc.env, cond) { IfAgrees(cond, yes, no, syms, depth, Reading(sc, cond)); }
    case While(cond, body) =>
      KnownVisible(cond, syms, depth, sc);
      if Visible(sc.env, cond) { LoopAgrees(cond, body, syms, depth, Reading(sc, cond)); }
    case Unsafe(body) => UnsafeAgrees(body, syms, depth, sc);
  }

  lemma {:induction false} KnownVisible(names: Names, syms: seq<Sym>, depth: nat, sc: Scope)
    requires Holds(syms, depth, sc)
    ensures AllKnown(syms, names) <==> Visible(sc.env, names)
    ensures Holds(syms, depth, Reading(sc, names))
  {
    if AllKnown(syms, names) {
      forall i | 0 <= i < |names| ensures names[i] in sc.env { assert Last(syms, names[i]) != -1; }
    }
    if Visible(sc.env, names) {
      forall i | 0 <= i < |names| ensures Last(syms, names[i]) != -1 { assert names[i] in sc.env; }
    }
  }

  lemma {:induction false} BindAgrees(x: string, annotated: bool, value: Names, syms: seq<Sym>, depth: nat, sc: Scope)
    requires Holds(syms, depth, sc)
    ensures Agrees(CheckBind(x, annotated, value, syms, depth), LexBind(x, annotated, value, sc), syms, depth)
  {
    KnownVisible(value, syms, depth, sc);
    var e := Last(syms, x);
    assert (x in sc.env <==> e != -1) && (x in sc.own <==> e != -1 && syms[e].depth == depth);
    var b := LexBind(x, annotated, value, sc);
    if b.Some? && b.value.hir.Decl? {
      assert b.value.sc.env.Keys == sc.env.Keys + {x};
      HoldsPush(syms, depth, sc, x, b.value.sc);
    }
  }

  lemma {:induction false} UnsafeAgrees(body: Stmts, syms: seq<Sym>, depth: nat, sc: Scope)
    requires Holds(syms, depth, sc)
    ensures Agrees(CheckStmt(Unsafe(body), syms, depth), LexUnsafe(body, sc), syms, depth)
    decreases Unsafe(body), 0
  {
    HoldsInner(syms, depth, sc);
    AllAgree(body, syms, depth + 1, Inner(sc));
  }

  lemma {:induction false} IfAgrees(cond: Names, yes: Stmts, no: Stmts, syms: seq<Sym>, depth: nat, sc: Scope)
    requires Holds(syms, depth, sc) && Visible(sc.env, cond)
    ensures Agrees(CheckIf(cond, yes, no, syms, depth), LexIf(cond, yes, no, sc), syms, depth)
    decreases If(cond, yes, no), 0
  {
    HoldsInner(syms, depth, sc);
    AllAgree(yes, syms, depth + 1, Inner(sc));
    var y := LexAll(yes, Inner(sc));
    if y.Some? {
      var mid := sc.(next := y.value.sc.next, clean := y.value.sc.clean);
      HoldsInner(syms, depth, mid);
      AllAgree(no, syms, depth + 1, Inner(mid));
    }
  }

  lemma {:induction false} LoopAgrees(cond: Names, body: Stmts, syms: seq<Sym>, depth: nat, sc: Scope)
    requires Holds(syms, depth, sc) && Visible(sc.env, cond)
    ensures Agrees(CheckLoop(cond, body, syms, depth), LexLoop(cond, body, sc), syms, depth)
    decreases While(cond, body), 0
  {
    HoldsInner(syms, depth, sc);
    AllAgree(body, syms, depth + 1, Inner(sc));
  }

  lemma {:induction false} AllAgree(b: Stmts, syms: seq<Sym>, depth: nat, sc: Scope)
    requires Holds(syms, depth, sc)
    ensures AgreesAll(CheckAll(b, syms, depth), LexAll(b, sc), syms, depth)
    decreases b, 0
  {
    if b.Cons? {
      StmtAgrees(b.head, syms, depth, sc);
      var h := LexStmt(b.head, sc);
      if h.Some? { AllAgree(b.tail, CheckStmt(b.head, syms, depth).value.1, depth, h.value.sc); }
    }
  }

  lemma {:induction false} LastAppend(a: seq<Sym>, b: seq<Sym>, x: string)
    ensures Last(a + b, x) == if Last(b, x) != -1 then |a| + Last(b, x) else Last(a, x)
    decreases |b|
  {
    if b == [] {
      assert a + b == a;
    } else {
      var init := b[..|b| - 1];
      assert (a + b)[..|a + b| - 1] == a + init;
      LastAppend(a, init, x);
    }
  }

  lemma {:induction false} ParamsVisible(params: seq<string>, env: map<string, string>, next: nat)
    ensures WithParams(params, env, next).Keys == env.Keys + SetOf(params)
    decreases |params|
  {
    if params != [] {
      var init := params[..|params| - 1];
      ParamsVisible(init, env, next);
      assert params == init + [params[|params| - 1]];
    }
  }

  lemma {:induction false} FunAgrees(params: seq<string>, body: Stmts, syms: seq<Sym>, sc: Scope, inner: Scope)
    requires Holds(syms, 0, sc) && inner.env.Keys == sc.env.Keys + SetOf(params) && inner.own == SetOf(params)
    ensures AgreesAll(CheckAll(body, syms + ParamSyms(params), 1), LexAll(body, inner), syms + ParamSyms(params), 1)
  {
    var ps := ParamSyms(params);
    forall x ensures Last(syms + ps, x) == (if Last(ps, x) != -1 then |syms| + Last(ps, x) else Last(syms, x))
      && (Last(ps, x) != -1 <==> x in SetOf(params))
    {
      LastAppend(syms, ps, x);
      if x in params {
        var i :| 0 <= i < |params| && params[i] == x;
        assert ps[i].name == x;
      }
    }
    AllAgree(body, syms + ps, 1, inner);
  }

  lemma {:induction false} TopAgrees(t: Top, syms: seq<Sym>, sc: Scope, g: nat)
    requires Holds(syms, 0, sc) && sc.own == sc.env.Keys
    ensures match LexTop(t, sc, g)
      case None => CheckTop(t, syms) == None
      case Some((h, _, sc1)) =>
        CheckTop(t, syms).Some? && CheckTop(t, syms).value.0 == h && Holds(CheckTop(t, syms).value.1, 0, sc1) && sc1.own == sc1.env.Keys
  {
    match t
    case Plain(s) => if s.Bind? && s.x !in sc.env { GlobalAgrees(s.x, s.annotated, s.value, syms, sc, g); } else { PlainAgrees(s, syms, sc); }
    case Fun(params, body) => if Distinct(params) { ParamsAgree(params, body, syms, sc); }
  }

  lemma {:induction false} GlobalAgrees(x: string, annotated: bool, value: Names, syms: seq<Sym>, sc: Scope, g: nat)
    requires Holds(syms, 0, sc) && sc.own == sc.env.Keys && x !in sc.env
    ensures match LexTop(Plain(Bind(x, annotated, value)), sc, g)
      case None => CheckBind(x, annotated, value, syms, 0) == None
      case Some((h, _, sc1)) =>
        var c := CheckBind(x, annotated, value, syms, 0);
        c.Some? && PlainNode(c.value.0) == h && Holds(c.value.1, 0, sc1) && sc1.own == sc1.env.Keys
  {
    KnownVisible(value, syms, 0, sc);
    assert Last(syms, x) == -1;
    if Visible(sc.env, value) { HoldsPush(syms, 0, sc, x, LexTop(Plain(Bind(x, annotated, value)), sc, g).value.2); }
  }

  lemma {:induction false} PlainAgrees(s: Stmt, syms: seq<Sym>, sc: Scope)
    requires Holds(syms, 0, sc) && sc.own == sc.env.Keys && !(s.Bind? && s.x !in sc.env)
    ensures Agrees(CheckStmt(s, syms, 0), LexStmt(s, sc), syms, 0)
    ensures LexStmt(s, sc).Some? ==> LexStmt(s, sc).value.sc.own == LexStmt(s, sc).value.sc.env.Keys
  {
    StmtAgrees(s, syms, 0, sc);
    if LexStmt(s, sc).Some? { PlainOwn(s, sc); }
  }

  lemma {:induction false} ParamsAgree(params: seq<string>, body: Stmts, syms: seq<Sym>, sc: Scope)
    requires Holds(syms, 0, sc) && Distinct(params)
    ensures match LexAll(body, WithinFun(params, sc))
      case None => CheckAll(body, syms + ParamSyms(params), 1) == None
      case Some(b) => CheckAll(body, syms + ParamSyms(params), 1).Some? && CheckAll(body, syms + ParamSyms(params), 1).value.0 == b.hir
  {
    ParamsVisible(params, sc.env, sc.next);
    FunAgrees(params, body, syms, sc, WithinFun(params, sc));
  }

  /** The checker accepts exactly the programs that lexical scoping does, and decides which
      bindings declare as it does. */
  lemma {:induction false} CheckerIsLexical(p: seq<Top>, locals: nat)
    ensures match LexTops(p, locals)
      case None => CheckTops(p) == None
      case Some(b) => CheckTops(p).Some? && CheckTops(p).value.0 == b.hir && Holds(CheckTops(p).value.1, 0, b.sc) && b.sc.own == b.sc.env.Keys
    decreases |p|
  {
    if p != [] {
      var init := p[..|p| - 1];
      CheckerIsLexical(init, locals);
      var b := LexTops(init, locals);
      if b.Some? { TopAgrees(p[|p| - 1], CheckTops(init).value.1, b.value.sc, |GlobalNames(init)|); }
    }
  }

  // ---- The stack in place ----

  class Checker {
    var symbols: seq<Sym>
    var depth: nat
    var failed: bool

    constructor ()
      ensures symbols == [] && depth == 0 && !failed
    {
      symbols, depth, failed := [], 0, false;
    }

    /** find_symbol_index */
    method Find(x: string) returns (i: int)
      ensures i == Last(symbols, x)
    {
      i := |symbols| - 1;
      while i >= 0 && symbols[i].name != x
        invariant -1 <= i < |symbols| && forall j :: i < j < |symbols| ==> symbols[j].name != x
      {
        i := i - 1;
      }
    }

    /** Every name read must be declared. */
    method Read(names: Names)
      modifies this`failed
      ensures failed == (old(failed) || !AllKnown(symbols, names))
    {
      for k := 0 to |names|
        invariant failed == (old(failed) || exists j :: 0 <= j < k && Last(symbols, names[j]) == -1)
      {
        var i := Find(names[k]);
        if i < 0 { failed := true; }
      }
    }

    /** discard_symbols_to */
    method Discard(n: nat)
      requires n <= |symbols|
      modifies this`symbols
      ensures symbols == old(symbols)[..n]
    {
      while |symbols| > n
        invariant n <= |symbols| <= |old(symbols)| && symbols == old(symbols)[..|symbols|]
      {
        symbols := symbols[..|symbols| - 1];
      }
    }

    /** The lowered statement, or a failure. */
    method CheckStatement(s: Stmt) returns (n: Node)
      requires !failed
      modifies this
      ensures depth == old(depth) && old(symbols) <= symbols
      ensures failed <==> CheckStmt(s, old(symbols), depth) == None
      ensures !failed ==> CheckStmt(s, old(symbols), depth) == Some((n, symbols))
      decreases s, 1
    {
      match s {
        case Bind(x, annotated, value) => n := CheckBinding(x, annotated, value);
        case Use(names) =>
          Read(names);
          n := Uses(names);
        case If(cond, yes, no) =>
          Read(cond);
          n := Uses(cond);
          if !failed { n := CheckBranches(cond, yes, no); }
        case While(cond, body) =>
          Read(cond);
          n := Uses(cond);
          if !failed {
            var b := CheckBlock(body);
            n := Loop(cond, b);
          }
        case Unsafe(body) =>
          var b := CheckBlock(body);
          n := Block(b);
      }
    }

    method CheckBinding(x: string, annotated: bool, value: Names) returns (n: Node)
      requires !failed
      modifies this
      ensures depth == old(depth) && old(symbols) <= symbols
      ensures failed <==> CheckBind(x, annotated, value, old(symbols), depth) == None
      ensures !failed ==> CheckBind(x, annotated, value, old(symbols), depth) == Some((n, symbols))
    {
      var existing := Find(x);
      var shadows := annotated && existing >= 0 && symbols[existing].depth < depth;
      Read(value);
      n := Reassign(x, value);
      if failed { return; }
      if existing >= 0 && !shadows {
        if annotated { failed := true; }
      } else {
        symbols := symbols + [Sym(x, depth)];
        n := Decl(x, value);
      }
    }

    method CheckBranches(cond: Names, yes: Stmts, no: Stmts) returns (n: Node)
      requires !failed
      modifies this
      ensures depth == old(depth) && symbols == old(symbols)
      ensures failed <==> CheckIf(cond, yes, no, symbols, depth) == None
      ensures !failed ==> CheckIf(cond, yes, no, symbols, depth) == Some((n, symbols))
      decreases If(cond, yes, no), 0
    {
      var y := CheckBlock(yes);
      n := Branch(cond, y, Done);
      if failed { return; }
      var z := CheckBlock(no);
      n := Branch(cond, y, z);
    }

    /** A block opens a scope, whose symbols go again. */
    method CheckBlock(b: Stmts) returns (n: Nodes)
      requires !failed
      modifies this
      ensures depth == old(depth) && symbols == old(symbols)
      ensures failed <==> CheckAll(b, symbols, depth + 1) == None
      ensures !failed ==> CheckAll(b, symbols, depth + 1).value.0 == n
      decreases b, 2
    {
      var outer := |symbols|;
      depth := depth + 1;
      n := CheckStatements(b);
      Discard(outer);
      depth := depth - 1;
    }

    method CheckStatements(b: Stmts) returns (n: Nodes)
      requires !failed
      modifies this
      ensures depth == old(depth) && old(symbols) <= symbols
      ensures failed <==> CheckAll(b, old(symbols), depth) == None
      ensures !failed ==> CheckAll(b, old(symbols), depth) == Some((n, symbols))
      decreases b, 1
    {
      n := Done;
      if b.Cons? {
        var h := CheckStatement(b.head);
        if failed { return; }
        var t := CheckStatements(b.tail);
        n := More(h, t);
      }
    }

    /** One top-level item. */
    method CheckItem(t: Top) returns (n: TopNode)
      requires !failed && depth == 0
      modifies this
      ensures depth == 0 && (failed <==> CheckTop(t, old(symbols)) == None)
      ensures !failed ==> CheckTop(t, old(symbols)) == Some((n, symbols))
    {
      match t {
        case Plain(s) =>
          var h := CheckStatement(s);
          n := PlainNode(h);
        case Fun(params, body) =>
          n := FunNode(params, Done);
          if !Distinct(params) {
            failed := true;
            return;
          }
          var outer := |symbols|;
          depth := 1;
          symbols := symbols + ParamSyms(params);
          var b := CheckStatements(body);
          Discard(outer);
          depth := 0;
          assert !failed ==> symbols == old(symbols);
          n := FunNode(params, b);
      }
    }

    /** Accepts exactly the programs that lexical scoping accepts, and lowers them alike. */
    method CheckProgram(p: seq<Top>) returns (hir: seq<TopNode>)
      requires symbols == [] && depth == 0 && !failed
      modifies this
      ensures failed <==> LexProgram(p) == None
      ensures !failed ==> hir == LexProgram(p).value.hir
    {
      hir := [];
      for i := 0 to |p|
        invariant !failed && depth == 0 && CheckTops(p[..i]) == Some((hir, symbols))
      {
        assert p[..i + 1][..i] == p[..i];
        var h := CheckItem(p[i]);
        if failed {
          NoTops(p, i + 1);
          CheckerIsLexical(p, |GlobalNames(p)|);
          return;
        }
        hir := hir + [h];
      }
      assert p[..|p|] == p;
      CheckerIsLexical(p, |GlobalNames(p)|);
    }
  }

  lemma {:induction false} NoTops(p: seq<Top>, n: nat)
    requires n <= |p| && CheckTops(p[..n]) == None
    ensures CheckTops(p) == None
    decreases |p|
  {
    if n < |p| {
      assert p[..|p| - 1][..n] == p[..n];
      NoTops(p[..|p| - 1], n);
    } else {
      assert p[..n] == p;
    }
  }
}
