/** The resolver of the HIR: a stack of symbols with storage keys (resolver_find,
    resolver_declare, resolver_bind_expr and resolve_hir_symbols in src/compiler/ir_lower.c). */
module ScopeResolver {
  import opened Options
  import opened Scopes

  datatype Symbol = Symbol(name: string, key: string, depth: nat)

  type Table = seq<Symbol>

  /** The last symbol of a name, or -1. */
  function Last(rs: Table, x: string): (i: int)
    ensures i == -1 || (0 <= i < |rs| && rs[i].name == x && forall j :: i < j < |rs| ==> rs[j].name != x)
    ensures i == -1 ==> forall j :: 0 <= j < |rs| ==> rs[j].name != x
  {
    if rs == [] then -1
    else if rs[|rs| - 1].name == x then |rs| - 1
    else Last(rs[..|rs| - 1], x)
  }

  /** Removes the symbols of a depth from the end. */
  function Pop(rs: Table, depth: nat): Table {
    if rs != [] && rs[|rs| - 1].depth >= depth then Pop(rs[..|rs| - 1], depth) else rs
  }

  predicate Known(rs: Table, names: Names) {
    forall i :: 0 <= i < |names| ==> Last(rs, names[i]) != -1
  }

  function KeysIn(rs: Table, names: Names): Names
    requires Known(rs, names)
  {
    seq(|names|, i requires 0 <= i < |names| => rs[Last(rs, names[i])].key)
  }

  // ---- What the resolver does ----

  datatype Resolved = Resolved(out: Node, table: Table, next: nat)

  datatype ResolvedAll = ResolvedAll(out: Nodes, table: Table, next: nat)

  function Resolve(n: Node, rs: Table, depth: nat, next: nat): Option<Resolved>
    decreases n, 1
  {
    match n
    case Decl(x, value) =>
      if !Known(rs, value) then None
      else Some(Resolved(Decl(Key(next, x), KeysIn(rs, value)), rs + [Symbol(x, Key(next, x), depth)], next + 1))
    case Reassign(x, value) =>
      if !Known(rs, value) || Last(rs, x) == -1 then None
      else Some(Resolved(Reassign(rs[Last(rs, x)].key, KeysIn(rs, value)), rs, next))
    case Uses(names) => if Known(rs, names) then Some(Resolved(Uses(KeysIn(rs, names)), rs, next)) else None
    case Branch(cond, yes, no) => if Known(rs, cond) then ResolveBranch(cond, yes, no, rs, depth, next) else None
    case Loop(cond, body) => if Known(rs, cond) then ResolveLoop(cond, body, rs, depth, next) else None
    case Block(body) => ResolveBlock(body, rs, depth, next)
  }

  /** The symbols of each arm are popped by their depth. */
  function ResolveBranch(cond: Names, yes: Nodes, no: Nodes, rs: Table, depth: nat, next: nat): Option<Resolved>
    requires Known(rs, cond)
    decreases Branch(cond, yes, no), 0
  {
    match ResolveAll(yes, rs, depth + 1, next)
    case None => None
    case Some(y) =>
      match ResolveAll(no, Pop(y.table, depth + 1), depth + 1, y.next)
      case None => None
      case Some(n) => Some(Resolved(Branch(KeysIn(rs, cond), y.out, n.out), Pop(n.table, depth + 1), n.next))
  }

  function ResolveLoop(cond: Names, body: Nodes, rs: Table, depth: nat, next: nat): Option<Resolved>
    requires Known(rs, cond)
    decreases Loop(cond, body), 0
  {
    match ResolveAll(body, rs, depth + 1, next)
    case None => None
    case Some(b) => Some(Resolved(Loop(KeysIn(rs, cond), b.out), Pop(b.table, depth + 1), b.next))
  }

  /** A statement container, as unsafe blocks become, opens no scope. */
  function ResolveBlock(body: Nodes, rs: Table, depth: nat, next: nat): Option<Resolved>
    decreases Block(body), 0
  {
    match ResolveAll(body, rs, depth, next)
    case None => None
    case Some(b) => Some(Resolved(Block(b.out), b.table, b.next))
  }

  function ResolveAll(ns: Nodes, rs: Table, depth: nat, next: nat): Option<ResolvedAll>
    decreases ns, 0
  {
    match ns
    case Done => Some(ResolvedAll(Done, rs, next))
    case More(n, tail) =>
      match Resolve(n, rs, depth, next)
      case None => None
      case Some(h) =>
        match ResolveAll(tail, h.table, depth, h.next)
        case None => None
        case Some(t) => Some(ResolvedAll(More(h.out, t.out), t.table, t.next))
  }

  // ---- How the stack relates to lexical scoping ----

  /** The key is that of a declaration of the name with a number in a range. */
  ghost predicate Numbered(key: string, x: string, lo: nat, hi: nat) {
    exists i :: lo <= i < hi && key == Key(i, x)
  }

  /** The stack finds every name in `w`, and the right declaration unless the name is stale. */
  ghost predicate Follows(w: map<string, string>, stale: set<string>, rs: Table, next: nat, depth: nat) {
    && (forall x :: x in w ==> Last(rs, x) != -1 && (rs[Last(rs, x)].key == w[x] <==> x !in stale) && Numbered(w[x], x, 0, next))
    && (forall i :: 0 <= i < |rs| ==> rs[i].depth <= depth)
  }

  /** New symbols of a depth, with numbers in a range. */
  ghost predicate Extends(rs: Table, rs1: Table, depth: nat, lo: nat, hi: nat) {
    && rs <= rs1 && lo <= hi
    && forall i :: |rs| <= i < |rs1| ==> rs1[i].depth == depth && Numbered(rs1[i].key, rs1[i].name, lo, hi)
  }

  /** Names declared by the block have new symbols. */
  ghost predicate Declares(rs: Table, rs1: Table, names: set<string>) {
    forall x :: x in names ==> Last(rs1, x) >= |rs|
  }

  lemma {:induction false} LastPush(rs: Table, s: Symbol, x: string)
    ensures Last(rs + [s], x) == if s.name == x then |rs| else Last(rs, x)
  {
    assert (rs + [s])[..|rs|] == rs;
  }

  /** A later symbol of the name is the one that is found. */
  lemma {:induction false} LastLater(a: Table, b: Table, x: string)
    requires a <= b
    ensures Last(b, x) >= Last(a, x) && (Last(b, x) < |a| ==> Last(b, x) == Last(a, x))
  {
  }

  lemma {:induction false} PopNew(rs: Table, rs1: Table, depth: nat)
    requires rs <= rs1 && (forall i :: |rs| <= i < |rs1| ==> rs1[i].depth >= depth) && (forall i :: 0 <= i < |rs| ==> rs[i].depth < depth)
    ensures Pop(rs1, depth) == rs
    decreases |rs1|
  {
    if |rs1| > |rs| {
      PopNew(rs, rs1[..|rs1| - 1], depth);
    } else {
      assert rs1 == rs;
    }
  }

  lemma {:induction false} NumberedWider(key: string, x: string, lo: nat, hi: nat, lo1: nat, hi1: nat)
    requires Numbered(key, x, lo, hi) && lo1 <= lo && hi <= hi1
    ensures Numbered(key, x, lo1, hi1)
  {
  }

  lemma {:induction false} NumberedApart(key: string, x: string, mid: nat, hi: nat, other: string)
    requires Numbered(key, x, mid, hi) && Numbered(other, x, 0, mid)
    ensures key != other
  {
    if key == other {
      var i :| mid <= i < hi && key == Key(i, x);
      var j :| 0 <= j < mid && other == Key(j, x);
      KeyInjective(i, x, j, x);
    }
  }

  lemma {:induction false} ExtendsTrans(a: Table, b: Table, c: Table, depth: nat, lo: nat, mid: nat, hi: nat)
    requires Extends(a, b, depth, lo, mid) && Extends(b, c, depth, mid, hi)
    ensures Extends(a, c, depth, lo, hi)
  {
    forall i | |a| <= i < |c| ensures c[i].depth == depth && Numbered(c[i].key, c[i].name, lo, hi) {
      if i < |b| {
        assert c[i] == b[i];
        NumberedWider(b[i].key, b[i].name, lo, mid, lo, hi);
      } else {
        NumberedWider(c[i].key, c[i].name, mid, hi, lo, hi);
      }
    }
  }

  /** Names: found, and right exactly when none is stale. */
  lemma {:induction false} NamesResolve(names: Names, sc: Scope, w: map<string, string>, rs: Table, depth: nat)
    requires Visible(sc.env, names) && Within(sc.env, w) && Follows(w, sc.stale, rs, sc.next, depth)
    ensures Known(rs, names) && (KeysIn(rs, names) == KeysOf(sc.env, names) <==> Fresh(sc, names))
  {
    forall i | 0 <= i < |names| ensures Last(rs, names[i]) != -1 { assert names[i] in w; }
    var a, b := KeysIn(rs, names), KeysOf(sc.env, names);
    if Fresh(sc, names) {
      forall i | 0 <= i < |names| ensures a[i] == b[i] { assert names[i] in w && names[i] !in sc.stale; }
      assert a == b;
    }
    if a == b {
      forall i | 0 <= i < |names| ensures names[i] !in sc.stale { assert a[i] == b[i] && names[i] in w; }
    }
  }

  ghost predicate Within(env: map<string, string>, w: map<string, string>) {
    forall x :: x in env ==> x in w && w[x] == env[x]
  }

  /** What is visible now, over what was known before: globals declared later are on the
      stack from the start. */
  function Over(w: map<string, string>, env: map<string, string>): map<string, string> {
    w + env
  }

  /** The resolver has done what the reference did, except where a stale name occurred. */
  ghost predicate Matches(r: Option<Resolved>, b: Bound, sc: Scope, w: map<string, string>, rs: Table, depth: nat) {
    && r.Some? && r.value.next == b.sc.next && Extends(rs, r.value.table, depth, sc.next, b.sc.next)
    && Follows(Over(w, b.sc.env), b.sc.stale, r.value.table, b.sc.next, depth)
    && Declares(rs, r.value.table, b.sc.own - sc.own)
    && (b.sc.clean <==> sc.clean && r.value.out == b.out)
  }

  ghost predicate MatchesAll(r: Option<ResolvedAll>, b: BoundAll, sc: Scope, w: map<string, string>, rs: Table, depth: nat) {
    && r.Some? && r.value.next == b.sc.next && Extends(rs, r.value.table, depth, sc.next, b.sc.next)
    && Follows(Over(w, b.sc.env), b.sc.stale, r.value.table, b.sc.next, depth)
    && Declares(rs, r.value.table, b.sc.own - sc.own)
    && (b.sc.clean <==> sc.clean && r.value.out == b.out)
  }

  lemma {:induction false} BindMatches(x: string, annotated: bool, value: Names, sc: Scope, w: map<string, string>, rs: Table, depth: nat)
    requires LexBind(x, annotated, value, sc).Some? && Within(sc.env, w) && Follows(w, sc.stale, rs, sc.next, depth)
    ensures var b := LexBind(x, annotated, value, sc).value; Matches(Resolve(b.hir, rs, depth, sc.next), b, sc, w, rs, depth)
  {
    NamesResolve(value, sc, w, rs, depth);
    if !annotated && x in sc.env {
      ReassignMatches(x, value, sc, w, rs, depth);
    } else {
      NewMatches(x, annotated, value, sc, w, rs, depth);
    }
  }

  lemma {:induction false} NewMatches(x: string, annotated: bool, value: Names, sc: Scope, w: map<string, string>, rs: Table, depth: nat)
    requires Visible(sc.env, value) && !(annotated && x in sc.own) && (annotated || x !in sc.env)
    requires Within(sc.env, w) && Follows(w, sc.stale, rs, sc.next, depth)
    requires Known(rs, value) && (KeysIn(rs, value) == KeysOf(sc.env, value) <==> Fresh(sc, value))
    ensures var b := LexBind(x, annotated, value, sc).value; Matches(Resolve(b.hir, rs, depth, sc.next), b, sc, w, rs, depth)
  {
    DeclMatches(x, sc, w, rs, depth);
  }

  lemma {:induction false} ReassignMatches(x: string, value: Names, sc: Scope, w: map<string, string>, rs: Table, depth: nat)
    requires Visible(sc.env, value) && x in sc.env && Within(sc.env, w) && Follows(w, sc.stale, rs, sc.next, depth)
    requires Known(rs, value) && (KeysIn(rs, value) == KeysOf(sc.env, value) <==> Fresh(sc, value))
    ensures var b := LexBind(x, false, value, sc).value; Matches(Resolve(b.hir, rs, depth, sc.next), b, sc, w, rs, depth)
  {
    assert x in w && w[x] == sc.env[x];
    OverSame(w, sc.env);
  }

  /** A new symbol on top. */
  lemma {:induction false} DeclMatches(x: string, sc: Scope, w: map<string, string>, rs: Table, depth: nat)
    requires Within(sc.env, w) && Follows(w, sc.stale, rs, sc.next, depth)
    ensures var rs1, env := rs + [Symbol(x, Key(sc.next, x), depth)], sc.env[x := Key(sc.next, x)];
      && Follows(Over(w, env), sc.stale - {x}, rs1, sc.next + 1, depth)
      && Extends(rs, rs1, depth, sc.next, sc.next + 1) && Declares(rs, rs1, {x})
  {
    var s := Symbol(x, Key(sc.next, x), depth);
    var rs1, w1 := rs + [s], Over(w, sc.env[x := s.key]);
    assert Numbered(s.key, x, sc.next, sc.next + 1);
    forall y | y in w1
      ensures Last(rs1, y) != -1 && (rs1[Last(rs1, y)].key == w1[y] <==> y !in sc.stale - {x}) && Numbered(w1[y], y, 0, sc.next + 1)
    {
      DeclFollows(x, y, sc, w, rs, depth);
    }
    LastPush(rs, s, x);
  }

  lemma {:induction false} DeclFollows(x: string, y: string, sc: Scope, w: map<string, string>, rs: Table, depth: nat)
    requires Within(sc.env, w) && Follows(w, sc.stale, rs, sc.next, depth) && (y == x || y in w)
    ensures var rs1, w1 := rs + [Symbol(x, Key(sc.next, x), depth)], Over(w, sc.env[x := Key(sc.next, x)]);
      y in w1 && Last(rs1, y) != -1 && (rs1[Last(rs1, y)].key == w1[y] <==> y !in sc.stale - {x}) && Numbered(w1[y], y, 0, sc.next + 1)
  {
    var s := Symbol(x, Key(sc.next, x), depth);
    LastPush(rs, s, y);
    if y != x { NumberedWider(w[y], y, 0, sc.next, 0, sc.next + 1); }
  }

  lemma {:induction false} FollowsDeeper(w: map<string, string>, stale: set<string>, rs: Table, next: nat, depth: nat, next1: nat, depth1: nat)
    requires Follows(w, stale, rs, next, depth) && next <= next1 && depth <= depth1
    ensures Follows(w, stale, rs, next1, depth1)
  {
    forall x | x in w ensures Numbered(w[x], x, 0, next1) { NumberedWider(w[x], x, 0, next, 0, next1); }
  }

  lemma {:induction false} OverSame(w: map<string, string>, env: map<string, string>)
    requires Within(env, w)
    ensures Over(w, env) == w
  {
  }

  /** A block of its own depth leaves the stack as it was. */
  lemma {:induction false} Popped(rs: Table, rs1: Table, depth: nat, lo: nat, hi: nat)
    requires Extends(rs, rs1, depth + 1, lo, hi) && forall i :: 0 <= i < |rs| ==> rs[i].depth <= depth
    ensures Pop(rs1, depth + 1) == rs
  {
    PopNew(rs, rs1, depth + 1);
  }

  lemma {:induction false} StmtMatches(s: Stmt, sc: Scope, w: map<string, string>, rs: Table, depth: nat)
    requires LexStmt(s, sc).Some? && Within(sc.env, w) && Follows(w, sc.stale, rs, sc.next, depth)
    ensures var b := LexStmt(s, sc).value; Matches(Resolve(b.hir, rs, depth, sc.next), b, sc, w, rs, depth)
    decreases s, 2
  {
    match s
    case Bind(x, annotated, value) => BindMatches(x, annotated, value, sc, w, rs, depth);
    case Use(names) =>
      NamesResolve(names, sc, w, rs, depth);
      OverSame(w, sc.env);
    case If(cond, yes, no) =>
      NamesResolve(cond, sc, w, rs, depth);
      IfMatches(cond, yes, no, sc, w, rs, depth);
    case While(cond, body) =>
      NamesResolve(cond, sc, w, rs, depth);
      LoopMatches(cond, body, sc, w, rs, depth);
    case Unsafe(body) => UnsafeMatches(body, sc, w, rs, depth);
  }

  lemma {:induction false} IfMatches(cond: Names, yes: Stmts, no: Stmts, sc: Scope, w: map<string, string>, rs: Table, depth: nat)
    requires Visible(sc.env, cond) && LexIf(cond, yes, no, Reading(sc, cond)).Some? && Within(sc.env, w)
    requires Follows(w, sc.stale, rs, sc.next, depth) && Known(rs, cond) && (KeysIn(rs, cond) == KeysOf(sc.env, cond) <==> Fresh(sc, cond))
    ensures var b := LexIf(cond, yes, no, Reading(sc, cond)).value; Matches(Resolve(b.hir, rs, depth, sc.next), b, sc, w, rs, depth)
    decreases If(cond, yes, no), 0
  {
    var r := Reading(sc, cond);
    var y := LexAll(yes, Inner(r)).value;
    FollowsDeeper(w, sc.stale, rs, sc.next, depth, sc.next, depth + 1);
    AllMatch(yes, Inner(r), w, rs, depth + 1);
    AllGrows(yes, Inner(r));
    var ry := ResolveAll(y.hir, rs, depth + 1, sc.next).value;
    Popped(rs, ry.table, depth, sc.next, y.sc.next);
    var mid := r.(next := y.sc.next, clean := y.sc.clean);
    var n := LexAll(no, Inner(mid)).value;
    FollowsDeeper(w, sc.stale, rs, sc.next, depth, y.sc.next, depth + 1);
    AllMatch(no, Inner(mid), w, rs, depth + 1);
    AllGrows(no, Inner(mid));
    var rn := ResolveAll(n.hir, rs, depth + 1, y.sc.next).value;
    Popped(rs, rn.table, depth, y.sc.next, n.sc.next);
    FollowsDeeper(w, sc.stale, rs, sc.next, depth, n.sc.next, depth);
    OverSame(w, sc.env);
  }

  lemma {:induction false} LoopMatches(cond: Names, body: Stmts, sc: Scope, w: map<string, string>, rs: Table, depth: nat)
    requires Visible(sc.env, cond) && LexLoop(cond, body, Reading(sc, cond)).Some? && Within(sc.env, w)
    requires Follows(w, sc.stale, rs, sc.next, depth) && Known(rs, cond) && (KeysIn(rs, cond) == KeysOf(sc.env, cond) <==> Fresh(sc, cond))
    ensures var b := LexLoop(cond, body, Reading(sc, cond)).value; Matches(Resolve(b.hir, rs, depth, sc.next), b, sc, w, rs, depth)
    decreases While(cond, body), 0
  {
    var r := Reading(sc, cond);
    var b := LexAll(body, Inner(r)).value;
    FollowsDeeper(w, sc.stale, rs, sc.next, depth, sc.next, depth + 1);
    AllMatch(body, Inner(r), w, rs, depth + 1);
    AllGrows(body, Inner(r));
    var rb := ResolveAll(b.hir, rs, depth + 1, sc.next).value;
    Popped(rs, rb.table, depth, sc.next, b.sc.next);
    FollowsDeeper(w, sc.stale, rs, sc.next, depth, b.sc.next, depth);
    OverSame(w, sc.env);
  }

  /** The symbols of an unsafe block stay: they hide what was visible before. */
  lemma {:induction false} UnsafeMatches(body: Stmts, sc: Scope, w: map<string, string>, rs: Table, depth: nat)
    requires LexUnsafe(body, sc).Some? && Within(sc.env, w) && Follows(w, sc.stale, rs, sc.next, depth)
    ensures var b := LexUnsafe(body, sc).value; Matches(Resolve(b.hir, rs, depth, sc.next), b, sc, w, rs, depth)
    decreases Unsafe(body), 0
  {
    var b := LexAll(body, Inner(sc)).value;
    AllMatch(body, Inner(sc), w, rs, depth);
    AllGrows(body, Inner(sc));
    var rb := ResolveAll(b.hir, rs, depth, sc.next).value;
    StaleAfter(b.sc, sc, w, rs, rb.table, depth);
    OverSame(w, sc.env);
  }

  lemma {:induction false} StaleAfter(after: Scope, sc: Scope, w: map<string, string>, rs: Table, rs1: Table, depth: nat)
    requires Within(sc.env, w) && Follows(w, sc.stale, rs, sc.next, depth) && Grows(Inner(sc), after)
    requires Extends(rs, rs1, depth, sc.next, after.next) && Declares(rs, rs1, after.own)
    requires Follows(Over(w, after.env), after.stale, rs1, after.next, depth)
    ensures Follows(w, after.stale + after.own, rs1, after.next, depth)
  {
    var w1 := Over(w, after.env);
    forall x | x in w
      ensures Last(rs1, x) != -1 && (rs1[Last(rs1, x)].key == w[x] <==> x !in after.stale + after.own) && Numbered(w[x], x, 0, after.next)
    {
      NumberedWider(w[x], x, 0, sc.next, 0, after.next);
      assert x in w1;
      if x in after.own {
        var i := Last(rs1, x);
        assert i >= |rs| && rs1[i].name == x;
        NumberedApart(rs1[i].key, x, sc.next, after.next, w[x]);
      } else {
        assert x in after.env ==> x in sc.env && after.env[x] == sc.env[x] == w[x];
        assert w1[x] == w[x];
      }
    }
  }

  lemma {:induction false} AllMatch(b: Stmts, sc: Scope, w: map<string, string>, rs: Table, depth: nat)
    requires LexAll(b, sc).Some? && Within(sc.env, w) && Follows(w, sc.stale, rs, sc.next, depth)
    ensures var r := LexAll(b, sc).value; MatchesAll(ResolveAll(r.hir, rs, depth, sc.next), r, sc, w, rs, depth)
    decreases b, 1
  {
    if b.Nil? {
      OverSame(w, sc.env);
    } else {
      var h := LexStmt(b.head, sc).value;
      StmtMatches(b.head, sc, w, rs, depth);
      StmtGrows(b.head, sc);
      var rh := Resolve(h.hir, rs, depth, sc.next).value;
      AllMatch(b.tail, h.sc, Over(w, h.sc.env), rh.table, depth);
      AllGrows(b.tail, h.sc);
      var t := LexAll(b.tail, h.sc).value;
      ConsMatches(b, h, t, rh, ResolveAll(t.hir, rh.table, depth, h.sc.next).value, sc, w, rs, depth);
    }
  }

  /** A statement and the rest of its block. */
  lemma {:induction false} ConsMatches(b: Stmts, h: Bound, t: BoundAll, rh: Resolved, rt: ResolvedAll, sc: Scope, w: map<string, string>,
                                       rs: Table, depth: nat)
    requires b.Cons? && LexStmt(b.head, sc) == Some(h) && LexAll(b.tail, h.sc) == Some(t) && Grows(sc, h.sc) && Grows(h.sc, t.sc)
    requires Resolve(h.hir, rs, depth, sc.next) == Some(rh) && Matches(Some(rh), h, sc, w, rs, depth)
    requires ResolveAll(t.hir, rh.table, depth, h.sc.next) == Some(rt) && MatchesAll(Some(rt), t, h.sc, Over(w, h.sc.env), rh.table, depth)
    ensures var r := LexAll(b, sc).value; MatchesAll(ResolveAll(r.hir, rs, depth, sc.next), r, sc, w, rs, depth)
  {
    ExtendsTrans(rs, rh.table, rt.table, depth, sc.next, h.sc.next, t.sc.next);
    OverTwice(w, h.sc, t.sc);
    DeclaresTrans(rs, rh.table, rt.table, h.sc.own - sc.own, t.sc.own - h.sc.own, t.sc.own - sc.own);
  }

  lemma {:induction false} DeclaresTrans(a: Table, b: Table, c: Table, xs: set<string>, ys: set<string>, zs: set<string>)
    requires a <= b <= c && Declares(a, b, xs) && Declares(b, c, ys) && zs <= xs + ys
    ensures Declares(a, c, zs)
  {
    forall x | x in zs ensures Last(c, x) >= |a| { LastLater(b, c, x); }
  }

  /** Names stay in the environment. */
  lemma {:induction false} OverTwice(w: map<string, string>, b: Scope, c: Scope)
    requires b.env.Keys <= c.env.Keys
    ensures Over(Over(w, b.env), c.env) == Over(w, c.env)
  {
  }

  // ---- Whole programs ----

  /** The names that top-level declarations predeclare. */
  function DeclNames(hir: seq<TopNode>): seq<string> {
    if hir == [] then []
    else
      var init, last := DeclNames(hir[..|hir| - 1]), hir[|hir| - 1];
      if last.PlainNode? && last.n.Decl? then init + [last.n.x] else init
  }

  /** Symbols of a depth with consecutive numbers. */
  function SymbolsOf(names: seq<string>, next: nat, depth: nat): Table {
    seq(|names|, i requires 0 <= i < |names| => Symbol(names[i], Key(next + i, names[i]), depth))
  }

  /** The first of the first `n` symbols with a name, or `n`. */
  function FirstOf(rs: Table, n: nat, x: string, i: nat): (r: nat)
    requires i <= n <= |rs|
    ensures i <= r <= n && (r < n ==> rs[r].name == x) && forall j :: i <= j < r ==> rs[j].name != x
    decreases n - i
  {
    if i == n || rs[i].name == x then i else FirstOf(rs, n, x, i + 1)
  }

  /** One top-level item; the first `g` symbols are the globals. */
  function ResolveTop(t: TopNode, rs: Table, g: nat, next: nat): Option<(TopNode, Table, nat)>
    requires g <= |rs|
  {
    match t
    case PlainNode(n) =>
      if n.Decl? then
        var i := FirstOf(rs, g, n.x, 0);
        if i == g || !Known(rs, n.value) then None else Some((PlainNode(Decl(rs[i].key, KeysIn(rs, n.value))), rs, next))
      else
        (match Resolve(n, rs, 0, next) case None => None case Some(r) => Some((PlainNode(r.out), r.table, r.next)))
    case FunNode(params, body) =>
      match ResolveAll(body, rs + SymbolsOf(params, next, 1), 1, next + |params|)
      case None => None
      case Some(r) => Some((FunNode(ParamKeys(params, next), r.out), rs, r.next))
  }

  function ResolveTops(hir: seq<TopNode>, globals: Table): (r: Option<(seq<TopNode>, Table, nat)>)
    ensures r.Some? ==> globals <= r.value.1
  {
    if hir == [] then Some(([], globals, |globals|))
    else match ResolveTops(hir[..|hir| - 1], globals)
      case None => None
      case Some((out, rs, next)) =>
        match ResolveTop(hir[|hir| - 1], rs, |globals|, next)
        case None => None
        case Some((o, rs1, next1)) => if globals <= rs1 then Some((out + [o], rs1, next1)) else None
  }

  function ResolveProgram(hir: seq<TopNode>): Option<seq<TopNode>> {
    match ResolveTops(hir, SymbolsOf(DeclNames(hir), 0, 0))
    case None => None
    case Some((out, _, _)) => Some(out)
  }

  /** The keys of all globals. */
  function GlobalKeys(names: seq<string>): map<string, string> {
    WithParams(names, map[], 0)
  }

  lemma {:induction false} KeysAt(names: seq<string>, env: map<string, string>, next: nat, i: nat)
    requires Distinct(names) && i < |names|
    ensures names[i] in WithParams(names, env, next) && WithParams(names, env, next)[names[i]] == Key(next + i, names[i])
    decreases |names|
  {
    if i < |names| - 1 { KeysAt(names[..|names| - 1], env, next, i); }
  }

  lemma {:induction false} KeysOther(names: seq<string>, env: map<string, string>, next: nat, x: string)
    requires x !in names
    ensures (x in WithParams(names, env, next) <==> x in env) && (x in env ==> WithParams(names, env, next)[x] == env[x])
    decreases |names|
  {
    if names != [] { KeysOther(names[..|names| - 1], env, next, x); }
  }

  lemma {:induction false} NamesDistinct(p: seq<Top>)
    ensures Distinct(GlobalNames(p))
    decreases |p|
  {
    if p != [] { NamesDistinct(p[..|p| - 1]); }
  }

  /** Earlier names are a prefix of all names. */
  lemma {:induction false} NamesPrefix(p: seq<Top>, n: nat)
    requires n <= |p|
    ensures GlobalNames(p[..n]) <= GlobalNames(p)
    decreases |p|
  {
    if n < |p| {
      NamesPrefix(p[..|p| - 1], n);
      assert p[..|p| - 1][..n] == p[..n];
    } else {
      assert p[..n] == p;
    }
  }

  /** The state of the reference between top-level items. */
  ghost predicate AtTop(sc: Scope, names: seq<string>) {
    && sc.env.Keys == SetOf(names) && sc.own == sc.env.Keys
    && forall i :: 0 <= i < |names| ==> sc.env[names[i]] == Key(i, names[i])
  }

  lemma {:induction false} TopState(p: seq<Top>, locals: nat)
    requires LexTops(p, locals).Some?
    ensures AtTop(LexTops(p, locals).value.sc, GlobalNames(p)) && DeclNames(LexTops(p, locals).value.hir) == GlobalNames(p)
    decreases |p|
  {
    if p != [] {
      var init, t := p[..|p| - 1], p[|p| - 1];
      TopState(init, locals);
      NamesDistinct(init);
      var b := LexTops(init, locals).value;
      var (h, o, sc1) := LexTop(t, b.sc, |GlobalNames(init)|).value;
      assert (b.hir + [h])[..|b.hir|] == b.hir;
      TopStep(t, b.sc, GlobalNames(init));
    }
  }

  lemma {:induction false} TopStep(t: Top, sc: Scope, names: seq<string>)
    requires AtTop(sc, names) && Distinct(names) && LexTop(t, sc, |names|).Some?
    ensures var (h, _, sc1) := LexTop(t, sc, |names|).value;
      var new_ := t.Plain? && t.s.Bind? && t.s.x !in names;
      (new_ <==> h.PlainNode? && h.n.Decl?) && (new_ ==> h.n.x == t.s.x) && AtTop(sc1, if new_ then names + [t.s.x] else names)
  {
    if t.Plain? && t.s.Bind? && t.s.x !in names {
      var all := names + [t.s.x];
      assert SetOf(all) == SetOf(names) + {t.s.x};
    } else if t.Plain? {
      PlainOwn(t.s, sc);
    }
  }

  lemma {:induction false} GlobalsFollow(names: seq<string>)
    requires Distinct(names)
    ensures Follows(GlobalKeys(names), {}, SymbolsOf(names, 0, 0), |names|, 0)
  {
    var w, rs := GlobalKeys(names), SymbolsOf(names, 0, 0);
    forall x | x in w ensures Last(rs, x) != -1 && rs[Last(rs, x)].key == w[x] && Numbered(w[x], x, 0, |names|) {
      if x !in names { KeysOther(names, map[], 0, x); }
      var i :| 0 <= i < |names| && names[i] == x;
      assert rs[i].name == x;
      var j := Last(rs, x);
      assert names[j] == x;
      KeysAt(names, map[], 0, j);
    }
  }

  /** Within the globals of the whole program. */
  lemma {:induction false} TopWithin(sc: Scope, names: seq<string>, all: seq<string>)
    requires AtTop(sc, names) && names <= all && Distinct(all)
    ensures Within(sc.env, GlobalKeys(all))
  {
    forall x | x in sc.env ensures x in GlobalKeys(all) && GlobalKeys(all)[x] == sc.env[x] {
      var i :| 0 <= i < |names| && names[i] == x;
      assert all[i] == x;
      KeysAt(all, map[], 0, i);
    }
  }

  /** Parameters are declarations at depth 1. */
  lemma {:induction false} ParamsFollow(params: seq<string>, sc: Scope, w: map<string, string>, rs: Table)
    requires Within(sc.env, w) && Follows(w, sc.stale, rs, sc.next, 1)
    ensures var inner := WithinFun(params, sc);
      Follows(Over(w, inner.env), inner.stale, rs + SymbolsOf(params, sc.next, 1), inner.next, 1) && sc.env.Keys <= inner.env.Keys
    decreases |params|
  {
    if params == [] {
      OverSame(w, sc.env);
      assert rs + SymbolsOf(params, sc.next, 1) == rs;
      assert sc.stale - SetOf(params) == sc.stale;
    } else {
      var init, last := params[..|params| - 1], params[|params| - 1];
      ParamsFollow(init, sc, w, rs);
      var mid := WithinFun(init, sc);
      OverWithin(w, mid.env);
      DeclMatches(last, mid, Over(w, mid.env), rs + SymbolsOf(init, sc.next, 1), 1);
      OverTwice(w, mid, WithinFun(params, sc));
      ParamStep(params, sc, rs);
    }
  }

  lemma {:induction false} OverWithin(w: map<string, string>, env: map<string, string>)
    ensures Within(env, Over(w, env))
  {
  }

  /** The last parameter. */
  lemma {:induction false} ParamStep(params: seq<string>, sc: Scope, rs: Table)
    requires params != []
    ensures var init, last := params[..|params| - 1], params[|params| - 1];
      var mid := WithinFun(init, sc);
      && mid.stale - {last} == sc.stale - SetOf(params)
      && rs + SymbolsOf(init, sc.next, 1) + [Symbol(last, Key(mid.next, last), 1)] == rs + SymbolsOf(params, sc.next, 1)
  {
    var init, last := params[..|params| - 1], params[|params| - 1];
    assert params == init + [last];
    assert SetOf(params) == SetOf(init) + {last};
    assert SymbolsOf(init, sc.next, 1) + [Symbol(last, Key(sc.next + |init|, last), 1)] == SymbolsOf(params, sc.next, 1);
  }

  /** What a top-level item does to the stack. */
  ghost predicate TopMatches(r: Option<(TopNode, Table, nat)>, l: (TopNode, TopNode, Scope), sc: Scope, w: map<string, string>, rs: Table) {
    && r.Some? && rs <= r.value.1 && r.value.2 == l.2.next && Follows(w, l.2.stale, r.value.1, l.2.next, 0)
    && (l.2.clean <==> sc.clean && r.value.0 == l.1)
  }

  lemma {:induction false} GlobalMatches(x: string, annotated: bool, value: Names, sc: Scope, names: seq<string>, all: seq<string>, rs: Table)
    requires AtTop(sc, names) && names + [x] <= all && Distinct(all) && x !in sc.env && Visible(sc.env, value)
    requires SymbolsOf(all, 0, 0) <= rs && Follows(GlobalKeys(all), sc.stale, rs, sc.next, 0)
    ensures var t := LexTop(Plain(Bind(x, annotated, value)), sc, |names|).value;
      TopMatches(ResolveTop(t.0, rs, |all|, sc.next), t, sc, GlobalKeys(all), rs)
  {
    TopWithin(sc, names, all);
    NamesResolve(value, sc, GlobalKeys(all), rs, 0);
    assert all[|names|] == x;
    GlobalIndex(all, rs, |names|);
    GlobalWithin(sc, names, all, x);
  }

  lemma {:induction false} GlobalIndex(all: seq<string>, rs: Table, g: nat)
    requires Distinct(all) && g < |all| && SymbolsOf(all, 0, 0) <= rs
    ensures FirstOf(rs, |all|, all[g], 0) == g && rs[g].key == Key(g, all[g])
  {
    var i := FirstOf(rs, |all|, all[g], 0);
    assert rs[g] == SymbolsOf(all, 0, 0)[g];
    assert i < |all| ==> rs[i] == SymbolsOf(all, 0, 0)[i];
  }

  lemma {:induction false} GlobalWithin(sc: Scope, names: seq<string>, all: seq<string>, x: string)
    requires AtTop(sc, names) && names + [x] <= all && Distinct(all)
    ensures Over(GlobalKeys(all), sc.env[x := Key(|names|, x)]) == GlobalKeys(all)
  {
    TopWithin(sc, names, all);
    assert all[|names|] == x;
    KeysAt(all, map[], 0, |names|);
  }

  lemma {:induction false} PlainMatches(s: Stmt, sc: Scope, names: seq<string>, all: seq<string>, rs: Table)
    requires AtTop(sc, names) && names <= all && Distinct(all) && LexStmt(s, sc).Some? && !(s.Bind? && s.x !in sc.env)
    requires Follows(GlobalKeys(all), sc.stale, rs, sc.next, 0) && |all| <= |rs|
    ensures var b := LexStmt(s, sc).value; var t := (PlainNode(b.hir), PlainNode(b.out), b.sc);
      TopMatches(ResolveTop(t.0, rs, |all|, sc.next), t, sc, GlobalKeys(all), rs)
  {
    TopWithin(sc, names, all);
    PlainOwn(s, sc);
    StmtMatches(s, sc, GlobalKeys(all), rs, 0);
    OverSame(GlobalKeys(all), sc.env);
  }

  lemma {:induction false} FunMatches(params: seq<string>, body: Stmts, sc: Scope, names: seq<string>, all: seq<string>, rs: Table)
    requires AtTop(sc, names) && names <= all && Distinct(all) && LexTop(Fun(params, body), sc, |names|).Some?
    requires Follows(GlobalKeys(all), sc.stale, rs, sc.next, 0) && |all| <= |rs|
    ensures var t := LexTop(Fun(params, body), sc, |names|).value;
      TopMatches(ResolveTop(t.0, rs, |all|, sc.next), t, sc, GlobalKeys(all), rs)
  {
    var w, inner := GlobalKeys(all), WithinFun(params, sc);
    TopWithin(sc, names, all);
    FollowsDeeper(w, sc.stale, rs, sc.next, 0, sc.next, 1);
    ParamsFollow(params, sc, w, rs);
    AllMatch(body, inner, Over(w, inner.env), rs + SymbolsOf(params, sc.next, 1), 1);
    AllGrows(body, inner);
    var b := LexAll(body, inner).value;
    FollowsDeeper(w, sc.stale, rs, sc.next, 0, b.sc.next, 0);
    assert LexTop(Fun(params, body), sc, |names|).value
      == (FunNode(params, b.hir), FunNode(ParamKeys(params, sc.next), b.out), sc.(next := b.sc.next, clean := b.sc.clean));
    FunOut(params, b, sc, ResolveAll(b.hir, rs + SymbolsOf(params, sc.next, 1), 1, inner.next).value.out);
  }

  lemma {:induction false} FunOut(params: seq<string>, b: BoundAll, sc: Scope, out: Nodes)
    ensures FunNode(ParamKeys(params, sc.next), out) == FunNode(ParamKeys(params, sc.next), b.out) <==> out == b.out
  {
  }

  lemma {:induction false} OneTop(t: Top, sc: Scope, names: seq<string>, all: seq<string>, rs: Table)
    requires AtTop(sc, names) && Distinct(all) && LexTop(t, sc, |names|).Some? && names <= all
    requires t.Plain? && t.s.Bind? && t.s.x !in names ==> names + [t.s.x] <= all
    requires SymbolsOf(all, 0, 0) <= rs && Follows(GlobalKeys(all), sc.stale, rs, sc.next, 0)
    ensures var l := LexTop(t, sc, |names|).value; TopMatches(ResolveTop(l.0, rs, |all|, sc.next), l, sc, GlobalKeys(all), rs)
  {
    match t
    case Plain(s) =>
      if s.Bind? && s.x !in sc.env {
        GlobalMatches(s.x, s.annotated, s.value, sc, names, all, rs);
      } else {
        PlainMatches(s, sc, names, all, rs);
      }
    case Fun(params, body) => FunMatches(params, body, sc, names, all, rs);
  }

  /** The resolver's table after the first top-level items. */
  lemma {:induction false} TopsMatch(p: seq<Top>, all: seq<string>)
    requires LexTops(p, |all|).Some? && GlobalNames(p) <= all && Distinct(all)
    ensures var b := LexTops(p, |all|).value; var r := ResolveTops(b.hir, SymbolsOf(all, 0, 0));
      && r.Some? && r.value.2 == b.sc.next && Follows(GlobalKeys(all), b.sc.stale, r.value.1, b.sc.next, 0)
      && |r.value.0| == |b.out| && (r.value.0 == b.out <==> b.sc.clean)
    decreases |p|
  {
    var globals := SymbolsOf(all, 0, 0);
    if p == [] {
      GlobalsFollow(all);
    } else {
      var init, t := p[..|p| - 1], p[|p| - 1];
      var b := LexTops(init, |all|).value;
      TopsMatch(init, all);
      TopState(init, |all|);
      var (out, rs, next) := ResolveTops(b.hir, globals).value;
      var l := LexTop(t, b.sc, |GlobalNames(init)|).value;
      OneTop(t, b.sc, GlobalNames(init), all, rs);
      TopSnoc(b, l, out, ResolveTop(l.0, rs, |all|, next).value, globals);
      LexSnoc(p, |all|, b, l);
    }
  }

  lemma {:induction false} LexSnoc(p: seq<Top>, locals: nat, b: BoundTops, l: (TopNode, TopNode, Scope))
    requires p != [] && LexTops(p[..|p| - 1], locals) == Some(b) && LexTop(p[|p| - 1], b.sc, |GlobalNames(p[..|p| - 1])|) == Some(l)
    ensures LexTops(p, locals) == Some(BoundTops(b.hir + [l.0], b.out + [l.1], l.2))
  {
  }

  /** One more item. */
  lemma {:induction false} TopSnoc(b: BoundTops, l: (TopNode, TopNode, Scope), out: seq<TopNode>, r: (TopNode, Table, nat), globals: Table)
    requires ResolveTops(b.hir, globals).Some? && ResolveTops(b.hir, globals).value.0 == out && |out| == |b.out|
    requires ResolveTop(l.0, ResolveTops(b.hir, globals).value.1, |globals|, ResolveTops(b.hir, globals).value.2) == Some(r)
    requires ResolveTops(b.hir, globals).value.1 <= r.1
    ensures ResolveTops(b.hir + [l.0], globals) == Some((out + [r.0], r.1, r.2))
    ensures out + [r.0] == b.out + [l.1] <==> out == b.out && r.0 == l.1
  {
    assert (b.hir + [l.0])[..|b.hir|] == b.hir;
    if out + [r.0] == b.out + [l.1] {
      assert (out + [r.0])[..|out|] == out && (b.out + [l.1])[..|out|] == b.out;
      assert (out + [r.0])[|out|] == r.0;
    }
  }

  /** Every accepted program resolves; and every occurrence gets the key of the declaration
      that lexical scoping binds it to, exactly when no name declared in an unsafe block
      occurs again after the block. */
  lemma {:induction false} ResolverExact(p: seq<Top>)
    requires LexProgram(p).Some?
    ensures var b := LexProgram(p).value;
      ResolveProgram(b.hir).Some? && (ResolveProgram(b.hir).value == b.out <==> b.sc.clean)
  {
    var all := GlobalNames(p);
    NamesDistinct(p);
    TopState(p, |all|);
    TopsMatch(p, all);
  }

  // ---- Unsafe blocks ----

  predicate SafeStmt(s: Stmt)
    decreases s, 1
  {
    match s
    case If(_, yes, no) => SafeAll(yes) && SafeAll(no)
    case While(_, body) => SafeAll(body)
    case Unsafe(_) => false
    case _ => true
  }

  predicate SafeAll(b: Stmts)
    decreases b, 0
  {
    b.Cons? ==> SafeStmt(b.head) && SafeAll(b.tail)
  }

  predicate SafeTops(p: seq<Top>) {
    forall i :: 0 <= i < |p| ==> if p[i].Plain? then SafeStmt(p[i].s) else SafeAll(p[i].body)
  }

  lemma {:induction false} SafeStmtClean(s: Stmt, sc: Scope)
    requires SafeStmt(s) && LexStmt(s, sc).Some? && sc.stale == {} && sc.clean
    ensures LexStmt(s, sc).value.sc.stale == {} && LexStmt(s, sc).value.sc.clean
    decreases s, 1
  {
    match s
    case If(cond, yes, no) =>
      var r := Reading(sc, cond);
      SafeAllClean(yes, Inner(r));
      var y := LexAll(yes, Inner(r)).value;
      SafeAllClean(no, Inner(r.(next := y.sc.next, clean := y.sc.clean)));
    case While(cond, body) => SafeAllClean(body, Inner(Reading(sc, cond)));
    case _ =>
  }

  lemma {:induction false} SafeAllClean(b: Stmts, sc: Scope)
    requires SafeAll(b) && LexAll(b, sc).Some? && sc.stale == {} && sc.clean
    ensures LexAll(b, sc).value.sc.stale == {} && LexAll(b, sc).value.sc.clean
    decreases b, 0
  {
    if b.Cons? {
      SafeStmtClean(b.head, sc);
      SafeAllClean(b.tail, LexStmt(b.head, sc).value.sc);
    }
  }

  /** Without unsafe blocks nothing goes wrong. */
  lemma {:induction false} SafeClean(p: seq<Top>, locals: nat)
    requires SafeTops(p) && LexTops(p, locals).Some?
    ensures LexTops(p, locals).value.sc.stale == {} && LexTops(p, locals).value.sc.clean
    decreases |p|
  {
    if p != [] {
      var t, sc := p[|p| - 1], LexTops(p[..|p| - 1], locals).value.sc;
      SafeClean(p[..|p| - 1], locals);
      if t.Fun? {
        SafeAllClean(t.body, WithinFun(t.params, sc));
      } else if !(t.s.Bind? && t.s.x !in sc.env) {
        SafeStmtClean(t.s, sc);
      }
    }
  }

  /** `x = 0; unsafe { let x: int = 1 } print x` */
  const Leaking: seq<Top> := [
    Plain(Bind("x", false, [])),
    Plain(Unsafe(Cons(Bind("x", true, []), Nil))),
    Plain(Use(["x"]))]

  /** The print shows the variable of the unsafe block. */
  lemma {:induction false} UnsafeLeaks()
    ensures LexProgram(Leaking).Some? && ResolveProgram(LexProgram(Leaking).value.hir).Some?
    ensures ResolveProgram(LexProgram(Leaking).value.hir).value != LexProgram(Leaking).value.out
  {
    var p := Leaking;
    assert p[..0] == [] && p[..1][..0] == [] && p[..2][..1] == p[..1] && p[..3] == p && p[..3][..2] == p[..2];
    assert GlobalNames(p[..1]) == ["x"] && GlobalNames(p[..2]) == ["x"] && GlobalNames(p) == ["x"];
    var s1 := LexTop(p[0], Scope(map[], {}, 1, {}, true), 0).value.2;
    assert LexTops(p[..1], 1).Some? && LexTops(p[..1], 1).value.sc == s1;
    var inner := LexStmt(Bind("x", true, []), Inner(s1)).value.sc;
    assert LexAll(Cons(Bind("x", true, []), Nil), Inner(s1)).value.sc == inner;
    var s2 := LexTop(p[1], s1, 1).value.2;
    assert "x" in s2.stale && "x" in s2.env;
    assert LexTops(p[..2], 1).Some? && LexTops(p[..2], 1).value.sc == s2;
    assert !LexTop(p[2], s2, 1).value.2.clean by { assert !Fresh(s2, ["x"]) by { assert ["x"][0] in s2.stale; } }
    assert LexTops(p, 1).Some? && !LexTops(p, 1).value.sc.clean;
    ResolverExact(p);
  }

  // ---- Numbers ----

  /** The keys of the declarations of a statement, in order. */
  function Declared(n: Node): seq<string>
    decreases n, 1
  {
    match n
    case Decl(x, _) => [x]
    case Branch(_, yes, no) => DeclaredAll(yes) + DeclaredAll(no)
    case Loop(_, body) => DeclaredAll(body)
    case Block(body) => DeclaredAll(body)
    case _ => []
  }

  function DeclaredAll(ns: Nodes): seq<string>
    decreases ns, 0
  {
    if ns.Done? then [] else Declared(ns.head) + DeclaredAll(ns.tail)
  }

  ghost predicate KeyOf(k: string, i: nat) {
    exists x :: k == Key(i, x)
  }

  /** Keys with consecutive numbers. */
  ghost predicate Consecutive(ks: seq<string>, lo: nat, hi: nat) {
    lo + |ks| == hi && forall i :: 0 <= i < |ks| ==> KeyOf(ks[i], lo + i)
  }

  lemma {:induction false} ConsecutiveConcat(a: seq<string>, b: seq<string>, lo: nat, mid: nat, hi: nat)
    requires Consecutive(a, lo, mid) && Consecutive(b, mid, hi)
    ensures Consecutive(a + b, lo, hi)
  {
    forall i | 0 <= i < |a + b| ensures KeyOf((a + b)[i], lo + i) {
      if i >= |a| { assert KeyOf(b[i - |a|], mid + (i - |a|)); }
    }
  }

  /** Every declaration of a block has a number of its own, so keys tell declarations apart. */
  lemma {:induction false} StmtNumbers(s: Stmt, sc: Scope)
    requires LexStmt(s, sc).Some?
    ensures Consecutive(Declared(LexStmt(s, sc).value.out), sc.next, LexStmt(s, sc).value.sc.next)
    decreases s, 1
  {
    match s
    case Bind(x, _, _) => if LexStmt(s, sc).value.out.Decl? { assert KeyOf(Key(sc.next, x), sc.next); }
    case If(cond, yes, no) =>
      var r := Reading(sc, cond);
      AllNumbers(yes, Inner(r));
      var y := LexAll(yes, Inner(r)).value;
      var mid := r.(next := y.sc.next, clean := y.sc.clean);
      AllNumbers(no, Inner(mid));
      var n := LexAll(no, Inner(mid)).value;
      ConsecutiveConcat(DeclaredAll(y.out), DeclaredAll(n.out), sc.next, y.sc.next, n.sc.next);
    case While(cond, body) => AllNumbers(body, Inner(Reading(sc, cond)));
    case Unsafe(body) => AllNumbers(body, Inner(sc));
    case _ =>
  }

  lemma {:induction false} AllNumbers(b: Stmts, sc: Scope)
    requires LexAll(b, sc).Some?
    ensures Consecutive(DeclaredAll(LexAll(b, sc).value.out), sc.next, LexAll(b, sc).value.sc.next)
    decreases b, 0
  {
    if b.Cons? {
      StmtNumbers(b.head, sc);
      var h := LexStmt(b.head, sc).value;
      AllNumbers(b.tail, h.sc);
      var t := LexAll(b.tail, h.sc).value;
      ConsecutiveConcat(Declared(h.out), DeclaredAll(t.out), sc.next, h.sc.next, t.sc.next);
    }
  }

  /** Consecutive keys are different. */
  lemma {:induction false} ConsecutiveDistinct(ks: seq<string>, lo: nat, hi: nat, i: nat, j: nat)
    requires Consecutive(ks, lo, hi) && i < |ks| && j < |ks| && ks[i] == ks[j]
    ensures i == j
  {
    var x :| ks[i] == Key(lo + i, x);
    var y :| ks[j] == Key(lo + j, y);
    KeyInjective(lo + i, x, lo + j, y);
  }

  // ---- The stack in place ----

  predicate AtMost(rs: Table, depth: nat) {
    forall i :: 0 <= i < |rs| ==> rs[i].depth <= depth
  }

  /** Only symbols of the current depth come and go. */
  lemma {:induction false} NodeKeeps(n: Node, rs: Table, depth: nat, next: nat)
    requires AtMost(rs, depth)
    ensures var r := Resolve(n, rs, depth, next); r.Some? ==> rs <= r.value.table && AtMost(r.value.table, depth) && NewAt(rs, r.value.table, depth)
    decreases n, 1
  {
    match n
    case Branch(cond, yes, no) =>
      AllKeeps(yes, rs, depth + 1, next);
      var y := ResolveAll(yes, rs, depth + 1, next);
      if y.Some? {
        PopNew(rs, y.value.table, depth + 1);
        AllKeeps(no, rs, depth + 1, y.value.next);
        var z := ResolveAll(no, rs, depth + 1, y.value.next);
        if z.Some? { PopNew(rs, z.value.table, depth + 1); }
      }
    case Loop(cond, body) =>
      AllKeeps(body, rs, depth + 1, next);
      var b := ResolveAll(body, rs, depth + 1, next);
      if b.Some? { PopNew(rs, b.value.table, depth + 1); }
    case Block(body) => AllKeeps(body, rs, depth, next);
    case _ =>
  }

  predicate NewAt(rs: Table, rs1: Table, depth: nat) {
    forall i :: |rs| <= i < |rs1| ==> rs1[i].depth == depth
  }

  lemma {:induction false} AllKeeps(ns: Nodes, rs: Table, depth: nat, next: nat)
    requires AtMost(rs, depth)
    ensures var r := ResolveAll(ns, rs, depth, next); r.Some? ==> rs <= r.value.table && AtMost(r.value.table, depth) && NewAt(rs, r.value.table, depth)
    decreases ns, 0
  {
    if ns.More? {
      NodeKeeps(ns.head, rs, depth, next);
      var h := Resolve(ns.head, rs, depth, next);
      if h.Some? { AllKeeps(ns.tail, h.value.table, depth, h.value.next); }
    }
  }

  class Resolver {
    var symbols: Table
    var depth: nat
    var nextId: nat
    var error: bool

    constructor ()
      ensures symbols == [] && depth == 0 && nextId == 0 && !error
    {
      symbols, depth, nextId, error := [], 0, 0, false;
    }

    /** resolver_find */
    method FindSymbol(x: string) returns (i: int)
      ensures i == Last(symbols, x)
    {
      i := |symbols| - 1;
      while i >= 0 && symbols[i].name != x
        invariant -1 <= i < |symbols| && forall j :: i < j < |symbols| ==> symbols[j].name != x
      {
        i := i - 1;
      }
    }

    /** resolver_declare */
    method Declare(x: string) returns (key: string)
      modifies this`symbols, this`nextId
      ensures key == Key(old(nextId), x) && nextId == old(nextId) + 1 && symbols == old(symbols) + [Symbol(x, key, depth)]
    {
      key := Key(nextId, x);
      nextId := nextId + 1;
      symbols := symbols + [Symbol(x, key, depth)];
    }

    /** Renames every name that is read. */
    method BindNames(names: Names) returns (out: Names)
      modifies this`error
      ensures error == (old(error) || !Known(symbols, names))
      ensures !error ==> out == KeysIn(symbols, names)
    {
      out := [];
      for k := 0 to |names|
        invariant error == (old(error) || exists j :: 0 <= j < k && Last(symbols, names[j]) == -1)
        invariant !error ==> |out| == k && forall j :: 0 <= j < k ==> Last(symbols, names[j]) != -1 && out[j] == symbols[Last(symbols, names[j])].key
      {
        var i := FindSymbol(names[k]);
        if i < 0 { error := true; } else { out := out + [symbols[i].key]; }
      }
    }

    /** Removes the declarations of the current depth. */
    method PopScope()
      modifies this`symbols
      ensures symbols == Pop(old(symbols), depth)
    {
      while symbols != [] && symbols[|symbols| - 1].depth >= depth
        invariant Pop(symbols, depth) == Pop(old(symbols), depth)
        decreases |symbols|
      {
        symbols := symbols[..|symbols| - 1];
      }
    }

    /** resolver_bind_expr for one statement: the statement with its names replaced, or an
        error. */
    method BindStatement(n: Node) returns (out: Node)
      requires !error
      modifies this
      ensures depth == old(depth)
      ensures error <==> Resolve(n, old(symbols), depth, old(nextId)) == None
      ensures !error ==> Resolve(n, old(symbols), depth, old(nextId)) == Some(Resolved(out, symbols, nextId))
      decreases n, 1
    {
      out := n;
      match n {
        case Decl(x, value) =>
          var names := BindNames(value);
          if error { return; }
          var key := Declare(x);
          out := Decl(key, names);
        case Reassign(x, value) =>
          var names := BindNames(value);
          if error { return; }
          var i := FindSymbol(x);
          if i < 0 { error := true; } else { out := Reassign(symbols[i].key, names); }
        case Uses(names) =>
          var keys := BindNames(names);
          out := Uses(keys);
        case Branch(cond, yes, no) =>
          var keys := BindNames(cond);
          if error { return; }
          out := BindBranch(keys, cond, yes, no);
        case Loop(cond, body) =>
          var keys := BindNames(cond);
          if error { return; }
          depth := depth + 1;
          var b := BindStatements(body);
          if !error { PopScope(); }
          depth := depth - 1;
          out := Loop(keys, b);
        case Block(body) =>
          var b := BindStatements(body);
          out := Block(b);
      }
    }

    method BindBranch(keys: Names, cond: Names, yes: Nodes, no: Nodes) returns (out: Node)
      requires !error && Known(symbols, cond) && keys == KeysIn(symbols, cond)
      modifies this
      ensures depth == old(depth)
      ensures error <==> ResolveBranch(cond, yes, no, old(symbols), depth, old(nextId)) == None
      ensures !error ==> ResolveBranch(cond, yes, no, old(symbols), depth, old(nextId)) == Some(Resolved(out, symbols, nextId))
      decreases Branch(cond, yes, no), 0
    {
      depth := depth + 1;
      var y := BindStatements(yes);
      var z := Done;
      if !error {
        PopScope();
        z := BindStatements(no);
        if !error { PopScope(); }
      }
      depth := depth - 1;
      out := Branch(keys, y, z);
    }

    method BindStatements(ns: Nodes) returns (out: Nodes)
      requires !error
      modifies this
      ensures depth == old(depth)
      ensures error <==> ResolveAll(ns, old(symbols), depth, old(nextId)) == None
      ensures !error ==> ResolveAll(ns, old(symbols), depth, old(nextId)) == Some(ResolvedAll(out, symbols, nextId))
      decreases ns, 0
    {
      out := Done;
      if ns.More? {
        var h := BindStatement(ns.head);
        if error { return; }
        var t := BindStatements(ns.tail);
        out := More(h, t);
      }
    }

    /** The symbols of globals, before anything is resolved. */
    method Predeclare(hir: seq<TopNode>)
      requires symbols == [] && depth == 0 && nextId == 0
      modifies this`symbols, this`nextId
      ensures symbols == SymbolsOf(DeclNames(hir), 0, 0) && nextId == |symbols|
    {
      for i := 0 to |hir|
        invariant symbols == SymbolsOf(DeclNames(hir[..i]), 0, 0) && nextId == |symbols|
      {
        assert hir[..i + 1][..i] == hir[..i];
        if hir[i].PlainNode? && hir[i].n.Decl? {
          var names := DeclNames(hir[..i]);
          var key := Declare(hir[i].n.x);
          assert symbols == SymbolsOf(names + [hir[i].n.x], 0, 0);
        }
      }
      assert hir[..|hir|] == hir;
    }

    /** One top-level item; the first `globals` symbols are the predeclared ones. */
    method BindItem(t: TopNode, globals: nat) returns (out: TopNode)
      requires !error && depth == 0 && globals <= |symbols| && AtMost(symbols, 0)
      modifies this
      ensures depth == 0 && (!error ==> AtMost(symbols, 0)) && (error <==> ResolveTop(t, old(symbols), globals, old(nextId)) == None)
      ensures !error ==> ResolveTop(t, old(symbols), globals, old(nextId)) == Some((out, symbols, nextId))
    {
      out := t;
      match t {
        case PlainNode(n) =>
          if n.Decl? {
            var i := FirstOf(symbols, globals, n.x, 0);
            if i == globals {
              error := true;
              return;
            }
            var names := BindNames(n.value);
            out := PlainNode(Decl(symbols[i].key, names));
          } else {
            NodeKeeps(n, symbols, 0, nextId);
            var h := BindStatement(n);
            out := PlainNode(h);
          }
        case FunNode(params, body) => out := BindFunction(params, body);
      }
    }

    /** Declares the parameters, numbered from the counter on. */
    method DeclareParams(params: seq<string>) returns (names: seq<string>)
      modifies this`symbols, this`nextId
      ensures names == ParamKeys(params, old(nextId)) && nextId == old(nextId) + |params|
      ensures symbols == old(symbols) + SymbolsOf(params, old(nextId), depth)
    {
      names := [];
      for i := 0 to |params|
        invariant nextId == old(nextId) + i && |names| == i && forall k :: 0 <= k < i ==> names[k] == Key(old(nextId) + k, params[k])
        invariant symbols == old(symbols) + SymbolsOf(params, old(nextId), depth)[..i]
      {
        var key := Declare(params[i]);
        names := names + [key];
      }
      assert SymbolsOf(params, old(nextId), depth)[..|params|] == SymbolsOf(params, old(nextId), depth);
    }

    /** A function: its parameters and locals go again when it ends. */
    method BindFunction(params: seq<string>, body: Nodes) returns (out: TopNode)
      requires !error && depth == 0 && AtMost(symbols, 0)
      modifies this
      ensures depth == 0 && (!error ==> AtMost(symbols, 0))
      ensures error <==> ResolveTop(FunNode(params, body), old(symbols), 0, old(nextId)) == None
      ensures !error ==> ResolveTop(FunNode(params, body), old(symbols), 0, old(nextId)) == Some((out, symbols, nextId))
    {
      var base := |symbols|;
      depth := 1;
      var names := DeclareParams(params);
      ghost var inner, next := symbols, nextId;
      AllKeeps(body, inner, 1, next);
      var b := BindStatements(body);
      out := FunNode(names, b);
      depth := 0;
      if !error {
        Shrink(base);
        assert symbols == inner[..base] == old(symbols);
      }
    }

    method Shrink(base: nat)
      requires base <= |symbols|
      modifies this`symbols
      ensures symbols == old(symbols)[..base]
    {
      while |symbols| > base
        invariant base <= |symbols| <= |old(symbols)| && symbols == old(symbols)[..|symbols|]
      {
        symbols := symbols[..|symbols| - 1];
      }
    }

    /** resolve_hir_symbols */
    method ResolveSymbols(hir: seq<TopNode>) returns (out: seq<TopNode>)
      requires symbols == [] && depth == 0 && nextId == 0 && !error
      modifies this
      ensures error <==> ResolveProgram(hir) == None
      ensures !error ==> ResolveProgram(hir) == Some(out)
    {
      Predeclare(hir);
      ghost var globals := symbols;
      var count := |symbols|;
      out := [];
      for i := 0 to |hir|
        invariant !error && depth == 0 && AtMost(symbols, 0) && count == |globals| <= |symbols|
        invariant ResolveTops(hir[..i], globals) == Some((out, symbols, nextId))
      {
        assert hir[..i + 1][..i] == hir[..i];
        ghost var before := symbols;
        TopKeeps(hir[i], before, count, nextId);
        var item := BindItem(hir[i], count);
        if error {
          NoTops(hir, globals, i + 1);
          return;
        }
        out := out + [item];
      }
      assert hir[..|hir|] == hir;
    }
  }

  lemma {:induction false} TopKeeps(t: TopNode, rs: Table, g: nat, next: nat)
    requires g <= |rs| && AtMost(rs, 0)
    ensures ResolveTop(t, rs, g, next).Some? ==> rs <= ResolveTop(t, rs, g, next).value.1
  {
    if t.PlainNode? { NodeKeeps(t.n, rs, 0, next); }
  }

  lemma {:induction false} NoTops(hir: seq<TopNode>, globals: Table, n: nat)
    requires n <= |hir| && ResolveTops(hir[..n], globals) == None
    ensures ResolveTops(hir, globals) == None
    decreases |hir|
  {
    if n < |hir| {
      assert hir[..|hir| - 1][..n] == hir[..n];
      NoTops(hir[..|hir| - 1], globals, n);
    } else {
      assert hir[..n] == hir;
    }
  }
}
