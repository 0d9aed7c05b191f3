/** Names, declarations and blocks, and what lexical scoping makes of them. Expressions are
    the names they read, in order. */
module Scopes {
  import opened Options
  import Syntax

  type Names = seq<string>

  /** `Bind` is `x = e`, or `let x: t = e` when annotated: the first assignment of a name
      declares it, a later one updates it. */
  datatype Stmt =
    | Bind(x: string, annotated: bool, value: Names)
    | Use(names: Names)
    | If(cond: Names, yes: Stmts, no: Stmts)
    | While(cond: Names, body: Stmts)
    | Unsafe(body: Stmts)

  datatype Stmts = Nil | Cons(head: Stmt, tail: Stmts)

  datatype Top = Plain(s: Stmt) | Fun(params: seq<string>, body: Stmts)

  /** Lowered statements: whether a binding declares is decided. */
  datatype Node =
    | Decl(x: string, value: Names)
    | Reassign(x: string, value: Names)
    | Uses(names: Names)
    | Branch(cond: Names, yes: Nodes, no: Nodes)
    | Loop(cond: Names, body: Nodes)
    | Block(body: Nodes)

  datatype Nodes = Done | More(head: Node, tail: Nodes)

  datatype TopNode = PlainNode(n: Node) | FunNode(params: seq<string>, body: Nodes)

  // ---- Storage keys ----

  const Prefix: string := "__vnt_symbol_"

  function Key(i: nat, x: string): string {
    Prefix + (Syntax.Decimal(i) + ("_" + x))
  }

  /** Different declarations have different keys. */
  lemma {:induction false} KeyInjective(i: nat, x: string, j: nat, y: string)
    requires Key(i, x) == Key(j, y)
    ensures i == j && x == y
  {
    var a, b := Syntax.Decimal(i), Syntax.Decimal(j);
    assert Key(i, x)[|Prefix|..] == a + ("_" + x) && Key(j, y)[|Prefix|..] == b + ("_" + y);
    DigitsEnd(a, x, b, y);
    Syntax.DecimalDigits(i);
    Syntax.DecimalDigits(j);
  }

  lemma {:induction false} DigitsEnd(a: string, x: string, b: string, y: string)
    requires a + ("_" + x) == b + ("_" + y)
    requires (forall i :: 0 <= i < |a| ==> '0' <= a[i] <= '9') && (forall i :: 0 <= i < |b| ==> '0' <= b[i] <= '9')
    ensures a == b && x == y
  {
    var s := a + ("_" + x);
    OneEnd(s, |a|, |b|);
    assert a == s[..|a|] && b == s[..|a|] && x == s[|a| + 1..] && y == s[|a| + 1..];
  }

  lemma {:induction false} OneEnd(s: string, i: nat, j: nat)
    requires i < |s| && j < |s| && s[i] == '_' && s[j] == '_'
    requires (forall k :: 0 <= k < i ==> s[k] != '_') && (forall k :: 0 <= k < j ==> s[k] != '_')
    ensures i == j
  {
  }

  // ---- Lexical scoping ----

  /** What is visible, and under which key; what the innermost block declared; the number of
      the next declaration. `stale` are names that an ended unsafe block declared, and
      `clean` says that no such name has occurred since. */
  datatype Scope = Scope(env: map<string, string>, own: set<string>, next: nat, stale: set<string>, clean: bool)

  datatype Bound = Bound(hir: Node, out: Node, sc: Scope)

  datatype BoundAll = BoundAll(hir: Nodes, out: Nodes, sc: Scope)

  predicate Visible(env: map<string, string>, names: Names) {
    forall i :: 0 <= i < |names| ==> names[i] in env
  }

  function KeysOf(env: map<string, string>, names: Names): Names
    requires Visible(env, names)
  {
    seq(|names|, i requires 0 <= i < |names| => env[names[i]])
  }

  predicate Fresh(sc: Scope, names: Names) {
    forall i :: 0 <= i < |names| ==> names[i] !in sc.stale
  }

  /** A block within. */
  function Inner(sc: Scope): Scope {
    sc.(own := {})
  }

  function Reading(sc: Scope, names: Names): Scope {
    sc.(clean := sc.clean && Fresh(sc, names))
  }

  /** A statement with its names resolved; none if a name is not visible or a `let`
      redeclares one of the same block. */
  function LexStmt(s: Stmt, sc: Scope): Option<Bound>
    decreases s, 1
  {
    match s
    case Bind(x, annotated, value) => LexBind(x, annotated, value, sc)
    case Use(names) => if Visible(sc.env, names) then Some(Bound(Uses(names), Uses(KeysOf(sc.env, names)), Reading(sc, names))) else None
    case If(cond, yes, no) => if Visible(sc.env, cond) then LexIf(cond, yes, no, Reading(sc, cond)) else None
    case While(cond, body) => if Visible(sc.env, cond) then LexLoop(cond, body, Reading(sc, cond)) else None
    case Unsafe(body) => LexUnsafe(body, sc)
  }

  function LexBind(x: string, annotated: bool, value: Names, sc: Scope): Option<Bound> {
    if !Visible(sc.env, value) || (annotated && x in sc.own) then None
    else
      var r := Reading(sc, value);
      if !annotated && x in sc.env then
        Some(Bound(Reassign(x, value), Reassign(sc.env[x], KeysOf(sc.env, value)), r.(clean := r.clean && x !in sc.stale)))
      else
        Some(Bound(Decl(x, value), Decl(Key(sc.next, x), KeysOf(sc.env, value)),
                   Scope(sc.env[x := Key(sc.next, x)], sc.own + {x}, sc.next + 1, sc.stale - {x}, r.clean)))
  }

  function LexIf(cond: Names, yes: Stmts, no: Stmts, sc: Scope): Option<Bound>
    requires Visible(sc.env, cond)
    decreases If(cond, yes, no), 0
  {
    match LexAll(yes, Inner(sc))
    case None => None
    case Some(y) =>
      var mid := sc.(next := y.sc.next, clean := y.sc.clean);
      match LexAll(no, Inner(mid))
      case None => None
      case Some(n) =>
        Some(Bound(Branch(cond, y.hir, n.hir), Branch(KeysOf(sc.env, cond), y.out, n.out), mid.(next := n.sc.next, clean := n.sc.clean)))
  }

  function LexLoop(cond: Names, body: Stmts, sc: Scope): Option<Bound>
    requires Visible(sc.env, cond)
    decreases While(cond, body), 0
  {
    match LexAll(body, Inner(sc))
    case None => None
    case Some(b) => Some(Bound(Loop(cond, b.hir), Loop(KeysOf(sc.env, cond), b.out), sc.(next := b.sc.next, clean := b.sc.clean)))
  }

  /** An unsafe block is a block like any other; but what it declares goes stale. */
  function LexUnsafe(body: Stmts, sc: Scope): Option<Bound>
    decreases Unsafe(body), 0
  {
    match LexAll(body, Inner(sc))
    case None => None
    case Some(b) =>
      Some(Bound(Block(b.hir), Block(b.out), sc.(next := b.sc.next, clean := b.sc.clean, stale := b.sc.stale + b.sc.own)))
  }

  function LexAll(b: Stmts, sc: Scope): Option<BoundAll>
    decreases b, 0
  {
    match b
    case Nil => Some(BoundAll(Done, Done, sc))
    case Cons(s, tail) =>
      match LexStmt(s, sc)
      case None => None
      case Some(h) =>
        match LexAll(tail, h.sc)
        case None => None
        case Some(t) => Some(BoundAll(More(h.hir, t.hir), More(h.out, t.out), t.sc))
  }

  // ---- Whole programs ----

  /** The names that top-level bindings introduce, in order. */
  function GlobalNames(p: seq<Top>): seq<string> {
    if p == [] then []
    else
      var init, last := GlobalNames(p[..|p| - 1]), p[|p| - 1];
      if last.Plain? && last.s.Bind? && last.s.x !in init then init + [last.s.x] else init
  }

  function Distinct(xs: seq<string>): bool {
    forall i, j :: 0 <= i < j < |xs| ==> xs[i] != xs[j]
  }

  /** Parameters, numbered from `next` on. */
  function WithParams(params: seq<string>, env: map<string, string>, next: nat): map<string, string> {
    if params == [] then env
    else WithParams(params[..|params| - 1], env, next)[params[|params| - 1] := Key(next + |params| - 1, params[|params| - 1])]
  }

  function ParamKeys(params: seq<string>, next: nat): seq<string> {
    seq(|params|, i requires 0 <= i < |params| => Key(next + i, params[i]))
  }

  function SetOf(xs: seq<string>): set<string> {
    set x | x in xs
  }

  /** The scope of a function's body. */
  function WithinFun(params: seq<string>, sc: Scope): Scope {
    Scope(WithParams(params, sc.env, sc.next), SetOf(params), sc.next + |params|, sc.stale - SetOf(params), sc.clean)
  }

  datatype BoundTops = BoundTops(hir: seq<TopNode>, out: seq<TopNode>, sc: Scope)

  /** One top-level item after `g` globals. A global has the number of its first binding. */
  function LexTop(t: Top, sc: Scope, g: nat): Option<(TopNode, TopNode, Scope)> {
    match t
    case Plain(s) =>
      if s.Bind? && s.x !in sc.env then
        if Visible(sc.env, s.value) then
          Some((PlainNode(Decl(s.x, s.value)), PlainNode(Decl(Key(g, s.x), KeysOf(sc.env, s.value))),
                Reading(sc, s.value).(env := sc.env[s.x := Key(g, s.x)], own := sc.own + {s.x})))
        else None
      else
        (match LexStmt(s, sc)
         case None => None
         case Some(b) => Some((PlainNode(b.hir), PlainNode(b.out), b.sc)))
    case Fun(params, body) =>
      if !Distinct(params) then None
      else match LexAll(body, WithinFun(params, sc))
        case None => None
        case Some(b) =>
          Some((FunNode(params, b.hir), FunNode(ParamKeys(params, sc.next), b.out), sc.(next := b.sc.next, clean := b.sc.clean)))
  }

  function LexTops(p: seq<Top>, locals: nat): Option<BoundTops> {
    if p == [] then Some(BoundTops([], [], Scope(map[], {}, locals, {}, true)))
    else match LexTops(p[..|p| - 1], locals)
      case None => None
      case Some(b) =>
        match LexTop(p[|p| - 1], b.sc, |GlobalNames(p[..|p| - 1])|)
        case None => None
        case Some((h, o, sc)) => Some(BoundTops(b.hir + [h], b.out + [o], sc))
  }

  /** Locals are numbered after all globals. */
  function LexProgram(p: seq<Top>): Option<BoundTops> {
    LexTops(p, |GlobalNames(p)|)
  }

  // ---- What the reference does to its scope ----

  /** Names that the block did not declare mean what they meant. */
  ghost predicate Grows(a: Scope, b: Scope) {
    && a.own <= b.own && a.next <= b.next && a.env.Keys <= b.env.Keys
    && forall x :: x !in b.own ==> (x in a.env <==> x in b.env) && (x in a.env ==> a.env[x] == b.env[x])
  }

  lemma {:induction false} StmtGrows(s: Stmt, sc: Scope)
    requires LexStmt(s, sc).Some?
    ensures Grows(sc, LexStmt(s, sc).value.sc)
    decreases s, 1
  {
    match s
    case If(cond, yes, no) =>
      var r := Reading(sc, cond);
      AllGrows(yes, Inner(r));
      var y := LexAll(yes, Inner(r)).value;
      AllGrows(no, Inner(r.(next := y.sc.next, clean := y.sc.clean)));
    case While(cond, body) => AllGrows(body, Inner(Reading(sc, cond)));
    case Unsafe(body) => AllGrows(body, Inner(sc));
    case _ =>
  }

  /** Branches, loops and unsafe blocks leave the names outside as they were. */
  lemma {:induction false} BlockCloses(s: Stmt, sc: Scope)
    requires LexStmt(s, sc).Some? && !s.Bind?
    ensures var t := LexStmt(s, sc).value.sc; t.env == sc.env && t.own == sc.own
  {
  }

  /** A binding is refused if it reads a name that is not visible, or if it is a `let` of a name
      that its block has declared. It declares if it is a `let` or its name is not visible, and
      then the name means the new variable; otherwise it changes no meaning. */
  lemma {:induction false} BindingSpelled(x: string, annotated: bool, value: Names, sc: Scope)
    ensures var b := LexStmt(Bind(x, annotated, value), sc);
      && (b.None? <==> (exists i :: 0 <= i < |value| && value[i] !in sc.env) || (annotated && x in sc.own))
      && (b.Some? ==>
          && b.value.hir == (if annotated || x !in sc.env then Decl(x, value) else Reassign(x, value))
          && b.value.sc.env == if annotated || x !in sc.env then sc.env[x := Key(sc.next, x)] else sc.env)
  {
  }

  lemma {:induction false} AllGrows(b: Stmts, sc: Scope)
    requires LexAll(b, sc).Some?
    ensures Grows(sc, LexAll(b, sc).value.sc)
    decreases b, 0
  {
    if b.Cons? {
      StmtGrows(b.head, sc);
      AllGrows(b.tail, LexStmt(b.head, sc).value.sc);
    }
  }

  /** At top level only new globals are declared. */
  lemma {:induction false} PlainOwn(s: Stmt, sc: Scope)
    requires LexStmt(s, sc).Some? && sc.own == sc.env.Keys && !(s.Bind? && s.x !in sc.env)
    ensures var b := LexStmt(s, sc).value; b.sc.env == sc.env && b.sc.own == sc.own && !b.hir.Decl?
  {
  }
}
