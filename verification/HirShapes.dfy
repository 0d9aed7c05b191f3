/** Validation accepts exactly the child roles that lowering produces, in any order. */
module HirShapes {
  import opened Operators
  import opened Hir
  import opened HirValidate
  import opened HirOptimizer

  // ---- Counting ----

  lemma {:induction false} CountIs(roles: seq<Role>, r: Role)
    ensures Count(roles, r) == multiset(roles)[r]
  {
    if roles != [] {
      var init, last := roles[..|roles| - 1], roles[|roles| - 1];
      CountIs(init, r);
      assert roles == init + [last];
    }
  }

  /** Only how often each role occurs matters. */
  lemma {:induction false} OrderIrrelevant(op: Op, a: seq<Role>, b: seq<Role>)
    requires multiset(a) == multiset(b) && ShapeOk(op, a)
    ensures ShapeOk(op, b)
  {
    assert |a| == |multiset(a)| == |b|;
    forall r ensures Count(a, r) == Count(b, r) {
      CountIs(a, r);
      CountIs(b, r);
    }
  }

  function Repeat(r: Role, n: nat): seq<Role> {
    seq(n, _ => r)
  }

  lemma {:induction false} RepeatCounts(r: Role, n: nat, q: Role)
    ensures Count(Repeat(r, n), q) == if q == r then n else 0
  {
    if n > 0 {
      RepeatCounts(r, n - 1, q);
      assert Repeat(r, n)[..n - 1] == Repeat(r, n - 1);
    }
  }

  lemma RepeatFirst(r: Role, n: nat)
    ensures n > 0 ==> Repeat(r, n)[0] == r && Repeat(r, n)[1..] == Repeat(r, n - 1)
  {
  }

  lemma {:induction false} CountConcat(a: seq<Role>, b: seq<Role>, q: Role)
    ensures Count(a + b, q) == Count(a, q) + Count(b, q)
  {
    if b == [] {
      assert a + b == a;
    } else {
      assert (a + b)[..|a + b| - 1] == a + b[..|b| - 1];
      CountConcat(a, b[..|b| - 1], q);
    }
  }

  lemma {:induction false} SameCounts(a: seq<Role>, b: seq<Role>)
    requires forall q :: Count(a, q) == Count(b, q)
    ensures multiset(a) == multiset(b)
  {
    forall q ensures multiset(a)[q] == multiset(b)[q] {
      CountIs(a, q);
      CountIs(b, q);
    }
  }

  /** Children of at most three roles have no others. */
  lemma {:induction false} ThreeRoles(roles: seq<Role>, a: Role, b: Role, c: Role, q: Role)
    requires a != b && a != c && b != c && q != a && q != b && q != c
    ensures Count(roles, a) + Count(roles, b) + Count(roles, c) + Count(roles, q) <= |roles|
  {
    if roles != [] { ThreeRoles(roles[..|roles| - 1], a, b, c, q); }
  }

  // ---- Leaves ----

  function Leaves(roles: seq<Role>): Forest {
    if roles == [] then Nil else Cons(0, Null, roles[0], Nil, Leaves(roles[1..]))
  }

  lemma {:induction false} LeavesRoles(roles: seq<Role>)
    ensures RolesOf(Leaves(roles)) == roles && Len(Leaves(roles)) == |roles|
  {
    if roles != [] { LeavesRoles(roles[1..]); }
  }

  lemma {:induction false} RepeatedLeaves(r: Role, n: nat)
    ensures AllRole(Leaves(Repeat(r, n)), r)
  {
    if n > 0 {
      assert Repeat(r, n)[1..] == Repeat(r, n - 1);
      RepeatedLeaves(r, n - 1);
    }
  }

  lemma {:induction false} ThenElseLeaves(a: nat, b: nat)
    ensures ThenElse(Leaves(Repeat(Then, a) + Repeat(Else, b)))
  {
    var all := Repeat(Then, a) + Repeat(Else, b);
    if a > 0 {
      assert all[0] == Then && all[1..] == Repeat(Then, a - 1) + Repeat(Else, b);
      ThenElseLeaves(a - 1, b);
    } else {
      assert all == Repeat(Else, b);
      RepeatedLeaves(Else, b);
      if b > 0 { assert all[1..] == Repeat(Else, b - 1); RepeatedLeaves(Else, b - 1); }
    }
  }

  // ---- The order that lowering uses ----

  function Role1(op: Op): Role {
    match op
    case Program => Statement
    case Print => Value
    case Return => Value
    case Decl(_) => Value
    case Reassign(_) => Value
    case Function(_, _) => Body
    case Call(_) => Argument
    case Array => Element
    case Member(_) => Object
    case Unary(_) => Operand
    case _ => Root
  }

  /** The roles in the order of lowering. */
  function Sorted(op: Op, roles: seq<Role>): seq<Role> {
    match op
    case If => [Condition] + (Repeat(Then, Count(roles, Then)) + Repeat(Else, Count(roles, Else)))
    case While => [Condition] + Repeat(Body, Count(roles, Body))
    case Index => [Object, IndexOf]
    case Assign => [Target, Value]
    case Binary(_) => [Left, Right]
    case _ => Repeat(Role1(op), |roles|)
  }

  lemma {:induction false} SortedCanonical(op: Op, roles: seq<Role>)
    requires ShapeOk(op, roles)
    ensures CanonicalNode(op, Leaves(Sorted(op, roles)))
  {
    var s := Sorted(op, roles);
    LeavesRoles(s);
    match op
    case If =>
      assert s[1..] == Repeat(Then, Count(roles, Then)) + Repeat(Else, Count(roles, Else));
      ThenElseLeaves(Count(roles, Then), Count(roles, Else));
    case While =>
      assert s[1..] == Repeat(Body, Count(roles, Body));
      RepeatedLeaves(Body, Count(roles, Body));
    case Index => assert s[1..] == [IndexOf] && [IndexOf][1..] == [];
    case Assign => assert s[1..] == [Value] && [Value][1..] == [];
    case Binary(_) => assert s[1..] == [Right] && [Right][1..] == [];
    case _ =>
      RepeatedLeaves(Role1(op), |roles|);
      RepeatFirst(Role1(op), |roles|);
  }

  lemma {:induction false} SortedCount(op: Op, roles: seq<Role>, q: Role)
    requires ShapeOk(op, roles)
    ensures Count(Sorted(op, roles), q) == Count(roles, q)
  {
    match op
    case If =>
      var a, b := Repeat(Then, Count(roles, Then)), Repeat(Else, Count(roles, Else));
      CountFront(a + b, Condition, q);
      CountConcat(a, b, q);
      RepeatCounts(Then, Count(roles, Then), q);
      RepeatCounts(Else, Count(roles, Else), q);
      OthersAbsent(roles, Condition, Then, Else, q);
    case While =>
      CountFront(Repeat(Body, Count(roles, Body)), Condition, q);
      RepeatCounts(Body, Count(roles, Body), q);
      OthersAbsent(roles, Condition, Body, Root, q);
    case Index => TwoCount(Object, IndexOf, q); OthersAbsent(roles, Object, IndexOf, Root, q);
    case Assign => TwoCount(Target, Value, q); OthersAbsent(roles, Target, Value, Root, q);
    case Binary(_) => TwoCount(Left, Right, q); OthersAbsent(roles, Left, Right, Root, q);
    case _ => SingleRole(roles, Role1(op), q);
  }

  lemma {:induction false} SingleRole(roles: seq<Role>, r: Role, q: Role)
    requires Count(roles, r) == |roles| || roles == []
    ensures Count(Repeat(r, |roles|), q) == Count(roles, q)
  {
    RepeatCounts(r, |roles|, q);
    if q != r {
      var x := if Statement != r && Statement != q then Statement else if Value != r && Value != q then Value else Body;
      var y := if Target != r && Target != q then Target else if Left != r && Left != q then Left else Right;
      ThreeRoles(roles, r, x, y, q);
    }
  }

  lemma {:induction false} TwoCount(a: Role, b: Role, q: Role)
    ensures Count([a, b], q) == (if a == q then 1 else 0) + (if b == q then 1 else 0)
  {
    assert [a, b] == [a] + [b];
    CountFront([b], a, q);
    assert [b] == [b] + [];
    CountFront([], b, q);
  }

  lemma {:induction false} OthersAbsent(roles: seq<Role>, a: Role, b: Role, c: Role, q: Role)
    requires a != b && a != c && b != c && Count(roles, a) + Count(roles, b) + Count(roles, c) >= |roles|
    ensures q != a && q != b && q != c ==> Count(roles, q) == 0
    ensures Count(roles, a) + Count(roles, b) == |roles| ==> Count(roles, c) == 0
  {
    if q != a && q != b && q != c { ThreeRoles(roles, a, b, c, q); }
    ThirdAbsent(roles, a, b, c);
  }

  lemma {:induction false} ThirdAbsent(roles: seq<Role>, a: Role, b: Role, c: Role)
    requires a != b && a != c && b != c
    ensures Count(roles, a) + Count(roles, b) + Count(roles, c) <= |roles|
  {
    if roles != [] { ThirdAbsent(roles[..|roles| - 1], a, b, c); }
  }

  lemma {:induction false} SortedCounts(op: Op, roles: seq<Role>)
    requires ShapeOk(op, roles)
    ensures multiset(Sorted(op, roles)) == multiset(roles)
  {
    forall q ensures Count(Sorted(op, roles), q) == Count(roles, q) { SortedCount(op, roles, q); }
    SameCounts(Sorted(op, roles), roles);
  }

  /** The roles of a valid node's children are those of a lowered node's, in some order. */
  lemma {:induction false} ShapeExact(op: Op, roles: seq<Role>)
    ensures ShapeOk(op, roles) <==> exists kids :: CanonicalNode(op, kids) && multiset(RolesOf(kids)) == multiset(roles)
  {
    if ShapeOk(op, roles) {
      SortedCanonical(op, roles);
      SortedCounts(op, roles);
      LeavesRoles(Sorted(op, roles));
    }
    if kids :| CanonicalNode(op, kids) && multiset(RolesOf(kids)) == multiset(roles) {
      CanonicalShape(op, kids);
      OrderIrrelevant(op, RolesOf(kids), roles);
    }
  }
}
