/** The validator's loops: link and parent counting, then a walk from the root. */
module HirValidator {
  import opened Pigeonhole
  import opened Hir
  import opened HirValidate

  /** The number of children with a given role (role_count). */
  method RoleCount(nodes: seq<Node>, first: int, role: Role, ghost cs: seq<nat>) returns (n: nat)
    requires Walk(nodes, first, cs, NO_NODE) && forall k :: 0 <= k < |cs| ==> cs[k] < |nodes|
    ensures n == Count(Roles(nodes, cs), role)
  {
    n := 0;
    var c := first;
    ghost var k, roles := 0, Roles(nodes, cs);
    while c != NO_NODE
      invariant 0 <= k <= |cs| && Walk(nodes, c, cs[k..], NO_NODE) && n == Count(roles[..k], role)
      decreases |cs| - k
    {
      assert roles[..k + 1][..k] == roles[..k];
      assert cs[k..][1..] == cs[k + 1..];
      if nodes[c].role == role { n := n + 1; }
      c, k := nodes[c].next, k + 1;
    }
    assert roles[..k] == roles;
  }

  method ValidateShape(nodes: seq<Node>, i: nat, ghost cs: seq<nat>) returns (ok: bool)
    requires i < |nodes| && Walk(nodes, nodes[i].first, cs, NO_NODE) && nodes[i].count == |cs|
    requires forall k :: 0 <= k < |cs| ==> cs[k] < |nodes|
    ensures ok == ShapeOk(nodes[i].op, Roles(nodes, cs))
  {
    var first, total := nodes[i].first, nodes[i].count;
    match nodes[i].op
    case Program => ok := AllOfRole(nodes, first, total, Statement, cs);
    case Function(_, _) => ok := AllOfRole(nodes, first, total, Body, cs);
    case Call(_) => ok := AllOfRole(nodes, first, total, Argument, cs);
    case Array => ok := AllOfRole(nodes, first, total, Element, cs);
    case Print | Return | Decl(_) =>
      var values := AllOfRole(nodes, first, total, Value, cs);
      ok := values && total <= 1;
    case If | While => ok := ValidateControl(nodes, i, cs);
    case _ => ok := ValidateOperands(nodes, i, cs);
  }

  method ValidateControl(nodes: seq<Node>, i: nat, ghost cs: seq<nat>) returns (ok: bool)
    requires i < |nodes| && Walk(nodes, nodes[i].first, cs, NO_NODE) && nodes[i].count == |cs| && (nodes[i].op.If? || nodes[i].op.While?)
    requires forall k :: 0 <= k < |cs| ==> cs[k] < |nodes|
    ensures ok == ShapeOk(nodes[i].op, Roles(nodes, cs))
  {
    var first, total := nodes[i].first, nodes[i].count;
    var conditions := RoleCount(nodes, first, Condition, cs);
    if nodes[i].op.If? {
      var thens := RoleCount(nodes, first, Then, cs);
      var elses := RoleCount(nodes, first, Else, cs);
      ok := conditions == 1 && thens + elses + conditions == total;
    } else {
      var bodies := RoleCount(nodes, first, Body, cs);
      ok := conditions == 1 && bodies + conditions == total;
    }
  }

  method ValidateOperands(nodes: seq<Node>, i: nat, ghost cs: seq<nat>) returns (ok: bool)
    requires i < |nodes| && Walk(nodes, nodes[i].first, cs, NO_NODE) && nodes[i].count == |cs|
    requires forall k :: 0 <= k < |cs| ==> cs[k] < |nodes|
    requires var op := nodes[i].op;
      !op.Program? && !op.Function? && !op.Call? && !op.Array? && !op.Print? && !op.Return? && !op.Decl? && !op.If? && !op.While?
    ensures ok == ShapeOk(nodes[i].op, Roles(nodes, cs))
  {
    var first, total := nodes[i].first, nodes[i].count;
    match nodes[i].op
    case Reassign(_) => ok := OneOfRole(nodes, first, total, 1, Value, cs);
    case Member(_) => ok := OneOfRole(nodes, first, total, 1, Object, cs);
    case Unary(_) => ok := OneOfRole(nodes, first, total, 1, Operand, cs);
    case Index => ok := OneOfEach(nodes, first, total, Object, IndexOf, cs);
    case Assign => ok := OneOfEach(nodes, first, total, Target, Value, cs);
    case Binary(_) => ok := OneOfEach(nodes, first, total, Left, Right, cs);
    case _ => ok := total == 0;
  }

  method AllOfRole(nodes: seq<Node>, first: int, total: nat, role: Role, ghost cs: seq<nat>) returns (ok: bool)
    requires Walk(nodes, first, cs, NO_NODE) && forall k :: 0 <= k < |cs| ==> cs[k] < |nodes|
    ensures ok == (Count(Roles(nodes, cs), role) == total)
  {
    var n := RoleCount(nodes, first, role, cs);
    ok := n == total;
  }

  method OneOfRole(nodes: seq<Node>, first: int, total: nat, size: nat, role: Role, ghost cs: seq<nat>) returns (ok: bool)
    requires Walk(nodes, first, cs, NO_NODE) && forall k :: 0 <= k < |cs| ==> cs[k] < |nodes|
    ensures ok == (Count(Roles(nodes, cs), role) == 1 && total == size)
  {
    var n := RoleCount(nodes, first, role, cs);
    ok := n == 1 && total == size;
  }

  method OneOfEach(nodes: seq<Node>, first: int, total: nat, a: Role, b: Role, ghost cs: seq<nat>) returns (ok: bool)
    requires Walk(nodes, first, cs, NO_NODE) && forall k :: 0 <= k < |cs| ==> cs[k] < |nodes|
    ensures ok == (Count(Roles(nodes, cs), a) == 1 && Count(Roles(nodes, cs), b) == 1 && total == 2)
  {
    var n := RoleCount(nodes, first, a, cs);
    var m := RoleCount(nodes, first, b, cs);
    ok := n == 1 && m == 1 && total == 2;
  }

  // ---- Links and parent counts ----

  /** `parents` counts how often each node is listed. */
  ghost predicate Tracks(parents: seq<nat>, kids: seq<seq<nat>>) {
    forall c :: 0 <= c < |parents| ==> parents[c] == if c in Listed(kids) then 1 else 0
  }

  lemma ListedSnoc(kids: seq<seq<nat>>, cs: seq<nat>, c: nat)
    ensures Listed(kids + [cs + [c]]) == Listed(kids + [cs]) + {c}
  {
    var a, b := kids + [cs], kids + [cs + [c]];
    forall x | x in Listed(b) ensures x in Listed(a) + {c} {
      var i, k :| 0 <= i < |b| && 0 <= k < |b[i]| && b[i][k] == x;
      if i < |kids| || k < |cs| { assert a[i][k] == x; }
    }
    forall x | x in Listed(a) + {c} ensures x in Listed(b) {
      if x == c {
        assert b[|kids|][|cs|] == x;
      } else {
        var i, k :| 0 <= i < |a| && 0 <= k < |a[i]| && a[i][k] == x;
        assert b[i][k] == x;
      }
    }
  }

  lemma UnsharedSnoc(kids: seq<seq<nat>>, cs: seq<nat>, c: nat)
    requires Unshared(kids + [cs]) && c !in Listed(kids + [cs])
    ensures Unshared(kids + [cs + [c]])
  {
    var a, b := kids + [cs], kids + [cs + [c]];
    forall i, k, j, l | InLists(b, i, k) && InLists(b, j, l) && b[i][k] == b[j][l] ensures i == j && k == l {
      var fresh1, fresh2 := i == |kids| && k == |cs|, j == |kids| && l == |cs|;
      assert !fresh1 ==> InLists(a, i, k) && a[i][k] == b[i][k] && a[i][k] in Listed(a);
      assert !fresh2 ==> InLists(a, j, l) && a[j][l] == b[j][l] && a[j][l] in Listed(a);
    }
  }

  lemma UnsharedEmpty(kids: seq<seq<nat>>)
    requires Unshared(kids)
    ensures Unshared(kids + [[]]) && Listed(kids + [[]]) == Listed(kids)
  {
    var b := kids + [[]];
    forall i, k, j, l | InLists(b, i, k) && InLists(b, j, l) && b[i][k] == b[j][l] ensures i == j && k == l {
      assert InLists(kids, i, k) && InLists(kids, j, l);
    }
    forall x | x in Listed(kids) ensures x in Listed(b) {
      var i, k :| 0 <= i < |kids| && 0 <= k < |kids[i]| && kids[i][k] == x;
      assert b[i][k] == x;
    }
  }

  /** The children `cs` of node `i` have been counted and `child` comes next. */
  ghost predicate Partial(nodes: seq<Node>, i: nat, kids: seq<seq<nat>>, cs: seq<nat>, child: int, parents: seq<nat>)
    requires i < |nodes|
  {
    && Walk(nodes, nodes[i].first, cs, child)
    && (forall k :: 0 <= k < |cs| ==> cs[k] < |nodes| && cs[k] != i)
    && Unshared(kids + [cs])
    && Tracks(parents, kids + [cs])
  }

  lemma PartialStep(nodes: seq<Node>, i: nat, kids: seq<seq<nat>>, cs: seq<nat>, child: nat, parents: seq<nat>)
    requires i < |nodes| && child < |nodes| == |parents| && child != i && Partial(nodes, i, kids, cs, child, parents) && parents[child] != 1
    ensures Partial(nodes, i, kids, cs + [child], nodes[child].next, parents[child := 1])
  {
    WalkSnoc(nodes, nodes[i].first, cs, child);
    ListedSnoc(kids, cs, child);
    UnsharedSnoc(kids, cs, child);
  }

  /** The children counted so far are a prefix of the list `ds`. */
  ghost predicate Matching(nodes: seq<Node>, ds: seq<nat>, cs: seq<nat>, child: int) {
    |cs| <= |ds| && cs == ds[..|cs|] && Walk(nodes, child, ds[|cs|..], NO_NODE)
  }

  lemma MatchingStep(nodes: seq<Node>, ds: seq<nat>, cs: seq<nat>, child: int)
    requires Matching(nodes, ds, cs, child) && child != NO_NODE
    ensures |cs| < |ds| && ds[|cs|] == child && 0 <= child < |nodes| && Matching(nodes, ds, cs + [child as nat], nodes[child].next)
  {
    assert ds[|cs|..][1..] == ds[|cs| + 1..];
  }

  /** `row` can be counted child by child after the lists `kids` of the nodes before `i`. */
  ghost predicate Countable(nodes: seq<Node>, i: nat, kids: seq<seq<nat>>, row: seq<nat>)
    requires i < |nodes|
  {
    && Matching(nodes, row, [], nodes[i].first)
    && |row| <= |nodes|
    && forall k :: 0 <= k < |row| ==> row[k] != i && row[k] !in Listed(kids + [row[..k]])
  }

  /** In unshared lists the next child has not been listed before. */
  lemma {:induction false} RowCountable(nodes: seq<Node>, ks: seq<seq<nat>>, i: nat)
    requires Linked(nodes, ks) && i < |nodes|
    ensures Countable(nodes, i, ks[..i], ks[i]) && NodeOk(nodes, i, ks[i])
  {
    assert NodeOk(nodes, i, ks[i]);
    RowUnshared(ks, i);
    DistinctLength(ks[i], |nodes|);
    assert ks[i][0..] == ks[i];
    forall k | 0 <= k < |ks[i]| ensures ks[i][k] !in Listed(ks[..i] + [ks[i][..k]]) {
      var all := ks[..i] + [ks[i][..k]];
      forall j, m | 0 <= j < |all| && 0 <= m < |all[j]| ensures all[j][m] != ks[i][k] {
        assert InLists(ks, j, m) && InLists(ks, i, k) && ks[j][m] == all[j][m];
      }
    }
  }

  /** Follows the children of node `i`, counting each as listed. `good` says that `row` is
      the countable child list. */
  method CountChildren(nodes: seq<Node>, i: nat, parents: array<nat>, ghost kids: seq<seq<nat>>, ghost good: bool, ghost row: seq<nat>)
      returns (ok: bool, last: int, seen: nat, ghost cs: seq<nat>)
    requires i < |nodes| == parents.Length && |kids| == i
    requires Unshared(kids) && Tracks(parents[..], kids)
    requires good ==> Countable(nodes, i, kids, row)
    modifies parents
    ensures ok ==> Partial(nodes, i, kids, cs, NO_NODE, parents[..]) && seen == |cs|
    ensures ok ==> last == if cs == [] then NO_NODE else cs[|cs| - 1]
    ensures good ==> ok && cs == row
  {
    cs, seen, last := [], 0, NO_NODE;
    UnsharedEmpty(kids);
    var child := nodes[i].first;
    while child != NO_NODE
      invariant Partial(nodes, i, kids, cs, child, parents[..]) && seen == |cs|
      invariant last == if cs == [] then NO_NODE else cs[|cs| - 1]
      invariant good ==> Matching(nodes, row, cs, child)
      decreases |nodes| - seen
    {
      if good { MatchingStep(nodes, row, cs, child); }
      if child < 0 || child >= |nodes| || child == i || seen + 1 > |nodes| || parents[child] == 1 {
        return false, last, seen, cs;
      }
      PartialStep(nodes, i, kids, cs, child, parents[..]);
      ghost var before := parents[..];
      parents[child] := parents[child] + 1;
      assert parents[..] == before[child := 1];
      cs := cs + [child as nat];
      last, seen, child := child, seen + 1, nodes[child].next;
    }
    assert good ==> row[|cs|..] == [] && cs == row;
    ok := true;
  }

  /** Checks node `i` and counts its children as listed. `good` says that some child lists
      `ks` link the whole array, and `kids` are those of the nodes before `i`. */
  method CheckNode(nodes: seq<Node>, i: nat, parents: array<nat>, ghost kids: seq<seq<nat>>, ghost good: bool, ghost ks: seq<seq<nat>>)
      returns (ok: bool, ghost cs: seq<nat>)
    requires i < |nodes| == parents.Length && |kids| == i
    requires Unshared(kids) && Tracks(parents[..], kids)
    requires good ==> Linked(nodes, ks) && kids == ks[..i]
    modifies parents
    ensures ok ==> NodeOk(nodes, i, cs) && Unshared(kids + [cs]) && Tracks(parents[..], kids + [cs])
    ensures ok && good ==> cs == ks[i]
    ensures !ok ==> !good
  {
    if good { RowCountable(nodes, ks, i); }
    if (nodes[i].first == NO_NODE) != (nodes[i].count == 0) {
      return false, [];
    }
    var last, seen;
    ok, last, seen, cs := CountChildren(nodes, i, parents, kids, good, if good then ks[i] else []);
    if !ok || seen != nodes[i].count || last != nodes[i].last {
      return false, cs;
    }
    ok := ValidateShape(nodes, i, cs);
  }

  /** All nodes; afterwards `parents` counts the listings of each node. */
  method CheckLinks(nodes: seq<Node>, parents: array<nat>, ghost good: bool, ghost ks: seq<seq<nat>>)
      returns (ok: bool, ghost kids: seq<seq<nat>>)
    requires parents.Length == |nodes| && forall c :: 0 <= c < parents.Length ==> parents[c] == 0
    requires good ==> Linked(nodes, ks)
    modifies parents
    ensures ok ==> Linked(nodes, kids) && Tracks(parents[..], kids)
    ensures ok && good ==> kids == ks
    ensures !ok ==> !good
  {
    kids := [];
    var i := 0;
    while i < |nodes|
      invariant 0 <= i <= |nodes| && |kids| == i
      invariant forall j :: 0 <= j < i ==> NodeOk(nodes, j, kids[j])
      invariant Unshared(kids) && Tracks(parents[..], kids)
      invariant good ==> kids == ks[..i]
    {
      ghost var cs;
      ok, cs := CheckNode(nodes, i, parents, kids, good, ks);
      if !ok { return; }
      kids := kids + [cs];
      i := i + 1;
    }
    ok := true;
  }

  // ---- The walk from the root ----

  /** The parent of each listed node. */
  ghost predicate Parents(kids: seq<seq<nat>>, par: seq<nat>, root: nat) {
    && |par| == |kids| && root < |kids|
    && (forall i, a :: InLists(kids, i, a) ==> kids[i][a] < |kids| && kids[i][a] != i && kids[i][a] != root && par[kids[i][a]] == i)
    && (forall i :: 0 <= i < |kids| ==> NoRepeats(kids[i]))
  }

  /** The walk has taken the nodes `seen` off its stack and still holds `stack`; of the
      node `cur` only the first `n` children have been pushed. */
  ghost predicate Walking(kids: seq<seq<nat>>, par: seq<nat>, root: nat, seen: set<nat>, stack: seq<nat>, depth: seq<nat>,
      cur: nat, n: nat)
    requires Parents(kids, par, root)
  {
    && |depth| == |kids| && depth[root] == 0
    && (forall x :: x in seen ==> x < |kids|)
    && (forall x :: x in stack ==> x < |kids| && x !in seen)
    && NoRepeats(stack)
    && (root in seen || root in stack)
    && (forall x :: x in seen || x in stack ==> depth[x] <= |seen|)
    && (forall x :: (x in seen || x in stack) && x != root ==> par[x] in seen)
    && (forall i, a :: InLists(kids, i, a) && i in seen && (i != cur || a < n) ==>
          (kids[i][a] in seen || kids[i][a] in stack) && depth[kids[i][a]] == depth[i] + 1)
    && (forall a :: InLists(kids, cur, a) && n <= a ==> kids[cur][a] !in seen && kids[cur][a] !in stack)
  }

  /** Taking a node off the stack. */
  lemma {:induction false} Take(kids: seq<seq<nat>>, par: seq<nat>, root: nat, seen: set<nat>, stack: seq<nat>, depth: seq<nat>, old_cur: nat)
    requires Parents(kids, par, root) && stack != [] && old_cur < |kids|
    requires Walking(kids, par, root, seen, stack, depth, old_cur, |kids[old_cur]|)
    ensures var cur := stack[|stack| - 1];
      && cur < |kids| && cur !in seen && |seen + {cur}| == |seen| + 1
      && Walking(kids, par, root, seen + {cur}, stack[..|stack| - 1], depth, cur, 0)
  {
    var cur, rest := stack[|stack| - 1], stack[..|stack| - 1];
    assert cur in stack;
    assert forall x :: x in stack <==> x in rest || x == cur;
    forall x | x in rest ensures x != cur {
      var k :| 0 <= k < |rest| && rest[k] == x;
    }
    assert forall i, a :: InLists(kids, i, a) && i in seen ==> i != cur;
    forall a | InLists(kids, cur, a) ensures kids[cur][a] !in seen + {cur} && kids[cur][a] !in rest {
      assert par[kids[cur][a]] == cur;
    }
  }

  /** Pushing the next child of the current node. */
  lemma {:induction false} Push(kids: seq<seq<nat>>, par: seq<nat>, root: nat, seen: set<nat>, stack: seq<nat>, depth: seq<nat>, cur: nat, n: nat)
    requires Parents(kids, par, root) && cur in seen && cur < |kids| && n < |kids[cur]|
    requires Walking(kids, par, root, seen, stack, depth, cur, n) && depth[cur] < |seen|
    ensures var c := kids[cur][n];
      && c < |kids| && c !in seen && |stack| + 1 <= |kids|
      && Walking(kids, par, root, seen, stack + [c], depth[c := depth[cur] + 1], cur, n + 1)
  {
    var c := kids[cur][n];
    assert InLists(kids, cur, n);
    assert forall x :: x in stack + [c] <==> x in stack || x == c;
    assert forall k :: 0 <= k < |stack| ==> stack[k] in stack;
    assert NoRepeats(stack + [cur]) && NoRepeats(stack + [c]);
    DistinctLength(stack + [cur], |kids|);
    forall a | InLists(kids, cur, a) && n + 1 <= a ensures kids[cur][a] != c {
      assert NoRepeats(kids[cur]);
    }
  }

  /** Pushes the children of `cur`; both tests in the loop always pass. */
  method PushChildren(nodes: seq<Node>, cur: nat, visited: seq<bool>, stack0: seq<nat>,
      ghost kids: seq<seq<nat>>, ghost par: seq<nat>, ghost root: nat, ghost seen: set<nat>, ghost depth0: seq<nat>)
      returns (valid: bool, stack: seq<nat>, ghost depth: seq<nat>)
    requires AllOk(nodes, kids) && Parents(kids, par, root) && cur in seen && cur < |kids|
    requires |visited| == |nodes| && forall x :: 0 <= x < |nodes| ==> visited[x] == (x in seen)
    requires Walking(kids, par, root, seen, stack0, depth0, cur, 0) && depth0[cur] < |seen|
    ensures valid && Walking(kids, par, root, seen, stack, depth, cur, |kids[cur]|)
  {
    stack, depth := stack0, depth0;
    assert NodeOk(nodes, cur, kids[cur]);
    var c := nodes[cur].first;
    ghost var n := 0;
    while c != NO_NODE
      invariant 0 <= n <= |kids[cur]| && Walk(nodes, c, kids[cur][n..], NO_NODE)
      invariant Walking(kids, par, root, seen, stack, depth, cur, n) && depth[cur] < |seen|
      decreases |kids[cur]| - n
    {
      Push(kids, par, root, seen, stack, depth, cur, n);
      assert kids[cur][n..][1..] == kids[cur][n + 1..];
      if c >= |nodes| || visited[c] || |stack| >= |nodes| {
        return false, stack, depth;
      }
      stack := stack + [c as nat];
      depth := depth[c := depth[cur] + 1];
      c, n := nodes[c].next, n + 1;
    }
    valid := true;
  }

  /** Counts the nodes reached from the root. */
  method Reach(nodes: seq<Node>, root: nat, ghost kids: seq<seq<nat>>, ghost par: seq<nat>)
      returns (valid: bool, reached: nat, ghost seen: set<nat>, ghost depth: seq<nat>)
    requires AllOk(nodes, kids) && Parents(kids, par, root)
    ensures valid && reached == |seen| && root in seen && Closed(seen, kids)
    ensures forall x :: x in seen ==> x < |nodes|
    ensures |depth| == |nodes| && depth[root] == 0 && forall x :: x in seen ==> depth[x] <= |seen|
    ensures forall i, a :: InLists(kids, i, a) && i in seen ==> depth[kids[i][a]] == depth[i] + 1
  {
    var visited, stack := seq(|nodes|, _ => false), [root];
    seen, depth, reached, valid := {}, seq(|nodes|, _ => 0), 0, true;
    ghost var cur: nat := root;
    assert Walking(kids, par, root, {}, [root], depth, root, |kids[root]|);
    while stack != []
      invariant valid && reached == |seen| && |visited| == |nodes| && cur < |kids|
      invariant forall x :: 0 <= x < |nodes| ==> visited[x] == (x in seen)
      invariant Walking(kids, par, root, seen, stack, depth, cur, |kids[cur]|)
      decreases |nodes| - reached
    {
      Take(kids, par, root, seen, stack, depth, cur);
      var current := stack[|stack| - 1];
      SeenBound(seen + {current}, |nodes|);
      stack := stack[..|stack| - 1];
      if current >= |nodes| || visited[current] {
        valid := false;
        return;
      }
      visited := visited[current := true];
      reached := reached + 1;
      seen, cur := seen + {current}, current;
      valid, stack, depth := PushChildren(nodes, current, visited, stack, kids, par, root, seen, depth);
      if !valid { return; }
    }
  }

  ghost function Range(n: nat): (r: set<nat>)
    ensures |r| == n && forall x: nat :: x in r <==> x < n
  {
    if n == 0 then {} else Range(n - 1) + {n - 1}
  }

  lemma SeenBound(s: set<nat>, n: nat)
    requires forall x :: x in s ==> x < n
    ensures |s| <= n && (|s| == n ==> forall x: nat :: x < n ==> x in s)
  {
    SubsetSize(s, Range(n));
  }

  // ---- The validator ----

  ghost function ParentSeq(kids: seq<seq<nat>>): (par: seq<nat>)
    ensures |par| == |kids|
    ensures forall c :: 0 <= c < |kids| && c in Listed(kids) ==> par[c] < |kids| && c in kids[par[c]]
  {
    seq(|kids|, c requires 0 <= c < |kids| => if c in Listed(kids) then ParentOf(kids, c) else 0)
  }

  ghost function ParentOf(kids: seq<seq<nat>>, c: nat): (i: nat)
    requires c in Listed(kids)
    ensures i < |kids| && c in kids[i]
  {
    var i, a :| 0 <= i < |kids| && 0 <= a < |kids[i]| && kids[i][a] == c;
    i
  }

  lemma {:induction false} ParentsOk(nodes: seq<Node>, kids: seq<seq<nat>>, root: nat)
    requires Linked(nodes, kids) && root < |nodes| && root !in Listed(kids)
    ensures Parents(kids, ParentSeq(kids), root)
  {
    var par := ParentSeq(kids);
    forall i, a | InLists(kids, i, a)
      ensures kids[i][a] < |kids| && kids[i][a] != i && kids[i][a] != root && par[kids[i][a]] == i
    {
      var c := kids[i][a];
      assert NodeOk(nodes, i, kids[i]) && c in Listed(kids);
      var b :| 0 <= b < |kids[par[c]]| && kids[par[c]][b] == c;
      assert InLists(kids, par[c], b);
    }
    forall i | 0 <= i < |kids| ensures NoRepeats(kids[i]) { RowUnshared(kids, i); }
  }

  ghost predicate DepthsOk(kids: seq<seq<nat>>, depth: seq<nat>, root: nat) {
    && |depth| == |kids| && root < |kids| && depth[root] == 0
    && (forall x :: 0 <= x < |kids| ==> depth[x] <= |kids|)
    && (forall i, a :: InLists(kids, i, a) ==> kids[i][a] < |kids| && depth[kids[i][a]] == depth[i] + 1)
  }

  lemma RanksOk(kids: seq<seq<nat>>, root: nat, depth: seq<nat>)
    requires Parents(kids, ParentSeq(kids), root) && DepthsOk(kids, depth, root)
    requires forall c :: 0 <= c < |kids| && c != root ==> c in Listed(kids)
    ensures Ranked(kids, Ranks(ParentSeq(kids), depth, |kids|))
    ensures forall x :: 0 <= x < |kids| && x != root ==>
      depth[x] > 0 && ParentSeq(kids)[x] < |kids| && x in kids[ParentSeq(kids)[x]]
  {
    var par := ParentSeq(kids);
    forall x | 0 <= x < |kids| && x != root
      ensures par[x] < |kids| && depth[x] == depth[par[x]] + 1 && x in kids[par[x]]
    {
      var a :| 0 <= a < |kids[par[x]]| && kids[par[x]][a] == x;
      assert InLists(kids, par[x], a);
    }
  }

  /** A walk that reached every node yields the tree. */
  lemma WalkGivesTree(nodes: seq<Node>, root: nat, kids: seq<seq<nat>>, depth: seq<nat>)
    requires Linked(nodes, kids) && Parents(kids, ParentSeq(kids), root) && DepthsOk(kids, depth, root)
    requires nodes[root].op == Program && nodes[root].role == Root && nodes[root].next == NO_NODE
    requires forall c :: 0 <= c < |kids| && c != root ==> c in Listed(kids)
    ensures exists f :: IsTree(nodes, root, f)
  {
    RanksOk(kids, root, depth);
    RankedTree(nodes, root, kids, Ranks(ParentSeq(kids), depth, |kids|));
  }

  /** Some tree exists exactly if this holds of its child lists. */
  ghost predicate Spanning(nodes: seq<Node>, root: nat, kids: seq<seq<nat>>) {
    && Linked(nodes, kids) && root !in Listed(kids)
    && forall s: set<nat> :: root in s && Closed(s, kids) ==> forall i: nat :: i < |nodes| ==> i in s
  }

  /** Validation succeeds exactly on the arrays that hold one tree over all their nodes. */
  method Validate(nodes: seq<Node>, root: nat) returns (valid: bool)
    ensures valid <==> exists f :: IsTree(nodes, root, f)
  {
    if |nodes| == 0 || root >= |nodes| || !nodes[root].op.Program? || !nodes[root].role.Root? || nodes[root].next != NO_NODE {
      return false;
    }
    ghost var good, ks := exists f :: IsTree(nodes, root, f), [];
    if good {
      ghost var tree :| IsTree(nodes, root, tree);
      TreeLinked(nodes, root, tree);
      ks := TreeKids(tree, |nodes|);
    }
    valid := ValidateRooted(nodes, root, good, ks);
  }

  method ValidateRooted(nodes: seq<Node>, root: nat, ghost good: bool, ghost ks: seq<seq<nat>>) returns (valid: bool)
    requires root < |nodes| && nodes[root].op == Program && nodes[root].role == Root && nodes[root].next == NO_NODE
    requires good ==> Spanning(nodes, root, ks)
    ensures valid ==> exists f :: IsTree(nodes, root, f)
    ensures !valid ==> !good
  {
    var parents := new nat[|nodes|](_ => 0);
    ghost var kids;
    valid, kids := CheckLinks(nodes, parents, good, ks);
    if !valid { return; }
    valid := OneParentEach(parents, root);
    assert valid <==> root !in Listed(kids) && forall c :: 0 <= c < |nodes| && c != root ==> c in Listed(kids);
    if good { OnlyRootUnlisted(nodes, root, kids); }
    if !valid { return; }
    valid := ReachesAll(nodes, root, kids);
  }

  method ReachesAll(nodes: seq<Node>, root: nat, ghost kids: seq<seq<nat>>) returns (valid: bool)
    requires Linked(nodes, kids) && root < |nodes| && root !in Listed(kids)
    requires nodes[root].op == Program && nodes[root].role == Root && nodes[root].next == NO_NODE
    requires forall c :: 0 <= c < |nodes| && c != root ==> c in Listed(kids)
    ensures valid ==> exists f :: IsTree(nodes, root, f)
    ensures !valid ==> !Spanning(nodes, root, kids)
  {
    ParentsOk(nodes, kids, root);
    var reached;
    ghost var seen, depth;
    valid, reached, seen, depth := Reach(nodes, root, kids, ParentSeq(kids));
    SeenBound(seen, |nodes|);
    if reached == |nodes| {
      WalkGivesTree(nodes, root, kids, depth);
    } else {
      SomeMissing(seen, |nodes|);
      valid := false;
    }
  }

  lemma SomeMissing(s: set<nat>, n: nat)
    requires |s| < n
    ensures exists x: nat :: x < n && x !in s
  {
    if forall x: nat :: x < n ==> x in s { SubsetSize(Range(n), s); }
  }

  method OneParentEach(parents: array<nat>, root: nat) returns (ok: bool)
    requires root < parents.Length
    ensures ok <==> parents[root] == 0 && forall c :: 0 <= c < parents.Length && c != root ==> parents[c] == 1
  {
    ok := parents[root] == 0;
    var i := 0;
    while ok && i < parents.Length
      invariant 0 <= i <= parents.Length
      invariant ok ==> parents[root] == 0 && forall c :: 0 <= c < i && c != root ==> parents[c] == 1
      invariant !ok ==> parents[root] != 0 || exists c :: 0 <= c < parents.Length && c != root && parents[c] != 1
    {
      if i != root && parents[i] != 1 { ok := false; }
      i := i + 1;
    }
  }

  /** If all nodes are reachable from an unlisted root, every other node is listed. */
  lemma OnlyRootUnlisted(nodes: seq<Node>, root: nat, kids: seq<seq<nat>>)
    requires root < |nodes|
    requires forall s: set<nat> :: root in s && Closed(s, kids) ==> forall i: nat :: i < |nodes| ==> i in s
    ensures forall c :: 0 <= c < |nodes| && c != root ==> c in Listed(kids)
  {
    var s := {root} + Listed(kids);
    assert Closed(s, kids);
  }
}
