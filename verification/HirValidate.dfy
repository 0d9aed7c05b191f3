/** Validation of the node array (vnt_ir_validate): it accepts exactly the arrays that hold
    one rooted ordered tree over all their nodes, with the child roles each opcode needs. */
module HirValidate {
  import opened Hir
  import opened HirPropagate
  import opened Pigeonhole

  // ---- Child roles ----

  function Count(roles: seq<Role>, r: Role): nat {
    if roles == [] then 0 else Count(roles[..|roles| - 1], r) + if roles[|roles| - 1] == r then 1 else 0
  }

  /** The role counts required of the children of an opcode (validate_node_shape). */
  predicate ShapeOk(op: Op, roles: seq<Role>) {
    var total := |roles|;
    match op
    case Program => Count(roles, Statement) == total
    case Print | Return | Decl(_) => Count(roles, Value) == total <= 1
    case If => Count(roles, Condition) == 1 && Count(roles, Then) + Count(roles, Else) + Count(roles, Condition) == total
    case While => Count(roles, Condition) == 1 && Count(roles, Body) + Count(roles, Condition) == total
    case Function(_, _) => Count(roles, Body) == total
    case Call(_) => Count(roles, Argument) == total
    case Array => Count(roles, Element) == total
    case Reassign(_) => Count(roles, Value) == 1 == total
    case Index => Count(roles, Object) == 1 && Count(roles, IndexOf) == 1 && total == 2
    case Member(_) => Count(roles, Object) == 1 == total
    case Assign => Count(roles, Target) == 1 && Count(roles, Value) == 1 && total == 2
    case Binary(_) => Count(roles, Left) == 1 && Count(roles, Right) == 1 && total == 2
    case Unary(_) => Count(roles, Operand) == 1 == total
    case _ => total == 0
  }

  function RolesOf(f: Forest): (r: seq<Role>)
    ensures |r| == Len(f)
  {
    if f.Nil? then [] else [f.role] + RolesOf(f.rest)
  }

  predicate Shaped(f: Forest) {
    f.Cons? ==> ShapeOk(f.op, RolesOf(f.kids)) && Shaped(f.kids) && Shaped(f.rest)
  }

  /** What validation is for: the array is the tree `f`, with nothing left over. */
  ghost predicate IsTree(nodes: seq<Node>, root: nat, f: Forest) {
    && f.Cons? && f.rest.Nil? && f.op == Program && f.role == Root
    && IsForest(nodes, root, f)
    && Distinct(f)
    && Shaped(f)
    && (forall i: nat :: i < |nodes| ==> i in Footprint(f))
  }

  /** The array determines the tree. */
  lemma {:induction false} TreeUnique(nodes: seq<Node>, i: int, f: Forest, g: Forest)
    requires IsForest(nodes, i, f) && IsForest(nodes, i, g)
    ensures f == g
    decreases f
  {
    if f.Cons? {
      TreeUnique(nodes, nodes[i].first, f.kids, g.kids);
      TreeUnique(nodes, nodes[i].next, f.rest, g.rest);
    }
  }

  lemma {:induction false} CountFront(roles: seq<Role>, x: Role, r: Role)
    ensures Count([x] + roles, r) == Count(roles, r) + if x == r then 1 else 0
  {
    if roles != [] {
      var init := roles[..|roles| - 1];
      CountFront(init, x, r);
      assert ([x] + roles)[..|roles|] == [x] + init;
    } else {
      assert ([x] + roles)[..0] == [];
    }
  }

  // ---- Child lists as index sequences ----

  /** Following sibling links from `i` visits exactly `cs` and arrives at `e`. */
  predicate Walk(nodes: seq<Node>, i: int, cs: seq<nat>, e: int)
    decreases |cs|
  {
    if cs == [] then i == e else i == cs[0] < |nodes| && Walk(nodes, nodes[i].next, cs[1..], e)
  }

  function Roles(nodes: seq<Node>, cs: seq<nat>): (r: seq<Role>)
    requires forall k :: 0 <= k < |cs| ==> cs[k] < |nodes|
    ensures |r| == |cs| && forall k :: 0 <= k < |cs| ==> r[k] == nodes[cs[k]].role
  {
    seq(|cs|, k requires 0 <= k < |cs| => nodes[cs[k]].role)
  }

  /** One node is well linked to the children `cs` and has the right roles. */
  ghost predicate NodeOk(nodes: seq<Node>, i: nat, cs: seq<nat>)
    requires i < |nodes|
  {
    && Walk(nodes, nodes[i].first, cs, NO_NODE)
    && (forall k :: 0 <= k < |cs| ==> cs[k] < |nodes| && cs[k] != i)
    && nodes[i].count == |cs|
    && nodes[i].last == (if cs == [] then NO_NODE else cs[|cs| - 1])
    && ShapeOk(nodes[i].op, Roles(nodes, cs))
  }

  predicate InLists(kids: seq<seq<nat>>, i: int, a: int) {
    0 <= i < |kids| && 0 <= a < |kids[i]|
  }

  /** No index occurs at two places of the child lists. */
  ghost predicate Unshared(kids: seq<seq<nat>>) {
    forall i, a, j, b :: InLists(kids, i, a) && InLists(kids, j, b) && kids[i][a] == kids[j][b] ==> i == j && a == b
  }

  ghost predicate AllOk(nodes: seq<Node>, kids: seq<seq<nat>>) {
    |kids| == |nodes| && forall i :: 0 <= i < |nodes| ==> NodeOk(nodes, i, kids[i])
  }

  /** `kids` lists the children of every node, and no node is listed twice. */
  ghost predicate Linked(nodes: seq<Node>, kids: seq<seq<nat>>) {
    AllOk(nodes, kids) && Unshared(kids)
  }

  ghost function Listed(kids: seq<seq<nat>>): set<nat> {
    set i, a | 0 <= i < |kids| && 0 <= a < |kids[i]| :: kids[i][a]
  }

  lemma {:induction false} WalkSnoc(nodes: seq<Node>, i: int, cs: seq<nat>, c: nat)
    requires Walk(nodes, i, cs, c) && c < |nodes|
    ensures Walk(nodes, i, cs + [c], nodes[c].next)
    decreases |cs|
  {
    if cs == [] {
      assert Walk(nodes, nodes[c].next, [c][1..], nodes[c].next);
    } else {
      WalkSnoc(nodes, nodes[i].next, cs[1..], c);
      assert (cs + [c])[1..] == cs[1..] + [c];
    }
  }

  // ---- From a tree to child lists ----

  function Top(f: Forest): (r: seq<nat>)
    ensures |r| == Len(f)
  {
    if f.Nil? then [] else [f.idx] + Top(f.rest)
  }

  function KidsOf(f: Forest, i: nat): Forest {
    if f.Nil? then Nil
    else if f.idx == i then f.kids
    else if i in Footprint(f.kids) then KidsOf(f.kids, i)
    else KidsOf(f.rest, i)
  }

  lemma {:induction false} TopFacts(f: Forest)
    ensures forall k :: 0 <= k < |Top(f)| ==> Top(f)[k] in Footprint(f)
    ensures Distinct(f) ==> forall a, b :: 0 <= a < b < |Top(f)| ==> Top(f)[a] != Top(f)[b]
    ensures LastIdx(f) == if f.Nil? then NO_NODE else Top(f)[|Top(f)| - 1]
  {
    if f.Cons? { TopFacts(f.rest); }
  }

  lemma {:induction false} KidsFacts(f: Forest, i: nat)
    requires i in Footprint(f) && Distinct(f)
    ensures Footprint(KidsOf(f, i)) <= Footprint(f) && Distinct(KidsOf(f, i)) && i !in Footprint(KidsOf(f, i))
  {
    if f.idx != i {
      if i in Footprint(f.kids) { KidsFacts(f.kids, i); } else { KidsFacts(f.rest, i); }
    }
  }

  /** A child of a node is not among the top-level siblings. */
  lemma {:induction false} ChildNotTop(f: Forest, i: nat, c: nat)
    requires Distinct(f) && i in Footprint(f) && c in Top(KidsOf(f, i))
    ensures c !in Top(f) && c in Footprint(f)
  {
    TopFacts(f.rest);
    TopFacts(KidsOf(f, i));
    KidsFacts(f, i);
    if f.idx != i && i !in Footprint(f.kids) {
      ChildNotTop(f.rest, i, c);
    } else if f.idx != i {
      KidsFacts(f.kids, i);
    }
  }

  /** A node has one parent. */
  lemma {:induction false} OneParent(f: Forest, i: nat, j: nat, c: nat)
    requires Distinct(f) && i in Footprint(f) && j in Footprint(f)
    requires c in Top(KidsOf(f, i)) && c in Top(KidsOf(f, j))
    ensures i == j
  {
    if i in Footprint(f.kids) {
      ChildNotTop(f.kids, i, c);
      if j in Footprint(f.kids) {
        OneParent(f.kids, i, j, c);
      } else if j in Footprint(f.rest) {
        ChildNotTop(f.rest, j, c);
      }
    } else if i in Footprint(f.rest) {
      ChildNotTop(f.rest, i, c);
      if j in Footprint(f.rest) {
        OneParent(f.rest, i, j, c);
      } else if j in Footprint(f.kids) {
        ChildNotTop(f.kids, j, c);
      } else {
        TopFacts(f.kids);
      }
    } else {
      TopFacts(f.kids);
      if j in Footprint(f.kids) { ChildNotTop(f.kids, j, c); }
      if j in Footprint(f.rest) { ChildNotTop(f.rest, j, c); }
    }
  }

  lemma {:induction false} TopWalk(nodes: seq<Node>, i: int, f: Forest)
    requires IsForest(nodes, i, f)
    ensures Walk(nodes, i, Top(f), NO_NODE)
    ensures forall k :: 0 <= k < |Top(f)| ==> Top(f)[k] < |nodes|
    ensures Roles(nodes, Top(f)) == RolesOf(f)
    decreases f
  {
    if f.Cons? {
      TopWalk(nodes, nodes[i].next, f.rest);
      assert Top(f)[1..] == Top(f.rest);
    }
  }

  lemma {:induction false} KidsOk(nodes: seq<Node>, at: int, f: Forest, i: nat)
    requires IsForest(nodes, at, f) && Distinct(f) && Shaped(f) && i in Footprint(f)
    ensures i < |nodes| && NodeOk(nodes, i, Top(KidsOf(f, i)))
    decreases f
  {
    if f.idx == i {
      TopWalk(nodes, nodes[i].first, f.kids);
      TopFacts(f.kids);
    } else if i in Footprint(f.kids) {
      KidsOk(nodes, nodes[at].first, f.kids, i);
    } else {
      KidsOk(nodes, nodes[at].next, f.rest, i);
    }
  }

  /** Every node of a forest is at the top or a child. */
  lemma {:induction false} Reached(f: Forest, s: set<nat>)
    requires Distinct(f)
    requires forall k :: 0 <= k < |Top(f)| ==> Top(f)[k] in s
    requires forall i, k :: i in s && i in Footprint(f) && 0 <= k < |Top(KidsOf(f, i))| ==> Top(KidsOf(f, i))[k] in s
    ensures Footprint(f) <= s
  {
    if f.Cons? {
      assert Top(f)[0] == f.idx;
      assert forall k :: 0 <= k < |Top(f.rest)| ==> Top(f.rest)[k] == Top(f)[k + 1];
      assert KidsOf(f, f.idx) == f.kids;
      forall i, k | i in s && i in Footprint(f.kids) && 0 <= k < |Top(KidsOf(f.kids, i))| ensures Top(KidsOf(f.kids, i))[k] in s {
        assert KidsOf(f, i) == KidsOf(f.kids, i);
      }
      forall i, k | i in s && i in Footprint(f.rest) && 0 <= k < |Top(KidsOf(f.rest, i))| ensures Top(KidsOf(f.rest, i))[k] in s {
        assert KidsOf(f, i) == KidsOf(f.rest, i);
      }
      Reached(f.kids, s);
      Reached(f.rest, s);
    }
  }

  ghost function TreeKids(f: Forest, n: nat): (kids: seq<seq<nat>>)
    ensures |kids| == n && forall i :: 0 <= i < n ==> kids[i] == Top(KidsOf(f, i))
  {
    seq(n, i requires 0 <= i < n => Top(KidsOf(f, i)))
  }

  /** The child lists of a tree: well linked, unshared, and listing all but the root. */
  lemma {:induction false} TreeLinked(nodes: seq<Node>, root: nat, f: Forest)
    requires IsTree(nodes, root, f)
    ensures Linked(nodes, TreeKids(f, |nodes|)) && root !in Listed(TreeKids(f, |nodes|))
    ensures forall s: set<nat> :: root in s && Closed(s, TreeKids(f, |nodes|)) ==> forall i: nat :: i < |nodes| ==> i in s
  {
    var kids := TreeKids(f, |nodes|);
    forall i | 0 <= i < |nodes| ensures NodeOk(nodes, i, kids[i]) { KidsOk(nodes, root, f, i); }
    forall i, a, j, b | InLists(kids, i, a) && InLists(kids, j, b) && kids[i][a] == kids[j][b]
      ensures i == j && a == b
    {
      OneParent(f, i, j, kids[i][a]);
      KidsFacts(f, i);
      TopFacts(KidsOf(f, i));
    }
    forall i, a | 0 <= i < |kids| && 0 <= a < |kids[i]| ensures kids[i][a] != root {
      ChildNotTop(f, i, kids[i][a]);
      assert Top(f)[0] == root;
    }
    forall s: set<nat> | root in s && Closed(s, kids) ensures forall i: nat :: i < |nodes| ==> i in s {
      FootprintBounded(nodes, root, f);
      Reached(f, s);
    }
  }

  lemma {:induction false} FootprintBounded(nodes: seq<Node>, i: int, f: Forest)
    requires IsForest(nodes, i, f)
    ensures forall j :: j in Footprint(f) ==> j < |nodes|
    decreases f
  {
    if f.Cons? {
      FootprintBounded(nodes, nodes[i].first, f.kids);
      FootprintBounded(nodes, nodes[i].next, f.rest);
    }
  }

  ghost predicate Closed(s: set<nat>, kids: seq<seq<nat>>) {
    forall i, a :: i in s && i < |kids| && 0 <= a < |kids[i]| ==> kids[i][a] in s
  }

  // ---- From child lists to a tree ----

  /** Parents and depths witness that the child lists have no cycle. */
  datatype Ranks = Ranks(parent: seq<nat>, depth: seq<nat>, bound: nat)

  ghost predicate Ranked(kids: seq<seq<nat>>, r: Ranks) {
    && |r.parent| == |r.depth| == |kids|
    && (forall i :: 0 <= i < |kids| ==> r.depth[i] <= r.bound)
    && (forall i :: 0 <= i < |kids| && r.depth[i] > 0 ==> r.parent[i] < |kids| && r.depth[r.parent[i]] == r.depth[i] - 1)
    && (forall i, a :: InLists(kids, i, a) ==>
          kids[i][a] < |kids| && r.parent[kids[i][a]] == i && r.depth[kids[i][a]] == r.depth[i] + 1)
  }

  /** All of `cs` are distinct nodes at depth `d`. */
  ghost predicate Level(r: Ranks, cs: seq<nat>, d: nat) {
    forall k :: 0 <= k < |cs| ==> cs[k] < |r.depth| && r.depth[cs[k]] == d
  }

  ghost predicate Ready(kids: seq<seq<nat>>, r: Ranks, cs: seq<nat>, d: nat) {
    Ranked(kids, r) && Level(r, cs, d) && d <= r.bound + 1
  }

  lemma ReadyParts(kids: seq<seq<nat>>, r: Ranks, cs: seq<nat>, d: nat)
    requires Ready(kids, r, cs, d) && cs != []
    ensures cs[0] < |kids| && Ready(kids, r, kids[cs[0]], d + 1) && Ready(kids, r, cs[1..], d)
  {
    var i := cs[0];
    forall k | 0 <= k < |kids[i]| ensures kids[i][k] < |r.depth| && r.depth[kids[i][k]] == d + 1 {
      assert InLists(kids, i, k);
    }
  }

  ghost function Build(nodes: seq<Node>, kids: seq<seq<nat>>, r: Ranks, cs: seq<nat>, d: nat): Forest
    requires |nodes| == |kids| && Ready(kids, r, cs, d)
    decreases r.bound + 1 - d, |cs|
  {
    if cs == [] then Nil
    else
      var i := cs[0];
      ReadyParts(kids, r, cs, d);
      Cons(i, nodes[i].op, nodes[i].role, Build(nodes, kids, r, kids[i], d + 1), Build(nodes, kids, r, cs[1..], d))
  }

  lemma RolesFirst(nodes: seq<Node>, cs: seq<nat>)
    requires cs != [] && forall k :: 0 <= k < |cs| ==> cs[k] < |nodes|
    ensures Roles(nodes, cs) == [nodes[cs[0]].role] + Roles(nodes, cs[1..])
  {
  }

  lemma {:induction false} BuildTop(nodes: seq<Node>, kids: seq<seq<nat>>, r: Ranks, cs: seq<nat>, d: nat)
    requires |nodes| == |kids| && Ready(kids, r, cs, d)
    ensures Top(Build(nodes, kids, r, cs, d)) == cs
    ensures RolesOf(Build(nodes, kids, r, cs, d)) == Roles(nodes, cs)
    decreases |cs|
  {
    if cs != [] {
      ReadyParts(kids, r, cs, d);
      BuildTop(nodes, kids, r, cs[1..], d);
      RolesFirst(nodes, cs);
      assert cs == [cs[0]] + cs[1..];
    }
  }

  /** The stored last link, count and roles of a node are those of the forest below it. */
  lemma {:induction false} BelowNode(nodes: seq<Node>, i: nat, cs: seq<nat>, below: Forest)
    requires i < |nodes| && NodeOk(nodes, i, cs) && Top(below) == cs && RolesOf(below) == Roles(nodes, cs)
    ensures nodes[i].last == LastIdx(below) && nodes[i].count == Len(below) && ShapeOk(nodes[i].op, RolesOf(below))
  {
    TopFacts(below);
  }

  lemma {:induction false} BuildIsForest(nodes: seq<Node>, kids: seq<seq<nat>>, r: Ranks, at: int, cs: seq<nat>, d: nat)
    requires AllOk(nodes, kids) && Ready(kids, r, cs, d)
    requires Walk(nodes, at, cs, NO_NODE)
    ensures IsForest(nodes, at, Build(nodes, kids, r, cs, d)) && Shaped(Build(nodes, kids, r, cs, d))
    decreases r.bound + 1 - d, |cs|
  {
    if cs != [] {
      var i := cs[0];
      ReadyParts(kids, r, cs, d);
      assert NodeOk(nodes, i, kids[i]);
      BuildTop(nodes, kids, r, kids[i], d + 1);
      BelowNode(nodes, i, kids[i], Build(nodes, kids, r, kids[i], d + 1));
      BuildIsForest(nodes, kids, r, nodes[i].first, kids[i], d + 1);
      BuildIsForest(nodes, kids, r, nodes[i].next, cs[1..], d);
    }
  }

  /** The ancestor of `x` at depth `d`. */
  ghost function Ancestor(kids: seq<seq<nat>>, r: Ranks, x: nat, d: nat): nat
    requires Ranked(kids, r) && x < |kids|
    decreases r.depth[x]
  {
    if r.depth[x] <= d then x else Ancestor(kids, r, r.parent[x], d)
  }

  lemma {:induction false} AncestorParent(kids: seq<seq<nat>>, r: Ranks, x: nat, d: nat)
    requires Ranked(kids, r) && x < |kids| && r.depth[x] > d
    ensures Ancestor(kids, r, x, d + 1) < |kids| && r.depth[Ancestor(kids, r, x, d + 1)] == d + 1
    ensures Ancestor(kids, r, x, d) == r.parent[Ancestor(kids, r, x, d + 1)]
    decreases r.depth[x]
  {
    if r.depth[x] > d + 1 {
      AncestorParent(kids, r, r.parent[x], d);
    } else {
      assert Ancestor(kids, r, r.parent[x], d) == r.parent[x];
    }
  }

  /** Nodes built below `cs` have their ancestor at that depth in `cs`. */
  lemma {:induction false} BuildAncestor(nodes: seq<Node>, kids: seq<seq<nat>>, r: Ranks, cs: seq<nat>, d: nat, x: nat)
    requires |nodes| == |kids| && Ready(kids, r, cs, d)
    requires x in Footprint(Build(nodes, kids, r, cs, d))
    ensures x < |kids| && r.depth[x] >= d && Ancestor(kids, r, x, d) in cs
    decreases r.bound + 1 - d, |cs|
  {
    var i := cs[0];
    ReadyParts(kids, r, cs, d);
    if x in Footprint(Build(nodes, kids, r, kids[i], d + 1)) {
      BuildAncestor(nodes, kids, r, kids[i], d + 1, x);
      AncestorParent(kids, r, x, d);
      var y := Ancestor(kids, r, x, d + 1);
      var a :| 0 <= a < |kids[i]| && kids[i][a] == y;
      assert InLists(kids, i, a);
    } else if x != i {
      BuildAncestor(nodes, kids, r, cs[1..], d, x);
    }
  }

  lemma {:induction false} BuildDistinct(nodes: seq<Node>, kids: seq<seq<nat>>, r: Ranks, cs: seq<nat>, d: nat)
    requires |nodes| == |kids| && Ready(kids, r, cs, d)
    requires NoRepeats(cs) && forall i :: 0 <= i < |kids| ==> NoRepeats(kids[i])
    ensures Distinct(Build(nodes, kids, r, cs, d))
    decreases r.bound + 1 - d, |cs|
  {
    if cs != [] {
      ReadyParts(kids, r, cs, d);
      var i, below, beside := cs[0], Build(nodes, kids, r, kids[cs[0]], d + 1), Build(nodes, kids, r, cs[1..], d);
      BuildDistinct(nodes, kids, r, kids[i], d + 1);
      BuildDistinct(nodes, kids, r, cs[1..], d);
      forall x | x in Footprint(beside) ensures x != i && x !in Footprint(below) {
        BesideNotBelow(nodes, kids, r, cs, d, x);
      }
      if i in Footprint(below) { BuildAncestor(nodes, kids, r, kids[i], d + 1, i); }
    }
  }

  lemma BesideNotBelow(nodes: seq<Node>, kids: seq<seq<nat>>, r: Ranks, cs: seq<nat>, d: nat, x: nat)
    requires |nodes| == |kids| && cs != [] && Ready(kids, r, cs, d) && NoRepeats(cs)
    requires cs[0] < |kids| && Ready(kids, r, kids[cs[0]], d + 1) && Ready(kids, r, cs[1..], d)
    requires x in Footprint(Build(nodes, kids, r, cs[1..], d))
    ensures x != cs[0] && x !in Footprint(Build(nodes, kids, r, kids[cs[0]], d + 1))
  {
    BuildAncestor(nodes, kids, r, cs[1..], d, x);
    if x in Footprint(Build(nodes, kids, r, kids[cs[0]], d + 1)) {
      BuildAncestor(nodes, kids, r, kids[cs[0]], d + 1, x);
      BelowAncestor(nodes, kids, r, cs[0], d, x);
    }
  }

  lemma BelowAncestor(nodes: seq<Node>, kids: seq<seq<nat>>, r: Ranks, i: nat, d: nat, x: nat)
    requires |nodes| == |kids| && Ranked(kids, r) && i < |kids| && r.depth[i] == d && x < |kids| && r.depth[x] > d
    requires Ancestor(kids, r, x, d + 1) in kids[i]
    ensures Ancestor(kids, r, x, d) == i
  {
    AncestorParent(kids, r, x, d);
    var a :| 0 <= a < |kids[i]| && kids[i][a] == Ancestor(kids, r, x, d + 1);
    assert InLists(kids, i, a);
  }

  /** A closed set of nodes that contains `cs` contains what is built from them. */
  lemma {:induction false} BuildCovers(nodes: seq<Node>, kids: seq<seq<nat>>, r: Ranks, cs: seq<nat>, d: nat, x: nat)
    requires |nodes| == |kids| && Ready(kids, r, cs, d)
    requires x < |kids| && r.depth[x] >= d && Ancestor(kids, r, x, d) in cs
    requires forall y :: 0 <= y < |kids| && r.depth[y] > 0 ==> y in kids[r.parent[y]]
    ensures x in Footprint(Build(nodes, kids, r, cs, d))
    decreases r.bound + 1 - d, |cs|
  {
    var i := cs[0];
    ReadyParts(kids, r, cs, d);
    if Ancestor(kids, r, x, d) == i {
      if r.depth[x] > d {
        AncestorParent(kids, r, x, d);
        BuildCovers(nodes, kids, r, kids[i], d + 1, x);
      }
    } else {
      BuildCovers(nodes, kids, r, cs[1..], d, x);
    }
  }

  lemma RowUnshared(kids: seq<seq<nat>>, i: nat)
    requires Unshared(kids) && i < |kids|
    ensures NoRepeats(kids[i])
  {
    forall a, b | 0 <= a < b < |kids[i]| ensures kids[i][a] != kids[i][b] {
      assert InLists(kids, i, a) && InLists(kids, i, b);
    }
  }

  /** Ranked child lists in which only the root has depth 0 form a tree. */
  lemma {:induction false} RankedTree(nodes: seq<Node>, root: nat, kids: seq<seq<nat>>, r: Ranks)
    requires Linked(nodes, kids) && Ranked(kids, r) && root < |nodes| && r.depth[root] == 0
    requires forall x :: 0 <= x < |kids| && x != root ==> r.depth[x] > 0 && x in kids[r.parent[x]]
    requires nodes[root].op == Program && nodes[root].role == Root && nodes[root].next == NO_NODE
    ensures exists f :: IsTree(nodes, root, f)
  {
    var f := Build(nodes, kids, r, [root], 0);
    assert Walk(nodes, nodes[root].next, [root][1..], NO_NODE);
    assert Walk(nodes, root, [root], NO_NODE);
    BuildIsForest(nodes, kids, r, root, [root], 0);
    RankedDistinct(nodes, root, kids, r);
    forall x: nat | x < |nodes| ensures x in Footprint(f) { RankedCovers(nodes, root, kids, r, x); }
    assert f.rest == Build(nodes, kids, r, [root][1..], 0);
    assert IsTree(nodes, root, f);
  }

  lemma RankedDistinct(nodes: seq<Node>, root: nat, kids: seq<seq<nat>>, r: Ranks)
    requires |nodes| == |kids| && Unshared(kids) && Ready(kids, r, [root], 0)
    ensures Distinct(Build(nodes, kids, r, [root], 0))
  {
    forall i | 0 <= i < |kids| ensures NoRepeats(kids[i]) { RowUnshared(kids, i); }
    BuildDistinct(nodes, kids, r, [root], 0);
  }

  lemma RankedCovers(nodes: seq<Node>, root: nat, kids: seq<seq<nat>>, r: Ranks, x: nat)
    requires |nodes| == |kids| && x < |nodes| && Ready(kids, r, [root], 0)
    requires forall y :: 0 <= y < |kids| && y != root ==> r.depth[y] > 0 && y in kids[r.parent[y]]
    ensures x in Footprint(Build(nodes, kids, r, [root], 0))
  {
    RootAncestor(kids, r, root, x);
    assert Ancestor(kids, r, x, 0) == [root][0];
    BuildCovers(nodes, kids, r, [root], 0, x);
  }

  lemma {:induction false} RootAncestor(kids: seq<seq<nat>>, r: Ranks, root: nat, x: nat)
    requires Ranked(kids, r) && root < |kids| && x < |kids|
    requires forall y :: 0 <= y < |kids| && y != root ==> r.depth[y] > 0
    ensures Ancestor(kids, r, x, 0) == root
    decreases r.depth[x]
  {
    if r.depth[x] > 0 { RootAncestor(kids, r, root, r.parent[x]); }
  }
}
