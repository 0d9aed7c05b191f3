/** Build tasks and their dependencies (tools/vbuild.c). */
module TaskGraph {
  import opened Options

  datatype Action = Build | Run | Check | Clean | Test | Nothing

  datatype Task = Task(name: string, action: Action, deps: seq<string>)

  type Tasks = seq<Task>

  /** The first task of a name, or -1. */
  function FindFrom(ts: Tasks, name: string, i: nat): (r: int)
    requires i <= |ts|
    ensures r == -1 || (i <= r < |ts| && ts[r].name == name)
    ensures r == -1 ==> forall j :: i <= j < |ts| ==> ts[j].name != name
    decreases |ts| - i
  {
    if i == |ts| then -1 else if ts[i].name == name then i else FindFrom(ts, name, i + 1)
  }

  function Find(ts: Tasks, name: string): int {
    FindFrom(ts, name, 0)
  }

  /** Every dependency names a task. */
  predicate Defined(ts: Tasks) {
    forall i, j :: 0 <= i < |ts| && 0 <= j < |ts[i].deps| ==> Find(ts, ts[i].deps[j]) != -1
  }

  /** Task `i` depends on task `d`. */
  predicate Needs(ts: Tasks, i: nat, d: nat) {
    i < |ts| && d < |ts| && exists j :: 0 <= j < |ts[i].deps| && Find(ts, ts[i].deps[j]) == d
  }

  /** Each task of the path depends on the next. */
  predicate Path(ts: Tasks, p: seq<nat>) {
    p != [] && (forall k :: 0 <= k < |p| ==> p[k] < |ts|) && forall k :: 0 <= k < |p| - 1 ==> Needs(ts, p[k], p[k + 1])
  }

  ghost predicate Reaches(ts: Tasks, i: nat, d: nat) {
    exists p :: Path(ts, p) && p[0] == i && p[|p| - 1] == d
  }

  ghost predicate Cyclic(ts: Tasks) {
    exists p :: Path(ts, p) && |p| > 1 && p[0] == p[|p| - 1]
  }

  /** Tasks in an order in which each comes once and after all its dependencies. */
  ghost predicate Ordered(ts: Tasks, order: seq<nat>) {
    && (forall k :: 0 <= k < |order| ==> order[k] < |ts|)
    && (forall a, b :: 0 <= a < b < |order| ==> order[a] != order[b])
    && (forall k, d :: 0 <= k < |order| && Needs(ts, order[k], d) ==> d in order[..k])
  }

  lemma OrderedSnoc(ts: Tasks, order: seq<nat>, i: nat)
    requires Ordered(ts, order) && i < |ts| && i !in order && forall d :: Needs(ts, i, d) ==> d in order
    ensures Ordered(ts, order + [i])
  {
    var all := order + [i];
    forall k, d | 0 <= k < |all| && Needs(ts, all[k], d) ensures d in all[..k] {
      if k < |order| { assert all[..k] == order[..k]; } else { assert all[..k] == order; }
    }
  }

  lemma OrderedPrefix(ts: Tasks, order: seq<nat>, n: nat)
    requires Ordered(ts, order) && n <= |order|
    ensures Ordered(ts, order[..n])
  {
    forall k, d | 0 <= k < n && Needs(ts, order[k], d) ensures d in order[..n][..k] { assert order[..n][..k] == order[..k]; }
  }

  /** Along a path, tasks of an order come ever earlier. */
  lemma {:induction false} PathFalls(ts: Tasks, order: seq<nat>, p: seq<nat>, a: nat) returns (b: nat)
    requires Ordered(ts, order) && Path(ts, p) && a < |order| && order[a] == p[0]
    ensures b <= a && order[b] == p[|p| - 1] && (|p| > 1 ==> b < a)
    decreases |p|
  {
    if |p| == 1 {
      b := a;
    } else {
      assert Needs(ts, order[a], p[1]);
      var c :| 0 <= c < a && order[c] == p[1];
      PathTail(ts, p);
      b := PathFalls(ts, order, p[1..], c);
    }
  }

  lemma PathTail(ts: Tasks, p: seq<nat>)
    requires Path(ts, p) && |p| > 1
    ensures Path(ts, p[1..])
  {
    forall k | 0 <= k < |p[1..]| - 1 ensures Needs(ts, p[1..][k], p[1..][k + 1]) { assert Needs(ts, p[k + 1], p[k + 2]); }
  }

  /** Tasks that can be ordered have no cycle. */
  lemma OrderedAcyclic(ts: Tasks, order: seq<nat>)
    requires Ordered(ts, order) && forall i :: 0 <= i < |ts| ==> i in order
    ensures !Cyclic(ts)
  {
    if Cyclic(ts) {
      var p :| Path(ts, p) && |p| > 1 && p[0] == p[|p| - 1];
      assert p[0] in order;
      var a :| 0 <= a < |order| && order[a] == p[0];
      var b := PathFalls(ts, order, p, a);
    }
  }

  lemma ReachStep(ts: Tasks, i: nat, d: nat, e: nat)
    requires Reaches(ts, i, d) && Needs(ts, d, e)
    ensures Reaches(ts, i, e)
  {
    var p :| Path(ts, p) && p[0] == i && p[|p| - 1] == d;
    var q := p + [e];
    forall k | 0 <= k < |q| - 1 ensures Needs(ts, q[k], q[k + 1]) { if k < |p| - 1 { assert Needs(ts, p[k], p[k + 1]); } }
    assert Path(ts, q);
  }

  lemma ReachSelf(ts: Tasks, i: nat)
    requires i < |ts|
    ensures Reaches(ts, i, i)
  {
    assert Path(ts, [i]);
  }

  /** A set that contains its members' dependencies contains what they reach. */
  lemma {:induction false} ClosedReach(ts: Tasks, s: set<nat>, p: seq<nat>)
    requires Path(ts, p) && p[0] in s && forall i, d :: i in s && Needs(ts, i, d) ==> d in s
    ensures p[|p| - 1] in s
    decreases |p|
  {
    if |p| > 1 {
      assert Needs(ts, p[0], p[1]);
      PathTail(ts, p);
      ClosedReach(ts, s, p[1..]);
    }
  }
}
