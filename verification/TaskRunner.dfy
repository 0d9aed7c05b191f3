/** Checking the graph of build tasks for cycles, deciding whether the project lock is needed, and
    running a task after its dependencies. */
module TaskRunner {
  import opened TaskGraph
  import opened Pigeonhole

  const NEW: int := 0
  const ACTIVE: int := 1
  const FINISHED: int := 2

  // ---- The depth-first searches ----

  /** Which tasks are in progress, innermost last, and which are finished, in order. */
  ghost predicate Searching(ts: Tasks, states: seq<int>, stack: seq<nat>, order: seq<nat>) {
    && |states| == |ts| && Ordered(ts, order)
    && (forall i :: 0 <= i < |ts| ==> (states[i] == ACTIVE <==> i in stack) && (states[i] == FINISHED <==> i in order))
    && (forall i :: 0 <= i < |ts| ==> states[i] == NEW || states[i] == ACTIVE || states[i] == FINISHED)
    && (forall k :: 0 <= k < |stack| ==> stack[k] < |ts|)
    && (forall k :: 0 <= k < |stack| - 1 ==> Needs(ts, stack[k], stack[k + 1]))
  }

  /** The next task to look at, below the innermost one in progress. */
  predicate Below(ts: Tasks, stack: seq<nat>, index: nat) {
    index < |ts| && (stack != [] ==> Needs(ts, stack[|stack| - 1], index))
  }

  ghost function Fresh(states: seq<int>): set<nat> {
    set i | 0 <= i < |states| && states[i] == NEW
  }

  /** Meeting a task in progress closes a cycle. */
  lemma StackCycle(ts: Tasks, states: seq<int>, stack: seq<nat>, order: seq<nat>, index: nat)
    requires Searching(ts, states, stack, order) && Below(ts, stack, index) && states[index] == ACTIVE
    ensures Cyclic(ts)
  {
    var k :| 0 <= k < |stack| && stack[k] == index;
    var p := stack[k..] + [index];
    forall j | 0 <= j < |p| - 1 ensures Needs(ts, p[j], p[j + 1]) {
      if j < |p| - 2 { assert Needs(ts, stack[k + j], stack[k + j + 1]); }
    }
    assert Path(ts, p);
  }

  /** Starting on a task. */
  lemma Entered(ts: Tasks, states: seq<int>, stack: seq<nat>, order: seq<nat>, index: nat)
    requires Searching(ts, states, stack, order) && Below(ts, stack, index) && states[index] == NEW
    ensures Searching(ts, states[index := ACTIVE], stack + [index], order)
    ensures |Fresh(states[index := ACTIVE])| < |Fresh(states)|
  {
    var s, t := states[index := ACTIVE], stack + [index];
    forall k | 0 <= k < |t| - 1 ensures Needs(ts, t[k], t[k + 1]) { if k < |stack| - 1 { assert Needs(ts, stack[k], stack[k + 1]); } }
    assert index in t && forall i :: i in t <==> i in stack || i == index;
    assert Fresh(s) == Fresh(states) - {index};
  }

  /** Finishing the innermost task when its dependencies are finished. */
  lemma Left(ts: Tasks, states: seq<int>, stack: seq<nat>, order: seq<nat>, index: nat)
    requires Searching(ts, states, stack + [index], order) && index < |ts| && index !in stack
    requires forall d :: Needs(ts, index, d) ==> d in order
    ensures Searching(ts, states[index := FINISHED], stack, order + [index])
  {
    var t := stack + [index];
    assert t[|stack|] == index && states[index] == ACTIVE;
    OrderedSnoc(ts, order, index);
    forall k | 0 <= k < |stack| ensures stack[k] < |ts| { assert t[k] == stack[k]; }
    forall k | 0 <= k < |stack| - 1 ensures Needs(ts, stack[k], stack[k + 1]) { assert Needs(ts, t[k], t[k + 1]); }
    assert forall i :: i in t <==> i in stack || i == index;
  }

  lemma DependencyNeeded(ts: Tasks, index: nat, j: nat)
    requires index < |ts| && j < |ts[index].deps| && Find(ts, ts[index].deps[j]) != -1
    ensures Needs(ts, index, Find(ts, ts[index].deps[j]))
  {
  }

  // ---- The graph check ----

  /** Looks for a cycle from a task on; every task it leaves behind is finished. */
  method ValidateFrom(ts: Tasks, index: nat, states: array<int>, ghost stack: seq<nat>, ghost order: seq<nat>) returns (ok: bool, ghost order1: seq<nat>)
    requires Defined(ts) && Searching(ts, states[..], stack, order) && Below(ts, stack, index)
    modifies states
    ensures ok ==> Searching(ts, states[..], stack, order1) && order <= order1 && index in order1
    ensures ok ==> Fresh(states[..]) <= Fresh(old(states[..]))
    ensures !ok ==> Cyclic(ts)
    decreases |Fresh(states[..])|, 1
  {
    order1 := order;
    if states[index] == ACTIVE {
      StackCycle(ts, states[..], stack, order, index);
      return false, order;
    }
    if states[index] == FINISHED { return true, order; }
    ghost var before := states[..];
    Entered(ts, before, stack, order, index);
    states[index] := ACTIVE;
    assert states[..] == before[index := ACTIVE];
    ok, order1 := ValidateDependencies(ts, index, states, stack, order);
    if !ok { return; }
    ghost var mid := states[..];
    Left(ts, mid, stack, order1, index);
    states[index] := FINISHED;
    assert states[..] == mid[index := FINISHED];
    order1 := order1 + [index];
  }

  method ValidateDependencies(ts: Tasks, index: nat, states: array<int>, ghost stack: seq<nat>, ghost order: seq<nat>) returns (ok: bool, ghost order1: seq<nat>)
    requires Defined(ts) && index < |ts| && Searching(ts, states[..], stack + [index], order)
    modifies states
    ensures ok ==> Searching(ts, states[..], stack + [index], order1) && order <= order1
    ensures ok ==> (forall d :: Needs(ts, index, d) ==> d in order1) && Fresh(states[..]) <= Fresh(old(states[..]))
    ensures !ok ==> Cyclic(ts)
    decreases |Fresh(states[..])|, 2
  {
    order1 := order;
    ghost var all := stack + [index];
    var i := 0;
    while i < |ts[index].deps|
      invariant 0 <= i <= |ts[index].deps|
      invariant Searching(ts, states[..], all, order1) && order <= order1 && Fresh(states[..]) <= Fresh(old(states[..]))
      invariant forall j :: 0 <= j < i ==> Find(ts, ts[index].deps[j]) in order1
    {
      var dependency := Find(ts, ts[index].deps[i]);
      if dependency < 0 { return false, order1; }
      DependencyNeeded(ts, index, i);
      SubsetSize(Fresh(states[..]), Fresh(old(states[..])));
      ok, order1 := ValidateFrom(ts, dependency, states, all, order1);
      if !ok { return; }
      i := i + 1;
    }
    ok := true;
  }

  /** No task depends on itself, directly or not. */
  method ValidateGraph(ts: Tasks) returns (ok: bool)
    requires Defined(ts)
    ensures ok <==> !Cyclic(ts)
  {
    var states := new int[|ts|](_ => NEW);
    ghost var order: seq<nat> := [];
    for i := 0 to |ts|
      invariant Searching(ts, states[..], [], order) && forall k :: 0 <= k < i ==> k in order
    {
      ghost var before := order;
      ok, order := ValidateFrom(ts, i, states, [], order);
      if !ok { return; }
      assert forall k :: k in before ==> k in order;
    }
    OrderedAcyclic(ts, order);
    ok := true;
  }

  method CheckDefined(ts: Tasks) returns (ok: bool)
    ensures ok <==> Defined(ts)
  {
    for i := 0 to |ts|
      invariant forall k, j :: 0 <= k < i && 0 <= j < |ts[k].deps| ==> Find(ts, ts[k].deps[j]) != -1
    {
      for j := 0 to |ts[i].deps|
        invariant forall k :: 0 <= k < j ==> Find(ts, ts[i].deps[k]) != -1
      {
        if Find(ts, ts[i].deps[j]) < 0 { return false; }
      }
    }
    ok := true;
  }

  // ---- The lock ----

  /** Actions that can change the project or run a program. */
  predicate Mutating(t: Task) {
    t.action == Build || t.action == Run || t.action == Clean || t.action == Test
  }

  ghost predicate SomeMutating(ts: Tasks, index: nat) {
    exists d: nat :: d < |ts| && Reaches(ts, index, d) && Mutating(ts[d])
  }

  ghost function Marked(visited: seq<bool>): set<nat> {
    set i | 0 <= i < |visited| && visited[i]
  }

  ghost function Unmarked(visited: seq<bool>): set<nat> {
    set i | 0 <= i < |visited| && !visited[i]
  }

  /** The newly visited tasks, apart from one, change nothing and need only visited tasks. */
  ghost predicate Harmless(ts: Tasks, before: set<nat>, now: set<nat>, but: int) {
    && before <= now
    && (forall x :: x in now && x !in before ==> x < |ts| && !Mutating(ts[x]))
    && (forall x, d :: x in now && x !in before && x != but && Needs(ts, x, d) ==> d in now)
  }

  method LockFrom(ts: Tasks, index: nat, visited: array<bool>) returns (r: bool)
    requires Defined(ts) && visited.Length == |ts| && index < |ts|
    modifies visited
    ensures r ==> SomeMutating(ts, index)
    ensures !r ==> visited[index] && Harmless(ts, Marked(old(visited[..])), Marked(visited[..]), -1)
    ensures Unmarked(visited[..]) <= Unmarked(old(visited[..]))
    decreases |Unmarked(visited[..])|, 1
  {
    if visited[index] { return false; }
    ghost var before := visited[..];
    visited[index] := true;
    assert visited[..] == before[index := true];
    assert Unmarked(visited[..]) == Unmarked(before) - {index} && Marked(visited[..]) == Marked(before) + {index};
    ReachSelf(ts, index);
    if ts[index].action != Check && ts[index].action != Nothing { return true; }
    r := LockDependencies(ts, index, visited, Marked(before));
  }

  method LockDependencies(ts: Tasks, index: nat, visited: array<bool>, ghost before: set<nat>) returns (r: bool)
    requires Defined(ts) && visited.Length == |ts| && index < |ts| && visited[index] && index !in before
    requires Harmless(ts, before, Marked(visited[..]), index)
    modifies visited
    ensures r ==> SomeMutating(ts, index)
    ensures !r ==> visited[index] && Harmless(ts, before, Marked(visited[..]), -1)
    ensures Unmarked(visited[..]) <= Unmarked(old(visited[..]))
    decreases |Unmarked(visited[..])|, 2
  {
    var i := 0;
    while i < |ts[index].deps|
      invariant 0 <= i <= |ts[index].deps| && visited[index] && Harmless(ts, before, Marked(visited[..]), index)
      invariant Unmarked(visited[..]) <= Unmarked(old(visited[..]))
      invariant forall j :: 0 <= j < i ==> Find(ts, ts[index].deps[j]) in Marked(visited[..])
    {
      var dependency := Find(ts, ts[index].deps[i]);
      if dependency >= 0 {
        DependencyNeeded(ts, index, i);
        SubsetSize(Unmarked(visited[..]), Unmarked(old(visited[..])));
        ghost var mid := Marked(visited[..]);
        r := LockFrom(ts, dependency, visited);
        if r {
          SomeBelow(ts, index, dependency);
          return;
        }
        HarmlessTrans(ts, before, mid, Marked(visited[..]), index);
      }
      i := i + 1;
    }
    r := false;
  }

  lemma HarmlessTrans(ts: Tasks, a: set<nat>, b: set<nat>, c: set<nat>, but: int)
    requires Harmless(ts, a, b, but) && Harmless(ts, b, c, -1)
    ensures Harmless(ts, a, c, but)
  {
  }

  lemma SomeBelow(ts: Tasks, index: nat, d: nat)
    requires Needs(ts, index, d) && SomeMutating(ts, d)
    ensures SomeMutating(ts, index)
  {
    var e: nat :| e < |ts| && Reaches(ts, d, e) && Mutating(ts[e]);
    var p :| Path(ts, p) && p[0] == d && p[|p| - 1] == e;
    ReachCons(ts, index, p);
  }

  lemma ReachCons(ts: Tasks, index: nat, p: seq<nat>)
    requires Path(ts, p) && Needs(ts, index, p[0])
    ensures Reaches(ts, index, p[|p| - 1])
  {
    var q := [index] + p;
    forall k | 0 <= k < |q| - 1 ensures Needs(ts, q[k], q[k + 1]) { if k > 0 { assert Needs(ts, p[k - 1], p[k]); } }
    assert Path(ts, q);
  }

  /** The lock is needed exactly when some task that would run changes the project. */
  method RequiresLock(ts: Tasks, index: nat) returns (r: bool)
    requires Defined(ts) && index < |ts|
    ensures r <==> exists d: nat :: d < |ts| && Reaches(ts, index, d) && ts[d].action in {Build, Run, Clean, Test}
  {
    var visited := new bool[|ts|](_ => false);
    assert Marked(visited[..]) == {};
    r := LockFrom(ts, index, visited);
    if !r && SomeMutating(ts, index) {
      ghost var d: nat :| d < |ts| && Reaches(ts, index, d) && Mutating(ts[d]);
      ghost var p :| Path(ts, p) && p[0] == index && p[|p| - 1] == d;
      ClosedReach(ts, Marked(visited[..]), p);
    }
    LockSpelled(ts, index);
  }

  /** The actions that need the lock, by name. */
  lemma LockSpelled(ts: Tasks, index: nat)
    ensures SomeMutating(ts, index) <==> exists d: nat :: d < |ts| && Reaches(ts, index, d) && ts[d].action in {Build, Run, Clean, Test}
  {
  }

  // ---- Running ----

  /** What was performed so far succeeded. */
  ghost predicate Succeeded(outcome: nat -> int, log: seq<nat>) {
    forall k :: 0 <= k < |log| ==> outcome(log[k]) == 0
  }

  /** The last action failed and ended the run. */
  ghost predicate StoppedAt(ts: Tasks, outcome: nat -> int, log: seq<nat>, rc: int) {
    log != [] && Ordered(ts, log) && Succeeded(outcome, log[..|log| - 1]) && outcome(log[|log| - 1]) == rc != 0
  }

  /** Only tasks that a task needs are performed for it. */
  ghost predicate OnlyNeeded(ts: Tasks, index: nat, before: seq<nat>, log: seq<nat>) {
    before <= log && forall t :: t in log && t !in before ==> Reaches(ts, index, t)
  }

  /** Performs the dependencies and then the build task itself, unless it has been performed. Without a
      cycle no task in progress is met again. */
  method ExecuteTask(ts: Tasks, index: nat, states: array<int>, outcome: nat -> int, ghost stack: seq<nat>, log: seq<nat>) returns (rc: int, log1: seq<nat>)
    requires Defined(ts) && !Cyclic(ts) && Searching(ts, states[..], stack, log) && Below(ts, stack, index) && Succeeded(outcome, log)
    modifies states
    ensures OnlyNeeded(ts, index, log, log1)
    ensures rc == 0 ==> Searching(ts, states[..], stack, log1) && index in log1 && Succeeded(outcome, log1)
    ensures rc == 0 ==> Fresh(states[..]) <= Fresh(old(states[..]))
    ensures rc != 0 ==> StoppedAt(ts, outcome, log1, rc)
    decreases |Fresh(states[..])|, 1
  {
    ReachSelf(ts, index);
    NotActive(ts, states[..], stack, log, index);
    if states[index] == FINISHED { return 0, log; }
    ghost var before := states[..];
    Entered(ts, before, stack, log, index);
    states[index] := ACTIVE;
    assert states[..] == before[index := ACTIVE];
    rc, log1 := ExecuteDependencies(ts, index, states, outcome, stack, log);
    if rc != 0 { return; }
    ghost var mid := states[..];
    Left(ts, mid, stack, log1, index);
    ghost var done := log1;
    log1 := log1 + [index];
    assert log1[..|log1| - 1] == done;
    rc := outcome(index);
    if rc != 0 { return; }
    states[index] := FINISHED;
    assert states[..] == mid[index := FINISHED];
  }

  lemma NotActive(ts: Tasks, states: seq<int>, stack: seq<nat>, log: seq<nat>, index: nat)
    requires !Cyclic(ts) && Searching(ts, states, stack, log) && Below(ts, stack, index)
    ensures states[index] != ACTIVE && index !in stack
  {
    if states[index] == ACTIVE { StackCycle(ts, states, stack, log, index); }
  }

  method ExecuteDependencies(ts: Tasks, index: nat, states: array<int>, outcome: nat -> int, ghost stack: seq<nat>, log: seq<nat>) returns (rc: int, log1: seq<nat>)
    requires Defined(ts) && !Cyclic(ts) && index < |ts| && Searching(ts, states[..], stack + [index], log) && Succeeded(outcome, log)
    modifies states
    ensures OnlyNeeded(ts, index, log, log1)
    ensures rc == 0 ==> Searching(ts, states[..], stack + [index], log1) && Succeeded(outcome, log1) && (forall d :: Needs(ts, index, d) ==> d in log1)
    ensures rc == 0 ==> Fresh(states[..]) <= Fresh(old(states[..]))
    ensures rc != 0 ==> StoppedAt(ts, outcome, log1, rc)
    decreases |Fresh(states[..])|, 2
  {
    log1 := log;
    ghost var all := stack + [index];
    var i := 0;
    while i < |ts[index].deps|
      invariant 0 <= i <= |ts[index].deps| && OnlyNeeded(ts, index, log, log1)
      invariant Searching(ts, states[..], all, log1) && Succeeded(outcome, log1) && Fresh(states[..]) <= Fresh(old(states[..]))
      invariant DependenciesIn(ts, index, i, log1)
    {
      var dep := Find(ts, ts[index].deps[i]);
      DependencyNeeded(ts, index, i);
      SubsetSize(Fresh(states[..]), Fresh(old(states[..])));
      ghost var mid := log1;
      rc, log1 := ExecuteTask(ts, dep, states, outcome, all, log1);
      NeededBelow(ts, index, dep, log, mid, log1);
      if rc != 0 { return; }
      OneMoreIn(ts, index, i, mid, log1);
      i := i + 1;
    }
    AllIn(ts, index, log1);
    rc := 0;
  }

  /** The first `n` dependencies have been performed. */
  predicate DependenciesIn(ts: Tasks, index: nat, n: nat, log: seq<nat>)
    requires index < |ts| && n <= |ts[index].deps|
  {
    forall j :: 0 <= j < n ==> Find(ts, ts[index].deps[j]) in log
  }

  lemma OneMoreIn(ts: Tasks, index: nat, n: nat, mid: seq<nat>, log: seq<nat>)
    requires index < |ts| && n < |ts[index].deps| && DependenciesIn(ts, index, n, mid) && mid <= log && Find(ts, ts[index].deps[n]) in log
    ensures DependenciesIn(ts, index, n + 1, log)
  {
  }

  lemma AllIn(ts: Tasks, index: nat, log: seq<nat>)
    requires index < |ts| && DependenciesIn(ts, index, |ts[index].deps|, log)
    ensures forall d :: Needs(ts, index, d) ==> d in log
  {
  }

  lemma NeededBelow(ts: Tasks, index: nat, d: nat, before: seq<nat>, mid: seq<nat>, log: seq<nat>)
    requires Needs(ts, index, d) && OnlyNeeded(ts, index, before, mid) && OnlyNeeded(ts, d, mid, log)
    ensures OnlyNeeded(ts, index, before, log)
  {
    forall t | t in log && t !in before ensures Reaches(ts, index, t) {
      if t !in mid {
        var p :| Path(ts, p) && p[0] == d && p[|p| - 1] == t;
        ReachCons(ts, index, p);
      }
    }
  }

  // ---- A whole invocation ----

  /** The build file is accepted. */
  ghost predicate Loaded(ts: Tasks) {
    ts != [] && Defined(ts) && !Cyclic(ts)
  }

  /** Runs a task of an accepted file. `outcome` gives the result of each action. */
  method RunTask(ts: Tasks, name: string, outcome: nat -> int) returns (rc: int, locked: bool, log: seq<nat>)
    ensures !Loaded(ts) ==> rc == 1 && !locked && log == []
    ensures Loaded(ts) && Find(ts, name) == -1 ==> rc == 2 && !locked && log == []
    ensures Loaded(ts) && Find(ts, name) != -1 ==> var index := Find(ts, name);
      (locked <==> exists d: nat :: d < |ts| && Reaches(ts, index, d) && ts[d].action in {Build, Run, Clean, Test}) && Ordered(ts, log) && OnlyNeeded(ts, index, [], log)
    ensures Loaded(ts) && Find(ts, name) != -1 && rc == 0 ==>
      Succeeded(outcome, log) && forall t :: Reaches(ts, Find(ts, name), t) ==> t in log
    ensures Loaded(ts) && Find(ts, name) != -1 && rc != 0 ==> StoppedAt(ts, outcome, log, rc)
  {
    rc, locked, log := 1, false, [];
    if ts == [] { return; }
    var ok := CheckDefined(ts);
    if !ok { return; }
    ok := ValidateGraph(ts);
    if !ok { return; }
    var index := Find(ts, name);
    if index < 0 { return 2, false, []; }
    locked := RequiresLock(ts, index);
    var states := new int[|ts|](_ => NEW);
    rc, log := ExecuteTask(ts, index, states, outcome, [], []);
    if rc == 0 {
      forall t | Reaches(ts, index, t) ensures t in log { PerformedAll(ts, log, index, t); }
    }
  }

  /** What is ordered contains what its tasks need. */
  lemma PerformedAll(ts: Tasks, log: seq<nat>, index: nat, t: nat)
    requires Ordered(ts, log) && index in log && Reaches(ts, index, t)
    ensures t in log
  {
    var s := set x | x in log;
    var p :| Path(ts, p) && p[0] == index && p[|p| - 1] == t;
    forall i, d | i in s && Needs(ts, i, d) ensures d in s {
      var k :| 0 <= k < |log| && log[k] == i;
      assert d in log[..k];
    }
    ClosedReach(ts, s, p);
  }
}
