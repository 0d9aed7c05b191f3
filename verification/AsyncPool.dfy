/** The asynchronous request pool (src/compiler/native_async_net.c) as a state machine: each
    action is one critical section under the pool's lock, so a run is any interleaving of
    the client and the workers. */
module AsyncPool {
  import opened Pigeonhole
  import opened Bytes

  const CAPACITY: nat := 64
  const WORKERS: nat := 4
  const STREAM_CAPACITY: nat := 65536
  const MAX_HANDLE: int := 0x7FFF_FFFF

  datatype TaskState = Free | Queued | Running | Done | Cancelled

  /** `ring` is what the stream buffer holds; `pushed` and `taken` record all bytes that went
      in and came out since the slot was last started. */
  datatype Task = Task(id: int, state: TaskState, streaming: bool, finished: bool, releasing: bool,
                       ring: seq<Byte>, pushed: seq<Byte>, taken: seq<Byte>)

  const Cleared: Task := Task(0, Free, false, false, false, [], [], [])

  /** A busy worker owns a slot. While it pushes, `sent` bytes of `data` are in; `base` bytes
      had been pushed before. */
  datatype Worker = Idle | Busy(slot: nat, data: seq<Byte>, base: nat, sent: nat)

  datatype Pool = Pool(tasks: seq<Task>, queue: seq<nat>, next: int, workers: seq<Worker>)

  datatype Action =
    | Start(streaming: bool)
    | Pop(w: nat) | Finish(w: nat)
    | BeginPush(w: nat, data: seq<Byte>) | Push(w: nat)
    | Cancel(id: int) | Release(id: int) | Take(id: int, max: nat)

  const Initial: Pool := Pool(seq(CAPACITY, _ => Cleared), [], 1, seq(WORKERS, _ => Idle))

  // ---- Looking up slots and handles ----

  /** The first slot in use with a handle, or -1. */
  function FindFrom(tasks: seq<Task>, id: int, i: nat): (r: int)
    requires i <= |tasks|
    ensures r == -1 || (i <= r < |tasks| && tasks[r].state != Free && tasks[r].id == id)
    ensures r == -1 ==> forall j :: i <= j < |tasks| ==> tasks[j].state == Free || tasks[j].id != id
    decreases |tasks| - i
  {
    if i == |tasks| then -1
    else if tasks[i].state != Free && tasks[i].id == id then i
    else FindFrom(tasks, id, i + 1)
  }

  function Find(tasks: seq<Task>, id: int): int {
    if id <= 0 then -1 else FindFrom(tasks, id, 0)
  }

  function FirstFree(tasks: seq<Task>, i: nat): (r: int)
    requires i <= |tasks|
    ensures r == -1 || (i <= r < |tasks| && tasks[r].state == Free)
    ensures r == -1 ==> forall j :: i <= j < |tasks| ==> tasks[j].state != Free
    decreases |tasks| - i
  {
    if i == |tasks| then -1 else if tasks[i].state == Free then i else FirstFree(tasks, i + 1)
  }

  ghost function Live(tasks: seq<Task>): set<int> {
    set i | 0 <= i < |tasks| && tasks[i].state != Free :: tasks[i].id
  }

  /** The next handle. At the largest one the counter of the source overflows a signed int,
      which is undefined in C; it is taken to go negative and so to start again at 1. */
  function Successor(handle: int): int {
    if handle == MAX_HANDLE then 1 else handle + 1
  }

  // ---- Actions ----

  /** Blocking actions wait until they are enabled. */
  predicate Enabled(s: Pool, a: Action) {
    match a
    case Pop(w) => w < |s.workers| && s.workers[w].Idle? && s.queue != [] && s.queue[0] < |s.tasks|
    case Finish(w) => w < |s.workers| && s.workers[w].Busy? && s.workers[w].slot < |s.tasks| && s.workers[w].sent == |s.workers[w].data|
    case BeginPush(w, data) =>
      && w < |s.workers| && s.workers[w].Busy? && s.workers[w].slot < |s.tasks| && s.workers[w].sent == |s.workers[w].data|
      && s.tasks[s.workers[w].slot].streaming
    case Push(w) =>
      && w < |s.workers| && s.workers[w].Busy? && s.workers[w].slot < |s.tasks| && s.workers[w].sent < |s.workers[w].data|
      && var t := s.tasks[s.workers[w].slot]; !(t.state == Running && |t.ring| == STREAM_CAPACITY)
    case Take(id, _) =>
      var i := Find(s.tasks, id);
      i != -1 && s.tasks[i].streaming ==> s.tasks[i].ring != [] || (s.tasks[i].state != Queued && s.tasks[i].state != Running)
    case _ => true
  }

  function Min(a: nat, b: nat): nat {
    if a < b then a else b
  }

  /** Free space of the stream buffer. */
  function Room(t: Task): nat {
    if |t.ring| < STREAM_CAPACITY then STREAM_CAPACITY - |t.ring| else 0
  }

  function SetTask(s: Pool, i: nat, t: Task): Pool
    requires i < |s.tasks|
  {
    s.(tasks := s.tasks[i := t])
  }

  /** A new request in slot `i` under handle `id`. */
  function Started(s: Pool, i: nat, id: int, streaming: bool): Pool
    requires i < |s.tasks|
  {
    Pool(s.tasks[i := Cleared.(id := id, state := Queued, streaming := streaming)], s.queue + [i], Successor(id), s.workers)
  }

  function Popped(s: Pool, w: nat): Pool
    requires Enabled(s, Pop(w))
  {
    var i := s.queue[0];
    var s1 := s.(queue := s.queue[1..]);
    match s.tasks[i].state
    case Cancelled => SetTask(s1, i, Cleared)
    case Queued => SetTask(s1, i, s.tasks[i].(state := Running)).(workers := s.workers[w := Busy(i, [], 0, 0)])
    case _ => s1
  }

  function Finished(s: Pool, w: nat): Pool
    requires Enabled(s, Finish(w))
  {
    var i := s.workers[w].slot;
    SetTask(s, i, FinishedTask(s.tasks[i])).(workers := s.workers[w := Idle])
  }

  function FinishedTask(t: Task): Task {
    var t1 := t.(finished := true);
    if t.state == Running then t1.(state := Done) else if t.releasing then Cleared else t1
  }

  /** As many bytes as fit go in, unless the request was cancelled meanwhile. A push that has
      sent everything, or fails, is over. */
  function PushedSome(s: Pool, w: nat): Pool
    requires Enabled(s, Push(w))
  {
    var b := s.workers[w];
    var t := s.tasks[b.slot];
    if t.state != Running then s.(workers := s.workers[w := b.(data := [], sent := 0)])
    else
      var n := Min(|b.data| - b.sent, Room(t));
      var part := b.data[b.sent..b.sent + n];
      SetTask(s, b.slot, t.(ring := t.ring + part, pushed := t.pushed + part)).(workers := s.workers[w := b.(sent := b.sent + n)])
  }

  function CancelledOne(s: Pool, id: int): Pool {
    var i := Find(s.tasks, id);
    if i != -1 && (s.tasks[i].state == Queued || s.tasks[i].state == Running)
    then SetTask(s, i, s.tasks[i].(state := Cancelled)) else s
  }

  function Released(s: Pool, id: int): Pool {
    var i := Find(s.tasks, id);
    if i == -1 then s
    else
      var t := s.tasks[i];
      if t.state == Done && (!t.streaming || t.ring == []) then SetTask(s, i, Cleared)
      else if t.state == Cancelled then SetTask(s, i, if t.finished then Cleared else t.(releasing := true))
      else s
  }

  function Taken(s: Pool, id: int, max: nat): Pool {
    var i := Find(s.tasks, id);
    if i == -1 || !s.tasks[i].streaming then s
    else
      var t := s.tasks[i];
      var n := Min(|t.ring|, if max == 0 || max > STREAM_CAPACITY then STREAM_CAPACITY else max);
      SetTask(s, i, t.(ring := t.ring[n..], taken := t.taken + t.ring[..n]))
  }

  /** `t` follows from `s` by one action. Only the handle of a new request is not a function
      of the state here; the generator picks the first unused one. */
  ghost predicate Next(s: Pool, a: Action, t: Pool) {
    Enabled(s, a) &&
    match a
    case Start(streaming) =>
      if |s.queue| == CAPACITY || FirstFree(s.tasks, 0) == -1 then t == s
      else exists id :: 1 <= id <= MAX_HANDLE && id !in Live(s.tasks) && t == Started(s, FirstFree(s.tasks, 0), id, streaming)
    case Pop(w) => t == Popped(s, w)
    case Finish(w) => t == Finished(s, w)
    case BeginPush(w, data) =>
      var b := s.workers[w];
      t == s.(workers := s.workers[w := Busy(b.slot, data, |s.tasks[b.slot].pushed|, 0)])
    case Push(w) => t == PushedSome(s, w)
    case Cancel(id) => t == CancelledOne(s, id)
    case Release(id) => t == Released(s, id)
    case Take(id, max) => t == Taken(s, id, max)
  }

  // ---- The invariant ----

  ghost predicate Owned(s: Pool, i: int) {
    exists w :: 0 <= w < |s.workers| && s.workers[w].Busy? && s.workers[w].slot == i
  }

  /** Who holds a slot in each state: a queue entry, a worker, or nobody. */
  ghost predicate SlotOk(s: Pool, i: nat)
    requires i < |s.tasks|
  {
    var t := s.tasks[i];
    (t.releasing ==> t.state == Cancelled && !t.finished) &&
    match t.state
    case Free => i !in s.queue && !Owned(s, i)
    case Queued => i in s.queue && !Owned(s, i) && !t.finished
    case Running => i !in s.queue && Owned(s, i) && !t.finished
    case Done => i !in s.queue && !Owned(s, i) && t.finished
    case Cancelled => if t.finished then i !in s.queue && !Owned(s, i) else (i in s.queue) != Owned(s, i)
  }

  predicate StreamOk(t: Task) {
    |t.ring| <= STREAM_CAPACITY && t.taken + t.ring == t.pushed
  }

  /** The push in progress of a worker: exactly `sent` bytes of its data are in. */
  predicate PushOk(s: Pool, b: Worker) {
    b.Busy? ==>
      && b.slot < |s.tasks| && b.sent <= |b.data|
      && (b.data != [] ==> b.base + b.sent == |s.tasks[b.slot].pushed| && s.tasks[b.slot].pushed[b.base..] == b.data[..b.sent])
  }

  ghost predicate OwnersDistinct(s: Pool) {
    forall v, w :: 0 <= v < w < |s.workers| && s.workers[v].Busy? && s.workers[w].Busy? ==> s.workers[v].slot != s.workers[w].slot
  }

  ghost predicate HandlesOk(tasks: seq<Task>) {
    && (forall i :: 0 <= i < |tasks| && tasks[i].state != Free ==> 1 <= tasks[i].id <= MAX_HANDLE)
    && (forall i, j :: 0 <= i < j < |tasks| && tasks[i].state != Free && tasks[j].state != Free ==> tasks[i].id != tasks[j].id)
  }

  ghost predicate Inv(s: Pool) {
    && |s.tasks| == CAPACITY && |s.workers| == WORKERS && 1 <= s.next <= MAX_HANDLE
    && (forall j :: 0 <= j < |s.queue| ==> s.queue[j] < CAPACITY) && NoRepeats(s.queue)
    && OwnersDistinct(s) && HandlesOk(s.tasks)
    && (forall i :: 0 <= i < CAPACITY ==> SlotOk(s, i) && StreamOk(s.tasks[i]))
    && (forall w :: 0 <= w < WORKERS ==> PushOk(s, s.workers[w]))
  }

  lemma {:induction false} InitialInv()
    ensures Inv(Initial)
  {
  }

  lemma {:induction false} StartInv(s: Pool, i: nat, id: int, streaming: bool)
    requires Inv(s) && i < CAPACITY && s.tasks[i].state == Free && 1 <= id <= MAX_HANDLE && id !in Live(s.tasks)
    ensures Inv(Started(s, i, id, streaming))
  {
    var t := Started(s, i, id, streaming);
    assert SlotOk(s, i);
    forall j | 0 <= j < CAPACITY ensures SlotOk(t, j) && StreamOk(t.tasks[j]) {
      assert SlotOk(s, j) && StreamOk(s.tasks[j]);
      assert Owned(t, j) <==> Owned(s, j);
    }
    forall w | 0 <= w < WORKERS ensures PushOk(t, t.workers[w]) { assert PushOk(s, s.workers[w]); }
  }

  /** A change of one slot that leaves queue and workers alone. */
  lemma {:induction false} SetInv(s: Pool, i: nat, t: Task)
    requires Inv(s) && i < CAPACITY && StreamOk(t) && (t.state != Free ==> t.id == s.tasks[i].id && s.tasks[i].state != Free)
    requires SlotOk(SetTask(s, i, t), i) && (Owned(s, i) ==> t.pushed == s.tasks[i].pushed)
    ensures Inv(SetTask(s, i, t))
  {
    var u := SetTask(s, i, t);
    forall j | 0 <= j < CAPACITY ensures SlotOk(u, j) && StreamOk(u.tasks[j]) {
      assert SlotOk(s, j) && StreamOk(s.tasks[j]);
      assert Owned(u, j) <==> Owned(s, j);
    }
    forall w | 0 <= w < WORKERS ensures PushOk(u, u.workers[w]) { assert PushOk(s, s.workers[w]); }
  }

  lemma OwnedSame(s: Pool, t: Pool, i: int)
    requires s.workers == t.workers
    ensures Owned(s, i) <==> Owned(t, i)
  {
  }

  lemma CancelInv(s: Pool, id: int)
    requires Inv(s)
    ensures Inv(CancelledOne(s, id))
  {
    var i := Find(s.tasks, id);
    if i != -1 && (s.tasks[i].state == Queued || s.tasks[i].state == Running) {
      assert SlotOk(s, i) && StreamOk(s.tasks[i]);
      OwnedSame(s, CancelledOne(s, id), i);
      SetInv(s, i, s.tasks[i].(state := Cancelled));
    }
  }

  lemma ReleaseInv(s: Pool, id: int)
    requires Inv(s)
    ensures Inv(Released(s, id))
  {
    var i := Find(s.tasks, id);
    if i != -1 {
      assert SlotOk(s, i) && StreamOk(s.tasks[i]);
      OwnedSame(s, Released(s, id), i);
      if Released(s, id) != s { SetInv(s, i, Released(s, id).tasks[i]); }
    }
  }

  lemma TakeInv(s: Pool, id: int, max: nat)
    requires Inv(s)
    ensures Inv(Taken(s, id, max))
  {
    var i := Find(s.tasks, id);
    if i != -1 && s.tasks[i].streaming {
      assert SlotOk(s, i) && StreamOk(s.tasks[i]);
      var u := Taken(s, id, max);
      OwnedSame(s, u, i);
      var n := |s.tasks[i].ring| - |u.tasks[i].ring|;
      assert s.tasks[i].ring == s.tasks[i].ring[..n] + s.tasks[i].ring[n..];
      SetInv(s, i, u.tasks[i]);
    }
  }

  /** A popped slot is always queued or cancelled. */
  lemma PoppedState(s: Pool)
    requires Inv(s) && s.queue != []
    ensures s.tasks[s.queue[0]].state == Queued || (s.tasks[s.queue[0]].state == Cancelled && !s.tasks[s.queue[0]].finished)
  {
    assert SlotOk(s, s.queue[0]);
  }

  lemma {:induction false} PopInv(s: Pool, w: nat)
    requires Inv(s) && Enabled(s, Pop(w))
    ensures Inv(Popped(s, w))
  {
    var i, t := s.queue[0], Popped(s, w);
    PoppedState(s);
    assert SlotOk(s, i) && StreamOk(s.tasks[i]);
    assert s.queue == [i] + s.queue[1..];
    forall j | 0 <= j < CAPACITY ensures SlotOk(t, j) && StreamOk(t.tasks[j]) {
      assert SlotOk(s, j) && StreamOk(s.tasks[j]);
      assert j != i ==> (j in s.queue <==> j in t.queue);
      PopOwners(s, w, j);
    }
    forall v | 0 <= v < WORKERS ensures PushOk(t, t.workers[v]) {
      assert PushOk(s, s.workers[v]);
      if v != w && s.workers[v].Busy? { assert s.workers[v].slot != i; }
    }
  }

  lemma {:induction false} PopOwners(s: Pool, w: nat, j: int)
    requires Inv(s) && Enabled(s, Pop(w))
    ensures var t := Popped(s, w); var i := s.queue[0];
      Owned(t, j) <==> Owned(s, j) || (j == i && s.tasks[i].state == Queued)
    ensures s.queue[0] !in s.queue[1..]
  {
    var t, i := Popped(s, w), s.queue[0];
    if Owned(s, j) {
      var v :| 0 <= v < |s.workers| && s.workers[v].Busy? && s.workers[v].slot == j;
      assert v != w && t.workers[v] == s.workers[v];
    }
    if j == i && s.tasks[i].state == Queued { assert t.workers[w].Busy? && t.workers[w].slot == j; }
    if Owned(t, j) {
      var v :| 0 <= v < |t.workers| && t.workers[v].Busy? && t.workers[v].slot == j;
      if v != w { assert s.workers[v] == t.workers[v]; }
    }
  }

  lemma {:induction false} FinishInv(s: Pool, w: nat)
    requires Inv(s) && Enabled(s, Finish(w))
    ensures Inv(Finished(s, w))
  {
    var i, t := s.workers[w].slot, Finished(s, w);
    assert PushOk(s, s.workers[w]);
    assert SlotOk(s, i) && StreamOk(s.tasks[i]);
    forall j | 0 <= j < CAPACITY ensures SlotOk(t, j) && StreamOk(t.tasks[j]) {
      assert SlotOk(s, j) && StreamOk(s.tasks[j]);
      FinishOwners(s, w, j);
    }
    forall v | 0 <= v < WORKERS ensures PushOk(t, t.workers[v]) {
      assert PushOk(s, s.workers[v]);
      if v != w && s.workers[v].Busy? { assert s.workers[v].slot != i; }
    }
  }

  lemma {:induction false} FinishOwners(s: Pool, w: nat, j: int)
    requires Inv(s) && Enabled(s, Finish(w))
    ensures Owned(Finished(s, w), j) <==> Owned(s, j) && j != s.workers[w].slot
  {
    var t := Finished(s, w);
    if Owned(s, j) && j != s.workers[w].slot {
      var v :| 0 <= v < |s.workers| && s.workers[v].Busy? && s.workers[v].slot == j;
      assert t.workers[v] == s.workers[v];
    }
    if Owned(t, j) {
      var v :| 0 <= v < |t.workers| && t.workers[v].Busy? && t.workers[v].slot == j;
      assert v != w && s.workers[v] == t.workers[v];
    }
  }

  /** A worker that stays with its slot. */
  lemma SameOwners(s: Pool, t: Pool, w: nat, j: int)
    requires w < |s.workers| && s.workers[w].Busy? && |t.workers| == |s.workers|
    requires t.workers[w].Busy? && t.workers[w].slot == s.workers[w].slot && forall v :: 0 <= v < |s.workers| && v != w ==> t.workers[v] == s.workers[v]
    ensures Owned(t, j) <==> Owned(s, j)
  {
    if Owned(s, j) {
      var v :| 0 <= v < |s.workers| && s.workers[v].Busy? && s.workers[v].slot == j;
      assert t.workers[v].Busy? && t.workers[v].slot == j;
    }
    if Owned(t, j) {
      var v :| 0 <= v < |t.workers| && t.workers[v].Busy? && t.workers[v].slot == j;
      assert s.workers[v].Busy? && s.workers[v].slot == j;
    }
  }

  /** A change of a busy worker's own push and, at most, of its slot's stream. */
  lemma {:induction false} WorkerInv(s: Pool, t: Pool, w: nat, x: Task)
    requires Inv(s) && w < WORKERS && s.workers[w].Busy? && s.workers[w].slot < CAPACITY
    requires var i := s.workers[w].slot; var y := s.tasks[i];
      && t.tasks == s.tasks[i := x] && x == y.(ring := x.ring, pushed := x.pushed) && StreamOk(x)
      && t.queue == s.queue && t.next == s.next && |t.workers| == WORKERS
      && t.workers[w].Busy? && t.workers[w].slot == i && (forall v :: 0 <= v < WORKERS && v != w ==> t.workers[v] == s.workers[v])
      && PushOk(t, t.workers[w])
    ensures Inv(t)
  {
    var i := s.workers[w].slot;
    forall j | 0 <= j < CAPACITY ensures SlotOk(t, j) && StreamOk(t.tasks[j]) {
      assert SlotOk(s, j) && StreamOk(s.tasks[j]);
      SameOwners(s, t, w, j);
    }
    forall v | 0 <= v < WORKERS ensures PushOk(t, t.workers[v]) {
      assert PushOk(s, s.workers[v]);
      if v != w && s.workers[v].Busy? { assert s.workers[v].slot != i; }
    }
  }

  lemma {:induction false} PushInv(s: Pool, w: nat)
    requires Inv(s) && Enabled(s, Push(w))
    ensures Inv(PushedSome(s, w))
  {
    var b, t := s.workers[w], PushedSome(s, w);
    assert PushOk(s, b) && StreamOk(s.tasks[b.slot]);
    var x := s.tasks[b.slot];
    if x.state != Running {
      assert t.tasks == s.tasks[b.slot := x];
      WorkerInv(s, t, w, x);
    } else {
      var n := Min(|b.data| - b.sent, Room(x));
      var part := b.data[b.sent..b.sent + n];
      var y := x.(ring := x.ring + part, pushed := x.pushed + part);
      assert x.taken + (x.ring + part) == (x.taken + x.ring) + part;
      PushedBytes(x.pushed, b.base, b.data, b.sent, n);
      WorkerInv(s, t, w, y);
    }
  }

  /** What has gone in since `base` is still a prefix of the data. */
  lemma PushedBytes(pushed: seq<Byte>, base: nat, data: seq<Byte>, sent: nat, n: nat)
    requires base + sent == |pushed| && sent + n <= |data| && pushed[base..] == data[..sent]
    ensures (pushed + data[sent..sent + n])[base..] == data[..sent + n]
  {
    assert (pushed + data[sent..sent + n])[base..] == pushed[base..] + data[sent..sent + n];
  }

  lemma BeginInv(s: Pool, w: nat, data: seq<Byte>)
    requires Inv(s) && Enabled(s, BeginPush(w, data))
    ensures var b := s.workers[w]; Inv(s.(workers := s.workers[w := Busy(b.slot, data, |s.tasks[b.slot].pushed|, 0)]))
  {
    var b := s.workers[w];
    var x := s.tasks[b.slot];
    var t := s.(workers := s.workers[w := Busy(b.slot, data, |x.pushed|, 0)]);
    assert StreamOk(x);
    assert t.tasks == s.tasks[b.slot := x];
    assert x.pushed[|x.pushed|..] == [] == data[..0];
    WorkerInv(s, t, w, x);
  }

  /** Every action keeps the invariant. */
  lemma {:induction false} NextInv(s: Pool, a: Action, t: Pool)
    requires Inv(s) && Next(s, a, t)
    ensures Inv(t)
  {
    match a
    case Start(streaming) =>
      if t != s {
        var id :| 1 <= id <= MAX_HANDLE && id !in Live(s.tasks) && t == Started(s, FirstFree(s.tasks, 0), id, streaming);
        StartInv(s, FirstFree(s.tasks, 0), id, streaming);
      }
    case Pop(w) => PopInv(s, w);
    case Finish(w) => FinishInv(s, w);
    case BeginPush(w, data) => BeginInv(s, w, data);
    case Push(w) => PushInv(s, w);
    case Cancel(id) => CancelInv(s, id);
    case Release(id) => ReleaseInv(s, id);
    case Take(id, max) => TakeInv(s, id, max);
  }

  // ---- Runs ----

  ghost predicate IsRun(states: seq<Pool>, acts: seq<Action>) {
    |states| == |acts| + 1 && forall i :: 0 <= i < |acts| ==> Next(states[i], acts[i], states[i + 1])
  }

  /** Slot ownership holds in every reachable state. */
  lemma {:induction false} RunInv(states: seq<Pool>, acts: seq<Action>, n: nat)
    requires IsRun(states, acts) && states[0] == Initial && n < |states|
    ensures Inv(states[n])
  {
    if n == 0 {
      InitialInv();
    } else {
      RunInv(states, acts, n - 1);
      NextInv(states[n - 1], acts[n - 1], states[n]);
    }
  }

  // ---- What follows ----

  /** The queue is never full while a slot is free. */
  lemma QueueHasRoom(s: Pool, i: nat)
    requires Inv(s) && i < CAPACITY && s.tasks[i].state == Free
    ensures |s.queue| < CAPACITY
  {
    assert SlotOk(s, i);
    var q := s.queue + [i];
    assert NoRepeats(q);
    DistinctLength(q, CAPACITY);
  }

  /** What an action of somebody else does to the slot of a busy worker. */
  ghost predicate StillOwned(s: Pool, t: Pool, w: nat, i: nat)
    requires i < |s.tasks| && i < |t.tasks|
  {
    && w < |t.workers| && t.workers[w].Busy? && t.workers[w].slot == i
    && t.tasks[i].id == s.tasks[i].id && t.tasks[i].streaming == s.tasks[i].streaming
    && (t.tasks[i].state == Running || t.tasks[i].state == Cancelled) && !t.tasks[i].finished
  }

  lemma OwnerFacts(s: Pool, w: nat)
    requires Inv(s) && w < WORKERS && s.workers[w].Busy?
    ensures var i := s.workers[w].slot;
      i < CAPACITY && i !in s.queue && !s.tasks[i].finished && (s.tasks[i].state == Running || s.tasks[i].state == Cancelled)
    ensures forall v :: 0 <= v < WORKERS && v != w && s.workers[v].Busy? ==> s.workers[v].slot != s.workers[w].slot
  {
    assert PushOk(s, s.workers[w]) && SlotOk(s, s.workers[w].slot) && Owned(s, s.workers[w].slot);
  }

  /** While a worker is busy nobody else clears or reuses its slot, whatever they do. */
  lemma {:induction false} OwnerStable(s: Pool, a: Action, t: Pool, w: nat)
    requires Inv(s) && Next(s, a, t) && w < WORKERS && s.workers[w].Busy? && a != Finish(w)
    ensures s.workers[w].slot < CAPACITY && Inv(t) && StillOwned(s, t, w, s.workers[w].slot)
  {
    NextInv(s, a, t);
    OwnerFacts(s, w);
    if a.Pop? { PoppedState(s); }
    if a.Cancel? || a.Release? || a.Take? { ClientStable(s, a, t, w); }
  }

  lemma {:induction false} ClientStable(s: Pool, a: Action, t: Pool, w: nat)
    requires Inv(s) && Next(s, a, t) && w < WORKERS && s.workers[w].Busy? && (a.Cancel? || a.Release? || a.Take?)
    ensures s.workers[w].slot < CAPACITY && s.workers[w].slot < |t.tasks| && StillOwned(s, t, w, s.workers[w].slot)
    ensures t.workers == s.workers && t.tasks[s.workers[w].slot].pushed == s.tasks[s.workers[w].slot].pushed
  {
    OwnerFacts(s, w);
  }

  /** A finished stream is only released when everything pushed has been taken. */
  lemma ReleaseDrained(s: Pool, id: int)
    requires Inv(s) && Find(s.tasks, id) != -1
    ensures var i := Find(s.tasks, id); var t := s.tasks[i];
      t.state == Done && t.streaming && Released(s, id).tasks[i].state == Free ==> t.taken == t.pushed
  {
    var i := Find(s.tasks, id);
    assert StreamOk(s.tasks[i]);
    assert s.tasks[i].ring == [] ==> s.tasks[i].taken + [] == s.tasks[i].taken;
  }

  // ---- The life of a request ----

  predicate Owner(s: Pool, w: nat, i: nat) {
    w < |s.workers| && s.workers[w].Busy? && s.workers[w].slot == i
  }

  /** The state of slot `i` after an action: a free slot is queued by a start, a queued one runs
      when its entry is taken and a running one is done when its worker finishes, unless it was
      cancelled; a done request is freed by its release once its stream is drained; a cancelled
      one when its entry is taken, or when it has been released and its worker has finished. */
  predicate StateAfter(s: Pool, a: Action, i: nat, next: TaskState)
    requires i < |s.tasks|
  {
    var t := s.tasks[i];
    match t.state
    case Free => next == if a.Start? && |s.queue| < 64 && (forall j :: 0 <= j < i ==> s.tasks[j].state != Free) then Queued else Free
    case Queued => next == if a.Pop? && s.queue != [] && s.queue[0] == i then Running else if a == Cancel(t.id) then Cancelled else Queued
    case Running => next == if a.Finish? && Owner(s, a.w, i) then Done else if a == Cancel(t.id) then Cancelled else Running
    case Done => next == if a == Release(t.id) && (!t.streaming || t.ring == []) then Free else Done
    case Cancelled =>
      next == if a.Pop? && s.queue != [] && s.queue[0] == i then Free
              else if a.Finish? && Owner(s, a.w, i) && t.releasing then Free
              else if a == Release(t.id) && t.finished then Free
              else Cancelled
  }

  lemma {:induction false} FindLive(s: Pool, i: nat)
    requires Inv(s) && i < CAPACITY && s.tasks[i].state != Free
    ensures Find(s.tasks, s.tasks[i].id) == i
    ensures forall id :: Find(s.tasks, id) == i ==> id == s.tasks[i].id
  {
    var id := s.tasks[i].id;
    var r := Find(s.tasks, id);
    assert 1 <= id <= MAX_HANDLE;
  }

  lemma {:induction false} FirstFreeIs(tasks: seq<Task>, i: nat)
    requires i < |tasks| && tasks[i].state == Free
    ensures FirstFree(tasks, 0) == i <==> forall j :: 0 <= j < i ==> tasks[j].state != Free
  {
    BeforeFirstFree(tasks, 0);
  }

  lemma {:induction false} BeforeFirstFree(tasks: seq<Task>, i: nat)
    requires i <= |tasks|
    ensures var r := FirstFree(tasks, i); r != -1 ==> forall j :: i <= j < r ==> tasks[j].state != Free
    decreases |tasks| - i
  {
    if i < |tasks| && tasks[i].state != Free { BeforeFirstFree(tasks, i + 1); }
  }

  lemma {:induction false} Lifecycle(s: Pool, a: Action, t: Pool, i: nat)
    requires Inv(s) && Next(s, a, t) && i < 64
    ensures |s.tasks| == |t.tasks| == 64 && StateAfter(s, a, i, t.tasks[i].state)
  {
    NextInv(s, a, t);
    assert SlotOk(s, i) && SlotOk(t, i);
    if s.tasks[i].state == Free {
      FirstFreeIs(s.tasks, i);
      FreeStays(s, a, t, i);
    } else {
      FindLive(s, i);
      UsedMoves(s, a, t, i);
    }
  }

  lemma {:induction false} FreeStays(s: Pool, a: Action, t: Pool, i: nat)
    requires Inv(s) && Next(s, a, t) && i < CAPACITY && s.tasks[i].state == Free
    requires FirstFree(s.tasks, 0) == i <==> forall j :: 0 <= j < i ==> s.tasks[j].state != Free
    ensures StateAfter(s, a, i, t.tasks[i].state)
  {
    match a
    case Pop(w) => PoppedState(s);
    case Finish(w) => OwnerFacts(s, w);
    case Push(w) => OwnerFacts(s, w);
    case Start(streaming) =>
      QueueHasRoom(s, i);
      FirstFreeAt(s.tasks, i);
    case Cancel(id) => FoundUsed(s, id);
    case Release(id) => FoundUsed(s, id);
    case Take(id, _) => FoundUsed(s, id);
    case _ =>
  }

  lemma FoundUsed(s: Pool, id: int)
    ensures Find(s.tasks, id) != -1 ==> 0 <= Find(s.tasks, id) < |s.tasks| && s.tasks[Find(s.tasks, id)].state != Free
  {
  }

  lemma FirstFreeAt(tasks: seq<Task>, i: nat)
    requires i < |tasks| && tasks[i].state == Free
    ensures 0 <= FirstFree(tasks, 0) < |tasks|
  {
  }

  lemma {:induction false} UsedMoves(s: Pool, a: Action, t: Pool, i: nat)
    requires Inv(s) && Next(s, a, t) && i < CAPACITY && s.tasks[i].state != Free && SlotOk(s, i)
    requires Find(s.tasks, s.tasks[i].id) == i && forall id :: Find(s.tasks, id) == i ==> id == s.tasks[i].id
    ensures StateAfter(s, a, i, t.tasks[i].state)
  {
    match a
    case Pop(w) => PoppedState(s);
    case Finish(w) => OwnerFacts(s, w);
    case Push(w) => OwnerFacts(s, w);
    case _ =>
  }

  function Pops(acts: seq<Action>): nat {
    if acts == [] then 0 else Pops(acts[..|acts| - 1]) + if acts[|acts| - 1].Pop? then 1 else 0
  }

  /** First come, first served: the entry at place `k` of the queue is the one that the pop after
      the next `k` takes. */
  lemma {:induction false} InTurn(states: seq<Pool>, acts: seq<Action>, k: nat)
    requires IsRun(states, acts) && Inv(states[0]) && k < |states[0].queue| && Pops(acts) <= k
    ensures var t := states[|states| - 1]; Inv(t) && k - Pops(acts) < |t.queue| && t.queue[k - Pops(acts)] == states[0].queue[k]
    decreases |acts|
  {
    if acts != [] {
      var n := |acts| - 1;
      InTurn(states[..n + 1], acts[..n], k);
      assert Next(states[n], acts[n], states[n + 1]);
      NextInv(states[n], acts[n], states[n + 1]);
      QueueMoves(states[n], acts[n], states[n + 1]);
    }
  }

  /** Entries are taken from the front and added at the back. */
  lemma QueueMoves(s: Pool, a: Action, t: Pool)
    requires Inv(s) && Next(s, a, t)
    ensures if a.Pop? then s.queue != [] && t.queue == s.queue[1..] else s.queue <= t.queue
  {
  }

  /** A cancelled request that its client has released: a queue entry or a worker still holds
      the slot. */
  ghost predicate Leaving(s: Pool, i: nat, id: int) {
    && i < |s.tasks| && s.tasks[i].id == id && s.tasks[i].state == Cancelled && s.tasks[i].releasing
    && (i in s.queue) != Owned(s, i)
  }

  /** The worker of a slot finishes, or its queue entry is taken. */
  predicate LetsGo(s: Pool, a: Action, i: nat) {
    || (a.Finish? && a.w < |s.workers| && s.workers[a.w].Busy? && s.workers[a.w].slot == i)
    || (a.Pop? && s.queue != [] && s.queue[0] == i)
  }

  lemma {:induction false} LeavingKept(s: Pool, a: Action, t: Pool, i: nat, id: int)
    requires Inv(s) && Next(s, a, t) && Leaving(s, i, id) && !LetsGo(s, a, i)
    ensures t.tasks[i].state == Cancelled && t.tasks[i].id == id && t.tasks[i].releasing
  {
    match a
    case Pop(w) => PoppedState(s);
    case Finish(w) => OwnerFacts(s, w);
    case Push(w) => OwnerFacts(s, w);
    case _ =>
  }

  /** Released while it was queued or running, a request keeps its slot until its queue entry is
      taken or its worker finishes, and then the slot is free. */
  lemma {:induction false} LeavingStep(s: Pool, a: Action, t: Pool, i: nat, id: int)
    requires Inv(s) && Next(s, a, t) && Leaving(s, i, id)
    ensures Inv(t) && if LetsGo(s, a, i) then t.tasks[i].state == Free else Leaving(t, i, id)
  {
    NextInv(s, a, t);
    if !LetsGo(s, a, i) {
      LeavingKept(s, a, t, i, id);
      assert SlotOk(t, i);
    }
  }

  /** Releasing a cancelled request frees its slot at once when the worker is done with it. */
  lemma {:induction false} ReleaseLeaves(s: Pool, id: int, t: Pool)
    requires Inv(s) && Next(s, Release(id), t) && Find(s.tasks, id) != -1 && s.tasks[Find(s.tasks, id)].state == Cancelled
    ensures var i := Find(s.tasks, id);
      if s.tasks[i].finished then t.tasks[i].state == Free else Leaving(t, i, id)
  {
    var i := Find(s.tasks, id);
    NextInv(s, Release(id), t);
    assert SlotOk(s, i) && SlotOk(t, i);
  }

  /** No slot is lost: after a cancelled request has been released, at every later time its slot
      is still held by a queue entry or a worker, or has been freed. */
  lemma {:induction false} ReleaseReclaims(states: seq<Pool>, acts: seq<Action>, id: int, i: nat)
    requires IsRun(states, acts) && acts != [] && acts[0] == Release(id) && Inv(states[0])
    requires Find(states[0].tasks, id) == i && states[0].tasks[i].state == Cancelled
    ensures Inv(states[|states| - 1])
    ensures Leaving(states[|states| - 1], i, id) || exists m :: 1 <= m < |states| && i < |states[m].tasks| && states[m].tasks[i].state == Free
    decreases |acts|
  {
    assert Next(states[0], acts[0], states[1]);
    if |acts| == 1 {
      ReleaseLeaves(states[0], id, states[1]);
      NextInv(states[0], acts[0], states[1]);
    } else {
      var n := |acts| - 1;
      ReleaseReclaims(states[..n + 1], acts[..n], id, i);
      assert Next(states[n], acts[n], states[n + 1]);
      NextInv(states[n], acts[n], states[n + 1]);
      if Leaving(states[n], i, id) { LeavingStep(states[n], acts[n], states[n + 1], i, id); }
    }
  }

  /** Where a push of `data` into slot `i` stands, `before` having been pushed earlier. */
  ghost predicate Pushing(s: Pool, w: nat, i: nat, before: seq<Byte>, data: seq<Byte>) {
    && w < |s.workers| && s.workers[w].Busy? && s.workers[w].slot == i < |s.tasks| && s.workers[w].data == data
    && s.tasks[i].pushed == before + data[..Min(s.workers[w].sent, |data|)]
  }

  predicate InPush(a: Action, w: nat) {
    !(a.Finish? && a.w == w) && !(a.BeginPush? && a.w == w)
  }

  lemma {:induction false} AppendPiece(before: seq<Byte>, data: seq<Byte>, sent: nat, n: nat)
    requires sent + n <= |data|
    ensures before + data[..sent] + data[sent..sent + n] == before + data[..sent + n]
  {
  }

  /** Its own next step moves a push on, or ends it when the request was cancelled. */
  lemma {:induction false} PushMoves(s: Pool, w: nat, i: nat, before: seq<Byte>, data: seq<Byte>)
    requires Inv(s) && Enabled(s, Push(w)) && Pushing(s, w, i, before, data)
    ensures var t := PushedSome(s, w); Pushing(t, w, i, before, data) || (w < |t.workers| && t.workers[w].Busy? && t.workers[w].data == [])
  {
    var b := s.workers[w];
    if s.tasks[i].state == Running {
      var n := Min(|data| - b.sent, Room(s.tasks[i]));
      AppendPiece(before, data, b.sent, n);
    }
  }

  /** Only the owner of a slot adds to its stream. */
  lemma {:induction false} SlotPushedSame(s: Pool, a: Action, t: Pool, w: nat)
    requires Inv(s) && Next(s, a, t) && w < WORKERS && s.workers[w].Busy? && InPush(a, w) && a != Push(w)
    ensures t.workers[w] == s.workers[w] && t.tasks[s.workers[w].slot].pushed == s.tasks[s.workers[w].slot].pushed
  {
    OwnerStable(s, a, t, w);
    var i := s.workers[w].slot;
    assert PushOk(s, s.workers[w]) && SlotOk(s, i) && Owned(s, i);
    match a
    case Pop(v) => PoppedState(s);
    case Finish(v) => assert s.workers[v].slot != i;
    case Push(v) => assert s.workers[v].slot != i;
    case _ =>
  }

  /** Whatever happens in between, when all of `data` is sent exactly `data` has been
      appended, however large it is. */
  lemma {:induction false} PushWhole(states: seq<Pool>, acts: seq<Action>, w: nat, i: nat, before: seq<Byte>, data: seq<Byte>)
    requires IsRun(states, acts) && Inv(states[0]) && Pushing(states[0], w, i, before, data) && data != [] && w < WORKERS
    requires forall k :: 0 <= k < |acts| ==> InPush(acts[k], w)
    ensures var t := states[|states| - 1];
      && Inv(t) && t.workers[w].Busy? && t.workers[w].slot == i
      && (t.workers[w].data != [] ==> Pushing(t, w, i, before, data))
      && (t.workers[w].data != [] && t.workers[w].sent == |data| ==> t.tasks[i].pushed == before + data)
    decreases |acts|
  {
    if acts == [] {
      assert data[..|data|] == data;
    } else {
      var n := |acts| - 1;
      PushWhole(states[..n + 1], acts[..n], w, i, before, data);
      assert Next(states[n], acts[n], states[n + 1]);
      PushStep(states[n], acts[n], states[n + 1], w, i, before, data);
    }
  }

  lemma {:induction false} PushStep(s: Pool, a: Action, t: Pool, w: nat, i: nat, before: seq<Byte>, data: seq<Byte>)
    requires Inv(s) && Next(s, a, t) && InPush(a, w) && w < WORKERS && s.workers[w].Busy? && s.workers[w].slot == i
    requires s.workers[w].data != [] ==> Pushing(s, w, i, before, data)
    ensures Inv(t) && t.workers[w].Busy? && t.workers[w].slot == i
    ensures t.workers[w].data != [] ==> Pushing(t, w, i, before, data)
    ensures t.workers[w].data != [] && t.workers[w].sent == |data| ==> t.tasks[i].pushed == before + data
  {
    NextInv(s, a, t);
    OwnerStable(s, a, t, w);
    assert data[..|data|] == data;
    if a == Push(w) {
      PushedNothing(s, t, w);
      PushMoves(s, w, i, before, data);
    } else {
      SlotPushedSame(s, a, t, w);
    }
  }

  lemma PushedNothing(s: Pool, t: Pool, w: nat)
    requires Inv(s) && Next(s, Push(w), t)
    ensures s.workers[w].data != []
  {
    assert PushOk(s, s.workers[w]);
  }
}
