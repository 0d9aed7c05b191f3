/** The pool as the runtime keeps it: a table of slots, a circular queue of slot numbers and
    a handle counter, updated in place under the lock. Every method is one action of the
    state machine. */
module AsyncRequests {
  import opened Bytes
  import opened Pigeonhole
  import opened AsyncPool
  import opened AsyncRing

  /** What the runtime keeps of a slot beside its stream buffer. */
  datatype Slot = Slot(id: int, state: TaskState, streaming: bool, finished: bool, releasing: bool)

  const Empty: Slot := Slot(0, Free, false, false, false)

  /** A slot and its buffer, with what is recorded of `t`. */
  function Image(s: Slot, ring: seq<Byte>, t: Task): Task {
    Task(s.id, s.state, s.streaming, s.finished, s.releasing, ring, t.pushed, t.taken)
  }

  method MakeRings() returns (made: seq<Ring<Byte>>)
    ensures |made| == CAPACITY
    ensures forall i :: 0 <= i < CAPACITY ==> fresh(made[i]) && fresh(made[i].buf) && EmptyRing(made[i])
    ensures forall i, k :: 0 <= i < k < CAPACITY ==> made[i] != made[k] && made[i].buf != made[k].buf
  {
    made := [];
    for n := 0 to CAPACITY
      invariant |made| == n
      invariant forall i :: 0 <= i < n ==> fresh(made[i]) && fresh(made[i].buf) && EmptyRing(made[i])
      invariant forall i, k :: 0 <= i < k < n ==> made[i] != made[k] && made[i].buf != made[k].buf
    {
      var ring := new Ring<Byte>(STREAM_CAPACITY);
      made := made + [ring];
    }
  }

  class Requests {
    const slots: array<Slot>
    /** The stream buffer of each slot. */
    const rings: seq<Ring<Byte>>
    const queue: array<nat>
    var head: nat
    var tail: nat
    var count: nat
    var nextHandle: int
    /** The slots as the state machine sees them. */
    ghost var tasks: seq<Task>
    /** Which slot each worker thread is in; the threads know, the pool does not. */
    ghost var workers: seq<Worker>

    constructor ()
      ensures Valid() && View() == Initial && fresh(slots) && fresh(queue)
      ensures forall i :: 0 <= i < CAPACITY ==> fresh(rings[i]) && fresh(rings[i].buf)
    {
      slots := new Slot[CAPACITY](_ => Empty);
      queue := new nat[CAPACITY](_ => 0);
      head, tail, count, nextHandle := 0, 0, 0, 1;
      workers := seq(WORKERS, _ => Idle);
      tasks := seq(CAPACITY, _ => Cleared);
      var made := MakeRings();
      rings := made;
      new;
      assert tasks == Initial.tasks;
      forall i | 0 <= i < CAPACITY ensures Fits(rings[i]) && tasks[i] == Image(slots[i], rings[i].View(), tasks[i]) {
        assert EmptyRing(rings[i]) && slots[i] == Empty && tasks[i] == Cleared;
      }
      InitialInv();
    }

    ghost function Buffers(): set<array<Byte>> {
      set r | r in rings :: r.buf
    }

    /** Every slot is as the state machine sees it, and no two share a buffer. */
    ghost predicate Tied()
      reads this, slots, rings, Buffers()
    {
      && slots.Length == |rings| == |tasks| == CAPACITY
      && (forall i, k :: 0 <= i < k < CAPACITY ==> rings[i] != rings[k] && rings[i].buf != rings[k].buf)
      && (forall i :: 0 <= i < CAPACITY ==> Fits(rings[i]) && tasks[i] == Image(slots[i], rings[i].View(), tasks[i]))
    }

    ghost predicate Shaped()
      reads this, slots, queue, rings, Buffers()
    {
      && Tied() && queue.Length == CAPACITY && head < CAPACITY && count <= CAPACITY && tail == Wrap(head + count, CAPACITY)
    }

    ghost function View(): Pool
      requires Shaped()
      reads this, slots, queue, rings, Buffers()
    {
      Pool(tasks, Contents(queue[..], head, count), nextHandle, workers)
    }

    ghost predicate Valid()
      reads this, slots, queue, rings, Buffers()
    {
      Shaped() && Inv(View())
    }

    // ---- Lookups ----

    /** The slot of a handle, or -1. */
    method FindSlot(id: int) returns (r: int)
      requires Tied()
      ensures r == Find(tasks, id)
      ensures r != -1 ==> 0 <= r < CAPACITY && slots[r].state != Free && slots[r].id == id
    {
      if id <= 0 { return -1; }
      r := 0;
      while r < CAPACITY
        invariant 0 <= r <= CAPACITY && FindFrom(tasks, id, 0) == FindFrom(tasks, id, r)
      {
        if slots[r].state != Free && slots[r].id == id { return; }
        r := r + 1;
      }
      r := -1;
    }

    method FreeSlot() returns (r: int)
      requires Tied()
      ensures r == FirstFree(tasks, 0)
    {
      r := 0;
      while r < CAPACITY
        invariant 0 <= r <= CAPACITY && FirstFree(tasks, 0) == FirstFree(tasks, r)
      {
        if slots[r].state == Free { return; }
        r := r + 1;
      }
      r := -1;
    }

    method InUse(id: int) returns (b: bool)
      requires Tied()
      ensures b <==> id in Live(tasks)
    {
      b := false;
      for i := 0 to CAPACITY
        invariant b <==> exists j :: 0 <= j < i && tasks[j].state != Free && tasks[j].id == id
      {
        if slots[i].state != Free && slots[i].id == id { b := true; }
      }
    }

    /** The first handle from the counter on that no slot uses. There are more handles than
        slots, so the search ends. */
    method FreshHandle() returns (id: int)
      requires Valid()
      modifies this`nextHandle
      ensures Tied() && 1 <= id <= MAX_HANDLE && id !in Live(tasks) && nextHandle == Successor(id)
    {
      var used := true;
      ghost var start, tried := nextHandle, 0;
      id := 0;
      while used
        invariant Tied() && 1 <= start <= MAX_HANDLE && tried <= CAPACITY + 1 && (used ==> tried <= CAPACITY)
        invariant nextHandle == Candidate(start, tried)
        invariant used ==> forall k :: 0 <= k < tried ==> Candidate(start, k) in Live(tasks)
        invariant !used ==> 1 <= id <= MAX_HANDLE && id !in Live(tasks) && nextHandle == Successor(id)
        decreases CAPACITY + 1 - tried, used
      {
        id := nextHandle;
        nextHandle := if nextHandle == MAX_HANDLE then 1 else nextHandle + 1;
        CandidateNext(start, tried);
        used := InUse(id);
        if used { TriedBound(tasks, start, tried + 1); }
        tried := tried + 1;
      }
    }

    // ---- Changing a slot ----

    /** The fields of a slot. */
    method SetSlot(i: nat, s: Slot)
      requires Tied() && i < CAPACITY
      modifies slots, this`tasks
      ensures Tied() && tasks == old(tasks)[i := Image(s, old(tasks)[i].ring, old(tasks)[i])] && slots[i] == s
      ensures forall k :: 0 <= k < CAPACITY && k != i ==> slots[k] == old(slots[k])
    {
      slots[i] := s;
      tasks := tasks[i := Image(s, tasks[i].ring, tasks[i])];
    }

    /** An empty slot with an empty buffer and nothing recorded (memset). */
    method ClearSlot(i: nat, s: Slot)
      requires Tied() && i < CAPACITY
      modifies slots, this`tasks, rings[i]
      ensures Tied() && tasks == old(tasks)[i := Image(s, [], Cleared)]
    {
      slots[i] := s;
      rings[i].Clear();
      tasks := tasks[i := Image(s, [], Cleared)];
    }

    // ---- The client ----

    /** Starts a request; 0 when there is no room. */
    method StartRequest(streaming: bool) returns (id: int)
      requires Valid()
      modifies this`tail, this`count, this`nextHandle, this`tasks, slots, queue, rings
      ensures Valid() && Next(old(View()), Start(streaming), View())
      ensures id == 0 <==> forall i :: 0 <= i < CAPACITY ==> old(tasks)[i].state != Free
      ensures id != 0 ==> View() == Started(old(View()), FirstFree(old(tasks), 0), id, streaming)
    {
      ghost var s := View();
      if count == CAPACITY {
        FullQueue(s);
        return 0;
      }
      var slot := FreeSlot();
      if slot < 0 { return 0; }
      id := FreshHandle();
      Occupy(slot, id, streaming, s);
      NextInv(s, Start(streaming), View());
    }

    /** A free slot for a new request. */
    method Occupy(slot: nat, id: int, streaming: bool, ghost s: Pool)
      requires Shaped() && slot < CAPACITY && count < CAPACITY && nextHandle == Successor(id)
      requires s == View().(next := s.next)
      modifies this`tail, this`count, this`tasks, slots, queue, rings[slot]
      ensures Shaped() && View() == Started(s, slot, id, streaming)
    {
      ClearSlot(slot, Slot(id, Queued, streaming, false, false));
      Enqueue(slot);
    }

    method Enqueue(slot: nat)
      requires Shaped() && count < CAPACITY
      modifies this`tail, this`count, queue
      ensures Shaped() && count == old(count) + 1
      ensures Contents(queue[..], head, count) == Contents(old(queue[..]), head, old(count)) + [slot]
    {
      queue[tail] := slot;
      QueueAppend(old(queue[..]), head, count, slot);
      assert queue[..] == old(queue[..])[tail := slot];
      tail := if tail + 1 == CAPACITY then 0 else tail + 1;
      count := count + 1;
    }

    method CancelRequest(id: int) returns (done: bool)
      requires Valid()
      modifies slots, this`tasks
      ensures Valid() && View() == CancelledOne(old(View()), id)
      ensures done <==> View() != old(View())
    {
      ghost var s := View();
      var i := FindSlot(id);
      done := i != -1 && (slots[i].state == Queued || slots[i].state == Running);
      if done {
        SetSlot(i, slots[i].(state := Cancelled));
        assert s.tasks[i].state != Cancelled && View().tasks[i].state == Cancelled;
      }
      NextInv(s, Cancel(id), View());
    }

    method ReleaseRequest(id: int) returns (done: bool)
      requires Valid()
      modifies slots, this`tasks, rings
      ensures Valid() && View() == Released(old(View()), id)
      ensures done <==> var i := Find(old(tasks), id);
        i != -1 && var t := old(tasks)[i]; t.state == Cancelled || (t.state == Done && (!t.streaming || t.ring == []))
    {
      ghost var s := View();
      var i := FindSlot(id);
      done := false;
      if i != -1 && slots[i].state == Done && (!slots[i].streaming || rings[i].count == 0) {
        ClearSlot(i, Empty);
        done := true;
      } else if i != -1 && slots[i].state == Cancelled {
        if slots[i].finished { ClearSlot(i, Empty); } else { SetSlot(i, slots[i].(releasing := true)); }
        done := true;
      }
      NextInv(s, Release(id), View());
    }

    /** 1 when done, -1 when cancelled or unknown, 0 otherwise. */
    method Poll(id: int) returns (r: int)
      requires Valid()
      ensures var i := Find(tasks, id);
        r == if i == -1 || tasks[i].state == Cancelled then -1 else if tasks[i].state == Done then 1 else 0
    {
      var i := FindSlot(id);
      r := if i == -1 then -1 else if slots[i].state == Done then 1 else if slots[i].state == Cancelled then -1 else 0;
    }

    /** Reads from a stream once there is something to read or nothing more will come; fails
        for an unknown handle or a request that is no stream. */
    method StreamRead(id: int, maximum: nat) returns (ok: bool, out: seq<Byte>)
      requires Valid() && Enabled(View(), Take(id, maximum))
      modifies this`tasks, rings
      ensures Valid() && Next(old(View()), Take(id, maximum), View())
      ensures var i := Find(old(tasks), id);
        if !ok then (i == -1 || !old(tasks)[i].streaming) && View() == old(View())
        else i != -1 && old(tasks)[i].streaming && old(tasks)[i].ring == out + tasks[i].ring && tasks[i].taken == old(tasks)[i].taken + out
    {
      ghost var s := View();
      var limit := if maximum == 0 || maximum > STREAM_CAPACITY then STREAM_CAPACITY else maximum;
      var i := FindSlot(id);
      if i == -1 || !slots[i].streaming {
        NextInv(s, Take(id, maximum), s);
        return false, [];
      }
      out := TakeBytes(i, limit);
      TakenTask(s, id, maximum, View());
      ok := true;
    }

    /** Removes bytes from the front of a stream buffer. */
    method TakeBytes(i: nat, limit: nat) returns (out: seq<Byte>)
      requires Tied() && i < CAPACITY
      modifies this`tasks, rings[i]
      ensures Tied()
      ensures var t, n := old(tasks)[i], Min(|old(tasks)[i].ring|, limit);
        out == t.ring[..n] && tasks == old(tasks)[i := t.(ring := t.ring[n..], taken := t.taken + t.ring[..n])]
    {
      ghost var t := tasks[i];
      out := rings[i].Take(limit);
      TakenPart(t.ring, out, rings[i].View());
      tasks := tasks[i := t.(ring := rings[i].View(), taken := t.taken + out)];
    }

    // ---- The workers ----

    /** The slot at the front of the queue, removed. */
    method Dequeue() returns (slot: nat)
      requires Shaped() && count > 0
      modifies this`head, this`count
      ensures Shaped() && count == old(count) - 1
      ensures slot == Contents(queue[..], old(head), old(count))[0]
      ensures Contents(queue[..], head, count) == Contents(queue[..], old(head), old(count))[1..]
    {
      QueueRemove(queue[..], head, count);
      slot := queue[head];
      head := if head + 1 == CAPACITY then 0 else head + 1;
      count := count - 1;
    }

    /** Takes the next slot from the queue; the slot to run, or -1. The branch for a slot
        that is neither queued nor cancelled cannot be taken. */
    method PopRequest(ghost w: nat) returns (slot: int)
      requires Valid() && count > 0 && w < WORKERS && workers[w].Idle?
      modifies this`head, this`count, this`workers, this`tasks, slots, rings
      ensures Valid() && Enabled(old(View()), Pop(w)) && View() == Popped(old(View()), w)
      ensures slot == -1 || (0 <= slot < CAPACITY && workers[w] == Busy(slot, [], 0, 0))
      ensures slot == -1 <==> old(View()).tasks[old(View()).queue[0]].state == Cancelled
    {
      ghost var s := View();
      PoppedState(s);
      slot := Dequeue();
      if slots[slot].state == Cancelled {
        ClearSlot(slot, Empty);
        assert View() == Popped(s, w);
        NextInv(s, Pop(w), View());
        return -1;
      }
      SetSlot(slot, slots[slot].(state := Running));
      workers := workers[w := Busy(slot, [], 0, 0)];
      assert View() == Popped(s, w);
      NextInv(s, Pop(w), View());
    }

    /** The transport has `data` for the stream. */
    ghost method BeginPushing(w: nat, data: seq<Byte>)
      requires Valid() && Enabled(View(), BeginPush(w, data))
      modifies this`workers
      ensures Valid() && Next(old(View()), BeginPush(w, data), View())
    {
      ghost var s := View();
      var b := workers[w];
      workers := workers[w := Busy(b.slot, data, |tasks[b.slot].pushed|, 0)];
      NextInv(s, BeginPush(w, data), View());
    }

    /** Appends as many bytes as fit to a stream buffer. */
    method AddBytes(i: nat, data: seq<Byte>) returns (n: nat)
      requires Tied() && i < CAPACITY
      modifies this`tasks, rings[i], rings[i].buf
      ensures Tied() && n == Min(|data|, Room(old(tasks)[i])) && rings[i].View() == old(rings[i].View()) + data[..n]
      ensures var t := old(tasks)[i]; tasks == old(tasks)[i := t.(ring := t.ring + data[..n], pushed := t.pushed + data[..n])]
    {
      n := rings[i].Push(data);
      tasks := tasks[i := tasks[i].(ring := tasks[i].ring + data[..n], pushed := tasks[i].pushed + data[..n])];
    }

    /** One turn of pushing what is left of the data, once the request is no longer running
        or there is room: as much as fits goes in, unless the request was cancelled. */
    method PushSome(slot: nat, rest: seq<Byte>, ghost w: nat) returns (ok: bool, amount: nat)
      requires Valid() && w < WORKERS && workers[w].Busy? && workers[w].slot == slot < CAPACITY && rest != []
      requires workers[w].sent < |workers[w].data| && rest == workers[w].data[workers[w].sent..]
      requires !(slots[slot].state == Running && rings[slot].count == STREAM_CAPACITY)
      modifies this`workers, this`tasks, rings[slot], rings[slot].buf
      ensures Valid() && Next(old(View()), Push(w), View())
      ensures ok <==> old(slots[slot]).state == Running
      ensures ok ==> 0 < amount <= |rest| && rings[slot].View() == old(rings[slot].View()) + rest[..amount]
      ensures ok ==> workers[w].data == old(workers[w]).data && workers[w].sent == old(workers[w]).sent + amount
    {
      ghost var s, b := View(), workers[w];
      if slots[slot].state != Running {
        workers := workers[w := b.(data := [], sent := 0)];
        NextInv(s, Push(w), View());
        return false, 0;
      }
      amount := AddBytes(slot, rest);
      assert rest[..amount] == b.data[b.sent..b.sent + amount];
      workers := workers[w := b.(sent := b.sent + amount)];
      assert View() == PushedSome(s, w);
      NextInv(s, Push(w), View());
      ok := true;
    }

    method FinishSlot(slot: nat)
      requires Tied() && slot < CAPACITY
      modifies slots, this`tasks, rings[slot]
      ensures Tied() && tasks == old(tasks)[slot := FinishedTask(old(tasks)[slot])]
    {
      if slots[slot].state == Running {
        SetSlot(slot, slots[slot].(finished := true, state := Done));
      } else if slots[slot].releasing {
        ClearSlot(slot, Empty);
      } else {
        SetSlot(slot, slots[slot].(finished := true));
      }
    }

    /** The transport is finished with a slot. */
    method FinishRequest(slot: nat, ghost w: nat)
      requires Valid() && w < WORKERS && workers[w].Busy? && workers[w].slot == slot && workers[w].sent == |workers[w].data|
      modifies this`workers, this`tasks, slots, rings
      ensures Valid() && Enabled(old(View()), Finish(w)) && View() == Finished(old(View()), w)
    {
      ghost var s := View();
      assert PushOk(s, s.workers[w]);
      FinishSlot(slot);
      workers := workers[w := Idle];
      assert View() == Finished(s, w);
      NextInv(s, Finish(w), View());
    }
  }

  ghost predicate Fits(r: Ring<Byte>)
    reads r
  {
    r.Valid() && r.buf.Length == STREAM_CAPACITY
  }

  ghost predicate EmptyRing(r: Ring<Byte>)
    reads r, r.buf
  {
    Fits(r) && r.View() == []
  }

  /** Taking bytes in terms of the slot. */
  lemma {:induction false} TakenTask(s: Pool, id: int, max: nat, u: Pool)
    requires Inv(s) && Enabled(s, Take(id, max)) && Find(s.tasks, id) != -1 && s.tasks[Find(s.tasks, id)].streaming
    requires var i := Find(s.tasks, id); var t := s.tasks[i];
      var n := Min(|t.ring|, if max == 0 || max > STREAM_CAPACITY then STREAM_CAPACITY else max);
      u == s.(tasks := s.tasks[i := t.(ring := t.ring[n..], taken := t.taken + t.ring[..n])])
    ensures Next(s, Take(id, max), u) && Inv(u)
    ensures var i := Find(s.tasks, id); var n := |s.tasks[i].ring| - |u.tasks[i].ring|;
      n >= 0 && s.tasks[i].ring == s.tasks[i].ring[..n] + u.tasks[i].ring && u.tasks[i].taken == s.tasks[i].taken + s.tasks[i].ring[..n]
  {
    NextInv(s, Take(id, max), u);
  }

  lemma TakenPart(ring: seq<Byte>, out: seq<Byte>, rest: seq<Byte>)
    requires ring == out + rest
    ensures ring[..|out|] == out && ring[|out|..] == rest
  {
  }

  // ---- Handles ----

  /** The `k`-th handle after `start`, cyclically. */
  function Candidate(start: int, k: nat): int
    requires 1 <= start <= MAX_HANDLE && k <= CAPACITY + 1
  {
    if start + k <= MAX_HANDLE then start + k else start + k - MAX_HANDLE
  }

  lemma CandidateNext(start: int, k: nat)
    requires 1 <= start <= MAX_HANDLE && k <= CAPACITY
    ensures 1 <= Candidate(start, k) <= MAX_HANDLE && Candidate(start, k + 1) == Successor(Candidate(start, k))
  {
  }

  ghost function SlotWith(tasks: seq<Task>, id: int): nat
    requires id in Live(tasks)
    ensures SlotWith(tasks, id) < |tasks| && tasks[SlotWith(tasks, id)].id == id
  {
    var i :| 0 <= i < |tasks| && tasks[i].state != Free && tasks[i].id == id;
    i
  }

  /** Different handles are in different slots, so at most CAPACITY candidates are in use. */
  lemma TriedBound(tasks: seq<Task>, start: int, tried: nat)
    requires |tasks| == CAPACITY && 1 <= start <= MAX_HANDLE && tried <= CAPACITY + 1
    requires forall k :: 0 <= k < tried ==> Candidate(start, k) in Live(tasks)
    ensures tried <= CAPACITY
  {
    var slots := seq(tried, k requires 0 <= k < tried => SlotWith(tasks, Candidate(start, k)));
    forall a, b | 0 <= a < b < tried ensures slots[a] != slots[b] {
      assert tasks[slots[a]].id == Candidate(start, a) != Candidate(start, b) == tasks[slots[b]].id;
    }
    DistinctLength(slots, CAPACITY);
  }

  // ---- The queue ----

  lemma QueueAppend(buf: seq<nat>, head: nat, count: nat, slot: nat)
    requires head < |buf| && count < |buf|
    ensures Contents(buf[Wrap(head + count, |buf|) := slot], head, count + 1) == Contents(buf, head, count) + [slot]
  {
    var t := Wrap(head + count, |buf|);
    var r, l := Contents(buf[t := slot], head, count + 1), Contents(buf, head, count);
    forall i | 0 <= i < count ensures r[i] == l[i] { assert Wrap(head + i, |buf|) != t; }
  }

  lemma QueueRemove(buf: seq<nat>, head: nat, count: nat)
    requires head < |buf| && 0 < count <= |buf|
    ensures Contents(buf, head, count)[0] == buf[head]
    ensures Contents(buf, head, count)[1..] == Contents(buf, Wrap(head + 1, |buf|), count - 1)
  {
    var r, l := Contents(buf, Wrap(head + 1, |buf|), count - 1), Contents(buf, head, count);
    forall i | 0 <= i < count - 1 ensures l[i + 1] == r[i] {
      assert Wrap(Wrap(head + 1, |buf|) + i, |buf|) == Wrap(head + (i + 1), |buf|);
    }
  }

  /** A full queue leaves no slot free. */
  lemma FullQueue(s: Pool)
    requires Inv(s) && |s.queue| == CAPACITY
    ensures forall i :: 0 <= i < CAPACITY ==> s.tasks[i].state != Free
  {
    forall i | 0 <= i < CAPACITY ensures s.tasks[i].state != Free {
      if s.tasks[i].state == Free { QueueHasRoom(s, i); }
    }
  }
}
