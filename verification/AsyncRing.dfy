/** Circular buffers: the byte ring of a stream, filled and drained with at most two block
    copies, and the queue of slots. */
module AsyncRing {

  /** The `count` elements of a circular buffer from `head` on. */
  function Contents<T>(buf: seq<T>, head: nat, count: nat): (r: seq<T>)
    requires head < |buf| && count <= |buf|
    ensures |r| == count && forall i :: 0 <= i < count ==> r[i] == buf[Wrap(head + i, |buf|)]
  {
    seq(count, i requires 0 <= i < count => buf[Wrap(head + i, |buf|)])
  }

  /** An index less than twice the size, brought into range: for such an index this is the
      remainder. */
  function Wrap(i: nat, size: nat): (r: nat)
    requires i < 2 * size
    ensures r < size
  {
    if i < size then i else i - size
  }

  lemma WrapIsMod(i: nat, size: nat)
    requires i < 2 * size
    ensures Wrap(i, size) == i % size
  {
    if i < size { SmallMod(i, size); } else { ShiftedMod(i - size, size); }
  }

  lemma SmallMod(i: nat, size: nat)
    requires i < size
    ensures i % size == i
  {
  }

  lemma ShiftedMod(r: nat, size: nat)
    requires r < size
    ensures (size + r) % size == r
  {
    var p := (size + r) / size;
    Division(size + r, size);
    Multiples(p, size);
  }

  lemma Division(i: nat, size: nat)
    requires size > 0
    ensures i == (i / size) * size + i % size
  {
  }

  lemma Multiples(q: nat, size: nat)
    ensures (q == 0 ==> q * size == 0) && (q >= 2 ==> q * size >= 2 * size)
  {
  }

  class Ring<T(0)> {
    const buf: array<T>
    var head: nat
    var count: nat

    constructor (size: nat)
      requires size > 0
      ensures Valid() && fresh(buf) && buf.Length == size && View() == []
    {
      buf := new T[size];
      head, count := 0, 0;
    }

    ghost predicate Valid()
      reads this
    {
      head < buf.Length && count <= buf.Length
    }

    ghost function View(): (r: seq<T>)
      requires Valid()
      reads this, buf
      ensures |r| == count
    {
      Contents(buf[..], head, count)
    }

    /** Copies a block of `data` into the buffer (memcpy). */
    method CopyIn(at: nat, data: seq<T>, from: nat, n: nat)
      requires at + n <= buf.Length && from + n <= |data|
      modifies buf
      ensures forall j :: 0 <= j < buf.Length ==> buf[j] == if at <= j < at + n then data[from + j - at] else old(buf[j])
    {
      for i := 0 to n
        invariant forall j :: 0 <= j < buf.Length ==> buf[j] == if at <= j < at + i then data[from + j - at] else old(buf[j])
      {
        buf[at + i] := data[from + i];
      }
    }

    /** The first `amount` elements of `data` from `tail` on and around the end, in at most
        two blocks. */
    method CopyAround(tail: nat, data: seq<T>, amount: nat)
      requires tail < buf.Length && amount <= buf.Length && amount <= |data|
      modifies buf
      ensures forall j :: 0 <= j < buf.Length ==> buf[j] == After(old(buf[..]), data, tail, amount, j)
    {
      var first := if amount < buf.Length - tail then amount else buf.Length - tail;
      CopyIn(tail, data, 0, first);
      if amount > first { CopyIn(0, data, first, amount - first); }
    }

    /** Empties the buffer. */
    method Clear()
      requires buf.Length > 0
      modifies this`head, this`count
      ensures Valid() && View() == []
    {
      head, count := 0, 0;
    }

    /** Appends as many elements as fit. */
    method Push(data: seq<T>) returns (amount: nat)
      requires Valid()
      modifies this`count, buf
      ensures Valid()
      ensures amount == if |data| < buf.Length - old(count) then |data| else buf.Length - old(count)
      ensures View() == old(View()) + data[..amount]
    {
      var free := buf.Length - count;
      amount := if |data| < free then |data| else free;
      WrapIsMod(head + count, buf.Length);
      ghost var before := buf[..];
      CopyAround((head + count) % buf.Length, data, amount);
      PushedContents(before, buf[..], head, count, data, amount);
      count := count + amount;
    }

    /** Removes up to `max` elements from the front, in at most two blocks. */
    method Take(max: nat) returns (out: seq<T>)
      requires Valid()
      modifies this`head, this`count
      ensures Valid() && |out| == if old(count) < max then old(count) else max
      ensures old(View()) == out + View()
    {
      var amount := if count < max then count else max;
      var first := if amount < buf.Length - head then amount else buf.Length - head;
      out := buf[head..head + first];
      if amount > first { out := out + buf[..amount - first]; }
      TakenContents(buf[..], head, count, amount);
      WrapIsMod(head + amount, buf.Length);
      head := (head + amount) % buf.Length;
      count := count - amount;
    }
  }

  /** The element at `j` after copying `amount` elements of `data` to `tail` and around. */
  function After<T>(before: seq<T>, data: seq<T>, tail: nat, amount: nat, j: nat): T
    requires j < |before| && tail < |before| && amount <= |before| && amount <= |data|
  {
    var first := if amount < |before| - tail then amount else |before| - tail;
    if tail <= j < tail + first then data[j - tail] else if j < amount - first then data[first + j] else before[j]
  }

  lemma PushedContents<T>(before: seq<T>, after: seq<T>, head: nat, count: nat, data: seq<T>, amount: nat)
    requires head < |before| && count + amount <= |before| == |after| && amount <= |data|
    requires forall j :: 0 <= j < |after| ==> after[j] == After(before, data, Wrap(head + count, |before|), amount, j)
    ensures Contents(after, head, count + amount) == Contents(before, head, count) + data[..amount]
  {
    var r, l := Contents(after, head, count + amount), Contents(before, head, count);
    forall i | 0 <= i < count + amount ensures r[i] == (l + data[..amount])[i] {
    }
  }

  lemma {:induction false} TakenContents<T>(buf: seq<T>, head: nat, count: nat, amount: nat)
    requires head < |buf| && amount <= count <= |buf|
    ensures var first := if amount < |buf| - head then amount else |buf| - head;
      Contents(buf, head, count) == buf[head..head + first] + buf[..amount - first] + Contents(buf, Wrap(head + amount, |buf|), count - amount)
  {
    var first := if amount < |buf| - head then amount else |buf| - head;
    var l, r := Contents(buf, head, count), Contents(buf, Wrap(head + amount, |buf|), count - amount);
    forall i | 0 <= i < count ensures l[i] == (buf[head..head + first] + buf[..amount - first] + r)[i] {
      if i >= amount { assert r[i - amount] == buf[Wrap(Wrap(head + amount, |buf|) + (i - amount), |buf|)]; }
    }
  }
}
