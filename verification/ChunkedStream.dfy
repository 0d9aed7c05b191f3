/** The incremental decoder: a line buffer, a mode and a count, advanced by each block. */
module ChunkedStream {
  import opened Options
  import opened Bytes
  import opened Chunked
  import ChunkedBuffer

  class ChunkStream {
    var state: Mode
    const line: array<Byte>
    var lineLength: nat
    var chunkRemaining: nat
    /** What the sink was given; the length is the total. */
    var emitted: seq<Byte>

    constructor ()
      ensures Valid() && fresh(line) && View() == Fresh
    {
      state := Size;
      line := new Byte[8193];
      lineLength, chunkRemaining := 0, 0;
      emitted := [];
    }

    ghost predicate Valid()
      reads this
    {
      && line.Length == 8193 && lineLength <= 8192
      && (state.Data? ==> chunkRemaining > 0)
      && |emitted| <= SIZE_MAX
    }

    ghost function View(): Decoder
      requires Valid()
      reads this, line
    {
      Decoder(state, line[..lineLength], chunkRemaining, emitted)
    }

    /** Adds a byte to the line, unless it ends it. */
    method LineByte(ch: Byte, ended: Mode) returns (ok: bool)
      requires Valid() && !ended.Data? && (state.Size? || state.Trailer?)
      modifies this, line
      ensures Valid()
      ensures var d := Chunked.LineByte(old(View()), ch, ended); if ok then d == Some(View()) else d == None
    {
      if ch == CR {
        state := ended;
      } else if ch == LF || lineLength >= 8192 {
        return false;
      } else {
        line[lineLength] := ch;
        lineLength := lineLength + 1;
        assert line[..lineLength] == old(line[..lineLength]) + [ch];
      }
      ok := true;
    }

    /** The line feed after a size line. */
    method SizeEnd(ch: Byte) returns (ok: bool)
      requires Valid() && state.SizeLF?
      modifies this
      ensures Valid()
      ensures var d := Step(old(View()), ch); if ok then d == Some(View()) else d == None
    {
      if ch != LF { return false; }
      var parsed, amount := ChunkedBuffer.ParseSizeAt(line, 0, lineLength);
      assert line[0..lineLength] == line[..lineLength];
      if !parsed { return false; }
      lineLength := 0;
      chunkRemaining := amount;
      state := if amount > 0 then Data else Trailer;
      ok := true;
    }

    /** The line feed after a trailer line. */
    method TrailerEnd(ch: Byte) returns (ok: bool)
      requires Valid() && state.TrailerLF?
      modifies this
      ensures Valid()
      ensures var d := Step(old(View()), ch); if ok then d == Some(View()) else d == None
    {
      if ch != LF { return false; }
      assert line[0..lineLength] == line[..lineLength];
      if lineLength == 0 {
        state := Done;
      } else {
        var good := ChunkedBuffer.TrailerAt(line, 0, lineLength);
        if !good { return false; }
        lineLength := 0;
        state := Trailer;
      }
      ok := true;
    }

    /** Gives the sink as much of the chunk as there is. */
    method Emit(data: seq<Byte>, i: nat) returns (ok: bool, next: nat)
      requires Valid() && state.Data? && i < |data|
      modifies this
      ensures Valid()
      ensures if ok then i < next <= |data| && Feed(old(View()), data[i..]) == Feed(View(), data[next..])
        else Feed(old(View()), data[i..]) == None
    {
      var available := |data| - i;
      var amount := if available < chunkRemaining then available else chunkRemaining;
      if amount > SIZE_MAX - |emitted| {
        TooMuch(View(), data[i..], amount);
        return false, i;
      }
      DataRun(View(), data[i..], amount);
      assert data[i..][..amount] == data[i..i + amount] && data[i..][amount..] == data[i + amount..];
      emitted := emitted + data[i..i + amount];
      next := i + amount;
      chunkRemaining := chunkRemaining - amount;
      if chunkRemaining == 0 { state := DataCR; }
      ok := true;
    }

    /** A byte outside the chunk data. */
    method OneByte(ch: Byte) returns (ok: bool)
      requires Valid() && !state.Data? && !state.Done?
      modifies this, line
      ensures Valid()
      ensures var d := Step(old(View()), ch); if ok then d == Some(View()) else d == None
    {
      match state {
        case Size => ok := LineByte(ch, SizeLF);
        case SizeLF => ok := SizeEnd(ch);
        case DataCR =>
          ok := ch == CR;
          if ok { state := DataLF; }
        case DataLF =>
          ok := ch == LF;
          if ok { state := Size; }
        case Trailer => ok := LineByte(ch, TrailerLF);
        case TrailerLF => ok := TrailerEnd(ch);
      }
    }

    /** Feeds a block of any size. */
    method FeedBlock(data: seq<Byte>) returns (ok: bool)
      requires Valid()
      modifies this, line
      ensures Valid()
      ensures var d := Feed(old(View()), data); if ok then d == Some(View()) else d == None
    {
      var i := 0;
      while i < |data| && !state.Done?
        invariant Valid() && i <= |data|
        invariant Feed(old(View()), data) == Feed(View(), data[i..])
        decreases |data| - i
      {
        if state.Data? {
          ok, i := Emit(data, i);
          if !ok { return; }
        } else {
          assert data[i..][0] == data[i] && data[i..][1..] == data[i + 1..];
          ok := OneByte(data[i]);
          if !ok { return; }
          i := i + 1;
        }
      }
      ok := true;
    }
  }

  /** A decoder after `n` bytes of its chunk. */
  ghost function Consumed(d: Decoder, s: seq<Byte>, n: nat): Decoder
    requires n <= |s| && n <= d.remaining
  {
    d.(out := d.out + s[..n], remaining := d.remaining - n, mode := if d.remaining == n then DataCR else Data)
  }

  /** A block of chunk data goes to the sink as its bytes would one by one. */
  lemma {:induction false} DataRun(d: Decoder, s: seq<Byte>, n: nat)
    requires d.mode.Data? && 0 < n <= d.remaining && n <= |s| && |d.out| + n <= SIZE_MAX
    ensures Feed(d, s) == Feed(Consumed(d, s, n), s[n..])
    decreases n
  {
    var e := Step(d, s[0]).value;
    assert d.out + s[..1] == d.out + [s[0]];
    if n > 1 {
      DataRun(e, s[1..], n - 1);
      assert s[..n] == [s[0]] + s[1..][..n - 1];
      assert d.out + s[..n] == e.out + s[1..][..n - 1];
      assert s[1..][n - 1..] == s[n..];
    }
  }

  lemma {:induction false} TooMuch(d: Decoder, s: seq<Byte>, n: nat)
    requires d.mode.Data? && n <= d.remaining && n <= |s| && |d.out| <= SIZE_MAX < |d.out| + n
    ensures Feed(d, s) == None
    decreases n
  {
    if |d.out| < SIZE_MAX {
      TooMuch(Step(d, s[0]).value, s[1..], n - 1);
    }
  }
}
