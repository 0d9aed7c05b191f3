/** The decoder of a whole buffer and the completeness check, as loops over the buffer. */
module ChunkedBuffer {
  import opened Options
  import opened Bytes
  import opened Chunked
  import opened ChunkedFraming

  /** The end of the line that starts at `start`; the line may be no longer than the limit
      and has no bare CR or LF. */
  method ScanLine(body: array<Byte>, start: nat) returns (ok: bool, end: nat)
    requires start <= body.Length
    ensures var l := Split([], body[start..], BUFFER_LIMIT);
      if ok then start <= end && end + 2 <= body.Length && l == Some((body[start..end], body[end + 2..])) else l == None
  {
    end := start;
    assert body[start..end] == [];
    while end + 1 < body.Length && !(body[end] == CR && body[end + 1] == LF)
      invariant start <= end <= body.Length
      invariant Split([], body[start..], BUFFER_LIMIT) == Split(body[start..end], body[end..], BUFFER_LIMIT)
    {
      if body[end] == CR || body[end] == LF || end - start > 8192 { return false, end; }
      assert body[end..][1..] == body[end + 1..] && body[start..end] + [body[end]] == body[start..end + 1];
      end := end + 1;
    }
    assert end + 1 < body.Length ==> body[end..][2..] == body[end + 2..];
    ok := end + 1 < body.Length;
  }

  /** The end of the line that starts at `start`, which is at the first CRLF. */
  method FindLine(body: array<Byte>, start: nat) returns (ok: bool, end: nat)
    requires start <= body.Length
    ensures var l := LooseSplit([], body[start..]);
      if ok then start <= end && end + 2 <= body.Length && l == Some((body[start..end], body[end + 2..])) else l == None
  {
    end := start;
    assert body[start..end] == [];
    while end + 1 < body.Length && !(body[end] == CR && body[end + 1] == LF)
      invariant start <= end <= body.Length
      invariant LooseSplit([], body[start..]) == LooseSplit(body[start..end], body[end..])
    {
      assert body[end..][1..] == body[end + 1..] && body[start..end] + [body[end]] == body[start..end + 1];
      end := end + 1;
    }
    assert end + 1 < body.Length ==> body[end..][2..] == body[end + 2..];
    ok := end + 1 < body.Length;
  }

  /** The position of a byte between two others (memchr and the loop to the semicolon). */
  method FindByte(body: array<Byte>, start: nat, end: nat, c: Byte) returns (at: nat)
    requires start <= end <= body.Length
    ensures start <= at <= end && at - start == Find(body[start..end], c)
  {
    at := start;
    while at < end && body[at] != c
      invariant start <= at <= end
      invariant forall j :: start <= j < at ==> body[j] != c
    {
      at := at + 1;
    }
    FindIs(body[start..end], c, at - start);
  }

  lemma FindIs(s: seq<Byte>, c: Byte, i: nat)
    requires i <= |s| && (i < |s| ==> s[i] == c) && forall j :: 0 <= j < i ==> s[j] != c
    ensures Find(s, c) == i
  {
  }

  lemma {:induction false} BadDigits(digits: seq<Byte>, i: nat)
    requires i <= |digits| && HexValue(digits[..i]) == None
    ensures HexValue(digits) == None
    decreases |digits| - i
  {
    if i < |digits| {
      assert digits[..i + 1][..i] == digits[..i];
      BadDigits(digits, i + 1);
    } else {
      assert digits[..i] == digits;
    }
  }

  /** The chunk size of the line between two positions. */
  method ParseSizeAt(body: array<Byte>, start: nat, end: nat) returns (ok: bool, size: nat)
    requires start <= end <= body.Length
    ensures ParseSize(body[start..end]) == if ok then Some(size) else None
  {
    var stop := FindByte(body, start, end, SEMICOLON);
    if stop == start { return false, 0; }
    ghost var digits := body[start..end][..stop - start];
    size := 0;
    var i := start;
    assert digits[..0] == [];
    while i < stop
      invariant start <= i <= stop
      invariant HexValue(digits[..i - start]) == Some(size)
    {
      assert digits[..i + 1 - start][..i - start] == digits[..i - start];
      var v := HexDigit(body[i]);
      if v < 0 || size > (SIZE_MAX - v) / 16 {
        BadDigits(digits, i + 1 - start);
        return false, 0;
      }
      size := size * 16 + v;
      i := i + 1;
    }
    assert digits[..stop - start] == digits;
    ok := true;
  }

  /** Whether the line between two positions is a well-formed trailer field. */
  method TrailerAt(body: array<Byte>, start: nat, end: nat) returns (ok: bool)
    requires start <= end <= body.Length
    ensures ok == TrailerOk(body[start..end])
  {
    ghost var line := body[start..end];
    var colon := FindByte(body, start, end, COLON);
    if colon == end || colon == start { return false; }
    var p := start;
    while p < colon
      invariant start <= p <= colon
      invariant forall i :: 0 <= i < p - start ==> TokenChar(line[i])
    {
      if !TokenChar(body[p]) { assert !TokenChar(line[p - start]); return false; }
      p := p + 1;
    }
    p := colon + 1;
    while p < end
      invariant colon < p <= end
      invariant forall i :: colon - start < i < p - start ==> FieldChar(line[i])
    {
      if !FieldChar(body[p]) { assert !FieldChar(line[p - start]); return false; }
      p := p + 1;
    }
    ok := true;
  }

  /** Reads the trailer up to its empty line. */
  method ReadTrailers(body: array<Byte>, start: nat) returns (ok: bool)
    requires start <= body.Length
    ensures ok == Trailers(body[start..], BUFFER_LIMIT)
  {
    var r := start;
    while true
      invariant start <= r <= body.Length
      invariant Trailers(body[start..], BUFFER_LIMIT) == Trailers(body[r..], BUFFER_LIMIT)
      decreases body.Length - r
    {
      var found, end := ScanLine(body, r);
      if !found { return false; }
      if end == r { return true; }
      var good := TrailerAt(body, r, end);
      if !good { return false; }
      r := end + 2;
    }
  }

  /** The decoded body after what has been decoded. */
  function After(out: seq<Byte>, rest: Option<seq<Byte>>): Option<seq<Byte>> {
    match rest
    case None => None
    case Some(more) => Some(out + more)
  }

  /** Copies a chunk (memcpy). */
  method CopyChunk(out: array<Byte>, w: nat, body: array<Byte>, r: nat, n: nat)
    requires w + n <= out.Length && r + n <= body.Length && out != body
    modifies out
    ensures out[..w + n] == old(out[..w]) + body[r..r + n]
  {
    for i := 0 to n
      invariant out[..w + i] == old(out[..w]) + body[r..r + i]
    {
      out[w + i] := body[r + i];
    }
  }

  /** What is left to decode after the size line of a chunk of `n` bytes. */
  ghost function AfterSize(n: nat, rest: seq<Byte>): Option<seq<Byte>> {
    if n == 0 then (if Trailers(rest, BUFFER_LIMIT) then Some([]) else None)
    else if !Delimited(rest, n) then None
    else After(rest[..n], Decode(rest[n + 2..], BUFFER_LIMIT))
  }

  /** The size of the chunk whose size line starts at `r`, and where its bytes start. */
  method ReadSize(body: array<Byte>, r: nat) returns (ok: bool, chunk: nat, start: nat)
    requires r <= body.Length
    ensures if ok then r < start <= body.Length && Decode(body[r..], BUFFER_LIMIT) == AfterSize(chunk, body[start..])
      else Decode(body[r..], BUFFER_LIMIT) == None
  {
    var found, end := ScanLine(body, r);
    if !found { return false, 0, r; }
    ok, chunk := ParseSizeAt(body, r, end);
    start := end + 2;
    if ok { DecodeSized(body[r..], body[r..end], body[start..], chunk); }
  }

  lemma DecodeSized(s: seq<Byte>, line: seq<Byte>, rest: seq<Byte>, n: nat)
    requires Split([], s, BUFFER_LIMIT) == Some((line, rest)) && ParseSize(line) == Some(n)
    ensures Decode(s, BUFFER_LIMIT) == AfterSize(n, rest)
  {
    SplitSizes([], s, BUFFER_LIMIT);
  }

  /** The decoded body, NUL-terminated, and its length. */
  method DecodeChunked(body: array<Byte>) returns (ok: bool, out: array<Byte>, w: nat)
    requires body.Length <= SIZE_MAX
    ensures ok == (body.Length != SIZE_MAX && Decode(body[..], BUFFER_LIMIT).Some?)
    ensures ok ==> w < out.Length && out[w] == 0 && Some(out[..w]) == Decode(body[..], BUFFER_LIMIT)
    ensures fresh(out)
  {
    if body.Length == SIZE_MAX { out := new Byte[0]; return false, out, 0; }
    out := new Byte[body.Length + 1];
    var r := 0;
    w := 0;
    ghost var whole := Decode(body[..], BUFFER_LIMIT);
    assert body[0..] == body[..] && out[..0] == [];
    AfterNothing(whole);
    while true
      invariant w <= r <= body.Length
      invariant whole == After(out[..w], Decode(body[r..], BUFFER_LIMIT))
      decreases body.Length - r
    {
      var sized, chunk, start := ReadSize(body, r);
      if !sized { return false, out, w; }
      if chunk == 0 {
        var good := ReadTrailers(body, start);
        ghost var done := out[..w];
        if good { out[w] := 0; }
        assert out[..w] == done && done + [] == done;
        return good, out, w;
      }
      if chunk > body.Length - start || body.Length - start - chunk < 2 { return false, out, w; }
      ghost var done, rest := out[..w], body[start..];
      CopyChunk(out, w, body, start, chunk);
      if body[start + chunk] != CR || body[start + chunk + 1] != LF { return false, out, w; }
      r := start + chunk + 2;
      assert rest[chunk + 2..] == body[r..] && rest[..chunk] == body[start..start + chunk];
      AfterBoth(done, rest[..chunk], Decode(body[r..], BUFFER_LIMIT));
      w := w + chunk;
    }
  }

  lemma AfterBoth(a: seq<Byte>, b: seq<Byte>, o: Option<seq<Byte>>)
    ensures After(a, After(b, o)) == After(a + b, o)
  {
    if o.Some? { assert a + b + o.value == a + (b + o.value); }
  }

  lemma AfterNothing(o: Option<seq<Byte>>)
    ensures After([], o) == o
  {
    if o.Some? { assert [] + o.value == o.value; }
  }

  /** Whether a message is framed after the size line of a chunk of `n` bytes. */
  ghost predicate FramedAfterSize(n: nat, rest: seq<Byte>) {
    if n == 0 then FrameTrailers(rest).Some? else Delimited(rest, n) && Frame(rest[n + 2..]).Some?
  }

  /** ReadSize, with the line ended by the first CRLF. */
  method ReadAmount(body: array<Byte>, r: nat) returns (ok: bool, amount: nat, start: nat)
    requires r <= body.Length
    ensures if ok then r < start <= body.Length && Frame(body[r..]).Some? == FramedAfterSize(amount, body[start..])
      else Frame(body[r..]) == None
  {
    var found, end := FindLine(body, r);
    if !found { return false, 0, r; }
    ok, amount := ParseSizeAt(body, r, end);
    start := end + 2;
  }

  /** Whether the buffer holds a whole framed message. */
  method BodyComplete(body: array<Byte>) returns (complete: bool)
    ensures complete == Frame(body[..]).Some?
  {
    var r := 0;
    assert body[0..] == body[..];
    while true
      invariant r <= body.Length
      invariant Frame(body[..]).Some? == Frame(body[r..]).Some?
      decreases body.Length - r
    {
      var sized, amount, start := ReadAmount(body, r);
      if !sized { return false; }
      if amount == 0 {
        complete := TrailersComplete(body, start);
        return;
      }
      if amount > body.Length - start || body.Length - start - amount < 2 { return false; }
      r := start + amount;
      if body[r] != CR || body[r + 1] != LF { return false; }
      assert body[start..][amount + 2..] == body[r + 2..];
      r := r + 2;
    }
  }

  method TrailersComplete(body: array<Byte>, start: nat) returns (complete: bool)
    requires start <= body.Length
    ensures complete == FrameTrailers(body[start..]).Some?
  {
    var r := start;
    while true
      invariant start <= r <= body.Length
      invariant FrameTrailers(body[start..]).Some? == FrameTrailers(body[r..]).Some?
      decreases body.Length - r
    {
      var found, end := FindLine(body, r);
      if !found { return false; }
      if end == r { return true; }
      var colon := FindByte(body, r, end, COLON);
      if colon == end { return false; }
      r := end + 2;
    }
  }
}
