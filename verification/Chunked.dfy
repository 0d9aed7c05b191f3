/** Chunked transfer coding (section 7.1 of RFC 9112) as src/compiler/native_net.c reads it:
    what the decoder of a whole buffer accepts, what the incremental decoder accepts, and
    when a buffer is taken to be complete. */
module Chunked {

  import opened Options
  import opened Bytes

  const CR: Byte := 13
  const LF: Byte := 10
  const SEMICOLON: Byte := 59
  const COLON: Byte := 58

  const SIZE_MAX: int := 0xFFFF_FFFF_FFFF_FFFF

  /** Longest size or trailer line of the incremental decoder; the decoder of a whole buffer
      allows one byte more. */
  const LINE_LIMIT: nat := 8192
  const BUFFER_LIMIT: nat := 8193

  // ---- Lines ----

  /** The line that `acc` begins and `s` goes on with, up to CRLF, and what follows. A bare
      CR or LF, or a line over the limit, is an error. */
  function Split(acc: seq<Byte>, s: seq<Byte>, limit: nat): Option<(seq<Byte>, seq<Byte>)>
    decreases |s|
  {
    if |s| < 2 then None
    else if s[0] == CR then (if s[1] == LF then Some((acc, s[2..])) else None)
    else if s[0] == LF || |acc| >= limit then None
    else Split(acc + [s[0]], s[1..], limit)
  }

  lemma {:induction false} SplitSizes(acc: seq<Byte>, s: seq<Byte>, limit: nat)
    requires Split(acc, s, limit).Some? && |acc| <= limit
    ensures var (line, rest) := Split(acc, s, limit).value;
      |acc| <= |line| <= limit && |line| - |acc| + 2 + |rest| == |s|
    decreases |s|
  {
    if s[0] != CR { SplitSizes(acc + [s[0]], s[1..], limit); }
  }

  function HexDigit(c: Byte): int {
    if 48 <= c <= 57 then c - 48 else if 97 <= c <= 102 then c - 87 else if 65 <= c <= 70 then c - 55 else -1
  }

  /** The value of hexadecimal digits, none if there is another character or it overflows. */
  function HexValue(digits: seq<Byte>): (r: Option<nat>)
    ensures r.Some? ==> r.value <= SIZE_MAX
  {
    if digits == [] then Some(0)
    else match HexValue(digits[..|digits| - 1])
      case None => None
      case Some(v) =>
        var d := HexDigit(digits[|digits| - 1]);
        if d < 0 || v * 16 + d > SIZE_MAX then None else Some(v * 16 + d)
  }

  /** The position of a byte, or the length. */
  function Find(s: seq<Byte>, c: Byte): (i: nat)
    ensures i <= |s| && (i < |s| ==> s[i] == c) && forall j :: 0 <= j < i ==> s[j] != c
  {
    if s == [] || s[0] == c then 0 else 1 + Find(s[1..], c)
  }

  /** The chunk size before any extension. */
  function ParseSize(line: seq<Byte>): Option<nat> {
    var end := Find(line, SEMICOLON);
    if end == 0 then None else HexValue(line[..end])
  }

  /** The byte 0 is among them: looking it up in the string of punctuation characters finds
      the end of the string. */
  predicate TokenChar(c: Byte) {
    c == 0 || (48 <= c <= 57) || (65 <= c <= 90) || (97 <= c <= 122) ||
    c == 33 || c == 35 || c == 36 || c == 37 || c == 38 || c == 39 || c == 42 || c == 43 || c == 45 || c == 46 ||
    c == 94 || c == 95 || c == 96 || c == 124 || c == 126
  }

  predicate FieldChar(c: Byte) {
    (c >= 32 || c == 9) && c != 127
  }

  /** A trailer field: a token, a colon, and text without control characters. */
  predicate TrailerOk(line: seq<Byte>) {
    var colon := Find(line, COLON);
    && 0 < colon < |line|
    && (forall i :: 0 <= i < colon ==> TokenChar(line[i]))
    && (forall i :: colon < i < |line| ==> FieldChar(line[i]))
  }

  // ---- The whole buffer ----

  predicate Trailers(s: seq<Byte>, limit: nat)
    decreases |s|
  {
    match Split([], s, limit)
    case None => false
    case Some((line, rest)) => line == [] || (TrailerOk(line) && |rest| < |s| && Trailers(rest, limit))
  }

  predicate Delimited(s: seq<Byte>, n: nat) {
    n + 2 <= |s| && s[n] == CR && s[n + 1] == LF
  }

  /** The decoded body of a buffer. */
  function Decode(s: seq<Byte>, limit: nat): Option<seq<Byte>>
    decreases |s|
  {
    match Split([], s, limit)
    case None => None
    case Some((line, rest)) =>
      match ParseSize(line)
      case None => None
      case Some(n) =>
        if n == 0 then (if Trailers(rest, limit) then Some([]) else None)
        else if !Delimited(rest, n) || |rest| >= |s| then None
        else match Decode(rest[n + 2..], limit)
          case None => None
          case Some(out) => Some(rest[..n] + out)
  }

  // ---- The incremental decoder ----

  datatype Mode = Size | SizeLF | Data | DataCR | DataLF | Trailer | TrailerLF | Done

  datatype Decoder = Decoder(mode: Mode, line: seq<Byte>, remaining: nat, out: seq<Byte>)

  const Fresh: Decoder := Decoder(Size, [], 0, [])

  /** A byte of a line: its end, an error, or one more byte. */
  function LineByte(d: Decoder, b: Byte, ended: Mode): Option<Decoder> {
    if b == CR then Some(d.(mode := ended))
    else if b == LF || |d.line| >= LINE_LIMIT then None
    else Some(d.(line := d.line + [b]))
  }

  function Step(d: Decoder, b: Byte): Option<Decoder> {
    match d.mode
    case Size => LineByte(d, b, SizeLF)
    case SizeLF => if b == LF then Sized(d) else None
    case Data =>
      if |d.out| >= SIZE_MAX then None else
      var left := if d.remaining > 0 then d.remaining - 1 else 0;
      Some(d.(out := d.out + [b], remaining := left, mode := if left == 0 then DataCR else Data))
    case DataCR => if b == CR then Some(d.(mode := DataLF)) else None
    case DataLF => if b == LF then Some(d.(mode := Size)) else None
    case Trailer => LineByte(d, b, TrailerLF)
    case TrailerLF => if b == LF then Trailed(d) else None
    case Done => Some(d)
  }

  /** After a size line. */
  function Sized(d: Decoder): Option<Decoder> {
    match ParseSize(d.line)
    case None => None
    case Some(n) => Some(d.(line := [], remaining := n, mode := if n == 0 then Trailer else Data))
  }

  /** After a trailer line. */
  function Trailed(d: Decoder): Option<Decoder> {
    if d.line == [] then Some(d.(mode := Done))
    else if TrailerOk(d.line) then Some(d.(line := [], mode := Trailer))
    else None
  }

  /** Bytes after the end are left alone. */
  function Feed(d: Decoder, s: seq<Byte>): Option<Decoder>
    decreases |s|
  {
    if s == [] || d.mode.Done? then Some(d)
    else match Step(d, s[0])
      case None => None
      case Some(e) => Feed(e, s[1..])
  }

  /** However the input is split, feeding the parts is feeding the whole. */
  lemma {:induction false} FeedSplit(d: Decoder, a: seq<Byte>, b: seq<Byte>)
    ensures Feed(d, a + b) == match Feed(d, a) case None => None case Some(e) => Feed(e, b)
    decreases |a|
  {
    if a == [] {
      assert a + b == b;
    } else if !d.mode.Done? {
      assert (a + b)[0] == a[0] && (a + b)[1..] == a[1..] + b;
      var e := Step(d, a[0]);
      if e.Some? { FeedSplit(e.value, a[1..], b); }
    }
  }

  /** Feeding `s` to `d`, if there is such a decoder, ends the body with output `out`. */
  predicate Ends(d: Option<Decoder>, s: seq<Byte>, out: seq<Byte>) {
    d.Some? && var e := Feed(d.value, s); e.Some? && e.value.mode.Done? && e.value.out == out
  }

  // ---- Both decoders agree ----

  /** Reading a line byte by byte. */
  lemma {:induction false} LineFeeds(d: Decoder, s: seq<Byte>, out: seq<Byte>)
    requires (d.mode.Size? || d.mode.Trailer?) && |d.line| <= LINE_LIMIT
    ensures Ends(Some(d), s, out) <==>
      var l := Split(d.line, s, LINE_LIMIT);
      l.Some? && Ends(if d.mode.Size? then Sized(d.(line := l.value.0, mode := SizeLF)) else Trailed(d.(line := l.value.0, mode := TrailerLF)),
                      l.value.1, out)
    decreases |s|
  {
    if s == [] {
    } else if s[0] == CR {
      var e := Step(d, s[0]).value;
      if |s| >= 2 {
        assert s[1..][0] == s[1] && s[1..][1..] == s[2..];
        assert Feed(d, s) == Feed(e, s[1..]);
      } else {
        assert s[1..] == [];
        assert Feed(d, s) == Feed(e, []);
      }
    } else if s[0] != LF && |d.line| < LINE_LIMIT {
      LineFeeds(d.(line := d.line + [s[0]]), s[1..], out);
      if |s| == 1 { assert s[1..] == []; }
    }
  }

  /** Reading the bytes of a chunk. */
  lemma {:induction false} DataFeeds(d: Decoder, s: seq<Byte>, out: seq<Byte>)
    requires d.mode.Data? && d.remaining > 0 && |d.out| + |s| <= SIZE_MAX
    ensures var n := d.remaining;
      Ends(Some(d), s, out) <==>
        Delimited(s, n) && Ends(Some(d.(mode := Size, remaining := 0, out := d.out + s[..n])), s[n + 2..], out)
    decreases |s|
  {
    var n := d.remaining;
    if s != [] {
      var e := Step(d, s[0]).value;
      if n > 1 {
        DataFeeds(e, s[1..], out);
        if n + 2 <= |s| {
          assert s[..n] == [s[0]] + s[1..][..n - 1];
          assert d.out + s[..n] == d.out + [s[0]] + s[1..][..n - 1];
          assert s[1..][n + 1..] == s[n + 2..];
        }
      } else {
        DelimiterFeeds(e, s[1..], out);
        if |s| >= 3 {
          assert s[..1] == [s[0]] && s[1..][2..] == s[3..];
        }
      }
    }
  }

  lemma DelimiterFeeds(d: Decoder, s: seq<Byte>, out: seq<Byte>)
    requires d.mode.DataCR?
    ensures Ends(Some(d), s, out) <==> Delimited(s, 0) && Ends(Some(d.(mode := Size)), s[2..], out)
  {
    if |s| == 1 && s[0] == CR {
      assert s[1..] == [];
      assert Feed(d, s) == Feed(d.(mode := DataLF), []);
    } else if |s| >= 2 && s[0] == CR {
      var e := d.(mode := DataLF);
      assert s[1..][0] == s[1] && s[1..][1..] == s[2..];
      assert Feed(d, s) == Feed(e, s[1..]);
    }
  }

  lemma {:induction false} TrailersFeed(d: Decoder, s: seq<Byte>, out: seq<Byte>)
    requires d.mode.Trailer? && d.line == []
    ensures Ends(Some(d), s, out) <==> Trailers(s, LINE_LIMIT) && out == d.out
    decreases |s|
  {
    LineFeeds(d, s, out);
    var l := Split([], s, LINE_LIMIT);
    if l.Some? {
      SplitSizes([], s, LINE_LIMIT);
      var e := d.(line := l.value.0, mode := TrailerLF);
      if l.value.0 != [] && TrailerOk(l.value.0) {
        assert Trailed(e) == Some(d);
        TrailersFeed(d, l.value.1, out);
      }
    }
  }

  /** The incremental decoder ends with what the whole buffer decodes to. */
  lemma {:induction false} DecodeFeeds(d: Decoder, s: seq<Byte>, out: seq<Byte>)
    requires d.mode.Size? && d.line == [] && d.remaining == 0 && |d.out| + |s| <= SIZE_MAX
    ensures Ends(Some(d), s, out) <==> var r := Decode(s, LINE_LIMIT); r.Some? && out == d.out + r.value
    decreases |s|
  {
    LineFeeds(d, s, out);
    var l := Split([], s, LINE_LIMIT);
    if l.Some? {
      SplitSizes([], s, LINE_LIMIT);
      var (line, rest) := l.value;
      var size := ParseSize(line);
      if size.Some? { SizedFeeds(d, line, rest, size.value, s, out); }
    }
  }

  lemma {:induction false} SizedFeeds(d: Decoder, line: seq<Byte>, rest: seq<Byte>, n: nat, s: seq<Byte>, out: seq<Byte>)
    requires d.mode.Size? && d.line == [] && d.remaining == 0 && |rest| < |s| && |d.out| + |s| <= SIZE_MAX
    requires Split([], s, LINE_LIMIT) == Some((line, rest)) && ParseSize(line) == Some(n)
    ensures Ends(Sized(d.(line := line, mode := SizeLF)), rest, out)
       <==> var r := Decode(s, LINE_LIMIT); r.Some? && out == d.out + r.value
    decreases |rest|
  {
    var e := Sized(d.(line := line, mode := SizeLF)).value;
    if n == 0 {
      TrailersFeed(e, rest, out);
      assert d.out + [] == d.out;
    } else {
      DataFeeds(e, rest, out);
      if Delimited(rest, n) {
        DecodeFeeds(d.(out := d.out + rest[..n]), rest[n + 2..], out);
        var r := Decode(rest[n + 2..], LINE_LIMIT);
        if r.Some? { assert d.out + rest[..n] + r.value == d.out + (rest[..n] + r.value); }
      }
    }
  }
}
