/** The framing of a chunked body: what the completeness check looks for, and how both
    decoders relate to it. */
module ChunkedFraming {
  import opened Options
  import opened Bytes
  import opened Chunked

  /** The line that `acc` begins and `s` goes on with, up to the first CRLF, and what
      follows: any bytes and any length will do. */
  function LooseSplit(acc: seq<Byte>, s: seq<Byte>): (r: Option<(seq<Byte>, seq<Byte>)>)
    ensures r.Some? ==> acc <= r.value.0 && |r.value.0| - |acc| + 2 + |r.value.1| == |s|
    decreases |s|
  {
    if |s| < 2 then None
    else if s[0] == CR && s[1] == LF then Some((acc, s[2..]))
    else LooseSplit(acc + [s[0]], s[1..])
  }

  /** The lines and the body of a framed message. */
  datatype Framing = Framing(sizes: seq<seq<Byte>>, trailers: seq<seq<Byte>>, body: seq<Byte>)

  /** The trailer lines up to the empty one: each has a colon. */
  function FrameTrailers(s: seq<Byte>): Option<seq<seq<Byte>>>
    decreases |s|
  {
    match LooseSplit([], s)
    case None => None
    case Some((line, rest)) =>
      if line == [] then Some([])
      else if Find(line, COLON) == |line| then None
      else match FrameTrailers(rest)
        case None => None
        case Some(more) => Some([line] + more)
  }

  /** The framing of a buffer, none if it is not complete. */
  function Frame(s: seq<Byte>): Option<Framing>
    decreases |s|
  {
    match LooseSplit([], s)
    case None => None
    case Some((line, rest)) =>
      match ParseSize(line)
      case None => None
      case Some(n) =>
        if n == 0 then
          match FrameTrailers(rest)
          case None => None
          case Some(trailers) => Some(Framing([line], trailers, []))
        else if !Delimited(rest, n) then None
        else match Frame(rest[n + 2..])
          case None => None
          case Some(f) => Some(Framing([line] + f.sizes, f.trailers, rest[..n] + f.body))
  }

  /** A line without bare CR or LF. */
  predicate Clean(line: seq<Byte>) {
    CR !in line && LF !in line
  }

  /** The size line and trailer line conditions that only the decoders check. */
  predicate SizeFits(line: seq<Byte>, limit: nat) {
    Clean(line) && |line| <= limit
  }

  predicate TrailerFits(line: seq<Byte>, limit: nat) {
    Clean(line) && |line| <= limit && TrailerOk(line)
  }

  predicate Strict(f: Framing, limit: nat) {
    && (forall line :: line in f.sizes ==> SizeFits(line, limit))
    && TrailersFit(f.trailers, limit)
  }

  predicate TrailersFit(trailers: seq<seq<Byte>>, limit: nat) {
    forall line :: line in trailers ==> TrailerFits(line, limit)
  }

  predicate Short(f: Framing, limit: nat) {
    && (forall line :: line in f.sizes ==> |line| <= limit)
    && (forall line :: line in f.trailers ==> |line| <= limit)
  }

  /** No framing line is longer than the limit. */
  predicate ShortLines(s: seq<Byte>, limit: nat) {
    var f := Frame(s);
    f.Some? ==> Short(f.value, limit)
  }

  // ---- Decoding is strict framing ----

  lemma {:induction false} SplitIsLoose(acc: seq<Byte>, s: seq<Byte>, limit: nat)
    requires Clean(acc) && |acc| <= limit
    ensures var l := LooseSplit(acc, s);
      Split(acc, s, limit) == if l.Some? && SizeFits(l.value.0, limit) then l else None
    decreases |s|
  {
    if |s| >= 2 && !(s[0] == CR && s[1] == LF) {
      var l := LooseSplit(acc + [s[0]], s[1..]);
      if l.Some? { assert l.value.0[|acc|] == s[0]; }
      if s[0] != CR && s[0] != LF && |acc| < limit { SplitIsLoose(acc + [s[0]], s[1..], limit); }
    }
  }

  lemma {:induction false} TrailersAreStrict(s: seq<Byte>, limit: nat)
    ensures var f := FrameTrailers(s);
      Trailers(s, limit) <==> f.Some? && TrailersFit(f.value, limit)
    decreases |s|
  {
    SplitIsLoose([], s, limit);
    var l := LooseSplit([], s);
    if l.Some? && l.value.0 != [] {
      var (line, rest) := l.value;
      TrailersAreStrict(rest, limit);
      var more := FrameTrailers(rest);
      if more.Some? { FitInFront(line, more.value, limit); }
    }
  }

  lemma FitInFront(line: seq<Byte>, more: seq<seq<Byte>>, limit: nat)
    ensures TrailersFit([line] + more, limit) <==> TrailerFits(line, limit) && TrailersFit(more, limit)
  {
    InFront(line, more);
    assert line in [line] + more;
  }

  lemma InFront<T>(x: T, xs: seq<T>)
    ensures forall y :: y in [x] + xs <==> y == x || y in xs
  {
  }

  /** The whole-buffer decoder accepts exactly the complete buffers whose lines are clean,
      short and well-formed, and returns the framed body. */
  lemma {:induction false} DecodeIsStrict(s: seq<Byte>, limit: nat)
    ensures var f := Frame(s);
      Decode(s, limit) == if f.Some? && Strict(f.value, limit) then Some(f.value.body) else None
    decreases |s|
  {
    SplitIsLoose([], s, limit);
    var l := LooseSplit([], s);
    if l.Some? && ParseSize(l.value.0).Some? {
      var (line, rest) := l.value;
      var n := ParseSize(line).value;
      if n == 0 {
        TrailersAreStrict(rest, limit);
      } else if Delimited(rest, n) {
        DecodeIsStrict(rest[n + 2..], limit);
        var f := Frame(rest[n + 2..]);
        if f.Some? { InFront(line, f.value.sizes); }
      }
    }
  }

  /** Whatever decodes is complete, as the completeness check sees it. */
  lemma DecodedIsComplete(s: seq<Byte>, limit: nat)
    requires Decode(s, limit).Some?
    ensures Frame(s).Some? && Decode(s, limit).value == Frame(s).value.body
  {
    DecodeIsStrict(s, limit);
  }

  // ---- Extensions ----

  lemma {:induction false} LooseSplitExtends(acc: seq<Byte>, s: seq<Byte>, t: seq<Byte>)
    requires LooseSplit(acc, s).Some?
    ensures var (line, rest) := LooseSplit(acc, s).value; LooseSplit(acc, s + t) == Some((line, rest + t))
    decreases |s|
  {
    if s[0] == CR && s[1] == LF {
      assert (s + t)[2..] == s[2..] + t;
    } else {
      assert (s + t)[1..] == s[1..] + t;
      LooseSplitExtends(acc + [s[0]], s[1..], t);
    }
  }

  lemma {:induction false} FrameTrailersExtends(s: seq<Byte>, t: seq<Byte>)
    requires FrameTrailers(s).Some?
    ensures FrameTrailers(s + t) == FrameTrailers(s)
    decreases |s|
  {
    LooseSplitExtends([], s, t);
    var (line, rest) := LooseSplit([], s).value;
    if line != [] { FrameTrailersExtends(rest, t); }
  }

  /** A complete buffer stays complete whatever follows, with the same framing. */
  lemma {:induction false} FrameExtends(s: seq<Byte>, t: seq<Byte>)
    requires Frame(s).Some?
    ensures Frame(s + t) == Frame(s)
    decreases |s|
  {
    LooseSplitExtends([], s, t);
    var (line, rest) := LooseSplit([], s).value;
    var n := ParseSize(line).value;
    if n == 0 {
      FrameTrailersExtends(rest, t);
    } else {
      assert (rest + t)[n + 2..] == rest[n + 2..] + t && (rest + t)[..n] == rest[..n];
      FrameExtends(rest[n + 2..], t);
    }
  }

  /** What decodes still decodes to the same body with anything after it; and once a buffer
      is complete, more input changes nothing about whether and how it decodes. */
  lemma DecodeExtends(s: seq<Byte>, t: seq<Byte>, limit: nat)
    requires Frame(s).Some?
    ensures Decode(s + t, limit) == Decode(s, limit)
  {
    FrameExtends(s, t);
    DecodeIsStrict(s, limit);
    DecodeIsStrict(s + t, limit);
  }

  // ---- Sizes ----

  /** A body and the lines that frame it are shorter than the message. */
  lemma {:induction false} BodyIsShorter(s: seq<Byte>)
    requires Frame(s).Some?
    ensures |Frame(s).value.body| + 5 <= |s|
    decreases |s|
  {
    var (line, rest) := LooseSplit([], s).value;
    var n := ParseSize(line).value;
    if n == 0 {
      assert LooseSplit([], rest).Some?;
    } else {
      BodyIsShorter(rest[n + 2..]);
    }
  }

  // ---- The two decoders ----

  /** Feeds the parts of a message one after the other. */
  function FeedParts(d: Decoder, parts: seq<seq<Byte>>): Option<Decoder>
    decreases |parts|
  {
    if parts == [] then Some(d)
    else match Feed(d, parts[0])
      case None => None
      case Some(e) => FeedParts(e, parts[1..])
  }

  function Joined(parts: seq<seq<Byte>>): seq<Byte> {
    if parts == [] then [] else parts[0] + Joined(parts[1..])
  }

  lemma {:induction false} PartsFeed(d: Decoder, parts: seq<seq<Byte>>)
    ensures FeedParts(d, parts) == Feed(d, Joined(parts))
    decreases |parts|
  {
    if parts != [] {
      FeedSplit(d, parts[0], Joined(parts[1..]));
      var e := Feed(d, parts[0]);
      if e.Some? { PartsFeed(e.value, parts[1..]); }
    }
  }

  /** Fed in any split, the incremental decoder finishes with `out` iff the whole-buffer
      decoder returns `out` and no line is longer than the incremental decoder takes. */
  lemma IncrementalIsWhole(parts: seq<seq<Byte>>, out: seq<Byte>)
    requires |Joined(parts)| <= SIZE_MAX
    ensures var s := Joined(parts); var d := FeedParts(Fresh, parts);
      (d.Some? && d.value.mode.Done? && d.value.out == out) <==>
        (Decode(s, BUFFER_LIMIT) == Some(out) && ShortLines(s, LINE_LIMIT))
  {
    var s := Joined(parts);
    PartsFeed(Fresh, parts);
    DecodeFeeds(Fresh, s, out);
    DecodeIsStrict(s, LINE_LIMIT);
    DecodeIsStrict(s, BUFFER_LIMIT);
    var none: seq<Byte> := [];
    assert forall r: seq<Byte> :: none + r == r;
    assert Ends(Some(Fresh), s, out) <==> Decode(s, LINE_LIMIT) == Some(out);
    if Frame(s).Some? { LimitFilters(Frame(s).value, LINE_LIMIT, BUFFER_LIMIT); }
  }

  lemma LimitFilters(f: Framing, low: nat, high: nat)
    requires low <= high
    ensures Strict(f, low) <==> Strict(f, high) && Short(f, low)
  {
    if Strict(f, low) {
      forall line | line in f.sizes ensures SizeFits(line, high) && |line| <= low { assert SizeFits(line, low); }
      forall line | line in f.trailers ensures TrailerFits(line, high) && |line| <= low { assert TrailerFits(line, low); }
    }
    if Strict(f, high) && Short(f, low) {
      forall line | line in f.sizes ensures SizeFits(line, low) { assert SizeFits(line, high); }
      forall line | line in f.trailers ensures TrailerFits(line, low) { assert TrailerFits(line, high); }
    }
  }

  // ---- The limits differ ----

  /** A last chunk whose size line is `0;` and `n` more bytes. */
  function LongLine(n: nat): seq<Byte> {
    Extension(n) + [CR, LF, CR, LF]
  }

  function Extension(n: nat): (r: seq<Byte>)
    ensures |r| == n + 2
  {
    [48, SEMICOLON] + seq(n, i => 97)
  }

  lemma {:induction false} CleanSplits(acc: seq<Byte>, line: seq<Byte>, rest: seq<Byte>)
    requires Clean(line)
    ensures LooseSplit(acc, line + ([CR, LF] + rest)) == Some((acc + line, rest))
    decreases |line|
  {
    var s := line + ([CR, LF] + rest);
    if line == [] {
      assert s[2..] == rest && acc + line == acc;
    } else {
      assert s[0] == line[0] && s[1..] == line[1..] + ([CR, LF] + rest);
      CleanSplits(acc + [line[0]], line[1..], rest);
      assert acc + [line[0]] + line[1..] == acc + line;
    }
  }

  lemma LongLineFrames(n: nat)
    ensures Frame(LongLine(n)) == Some(Framing([Extension(n)], [], []))
  {
    var line, s := Extension(n), LongLine(n);
    assert s == line + ([CR, LF] + [CR, LF]);
    CleanSplits([], line, [CR, LF]);
    assert [] + line == line;
    ZeroSize(n);
    EmptyTrailer();
  }

  lemma ZeroSize(n: nat)
    ensures ParseSize(Extension(n)) == Some(0)
  {
    var line := Extension(n);
    assert line[0] == 48 && line[1] == SEMICOLON;
    assert line[..1] == [48] && [48][..0] == [];
    assert HexValue([48][..0]) == Some(0);
  }

  lemma EmptyTrailer()
    ensures FrameTrailers([CR, LF]) == Some([])
  {
    assert [CR, LF][2..] == [];
  }

  /** A size line of 8193 bytes is taken by the whole-buffer decoder and refused by the
      incremental one. */
  lemma {:induction false} LimitsDiffer()
    ensures var s := LongLine(8191);
      Decode(s, BUFFER_LIMIT) == Some([]) && !Ends(Some(Fresh), s, [])
  {
    var line, s := Extension(8191), LongLine(8191);
    LongLineFrames(8191);
    DecodeIsStrict(s, BUFFER_LIMIT);
    DecodeIsStrict(s, LINE_LIMIT);
    DecodeFeeds(Fresh, s, []);
    var f := Framing([line], [], []);
    assert line in f.sizes && !SizeFits(line, LINE_LIMIT) && SizeFits(line, BUFFER_LIMIT);
    assert !Strict(f, LINE_LIMIT) && Strict(f, BUFFER_LIMIT);
  }
}
