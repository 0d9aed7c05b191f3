/** Chunked messages as section 7.1 of RFC 9112 writes them, byte by byte: the decoders accept
    exactly these, and return their data. */
module ChunkedMessage {
  import opened Options
  import opened Bytes
  import opened Chunked
  import opened ChunkedFraming

  // ---- Characters ----

  /** Where a byte stands among some characters, or -1. */
  function Position(s: string, b: Byte): (i: int)
    ensures i == -1 || (0 <= i < |s| && s[i] as int == b)
    ensures i == -1 ==> forall j :: 0 <= j < |s| ==> s[j] as int != b
  {
    if s == "" then -1
    else if s[0] as int == b then 0
    else var i := Position(s[1..], b); if i == -1 then -1 else i + 1
  }

  const LowerDigits: string := "0123456789abcdef"
  const UpperDigits: string := "0123456789ABCDEF"

  /** The value of a hexadecimal digit of either case. */
  function DigitOf(b: Byte): int {
    if Position(LowerDigits, b) != -1 then Position(LowerDigits, b) else Position(UpperDigits, b)
  }

  const NamePunctuation: string := "!#$%&'*+-.^_`|~"

  /** What may be in a field name: a letter, a digit, or one of fifteen other characters, as the
      standard says, and the byte 0, which it does not allow. */
  predicate NameChar(b: Byte) {
    || b == 0 || ('0' as int <= b <= '9' as int) || ('A' as int <= b <= 'Z' as int) || ('a' as int <= b <= 'z' as int)
    || Position(NamePunctuation, b) != -1
  }

  /** A character of a field value: a tab, a space, or anything visible. */
  predicate ValueChar(b: Byte) {
    b == 9 || (b >= 32 && b != 127)
  }

  // ---- Messages ----

  /** A size in hexadecimal, what follows it on its line, and data. */
  datatype Chunk = Chunk(digits: seq<Byte>, extension: seq<Byte>, data: seq<Byte>)

  datatype Message = Message(chunks: seq<Chunk>, last: Chunk, trailers: seq<seq<Byte>>)

  function Power16(k: nat): nat {
    if k == 0 then 1 else 16 * Power16(k - 1)
  }

  /** The number that digits denote, the first counting most. */
  function Number(digits: seq<Byte>): int {
    if digits == [] then 0 else DigitOf(digits[0]) * Power16(|digits| - 1) + Number(digits[1..])
  }

  const Crlf: seq<Byte> := [13, 10]

  predicate Unbroken(line: seq<Byte>) {
    forall i :: 0 <= i < |line| ==> line[i] != 13 && line[i] != 10
  }

  function SizeLine(c: Chunk): seq<Byte> {
    c.digits + c.extension
  }

  /** The digits give the length of the data; an extension starts with a semicolon. */
  predicate ChunkOk(c: Chunk, limit: nat) {
    && c.digits != [] && (forall i :: 0 <= i < |c.digits| ==> DigitOf(c.digits[i]) >= 0)
    && Number(c.digits) == |c.data| <= 0xFFFF_FFFF_FFFF_FFFF
    && (c.extension != [] ==> c.extension[0] == ';' as int) && Unbroken(c.extension)
    && |SizeLine(c)| <= limit
  }

  /** A name, a colon and a value. */
  ghost predicate FieldOk(line: seq<Byte>, limit: nat) {
    |line| <= limit && exists k :: IsField(line, k)
  }

  predicate IsField(line: seq<Byte>, k: int) {
    0 < k < |line| && line[k] == ':' as int && (forall i :: 0 <= i < k ==> NameChar(line[i])) && forall i :: k < i < |line| ==> ValueChar(line[i])
  }

  ghost predicate MessageOk(m: Message, limit: nat) {
    && (forall i :: 0 <= i < |m.chunks| ==> ChunkOk(m.chunks[i], limit) && m.chunks[i].data != [])
    && ChunkOk(m.last, limit) && m.last.data == []
    && (forall i :: 0 <= i < |m.trailers| ==> FieldOk(m.trailers[i], limit))
  }

  function TrailersText(trailers: seq<seq<Byte>>): seq<Byte> {
    if trailers == [] then Crlf else trailers[0] + (Crlf + TrailersText(trailers[1..]))
  }

  function ChunksText(chunks: seq<Chunk>, end: seq<Byte>): seq<Byte> {
    if chunks == [] then end
    else SizeLine(chunks[0]) + (Crlf + (chunks[0].data + (Crlf + ChunksText(chunks[1..], end))))
  }

  function MessageText(m: Message): seq<Byte> {
    ChunksText(m.chunks, SizeLine(m.last) + (Crlf + TrailersText(m.trailers)))
  }

  function Data(chunks: seq<Chunk>): seq<Byte> {
    if chunks == [] then [] else chunks[0].data + Data(chunks[1..])
  }

  // ---- Characters and numbers ----

  lemma DigitCodes(d: nat)
    requires d < 16
    ensures LowerDigits[d] as int == if d < 10 then 48 + d else 87 + d
    ensures UpperDigits[d] as int == if d < 10 then 48 + d else 55 + d
  {
  }

  /** A position is determined by the character code. */
  lemma {:induction false} LowerPosition(b: Byte)
    ensures Position(LowerDigits, b) == if 48 <= b <= 57 then b - 48 else if 97 <= b <= 102 then b - 87 else -1
  {
    var i := Position(LowerDigits, b);
    if i != -1 { DigitCodes(i); }
    if 48 <= b <= 57 { DigitCodes(b - 48); }
    if 97 <= b <= 102 { DigitCodes(b - 87); }
  }

  lemma {:induction false} UpperPosition(b: Byte)
    ensures Position(UpperDigits, b) == if 48 <= b <= 57 then b - 48 else if 65 <= b <= 70 then b - 55 else -1
  {
    var i := Position(UpperDigits, b);
    if i != -1 { DigitCodes(i); }
    if 48 <= b <= 57 { DigitCodes(b - 48); }
    if 65 <= b <= 70 { DigitCodes(b - 55); }
  }

  lemma {:induction false} DigitsAgree(b: Byte)
    ensures DigitOf(b) == HexDigit(b)
  {
    LowerPosition(b);
    UpperPosition(b);
  }

  lemma {:induction false} NamesAgree(b: Byte)
    ensures NameChar(b) <==> TokenChar(b)
  {
    var s := NamePunctuation;
    assert s[0] == '!' && s[1] == '#' && s[2] == '$' && s[3] == '%' && s[4] == '&' && s[5] == '\'' && s[6] == '*' && s[7] == '+';
    assert s[8] == '-' && s[9] == '.' && s[10] == '^' && s[11] == '_' && s[12] == '`' && s[13] == '|' && s[14] == '~';
  }

  lemma {:induction false} PowerPositive(k: nat)
    ensures Power16(k) > 0
  {
    if k > 0 { PowerPositive(k - 1); }
  }

  predicate AllDigits(digits: seq<Byte>) {
    forall i :: 0 <= i < |digits| ==> DigitOf(digits[i]) >= 0
  }

  /** One more digit at the end. */
  lemma {:induction false} NumberSnoc(digits: seq<Byte>, b: Byte)
    ensures Number(digits + [b]) == 16 * Number(digits) + DigitOf(b)
  {
    var all := digits + [b];
    if digits == [] {
      assert all == [b] && [b][1..] == [] && Power16(0) == 1;
      assert Number([b]) == DigitOf(b) * 1 + Number([]);
    } else {
      assert all[1..] == digits[1..] + [b] && all[0] == digits[0];
      NumberSnoc(digits[1..], b);
      NumberStep(DigitOf(digits[0]), Power16(|digits| - 1), Number(digits[1..]), DigitOf(b));
      assert Power16(|all| - 1) == 16 * Power16(|digits| - 1);
    }
  }

  lemma NumberStep(d: int, p: int, n: int, b: int)
    ensures d * (16 * p) + (16 * n + b) == 16 * (d * p + n) + b
  {
  }

  lemma {:induction false} NumberNatural(digits: seq<Byte>)
    requires AllDigits(digits)
    ensures Number(digits) >= 0
  {
    if digits != [] {
      NumberNatural(digits[1..]);
      PowerPositive(|digits| - 1);
      ProductNatural(DigitOf(digits[0]), Power16(|digits| - 1));
    }
  }

  lemma ProductNatural(a: int, b: int)
    requires a >= 0 && b >= 0
    ensures a * b >= 0
  {
  }

  /** Reading digits gives the number they denote, unless it does not fit. */
  lemma {:induction false} HexValueExact(digits: seq<Byte>)
    ensures HexValue(digits) == if AllDigits(digits) && Number(digits) <= SIZE_MAX then Some(Number(digits)) else None
    ensures AllDigits(digits) ==> Number(digits) >= 0
  {
    if digits != [] {
      var init, b := digits[..|digits| - 1], digits[|digits| - 1];
      assert digits == init + [b];
      HexValueExact(init);
      NumberSnoc(init, b);
      DigitsAgree(b);
      assert AllDigits(digits) <==> AllDigits(init) && DigitOf(b) >= 0;
    }
  }

  // ---- Lines ----

  /** A line is read up to its CRLF, if it is unbroken and short enough. */
  lemma {:induction false} LineRead(line: seq<Byte>, rest: seq<Byte>, limit: nat)
    requires Unbroken(line) && |line| <= limit
    ensures Split([], line + (Crlf + rest), limit) == Some((line, rest))
  {
    CleanSplits([], line, rest);
    SplitIsLoose([], line + (Crlf + rest), limit);
    assert [] + line == line;
  }

  /** And what is read as a line was one. */
  lemma {:induction false} ReadLine(acc: seq<Byte>, s: seq<Byte>, limit: nat)
    requires Split(acc, s, limit).Some? && Unbroken(acc) && |acc| <= limit
    ensures var (line, rest) := Split(acc, s, limit).value;
      Unbroken(line) && |line| <= limit && acc + s == line + (Crlf + rest)
    decreases |s|
  {
    if s[0] == CR {
      assert s == Crlf + s[2..];
    } else {
      ReadLine(acc + [s[0]], s[1..], limit);
      assert acc + [s[0]] + s[1..] == acc + s;
    }
  }

  lemma {:induction false} DigitsUnbroken(digits: seq<Byte>)
    requires AllDigits(digits)
    ensures Unbroken(digits) && SEMICOLON !in digits
  {
    forall i | 0 <= i < |digits| ensures digits[i] != 13 && digits[i] != 10 && digits[i] != SEMICOLON { DigitsAgree(digits[i]); }
  }

  lemma {:induction false} FindIs(s: seq<Byte>, c: Byte, k: nat)
    requires k <= |s| && (forall i :: 0 <= i < k ==> s[i] != c) && (k < |s| ==> s[k] == c)
    ensures Find(s, c) == k
  {
  }

  lemma {:induction false} FindAfter(a: seq<Byte>, b: seq<Byte>, c: Byte)
    requires c !in a && (b != [] ==> b[0] == c)
    ensures Find(a + b, c) == |a|
  {
    forall i | 0 <= i < |a| ensures (a + b)[i] != c { assert (a + b)[i] == a[i]; }
    FindIs(a + b, c, |a|);
  }

  /** A line between what precedes and what follows. */
  lemma LineThen(line: seq<Byte>, more: seq<Byte>, rest: seq<Byte>)
    ensures line + (Crlf + more) + rest == line + (Crlf + (more + rest))
  {
    Associates(line, Crlf + more, rest);
    Associates(Crlf, more, rest);
  }

  lemma Associates<T>(a: seq<T>, b: seq<T>, c: seq<T>)
    ensures a + b + c == a + (b + c)
  {
  }

  /** The size line of a chunk gives the length of its data. */
  lemma {:induction false} SizeRead(c: Chunk, limit: nat)
    requires ChunkOk(c, limit)
    ensures ParseSize(SizeLine(c)) == Some(|c.data|) && Unbroken(SizeLine(c))
  {
    DigitsUnbroken(c.digits);
    FindAfter(c.digits, c.extension, SEMICOLON);
    assert SizeLine(c)[..|c.digits|] == c.digits;
    HexValueExact(c.digits);
  }

  /** And a line that gives a size is the size line of a chunk. */
  lemma {:induction false} ReadSize(line: seq<Byte>, data: seq<Byte>, limit: nat) returns (c: Chunk)
    requires ParseSize(line) == Some(|data|) && Unbroken(line) && |line| <= limit
    ensures ChunkOk(c, limit) && SizeLine(c) == line && c.data == data
  {
    var end := Find(line, SEMICOLON);
    c := Chunk(line[..end], line[end..], data);
    HexValueExact(line[..end]);
    LineParts(line, end);
  }

  lemma {:induction false} LineParts(line: seq<Byte>, end: nat)
    requires Unbroken(line) && end <= |line| && (end < |line| ==> line[end] == SEMICOLON)
    ensures line[..end] + line[end..] == line && Unbroken(line[end..]) && (line[end..] != [] ==> line[end..][0] == SEMICOLON)
  {
  }

  lemma {:induction false} FieldsAgree(line: seq<Byte>)
    ensures (exists k :: IsField(line, k)) <==> TrailerOk(line)
  {
    if k :| IsField(line, k) { FieldColon(line, k); }
    if TrailerOk(line) { ColonField(line, Find(line, COLON)); }
  }

  lemma {:induction false} FieldColon(line: seq<Byte>, k: int)
    requires IsField(line, k)
    ensures TrailerOk(line)
  {
    forall i | 0 <= i < k ensures TokenChar(line[i]) && line[i] != COLON { NamesAgree(line[i]); }
    FindIs(line, COLON, k);
  }

  lemma {:induction false} ColonField(line: seq<Byte>, k: nat)
    requires TrailerOk(line) && k == Find(line, COLON)
    ensures IsField(line, k)
  {
    forall i | 0 <= i < k ensures NameChar(line[i]) { NamesAgree(line[i]); }
  }

  lemma {:induction false} FieldUnbroken(line: seq<Byte>, k: int)
    requires IsField(line, k)
    ensures Unbroken(line) && line != []
  {
    forall i | 0 <= i < |line| ensures line[i] != 13 && line[i] != 10 { NamesAgree(line[i]); }
  }

  // ---- Trailers ----

  ghost predicate FieldsOk(trailers: seq<seq<Byte>>, limit: nat) {
    forall i :: 0 <= i < |trailers| ==> FieldOk(trailers[i], limit)
  }

  lemma {:induction false} TrailersRead(trailers: seq<seq<Byte>>, rest: seq<Byte>, limit: nat)
    requires FieldsOk(trailers, limit)
    ensures Trailers(TrailersText(trailers) + rest, limit)
  {
    var s := TrailersText(trailers) + rest;
    if trailers == [] {
      assert s == [] + (Crlf + rest);
      LineRead([], rest, limit);
    } else {
      var line, more := trailers[0], TrailersText(trailers[1..]) + rest;
      var k :| IsField(line, k);
      FieldUnbroken(line, k);
      FieldsAgree(line);
      LineThen(line, TrailersText(trailers[1..]), rest);
      LineRead(line, more, limit);
      forall i | 0 <= i < |trailers[1..]| ensures FieldOk(trailers[1..][i], limit) { assert trailers[1..][i] == trailers[i + 1]; }
      TrailersRead(trailers[1..], rest, limit);
    }
  }

  lemma {:induction false} ReadTrailers(s: seq<Byte>, limit: nat) returns (trailers: seq<seq<Byte>>, rest: seq<Byte>)
    requires Trailers(s, limit)
    ensures FieldsOk(trailers, limit) && s == TrailersText(trailers) + rest
    decreases |s|
  {
    var (line, after) := Split([], s, limit).value;
    ReadLine([], s, limit);
    assert [] + s == s;
    if line == [] {
      trailers, rest := [], after;
    } else {
      var more;
      more, rest := ReadTrailers(after, limit);
      trailers := [line] + more;
      FieldsAgree(line);
      assert trailers[1..] == more;
      LineThen(line, TrailersText(more), rest);
    }
  }

  // ---- Whole messages ----

  ghost predicate ChunksOk(chunks: seq<Chunk>, limit: nat) {
    forall i :: 0 <= i < |chunks| ==> ChunkOk(chunks[i], limit) && chunks[i].data != []
  }

  /** Text behind a list of chunks. */
  lemma {:induction false} ChunksThen(chunks: seq<Chunk>, end: seq<Byte>, rest: seq<Byte>)
    ensures ChunksText(chunks, end) + rest == ChunksText(chunks, end + rest)
  {
    if chunks != [] {
      ChunksThen(chunks[1..], end, rest);
      var data, more := chunks[0].data, ChunksText(chunks[1..], end);
      LineThen(SizeLine(chunks[0]), data + (Crlf + more), rest);
      LineThen(data, more, rest);
    }
  }

  /** One chunk in front of text that decodes. */
  lemma {:induction false} ChunkRead(c: Chunk, more: seq<Byte>, limit: nat)
    requires ChunkOk(c, limit) && c.data != []
    ensures Decode(SizeLine(c) + (Crlf + (c.data + (Crlf + more))), limit) ==
      match Decode(more, limit) case None => None case Some(out) => Some(c.data + out)
  {
    var rest := c.data + (Crlf + more);
    var s := SizeLine(c) + (Crlf + rest);
    SizeRead(c, limit);
    LineRead(SizeLine(c), rest, limit);
    assert rest[|c.data|] == 13 && rest[|c.data| + 1] == 10;
    assert rest[|c.data| + 2..] == more && rest[..|c.data|] == c.data;
  }

  lemma {:induction false} ChunksRead(chunks: seq<Chunk>, end: seq<Byte>, limit: nat)
    requires ChunksOk(chunks, limit) && Decode(end, limit) == Some([])
    ensures Decode(ChunksText(chunks, end), limit) == Some(Data(chunks))
  {
    if chunks != [] {
      forall i | 0 <= i < |chunks[1..]| ensures ChunkOk(chunks[1..][i], limit) && chunks[1..][i].data != [] { assert chunks[1..][i] == chunks[i + 1]; }
      ChunksRead(chunks[1..], end, limit);
      ChunkRead(chunks[0], ChunksText(chunks[1..], end), limit);
    }
  }

  lemma {:induction false} LastRead(last: Chunk, trailers: seq<seq<Byte>>, rest: seq<Byte>, limit: nat)
    requires ChunkOk(last, limit) && last.data == [] && FieldsOk(trailers, limit)
    ensures Decode(SizeLine(last) + (Crlf + TrailersText(trailers)) + rest, limit) == Some([])
  {
    SizeRead(last, limit);
    var after := TrailersText(trailers) + rest;
    LineThen(SizeLine(last), TrailersText(trailers), rest);
    LineRead(SizeLine(last), after, limit);
    TrailersRead(trailers, rest, limit);
  }

  /** A message, whatever follows it, decodes to its data. */
  lemma {:induction false} MessageDecodes(m: Message, rest: seq<Byte>, limit: nat)
    requires MessageOk(m, limit)
    ensures Decode(MessageText(m) + rest, limit) == Some(Data(m.chunks))
  {
    var end := SizeLine(m.last) + (Crlf + TrailersText(m.trailers));
    ChunksThen(m.chunks, end, rest);
    LastRead(m.last, m.trailers, rest, limit);
    ChunksRead(m.chunks, end + rest, limit);
  }

  /** `m` is the message that the buffer begins with. */
  ghost predicate Begins(s: seq<Byte>, m: Message, rest: seq<Byte>, out: seq<Byte>, limit: nat) {
    MessageOk(m, limit) && s == MessageText(m) + rest && out == Data(m.chunks)
  }

  /** The parts of a buffer that decodes. */
  lemma {:induction false} DecodedMessage(s: seq<Byte>, limit: nat) returns (m: Message, rest: seq<Byte>)
    requires Decode(s, limit).Some?
    ensures Begins(s, m, rest, Decode(s, limit).value, limit)
    decreases |s|
  {
    var (line, after) := Split([], s, limit).value;
    ReadLine([], s, limit);
    assert [] + s == s;
    var n := ParseSize(line).value;
    if n == 0 {
      m, rest := DecodedLast(s, line, after, limit);
    } else {
      var more;
      more, rest := DecodedMessage(after[n + 2..], limit);
      m := DecodedChunk(s, line, after, n, more, rest, Decode(after[n + 2..], limit).value, limit);
    }
  }

  lemma {:induction false} DecodedLast(s: seq<Byte>, line: seq<Byte>, after: seq<Byte>, limit: nat) returns (m: Message, rest: seq<Byte>)
    requires s == line + (Crlf + after) && Unbroken(line) && |line| <= limit && ParseSize(line) == Some(0) && Trailers(after, limit)
    ensures Begins(s, m, rest, [], limit)
  {
    var last := ReadSize(line, [], limit);
    var trailers;
    trailers, rest := ReadTrailers(after, limit);
    m := Message([], last, trailers);
    LastOk(last, trailers, limit);
    LineThen(line, TrailersText(trailers), rest);
  }

  lemma {:induction false} DecodedChunk(s: seq<Byte>, line: seq<Byte>, after: seq<Byte>, n: nat, more: Message, rest: seq<Byte>, out: seq<Byte>, limit: nat) returns (m: Message)
    requires s == line + (Crlf + after) && Unbroken(line) && |line| <= limit && ParseSize(line) == Some(n) && n > 0 && Delimited(after, n)
    requires Begins(after[n + 2..], more, rest, out, limit)
    ensures Begins(s, m, rest, after[..n] + out, limit)
  {
    var c := ReadSize(line, after[..n], limit);
    m := Message([c] + more.chunks, more.last, more.trailers);
    DecodedMore(c, more, after, rest, s);
    MoreOk(c, more, limit);
  }

  lemma {:induction false} MoreOk(c: Chunk, more: Message, limit: nat)
    requires ChunkOk(c, limit) && c.data != [] && MessageOk(more, limit)
    ensures MessageOk(Message([c] + more.chunks, more.last, more.trailers), limit)
  {
  }

  lemma {:induction false} LastOk(last: Chunk, trailers: seq<seq<Byte>>, limit: nat)
    requires ChunkOk(last, limit) && last.data == [] && FieldsOk(trailers, limit)
    ensures MessageOk(Message([], last, trailers), limit) && MessageText(Message([], last, trailers)) == SizeLine(last) + (Crlf + TrailersText(trailers))
  {
  }

  lemma {:induction false} DecodedMore(c: Chunk, more: Message, after: seq<Byte>, rest: seq<Byte>, s: seq<Byte>)
    requires Delimited(after, |c.data|) && after[..|c.data|] == c.data && after[|c.data| + 2..] == MessageText(more) + rest
    requires s == SizeLine(c) + (Crlf + after)
    ensures s == MessageText(Message([c] + more.chunks, more.last, more.trailers)) + rest
    ensures Data([c] + more.chunks) == c.data + Data(more.chunks)
  {
    var all := [c] + more.chunks;
    assert all[0] == c && all[1..] == more.chunks;
    assert after == c.data + (Crlf + (MessageText(more) + rest));
    LineThen(SizeLine(c), c.data + (Crlf + MessageText(more)), rest);
    LineThen(c.data, MessageText(more), rest);
  }

  /** The decoder of a whole buffer accepts exactly the buffers that begin with a message whose
      lines have at most 8193 bytes, and returns its data. */
  lemma {:induction false} DecodeExact(s: seq<Byte>, out: seq<Byte>)
    ensures Decode(s, BUFFER_LIMIT) == Some(out) <==> exists m, rest :: Begins(s, m, rest, out, 8193)
  {
    if Decode(s, BUFFER_LIMIT) == Some(out) {
      var m, rest := DecodedMessage(s, 8193);
    }
    if m, rest :| Begins(s, m, rest, out, 8193) { MessageDecodes(m, rest, 8193); }
  }

  /** And the incremental decoder, however the bytes arrive, those with lines of at most 8192. */
  lemma {:induction false} IncrementalExact(parts: seq<seq<Byte>>, out: seq<Byte>)
    requires |Joined(parts)| <= SIZE_MAX
    ensures var d := FeedParts(Fresh, parts);
      (d.Some? && d.value.mode.Done? && d.value.out == out) <==>
        exists m, rest :: Begins(Joined(parts), m, rest, out, 8192)
  {
    var s := Joined(parts);
    PartsFeed(Fresh, parts);
    DecodeFeeds(Fresh, s, out);
    var none: seq<Byte> := [];
    assert forall r: seq<Byte> :: none + r == r;
    if Decode(s, LINE_LIMIT) == Some(out) {
      var m, rest := DecodedMessage(s, 8192);
    }
    if m, rest :| Begins(s, m, rest, out, 8192) { MessageDecodes(m, rest, 8192); }
  }

  // ---- Complete messages ----

  /** No CRLF within the line; other control characters may be there. */
  predicate OneLine(line: seq<Byte>) {
    forall i :: 0 <= i < |line| - 1 ==> !(line[i] == 13 && line[i + 1] == 10)
  }

  predicate LooseChunk(c: Chunk) {
    && c.digits != [] && AllDigits(c.digits) && Number(c.digits) == |c.data| <= 0xFFFF_FFFF_FFFF_FFFF
    && (c.extension != [] ==> c.extension[0] == ';' as int) && OneLine(SizeLine(c))
  }

  predicate LooseField(line: seq<Byte>) {
    OneLine(line) && ':' as int in line
  }

  ghost predicate LooseFields(trailers: seq<seq<Byte>>) {
    forall i :: 0 <= i < |trailers| ==> LooseField(trailers[i])
  }

  /** What the completeness check asks: sizes that fit the data, and a colon in each field. */
  ghost predicate LooseMessage(m: Message) {
    && (forall i :: 0 <= i < |m.chunks| ==> LooseChunk(m.chunks[i]) && m.chunks[i].data != [])
    && LooseChunk(m.last) && m.last.data == [] && LooseFields(m.trailers)
  }

  /** A line is read up to the first CRLF. */
  lemma {:induction false} LooseRead(acc: seq<Byte>, line: seq<Byte>, rest: seq<Byte>)
    requires OneLine(line)
    ensures LooseSplit(acc, line + (Crlf + rest)) == Some((acc + line, rest))
    decreases |line|
  {
    var s := line + (Crlf + rest);
    if line == [] {
      assert s[2..] == rest && acc + line == acc;
    } else {
      assert s[0] == line[0] && s[1..] == line[1..] + (Crlf + rest);
      assert s[1] == if |line| > 1 then line[1] else 13;
      forall i | 0 <= i < |line[1..]| - 1 ensures !(line[1..][i] == 13 && line[1..][i + 1] == 10) { assert line[1..][i] == line[i + 1] && line[1..][i + 1] == line[i + 2]; }
      LooseRead(acc + [line[0]], line[1..], rest);
      assert acc + [line[0]] + line[1..] == acc + line;
    }
  }

  lemma {:induction false} ReadLoose(acc: seq<Byte>, s: seq<Byte>)
    requires LooseSplit(acc, s).Some? && OneLine(acc) && (acc != [] && s != [] ==> !(acc[|acc| - 1] == 13 && s[0] == 10))
    ensures var (line, rest) := LooseSplit(acc, s).value; OneLine(line) && acc + s == line + (Crlf + rest)
    decreases |s|
  {
    if s[0] == CR && s[1] == LF {
      assert s == Crlf + s[2..];
    } else {
      ReadLoose(acc + [s[0]], s[1..]);
      assert acc + [s[0]] + s[1..] == acc + s;
    }
  }

  lemma {:induction false} LooseSize(c: Chunk)
    requires LooseChunk(c)
    ensures ParseSize(SizeLine(c)) == Some(|c.data|)
  {
    DigitsUnbroken(c.digits);
    FindAfter(c.digits, c.extension, SEMICOLON);
    assert SizeLine(c)[..|c.digits|] == c.digits;
    HexValueExact(c.digits);
  }

  lemma {:induction false} SizeLoose(line: seq<Byte>, data: seq<Byte>) returns (c: Chunk)
    requires ParseSize(line) == Some(|data|) && OneLine(line)
    ensures LooseChunk(c) && SizeLine(c) == line && c.data == data
  {
    var end := Find(line, SEMICOLON);
    c := Chunk(line[..end], line[end..], data);
    HexValueExact(line[..end]);
    LineHalves(line, end);
  }

  lemma LineHalves(line: seq<Byte>, end: nat)
    requires end <= |line| && (end < |line| ==> line[end] == SEMICOLON)
    ensures line[..end] + line[end..] == line && (line[end..] != [] ==> line[end..][0] == SEMICOLON)
  {
  }

  lemma {:induction false} FieldsFrame(trailers: seq<seq<Byte>>, rest: seq<Byte>)
    requires LooseFields(trailers)
    ensures FrameTrailers(TrailersText(trailers) + rest) == Some(trailers)
  {
    if trailers == [] {
      assert TrailersText(trailers) + rest == [] + (Crlf + rest);
      LooseRead([], [], rest);
    } else {
      var line, more := trailers[0], TrailersText(trailers[1..]) + rest;
      LineThen(line, TrailersText(trailers[1..]), rest);
      LooseRead([], line, more);
      assert [] + line == line && LooseField(line);
      forall i | 0 <= i < |trailers[1..]| ensures LooseField(trailers[1..][i]) { assert trailers[1..][i] == trailers[i + 1]; }
      FieldsFrame(trailers[1..], rest);
      assert [line] + trailers[1..] == trailers;
    }
  }

  lemma {:induction false} FramedFields(s: seq<Byte>) returns (trailers: seq<seq<Byte>>, rest: seq<Byte>)
    requires FrameTrailers(s).Some?
    ensures LooseFields(trailers) && s == TrailersText(trailers) + rest
    decreases |s|
  {
    var (line, after) := LooseSplit([], s).value;
    ReadLoose([], s);
    assert [] + s == s;
    if line == [] {
      trailers, rest := [], after;
    } else {
      var more;
      more, rest := FramedFields(after);
      trailers := [line] + more;
      assert trailers[1..] == more;
      LineThen(line, TrailersText(more), rest);
    }
  }

  lemma {:induction false} ChunkFrames(c: Chunk, more: seq<Byte>)
    requires LooseChunk(c) && c.data != []
    ensures var f := Frame(SizeLine(c) + (Crlf + (c.data + (Crlf + more))));
      if Frame(more).None? then f.None? else f.Some? && f.value.body == c.data + Frame(more).value.body
  {
    var rest := c.data + (Crlf + more);
    LooseSize(c);
    LooseRead([], SizeLine(c), rest);
    assert [] + SizeLine(c) == SizeLine(c);
    assert rest[|c.data|] == 13 && rest[|c.data| + 1] == 10;
    assert rest[|c.data| + 2..] == more && rest[..|c.data|] == c.data;
  }

  lemma {:induction false} ChunksFrame(chunks: seq<Chunk>, end: seq<Byte>)
    requires (forall i :: 0 <= i < |chunks| ==> LooseChunk(chunks[i]) && chunks[i].data != []) && Frame(end).Some? && Frame(end).value.body == []
    ensures var f := Frame(ChunksText(chunks, end)); f.Some? && f.value.body == Data(chunks)
  {
    if chunks != [] {
      forall i | 0 <= i < |chunks[1..]| ensures LooseChunk(chunks[1..][i]) && chunks[1..][i].data != [] { assert chunks[1..][i] == chunks[i + 1]; }
      ChunksFrame(chunks[1..], end);
      ChunkFrames(chunks[0], ChunksText(chunks[1..], end));
    }
  }

  lemma {:induction false} LastFrames(last: Chunk, trailers: seq<seq<Byte>>, rest: seq<Byte>)
    requires LooseChunk(last) && last.data == [] && LooseFields(trailers)
    ensures var f := Frame(SizeLine(last) + (Crlf + TrailersText(trailers)) + rest); f.Some? && f.value.body == []
  {
    LooseSize(last);
    var after := TrailersText(trailers) + rest;
    LineThen(SizeLine(last), TrailersText(trailers), rest);
    LooseRead([], SizeLine(last), after);
    assert [] + SizeLine(last) == SizeLine(last);
    FieldsFrame(trailers, rest);
  }

  lemma {:induction false} MessageFrames(m: Message, rest: seq<Byte>)
    requires LooseMessage(m)
    ensures var f := Frame(MessageText(m) + rest); f.Some? && f.value.body == Data(m.chunks)
  {
    var end := SizeLine(m.last) + (Crlf + TrailersText(m.trailers));
    ChunksThen(m.chunks, end, rest);
    LastFrames(m.last, m.trailers, rest);
    ChunksFrame(m.chunks, end + rest);
  }

  ghost predicate LooselyBegins(s: seq<Byte>, m: Message, rest: seq<Byte>) {
    LooseMessage(m) && s == MessageText(m) + rest
  }

  lemma {:induction false} FramedMessage(s: seq<Byte>) returns (m: Message, rest: seq<Byte>)
    requires Frame(s).Some?
    ensures LooselyBegins(s, m, rest)
    decreases |s|
  {
    var (line, after) := LooseSplit([], s).value;
    ReadLoose([], s);
    assert [] + s == s;
    var n := ParseSize(line).value;
    if n == 0 {
      m, rest := FramedLast(s, line, after);
    } else {
      var more;
      more, rest := FramedMessage(after[n + 2..]);
      m := FramedChunk(s, line, after, n, more, rest);
    }
  }

  lemma {:induction false} FramedLast(s: seq<Byte>, line: seq<Byte>, after: seq<Byte>) returns (m: Message, rest: seq<Byte>)
    requires s == line + (Crlf + after) && OneLine(line) && ParseSize(line) == Some(0) && FrameTrailers(after).Some?
    ensures LooselyBegins(s, m, rest)
  {
    var last := SizeLoose(line, []);
    var trailers;
    trailers, rest := FramedFields(after);
    m := Message([], last, trailers);
    LineThen(line, TrailersText(trailers), rest);
  }

  lemma {:induction false} FramedChunk(s: seq<Byte>, line: seq<Byte>, after: seq<Byte>, n: nat, more: Message, rest: seq<Byte>) returns (m: Message)
    requires s == line + (Crlf + after) && OneLine(line) && ParseSize(line) == Some(n) && n > 0 && Delimited(after, n)
    requires LooselyBegins(after[n + 2..], more, rest)
    ensures LooselyBegins(s, m, rest)
  {
    var c := SizeLoose(line, after[..n]);
    m := Message([c] + more.chunks, more.last, more.trailers);
    DecodedMore(c, more, after, rest, s);
  }

  /** A buffer is taken to be complete if and only if it begins with such a message. */
  lemma {:induction false} CompleteExact(s: seq<Byte>)
    ensures Frame(s).Some? <==> exists m, rest :: LooselyBegins(s, m, rest)
  {
    if Frame(s).Some? {
      var m, rest := FramedMessage(s);
    }
    if m, rest :| LooselyBegins(s, m, rest) { MessageFrames(m, rest); }
  }

  // ---- A field name that the standard does not allow ----

  /** A size of 0, a field whose name is the byte 0, and the end: it decodes. */
  lemma {:induction false} NulAccepted(rest: seq<Byte>)
    ensures Decode([48, 13, 10, 0, 58, 13, 10, 13, 10] + rest, BUFFER_LIMIT) == Some([])
  {
    var last, field := Chunk([48], [], []), [0, 58];
    var m := Message([], last, [field]);
    DigitsAgree(48);
    assert [48][1..] == [] && Number([48]) == DigitOf(48) * Power16(0) + Number([]);
    assert IsField(field, 1);
    NulText(m, last, field);
    MessageDecodes(m, rest, 8193);
  }

  lemma NulText(m: Message, last: Chunk, field: seq<Byte>)
    requires last == Chunk([48], [], []) && field == [0, 58] && m == Message([], last, [field])
    ensures MessageText(m) == [48, 13, 10, 0, 58, 13, 10, 13, 10]
  {
    assert [field][1..] == [] && TrailersText([field]) == field + (Crlf + Crlf);
    assert SizeLine(last) == [48];
  }
}
