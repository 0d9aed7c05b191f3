/** Addition, subtraction, multiplication and comparison of signed decimal strings, digit by
    digit. */
module BigintArithmetic {
  import opened Options
  import opened Bigint
  import Syntax

  const SIZE_MAX: nat := 0xFFFF_FFFF_FFFF_FFFF

  // ---- Reading and writing ----

  /** The end of the digits from a position on. */
  method ScanDigits(text: string, from: nat) returns (i: nat)
    requires from <= |text|
    ensures from <= i <= |text| && (Digits(text[from..]).Some? <==> i == |text|)
  {
    i := from;
    while i < |text| && '0' <= text[i] <= '9'
      invariant from <= i <= |text| && forall k :: from <= k < i ==> '0' <= text[k] <= '9'
    {
      i := i + 1;
    }
    if i < |text| { assert text[from..][i - from] == text[i]; }
  }

  /** Skips leading zeros, but leaves a digit. */
  method SkipZeros(text: string, from: nat) returns (begin: nat)
    requires from < |text| && Digits(text[from..]).Some?
    ensures from <= begin < |text| && (begin + 1 < |text| ==> text[begin] != '0') && Digits(text[begin..]).Some?
    ensures Value(Digits(text[begin..]).value) == Value(Digits(text[from..]).value)
  {
    begin := from;
    while text[begin] == '0' && begin + 1 < |text|
      invariant from <= begin < |text| && Digits(text[begin..]).Some?
      invariant Value(Digits(text[begin..]).value) == Value(Digits(text[from..]).value)
    {
      SkipZero(text[begin..]);
      assert text[begin..][1..] == text[begin + 1..];
      begin := begin + 1;
    }
  }

  lemma {:induction false} SkipZero(text: string)
    requires Digits(text).Some? && |text| > 1 && text[0] == '0'
    ensures Digits(text[1..]).Some? && Value(Digits(text[1..]).value) == Value(Digits(text).value)
  {
    ValueFront(0, Digits(text[1..]).value);
  }

  /** The digits of a text without its leading zeros, but at least one. */
  method Parse(text: string) returns (n: Option<Big>)
    ensures n.Some? <==> NumberOf(text).Some?
    ensures n.Some? ==> Proper(n.value) && IntOf(n.value) == NumberOf(text).value && |n.value.digits| <= |text|
  {
    var sign, start := 1, 0;
    if Signed(text) {
      if text[0] == '-' { sign := -1; }
      start := 1;
    }
    assert text[0..] == text;
    var end := ScanDigits(text, start);
    if end == start || end < |text| { return None; }
    var begin := SkipZeros(text, start);
    var ds := Digits(text[begin..]).value;
    TrimText(text[begin..], ds);
    if |ds| == 1 && ds[0] == 0 { sign := 0; }
    n := Some(Big(sign, ds));
    ParsedValue(sign, ds, Signed(text) && text[0] == '-');
  }

  lemma {:induction false} ParsedValue(sign: int, ds: seq<Digit>, minus: bool)
    requires |ds| > 0 && sign == if |ds| == 1 && ds[0] == 0 then 0 else if minus then -1 else 1
    ensures IntOf(Big(sign, ds)) == Negated(minus, Value(ds)) && (sign == 0 <==> ds == [0])
  {
    if |ds| == 1 {
      assert ds == [ds[0]];
      ValueOne(ds[0]);
    }
  }

  /** The digits without leading zeros, but at least one. */
  method TrimZeros(digits: seq<Digit>) returns (ds: seq<Digit>)
    requires digits != []
    ensures Trim(ds) && Value(ds) == Value(digits) && |ds| <= |digits|
  {
    var start := 0;
    assert digits[0..] == digits;
    while start + 1 < |digits| && digits[start] == 0
      invariant start < |digits| && Value(digits[start..]) == Value(digits)
    {
      assert digits[start..] == [0] + digits[start + 1..];
      ValueFront(0, digits[start + 1..]);
      start := start + 1;
    }
    ds := digits[start..];
  }

  /** The canonical text of a sign and digits; fails when it is too long. */
  method Format(sign: int, digits: seq<Digit>) returns (text: Option<string>)
    requires digits != []
    ensures |digits| <= SIZE_MAX - 2 ==> text.Some?
    ensures text.Some? ==> CanonicalText(text.value) && NumberOf(text.value) == Some(Negated(sign < 0, Value(digits)))
  {
    var ds := TrimZeros(digits);
    var zero := |ds| == 1 && ds[0] == 0;
    var prefix := if sign < 0 && !zero then 1 else 0;
    if |ds| > SIZE_MAX - prefix - 1 { return None; }
    text := Some(Sign(prefix == 1) + Text(ds));
    Formatted(ds, prefix == 1);
    if zero {
      assert ds == [0];
      ValueOne(0);
    }
  }

  lemma {:induction false} Formatted(ds: seq<Digit>, minus: bool)
    requires Trim(ds) && (minus ==> ds != [0])
    ensures var text := Sign(minus) + Text(ds); CanonicalText(text) && NumberOf(text) == Some(Negated(minus, Value(ds)))
  {
    var text := Text(ds);
    TextDigits(ds);
    TextUnsigned(ds);
    if minus { WithMinus(text, ds); } else { WithoutSign(text, ds); }
    assert Sign(minus) + text == if minus then "-" + text else text;
  }

  lemma {:induction false} WithMinus(text: string, ds: seq<Digit>)
    requires Unsigned(text) && Digits(text) == Some(ds) && text != "0"
    ensures CanonicalText("-" + text) && NumberOf("-" + text) == Some(Negated(true, Value(ds)))
  {
    var all := "-" + text;
    assert all[1..] == text && all[0] == '-' && "-0"[1..] == "0";
  }

  lemma {:induction false} WithoutSign(text: string, ds: seq<Digit>)
    requires Unsigned(text) && Digits(text) == Some(ds)
    ensures CanonicalText(text) && NumberOf(text) == Some(Negated(false, Value(ds)))
  {
  }

  lemma {:induction false} TextUnsigned(ds: seq<Digit>)
    requires Trim(ds)
    ensures Unsigned(Text(ds)) && (Text(ds) == "0" ==> ds == [0])
  {
    forall i | 0 <= i < |ds| ensures '0' <= Text(ds)[i] <= '9' { CharacterDigit(ds[i], 0); }
    assert Text(ds)[0] == Character(ds[0]);
    CharacterDigit(ds[0], 0);
    if Text(ds) == "0" { assert |ds| == 1 && ds == [ds[0]]; }
  }

  // ---- Magnitudes ----

  /** -1, 0 or 1 as the first magnitude is smaller, equal or larger. */
  method CompareMagnitudes(a: seq<Digit>, b: seq<Digit>) returns (c: int)
    requires Trim(a) && Trim(b)
    ensures c == if Value(a) < Value(b) then -1 else if Value(a) == Value(b) then 0 else 1
  {
    if |a| != |b| {
      if |a| < |b| { LongerIsLarger(a, b); } else { LongerIsLarger(b, a); }
      return if |a| < |b| then -1 else 1;
    }
    var k := 0;
    while k < |a| && a[k] == b[k]
      invariant k <= |a| && a[..k] == b[..k]
    {
      k := k + 1;
    }
    if k == |a| {
      assert a == b;
      return 0;
    }
    if a[k] < b[k] { FirstDifference(a, b, k); } else { FirstDifference(b, a, k); }
    c := if a[k] < b[k] then -1 else 1;
  }

  /** The last `k` digits, or all of them. */
  function Low(ds: seq<Digit>, k: nat): seq<Digit> {
    if k <= |ds| then ds[|ds| - k..] else ds
  }

  /** The digit with weight 10^k, or 0. */
  function DigitAt(ds: seq<Digit>, k: nat): Digit {
    if k < |ds| then ds[|ds| - 1 - k] else 0
  }

  lemma {:induction false} LowGrows(ds: seq<Digit>, k: nat)
    requires k < |ds|
    ensures Low(ds, k + 1) == [DigitAt(ds, k)] + Low(ds, k) && |Low(ds, k)| == k
  {
  }

  lemma {:induction false} LowStep(ds: seq<Digit>, k: nat)
    ensures Value(Low(ds, k + 1)) == Value(Low(ds, k)) + DigitAt(ds, k) * Power(k)
  {
    if k < |ds| {
      LowGrows(ds, k);
      ValueFront(DigitAt(ds, k), Low(ds, k));
    } else {
      LowAll(ds, k);
      LowAll(ds, k + 1);
    }
  }

  lemma {:induction false} LowAll(ds: seq<Digit>, k: nat)
    requires k >= |ds|
    ensures Low(ds, k) == ds
  {
  }

  lemma {:induction false} LowNone(ds: seq<Digit>)
    ensures Value(Low(ds, 0)) == 0
  {
    assert Low(ds, 0) == [];
  }

  /** A column: what is written and what is carried. */
  lemma {:induction false} Column(sum: int, p: nat)
    requires sum >= 0
    ensures (sum % 10) * p + (sum / 10) * (10 * p) == sum * p
  {
    var d, c := sum % 10, sum / 10;
    assert sum == 10 * c + d;
    Distribute(10 * c + d, d, p);
    Tens(c, p);
  }

  lemma {:induction false} Tens(c: int, p: int)
    ensures c * (10 * p) == (10 * c) * p
  {
  }

  lemma {:induction false} Sum3(a: int, b: int, c: int, p: int)
    ensures (a + b + c) * p == a * p + b * p + c * p
  {
  }

  method AddMagnitudes(a: seq<Digit>, b: seq<Digit>) returns (r: Option<seq<Digit>>)
    requires a != [] && b != []
    ensures |a| <= SIZE_MAX - 2 && |b| <= SIZE_MAX - 2 ==> r.Some?
    ensures r.Some? ==> r.value != [] && Value(r.value) == Value(a) + Value(b) && |r.value| <= |a| + |b|
  {
    var largest := if |a| > |b| then |a| else |b|;
    if largest > SIZE_MAX - 2 { return None; }
    var out := new Digit[largest + 1];
    var carry, done := AddColumns(a, b, out, largest);
    PutFront(out, 0, carry, done);
    var all := out[..];
    Total(a, b, largest, carry, done, all);
    r := Some(if carry > 0 then all else all[1..]);
  }

  /** The last `n` columns. */
  method AddColumns(a: seq<Digit>, b: seq<Digit>, out: array<Digit>, n: nat) returns (carry: int, ghost done: seq<Digit>)
    requires out.Length == n + 1
    modifies out
    ensures Filled(out, 1, done) && Added(a, b, n, carry, done)
  {
    carry, done := 0, [];
    LowNone(a);
    LowNone(b);
    for k := 0 to n
      invariant Filled(out, n + 1 - k, done) && Added(a, b, k, carry, done)
    {
      carry, done := AddOne(a, b, k, carry, out, n - k, done);
    }
  }

  /** The array holds these digits from a position to its end. */
  ghost predicate Filled(out: array<Digit>, at: int, done: seq<Digit>)
    reads out
  {
    0 <= at && at + |done| == out.Length && forall i :: 0 <= i < |done| ==> out[at + i] == done[i]
  }

  /** Writes the digit before those already written. */
  method PutFront(out: array<Digit>, at: nat, d: Digit, ghost done: seq<Digit>)
    requires at < out.Length && Filled(out, at + 1, done)
    modifies out
    ensures Filled(out, at, [d] + done)
  {
    out[at] := d;
    forall i | 0 <= i < |done| + 1 ensures out[at + i] == ([d] + done)[i] {
      if i > 0 { assert out[at + 1 + (i - 1)] == done[i - 1]; }
    }
  }

  /** The column with weight 10^k. */
  method AddOne(a: seq<Digit>, b: seq<Digit>, k: nat, carry: int, out: array<Digit>, at: nat, ghost done: seq<Digit>)
      returns (carry1: int, ghost done1: seq<Digit>)
    requires at < out.Length && Filled(out, at + 1, done) && Added(a, b, k, carry, done)
    modifies out
    ensures Filled(out, at, done1) && Added(a, b, k + 1, carry1, done1)
  {
    var sum := DigitAt(a, k) + DigitAt(b, k) + carry;
    var d: Digit := sum % 10;
    carry1, done1 := sum / 10, [d] + done;
    AddColumn(a, b, k, carry, done, d, carry1);
    PutFront(out, at, d, done);
  }

  /** All columns and the last carry, which is left out if it is 0. */
  lemma {:induction false} Total(a: seq<Digit>, b: seq<Digit>, n: nat, carry: Digit, done: seq<Digit>, all: seq<Digit>)
    requires Added(a, b, n, carry, done) && |a| <= n && |b| <= n && |all| == n + 1
    requires forall i :: 0 <= i <= n ==> all[i] == ([carry] + done)[i]
    ensures Value(if carry > 0 then all else all[1..]) == Value(a) + Value(b)
  {
    assert all == [carry] + done && all[1..] == done;
    ValueFront(carry, done);
    LowAll(a, n);
    LowAll(b, n);
  }

  /** A carry or borrow of 0 or 1. */
  function Carried(c: int, p: nat): nat {
    if c == 0 then 0 else p
  }

  lemma {:induction false} CarriedTimes(c: int, p: nat)
    requires 0 <= c <= 1
    ensures Carried(c, p) == c * p
  {
  }

  /** The last `k` columns have been added. */
  predicate Added(a: seq<Digit>, b: seq<Digit>, k: nat, carry: int, done: seq<Digit>) {
    0 <= carry <= 1 && |done| == k && Value(done) + Carried(carry, Power(k)) == Value(Low(a, k)) + Value(Low(b, k))
  }

  lemma {:induction false} AddColumn(a: seq<Digit>, b: seq<Digit>, k: nat, carry: int, done: seq<Digit>, d: Digit, carry1: int)
    requires Added(a, b, k, carry, done) && 0 <= carry1 <= 1 && 10 * carry1 + d == DigitAt(a, k) + DigitAt(b, k) + carry
    ensures Added(a, b, k + 1, carry1, [d] + done)
  {
    var x, y, p := DigitAt(a, k), DigitAt(b, k), Power(k);
    LowStep(a, k);
    LowStep(b, k);
    ValueFront(d, done);
    AddWeights(x, y, carry, d, carry1, p);
    CarriedTimes(carry, p);
    CarriedTimes(carry1, 10 * p);
  }

  lemma {:induction false} AddWeights(x: int, y: int, carry: int, d: int, carry1: int, p: int)
    requires 10 * carry1 + d == x + y + carry
    ensures d * p + carry1 * (10 * p) == x * p + y * p + carry * p
  {
    Sum3(x, y, carry, p);
    Distribute(10 * carry1 + d, d, p);
    Tens(carry1, p);
  }

  method SubtractMagnitudes(large: seq<Digit>, small: seq<Digit>) returns (r: seq<Digit>)
    requires |large| > 0 && |small| <= |large| && Value(small) <= Value(large)
    ensures r != [] && Value(r) == Value(large) - Value(small) && |r| <= |large|
  {
    var out := new Digit[|large|];
    var borrow, done := SubtractColumns(large, small, out);
    Difference(large, small, borrow, done);
    assert out[..] == done;
    r := TrimZeros(out[..]);
  }

  /** All columns; the borrow that is left is not needed. */
  method SubtractColumns(large: seq<Digit>, small: seq<Digit>, out: array<Digit>) returns (borrow: int, ghost done: seq<Digit>)
    requires out.Length == |large|
    modifies out
    ensures Filled(out, 0, done) && Subtracted(large, small, |large|, borrow, done)
  {
    var n := |large|;
    borrow, done := 0, [];
    LowNone(large);
    LowNone(small);
    for k := 0 to n
      invariant Filled(out, n - k, done) && Subtracted(large, small, k, borrow, done)
    {
      borrow, done := SubtractOne(large, small, k, borrow, out, n - 1 - k, done);
    }
  }

  /** The column with weight 10^k. */
  method SubtractOne(a: seq<Digit>, b: seq<Digit>, k: nat, before: int, out: array<Digit>, at: nat, ghost done: seq<Digit>)
      returns (borrow: int, ghost done1: seq<Digit>)
    requires at < out.Length && Filled(out, at + 1, done) && Subtracted(a, b, k, before, done)
    modifies out
    ensures Filled(out, at, done1) && Subtracted(a, b, k + 1, borrow, done1)
  {
    var v := DigitAt(a, k) - DigitAt(b, k) - before;
    if v < 0 { v, borrow := v + 10, 1; } else { borrow := 0; }
    SubtractColumn(a, b, k, before, done, v, borrow);
    PutFront(out, at, v, done);
    done1 := [v] + done;
  }

  /** The last borrow is not needed. */
  lemma {:induction false} Difference(large: seq<Digit>, small: seq<Digit>, borrow: int, done: seq<Digit>)
    requires Subtracted(large, small, |large|, borrow, done) && |small| <= |large| && Value(small) <= Value(large)
    ensures Value(done) == Value(large) - Value(small)
  {
    LowAll(large, |large|);
    LowAll(small, |large|);
    ValueBound(done);
  }

  /** The last `k` columns have been subtracted. */
  predicate Subtracted(a: seq<Digit>, b: seq<Digit>, k: nat, borrow: int, done: seq<Digit>) {
    0 <= borrow <= 1 && |done| == k && Value(done) == Value(Low(a, k)) - Value(Low(b, k)) + Carried(borrow, Power(k))
  }

  lemma {:induction false} SubtractColumn(a: seq<Digit>, b: seq<Digit>, k: nat, before: int, done: seq<Digit>, v: Digit, borrow: int)
    requires Subtracted(a, b, k, before, done) && 0 <= borrow <= 1
    requires v == DigitAt(a, k) - DigitAt(b, k) - before + 10 * borrow
    ensures Subtracted(a, b, k + 1, borrow, [v] + done)
  {
    LowStep(a, k);
    LowStep(b, k);
    ValueFront(v, done);
    SubtractWeights(DigitAt(a, k), DigitAt(b, k), before, borrow, v, Power(k));
    CarriedTimes(before, Power(k));
    CarriedTimes(borrow, 10 * Power(k));
  }

  lemma {:induction false} SubtractWeights(x: int, y: int, before: int, borrow: int, v: int, p: int)
    requires v == x - y - before + 10 * borrow
    ensures v * p == x * p - y * p - before * p + borrow * (10 * p)
  {
  }

  // ---- Multiplication ----

  /** Adds one row, `d` times `b` shifted so that it ends at cell i + |b| - 1. Every cell is a
      single digit again afterwards. */
  method AddRow(acc: array<Digit>, i: nat, d: Digit, b: seq<Digit>, m: nat)
    requires 0 < i && i + |b| <= m <= acc.Length && acc[i - 1] == 0
    modifies acc
    ensures Value(acc[..m]) == Value(old(acc[..m])) + d * (Power(m - i - |b|) * Value(b))
    ensures forall k :: 0 <= k < acc.Length && (k < i - 1 || k >= i + |b|) ==> acc[k] == old(acc[k])
  {
    var carry := 0;
    var j := |b|;
    ghost var was := Value(acc[..m]);
    assert b[j..] == [];
    while j > 0
      invariant 0 <= j <= |b| && 0 <= carry <= 9 && acc[i - 1] == 0
      invariant Value(acc[..m]) + carry * Power(m - i - j) == was + d * (Power(m - i - |b|) * Value(b[j..]))
      invariant forall k :: 0 <= k < acc.Length && (k < i || k >= i + |b|) ==> acc[k] == old(acc[k])
    {
      var pos := i + j - 1;
      var sum := acc[pos] + d * b[j - 1] + carry;
      ProductBound(d, b[j - 1]);
      ghost var before := acc[..m];
      var cell: Digit := sum % 10;
      acc[pos] := cell;
      assert acc[..m] == before[pos := cell];
      RowStep(before, pos, d, b, i, j, m, carry, sum, was);
      carry := sum / 10;
      j := j - 1;
    }
    assert b[0..] == b;
    ghost var before := acc[..m];
    var top: Digit := acc[i - 1] + carry;
    acc[i - 1] := top;
    assert acc[..m] == before[i - 1 := top];
    ValueUpdate(before, i - 1, top);
  }

  lemma {:induction false} ProductBound(x: Digit, y: Digit)
    ensures 0 <= x * y <= 81
  {
    Scale(x, 9, y);
    Scale(0, x, y);
  }

  lemma {:induction false} RowStep(before: seq<Digit>, pos: nat, d: Digit, b: seq<Digit>, i: nat, j: nat, m: nat, carry: int, sum: nat, was: int)
    requires |before| == m && 0 < j <= |b| && pos == i + j - 1 && i + |b| <= m && sum == before[pos] + d * b[j - 1] + carry && sum < 100
    requires Value(before) + carry * Power(m - i - j) == was + d * (Power(m - i - |b|) * Value(b[j..]))
    ensures var cell: Digit := sum % 10;
      Value(before[pos := cell]) + (sum / 10) * Power(m - i - j + 1) == was + d * (Power(m - i - |b|) * Value(b[j - 1..]))
  {
    var p, q, x := Power(m - i - j), Power(m - i - |b|), b[j - 1];
    ValueUpdate(before, pos, sum % 10);
    Column(sum, p);
    assert b[j - 1..] == [x] + b[j..];
    ValueFront(x, b[j..]);
    PowerAdd(m - i - |b|, |b| - j);
    Row(d, q, x, Power(|b| - j), Value(b[j..]), p);
    RowWeights(sum, before[pos], d * x, carry, sum % 10, p);
  }

  lemma {:induction false} Row(d: int, q: int, x: int, s: int, v: int, p: int)
    requires p == q * s
    ensures d * (q * (x * s + v)) == (d * x) * p + d * (q * v)
  {
    Regroup(q, x, s, v);
    Regroup2(d, q, x, s, v);
  }

  lemma {:induction false} Regroup(q: int, x: int, s: int, v: int)
    ensures q * (x * s + v) == x * (q * s) + q * v
  {
  }

  lemma {:induction false} Regroup2(d: int, q: int, x: int, s: int, v: int)
    ensures d * (x * (q * s) + q * v) == (d * x) * (q * s) + d * (q * v)
  {
  }

  lemma {:induction false} RowWeights(sum: int, cell: int, product: int, carry: int, written: int, p: int)
    requires sum == cell + product + carry
    ensures (written - cell) * p == written * p - cell * p && sum * p == cell * p + product * p + carry * p
  {
  }

  method MultiplyMagnitudes(a: seq<Digit>, b: seq<Digit>) returns (r: Option<seq<Digit>>)
    requires a != [] && b != []
    ensures |a| + |b| <= SIZE_MAX / 4 - 1 ==> r.Some?
    ensures r.Some? ==> r.value != [] && Value(r.value) == Value(a) * Value(b) && |r.value| <= |a| + |b|
  {
    if |a| > SIZE_MAX - |b| { return None; }
    var length := |a| + |b|;
    if length > SIZE_MAX / 4 - 1 { return None; }
    var acc := new Digit[length + 1](_ => 0);
    ValueZeros(length, acc[..length]);
    var i := |a|;
    assert a[i..] == [] && Value(a[i..]) * Value(b) == 0;
    while i > 0
      invariant 0 <= i <= |a| && acc.Length == length + 1
      invariant forall k :: 0 <= k < i ==> acc[k] == 0
      invariant Value(acc[..length]) == Value(a[i..]) * Value(b)
    {
      AddRow(acc, i, a[i - 1], b, length);
      assert a[i - 1..] == [a[i - 1]] + a[i..];
      ValueFront(a[i - 1], a[i..]);
      RowProduct(a[i - 1], Power(|a| - i), Value(a[i..]), Value(b));
      i := i - 1;
    }
    assert a[0..] == a;
    r := Some(acc[..length]);
  }

  lemma {:induction false} RowProduct(d: int, p: int, v: int, b: int)
    ensures (d * p + v) * b == v * b + d * (p * b)
  {
  }

  // ---- Signed numbers ----

  datatype Operation = Plus | Minus | Times | Order

  datatype Answer = Number(text: string) | Comparison(c: int) | Failed

  function Apply(op: Operation, x: int, y: int): int {
    match op
    case Plus => x + y
    case Minus => x - y
    case Times => x * y
    case Order => if x < y then -1 else if x == y then 0 else 1
  }

  /** The answer to an operation on two numbers, in canonical form. */
  predicate Right(op: Operation, x: int, y: int, r: Answer) {
    if op == Order then r == Comparison(Apply(op, x, y))
    else r.Number? && CanonicalText(r.text) && NumberOf(r.text) == Some(Apply(op, x, y))
  }

  method CompareNumbers(a: Big, b: Big) returns (c: int)
    requires Proper(a) && Proper(b)
    ensures c == Apply(Order, IntOf(a), IntOf(b))
  {
    SignFacts(a);
    SignFacts(b);
    if a.sign != b.sign { return if a.sign < b.sign then -1 else 1; }
    if a.sign == 0 { return 0; }
    c := CompareMagnitudes(a.digits, b.digits);
    if a.sign < 0 { c := 0 - c; }
  }

  lemma {:induction false} SignFacts(n: Big)
    requires Proper(n)
    ensures IntOf(n) == if n.sign == 0 then 0 else Negated(n.sign < 0, Value(n.digits))
    ensures n.sign != 0 ==> Value(n.digits) > 0
    ensures n.sign == 0 ==> Value(n.digits) == 0
  {
    if n.sign == 0 {
      ValueOne(0);
    } else if |n.digits| == 1 {
      assert n.digits == [n.digits[0]];
      ValueOne(n.digits[0]);
    } else {
      LongerIsLarger([], n.digits);
    }
  }

  method MultiplyNumbers(a: Big, b: Big) returns (sign: int, digits: Option<seq<Digit>>)
    requires Proper(a) && Proper(b)
    ensures |a.digits| + |b.digits| <= SIZE_MAX / 4 - 1 ==> digits.Some?
    ensures digits.Some? ==> digits.value != [] && |digits.value| <= |a.digits| + |b.digits|
    ensures digits.Some? ==> IntOf(a) * IntOf(b) == Negated(sign < 0, Value(digits.value))
  {
    SignFacts(a);
    SignFacts(b);
    if a.sign == 0 || b.sign == 0 {
      ValueOne(0);
      return 0, Some([0]);
    }
    digits := MultiplyMagnitudes(a.digits, b.digits);
    sign := a.sign * b.sign;
    SignProduct(a.sign, b.sign, Value(a.digits), Value(b.digits));
  }

  lemma {:induction false} SignProduct(s: int, t: int, x: int, y: int)
    requires (s == 1 || s == -1) && (t == 1 || t == -1)
    ensures (s * x) * (t * y) == (if s * t < 0 then -(x * y) else x * y)
  {
  }

  /** The sum of `a` and of `b` with its sign replaced. */
  method AddNumbers(a: Big, b: Big, bsign: int) returns (sign: int, digits: Option<seq<Digit>>)
    requires Proper(a) && Proper(b) && (bsign == b.sign || bsign == 0 - b.sign)
    ensures |a.digits| <= SIZE_MAX - 2 && |b.digits| <= SIZE_MAX - 2 ==> digits.Some?
    ensures digits.Some? ==> digits.value != [] && |digits.value| <= |a.digits| + |b.digits|
    ensures digits.Some? ==> SignedSum(a, b, bsign) == Negated(sign < 0, Value(digits.value))
  {
    SignFacts(a);
    SignFacts(b);
    if a.sign == 0 { return bsign, Some(b.digits); }
    if bsign == 0 { return a.sign, Some(a.digits); }
    sign := a.sign;
    if a.sign == bsign {
      digits := AddMagnitudes(a.digits, b.digits);
    } else {
      var ds;
      sign, ds := SubtractSigned(a, b, bsign);
      digits := Some(ds);
    }
  }

  /** `a` plus the magnitude of `b` under another sign. */
  function SignedSum(a: Big, b: Big, bsign: int): int {
    Negated(a.sign < 0, Value(a.digits)) + Negated(bsign < 0, Value(b.digits))
  }

  method SubtractSigned(a: Big, b: Big, bsign: int) returns (sign: int, digits: seq<Digit>)
    requires Proper(a) && Proper(b) && a.sign != 0 && bsign == 0 - a.sign
    ensures digits != [] && |digits| <= |a.digits| + |b.digits| && SignedSum(a, b, bsign) == Negated(sign < 0, Value(digits))
  {
    var c := CompareMagnitudes(a.digits, b.digits);
    if c == 0 {
      ValueOne(0);
      return 0, [0];
    }
    if c > 0 {
      NotLonger(b.digits, a.digits);
      digits := SubtractMagnitudes(a.digits, b.digits);
      sign := a.sign;
    } else {
      NotLonger(a.digits, b.digits);
      digits := SubtractMagnitudes(b.digits, a.digits);
      sign := bsign;
    }
  }

  lemma {:induction false} NotLonger(small: seq<Digit>, large: seq<Digit>)
    requires Trim(small) && Trim(large) && Value(small) < Value(large)
    ensures |small| <= |large|
  {
    if |large| < |small| { LongerIsLarger(large, small); }
  }

  /** An operation on two numbers. */
  method Compute(x: Big, y: Big, op: Operation) returns (r: Answer)
    requires Proper(x) && Proper(y)
    ensures r != Failed ==> Right(op, IntOf(x), IntOf(y), r)
    ensures |x.digits| + |y.digits| <= SIZE_MAX / 4 - 1 ==> r != Failed
  {
    if op == Order {
      var c := CompareNumbers(x, y);
      return Comparison(c);
    }
    var sign, digits;
    if op == Times {
      sign, digits := MultiplyNumbers(x, y);
    } else {
      sign, digits := AddNumbers(x, y, if op == Minus then 0 - y.sign else y.sign);
      SumIs(x, y, op == Minus);
    }
    if digits.None? { return Failed; }
    var text := Format(sign, digits.value);
    r := if text.Some? then Number(text.value) else Failed;
  }

  lemma {:induction false} SumIs(x: Big, y: Big, minus: bool)
    requires Proper(x) && Proper(y)
    ensures SignedSum(x, y, if minus then 0 - y.sign else y.sign) == if minus then IntOf(x) - IntOf(y) else IntOf(x) + IntOf(y)
  {
    SignFacts(x);
    SignFacts(y);
  }

  /** Every operation on two decimal strings gives the mathematical result in canonical form;
      it fails for strings that are no numbers, and for nothing else that is not too long. */
  method Binary(a: string, b: string, op: Operation) returns (r: Answer)
    ensures NumberOf(a).None? || NumberOf(b).None? ==> r == Failed
    ensures NumberOf(a).Some? && NumberOf(b).Some? && r != Failed ==> Right(op, NumberOf(a).value, NumberOf(b).value, r)
    ensures NumberOf(a).Some? && NumberOf(b).Some? && |a| + |b| <= SIZE_MAX / 4 - 1 ==> r != Failed
  {
    var x := Parse(a);
    var y := Parse(b);
    if x.None? || y.None? { return Failed; }
    r := Compute(x.value, y.value, op);
  }

  // ---- Numerals ----

  lemma {:induction false} DigitsSnoc(text: string, c: char)
    requires '0' <= c <= '9' && Digits(text).Some?
    ensures Digits(text + [c]) == Some(Digits(text).value + [c as int - '0' as int])
  {
    if text == "" {
      assert text + [c] == [c] && [c][1..] == "" && Digits("") == Some([]);
      var d: Digit := c as int - '0' as int;
      assert Digits([c]) == Some([d] + []) && [d] + [] == [] + [d];
    } else {
      assert (text + [c])[1..] == text[1..] + [c] && (text + [c])[0] == text[0];
      DigitsSnoc(text[1..], c);
      var d, ds, e := text[0] as int - '0' as int, Digits(text[1..]).value, c as int - '0' as int;
      assert [d] + (ds + [e]) == [d] + ds + [e];
    }
  }

  lemma {:induction false} DecimalValue(n: nat)
    ensures Digits(Syntax.Decimal(n)).Some? && Value(Digits(Syntax.Decimal(n)).value) == n
  {
    if n < 10 {
      var text := Syntax.Decimal(n);
      assert text[1..] == "" && Digits(text) == Some([n] + []);
      ValueOne(n);
    } else {
      DecimalValue(n / 10);
      var head, c := Syntax.Decimal(n / 10), Syntax.DigitChar(n % 10);
      DigitsSnoc(head, c);
      var ds := Digits(head).value;
      assert (ds + [n % 10])[..|ds|] == ds;
    }
  }

  /** The decimal numeral of a number stands for it, as it is and with a sign. */
  lemma {:induction false} NumeralsSpelled(n: nat)
    ensures NumberOf(Syntax.Decimal(n)) == Some(n)
    ensures NumberOf("+" + Syntax.Decimal(n)) == Some(n)
    ensures NumberOf("-" + Syntax.Decimal(n)) == Some(0 - n)
  {
    var text := Syntax.Decimal(n);
    DecimalValue(n);
    assert ("+" + text)[1..] == text && ("-" + text)[1..] == text;
  }
}
