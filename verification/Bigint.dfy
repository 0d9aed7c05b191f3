/** Signed decimal strings and their values (the bigint section of
    src/compiler/native_runtime.c). */
module Bigint {
  import opened Options

  type Digit = d: int | 0 <= d < 10

  function Power(k: nat): (p: nat)
    ensures p > 0
  {
    if k == 0 then 1 else 10 * Power(k - 1)
  }

  /** The value of digits, most significant first. */
  function Value(ds: seq<Digit>): nat {
    if ds == [] then 0 else 10 * Value(ds[..|ds| - 1]) + ds[|ds| - 1]
  }

  lemma {:induction false} PowerAdd(a: nat, b: nat)
    ensures Power(a + b) == Power(a) * Power(b)
  {
    if b > 0 {
      PowerAdd(a, b - 1);
      assert Power(a + b) == 10 * Power(a + (b - 1));
      assert Power(a) * Power(b) == 10 * (Power(a) * Power(b - 1));
    }
  }

  lemma {:induction false} ValueConcat(a: seq<Digit>, b: seq<Digit>)
    ensures Value(a + b) == Value(a) * Power(|b|) + Value(b)
    decreases |b|
  {
    if b == [] {
      assert a + b == a;
    } else {
      var init := b[..|b| - 1];
      assert (a + b)[..|a + b| - 1] == a + init;
      ValueConcat(a, init);
      assert Value(a) * Power(|b|) == 10 * (Value(a) * Power(|init|));
    }
  }

  lemma {:induction false} ValueOne(d: Digit)
    ensures Value([d]) == d
  {
    assert [d][..0] == [];
  }

  lemma {:induction false} ValueFront(d: Digit, ds: seq<Digit>)
    ensures Value([d] + ds) == d * Power(|ds|) + Value(ds)
  {
    ValueConcat([d], ds);
    ValueOne(d);
  }

  lemma {:induction false} ValueBound(ds: seq<Digit>)
    ensures Value(ds) < Power(|ds|)
  {
    if ds != [] { ValueBound(ds[..|ds| - 1]); }
  }

  /** Changing one digit. */
  lemma {:induction false} ValueUpdate(ds: seq<Digit>, p: nat, d: Digit)
    requires p < |ds|
    ensures Value(ds[p := d]) == Value(ds) + (d - ds[p]) * Power(|ds| - 1 - p)
  {
    var a, b := ds[..p], ds[p + 1..];
    assert ds == a + ([ds[p]] + b) && ds[p := d] == a + ([d] + b);
    ValueConcat(a, [ds[p]] + b);
    ValueConcat(a, [d] + b);
    ValueFront(ds[p], b);
    ValueFront(d, b);
    Distribute(d, ds[p], Power(|b|));
  }

  lemma {:induction false} Distribute(x: int, y: int, p: int)
    ensures (x - y) * p == x * p - y * p
  {
  }

  lemma {:induction false} ValueZeros(n: nat, ds: seq<Digit>)
    requires |ds| == n && forall i :: 0 <= i < n ==> ds[i] == 0
    ensures Value(ds) == 0
  {
    if n > 0 { ValueZeros(n - 1, ds[..n - 1]); }
  }

  // ---- Canonical digits ----

  /** No leading zeros. */
  predicate Trim(ds: seq<Digit>) {
    |ds| > 0 && (|ds| > 1 ==> ds[0] != 0)
  }

  /** A longer number without leading zeros is larger. */
  lemma {:induction false} LongerIsLarger(a: seq<Digit>, b: seq<Digit>)
    requires Trim(b) && |a| < |b| && |b| > 1
    ensures Value(a) < Value(b)
  {
    ValueBound(a);
    assert b == [b[0]] + b[1..];
    ValueFront(b[0], b[1..]);
    PowerMonotone(|a|, |b| - 1);
    Scale(1, b[0], Power(|b| - 1));
  }

  lemma {:induction false} PowerMonotone(a: nat, b: nat)
    requires a <= b
    ensures Power(a) <= Power(b)
  {
    if a < b { PowerMonotone(a, b - 1); }
  }

  /** At the same length the first difference decides. */
  lemma {:induction false} FirstDifference(a: seq<Digit>, b: seq<Digit>, k: nat)
    requires |a| == |b| && k < |a| && a[..k] == b[..k] && a[k] < b[k]
    ensures Value(a) < Value(b)
  {
    SplitAt(a, k);
    SplitAt(b, k);
    ValueBound(a[k + 1..]);
    DigitDecides(a[k], b[k], Power(|a| - k - 1), Value(a[k + 1..]), Value(b[k + 1..]));
  }

  lemma {:induction false} SplitAt(ds: seq<Digit>, k: nat)
    requires k < |ds|
    ensures Value(ds) == Value(ds[..k]) * Power(|ds| - k) + (ds[k] * Power(|ds| - k - 1) + Value(ds[k + 1..]))
  {
    assert ds == ds[..k] + ([ds[k]] + ds[k + 1..]);
    ValueConcat(ds[..k], [ds[k]] + ds[k + 1..]);
    ValueFront(ds[k], ds[k + 1..]);
  }

  lemma {:induction false} DigitDecides(d: int, e: int, p: nat, x: nat, y: nat)
    requires d < e && x < p
    ensures d * p + x < e * p + y
  {
    Scale(d + 1, e, p);
    Distribute(d + 1, 1, p);
  }

  lemma {:induction false} Scale(a: int, b: int, p: nat)
    requires a <= b
    ensures a * p <= b * p
  {
  }

  /** Digits without leading zeros are determined by their value. */
  lemma {:induction false} TrimUnique(a: seq<Digit>, b: seq<Digit>)
    requires Trim(a) && Trim(b) && Value(a) == Value(b)
    ensures a == b
  {
    if |a| < |b| { LongerIsLarger(a, b); }
    if |b| < |a| { LongerIsLarger(b, a); }
    if a != b {
      var k := Differ(a, b);
      if a[k] < b[k] { FirstDifference(a, b, k); } else { FirstDifference(b, a, k); }
    }
  }

  /** The first place where two sequences of the same length differ, or their length. */
  function Differ(a: seq<Digit>, b: seq<Digit>): (k: nat)
    requires |a| == |b|
    ensures k <= |a| && a[..k] == b[..k] && (k < |a| ==> a[k] != b[k]) && (k == |a| ==> a == b)
  {
    if a == [] || a[0] != b[0] then 0
    else
      var k := Differ(a[1..], b[1..]);
      assert a[..k + 1] == [a[0]] + a[1..][..k] && b[..k + 1] == [b[0]] + b[1..][..k];
      assert a == [a[0]] + a[1..] && b == [b[0]] + b[1..];
      k + 1
  }

  // ---- Strings ----

  /** A parsed number: its sign, 0 for zero, and its digits without leading zeros. */
  datatype Big = Big(sign: int, digits: seq<Digit>)

  /** A magnitude with its sign. */
  function Negated(minus: bool, v: nat): int {
    if minus then 0 - v else v
  }

  predicate Proper(n: Big) {
    Trim(n.digits) && -1 <= n.sign <= 1 && (n.sign == 0 <==> n.digits == [0])
  }

  function IntOf(n: Big): int {
    n.sign * Value(n.digits)
  }

  function Digits(text: string): (r: Option<seq<Digit>>)
    ensures r.Some? ==> |r.value| == |text|
    ensures r.Some? <==> forall i :: 0 <= i < |text| ==> '0' <= text[i] <= '9'
    ensures r.Some? ==> forall i :: 0 <= i < |text| ==> text[i] == Character(r.value[i])
  {
    if text == "" then Some([])
    else match Digits(text[1..])
      case None => None
      case Some(ds) => if '0' <= text[0] <= '9' then Some([text[0] as int - '0' as int] + ds) else None
  }

  function Character(d: Digit): char {
    ('0' as int + d) as char
  }

  function Text(ds: seq<Digit>): string {
    seq(|ds|, i requires 0 <= i < |ds| => Character(ds[i]))
  }

  predicate Signed(text: string) {
    text != "" && (text[0] == '-' || text[0] == '+')
  }

  /** The number that a string stands for: an optional sign and at least one digit. */
  function NumberOf(text: string): Option<int> {
    var rest := if Signed(text) then text[1..] else text;
    match Digits(rest)
    case None => None
    case Some(ds) => if ds == [] then None else Some(Negated(Signed(text) && text[0] == '-', Value(ds)))
  }

  /** The one way to write a number: no leading zeros, no plus sign and no negative zero. */
  predicate CanonicalText(text: string) {
    Unsigned(if text != "" && text[0] == '-' then text[1..] else text) && text != "-0"
  }

  lemma {:induction false} CharacterDigit(d: Digit, e: Digit)
    ensures '0' <= Character(d) <= '9' && (Character(d) == Character(e) ==> d == e)
  {
  }

  lemma {:induction false} TextDigits(ds: seq<Digit>)
    ensures Digits(Text(ds)) == Some(ds)
  {
    forall i | 0 <= i < |ds| ensures '0' <= Text(ds)[i] <= '9' { CharacterDigit(ds[i], 0); }
    var r := Digits(Text(ds)).value;
    forall i | 0 <= i < |ds| ensures r[i] == ds[i] {
      assert Text(ds)[i] == Character(r[i]);
      CharacterDigit(r[i], ds[i]);
    }
    assert r == ds;
  }

  lemma {:induction false} DigitsText(text: string)
    requires Digits(text).Some?
    ensures Text(Digits(text).value) == text
  {
  }

  /** Canonical strings of the same number are the same. */
  lemma {:induction false} CanonicalUnique(s: string, t: string)
    requires CanonicalText(s) && CanonicalText(t) && NumberOf(s) == NumberOf(t)
    ensures s == t
  {
    var a := CanonicalParts(s);
    var b := CanonicalParts(t);
    TrimUnique(a, b);
  }

  function Sign(minus: bool): string {
    if minus then "-" else ""
  }

  predicate Unsigned(text: string) {
    text != "" && (forall i :: 0 <= i < |text| ==> '0' <= text[i] <= '9') && (|text| > 1 ==> text[0] != '0')
  }

  lemma {:induction false} UnsignedParts(text: string) returns (ds: seq<Digit>)
    requires Unsigned(text)
    ensures Digits(text) == Some(ds) && Trim(ds) && text == Text(ds)
  {
    ds := Digits(text).value;
    DigitsText(text);
    TrimText(text, ds);
  }

  /** The sign and the digits of a canonical string. */
  lemma {:induction false} CanonicalParts(s: string) returns (ds: seq<Digit>)
    requires CanonicalText(s)
    ensures Trim(ds) && NumberOf(s) == Some(Negated(s[0] == '-', Value(ds)))
    ensures s == Sign(s[0] == '-') + Text(ds) && (s[0] == '-' ==> Value(ds) > 0)
  {
    if s[0] == '-' {
      ds := UnsignedParts(s[1..]);
      assert s == "-" + s[1..];
      NotZero(ds, s[1..]);
    } else {
      ds := UnsignedParts(s);
    }
  }

  lemma {:induction false} TrimText(text: string, ds: seq<Digit>)
    requires Digits(text) == Some(ds) && text != "" && (|text| > 1 ==> text[0] != '0')
    ensures Trim(ds)
  {
    assert text[0] == Character(ds[0]);
  }

  lemma {:induction false} NotZero(ds: seq<Digit>, text: string)
    requires Digits(text) == Some(ds) && Trim(ds) && text != "0"
    ensures Value(ds) > 0
  {
    assert text[0] == Character(ds[0]);
    if |ds| > 1 {
      LongerIsLarger([], ds);
    } else {
      assert ds == [ds[0]] && text == [text[0]];
      ValueOne(ds[0]);
    }
  }
}
