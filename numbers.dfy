/**
 * Numeric reading of form text: JavaScript's `parseFloat` and `Number` on
 * decimal literals, and the portal's `num` helper built on `parseFloat`.
 * Amounts are exact reals; there is no floating-point rounding.
 */
module Numbers {
  import opened Wrappers
  import opened Text

  predicate IsDigit(c: char) {
    '0' <= c <= '9'
  }

  function DigitValue(c: char): (d: nat)
    requires IsDigit(c)
    ensures d < 10
  {
    c as int - '0' as int
  }

  predicate AllDigits(s: string) {
    forall i :: 0 <= i < |s| ==> IsDigit(s[i])
  }

  /** Length of the longest run of decimal digits in `s` starting at position `from`. */
  function DigitRun(s: string, from: nat): (n: nat)
    requires from <= |s|
    ensures from + n <= |s|
    ensures AllDigits(s[from..from + n])
    ensures from + n == |s| || !IsDigit(s[from + n])
    decreases |s| - from
  {
    if from < |s| && IsDigit(s[from]) then
      var r := DigitRun(s, from + 1);
      DigitsExtend(s, from, r);
      1 + r
    else 0
  }

  /** A digit in front of a run of digits makes a longer run. */
  lemma DigitsExtend(s: string, from: nat, r: nat)
    requires from + 1 + r <= |s| && IsDigit(s[from]) && AllDigits(s[from + 1..from + 1 + r])
    ensures AllDigits(s[from..from + 1 + r])
  {
    assert s[from..from + 1 + r] == [s[from]] + s[from + 1..from + 1 + r];
  }

  /** The value of a string of decimal digits, most significant digit first. */
  function DigitsValue(s: string): nat
    requires AllDigits(s)
  {
    if s == [] then 0 else 10 * DigitsValue(s[..|s| - 1]) + DigitValue(s[|s| - 1])
  }

  /** `x` with its decimal point moved `e` places to the right (to the left when `e` is negative). */
  function Shift(x: real, e: int): real
    decreases if e >= 0 then e else -e
  {
    if e == 0 then x
    else if e > 0 then Shift(x * 10.0, e - 1)
    else Shift(x / 10.0, e + 1)
  }

  /** A literal recognised at the start of a string: its value and the number of characters it spans. */
  datatype Scan = Scan(value: real, length: nat)

  /** An exponent part at position `m` of `s`: `e` or `E`, an optional sign, at least one digit. */
  function ScanExponent(s: string, m: nat): (r: Option<(int, nat)>)
    requires m <= |s|
    ensures r.Some? ==> 2 <= r.value.1 <= |s| - m
  {
    if m + 2 <= |s| && (s[m] == 'e' || s[m] == 'E') then
      var k := if s[m + 1] == '+' || s[m + 1] == '-' then m + 2 else m + 1;
      var n := DigitRun(s, k);
      if n == 0 then None
      else
        var e: int := DigitsValue(s[k..k + n]);
        Some((if s[m + 1] == '-' then -e else e, k + n - m))
    else None
  }

  /** The value of the digits `s[k..k + n1]`, then a fraction of `n2` digits after the point at `k + n1`. */
  function Mantissa(s: string, k: nat, n1: nat, hasDot: bool, n2: nat): real
    requires k + n1 + (if hasDot then 1 + n2 else 0) <= |s|
    requires AllDigits(s[k..k + n1])
    requires hasDot ==> AllDigits(s[k + n1 + 1..k + n1 + 1 + n2])
  {
    var whole := DigitsValue(s[k..k + n1]);
    var frac := if hasDot then DigitsValue(s[k + n1 + 1..k + n1 + 1 + n2]) else 0;
    whole as real + Shift(frac as real, -(n2 as int))
  }

  /** The mantissa ending at position `m`, scaled by the exponent that may follow it. */
  function WithExponent(s: string, mantissa: real, m: nat): (r: Scan)
    requires m <= |s|
    ensures m <= r.length <= |s|
  {
    match ScanExponent(s, m)
    case None => Scan(mantissa, m)
    case Some((e, n)) =>
      Scan(Shift(mantissa, e), m + n)
  }

  /**
   * The longest unsigned decimal literal at position `k` of `s`: digits with
   * an optional fraction (at least one digit in all), then an optional
   * exponent. None when there is none.
   */
  function ScanUnsigned(s: string, k: nat): (r: Option<Scan>)
    requires k <= |s|
    ensures r.Some? ==> k < r.value.length <= |s|
  {
    var n1 := DigitRun(s, k);
    var hasDot := k + n1 < |s| && s[k + n1] == '.';
    var n2 := if hasDot then DigitRun(s, k + n1 + 1) else 0;
    if n1 == 0 && n2 == 0 then None
    else
      var m := k + n1 + (if hasDot then 1 + n2 else 0);
      Some(WithExponent(s, Mantissa(s, k, n1, hasDot, n2), m))
  }

  /** The length of the sign in front of a literal: 1 for `+` or `-`, else 0. */
  function SignLength(s: string): (k: nat)
    ensures k <= |s|
  {
    if |s| > 0 && (s[0] == '+' || s[0] == '-') then 1 else 0
  }

  /** The longest decimal literal at the start of `s`, with an optional sign in front. */
  function ScanDecimal(s: string): (r: Option<Scan>)
    ensures r.Some? ==> 0 < r.value.length <= |s|
  {
    if SignLength(s) == 1 then
      match ScanUnsigned(s[1..], 0)
      case None => None
      case Some(sc) => Some(Scan(if s[0] == '-' then -sc.value else sc.value, sc.length + 1))
    else ScanUnsigned(s, 0)
  }

  /** `parseFloat(v)`: the literal at the start of `v` after leading white space; None stands for NaN. */
  function ParseFloat(v: string): Option<real>
    decreases |v|
  {
    if v != [] && IsSpace(v[0]) then ParseFloat(v[1..])
    else match ScanDecimal(v)
      case None => None
      case Some(sc) => Some(sc.value)
  }

  /** Skipping white space one character at a time is reading after `TrimStart`. */
  lemma {:induction false} ParseFloatAfterTrim(v: string)
    ensures ParseFloat(v) == match ScanDecimal(TrimStart(v)) case None => None case Some(sc) => Some(sc.value)
    decreases |v|
  {
    if v != [] && IsSpace(v[0]) {
      ParseFloatAfterTrim(v[1..]);
    }
  }

  /** The portal's `num(v) = parseFloat(v) || 0`: NaN (and zero) read as 0. */
  function Num(v: string): real {
    match ParseFloat(v)
    case None => 0.0
    case Some(x) => x
  }

  /**
   * `Number(v)`: the whole trimmed string must be one decimal literal; the
   * empty or all-blank string is 0. None stands for NaN.
   */
  function JsNumber(v: string): Option<real> {
    var t := Trim(v);
    if t == "" then Some(0.0)
    else match ScanDecimal(t)
      case Some(sc) => if sc.length == |t| then Some(sc.value) else None
      case None => None
  }

  /** An empty or blank field reads as 0, so a freshly added row adds nothing to a total. */
  lemma NumBlank(v: string)
    requires Blank(v)
    ensures Num(v) == 0.0
  {
    BlankIff(v);
    ParseFloatBlank(v);
  }

  lemma {:induction false} ParseFloatBlank(v: string)
    requires forall i :: 0 <= i < |v| ==> IsSpace(v[i])
    ensures ParseFloat(v).None?
    decreases |v|
  {
    if v != [] {
      assert forall i :: 0 <= i < |v[1..]| ==> v[1..][i] == v[i + 1];
      ParseFloatBlank(v[1..]);
    } else {
      assert ScanUnsigned(v, 0).None?;
    }
  }

  /** The decimal rendering of a natural number, without leading zeros. */
  function NatToString(n: nat): (s: string)
    ensures |s| > 0 && AllDigits(s)
  {
    if n < 10 then [('0' as int + n) as char]
    else NatToString(n / 10) + [('0' as int + n % 10) as char]
  }

  /** Reading back a rendered natural number gives the number. */
  lemma {:induction false} DigitsValueOfNatToString(n: nat)
    ensures DigitsValue(NatToString(n)) == n
  {
    var s := NatToString(n);
    if n >= 10 {
      DigitsValueOfNatToString(n / 10);
      assert s[..|s| - 1] == NatToString(n / 10);
    }
  }

  /** Digits that run from `k` to the end are scanned to the end, with their digit value. */
  lemma ScanUnsignedAllDigits(s: string, k: nat)
    requires k < |s| && AllDigits(s[k..])
    ensures ScanUnsigned(s, k) == Some(Scan(DigitsValue(s[k..]) as real, |s|))
  {
    DigitRunAll(s, k);
    assert s[k..k + (|s| - k)] == s[k..];
    assert Mantissa(s, k, |s| - k, false, 0) == DigitsValue(s[k..]) as real;
    assert ScanExponent(s, |s|) == None;
  }

  /** A literal made only of digits is scanned whole, with its digit value. */
  lemma ScanAllDigits(s: string)
    requires |s| > 0 && AllDigits(s)
    ensures ScanDecimal(s) == Some(Scan(DigitsValue(s) as real, |s|))
  {
    assert IsDigit(s[0]);
    assert s[0..] == s;
    ScanUnsignedAllDigits(s, 0);
  }

  /** A string that is all digits from `from` on is one digit run to its end. */
  lemma {:induction false} DigitRunAll(s: string, from: nat)
    requires from <= |s| && AllDigits(s[from..])
    ensures DigitRun(s, from) == |s| - from
    decreases |s| - from
  {
    if from < |s| {
      assert s[from] == s[from..][0];
      assert s[from + 1..] == s[from..][1..];
      DigitRunAll(s, from + 1);
    }
  }

  /** `num` and `Number` both read a rendered natural number back as that number. */
  lemma NumNatRoundTrip(n: nat)
    ensures Num(NatToString(n)) == n as real
    ensures JsNumber(NatToString(n)) == Some(n as real)
  {
    var s := NatToString(n);
    DigitsValueOfNatToString(n);
    ScanAllDigits(s);
    assert !IsSpace(s[0]);
    assert !IsSpace(s[|s| - 1]);
    assert TrimStart(s) == s;
    assert TrimEnd(s) == s;
  }

  /**
   * A minus sign in front of text that has no white space or sign of its own
   * at the start negates what `num` reads; text that does not read as a
   * number stays 0.
   */
  lemma NumNegative(s: string)
    requires s == [] || (!IsSpace(s[0]) && s[0] != '+' && s[0] != '-')
    ensures Num("-" + s) == -Num(s)
  {
    var t := "-" + s;
    assert t[0] == '-' && !IsSpace(t[0]) && t[1..] == s;
    if s == [] {
      assert ScanUnsigned(s, 0).None?;
    } else {
      assert SignLength(s) == 0;
    }
  }
}
