/**
 * JavaScript's `parseFloat` and `parseInt` as prefix parsers over decimal text, and the
 * `Math.max(-1, Math.min(1, x))` clamp applied to every sentiment score. Values are exact
 * `real`s; `NaN` is `None`, and the `Infinity` literal that `parseFloat` accepts is kept apart.
 */
module Numbers {
  import opened Wrappers
  import opened Text

  function DigitValue(c: char): (d: nat)
    requires IsDigit(c)
    ensures d <= 9
  {
    c as int - '0' as int
  }

  predicate AllDigits(s: string) {
    forall k :: 0 <= k < |s| ==> IsDigit(s[k])
  }

  /** Index just past the maximal run of decimal digits starting at `i`. */
  function DigitsEnd(s: string, i: nat): (r: nat)
    requires i <= |s|
    ensures i <= r <= |s|
    ensures AllDigits(s[i..r])
    ensures r == |s| || !IsDigit(s[r])
    decreases |s| - i
  {
    if i < |s| && IsDigit(s[i]) then DigitsEnd(s, i + 1) else i
  }

  function Pow10(n: nat): (r: nat)
    ensures r >= 1
  {
    if n == 0 then 1 else 10 * Pow10(n - 1)
  }

  /** The value of a string of decimal digits, most significant first; the empty string is 0. */
  function DigitsValue(ds: string): (v: nat)
    requires AllDigits(ds)
    ensures v < Pow10(|ds|)
  {
    if ds == [] then 0
    else
      var init := ds[..|ds| - 1];
      assert AllDigits(init);
      DigitsValue(init) * 10 + DigitValue(ds[|ds| - 1])
  }

  /** The value of the digits after a decimal point: `0.ds`. */
  function FractionValue(ds: string): (v: real)
    requires AllDigits(ds)
    ensures 0.0 <= v < 1.0
  {
    var d, p := DigitsValue(ds) as real, Pow10(|ds|) as real;
    QuotientBelowOne(d, p);
    d / p
  }

  lemma QuotientBelowOne(d: real, p: real)
    requires 0.0 <= d < p
    ensures 0.0 <= d / p < 1.0
  {
    assert d / p * p == d;
  }

  lemma ProductNonNegative(x: real, y: real)
    requires x >= 0.0 && y >= 0.0
    ensures x * y >= 0.0
  {
  }

  /** `10^e` for a signed exponent. */
  function Scale(e: int): (r: real)
    ensures r > 0.0
  {
    if e >= 0 then Pow10(e) as real else 1.0 / Pow10(-e) as real
  }

  predicate IsHexDigit(c: char) {
    IsDigit(c) || ('a' <= c <= 'f') || ('A' <= c <= 'F')
  }

  function HexDigitValue(c: char): (d: nat)
    requires IsHexDigit(c)
    ensures d < 16
  {
    if IsDigit(c) then DigitValue(c)
    else if 'a' <= c <= 'f' then c as int - 'a' as int + 10
    else c as int - 'A' as int + 10
  }

  function HexEnd(s: string, i: nat): (r: nat)
    requires i <= |s|
    ensures i <= r <= |s|
    ensures forall k :: i <= k < r ==> IsHexDigit(s[k])
    decreases |s| - i
  {
    if i < |s| && IsHexDigit(s[i]) then HexEnd(s, i + 1) else i
  }

  function HexValue(hs: string): nat
    requires forall k :: 0 <= k < |hs| ==> IsHexDigit(hs[k])
  {
    if hs == [] then 0 else HexValue(hs[..|hs| - 1]) * 16 + HexDigitValue(hs[|hs| - 1])
  }

  /** A number `parseFloat` can produce: a finite value, or the `Infinity` literal with its sign. */
  datatype Number = Finite(value: real) | Infinite(negative: bool)

  /** The sign character `parseFloat`/`parseInt` accept, and the text after it. */
  function SignSplit(t: string): (bool, string) {
    if |t| > 0 && (t[0] == '-' || t[0] == '+') then (t[0] == '-', t[1..]) else (false, t)
  }

  /**
   * The exponent `[eE][+-]?digits` starting at `k`, or 0 when there is none there
   * (an `e` without digits is not part of the longest numeric prefix).
   */
  function ExponentAt(u: string, k: nat): int
    requires k <= |u|
  {
    if k < |u| && (u[k] == 'e' || u[k] == 'E') then
      var (eneg, _) := SignSplit(u[k + 1..]);
      var ds := if k + 1 < |u| && (u[k + 1] == '-' || u[k + 1] == '+') then k + 2 else k + 1;
      var de := DigitsEnd(u, ds);
      if de == ds then 0
      else if eneg then -(DigitsValue(u[ds..de]) as int) else DigitsValue(u[ds..de]) as int
    else 0
  }

  /**
   * The unsigned part of `parseFloat`: the longest prefix of `u` of the form
   * `digits[.digits][exponent]` or `.digits[exponent]`; `None` when `u` starts with neither.
   */
  function UnsignedDecimal(u: string): (r: Option<real>)
    ensures r.Some? ==> r.value >= 0.0
    ensures |u| > 0 && IsDigit(u[0]) ==> r.Some?
  {
    var a := DigitsEnd(u, 0);
    var hasDot := a < |u| && u[a] == '.';
    var b := if hasDot then DigitsEnd(u, a + 1) else a;
    var frac := if hasDot then u[a + 1..b] else [];
    if a == 0 && frac == [] then None
    else
      var m := DigitsValue(u[..a]) as real + FractionValue(frac);
      var sc := Scale(ExponentAt(u, b));
      ProductNonNegative(m, sc);
      Some(m * sc)
  }

  /**
   * `parseFloat(s)`: leading whitespace skipped, an optional sign, then `Infinity` or the
   * longest unsigned decimal prefix; `None` stands for NaN.
   */
  function ParseFloat(s: string): (r: Option<Number>)
    ensures |s| > 0 && IsDigit(s[0]) ==> r.Some? && r.value.Finite? && r.value.value >= 0.0
  {
    var t := TrimStart(s);
    var (neg, u) := SignSplit(t);
    if StartsWith(u, "Infinity") then Some(Infinite(neg))
    else
      match UnsignedDecimal(u)
      case None => None
      case Some(v) => Some(Finite(if neg then -v else v))
  }

  /**
   * `parseInt(s)` with no radix: leading whitespace skipped, an optional sign, a `0x`/`0X` prefix
   * switching to hexadecimal, then the longest run of digits; `None` (NaN) when there is none.
   */
  function ParseInt(s: string): (r: Option<int>)
  {
    var t := TrimStart(s);
    var (neg, u) := SignSplit(t);
    if |u| >= 2 && u[0] == '0' && (u[1] == 'x' || u[1] == 'X') then
      var h := HexEnd(u, 2);
      if h == 2 then None
      else Some(if neg then -(HexValue(u[2..h]) as int) else HexValue(u[2..h]) as int)
    else
      var a := DigitsEnd(u, 0);
      if a == 0 then None
      else Some(if neg then -(DigitsValue(u[..a]) as int) else DigitsValue(u[..a]) as int)
  }

  /** A string of decimal digits parses, with `parseInt`, to its decimal value (no octal, no hex). */
  lemma ParseIntOfDigits(ds: string)
    requires ds != [] && AllDigits(ds)
    ensures ParseInt(ds) == Some(DigitsValue(ds) as int)
  {
    assert !IsSpace(ds[0]);
    assert SpaceEnd(ds, 0) == 0;
    assert TrimStart(ds) == ds;
    assert SignSplit(ds) == (false, ds);
    DigitsEndOfDigits(ds, 0);
    assert ds[..|ds|] == ds;
  }

  /** A string of decimal digits parses, with `parseFloat`, to its decimal value. */
  lemma ParseFloatOfDigits(ds: string)
    requires ds != [] && AllDigits(ds)
    ensures ParseFloat(ds) == Some(Finite(DigitsValue(ds) as real))
  {
    assert !IsSpace(ds[0]);
    assert SpaceEnd(ds, 0) == 0;
    assert TrimStart(ds) == ds;
    assert SignSplit(ds) == (false, ds);
    assert !StartsWith(ds, "Infinity") by {
      if |ds| >= 8 {
        assert ds[..8][0] == ds[0] != 'I';
      }
    }
    DigitsEndOfDigits(ds, 0);
    assert ds[..|ds|] == ds;
    assert ExponentAt(ds, |ds|) == 0;
    assert UnsignedDecimal(ds) == Some(DigitsValue(ds) as real * Scale(0));
  }

  /** `digits.digits` parses, with `parseFloat`, to its whole part plus its fraction. */
  lemma ParseFloatOfDecimal(a: string, f: string)
    requires a != [] && AllDigits(a) && f != [] && AllDigits(f)
    ensures ParseFloat(a + "." + f) == Some(Finite(DigitsValue(a) as real + FractionValue(f)))
  {
    UnsignedOfDecimal(a, f);
    ParseFloatFromDigit(a + "." + f, DigitsValue(a) as real + FractionValue(f));
  }

  /** Text starting with a digit has no whitespace, sign or `Infinity` to skip: `parseFloat` reads its decimal prefix. */
  lemma ParseFloatFromDigit(u: string, v: real)
    requires |u| > 0 && IsDigit(u[0]) && UnsignedDecimal(u) == Some(v)
    ensures ParseFloat(u) == Some(Finite(v))
  {
    assert !IsSpace(u[0]);
    assert SpaceEnd(u, 0) == 0;
    assert TrimStart(u) == u;
    assert SignSplit(u) == (false, u);
    assert !StartsWith(u, "Infinity") by {
      if |u| >= 8 {
        assert u[..8][0] == u[0] != 'I';
      }
    }
  }

  /** The unsigned decimal prefix of `digits.digits` is all of it. */
  lemma UnsignedOfDecimal(a: string, f: string)
    requires a != [] && AllDigits(a) && f != [] && AllDigits(f)
    ensures UnsignedDecimal(a + "." + f) == Some(DigitsValue(a) as real + FractionValue(f))
  {
    var u := a + "." + f;
    assert forall k :: 0 <= k < |a| ==> u[k] == a[k];
    assert forall k :: |a| + 1 <= k < |u| ==> u[k] == f[k - |a| - 1];
    DigitsEndIs(u, 0, |a|);
    DigitsEndIs(u, |a| + 1, |u|);
    assert u[..|a|] == a && u[|a| + 1..] == f;
    UnsignedWithFraction(u, |a|);
  }

  /** A decimal prefix that takes a fraction and runs to the end of the text, with no exponent. */
  lemma UnsignedWithFraction(u: string, e: nat)
    requires 0 < e && e + 1 < |u| && DigitsEnd(u, 0) == e && u[e] == '.' && DigitsEnd(u, e + 1) == |u|
    ensures UnsignedDecimal(u) == Some(DigitsValue(u[..e]) as real + FractionValue(u[e + 1..]))
  {
    assert ExponentAt(u, |u|) == 0;
    assert Scale(0) == 1.0;
    assert u[e + 1..|u|] == u[e + 1..];
  }

  lemma {:induction false} DigitsEndOfDigits(s: string, i: nat)
    requires i <= |s|
    ensures AllDigits(s) ==> DigitsEnd(s, i) == |s|
    decreases |s| - i
  {
    if i < |s| {
      DigitsEndOfDigits(s, i + 1);
    }
  }

  /** `Math.max(-1, Math.min(1, x))`. */
  function Clamp(x: real): (r: real)
    ensures -1.0 <= r <= 1.0
    ensures -1.0 <= x <= 1.0 ==> r == x
    ensures x > 1.0 ==> r == 1.0
    ensures x < -1.0 ==> r == -1.0
  {
    if x < -1.0 then -1.0 else if x > 1.0 then 1.0 else x
  }

  /** The clamp applied to anything `parseFloat` returns; `Infinity` clamps to the bound of its sign. */
  function ClampNumber(n: Number): (r: real)
    ensures -1.0 <= r <= 1.0
    ensures n.Infinite? ==> r == (if n.negative then -1.0 else 1.0)
  {
    match n
    case Finite(v) => Clamp(v)
    case Infinite(neg) => if neg then -1.0 else 1.0
  }

  /**
   * A sentiment reading: `parseFloat` of `t` clamped to [-1, 1], and 0 when `t` does not
   * parse (the `isNaN` fallback).
   */
  function ReadSentiment(t: string): (r: real)
    ensures -1.0 <= r <= 1.0
    ensures ParseFloat(t).None? ==> r == 0.0
    ensures ParseFloat(t).Some? ==> r == ClampNumber(ParseFloat(t).value)
  {
    match ParseFloat(t)
    case None => 0.0
    case Some(n) => ClampNumber(n)
  }

  /** `DigitsEnd` is the first non-digit at or after the start. */
  lemma {:induction false} DigitsEndIs(t: string, j: nat, e: nat)
    requires j <= e <= |t|
    requires forall k :: j <= k < e ==> IsDigit(t[k])
    requires e == |t| || !IsDigit(t[e])
    ensures DigitsEnd(t, j) == e
    decreases e - j
  {
    if j < e {
      DigitsEndIs(t, j + 1, e);
    }
  }
}
