/**
 * Number to string conversions of the JavaScript runtime: `String(n)`,
 * `padStart(2, '0')`, `parseInt(s, 10)`, `parseFloat(s)` and `Math.round`
 * of a quotient.
 */
module Numbers {
  import opened Wrappers
  import opened Text

  function DigitChar(d: nat): (c: char)
    requires d < 10
    ensures IsDigit(c)
  {
    ('0' as int + d) as char
  }

  function DigitValue(c: char): (d: nat)
    requires IsDigit(c)
    ensures d < 10 && DigitChar(d) == c
  {
    c as int - '0' as int
  }

  predicate AllDigits(s: string) {
    forall k :: 0 <= k < |s| ==> IsDigit(s[k])
  }

  /** The value of a string of decimal digits. */
  function DigitsValue(s: string): nat
    requires AllDigits(s)
  {
    if |s| == 0 then 0 else DigitsValue(s[..|s| - 1]) * 10 + DigitValue(s[|s| - 1])
  }

  /** `String(n)` for a non-negative integer: its decimal digits, without leading zeros. */
  function NatToString(n: nat): (r: string)
    ensures |r| >= 1 && AllDigits(r)
    ensures n >= 10 <==> |r| >= 2
    ensures |r| >= 2 ==> r[0] != '0'
  {
    if n < 10 then [DigitChar(n)] else NatToString(n / 10) + [DigitChar(n % 10)]
  }

  /** `String(i)` for any integer. */
  function IntToString(i: int): string {
    if i < 0 then "-" + NatToString(-i) else NatToString(i)
  }

  /** Printing and reading back decimal digits is the identity. */
  lemma {:induction false} DigitsOfNatToString(n: nat)
    ensures DigitsValue(NatToString(n)) == n
  {
    if n >= 10 {
      DigitsOfNatToString(n / 10);
      var r := NatToString(n);
      assert r[..|r| - 1] == NatToString(n / 10);
    } else {
      assert NatToString(n)[..0] == "";
    }
  }

  /** `s.padStart(2, '0')`. */
  function PadStart2(s: string): (r: string)
    ensures |s| >= 2 ==> r == s
    ensures |s| < 2 ==> |r| == 2 && r[2 - |s|..] == s && forall k :: 0 <= k < 2 - |s| ==> r[k] == '0'
  {
    if |s| >= 2 then s else if |s| == 1 then "0" + s else "00"
  }

  /** End of the run of digits that starts at `i`. */
  function DigitRunEnd(s: string, i: nat): (j: nat)
    requires i <= |s|
    ensures i <= j <= |s|
    ensures forall k :: i <= k < j ==> IsDigit(s[k])
    ensures j < |s| ==> !IsDigit(s[j])
    decreases |s| - i
  {
    if i < |s| && IsDigit(s[i]) then DigitRunEnd(s, i + 1) else i
  }

  /**
   * `parseInt(s, 10)`: leading white space, an optional sign and the longest
   * run of digits; `None` is `NaN` (no digit where the number should start).
   */
  function ParseInt(s: string): Option<int> {
    var a := SkipWs(s, 0);
    var b := if a < |s| && (s[a] == '-' || s[a] == '+') then a + 1 else a;
    var e := DigitRunEnd(s, b);
    if e == b then None
    else
      var v: int := DigitsValue(s[b..e]);
      Some(if a < |s| && s[a] == '-' then -v else v)
  }

  /** `parseInt` of a string that starts with digits reads exactly those digits. */
  lemma ParseIntDigitPrefix(d: string, rest: string)
    requires |d| > 0 && AllDigits(d)
    requires |rest| > 0 ==> !IsDigit(rest[0])
    ensures ParseInt(d + rest) == Some(DigitsValue(d))
  {
    var s := d + rest;
    assert SkipWs(s, 0) == 0 by { assert IsDigit(s[0]); }
    var e := DigitRunEnd(s, 0);
    assert forall k :: 0 <= k < |d| ==> IsDigit(s[k]);
    assert |d| < |s| ==> !IsDigit(s[|d|]);
    assert e == |d|;
    assert s[0..|d|] == d;
  }

  /** Reading back a printed natural number gives it back. */
  lemma ParseIntOfNatToString(n: nat)
    ensures ParseInt(NatToString(n)) == Some(n)
  {
    DigitsOfNatToString(n);
    ParseIntDigitPrefix(NatToString(n), "");
    assert NatToString(n) + "" == NatToString(n);
  }

  function Pow10(n: nat): (p: nat)
    ensures p >= 1
  {
    if n == 0 then 1 else 10 * Pow10(n - 1)
  }

  /** The value of digits written after a decimal point. */
  function FractionValue(f: string): (v: real)
    requires AllDigits(f)
    ensures 0.0 <= v
  {
    DigitsValue(f) as real / Pow10(|f|) as real
  }

  /**
   * `parseFloat(s)`: leading white space, an optional sign, then the longest
   * prefix of the form `d+`, `d+.`, `d+.d+` or `.d+`; `None` is `NaN`.
   * Exponents and `Infinity` are not part of this model.
   */
  function ParseFloat(s: string): Option<real> {
    var a := SkipWs(s, 0);
    var neg := a < |s| && s[a] == '-';
    var b := if a < |s| && (s[a] == '-' || s[a] == '+') then a + 1 else a;
    match UnsignedAt(s, b)
    case Some(v) => Some(if neg then -v else v)
    case None => None
  }

  /** The longest prefix at `b` of the form `d+`, `d+.`, `d+.d+` or `.d+`, as a value. */
  function UnsignedAt(s: string, b: nat): (r: Option<real>)
    requires b <= |s|
    ensures r.Some? ==> r.value >= 0.0
  {
    var e := DigitRunEnd(s, b);
    var hasPoint := e < |s| && s[e] == '.';
    var f := if hasPoint then DigitRunEnd(s, e + 1) else e;
    if e == b && (!hasPoint || f == e + 1) then None
    else
      var frac := if hasPoint then s[e + 1..f] else "";
      assert AllDigits(frac) by {
        forall k | 0 <= k < |frac| ensures IsDigit(frac[k]) { assert frac[k] == s[e + 1 + k]; }
      }
      Some(DigitsValue(s[b..e]) as real + FractionValue(frac))
  }

  /** A string of digits only parses to the value of those digits. */
  lemma ParseFloatOfDigits(s: string)
    requires |s| > 0 && AllDigits(s)
    ensures ParseFloat(s) == Some(DigitsValue(s) as real)
  {
    ParseFloatOfUnsigned(s);
    DigitRunEndOfDigits(s);
    UnsignedOfDigitRun(s, 0, |s|);
    assert s[0..|s|] == s;
  }

  /** A number that starts with a digit has no sign to read. */
  lemma ParseFloatOfUnsigned(s: string)
    requires |s| > 0 && IsDigit(s[0])
    ensures ParseFloat(s) == UnsignedAt(s, 0)
  {
    assert SkipWs(s, 0) == 0;
  }

  /** Digits not followed by a point are read as their value. */
  lemma UnsignedOfDigitRun(s: string, b: nat, e: nat)
    requires b <= |s| && b < e == DigitRunEnd(s, b) && (e < |s| ==> s[e] != '.')
    ensures UnsignedAt(s, b) == Some(DigitsValue(s[b..e]) as real)
  {
    assert FractionValue("") == 0.0 by { assert DigitsValue("") == 0; }
  }

  lemma DigitRunEndOfDigits(s: string)
    requires AllDigits(s)
    ensures DigitRunEnd(s, 0) == |s|
  {
  }

  /** A string that starts with a digit parses to a non-negative number. */
  lemma ParseFloatOfDigitStart(s: string)
    requires |s| > 0 && IsDigit(s[0])
    ensures ParseFloat(s).Some? && ParseFloat(s).value >= 0.0
  {
    assert SkipWs(s, 0) == 0;
    assert DigitRunEnd(s, 0) > 0;
  }

  /**
   * `Math.round(num / den)` computed exactly: the integer nearest to the
   * quotient, halves rounded up.
   */
  function RoundDiv(num: int, den: nat): (r: int)
    requires den > 0
    ensures 2 * den * r <= 2 * num + den < 2 * den * (r + 1)
  {
    (2 * num + den) / (2 * den)
  }
}
