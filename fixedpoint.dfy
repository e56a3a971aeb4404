/** Python's fixed-point number formatting, `f"{v:.{d}f}"`, and the fact that
    `float()` reads back what it prints as the value rounded to d decimals. */
module FixedPoint {
  import opened Builtins

  /** k zeros. */
  function Zeros(k: nat): (z: string)
    ensures |z| == k && AllDigits(z)
  {
    if k == 0 then "" else Zeros(k - 1) + "0"
  }

  /** n / 10^d written with exactly d digits after the decimal point. */
  function PointDigits(n: nat, d: nat): string
  {
    WholePart(n, d) + "." + FracPart(n, d)
  }

  /** The digits of n with leading zeros up to at least d + 1 digits. */
  function Padded(n: nat, d: nat): (s: string)
    ensures |s| > d && AllDigits(s)
  {
    var f := NatToString(n);
    Zeros(if |f| <= d then d + 1 - |f| else 0) + f
  }

  /** The digits of `Padded(n, d)` before the last d: the whole part. */
  function WholePart(n: nat, d: nat): (w: string)
    ensures |w| > 0 && AllDigits(w)
  {
    var s := Padded(n, d);
    s[..|s| - d]
  }

  /** The last d digits of `Padded(n, d)`: the fraction. */
  function FracPart(n: nat, d: nat): (f: string)
    ensures |f| == d && AllDigits(f)
  {
    var s := Padded(n, d);
    s[|s| - d..]
  }

  /** v times 10^d, rounded to the nearest integer, ties upward. */
  function ScaledRound(v: real, d: nat): int
  {
    (v * Pow10(d) as real + 0.5).Floor
  }

  /** a / 10^d. */
  function Unscaled(a: int, d: nat): real
  {
    a as real / Pow10(d) as real
  }

  /** v rounded to d decimals. */
  function RoundTo(v: real, d: nat): real
  {
    Unscaled(ScaledRound(v, d), d)
  }

  /** `f"{v:.{d}f}"` for d >= 1, with ties rounded upward. */
  function FixedFormat(v: real, d: nat): string
  {
    SignedDigits(ScaledRound(v, d), d)
  }

  /** q / 10^d written with its sign and exactly d decimals. */
  function SignedDigits(q: int, d: nat): string
  {
    if q < 0 then "-" + PointDigits(-q, d) else PointDigits(q, d)
  }

  /** Digits, decimal points and minus signs only. */
  predicate NumberChars(s: string)
  {
    forall k :: 0 <= k < |s| ==> IsDigit(s[k]) || s[k] == '.' || s[k] == '-'
  }

  /** Rounding to d decimals moves a value by at most half a unit of the d-th
      decimal. */
  lemma RoundToWithin(v: real, d: nat)
    ensures -HalfUnit(d) <= RoundTo(v, d) - v <= HalfUnit(d)
  {
    var p := Pow10(d) as real;
    FloorNear(v * p);
    DivideError(ScaledRound(v, d) as real, v, p);
  }

  /** Half a unit of the d-th decimal. */
  function HalfUnit(d: nat): real
  {
    0.5 / Pow10(d) as real
  }

  /** Rounding y half up moves it by at most one half. */
  lemma FloorNear(y: real)
    ensures -0.5 < (y + 0.5).Floor as real - y <= 0.5
  {
  }

  /** An error of at most one half in q, divided by p, is at most 0.5 / p. */
  lemma DivideError(q: real, v: real, p: real)
    requires p > 0.0 && -0.5 < q - v * p <= 0.5
    ensures -0.5 / p <= q / p - v <= 0.5 / p
  {
    var x := q - v * p;
    assert q / p - v == x / p;
    assert x / p + 0.5 / p == (x + 0.5) / p;
    assert 0.5 / p - x / p == (0.5 - x) / p;
  }

  /** `float()` reads what `FixedFormat` prints as the value rounded to d decimals. */
  lemma FixedReadsBack(v: real, d: nat)
    requires d >= 1
    ensures |FixedFormat(v, d)| > 0 && NumberChars(FixedFormat(v, d))
    ensures ParseFloat(FixedFormat(v, d)) == Some(RoundTo(v, d))
  {
    SignedReadsBack(ScaledRound(v, d), d);
  }

  /** `SignedDigits(q, d)` reads back as q / 10^d. */
  lemma SignedReadsBack(q: int, d: nat)
    requires d >= 1
    ensures |SignedDigits(q, d)| > 0 && NumberChars(SignedDigits(q, d))
    ensures ParseFloat(SignedDigits(q, d)) == Some(Unscaled(q, d))
  {
    if q < 0 {
      NegativePoint(q, d);
    } else {
      NonNegativePoint(q, d);
    }
  }

  /** A q >= 0 printed with d decimals reads back as q / 10^d. */
  lemma NonNegativePoint(q: nat, d: nat)
    requires d >= 1
    ensures |PointDigits(q, d)| > 0 && NumberChars(PointDigits(q, d))
    ensures ParseFloat(PointDigits(q, d)) == Some(Unscaled(q, d))
  {
    PointValue(q, d);
    PlainRead(PointDigits(q, d), Unscaled(q, d));
  }

  /** A q < 0 printed as '-' and -q with d decimals reads back as q / 10^d. */
  lemma NegativePoint(q: int, d: nat)
    requires d >= 1 && q < 0
    ensures NumberChars("-" + PointDigits(-q, d))
    ensures ParseFloat("-" + PointDigits(-q, d)) == Some(Unscaled(q, d))
  {
    PointValue(-q, d);
    MinusRead(PointDigits(-q, d), Unscaled(-q, d));
    NegateQuotient(q, d);
  }

  /** A number without sign reads as itself. */
  lemma PlainRead(s: string, x: real)
    requires |s| > 0 && IsDigit(s[0]) && ParseUnsignedFloat(s) == Some(x)
    ensures ParseFloat(s) == Some(x)
  {
  }

  /** A number without sign, with a '-' in front, reads as its negation. */
  lemma MinusRead(s: string, x: real)
    requires NumberChars(s) && ParseUnsignedFloat(s) == Some(x)
    ensures NumberChars("-" + s) && ParseFloat("-" + s) == Some(-x)
  {
    var t := "-" + s;
    assert t[1..] == s;
    assert forall k :: 1 <= k < |t| ==> t[k] == s[k - 1];
  }

  lemma NegateQuotient(q: int, d: nat)
    ensures -Unscaled(-q, d) == Unscaled(q, d)
  {
  }

  /** `PointDigits(n, d)` reads back as n / 10^d. */
  lemma PointValue(n: nat, d: nat)
    requires d >= 1
    ensures |PointDigits(n, d)| > 0 && IsDigit(PointDigits(n, d)[0]) && NumberChars(PointDigits(n, d))
    ensures ParseUnsignedFloat(PointDigits(n, d)) == Some(Unscaled(n, d))
  {
    ReadPoint(WholePart(n, d), FracPart(n, d));
    PointDecimal(n, d);
  }

  /** The whole part and the fraction, read as a decimal, are n / 10^d. */
  lemma PointDecimal(n: nat, d: nat)
    ensures Decimal(WholePart(n, d), FracPart(n, d)) == Unscaled(n, d)
  {
    PartsValue(n, d);
    ShiftPoint(DigitsValue(WholePart(n, d)), DigitsValue(FracPart(n, d)), Pow10(d), n);
  }

  /** The whole part and the fraction make up n. */
  lemma PartsValue(n: nat, d: nat)
    ensures DigitsValue(WholePart(n, d)) * Pow10(d) + DigitsValue(FracPart(n, d)) == n
  {
    var s := Padded(n, d);
    PaddedValue(n, d);
    assert WholePart(n, d) + FracPart(n, d) == s;
    DigitsConcat(WholePart(n, d), FracPart(n, d));
  }

  /** Leading zeros leave the value n. */
  lemma PaddedValue(n: nat, d: nat)
    ensures DigitsValue(Padded(n, d)) == n
  {
    var f := NatToString(n);
    ZerosValue(if |f| <= d then d + 1 - |f| else 0, f);
    DigitsOfNat(n);
  }

  /** Digits, a point and digits read as the whole part plus the fraction. */
  lemma ReadPoint(ip: string, fp: string)
    requires |ip| > 0 && AllDigits(ip) && AllDigits(fp)
    ensures IsDigit((ip + "." + fp)[0]) && NumberChars(ip + "." + fp)
    ensures ParseUnsignedFloat(ip + "." + fp) == Some(Decimal(ip, fp))
  {
    var s := ip + "." + fp;
    PointChars(ip, fp);
    NoLetterE(s);
    FirstPoint(s, |ip|);
    MantissaAt(s, |ip|);
  }

  lemma PointChars(ip: string, fp: string)
    requires |ip| > 0 && AllDigits(ip) && AllDigits(fp)
    ensures var s := ip + "." + fp;
            IsDigit(s[0]) && NumberChars(s) && s[|ip|] == '.' && s[..|ip|] == ip && s[|ip| + 1..] == fp
  {
    var s := ip + "." + fp;
    assert forall k :: 0 <= k < |s| ==>
      s[k] == (if k < |ip| then ip[k] else if k == |ip| then '.' else fp[k - |ip| - 1]);
  }

  /** Without an 'e' or 'E', `float()` reads the whole string as a mantissa. */
  lemma NoLetterE(s: string)
    requires NumberChars(s)
    ensures ParseUnsignedFloat(s) == ParseMantissa(s)
  {
    assert FindChar(s, 'e').None? && FindChar(s, 'E').None?;
  }

  /** The first '.' of s is at k. */
  lemma FirstPoint(s: string, k: nat)
    requires k < |s| && s[k] == '.' && forall j :: 0 <= j < k ==> s[j] != '.'
    ensures FindChar(s, '.') == Some(k)
  {
  }

  /** A mantissa whose first '.' follows the digits ip and precedes the
      digits fp: the whole part plus the fraction. */
  lemma MantissaAt(s: string, k: nat)
    requires FindChar(s, '.') == Some(k) && k > 0 && AllDigits(s[..k]) && AllDigits(s[k + 1..])
    ensures ParseMantissa(s) == Some(Decimal(s[..k], s[k + 1..]))
  {
  }

  /** a + b / p is n / p when n is a * p + b. */
  lemma ShiftPoint(a: nat, b: nat, p: nat, n: nat)
    requires p > 0 && a * p + b == n
    ensures a as real + b as real / p as real == n as real / p as real
  {
    assert (a * p + b) as real == a as real * p as real + b as real;
    assert (a as real * p as real + b as real) / p as real == a as real + b as real / p as real;
  }

  lemma TimesTen(a: nat, b: nat)
    ensures (a * b) * 10 == a * (10 * b)
  {
  }

  /** The value of two digit strings written one after the other. */
  lemma {:induction false} DigitsConcat(x: string, y: string)
    requires AllDigits(x) && AllDigits(y)
    ensures AllDigits(x + y)
    ensures DigitsValue(x + y) == DigitsValue(x) * Pow10(|y|) + DigitsValue(y)
    decreases |y|
  {
    var z := x + y;
    assert forall k :: 0 <= k < |z| ==> z[k] == (if k < |x| then x[k] else y[k - |x|]);
    if |y| == 0 {
      assert z == x;
    } else {
      var y' := y[..|y| - 1];
      assert z[..|z| - 1] == x + y';
      DigitsConcat(x, y');
      var c := y[|y| - 1] as int - '0' as int;
      assert DigitsValue(z) == DigitsValue(x + y') * 10 + c;
      assert DigitsValue(y) == DigitsValue(y') * 10 + c;
      assert Pow10(|y|) == 10 * Pow10(|y'|);
      TimesTen(DigitsValue(x), Pow10(|y'|));
    }
  }

  /** Leading zeros do not change the value of a digit string. */
  lemma {:induction false} ZerosValue(k: nat, s: string)
    requires AllDigits(s)
    ensures DigitsValue(Zeros(k) + s) == DigitsValue(s)
    decreases |s|
  {
    var t := Zeros(k) + s;
    if |s| == 0 {
      assert t == Zeros(k);
      ZerosZero(k);
    } else {
      assert t[..|t| - 1] == Zeros(k) + s[..|s| - 1];
      ZerosValue(k, s[..|s| - 1]);
    }
  }

  lemma {:induction false} ZerosZero(k: nat)
    ensures DigitsValue(Zeros(k)) == 0
  {
    if k > 0 {
      assert Zeros(k)[..k - 1] == Zeros(k - 1);
      ZerosZero(k - 1);
    }
  }
}
