/** The value of a stored double: the binary64 interchange format of section 3.4 of IEEE Std 754-2008,
    read as an exact real. */
module Doubles {
  import opened Words
  import opened Records

  datatype Num = NaN | NegativeInfinity | PositiveInfinity | Fin(r: real)

  function Power(e: int): (p: real)
    ensures p > 0.0
    decreases if e < 0 then -e else e
  {
    if e == 0 then 1.0 else if e > 0 then 2.0 * Power(e - 1) else Power(e + 1) / 2.0
  }

  function Value(b: double): Num {
    var negative := b >= 0x8000_0000_0000_0000;
    var exponent := b / 0x10_0000_0000_0000 % 2048;
    var mantissa := b % 0x10_0000_0000_0000;
    if exponent == 2047 then
      if mantissa != 0 then NaN else if negative then NegativeInfinity else PositiveInfinity
    else
      var significand := if exponent == 0 then mantissa else 0x10_0000_0000_0000 + mantissa;
      var scale := (if exponent == 0 then 1 else exponent) - 1075;
      var magnitude := significand as real * Power(scale);
      Fin(if negative then -magnitude else magnitude)
  }

  /** `a < b` on doubles; false when either is not a number. */
  predicate Less(a: Num, b: Num) {
    match (a, b)
    case (NaN, _) => false
    case (_, NaN) => false
    case (Fin(x), Fin(y)) => x < y
    case (NegativeInfinity, _) => b != NegativeInfinity
    case (_, PositiveInfinity) => a != PositiveInfinity
    case _ => false
  }

  /** `0 <= x < 1` and `0 <= x <= 1`, as the policy checks write them. */
  predicate IsFraction(b: double) { Value(b).Fin? && 0.0 <= Value(b).r < 1.0 }
  predicate IsConfidence(b: double) { Value(b).Fin? && 0.0 <= Value(b).r <= 1.0 }

  lemma ZeroIsFraction(zero: double)
    requires zero == 0
    ensures IsFraction(zero) && IsConfidence(zero)
  {
  }

  // ---------- The interchange format ----------

  lemma PowerNext(e: int)
    ensures Power(e + 1) == 2.0 * Power(e)
    ensures Power(0) == 1.0
  {
  }

  lemma Regroup(x: real, y: real)
    ensures 2.0 * (x * y) == (2.0 * x) * y
  {
  }

  lemma {:induction false} PowerDoubles(e: int, n: nat)
    ensures Power(e + n) == Power(n) * Power(e)
    decreases n
  {
    hide Power;
    PowerNext(e + n - 1);
    if n > 0 {
      PowerDoubles(e, n - 1);
      PowerNext(n - 1);
      Regroup(Power(n - 1), Power(e));
    }
  }

  lemma Power52()
    ensures Power(52) == 4503599627370496.0
  {
    assert Power(4) == 16.0;
    PowerDoubles(4, 4);
    PowerDoubles(5, 8);
    PowerDoubles(13, 13);
    PowerDoubles(26, 26);
  }

  /** The number of the format with sign `s`, biased exponent `e` and trailing significand `t`: one, or for
      the least exponent zero, and `t` parts of 2^52, times two to the unbiased exponent. */
  lemma ValueExactly(b: double, s: nat, e: nat, t: nat)
    requires s <= 1 && e <= 2047 && t < 0x10_0000_0000_0000
    requires b == s * 0x8000_0000_0000_0000 + e * 0x10_0000_0000_0000 + t
    ensures e == 2047 ==> Value(b) == if t != 0 then NaN else if s == 1 then NegativeInfinity else PositiveInfinity
    ensures var sign, fraction := if s == 1 then -1.0 else 1.0, t as real / 4503599627370496.0;
            && (1 <= e <= 2046 ==> Value(b) == Fin(sign * ((1.0 + fraction) * Power(e - 1023))))
            && (e == 0 ==> Value(b) == Fin(sign * (fraction * Power(-1022))))
  {
    hide Power;
    Power52();
    FieldsOf(b, s, e, t);
    if e < 2047 {
      var scale := (if e == 0 then 1 else e) - 1075;
      PowerDoubles(scale, 52);
      var significand := if e == 0 then t else 0x10_0000_0000_0000 + t;
      Magnitude(significand, t, e == 0, Power(scale), Power(scale + 52));
      Signed(s, significand as real * Power(scale));
    }
  }

  lemma FieldsOf(b: double, s: nat, e: nat, t: nat)
    requires s <= 1 && e <= 2047 && t < 0x10_0000_0000_0000
    requires b == s * 0x8000_0000_0000_0000 + e * 0x10_0000_0000_0000 + t
    ensures (b >= 0x8000_0000_0000_0000) == (s == 1)
    ensures b / 0x10_0000_0000_0000 % 2048 == e && b % 0x10_0000_0000_0000 == t
  {
    assert b == (s * 2048 + e) * 0x10_0000_0000_0000 + t;
    assert b / 0x10_0000_0000_0000 == s * 2048 + e;
  }

  lemma Magnitude(significand: nat, t: nat, subnormal: bool, low: real, high: real)
    requires high == 4503599627370496.0 * low
    requires significand == if subnormal then t else 0x10_0000_0000_0000 + t
    ensures significand as real * low ==
              ((if subnormal then 0.0 else 1.0) + t as real / 4503599627370496.0) * high
  {
    var f := t as real / 4503599627370496.0;
    assert f * 4503599627370496.0 == t as real;
    if subnormal {
      assert f * high == f * 4503599627370496.0 * low;
    } else {
      assert significand as real == (1.0 + f) * 4503599627370496.0;
      assert (1.0 + f) * high == (1.0 + f) * 4503599627370496.0 * low;
    }
  }

  lemma Signed(s: nat, x: real)
    requires s <= 1
    ensures (if s == 1 then -x else x) == (if s == 1 then -1.0 else 1.0) * x
  {
  }

  /** The order of the numbers: strict, total among what is a number, with the infinities at its ends. */
  lemma LessOrders(a: Num, b: Num, c: Num)
    ensures Less(a, b) && Less(b, c) ==> Less(a, c)
    ensures Less(a, b) ==> !Less(b, a) && a != NaN && b != NaN
    ensures a != NaN && b != NaN && a != b ==> Less(a, b) || Less(b, a)
    ensures a.Fin? ==> Less(NegativeInfinity, a) && Less(a, PositiveInfinity)
    ensures a.Fin? && b.Fin? ==> (Less(a, b) <==> a.r < b.r)
  {
  }
}
