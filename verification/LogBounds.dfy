/** The logarithm lies between 1 - d/n and n/d - 1, as the natural logarithm does. */
module LogBounds {
  import opened Prelude
  import opened Scoring
  import opened LogAccuracy
  import opened LogDoubling

  // ----- the series below its bound -----

  lemma {:induction false} TermsUnder(z: real, count: nat)
    requires 0.0 <= z
    ensures Terms(z, count) <= z * Slope(z, count)
    ensures count >= 1 ==> z <= Terms(z, count)
  {
    hide Power;
    if count > 0 {
      var k, m := count - 1, 2 * count - 1;
      TermsUnder(z, k);
      NextPower(z, m);
      PowerRises(0.0, z, m);
      PowerRises(z, z, m);
      var p, below := Power(z, m), Power(z, m - 1);
      assert z * (Slope(z, k) + below) == z * Slope(z, k) + below * z;
      SmallerPart(p, m as real);
      if k == 0 { NoPower(z); }
    }
  }

  lemma SmallerPart(p: real, m: real)
    requires p >= 0.0 && m >= 1.0
    ensures 0.0 <= p / m <= p && (m == 1.0 ==> p / m == p)
  {
  }

  /** The series is at most z/(1 - z). */
  lemma SeriesUnder(z: real)
    requires Inside(z)
    ensures Series11(z) * (1.0 - z) <= z
  {
    hide Terms, Power, Slope;
    if z >= 0.0 {
      TermsUnder(z, 11);
      SlopeIs(z, 11);
      PowerTiny(z);
      UnderPositive(z, Series11(z), Slope(z, 11), Power(z, 22));
    } else {
      var w := -z;
      TermsUnder(w, 11);
      TermsNegate(w, 11);
      assert -w == z;
      assert Series11(z) <= z;
      assert Series11(z) * (1.0 - z) <= z * (1.0 - z);
      assert z * (1.0 - z) == z - z * z;
      assert z * z >= 0.0;
    }
  }

  lemma UnderPositive(z: real, s: real, slope: real, p: real)
    requires 0.0 <= z <= 1.0 / 3.0 && s <= z * slope && slope * (1.0 - z * z) == 1.0 - p && 0.0 <= p
    ensures s * (1.0 - z) <= z
  {
    var d := 1.0 - z;
    var t := slope * d;
    assert t * (1.0 + z) == 1.0 - p;
    AtMostOne(t, z);
    ProductPositive(z, 1.0 - t);
    ProductPositive(z * slope - s, d);
    assert z * slope * d == z * t;
  }

  lemma AtMostOne(t: real, z: real)
    requires t * (1.0 + z) <= 1.0 && 0.0 <= z
    ensures t <= 1.0
  {
    if t > 1.0 { ProductPositive(t, z); }
  }

  // ----- ratios near one -----

  /** For ratios between a half and two the shift, whatever it is, changes the logarithm only by rounding. */
  lemma NearOne(n: nat, d: nat)
    requires 1 <= n < 2 * d && 1 <= d < 2 * n
    ensures Exact(n, d) <= 2_000.0 * Series11((n - d) as real / (n + d) as real) + 1.0 / 150.0
  {
    hide Series11, BitLength, Pow2, Lower, Doubled;
    var s := ShiftOf(n, d);
    NearShift(n, d);
    AlignedForm(n, d);
    OnePower();
    var z := (n - d) as real / (n + d) as real;
    if s == 1 {
      var b := (n - 2 * d) as real / (n + 2 * d) as real;
      HalfArgument(n, d, b);
      DoublingAddsLn2(b);
      assert ExactRatio(n, d) == b;
    } else if s == -1 {
      var b := (2 * n - 2 * d) as real / (2 * n + 2 * d) as real;
      HalfArgument(2 * n, d, b);
      DoublingAddsLn2(b);
      HalvedRatio(n, d, 2 * n);
      assert b == z;
      assert ExactRatio(n, d) == (2 * n - d) as real / (2 * n + d) as real;
    } else {
      assert ExactRatio(n, d) == z;
    }
  }

  lemma OnePower()
    ensures Pow2(0) == 1 && Pow2(1) == 2
  {
    Pow2Doubles(1);
  }

  lemma NearShift(n: nat, d: nat)
    requires 1 <= n < 2 * d && 1 <= d < 2 * n
    ensures -1 <= ShiftOf(n, d) <= 1 && (ShiftOf(n, d) == 1 ==> d <= n) && (ShiftOf(n, d) == -1 ==> n <= d)
  {
    hide BitLength;
    BitLengthRises(n, 2 * d);
    BitLengthRises(d, 2 * n);
    BitLengthDoubles(n);
    BitLengthDoubles(d);
    if n < d { BitLengthRises(n, d); }
    if d < n { BitLengthRises(d, n); }
  }

  lemma BoundNearOne(n: nat, d: nat)
    requires 1 <= n < 2 * d && 1 <= d < 2 * n
    ensures Exact(n, d) <= 1_000.0 * (n as real / d as real - 1.0) + 1.0 / 150.0
  {
    hide Series11, Exact, Inside;
    NearOne(n, d);
    RatioClose(n, d);
    var z := (n - d) as real / (n + d) as real;
    InsideOf(z);
    SeriesUnder(z);
    UnderRatio(n as real, d as real, (n - d) as real, (n + d) as real, z, Series11(z));
  }

  lemma InsideOf(z: real)
    requires Magnitude(z) <= 1.0 / 3.0
    ensures Inside(z)
  {
  }

  lemma UnderRatio(n: real, d: real, p: real, q: real, z: real, s: real)
    requires n > 0.0 && d > 0.0 && p == n - d && q == n + d && z == p / q && s * (1.0 - z) <= z
    ensures 2.0 * s <= n / d - 1.0
  {
    assert z * q == p;
    assert (1.0 - z) * q == 2.0 * d;
    assert s * (1.0 - z) * q <= z * q;
    assert s * (1.0 - z) * q == s * (2.0 * d);
    var x := n / d - 1.0;
    assert x * d == p;
    assert 2.0 * s * d <= x * d;
    Grows(d, x, 2.0 * s);
  }

  // ----- every ratio -----

  lemma Ln2Between()
    ensures 693.1 <= 2_000.0 * Series11(1.0 / 3.0) <= 693.2
  {
    hide Series11, LogSeries;
    LnTwoClose(11);
    SeriesTwice(1.0 / 3.0);
  }

  /** Exchanging numerator and denominator changes the sign. */
  lemma Exchanged(n: nat, d: nat)
    requires n >= 1 && d >= 1
    ensures Exact(d, n) == -Exact(n, d)
  {
    hide Series11, ShiftOf, ExactRatio, Exact;
    RatioExchanged(n, d);
    var s, t, l := ShiftOf(n, d) as real, ShiftOf(d, n) as real, Series11(1.0 / 3.0);
    SeriesOdd(ExactRatio(n, d), ExactRatio(d, n));
    ExactSum(n, d, s, l);
    ExactSum(d, n, t, l);
    Turned(s, t, l);
  }

  lemma Turned(s: real, t: real, l: real)
    requires t == -s
    ensures t * l == -(s * l)
  {
  }

  lemma RatioExchanged(n: nat, d: nat)
    requires n >= 1 && d >= 1
    ensures ShiftOf(d, n) == -ShiftOf(n, d) && ExactRatio(d, n) == -ExactRatio(n, d)
  {
    hide BitLength, Aligned;
    AlignedExchanged(n, d);
    AlignedPositive(n, d);
    var (a, y) := Aligned(n, d);
    Opposed((a - y) as real, (y - a) as real, (a + y) as real);
  }

  lemma AlignedExchanged(n: nat, d: nat)
    ensures Aligned(d, n) == (Aligned(n, d).1, Aligned(n, d).0)
  {
    hide BitLength, Pow2;
  }

  lemma Opposed(p: real, q: real, m: real)
    requires m > 0.0 && q == -p
    ensures q / m == -(p / m)
  {
  }

  lemma SeriesOdd(z: real, w: real)
    requires w == -z
    ensures Series11(w) == -Series11(z)
  {
    hide Terms;
    TermsNegate(z, 11);
  }

  lemma DoubledNumerator(n: nat, d: nat)
    requires n >= 1 && d >= 1
    ensures Exact(2 * n, d) == Exact(n, d) + 2_000.0 * Series11(1.0 / 3.0)
  {
    hide Series11, Exact;
    Exchanged(2 * n, d);
    Exchanged(n, d);
    DoubledDenominator(d, n);
  }

  /** The logarithm never exceeds n/d - 1. */
  lemma {:induction false} ExactUnder(n: nat, d: nat)
    requires n >= 1 && d >= 1
    ensures Exact(n, d) <= 1_000.0 * (n as real / d as real - 1.0) + 1.0 / 150.0
    decreases if n >= d then n - d else d - n
  {
    hide Series11, Exact;
    Ln2Between();
    if n >= 2 * d {
      DoubledDenominator(n, d);
      ExactUnder(n, 2 * d);
      Halves(n as real, d as real);
    } else if d >= 2 * n {
      DoubledNumerator(n, d);
      ExactUnder(2 * n, d);
      Twice(n as real, d as real);
    } else {
      BoundNearOne(n, d);
    }
  }

  lemma Halves(n: real, d: real)
    requires d > 0.0 && n >= 2.0 * d
    ensures n / (2.0 * d) == n / d / 2.0 && n / d >= 2.0
  {
    var x := n / d;
    assert x * d == n;
    assert x / 2.0 * (2.0 * d) == n;
    if x < 2.0 { Grows(d, x, 2.0); }
  }

  lemma Twice(n: real, d: real)
    requires n > 0.0 && d >= 2.0 * n
    ensures 2.0 * n / d == 2.0 * (n / d) && n / d <= 0.5
  {
    var x := n / d;
    assert x * d == n;
    if x > 0.5 { Grows(d, 0.5, x); }
  }

  /** 1 - d/n <= ln(n/d) <= n/d - 1, in thousandths and up to rounding, for numbers of up to 60000 bits. */
  lemma LnMilliBetween(n: nat, d: nat)
    requires n >= 1 && d >= 1 && BitLength(n) <= 60_000 && BitLength(d) <= 60_000
    ensures LnMilli(n, d) as real <= 1_000.0 * (n as real / d as real - 1.0) + 1.0
    ensures LnMilli(n, d) as real >= 1_000.0 * (1.0 - d as real / n as real) - 2.0
  {
    hide LnMilli, Exact, ExactMilli, BitLength;
    LnMilliAccurate(n, d, 11);
    ExactIs(n, d);
    ExactUnder(n, d);
    ExactUnder(d, n);
    Exchanged(n, d);
    BitLengthBounds(n);
    BitLengthBounds(d);
    assert Magnitude(ShiftOf(n, d) as real) <= 60_000.0;
  }
}
