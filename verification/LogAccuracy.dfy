/**
 How accurate the fixed-point logarithm of Scoring is: it is the exact series
 ln(n/d) = shift * ln 2 + 2(z + z^3/3 + z^5/5 + ...), in thousandths, rounded down.
 */
module LogAccuracy {
  import opened Prelude
  import opened Scoring

  const ONE: real := 4_294_967_296.0

  // ----- the exact series -----

  /** The first terms of t/divisor + tw/(divisor + 2) + tw^2/(divisor + 4) + ... */
  function Sum(t: real, w: real, divisor: nat, count: nat): real
    requires divisor >= 1
    decreases count
  {
    if count == 0 then 0.0 else t / divisor as real + Sum(t * w, w, divisor + 2, count - 1)
  }

  /** The first terms of 2(z + z^3/3 + z^5/5 + ...), whose limit is ln((1 + z)/(1 - z)). */
  function LogSeries(z: real, count: nat): real {
    2.0 * Sum(z, z * z, 1, count)
  }

  /** The thousandfold logarithm of a fraction: ln 2 for each step of the shift, and the series of what is left. */
  function ExactMilli(numerator: nat, denominator: nat, count: nat): real
    requires numerator >= 1 && denominator >= 1
  {
    1_000.0 * (ShiftOf(numerator, denominator) as real * LogSeries(1.0 / 3.0, count)
               + LogSeries(ExactRatio(numerator, denominator), count))
  }

  function ExactRatio(numerator: nat, denominator: nat): real
    requires numerator >= 1 && denominator >= 1
  {
    AlignedPositive(numerator, denominator);
    var (n, d) := Aligned(numerator, denominator);
    (n - d) as real / (n + d) as real
  }

  /** Alignment changes the fraction by the shift's power of two and by nothing else. */
  lemma AlignedExact(numerator: nat, denominator: nat)
    ensures var (n, d) := Aligned(numerator, denominator);
            var shift := ShiftOf(numerator, denominator);
            && (shift >= 0 ==> n * denominator * Pow2(shift) == d * numerator)
            && (shift <= 0 ==> n * denominator == d * numerator * Pow2(-shift))
  {
    hide BitLength;
    var shift := ShiftOf(numerator, denominator);
    if shift < 0 { assert numerator * Pow2(-shift) * denominator == denominator * numerator * Pow2(-shift); }
  }

  function Magnitude(x: real): real {
    if x < 0.0 then -x else x
  }

  // ----- rounding -----

  lemma FloorClose(x: int, d: int)
    requires d > 0
    ensures var q := x as real / d as real;
            (x / d) as real <= q < (x / d) as real + 1.0
  {
    Quotient(x, d);
    var k := x / d;
    assert d as real * k as real == (d * k) as real;
    Divided(x as real, d as real, k as real);
  }

  lemma Divided(x: real, d: real, k: real)
    requires d > 0.0 && d * k <= x < d * k + d
    ensures k <= x / d < k + 1.0
  {
    var q := x / d;
    assert q * d == x;
    if q < k { Grows(d, q, k); }
    if q >= k + 1.0 { Grows(d, k + 1.0, q); }
  }

  lemma Grows(d: real, a: real, b: real)
    requires d > 0.0
    ensures a < b ==> d * a < d * b
    ensures a <= b ==> d * a <= d * b
  {
  }

  lemma QuotientTimes(c: real, t: real, d: real)
    requires d > 0.0
    ensures c * t / d == c * (t / d)
  {
    var q := t / d;
    assert q * d == t;
    assert c * t == c * q * d;
  }

  lemma ProductBound(a: real, b: real, x: real, y: real)
    requires Magnitude(a) <= x && Magnitude(b) <= y
    ensures Magnitude(a * b) <= x * y
  {
    assert Magnitude(a * b) == Magnitude(a) * Magnitude(b);
    assert Magnitude(a) * Magnitude(b) <= x * Magnitude(b);
    assert x * Magnitude(b) <= x * y;
  }

  /** How far two products are apart when their factors are close. */
  lemma ProductsClose(a: real, s: real, t: real, w: real)
    requires Magnitude(a - t) <= 2.0 && Magnitude(s) <= 1.0 / 9.0
    requires Magnitude(t) <= ONE / 3.0 && Magnitude(s - w) <= 2.0 / ONE
    ensures Magnitude(a * s - t * w) <= 8.0 / 9.0
  {
    var u, v := a - t, s - w;
    ProductBound(u, s, 2.0, 1.0 / 9.0);
    ProductBound(t, v, ONE / 3.0, 2.0 / ONE);
    assert a * s - t * w == u * s + t * v;
  }

  /** One step of the loop keeps the term within two units of the exact power. */
  lemma StepClose(term: int, zSquared: int, t: real, w: real)
    requires Magnitude(term as real - t) <= 2.0 && Magnitude(zSquared as real - w * ONE) <= 2.0
    requires Magnitude(t) <= ONE / 3.0 && 0 <= zSquared && 9 * zSquared <= Q32
    ensures Magnitude((term * zSquared / Q32) as real - t * w) <= 2.0
  {
    hide Magnitude;
    var a, s := term as real, zSquared as real / ONE;
    FloorClose(term * zSquared, Q32);
    assert (term * zSquared) as real == a * zSquared as real;
    QuotientTimes(a, zSquared as real, ONE);
    SmallFactor(zSquared, w);
    ProductsClose(a, s, t, w);
    Within((term * zSquared / Q32) as real, a * s, t * w);
  }

  lemma SmallFactor(zSquared: int, w: real)
    requires Magnitude(zSquared as real - w * ONE) <= 2.0 && 0 <= zSquared && 9 * zSquared <= Q32
    ensures Magnitude(zSquared as real / ONE) <= 1.0 / 9.0 && Magnitude(zSquared as real / ONE - w) <= 2.0 / ONE
  {
  }

  lemma Within(floor: real, a: real, b: real)
    requires floor <= a < floor + 1.0 && Magnitude(a - b) <= 1.0
    ensures Magnitude(floor - b) <= 2.0
  {
  }

  lemma QuotientClose(x: int, y: real, divisor: nat)
    requires divisor >= 3 && Magnitude(x as real - y) <= 2.0
    ensures Magnitude((x / divisor) as real - y / divisor as real) <= 2.0
  {
    FloorClose(x, divisor);
    var d := divisor as real;
    var e := x as real - y;
    assert x as real / d - y / d == e / d;
    assert Magnitude(e / d) <= 1.0 by {
      var q := e / d;
      assert q * d == e;
      if q > 1.0 { Grows(d, 1.0, q); }
      if q < -1.0 { Grows(d, q, -1.0); }
    }
    Within((x / divisor) as real, x as real / d, y / d);
  }

  lemma Shrinks(t: real, w: real)
    requires 0.0 <= w <= 1.0 / 9.0
    ensures Magnitude(t * w) <= Magnitude(t) / 9.0
  {
  }

  /** `first` is the exact power after `t`. */
  lemma {:induction false} SeriesClose(term: int, zSquared: int, divisor: nat, count: nat, t: real, w: real,
        first: real)
    requires divisor >= 3 && divisor + 2 * count == 23 && first == t * w
    requires Magnitude(term as real - t) <= 2.0 && Magnitude(zSquared as real - w * ONE) <= 2.0
    requires Magnitude(t) <= ONE / 3.0 && 0 <= zSquared && 9 * zSquared <= Q32 && 0.0 <= w <= 1.0 / 9.0
    ensures Magnitude(Series(term, zSquared, divisor) as real - Sum(first, w, divisor, count)) <= 2.0 * count as real
    decreases count
  {
    hide Magnitude, Sum;
    if count > 0 {
      var next, second := term * zSquared / Q32, first * w;
      StepClose(term, zSquared, t, w);
      QuotientClose(next, first, divisor);
      StaysSmall(t, w);
      SeriesClose(next, zSquared, divisor + 2, count - 1, first, w, second);
      Unfolded(first, w, divisor, count, second);
      Added((next / divisor) as real, first / divisor as real, Series(next, zSquared, divisor + 2) as real,
            Sum(second, w, divisor + 2, count - 1), 2.0 * (count - 1) as real);
      assert Series(term, zSquared, divisor) == next / divisor + Series(next, zSquared, divisor + 2);
    } else {
      NoTerms(first, w, divisor);
    }
  }

  lemma Unfolded(t: real, w: real, divisor: nat, count: nat, next: real)
    requires divisor >= 1 && count > 0 && next == t * w
    ensures Sum(t, w, divisor, count) == t / divisor as real + Sum(next, w, divisor + 2, count - 1)
  {
  }

  lemma NoTerms(t: real, w: real, divisor: nat)
    requires divisor >= 1
    ensures Sum(t, w, divisor, 0) == 0.0 && Magnitude(0.0 - 0.0) == 0.0
  {
  }

  lemma StaysSmall(t: real, w: real)
    requires Magnitude(t) <= ONE / 3.0 && 0.0 <= w <= 1.0 / 9.0
    ensures Magnitude(t * w) <= ONE / 3.0
  {
    Shrinks(t, w);
  }

  lemma Added(a: real, b: real, c: real, d: real, bound: real)
    requires Magnitude(a - b) <= 2.0 && Magnitude(c - d) <= bound
    ensures Magnitude(a + c - (b + d)) <= bound + 2.0
  {
  }

  lemma {:induction false} SumScales(c: real, t: real, scaled: real, w: real, divisor: nat, count: nat)
    requires divisor >= 1 && scaled == c * t
    ensures Sum(scaled, w, divisor, count) == c * Sum(t, w, divisor, count)
    decreases count
  {
    hide Sum;
    if count > 0 {
      var next, scaledNext := t * w, scaled * w;
      assert scaledNext == c * next;
      SumScales(c, next, scaledNext, w, divisor + 2, count - 1);
      Unfolded(t, w, divisor, count, next);
      Unfolded(scaled, w, divisor, count, scaledNext);
      QuotientTimes(c, t, divisor as real);
      Distributes(c, t / divisor as real, Sum(next, w, divisor + 2, count - 1));
    } else {
      NoTerms(t, w, divisor);
      NoTerms(scaled, w, divisor);
    }
  }

  lemma Distributes(c: real, a: real, b: real)
    ensures c * (a + b) == c * a + c * b
  {
  }

  /** The square of a rounded ratio is within two units of the exact square. */
  lemma SquareClose(z: int, x: real, w: real)
    requires Magnitude(z as real - x * ONE) <= 1.0 && Magnitude(x) <= 1.0 / 3.0 && w == x * x
    ensures Magnitude((z * z / Q32) as real - w * ONE) <= 2.0
  {
    hide Magnitude;
    FloorClose(z * z, Q32);
    var a := z as real;
    assert (z * z) as real == a * a;
    SquaresClose(a, x, w);
    Within((z * z / Q32) as real, a * a / ONE, w * ONE);
  }

  lemma SquaresClose(a: real, x: real, w: real)
    requires Magnitude(a - x * ONE) <= 1.0 && Magnitude(x) <= 1.0 / 3.0 && w == x * x
    ensures Magnitude(a * a / ONE - w * ONE) <= 1.0
  {
    var y := x * ONE;
    var u, v := a - y, a + y;
    ProductBound(u, v, 1.0, ONE);
    assert a * a - y * y == u * v;
    assert y * y == w * ONE * ONE;
  }

  /** The rounded total is within 22 units of eleven exact terms. */
  lemma TotalClose(z: int, x: real)
    requires Magnitude(z as real - x * ONE) <= 1.0 && Magnitude(x) <= 1.0 / 3.0
    requires -1_431_655_766 <= z <= 1_431_655_766
    ensures Magnitude(Total(z) as real - ONE * Sum(x, x * x, 1, 11)) <= 22.0
  {
    hide Magnitude, Sum, Total;
    var w := x * x;
    SquareClose(z, x, w);
    SquareSmall(x);
    Scaled(x);
    TotalNear(z, x, x * ONE, w, x * w, x * ONE * w);
  }

  lemma TotalNear(z: int, x: real, y: real, w: real, cube: real, scaled: real)
    requires Magnitude(z as real - y) <= 1.0 && Magnitude(y) <= ONE / 3.0 && -1_431_655_766 <= z <= 1_431_655_766
    requires Magnitude((z * z / Q32) as real - w * ONE) <= 2.0 && 0.0 <= w <= 1.0 / 9.0
    requires y == x * ONE && cube == x * w && scaled == y * w
    ensures Magnitude(Total(z) as real - ONE * Sum(x, w, 1, 11)) <= 22.0
  {
    hide Magnitude, Sum, Series;
    SquareBound(z);
    Closer(z as real - y);
    SeriesClose(z, z * z / Q32, 3, 10, y, w, scaled);
    Unfolded(x, w, 1, 11, cube);
    SumScales(ONE, cube, scaled, w, 3, 10);
    Added(z as real, y, Series(z, z * z / Q32, 3) as real, ONE * Sum(cube, w, 3, 10), 20.0);
  }

  lemma Closer(x: real)
    requires Magnitude(x) <= 1.0
    ensures Magnitude(x) <= 2.0
  {
  }

  lemma SquareSmall(x: real)
    requires Magnitude(x) <= 1.0 / 3.0
    ensures 0.0 <= x * x <= 1.0 / 9.0
  {
    ProductBound(x, x, 1.0 / 3.0, 1.0 / 3.0);
  }

  lemma Scaled(x: real)
    requires Magnitude(x) <= 1.0 / 3.0
    ensures Magnitude(x * ONE) <= ONE / 3.0
  {
  }

  // ----- the terms that are left out -----

  function Power(w: real, k: nat): real {
    if k == 0 then 1.0 else Power(w, k - 1) * w
  }

  lemma {:induction false} SumSplits(t: real, w: real, divisor: nat, a: nat, b: nat, rest: real)
    requires divisor >= 1 && rest == t * Power(w, a)
    ensures Sum(t, w, divisor, a + b) == Sum(t, w, divisor, a) + Sum(rest, w, divisor + 2 * a, b)
    decreases a
  {
    hide Sum;
    if a > 0 {
      var next := t * w;
      PowerShift(t, w, a - 1);
      SumSplits(next, w, divisor + 2, a - 1, b, rest);
      Unfolded(t, w, divisor, a + b, next);
      Unfolded(t, w, divisor, a, next);
    } else {
      NoTerms(t, w, divisor);
    }
  }

  lemma PowerShift(t: real, w: real, k: nat)
    ensures t * Power(w, k + 1) == t * w * Power(w, k)
  {
    assert Power(w, k + 1) == Power(w, k) * w;
  }

  lemma {:induction false} TailBound(t: real, w: real, divisor: nat, count: nat)
    requires divisor >= 1 && 0.0 <= w <= 1.0 / 9.0
    ensures 8.0 * Magnitude(Sum(t, w, divisor, count)) <= 9.0 * Magnitude(t)
    decreases count
  {
    if count > 0 {
      TailBound(t * w, w, divisor + 2, count - 1);
      Shrinks(t, w);
      SmallerQuotient(t, divisor);
    }
  }

  lemma SmallerQuotient(t: real, divisor: nat)
    requires divisor >= 1
    ensures Magnitude(t / divisor as real) <= Magnitude(t)
  {
  }

  lemma {:induction false} PowerSmall(w: real, k: nat)
    requires 0.0 <= w <= 1.0 / 9.0
    ensures 0.0 <= Power(w, k) <= Power(1.0 / 9.0, k)
  {
    if k > 0 {
      PowerSmall(w, k - 1);
      ProductOrder(Power(w, k - 1), Power(1.0 / 9.0, k - 1), w, 1.0 / 9.0);
    }
  }

  lemma ProductOrder(p: real, q: real, w: real, v: real)
    requires 0.0 <= p <= q && 0.0 <= w <= v
    ensures 0.0 <= p * w <= q * v
  {
    assert p * w <= q * w;
    assert q * w <= q * v;
  }

  /** All terms after the eleventh together are less than half a unit. */
  lemma TailSmall(x: real, count: nat)
    requires Magnitude(x) <= 1.0 / 3.0 && count >= 11
    ensures Magnitude(ONE * Sum(x, x * x, 1, count) - ONE * Sum(x, x * x, 1, 11)) <= 0.5
  {
    hide Magnitude, Sum;
    var w := x * x;
    SquareSmall(x);
    PowerSmall(w, 11);
    NinthPower();
    var power := Power(w, 11);
    var t := x * power;
    SumSplits(x, w, 1, 11, count - 11, t);
    assert Magnitude(power) <= 1.0 / 31_381_059_609.0 by { Positive(power); }
    ProductBound(x, power, 1.0 / 3.0, 1.0 / 31_381_059_609.0);
    TailBound(t, w, 23, count - 11);
    Unscaled(Sum(t, w, 23, count - 11), t);
  }

  lemma Positive(x: real)
    requires x >= 0.0
    ensures Magnitude(x) == x
  {
  }

  lemma Unscaled(sum: real, t: real)
    requires 8.0 * Magnitude(sum) <= 9.0 * Magnitude(t) && Magnitude(t) <= 1.0 / 3.0 * (1.0 / 31_381_059_609.0)
    ensures Magnitude(ONE * sum) <= 0.5
  {
  }

  lemma NinthPower()
    ensures Power(1.0 / 9.0, 11) == 1.0 / 31_381_059_609.0
  {
    var n := 1.0 / 9.0;
    assert Power(n, 1) == n;
    assert Power(n, 2) == 1.0 / 81.0;
    assert Power(n, 3) == 1.0 / 729.0;
    assert Power(n, 4) == 1.0 / 6_561.0;
    assert Power(n, 5) == 1.0 / 59_049.0;
    assert Power(n, 6) == 1.0 / 531_441.0;
    assert Power(n, 7) == 1.0 / 4_782_969.0;
    assert Power(n, 8) == 1.0 / 43_046_721.0;
    assert Power(n, 9) == 1.0 / 387_420_489.0;
    assert Power(n, 10) == 1.0 / 3_486_784_401.0;
  }

  // ----- the whole logarithm -----

  /** The constant used for ln 2 is within 55 units of the exact series at a third. */
  lemma LnTwoClose(count: nat)
    requires count >= 11
    ensures Magnitude(LN2_Q32 as real - ONE * LogSeries(1.0 / 3.0, count)) <= 55.0
  {
    var x := 1.0 / 3.0;
    hide Total, LogSeries;
    LogClose(1_431_655_765, x, count);
    TotalOfThird();
  }

  lemma RatioClose(n: nat, d: nat)
    requires 1 <= n < 2 * d && 1 <= d < 2 * n
    ensures var x := (n - d) as real / (n + d) as real;
            Magnitude(Ratio(n, d) as real - x * ONE) <= 1.0 && Magnitude(x) <= 1.0 / 3.0
  {
    var x := (n - d) as real / (n + d) as real;
    FloorClose((n - d) * Q32, n + d);
    assert ((n - d) * Q32) as real == (n - d) as real * ONE;
    assert (n - d) as real * ONE / (n + d) as real == x * ONE;
    assert 3.0 * (n - d) as real <= (n + d) as real && -((n + d) as real) <= 3.0 * (n - d) as real;
    ThirdAtMost((n - d) as real, (n + d) as real);
  }

  lemma ThirdAtMost(a: real, b: real)
    requires b > 0.0 && -b <= 3.0 * a <= b
    ensures Magnitude(a / b) <= 1.0 / 3.0
  {
  }

  /**
   The logarithm is the exact series in thousandths, rounded down, for any number of terms from
   eleven on: it is never higher than the series and never more than one lower, apart from
   1/65536 for each bit of the shift and one more.
   */
  lemma LnMilliAccurate(numerator: nat, denominator: nat, count: nat)
    requires numerator >= 1 && denominator >= 1 && count >= 11
    ensures var error := LnMilli(numerator, denominator) as real - ExactMilli(numerator, denominator, count);
            var slack := (Magnitude(ShiftOf(numerator, denominator) as real) + 1.0) / 65_536.0;
            -1.0 - slack <= error <= slack
  {
    hide Total, Ratio, ShiftOf, Aligned, Sum, Magnitude, LogSeries;
    var (n, d) := Aligned(numerator, denominator);
    AlignedClose(numerator, denominator);
    RatioBound(n, d);
    RatioClose(n, d);
    var x := ExactRatio(numerator, denominator);
    LogClose(Ratio(n, d), x, count);
    LnTwoClose(count);
    var shift, total := ShiftOf(numerator, denominator), Total(Ratio(n, d));
    var ln2, rest := LogSeries(1.0 / 3.0, count), LogSeries(x, count);
    assert LnMilli(numerator, denominator) == (shift * LN2_Q32 + 2 * total) * 1_000 / Q32;
    assert ExactMilli(numerator, denominator, count) == 1_000.0 * (shift as real * ln2 + rest);
    Assembled(shift, total, ln2, rest);
  }

  lemma LogClose(z: int, x: real, count: nat)
    requires Magnitude(z as real - x * ONE) <= 1.0 && Magnitude(x) <= 1.0 / 3.0 && count >= 11
    requires -1_431_655_766 <= z <= 1_431_655_766
    ensures Magnitude(2.0 * Total(z) as real - ONE * LogSeries(x, count)) <= 45.0
  {
    hide Sum, Total;
    TotalClose(z, x);
    TailSmall(x, count);
  }

  /** Adding up: the rounding of ln 2 counts once for each bit of the shift. */
  lemma Assembled(shift: int, total: int, ln2: real, rest: real)
    requires Magnitude(LN2_Q32 as real - ONE * ln2) <= 55.0 && Magnitude(2.0 * total as real - ONE * rest) <= 45.0
    ensures var error := ((shift * LN2_Q32 + 2 * total) * 1_000 / Q32) as real - 1_000.0 * (shift as real * ln2 + rest);
            var slack := (Magnitude(shift as real) + 1.0) / 65_536.0;
            -1.0 - slack <= error <= slack
  {
    hide Magnitude;
    var y := (shift * LN2_Q32 + 2 * total) * 1_000;
    FloorClose(y, Q32);
    var s := shift as real;
    var b := 2.0 * total as real - ONE * rest;
    var p, m := s * LN2_Q32 as real, s * ln2;
    assert (shift * LN2_Q32) as real == p;
    var c := p - ONE * m;
    Spread(s, LN2_Q32 as real, ln2, p, m, c);
    AddedUp((y / Q32) as real, 1_000.0 * (m + rest), c, b, Magnitude(s));
  }

  lemma Spread(s: real, x: real, y: real, p: real, m: real, c: real)
    requires Magnitude(x - ONE * y) <= 55.0 && p == s * x && m == s * y && c == p - ONE * m
    ensures Magnitude(c) <= Magnitude(s) * 55.0
  {
    var a := x - ONE * y;
    var product := s * a;
    ProductBound(s, a, Magnitude(s), 55.0);
    assert Magnitude(product) <= Magnitude(s) * 55.0;
    assert product == c;
  }

  lemma AddedUp(floor: real, exact: real, c: real, b: real, bits: real)
    requires floor <= exact + 1_000.0 * (c + b) / ONE < floor + 1.0
    requires Magnitude(c) <= bits * 55.0 && Magnitude(b) <= 45.0
    ensures -1.0 - (bits + 1.0) / 65_536.0 <= floor - exact <= (bits + 1.0) / 65_536.0
  {
  }

  lemma LastTerm(term: int, zSquared: int)
    ensures Series(term, zSquared, 23) == 0
  {
  }

  lemma OneTerm(term: int, zSquared: int, divisor: nat, next: int, rest: int)
    requires 1 <= divisor <= 21 && next * Q32 <= term * zSquared < (next + 1) * Q32
    requires Series(next, zSquared, divisor + 2) == rest
    ensures Series(term, zSquared, divisor) == next / divisor + rest
  {
    Quotient(term * zSquared, Q32);
  }

  lemma TotalOfThird()
    ensures Magnitude(LN2_Q32 as real - 2.0 * Total(1_431_655_765) as real) <= 10.0
  {
    hide Series;
    LastTerm(0, 477_218_588);
    OneTerm(3, 477_218_588, 21, 0, 0);
    OneTerm(33, 477_218_588, 19, 3, 0);
    OneTerm(299, 477_218_588, 17, 33, 0);
    OneTerm(2_693, 477_218_588, 15, 299, 1);
    OneTerm(24_245, 477_218_588, 13, 2_693, 20);
    OneTerm(218_206, 477_218_588, 11, 24_245, 227);
    OneTerm(1_963_862, 477_218_588, 9, 218_206, 2_431);
    OneTerm(17_674_762, 477_218_588, 7, 1_963_862, 26_676);
    OneTerm(159_072_862, 477_218_588, 5, 17_674_762, 307_227);
    OneTerm(1_431_655_765, 477_218_588, 3, 159_072_862, 3_842_179);
  }
}
