/**
 The integer arithmetic of candidate scoring (retrieval/candidates.py): a fixed-point
 logarithm and the BM25 lexical signal. Every division here has a positive divisor, where
 Python's floor and Dafny's quotient agree.
 */
module Scoring {
  import opened Prelude

  const Q32: int := 4_294_967_296
  const LN2_Q32: int := 2_977_044_472

  // ----- division and products -----

  lemma Quotient(x: int, d: int)
    requires d > 0
    ensures d * (x / d) <= x < d * (x / d) + d
  {
  }

  lemma Times(d: int, a: int, b: int)
    requires d >= 0 && a <= b
    ensures d * a <= d * b
  {
  }

  lemma QuotientMonotone(x: int, y: int, d: int)
    requires d > 0 && x <= y
    ensures x / d <= y / d
  {
    Quotient(x, d);
    Quotient(y, d);
    if x / d > y / d { Times(d, y / d + 1, x / d); }
  }

  /** Fractions compare by cross multiplication, and so do their floors. */
  lemma FractionMonotone(a: int, b: int, c: int, d: int)
    requires b > 0 && d > 0 && a * d <= c * b
    ensures a / b <= c / d
  {
    var p, q := a / b, c / d;
    Quotient(a, b);
    Quotient(c, d);
    assert d * (b * p) == b * d * p && b * (d * q + d - 1) == b * d * (q + 1) - b;
    if p > q {
      Times(d, b * p, a);
      Times(b, c, d * q + d - 1);
      Times(b * d, q + 1, p);
    }
  }

  // ----- the logarithm -----

  function BitLength(n: nat): nat {
    if n == 0 then 0 else 1 + BitLength(n / 2)
  }

  function Pow2(k: nat): (p: nat)
    ensures p >= 1
  {
    if k == 0 then 1 else 2 * Pow2(k - 1)
  }

  lemma {:induction false} BitLengthBounds(n: nat)
    requires n >= 1
    ensures BitLength(n) >= 1 && Pow2(BitLength(n) - 1) <= n < Pow2(BitLength(n))
  {
    if n > 1 { BitLengthBounds(n / 2); }
  }

  lemma {:induction false} Pow2Sum(a: nat, b: nat)
    ensures Pow2(a + b) == Pow2(a) * Pow2(b)
  {
    if a > 0 { Pow2Sum(a - 1, b); }
  }

  /** The series terms after `term`, added up: z^3/3 + z^5/5 + ... with every step floored. */
  function Series(term: int, zSquared: int, divisor: nat): int
    requires divisor >= 1
    decreases 23 - divisor
  {
    if divisor > 21 then 0
    else
      var next := term * zSquared / Q32;
      next / divisor + Series(next, zSquared, divisor + 2)
  }

  function Total(z: int): int {
    z + Series(z, z * z / Q32, 3)
  }

  function ShiftOf(numerator: nat, denominator: nat): int {
    BitLength(numerator) - BitLength(denominator)
  }

  /** Numerator and denominator brought to the same bit length. */
  function Aligned(numerator: nat, denominator: nat): (r: (nat, nat)) {
    var shift := ShiftOf(numerator, denominator);
    if shift > 0 then (numerator, denominator * Pow2(shift))
    else if shift < 0 then (numerator * Pow2(-shift), denominator)
    else (numerator, denominator)
  }

  function Ratio(n: nat, d: nat): int
    requires n + d > 0
  {
    (n - d) * Q32 / (n + d)
  }

  function LnMilli(numerator: nat, denominator: nat): int
    requires numerator >= 1 && denominator >= 1
  {
    var (n, d) := Aligned(numerator, denominator);
    AlignedPositive(numerator, denominator);
    (ShiftOf(numerator, denominator) * LN2_Q32 + 2 * Total(Ratio(n, d))) * 1_000 / Q32
  }

  lemma AlignedPositive(numerator: nat, denominator: nat)
    requires numerator >= 1 && denominator >= 1
    ensures Aligned(numerator, denominator).0 >= 1 && Aligned(numerator, denominator).1 >= 1
  {
  }

  method ComputeLnMilli(numerator: nat, denominator: nat) returns (r: int)
    requires numerator >= 1 && denominator >= 1
    ensures r == LnMilli(numerator, denominator)
  {
    hide Total, BitLength, Pow2;
    var n, d := numerator, denominator;
    var shift := BitLength(numerator) - BitLength(denominator);
    AlignedPositive(numerator, denominator);
    if shift > 0 {
      d := d * Pow2(shift);
    } else if shift < 0 {
      n := n * Pow2(-shift);
    }
    var total := SumSeries((n - d) * Q32 / (n + d));
    return (shift * LN2_Q32 + 2 * total) * 1_000 / Q32;
  }

  /** The loop over the divisors 3, 5, ..., 21. */
  method SumSeries(z: int) returns (total: int)
    ensures total == Total(z)
  {
    var term := z;
    total := z;
    var zSquared := z * z / Q32;
    var divisor := 3;
    while divisor <= 21
      invariant 3 <= divisor <= 23
      invariant Total(z) == total + Series(term, zSquared, divisor)
    {
      term := term * zSquared / Q32;
      total := total + term / divisor;
      divisor := divisor + 2;
    }
  }

  // ----- accuracy -----

  /** After alignment neither side is twice the other, so the ratio is a third at most. */
  lemma AlignedClose(numerator: nat, denominator: nat)
    requires numerator >= 1 && denominator >= 1
    ensures var (n, d) := Aligned(numerator, denominator);
            1 <= n < 2 * d && 1 <= d < 2 * n
  {
    hide BitLength, Pow2;
    var a, b := BitLength(numerator), BitLength(denominator);
    BitLengthBounds(numerator);
    BitLengthBounds(denominator);
    if a > b {
      AlignUp(denominator, b, a - b);
    } else if a < b {
      AlignUp(numerator, a, b - a);
    } else {
      Pow2Doubles(a);
    }
  }

  lemma Pow2Doubles(k: nat)
    requires k >= 1
    ensures Pow2(k) == 2 * Pow2(k - 1)
  {
  }

  lemma AlignUp(m: nat, bits: nat, k: nat)
    requires bits >= 1 && Pow2(bits - 1) <= m < Pow2(bits)
    ensures Pow2(bits + k - 1) <= m * Pow2(k) < Pow2(bits + k)
    ensures Pow2(bits + k) == 2 * Pow2(bits + k - 1)
  {
    Pow2Sum(bits - 1, k);
    Pow2Sum(bits, k);
    ProductBetween(Pow2(k), Pow2(bits - 1), m, Pow2(bits));
  }

  lemma ProductBetween(p: nat, a: nat, b: nat, c: nat)
    requires p >= 1 && a <= b < c
    ensures a * p <= b * p < c * p
  {
  }

  lemma RatioBound(n: nat, d: nat)
    requires 1 <= n < 2 * d && 1 <= d < 2 * n
    ensures -1_431_655_766 <= Ratio(n, d) <= 1_431_655_765
  {
    var x, s := (n - d) * Q32, n + d;
    Quotient(x, s);
    var z := x / s;
    assert 3 * (n - d) < s && -s < 3 * (n - d);
    assert 3 * x < s * Q32 && -(s * Q32) < 3 * x;
    if z > 1_431_655_765 { Times(s, 1_431_655_766, z); }
    if z < -1_431_655_766 { Times(s, z + 1, -1_431_655_766); }
  }

  function Abs(x: int): int {
    if x < 0 then -x else x
  }

  lemma StepBound(term: int, zSquared: int)
    requires 0 <= zSquared && 9 * zSquared <= Q32
    ensures 9 * Abs(term * zSquared / Q32) <= Abs(term) + 9
  {
  }

  lemma DividedBound(t: int, divisor: int)
    requires divisor >= 1
    ensures divisor * Abs(t / divisor) <= Abs(t) + divisor
  {
  }

  lemma SmallerDivisor(t: int, divisor: int, least: int)
    requires 1 <= least <= divisor
    ensures least * Abs(t / divisor) <= Abs(t) + least
  {
    DividedBound(t, divisor);
    var q := Abs(t / divisor);
    if q >= 1 {
      Times(q - 1, least, divisor);
      assert divisor * q == divisor * (q - 1) + divisor && least * q == least * (q - 1) + least;
    }
  }

  lemma {:induction false} SeriesBound(term: int, zSquared: int, divisor: nat)
    requires divisor >= 5 && 0 <= zSquared && 9 * zSquared <= Q32
    ensures 40 * Abs(Series(term, zSquared, divisor)) <= Abs(term) + (if divisor > 21 then 0 else 49 * (23 - divisor))
    decreases 23 - divisor
  {
    if divisor <= 21 {
      var next := term * zSquared / Q32;
      StepBound(term, zSquared);
      SmallerDivisor(next, divisor, 5);
      SeriesBound(next, zSquared, divisor + 2);
    }
  }

  lemma SquareBound(z: int)
    requires -1_431_655_766 <= z <= 1_431_655_766
    ensures 0 <= z * z / Q32 && 9 * (z * z / Q32) <= Q32
  {
    var a := Abs(z);
    Times(a, a, 1_431_655_766);
    Times(1_431_655_766, a, 1_431_655_766);
    assert z * z == a * a;
    Quotient(z * z, Q32);
  }

  /** Twice the series is within ln 2: at most 694 thousandths either way. */
  lemma TotalBound(z: int)
    requires -1_431_655_766 <= z <= 1_431_655_766
    ensures 2_000 * Abs(Total(z)) <= 694 * Q32
  {
    var zSquared := z * z / Q32;
    SquareBound(z);
    StepBound(z, zSquared);
    var next := z * zSquared / Q32;
    DividedBound(next, 3);
    SeriesBound(next, zSquared, 5);
    assert Series(z, zSquared, 3) == next / 3 + Series(next, zSquared, 5);
  }

  /** The logarithm stays within 695 thousandths of the shift's multiple of ln 2. */
  lemma LnMilliNearShift(numerator: nat, denominator: nat)
    requires numerator >= 1 && denominator >= 1
    ensures Abs(LnMilli(numerator, denominator) * Q32 - 1_000 * ShiftOf(numerator, denominator) * LN2_Q32) <= 695 * Q32
  {
    hide Total, Ratio, ShiftOf, Aligned, BitLength;
    var (n, d) := Aligned(numerator, denominator);
    AlignedClose(numerator, denominator);
    RatioBound(n, d);
    var total := Total(Ratio(n, d));
    TotalBound(Ratio(n, d));
    var shift := ShiftOf(numerator, denominator);
    Quotient((shift * LN2_Q32 + 2 * total) * 1_000, Q32);
  }

  // ----- monotonicity -----

  /** The pair (x, xs) of a term and its factor is nowhere above (y, ys). */
  ghost predicate Below(x: int, xs: int, y: int, ys: int) {
    && 0 <= xs && 0 <= ys
    && ((0 <= x <= y && xs <= ys) || (x <= y <= 0 && ys <= xs) || (x <= 0 <= y))
  }

  lemma StepBelow(x: int, xs: int, y: int, ys: int)
    requires Below(x, xs, y, ys)
    ensures Below(x * xs / Q32, xs, y * ys / Q32, ys)
  {
  }

  lemma {:induction false} SeriesMonotone(x: int, xs: int, y: int, ys: int, divisor: nat)
    requires divisor >= 1 && Below(x, xs, y, ys)
    ensures Series(x, xs, divisor) <= Series(y, ys, divisor)
    decreases 23 - divisor
  {
    hide Below;
    if divisor <= 21 {
      StepBelow(x, xs, y, ys);
      SeriesMonotone(x * xs / Q32, xs, y * ys / Q32, ys, divisor + 2);
      BelowOrdered(x * xs / Q32, xs, y * ys / Q32, ys);
      QuotientMonotone(x * xs / Q32, y * ys / Q32, divisor);
    }
  }

  lemma BelowOrdered(x: int, xs: int, y: int, ys: int)
    requires Below(x, xs, y, ys)
    ensures x <= y
  {
  }

  lemma SquaresBelow(x: int, y: int)
    requires x <= y
    ensures Below(x, x * x / Q32, y, y * y / Q32)
  {
  }

  lemma TotalMonotone(x: int, y: int)
    requires x <= y
    ensures Total(x) <= Total(y)
  {
    hide Below, Series;
    SquaresBelow(x, y);
    SeriesMonotone(x, x * x / Q32, y, y * y / Q32, 3);
  }

  lemma RatioMonotone(a: nat, b: nat, d: nat)
    requires 1 <= a <= b && d >= 1
    ensures Ratio(a, d) <= Ratio(b, d)
  {
    assert (b - d) * (a + d) - (a - d) * (b + d) == 2 * d * (b - a);
    assert 2 * d * (b - a) >= 0;
    Times(Q32, (a - d) * (b + d), (b - d) * (a + d));
    assert (a - d) * Q32 * (b + d) == Q32 * ((a - d) * (b + d));
    assert (b - d) * Q32 * (a + d) == Q32 * ((b - d) * (a + d));
    FractionMonotone((a - d) * Q32, a + d, (b - d) * Q32, b + d);
  }

  /** While the bit-length shift is fixed, the logarithm never falls as the numerator grows. */
  lemma LnMilliMonotone(a: nat, b: nat, denominator: nat)
    requires 1 <= a <= b && denominator >= 1 && ShiftOf(a, denominator) == ShiftOf(b, denominator)
    ensures LnMilli(a, denominator) <= LnMilli(b, denominator)
  {
    hide Total, Ratio, BitLength;
    var shift := ShiftOf(a, denominator);
    var (x, d) := Aligned(a, denominator);
    var (y, e) := Aligned(b, denominator);
    AlignedPositive(a, denominator);
    if shift < 0 { ProductOrdered(Pow2(-shift), a, b); }
    RatioMonotone(x, y, d);
    TotalMonotone(Ratio(x, d), Ratio(y, d));
    QuotientMonotone((shift * LN2_Q32 + 2 * Total(Ratio(x, d))) * 1_000,
                     (shift * LN2_Q32 + 2 * Total(Ratio(y, d))) * 1_000, Q32);
  }

  lemma ProductOrdered(p: nat, a: nat, b: nat)
    requires a <= b
    ensures a * p <= b * p
  {
  }

  // ----- the lexical signal -----

  const LEXICAL_LIMIT: int := 500_000

  function Clamp(value: int, limit: int): int {
    Max(0, Min(value, limit))
  }

  /** What the repository's text says about one document and the query terms. */
  datatype Corpus = Corpus(documents: nat, averageLength: int, documentFrequency: string -> nat)

  function Norm(length: nat, average: int): int
    requires average >= 1
  {
    1_000 - 750 + 750 * length / average
  }

  function Saturation(length: nat, average: int): int
    requires average >= 1
  {
    1_200 * Norm(length, average) / 1_000
  }

  /** The saturating part of a term, in thousandths. */
  function Component(frequency: nat, saturation: int): int
    requires frequency >= 1 && saturation >= 0
  {
    frequency * (1_200 + 1_000) * 1_000 / (frequency * 1_000 + saturation)
  }

  lemma SaturationPositive(length: nat, average: int)
    requires average >= 1
    ensures Saturation(length, average) >= 300
  {
  }

  function Idf(corpus: Corpus, term: string): int {
    Max(0, LnMilli(2 * corpus.documents + 2, 2 * corpus.documentFrequency(term) + 1))
  }

  function Contribution(idf: int, frequency: nat, length: nat, average: int): int
    requires average >= 1
  {
    if frequency == 0 then 0
    else
      SaturationPositive(length, average);
      idf * Component(frequency, Saturation(length, average)) / 1_000
  }

  function Raw(corpus: Corpus, query: seq<string>, frequency: string -> nat, length: nat): int
    requires corpus.averageLength >= 1
  {
    if query == [] then 0
    else
      var n := |query| - 1;
      Raw(corpus, query[..n], frequency, length) +
      Contribution(Idf(corpus, query[n]), frequency(query[n]), length, corpus.averageLength)
  }

  function Lexical(corpus: Corpus, query: seq<string>, frequency: string -> nat, length: nat): int
    requires corpus.averageLength >= 1
  {
    var raw := Raw(corpus, query, frequency, length);
    if raw <= 0 then 0 else Clamp(raw * 5, LEXICAL_LIMIT)
  }

  method ScoreLexical(corpus: Corpus, query: seq<string>, frequency: string -> nat, length: nat) returns (score: int)
    requires corpus.averageLength >= 1
    ensures score == Lexical(corpus, query, frequency, length)
  {
    hide LnMilli, Component, Saturation;
    var raw := 0;
    var i := 0;
    while i < |query|
      invariant 0 <= i <= |query|
      invariant raw == Raw(corpus, query[..i], frequency, length)
    {
      assert query[..i + 1][..i] == query[..i];
      var f := frequency(query[i]);
      if f != 0 {
        var ln := ComputeLnMilli(2 * corpus.documents + 2, 2 * corpus.documentFrequency(query[i]) + 1);
        var idf := Max(0, ln);
        SaturationPositive(length, corpus.averageLength);
        raw := raw + idf * Component(f, Saturation(length, corpus.averageLength)) / 1_000;
      }
      i := i + 1;
    }
    assert query[..i] == query;
    if raw <= 0 { return 0; }
    return Clamp(raw * 5, LEXICAL_LIMIT);
  }

  /** One more occurrence never lowers the component, and it stays below 2200 thousandths. */
  lemma ComponentRises(f: nat, g: nat, saturation: int)
    requires 1 <= f <= g && saturation >= 1
    ensures 0 <= Component(f, saturation) <= Component(g, saturation) < 2_200
  {
    Times(2_200_000 * saturation, f, g);
    assert f * 2_200_000 * (g * 1_000 + saturation) == f * g * 2_200_000_000 + 2_200_000 * saturation * f;
    assert g * 2_200_000 * (f * 1_000 + saturation) == f * g * 2_200_000_000 + 2_200_000 * saturation * g;
    FractionMonotone(f * 2_200_000, f * 1_000 + saturation, g * 2_200_000, g * 1_000 + saturation);
    ComponentRange(f, saturation);
    ComponentRange(g, saturation);
  }

  lemma ComponentRange(f: nat, saturation: int)
    requires f >= 1 && saturation >= 1
    ensures 0 <= Component(f, saturation) < 2_200
  {
    var x, d := f * 2_200_000, f * 1_000 + saturation;
    Quotient(x, d);
    assert d * 2_200 == x + 2_200 * saturation;
    if x / d >= 2_200 { Times(d, 2_200, x / d); }
  }

  lemma ComponentFalls(f: nat, low: int, high: int)
    requires f >= 1 && 1 <= low <= high
    ensures Component(f, high) <= Component(f, low)
  {
    Times(f * 2_200_000, f * 1_000 + low, f * 1_000 + high);
    FractionMonotone(f * 2_200_000, f * 1_000 + high, f * 2_200_000, f * 1_000 + low);
  }

  lemma SaturationRises(a: nat, b: nat, average: int)
    requires a <= b && average >= 1
    ensures Saturation(a, average) <= Saturation(b, average)
  {
    QuotientMonotone(750 * a, 750 * b, average);
    QuotientMonotone(1_200 * Norm(a, average), 1_200 * Norm(b, average), 1_000);
  }

  lemma ContributionRises(idf: int, f: nat, g: nat, length: nat, average: int)
    requires idf >= 0 && f <= g && average >= 1
    ensures 0 <= Contribution(idf, f, length, average) <= Contribution(idf, g, length, average)
  {
    hide Component, Saturation;
    SaturationPositive(length, average);
    var s := Saturation(length, average);
    if f > 0 {
      ComponentRises(f, g, s);
      Times(idf, 0, Component(f, s));
      Times(idf, Component(f, s), Component(g, s));
      QuotientMonotone(0, idf * Component(f, s), 1_000);
      QuotientMonotone(idf * Component(f, s), idf * Component(g, s), 1_000);
    } else if g > 0 {
      ComponentRises(g, g, s);
      Times(idf, 0, Component(g, s));
      QuotientMonotone(0, idf * Component(g, s), 1_000);
    }
  }

  lemma ContributionFalls(idf: int, f: nat, short: nat, long: nat, average: int)
    requires idf >= 0 && short <= long && average >= 1
    ensures Contribution(idf, f, long, average) <= Contribution(idf, f, short, average)
  {
    hide Component, Saturation;
    if f > 0 {
      SaturationPositive(short, average);
      SaturationPositive(long, average);
      SaturationRises(short, long, average);
      ComponentFalls(f, Saturation(short, average), Saturation(long, average));
      Times(idf, Component(f, Saturation(long, average)), Component(f, Saturation(short, average)));
      QuotientMonotone(idf * Component(f, Saturation(long, average)), idf * Component(f, Saturation(short, average)),
                       1_000);
    }
  }

  lemma {:induction false} RawRises(corpus: Corpus, query: seq<string>, f: string -> nat, g: string -> nat, length: nat)
    requires corpus.averageLength >= 1 && forall i :: 0 <= i < |query| ==> f(query[i]) <= g(query[i])
    ensures Raw(corpus, query, f, length) <= Raw(corpus, query, g, length)
  {
    hide LnMilli, Contribution;
    if query != [] {
      var n := |query| - 1;
      RawRises(corpus, query[..n], f, g, length);
      ContributionRises(Idf(corpus, query[n]), f(query[n]), g(query[n]), length, corpus.averageLength);
    }
  }

  lemma {:induction false} RawFalls(corpus: Corpus, query: seq<string>, f: string -> nat, short: nat, long: nat)
    requires corpus.averageLength >= 1 && short <= long
    ensures Raw(corpus, query, f, long) <= Raw(corpus, query, f, short)
  {
    hide LnMilli, Contribution;
    if query != [] {
      var n := |query| - 1;
      RawFalls(corpus, query[..n], f, short, long);
      ContributionFalls(Idf(corpus, query[n]), f(query[n]), short, long, corpus.averageLength);
    }
  }

  /** At a fixed document length, raising the frequency of query terms never lowers the lexical score. */
  lemma LexicalRisesWithFrequency(corpus: Corpus, query: seq<string>, f: string -> nat, g: string -> nat, length: nat)
    requires corpus.averageLength >= 1 && forall i :: 0 <= i < |query| ==> f(query[i]) <= g(query[i])
    ensures Lexical(corpus, query, f, length) <= Lexical(corpus, query, g, length) <= LEXICAL_LIMIT
  {
    hide Raw;
    RawRises(corpus, query, f, g, length);
  }

  /** A longer document with the same terms never scores higher. */
  lemma LexicalFallsWithLength(corpus: Corpus, query: seq<string>, f: string -> nat, short: nat, long: nat)
    requires corpus.averageLength >= 1 && short <= long
    ensures 0 <= Lexical(corpus, query, f, long) <= Lexical(corpus, query, f, short)
  {
    hide Raw;
    RawFalls(corpus, query, f, short, long);
  }
}
