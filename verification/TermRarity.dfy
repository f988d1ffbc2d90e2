/**
 What the rarity of a term does to the lexical signal: a term that is present and rare always
 scores, and a rarer one never scores less, except where rounding meets a step of the shift.
 */
module TermRarity {
  import opened Prelude
  import opened Scoring
  import opened LogAccuracy
  import LogDoubling
  import LogBounds

  // ----- the logarithm falls as the denominator grows -----

  lemma RatioFalls(n: nat, d: nat, e: nat)
    requires n >= 1 && 1 <= d <= e
    ensures Ratio(n, e) <= Ratio(n, d)
  {
    assert (n - d) * (n + e) - (n - e) * (n + d) == 2 * n * (e - d);
    assert 2 * n * (e - d) >= 0;
    Scoring.Times(Q32, (n - e) * (n + d), (n - d) * (n + e));
    assert (n - e) * Q32 * (n + d) == Q32 * ((n - e) * (n + d));
    assert (n - d) * Q32 * (n + e) == Q32 * ((n - d) * (n + e));
    FractionMonotone((n - e) * Q32, n + e, (n - d) * Q32, n + d);
  }

  /** While the bit-length shift is fixed, the logarithm never rises with the denominator. */
  lemma LnMilliFalls(n: nat, d: nat, e: nat)
    requires n >= 1 && 1 <= d <= e && ShiftOf(n, d) == ShiftOf(n, e)
    ensures LnMilli(n, e) <= LnMilli(n, d)
  {
    hide Total, Ratio, BitLength;
    var shift := ShiftOf(n, d);
    var (a, x) := Aligned(n, d);
    var (b, y) := Aligned(n, e);
    AlignedPositive(n, d);
    if shift > 0 { ProductOrdered(Pow2(shift), d, e); }
    RatioFalls(a, x, y);
    TotalMonotone(Ratio(a, y), Ratio(a, x));
    QuotientMonotone((shift * LN2_Q32 + 2 * Total(Ratio(a, y))) * 1_000,
                     (shift * LN2_Q32 + 2 * Total(Ratio(a, x))) * 1_000, Q32);
  }

  /** Three steps of the shift outweigh everything the rest of the logarithm can lose. */
  lemma FarApart(n: nat, d: nat, e: nat)
    requires n >= 1 && d >= 1 && e >= 1 && BitLength(d) + 3 <= BitLength(e)
    ensures LnMilli(n, e) <= LnMilli(n, d)
  {
    hide LnMilli, BitLength;
    LnMilliNearShift(n, d);
    LnMilliNearShift(n, e);
  }

  /** The counts 2d + 1 of two document frequencies have the same bit length, or lengths three or more apart. */
  predicate Comparable(rare: nat, common: nat) {
    BitLength(2 * rare + 1) == BitLength(2 * common + 1) || BitLength(2 * rare + 1) + 3 <= BitLength(2 * common + 1)
  }

  /** The second corpus differs from the first only in that its terms are as rare or rarer, by comparable counts. */
  ghost predicate Rarer(common: Corpus, rare: Corpus) {
    && rare.documents == common.documents && rare.averageLength == common.averageLength
    && forall term :: rare.documentFrequency(term) <= common.documentFrequency(term)
                      && Comparable(rare.documentFrequency(term), common.documentFrequency(term))
  }

  lemma IdfRises(common: Corpus, rare: Corpus, term: string)
    requires Rarer(common, rare)
    ensures 0 <= Idf(common, term) <= Idf(rare, term)
  {
    hide LnMilli, BitLength;
    var n := 2 * common.documents + 2;
    var d, e := 2 * rare.documentFrequency(term) + 1, 2 * common.documentFrequency(term) + 1;
    assert Comparable(rare.documentFrequency(term), common.documentFrequency(term));
    if BitLength(d) == BitLength(e) { LnMilliFalls(n, d, e); } else { FarApart(n, d, e); }
  }

  /** Whatever the counts, a rarer term never weighs less by more than one thousandth. */
  lemma RarerWeighsNoLessButForOne(common: Corpus, rare: Corpus, term: string)
    requires rare.documents == common.documents
    requires rare.documentFrequency(term) <= common.documentFrequency(term)
    requires BitLength(2 * common.documents + 2) + BitLength(2 * common.documentFrequency(term) + 1) <= 30_000
    ensures Idf(common, term) <= Idf(rare, term) + 1
  {
    hide LnMilli, BitLength;
    LogDoubling.LnMilliFallsButForOne(2 * common.documents + 2, 2 * rare.documentFrequency(term) + 1,
                                      2 * common.documentFrequency(term) + 1);
  }

  lemma ContributionRisesWithIdf(low: int, high: int, f: nat, length: nat, average: int)
    requires 0 <= low <= high && average >= 1
    ensures Contribution(low, f, length, average) <= Contribution(high, f, length, average)
  {
    hide Component, Saturation;
    SaturationPositive(length, average);
    if f > 0 {
      var c := Component(f, Saturation(length, average));
      ComponentRange(f, Saturation(length, average));
      Scoring.Times(c, low, high);
      assert low * c == c * low && high * c == c * high;
      QuotientMonotone(low * c, high * c, 1_000);
    }
  }

  lemma {:induction false} RarerRaw(common: Corpus, rare: Corpus, query: seq<string>, f: string -> nat, length: nat)
    requires Rarer(common, rare) && common.averageLength >= 1
    ensures Raw(common, query, f, length) <= Raw(rare, query, f, length)
  {
    hide Idf, Contribution, Rarer;
    if query != [] {
      var n := |query| - 1;
      RarerRaw(common, rare, query[..n], f, length);
      IdfRises(common, rare, query[n]);
      assert rare.averageLength == common.averageLength by { SameAverage(common, rare); }
      ContributionRisesWithIdf(Idf(common, query[n]), Idf(rare, query[n]), f(query[n]), length, common.averageLength);
    }
  }

  lemma SameAverage(common: Corpus, rare: Corpus)
    requires Rarer(common, rare)
    ensures rare.averageLength == common.averageLength
  {
  }

  /** The rarer the terms of a query are in a repository, the higher it scores the same document. */
  lemma RarerScoresNoLess(common: Corpus, rare: Corpus, query: seq<string>, f: string -> nat, length: nat)
    requires Rarer(common, rare) && common.averageLength >= 1
    ensures Lexical(common, query, f, length) <= Lexical(rare, query, f, length)
  {
    hide Raw;
    RarerRaw(common, rare, query, f, length);
  }

  // ----- where it fails -----

  lemma {:induction false} Pow2Rises(a: nat, b: nat)
    requires a <= b
    ensures Pow2(a) <= Pow2(b)
  {
    if a < b { Pow2Rises(a, b - 1); }
  }

  lemma BitLengthIs(n: nat, k: nat)
    requires k >= 1 && Pow2(k - 1) <= n < Pow2(k)
    ensures BitLength(n) == k
  {
    hide BitLength;
    BitLengthBounds(n);
    var m := BitLength(n);
    if m < k { Pow2Rises(m, k - 1); }
    if m > k { Pow2Rises(k, m - 1); }
  }

  lemma Powers()
    ensures Pow2(3) == 8 && Pow2(4) == 16 && Pow2(29) == 536_870_912 && Pow2(30) == 1_073_741_824
    ensures Pow2(31) == 2_147_483_648 && Pow2(33) == 8_589_934_592 && Pow2(34) == 17_179_869_184
  {
    assert Pow2(10) == 1_024;
    Pow2Sum(10, 10);
    Pow2Sum(20, 9);
    Pow2Sum(20, 10);
    Pow2Sum(30, 1);
    Pow2Sum(30, 3);
    Pow2Sum(30, 4);
    assert Pow2(9) == 512 && Pow2(1) == 2;
  }

  lemma AlignedBy(n: nat, d: nat, shift: nat)
    requires shift > 0 && ShiftOf(n, d) == shift
    ensures Aligned(n, d) == (n, d * Pow2(shift))
  {
  }

  lemma TotalCommon()
    ensures Total(1_177_201_674) == 1_208_085_092
  {
    hide Series;
    LastTerm(0, 322_657_586);
    OneTerm(0, 322_657_586, 21, 0, 0);
    OneTerm(1, 322_657_586, 19, 0, 0);
    OneTerm(15, 322_657_586, 17, 1, 0);
    OneTerm(211, 322_657_586, 15, 15, 0);
    OneTerm(2_816, 322_657_586, 13, 211, 1);
    OneTerm(37_495, 322_657_586, 11, 2_816, 17);
    OneTerm(499_110, 322_657_586, 9, 37_495, 273);
    OneTerm(6_643_774, 322_657_586, 7, 499_110, 4_439);
    OneTerm(88_436_773, 322_657_586, 5, 6_643_774, 75_740);
    OneTerm(1_177_201_674, 322_657_586, 3, 88_436_773, 1_404_494);
    Quotient(1_177_201_674 * 1_177_201_674, Q32);
  }

  lemma TotalRare()
    ensures Total(-280_039_281) == -280_437_146
  {
    hide Series;
    LastTerm(-1, 18_259_044);
    OneTerm(-1, 18_259_044, 21, -1, 0);
    OneTerm(-1, 18_259_044, 19, -1, -1);
    OneTerm(-1, 18_259_044, 17, -1, -2);
    OneTerm(-1, 18_259_044, 15, -1, -3);
    OneTerm(-1, 18_259_044, 13, -1, -4);
    OneTerm(-1, 18_259_044, 11, -1, -5);
    OneTerm(-22, 18_259_044, 9, -1, -6);
    OneTerm(-5_062, 18_259_044, 7, -22, -7);
    OneTerm(-1_190_522, 18_259_044, 5, -5_062, -11);
    OneTerm(-280_039_281, 18_259_044, 3, -1_190_522, -1_024);
    Quotient(-280_039_281 * -280_039_281, Q32);
  }

  /**
   Such a repository: of 7538343044 files 2^29 contain one term and 2^29 - 1 another. The rarer
   one weighs a thousandth less, because the counts fall on the two sides of a power of two.
   */
  lemma RarerCanWeighLess()
    ensures LnMilli(15_076_686_090, 1_073_741_825) == 2_642 && LnMilli(15_076_686_090, 1_073_741_823) == 2_641
  {
    hide Total, BitLength, Pow2;
    var n := 15_076_686_090;
    Powers();
    BitLengthIs(n, 34);
    BitLengthIs(1_073_741_825, 31);
    BitLengthIs(1_073_741_823, 30);
    AlignedBy(n, 1_073_741_825, 3);
    AlignedBy(n, 1_073_741_823, 4);
    TotalCommon();
    TotalRare();
    assert Ratio(n, 8_589_934_600) == 1_177_201_674;
    assert Ratio(n, 17_179_869_168) == -280_039_281;
  }

  // ----- a present rare term scores -----

  lemma FourfoldShift(n: nat, d: nat)
    requires d >= 1 && 4 * d <= n
    ensures ShiftOf(n, d) >= 2
  {
    hide BitLength;
    BitLengthBounds(n);
    BitLengthBounds(d);
    var a, b := BitLength(n), BitLength(d);
    assert Pow2(b + 1) == 4 * Pow2(b - 1);
    if a < b + 2 { Pow2Rises(a, b + 1); }
  }

  lemma RareWeighs(corpus: Corpus, term: string)
    requires 4 * (2 * corpus.documentFrequency(term) + 1) <= 2 * corpus.documents + 2
    ensures Idf(corpus, term) >= 691
  {
    hide LnMilli, BitLength, ShiftOf;
    var n, d := 2 * corpus.documents + 2, 2 * corpus.documentFrequency(term) + 1;
    FourfoldShift(n, d);
    LnMilliNearShift(n, d);
  }

  lemma ShortDocumentCounts(f: nat, length: nat, average: int)
    requires f >= 1 && average >= 1 && length <= 1_000 * average
    ensures Component(f, Saturation(length, average)) >= 2
  {
    QuotientMonotone(750 * length, 750_000 * average, average);
    assert 750_000 * average / average == 750_000;
    QuotientMonotone(1_200 * Norm(length, average), 1_200 * 750_250, 1_000);
    SaturationPositive(length, average);
    var s := Saturation(length, average);
    FractionMonotone(2, 1, f * 2_200_000, f * 1_000 + s);
  }

  lemma {:induction false} RawAtLeast(corpus: Corpus, query: seq<string>, f: string -> nat, length: nat, term: string)
    requires corpus.averageLength >= 1 && term in query
    ensures Raw(corpus, query, f, length) >= Contribution(Idf(corpus, term), f(term), length, corpus.averageLength)
    ensures Raw(corpus, query, f, length) >= 0
  {
    hide Contribution;
    var n := |query| - 1;
    RawNonNegative(corpus, query[..n], f, length);
    ContributionRises(Idf(corpus, query[n]), f(query[n]), f(query[n]), length, corpus.averageLength);
    if query[n] != term {
      assert term in query[..n];
      RawAtLeast(corpus, query[..n], f, length, term);
    }
  }

  lemma {:induction false} RawNonNegative(corpus: Corpus, query: seq<string>, f: string -> nat, length: nat)
    requires corpus.averageLength >= 1
    ensures Raw(corpus, query, f, length) >= 0
  {
    hide Contribution;
    if query != [] {
      var n := |query| - 1;
      RawNonNegative(corpus, query[..n], f, length);
      ContributionRises(Idf(corpus, query[n]), f(query[n]), f(query[n]), length, corpus.averageLength);
    }
  }

  /**
   A document that contains a query term of at most about a quarter of the files scores above
   zero, unless it is more than a thousand times as long as the average.
   */
  lemma PresentRareTermScores(corpus: Corpus, query: seq<string>, f: string -> nat, length: nat, term: string)
    requires corpus.averageLength >= 1 && length <= 1_000 * corpus.averageLength
    requires term in query && f(term) >= 1
    requires 4 * (2 * corpus.documentFrequency(term) + 1) <= 2 * corpus.documents + 2
    ensures Lexical(corpus, query, f, length) > 0
  {
    hide Idf, Component, Saturation;
    RareWeighs(corpus, term);
    ShortDocumentCounts(f(term), length, corpus.averageLength);
    SaturationPositive(length, corpus.averageLength);
    var idf, c := Idf(corpus, term), Component(f(term), Saturation(length, corpus.averageLength));
    Scoring.Times(idf, 2, c);
    QuotientMonotone(1_382, idf * c, 1_000);
    RawAtLeast(corpus, query, f, length, term);
  }

  // ----- the scale -----

  /** The weights of the query terms the document contains. */
  function PresentWeights(corpus: Corpus, query: seq<string>, f: string -> nat): int {
    if query == [] then 0
    else
      var last := query[|query| - 1];
      PresentWeights(corpus, query[..|query| - 1], f) + if f(last) > 0 then Idf(corpus, last) else 0
  }

  lemma AverageContribution(idf: int, f: nat, average: int)
    requires average >= 1 && f <= 1
    ensures Contribution(idf, f, average, average) == if f == 1 then idf else 0
  {
    hide Component, Saturation;
    WholeQuotient(750, average);
    AverageSaturation(average);
    assert Component(1, 1_200) == 1_000 by { OnceInAverage(); }
    WholeQuotient(idf, 1_000);
  }

  lemma WholeQuotient(k: int, d: int)
    requires d >= 1
    ensures k * d / d == k
  {
    Quotient(k * d, d);
    var q := k * d / d;
    if q < k { Scoring.Times(d, q + 1, k); }
    if q > k { Scoring.Times(d, k + 1, q); }
  }

  lemma AverageSaturation(average: int)
    requires average >= 1
    ensures Saturation(average, average) == 1_200
  {
    WholeQuotient(750, average);
  }

  lemma OnceInAverage()
    ensures Component(1, 1_200) == 1_000
  {
  }

  lemma {:induction false} AverageRaw(corpus: Corpus, query: seq<string>, f: string -> nat)
    requires corpus.averageLength >= 1 && forall i :: 0 <= i < |query| ==> f(query[i]) <= 1
    ensures Raw(corpus, query, f, corpus.averageLength) == PresentWeights(corpus, query, f)
  {
    hide Idf, Contribution;
    if query != [] {
      var n := |query| - 1;
      AverageRaw(corpus, query[..n], f);
      AverageContribution(Idf(corpus, query[n]), f(query[n]), corpus.averageLength);
    }
  }

  /** A document of average length that contains each term at most once scores five times their weights, clamped. */
  lemma AverageDocumentScore(corpus: Corpus, query: seq<string>, f: string -> nat)
    requires corpus.averageLength >= 1 && forall i :: 0 <= i < |query| ==> f(query[i]) <= 1
    ensures Lexical(corpus, query, f, corpus.averageLength) == Min(500_000, 5 * PresentWeights(corpus, query, f))
  {
    hide Idf, Raw;
    AverageRaw(corpus, query, f);
    RawNonNegative(corpus, query, f, corpus.averageLength);
  }

  /** The scores of two parts of a query add up, until the clamp. */
  lemma {:induction false} RawAdds(corpus: Corpus, a: seq<string>, b: seq<string>, f: string -> nat, length: nat)
    requires corpus.averageLength >= 1
    ensures Raw(corpus, a + b, f, length) == Raw(corpus, a, f, length) + Raw(corpus, b, f, length)
    decreases |b|
  {
    hide Idf, Contribution;
    if b == [] {
      assert a + b == a;
    } else {
      var n := |b| - 1;
      assert (a + b)[..|a + b| - 1] == a + b[..n];
      RawAdds(corpus, a, b[..n], f, length);
    }
  }

  /** A term that every one of at least a thousand files contains weighs nothing. */
  lemma UbiquitousWeighsNothing(corpus: Corpus, term: string)
    requires corpus.documents >= 1_000 && corpus.documentFrequency(term) == corpus.documents
    ensures Idf(corpus, term) == 0
  {
    hide LnMilli, LogDoubling.Exact, ExactMilli, ShiftOf;
    var n, d := 2 * corpus.documents + 2, 2 * corpus.documents + 1;
    LnMilliAccurate(n, d, 11);
    LogDoubling.ExactIs(n, d);
    LogBounds.BoundNearOne(n, d);
    LogBounds.NearShift(n, d);
    AlmostOne(n as real, d as real);
    assert Magnitude(ShiftOf(n, d) as real) <= 1.0;
    assert LnMilli(n, d) as real < 1.0;
  }

  lemma AlmostOne(n: real, d: real)
    requires n == d + 1.0 && d >= 2_001.0
    ensures n / d - 1.0 <= 1.0 / 2_001.0
  {
    var x := n / d - 1.0;
    assert x * d == 1.0;
    LogDoubling.Between(x, d, 1.0, 0.0, 1.0 / 2_001.0);
  }
}
