/**
 The logarithm is one function of the fraction, however the fraction is written: stepping over a
 power of two trades one ln 2 for the series of half the ratio, so a larger denominator never
 gives a logarithm higher by more than rounding.
 */
module LogDoubling {
  import opened Prelude
  import opened Scoring
  import opened LogAccuracy

  // ----- the series from its last term -----

  /** x + x^3/3 + x^5/5 + ..., as many terms as the code adds. */
  function Terms(x: real, count: nat): real {
    if count == 0 then 0.0 else Terms(x, count - 1) + Power(x, 2 * count - 1) / (2 * count - 1) as real
  }

  lemma {:induction false} OddPower(x: real, k: nat)
    ensures x * Power(x * x, k) == Power(x, 2 * k + 1)
  {
    if k == 0 {
      assert Power(x, 1) == Power(x, 0) * x;
    } else {
      OddPower(x, k - 1);
      var p := Power(x * x, k - 1);
      assert Power(x * x, k) == p * (x * x);
      assert Power(x, 2 * k) == Power(x, 2 * k - 1) * x && Power(x, 2 * k + 1) == Power(x, 2 * k) * x;
      assert x * (p * (x * x)) == x * p * x * x;
    }
  }

  lemma {:induction false} SumIsTerms(x: real, count: nat)
    ensures Sum(x, x * x, 1, count) == Terms(x, count)
  {
    hide Sum;
    if count == 0 {
      NoTerms(x, x * x, 1);
    } else {
      var k := count - 1;
      SumIsTerms(x, k);
      var last := x * Power(x * x, k);
      OddPower(x, k);
      SumSplits(x, x * x, 1, k, 1, last);
      Unfolded(last, x * x, 1 + 2 * k, 1, last * (x * x));
      NoTerms(last * (x * x), x * x, 3 + 2 * k);
    }
  }

  // ----- how powers and the series grow -----

  predicate Inside(x: real) {
    -1.0 / 3.0 <= x <= 1.0 / 3.0
  }

  lemma {:induction false} PowerInside(x: real, k: nat)
    requires Inside(x)
    ensures (k + 1) as real * Magnitude(Power(x, k)) <= 1.0
  {
    if k > 0 {
      PowerInside(x, k - 1);
      ProductBound(Power(x, k - 1), x, Magnitude(Power(x, k - 1)), 1.0 / 3.0);
      assert Power(x, k) == Power(x, k - 1) * x;
      NextInside(k as real, Magnitude(Power(x, k - 1)), Magnitude(Power(x, k)));
    }
  }

  lemma NextInside(c: real, p: real, q: real)
    requires c >= 1.0 && 0.0 <= p && 0.0 <= q <= p / 3.0 && c * p <= 1.0
    ensures (c + 1.0) * q <= 1.0
  {
    assert c * q <= c * (p / 3.0);
    assert c * (p / 3.0) == c * p / 3.0;
    assert p <= c * p;
  }

  lemma NextPower(x: real, k: nat)
    requires k >= 1
    ensures Power(x, k) == Power(x, k - 1) * x
  {
  }

  lemma SumBound(sum: real, a: real, b: real, x: real, y: real)
    requires sum == a + b && Magnitude(a) <= x && Magnitude(b) <= y
    ensures Magnitude(sum) <= x + y
  {
  }

  /** By how much the tangent with slope c * below at q misses p after a step h. */
  function Miss(p: real, q: real, c: real, below: real, h: real): real {
    p - q - c * below * h
  }

  /** The tangent of a power misses the power by at most one and a half squares of the step. */
  lemma {:induction false} PowerTangent(x: real, y: real, m: nat, h: real, square: real)
    requires Inside(x) && Inside(y) && m >= 1 && h == y - x && square == h * h
    ensures Magnitude(Miss(Power(y, m), Power(x, m), m as real, Power(x, m - 1), h)) <= 1.5 * square
  {
    hide Power, Inside, Magnitude, Miss;
    NextPower(x, m);
    NextPower(y, m);
    if m == 1 {
      FirstPower(x, y, h, square);
    } else {
      PowerTangent(x, y, m - 1, h, square);
      PowerInside(x, m - 2);
      NextPower(x, m - 1);
      TangentStep(x, y, h, square, (m - 1) as real, Power(x, m - 2), Power(y, m - 1), Power(x, m - 1), m as real,
                  Power(y, m), Power(x, m));
    }
  }

  lemma FirstPower(x: real, y: real, h: real, square: real)
    requires h == y - x && square == h * h
    ensures Magnitude(Miss(Power(y, 1), Power(x, 1), 1 as real, Power(x, 0), h)) <= 1.5 * square
  {
    assert Power(y, 1) == Power(y, 0) * y && Power(x, 1) == Power(x, 0) * x;
  }

  lemma TangentStep(x: real, y: real, h: real, square: real, c: real, below: real, p: real, q: real,
        next: real, py: real, qx: real)
    requires Inside(x) && Inside(y) && h == y - x && square == h * h && c >= 1.0 && q == below * x
    requires next == c + 1.0 && py == p * y && qx == q * x
    requires c * Magnitude(below) <= 1.0 && Magnitude(Miss(p, q, c, below, h)) <= 1.5 * square
    ensures Magnitude(Miss(py, qx, next, q, h)) <= 1.5 * square
  {
    hide Magnitude;
    var s := c * below;
    var r := Miss(p, q, c, below, h);
    StepScaled(c, below, s);
    SmallInside(y);
    SquarePositive(h, square);
    ProductBound(r, y, 1.5 * square, 1.0 / 3.0);
    ProductBound(s, square, 1.0, square);
    assert r == p - q - s * h;
    TangentAlgebra(x, y, h, square, c, below, s, p, q, r);
    var miss := Miss(py, qx, next, q, h);
    assert miss == py - qx - next * q * h;
    SumBound(miss, r * y, s * square, 0.5 * square, square);
  }

  lemma StepScaled(c: real, below: real, s: real)
    requires s == c * below && c >= 1.0 && c * Magnitude(below) <= 1.0
    ensures Magnitude(s) <= 1.0
  {
  }

  lemma SmallInside(y: real)
    requires Inside(y)
    ensures Magnitude(y) <= 1.0 / 3.0
  {
  }

  lemma SquarePositive(h: real, square: real)
    requires square == h * h
    ensures square >= 0.0 && Magnitude(square) == square
  {
  }

  lemma TangentAlgebra(x: real, y: real, h: real, square: real, c: real, below: real, s: real, p: real, q: real,
        r: real)
    requires h == y - x && square == h * h && q == below * x && s == c * below && r == p - q - s * h
    ensures p * y - q * x - (c + 1.0) * q * h == r * y + s * square
  {
    assert s * x == c * q;
    assert s * h * x == c * q * h;
    assert r * y == p * y - q * y - s * h * y;
    assert s * square == s * h * y - s * h * x;
    assert q * y == q * x + q * h;
  }

  // ----- the slope of the series -----

  function Slope(x: real, count: nat): real {
    if count == 0 then 0.0 else Slope(x, count - 1) + Power(x, 2 * count - 2)
  }

  lemma {:induction false} SlopeIs(x: real, count: nat)
    ensures Slope(x, count) * (1.0 - x * x) == 1.0 - Power(x, 2 * count)
  {
    hide Power;
    if count > 0 {
      SlopeIs(x, count - 1);
      NextPower(x, 2 * count - 1);
      NextPower(x, 2 * count);
      SlopeAlgebra(x, x * x, Slope(x, count - 1), Power(x, 2 * count - 2), Power(x, 2 * count - 1));
    } else {
      assert Power(x, 0) == 1.0 by { NoPower(x); }
    }
  }

  lemma NoPower(x: real)
    ensures Power(x, 0) == 1.0
  {
  }

  lemma SlopeAlgebra(x: real, square: real, s: real, p: real, next: real)
    requires square == x * x && s * (1.0 - square) == 1.0 - p && next == p * x
    ensures (s + p) * (1.0 - square) == 1.0 - next * x
  {
    assert next * x == p * square;
    assert (s + p) * (1.0 - square) == s * (1.0 - square) + p - p * square;
  }

  /** By how much the line of slope s at b misses a after a step h. */
  function Gap(a: real, b: real, s: real, h: real): real {
    a - b - s * h
  }

  lemma {:induction false} TermsTangent(x: real, y: real, count: nat, h: real, square: real)
    requires Inside(x) && Inside(y) && h == y - x && square == h * h
    ensures Magnitude(Gap(Terms(y, count), Terms(x, count), Slope(x, count), h)) <= 1.5 * count as real * square
  {
    hide Power, Inside, Miss, Gap, Magnitude;
    if count > 0 {
      var k, m := count - 1, 2 * count - 1;
      TermsTangent(x, y, k, h, square);
      PowerTangent(x, y, m, h, square);
      SquarePositive(h, square);
      GapStep(Terms(y, k), Terms(x, k), Slope(x, k), h, Power(y, m), Power(x, m), m as real, Power(x, m - 1),
              1.5 * k as real * square, 1.5 * square);
      assert 1.5 * count as real * square == 1.5 * k as real * square + 1.5 * square;
    } else {
      NoGap(h);
    }
  }

  lemma NoGap(h: real)
    ensures Magnitude(Gap(0.0, 0.0, 0.0, h)) <= 0.0
  {
  }

  lemma GapStep(a: real, b: real, s: real, h: real, p: real, q: real, m: real, below: real, x: real, y: real)
    requires Magnitude(Gap(a, b, s, h)) <= x && m >= 1.0 && y >= 0.0 && Magnitude(Miss(p, q, m, below, h)) <= y
    ensures Magnitude(Gap(a + p / m, b + q / m, s + below, h)) <= x + y
  {
    TangentOver(p, q, m, below, h, y);
    assert (s + below) * h == s * h + below * h;
  }

  lemma TangentOver(p: real, q: real, m: real, below: real, h: real, bound: real)
    requires m >= 1.0 && bound >= 0.0 && Magnitude(Miss(p, q, m, below, h)) <= bound
    ensures Magnitude(p / m - q / m - below * h) <= bound
  {
    var e := Miss(p, q, m, below, h);
    assert m * (below * h) == m * below * h;
    assert p / m - q / m - below * h == e / m;
    Smaller(e, m);
  }

  lemma Smaller(e: real, m: real)
    requires m >= 1.0
    ensures Magnitude(e / m) <= Magnitude(e)
  {
    var f := e / m;
    assert f * m == e;
    assert Magnitude(f) * m == Magnitude(e);
    assert Magnitude(f) * m >= Magnitude(f);
  }

  // ----- a short step -----

  /** The eleven terms the code adds. */
  function Series11(x: real): real {
    Terms(x, 11)
  }

  lemma {:induction false} EvenPower(x: real, k: nat)
    ensures Power(x, 2 * k) == Power(x * x, k)
  {
    hide Power;
    if k == 0 {
      NoPower(x);
      NoPower(x * x);
    } else {
      EvenPower(x, k - 1);
      NextPower(x, 2 * k - 1);
      NextPower(x, 2 * k);
      NextPower(x * x, k);
      assert Power(x, 2 * k - 2) * x * x == Power(x, 2 * k - 2) * (x * x);
    }
  }

  /** A short step of the argument moves the series by the step's hyperbolic length u, up to a millionth part. */
  lemma ShortStep(x: real, y: real, h: real, u: real)
    requires Inside(x) && Inside(y) && h == y - x && 0.0 <= h <= 0.000_000_2 && u * (1.0 - x * y) == h
    ensures Magnitude(Series11(y) - Series11(x) - u) <= h / 250_000.0
  {
    hide Power, Terms, Slope, Magnitude, Inside, Gap;
    var square, p := h * h, Power(x, 22);
    var rise := Series11(y) - Series11(x) - u;
    var gap, g := Gap(Terms(y, 11), Terms(x, 11), Slope(x, 11), h), Slope(x, 11) * h - u;
    TermsTangent(x, y, 11, h, square);
    SlopeIs(x, 11);
    PowerTiny(x);
    StepSlope(x, y, h, u, Slope(x, 11), p, g);
    assert gap == Terms(y, 11) - Terms(x, 11) - Slope(x, 11) * h by { GapIs(x, y, h); }
    var rounding := 0.5 * square + 0.000_000_000_05 * h;
    SumBound(rise, gap, g, 16.5 * square, rounding);
    assert square <= 0.000_000_2 * h by { SquareTiny(h, square); }
    RoundingTiny(h, square);
  }

  lemma GapIs(x: real, y: real, h: real)
    ensures Gap(Terms(y, 11), Terms(x, 11), Slope(x, 11), h) == Terms(y, 11) - Terms(x, 11) - Slope(x, 11) * h
  {
    hide Terms, Slope;
  }

  lemma SquareTiny(h: real, square: real)
    requires 0.0 <= h <= 0.000_000_2 && square == h * h
    ensures square <= 0.000_000_2 * h
  {
    ProductPositive(h, 0.000_000_2 - h);
  }

  lemma ProductPositive(a: real, b: real)
    requires a >= 0.0 && b >= 0.0
    ensures a * b >= 0.0
  {
  }

  lemma RoundingTiny(h: real, square: real)
    requires 0.0 <= h && square <= 0.000_000_2 * h
    ensures 17.0 * square + 0.000_000_000_05 * h <= h / 250_000.0
  {
  }

  lemma PowerTiny(x: real)
    requires Inside(x)
    ensures 0.0 <= Power(x, 22) <= 1.0 / 31_381_059_609.0
  {
    hide Power;
    EvenPower(x, 11);
    SmallInside(x);
    SquareSmall(x);
    PowerSmall(x * x, 11);
    NinthPower();
  }

  lemma StepSlope(x: real, y: real, h: real, u: real, slope: real, p: real, g: real)
    requires Inside(x) && Inside(y) && h == y - x && 0.0 <= h && u * (1.0 - x * y) == h
    requires slope * (1.0 - x * x) == 1.0 - p && 0.0 <= p <= 1.0 / 31_381_059_609.0 && g == slope * h - u
    ensures Magnitude(g) <= 0.5 * (h * h) + 0.000_000_000_05 * h
  {
    hide Inside, Magnitude;
    var d, hu := 1.0 - x * x, h * u;
    var xhu := x * hu;
    StepLength(x, y, h, u);
    ProductInside(x, x);
    LengthOver(x, y, h, u, d, hu, xhu);
    SlopeBound(x, h, u, slope, p, g, d, hu, xhu);
  }

  lemma SlopeBound(x: real, h: real, u: real, slope: real, p: real, g: real, d: real, hu: real, xhu: real)
    requires Inside(x) && 0.0 <= h && 0.0 <= u <= 1.125 * h && d >= 8.0 / 9.0 && g == slope * h - u
    requires slope * d == 1.0 - p && 0.0 <= p <= 1.0 / 31_381_059_609.0
    requires hu == h * u && xhu == x * hu && u * d == h + xhu
    ensures Magnitude(g) <= 0.5 * (h * h) + 0.000_000_000_05 * h
  {
    hide Inside, Magnitude;
    var square, ph, gd := h * h, p * h, g * d;
    SlopeOver(h, u, slope, p, g, d, ph, xhu, gd);
    SmallProducts(p, h, u, x, square, ph, hu, xhu);
    SumBound(gd, -ph, -xhu, 0.000_000_000_04 * h, 0.375 * square);
    Undone(g, d, gd);
  }

  lemma SmallProducts(p: real, h: real, u: real, x: real, square: real, ph: real, hu: real, xhu: real)
    requires 0.0 <= p <= 1.0 / 31_381_059_609.0 && 0.0 <= h && 0.0 <= u <= 1.125 * h && Inside(x)
    requires square == h * h && ph == p * h && hu == h * u && xhu == x * hu
    ensures Magnitude(-ph) <= 0.000_000_000_04 * h && Magnitude(-xhu) <= 0.375 * square
  {
    hide Magnitude, Inside;
    ProductOrder(p, 0.000_000_000_04, h, h);
    Opposite(ph, 0.000_000_000_04 * h);
    ProductOrder(u, 1.125 * h, h, h);
    assert 1.125 * h * h == 1.125 * square;
    assert 0.0 <= hu <= 1.125 * square;
    Opposite(hu, 1.125 * square);
    SmallInside(x);
    ProductBound(x, hu, 1.0 / 3.0, 1.125 * square);
    OppositeBound(xhu, 0.375 * square);
  }

  lemma Opposite(x: real, bound: real)
    requires 0.0 <= x <= bound
    ensures Magnitude(x) <= bound && Magnitude(-x) <= bound
  {
  }

  lemma OppositeBound(x: real, bound: real)
    requires Magnitude(x) <= bound
    ensures Magnitude(-x) <= bound
  {
  }

  lemma ProductInside(x: real, y: real)
    requires Inside(x) && Inside(y)
    ensures 8.0 / 9.0 <= 1.0 - x * y <= 10.0 / 9.0
  {
    SmallInside(x);
    SmallInside(y);
    ProductBound(x, y, 1.0 / 3.0, 1.0 / 3.0);
  }

  lemma StepLength(x: real, y: real, h: real, u: real)
    requires Inside(x) && Inside(y) && 0.0 <= h && u * (1.0 - x * y) == h
    ensures 0.0 <= u <= 1.125 * h
  {
    ProductInside(x, y);
    Quotiented(u, 1.0 - x * y, h);
  }

  lemma Quotiented(u: real, d: real, h: real)
    requires d >= 8.0 / 9.0 && u * d == h && h >= 0.0
    ensures 0.0 <= u <= 1.125 * h
  {
    assert u == h / d;
    assert h / d * (8.0 / 9.0) <= h / d * d;
  }

  lemma SlopeOver(h: real, u: real, slope: real, p: real, g: real, d: real, ph: real, xhu: real, gd: real)
    requires slope * d == 1.0 - p && g == slope * h - u && gd == g * d && ph == p * h && u * d == h + xhu
    ensures gd == -ph - xhu
  {
    assert gd == slope * d * h - u * d;
  }

  lemma LengthOver(x: real, y: real, h: real, u: real, d: real, hu: real, xhu: real)
    requires h == y - x && u * (1.0 - x * y) == h && d == 1.0 - x * x && hu == h * u && xhu == x * hu
    ensures u * d == h + xhu
  {
    assert x * y == x * x + x * h;
  }

  lemma Undone(g: real, d: real, gd: real)
    requires d >= 8.0 / 9.0 && gd == g * d
    ensures Magnitude(g) <= 1.125 * Magnitude(gd)
  {
    assert Magnitude(gd) == Magnitude(g) * d;
    assert Magnitude(g) * d >= Magnitude(g) * (8.0 / 9.0);
  }

  // ----- doubling the ratio -----

  /** If b is the argument of a ratio, this is the argument of twice the ratio. */
  function Doubled(b: real): real
    requires 3.0 + b != 0.0
  {
    (3.0 * b + 1.0) / (3.0 + b)
  }

  predicate Lower(b: real) {
    -1.0 / 3.0 <= b <= 0.0
  }

  lemma DoubledInside(b: real)
    requires Lower(b)
    ensures Inside(b) && Inside(Doubled(b)) && Doubled(b) * (3.0 + b) == 3.0 * b + 1.0
  {
    var a := Doubled(b);
    assert a * (3.0 + b) == 3.0 * b + 1.0;
    Between(a, 3.0 + b, 3.0 * b + 1.0, 0.0, 1.0 / 3.0);
  }

  lemma Between(a: real, d: real, n: real, low: real, high: real)
    requires d > 0.0 && a * d == n && low * d <= n <= high * d
    ensures low <= a <= high
  {
    Grows(d, a, low);
    Grows(d, high, a);
  }

  /** Doubling moves a short step to a step of the same hyperbolic length. */
  lemma DoubledStep(b: real, c: real, a: real, d: real, u: real)
    requires Lower(b) && Lower(c) && b <= c && a == Doubled(b) && d == Doubled(c) && u * (1.0 - b * c) == c - b
    ensures u * (1.0 - a * d) == d - a && 0.0 <= d - a <= 1.125 * (c - b)
  {
    hide Doubled, Inside;
    DoubledInside(b);
    DoubledInside(c);
    var p, q := 3.0 + b, 3.0 + c;
    var r := p * q;
    ProductOrder(8.0 / 3.0, p, 8.0 / 3.0, q);
    DoubledAlgebra(b, c, a, d, p, q, r);
    SameLength(c - b, d - a, 1.0 - b * c, 1.0 - a * d, u, r);
    StepGrowth(d - a, r, c - b);
  }

  lemma SameLength(h: real, k: real, m: real, e: real, u: real, r: real)
    requires k * r == 8.0 * h && e * r == 8.0 * m && u * m == h && r > 0.0
    ensures u * e == k
  {
    var x := u * e - k;
    assert x * r == u * (e * r) - k * r;
    assert u * (8.0 * m) == 8.0 * h;
    assert x * r == 0.0;
  }

  lemma StepGrowth(k: real, r: real, h: real)
    requires k * r == 8.0 * h && r >= 64.0 / 9.0 && h >= 0.0
    ensures 0.0 <= k <= 1.125 * h
  {
    ProductOrder(64.0 / 9.0, r, 1.125 * h, 1.125 * h);
    Between(k, r, 8.0 * h, 0.0, 1.125 * h);
  }

  lemma DoubledAlgebra(b: real, c: real, a: real, d: real, p: real, q: real, r: real)
    requires p == 3.0 + b && q == 3.0 + c && r == p * q && a * p == 3.0 * b + 1.0 && d * q == 3.0 * c + 1.0
    ensures (d - a) * r == 8.0 * (c - b) && (1.0 - a * d) * r == 8.0 * (1.0 - b * c)
  {
    assert d * r == (3.0 * c + 1.0) * p;
    assert a * r == (3.0 * b + 1.0) * q;
    assert a * d * r == (3.0 * b + 1.0) * (3.0 * c + 1.0);
  }

  /** What the doubled ratio's series has over the ratio's. */
  function Gain(b: real): real
    requires Lower(b)
  {
    Series11(Doubled(b)) - Series11(b)
  }

  lemma ShortGain(b: real, c: real)
    requires Lower(b) && Lower(c) && 0.0 <= c - b <= 0.000_000_1
    ensures Magnitude(Gain(c) - Gain(b)) <= (c - b) / 100_000.0
  {
    hide Series11, Doubled, Inside, Magnitude;
    DoubledInside(b);
    DoubledInside(c);
    var h, a, d := c - b, Doubled(b), Doubled(c);
    ProductInside(b, c);
    var u := h / (1.0 - b * c);
    assert u * (1.0 - b * c) == h;
    DoubledStep(b, c, a, d, u);
    ShortStep(b, c, h, u);
    ShortStep(a, d, d - a, u);
    GainBetween(Series11(a), Series11(b), Series11(d), Series11(c), u, h, d - a, Gain(c) - Gain(b));
  }

  lemma GainBetween(a: real, b: real, d: real, c: real, u: real, h: real, k: real, gain: real)
    requires Magnitude(c - b - u) <= h / 250_000.0 && Magnitude(d - a - u) <= k / 250_000.0
    requires 0.0 <= k <= 1.125 * h && gain == d - c - (a - b)
    ensures Magnitude(gain) <= h / 100_000.0
  {
  }

  /** Over any distance, in as many short steps as it takes. */
  lemma {:induction false} LongGain(b: real, c: real, steps: nat)
    requires Lower(b) && Lower(c) && 0.0 <= c - b <= 0.000_000_1 * steps as real
    ensures Magnitude(Gain(c) - Gain(b)) <= (c - b) / 100_000.0
    decreases steps
  {
    hide Gain;
    if c - b <= 0.000_000_1 {
      ShortGain(b, c);
    } else {
      var m := b + 0.000_000_1;
      ShortGain(b, m);
      LongGain(m, c, steps - 1);
    }
  }

  lemma OddNegates(x: real, k: nat)
    ensures Power(-x, 2 * k + 1) == -Power(x, 2 * k + 1)
  {
    hide Power;
    var y, square := -x, x * x;
    OddPower(x, k);
    OddPower(y, k);
    assert y * y == square;
    var p := Power(square, k);
    assert Power(y, 2 * k + 1) == y * p && Power(x, 2 * k + 1) == x * p;
    assert y * p == -(x * p);
  }

  lemma {:induction false} TermsNegate(x: real, count: nat)
    ensures Terms(-x, count) == -Terms(x, count)
  {
    hide Power;
    if count > 0 {
      TermsNegate(x, count - 1);
      OddNegates(x, count - 1);
      Negated(Power(x, 2 * count - 1), (2 * count - 1) as real);
    }
  }

  lemma Negated(p: real, d: real)
    requires d > 0.0
    ensures (-p) / d == -(p / d)
  {
  }

  lemma {:induction false} TermsAtZero(count: nat)
    ensures Terms(0.0, count) == 0.0
  {
    TermsNegate(0.0, count);
    assert -0.0 == 0.0;
  }

  /** Doubling a ratio between a half and one adds the series at a third, which is ln 2, up to rounding. */
  lemma DoublingAddsLn2(b: real)
    requires Lower(b)
    ensures Magnitude(Gain(b) - Series11(1.0 / 3.0)) <= 1.0 / 300_000.0
  {
    hide Terms;
    var third := -1.0 / 3.0;
    LongGain(third, b, 3_333_334);
    assert Doubled(third) == 0.0;
    TermsAtZero(11);
    TermsNegate(1.0 / 3.0, 11);
    assert -(1.0 / 3.0) == third;
    assert Gain(third) == Series11(1.0 / 3.0);
  }

  // ----- the series rises -----

  lemma {:induction false} PowerRises(x: real, y: real, k: nat)
    requires 0.0 <= x <= y
    ensures 0.0 <= Power(x, k) <= Power(y, k)
  {
    if k > 0 {
      PowerRises(x, y, k - 1);
      ProductOrder(Power(x, k - 1), Power(y, k - 1), x, y);
    }
  }

  lemma {:induction false} PositiveTermsRise(x: real, y: real, count: nat)
    requires 0.0 <= x <= y
    ensures 0.0 <= Terms(x, count) <= Terms(y, count)
  {
    hide Power;
    if count > 0 {
      PositiveTermsRise(x, y, count - 1);
      PowerRises(x, y, 2 * count - 1);
      QuotientsOrder(Power(x, 2 * count - 1), Power(y, 2 * count - 1), (2 * count - 1) as real);
    }
  }

  lemma QuotientsOrder(p: real, q: real, d: real)
    requires 0.0 <= p <= q && d > 0.0
    ensures 0.0 <= p / d <= q / d
  {
  }

  lemma SeriesRises(x: real, y: real)
    requires x <= y
    ensures Series11(x) <= Series11(y)
  {
    hide Terms;
    TermsNegate(-x, 11);
    TermsNegate(-y, 11);
    assert -(-x) == x && -(-y) == y;
    if 0.0 <= x {
      PositiveTermsRise(x, y, 11);
    } else if y <= 0.0 {
      PositiveTermsRise(-y, -x, 11);
    } else {
      PositiveTermsRise(0.0, y, 11);
      PositiveTermsRise(0.0, -x, 11);
    }
  }

  // ----- the exact logarithm falls as the denominator grows -----

  /** The thousandfold logarithm with the eleven terms the code adds. */
  function Exact(n: nat, d: nat): real
    requires n >= 1 && d >= 1
  {
    2_000.0 * (ShiftOf(n, d) as real * Series11(1.0 / 3.0) + Series11(ExactRatio(n, d)))
  }

  lemma ExactIs(n: nat, d: nat)
    requires n >= 1 && d >= 1
    ensures Exact(n, d) == ExactMilli(n, d, 11)
  {
    hide Sum, Terms, ShiftOf, ExactRatio, LogSeries, Series11;
    var x := ExactRatio(n, d);
    SeriesTwice(1.0 / 3.0);
    SeriesTwice(x);
    var s, l := ShiftOf(n, d) as real, Series11(1.0 / 3.0);
    assert ExactMilli(n, d, 11) == 1_000.0 * (s * LogSeries(1.0 / 3.0, 11) + LogSeries(x, 11));
    assert s * (2.0 * l) == 2.0 * (s * l);
  }

  lemma SeriesTwice(x: real)
    ensures LogSeries(x, 11) == 2.0 * Series11(x)
  {
    hide Sum, Terms;
    SumIsTerms(x, 11);
  }

  /** (a - x)/(a + x) and (c - y)/(c + y) compare as a/x and c/y. */
  lemma RatiosOrder(a: real, x: real, c: real, y: real)
    requires a > 0.0 && x > 0.0 && c > 0.0 && y > 0.0 && a * y <= c * x
    ensures (a - x) / (a + x) <= (c - y) / (c + y)
  {
    var p, q := (a - x) / (a + x), (c - y) / (c + y);
    assert p * (a + x) == a - x && q * (c + y) == c - y;
    var r := (a + x) * (c + y);
    assert (q - p) * r == 2.0 * (c * x - a * y) by { RatiosAlgebra(a, x, c, y, p, q, r); }
    assert r > 0.0;
    if q < p { assert (q - p) * r < 0.0; }
  }

  lemma RatiosAlgebra(a: real, x: real, c: real, y: real, p: real, q: real, r: real)
    requires p * (a + x) == a - x && q * (c + y) == c - y && r == (a + x) * (c + y)
    ensures (q - p) * r == 2.0 * (c * x - a * y)
  {
    assert q * r == (c - y) * (a + x);
    assert p * r == (a - x) * (c + y);
  }

  lemma AlignedRatio(n: nat, d: nat)
    requires n >= 1 && d >= 1
    ensures var (a, x) := Aligned(n, d);
            && a >= 1 && x >= 1 && a < 2 * x && x < 2 * a
            && ExactRatio(n, d) == (a as real - x as real) / (a as real + x as real)
  {
    AlignedClose(n, d);
  }

  lemma SameShiftFalls(n: nat, e: nat, f: nat)
    requires n >= 1 && 1 <= e <= f && ShiftOf(n, e) == ShiftOf(n, f)
    ensures Exact(n, f) <= Exact(n, e)
  {
    hide ShiftOf, Series11, ExactRatio, Aligned, Exact;
    RatioFallsAt(n, e, f);
    var r, q := ExactRatio(n, e), ExactRatio(n, f);
    SeriesRises(q, r);
    var s, l := ShiftOf(n, e) as real, Series11(1.0 / 3.0);
    ExactSum(n, e, s, l);
    ExactSum(n, f, s, l);
  }

  lemma ExactSum(n: nat, d: nat, s: real, l: real)
    requires n >= 1 && d >= 1 && s == ShiftOf(n, d) as real && l == Series11(1.0 / 3.0)
    ensures Exact(n, d) == 2_000.0 * (s * l + Series11(ExactRatio(n, d)))
  {
    hide Series11, ShiftOf, ExactRatio;
  }

  lemma RatioFallsAt(n: nat, e: nat, f: nat)
    requires n >= 1 && 1 <= e <= f && ShiftOf(n, e) == ShiftOf(n, f)
    ensures ExactRatio(n, f) <= ExactRatio(n, e)
  {
    hide ShiftOf, ExactRatio, Aligned;
    var (a, x) := Aligned(n, e);
    var (c, y) := Aligned(n, f);
    AlignedRatio(n, e);
    AlignedRatio(n, f);
    AlignedOrder(n, e, f);
    ProductOrder(x as real, y as real, a as real, a as real);
    RatiosOrder(c as real, y as real, a as real, x as real);
  }

  lemma AlignedOrder(n: nat, e: nat, f: nat)
    requires n >= 1 && 1 <= e <= f && ShiftOf(n, e) == ShiftOf(n, f)
    ensures Aligned(n, e).0 == Aligned(n, f).0 && Aligned(n, e).1 <= Aligned(n, f).1
  {
    hide BitLength;
    var shift := ShiftOf(n, e);
    if shift > 0 { ProductOrdered(Pow2(shift), e, f); }
  }

  lemma BitLengthDoubles(e: nat)
    requires e >= 1
    ensures BitLength(2 * e) == BitLength(e) + 1
  {
    assert 2 * e / 2 == e;
  }

  lemma {:induction false} BitLengthRises(e: nat, f: nat)
    requires e <= f
    ensures BitLength(e) <= BitLength(f)
  {
    if e > 0 { BitLengthRises(e / 2, f / 2); }
  }

  /** Doubling the denominator takes exactly ln 2. */
  lemma DoubledDenominator(n: nat, e: nat)
    requires n >= 1 && e >= 1
    ensures Exact(n, 2 * e) == Exact(n, e) - 2_000.0 * Series11(1.0 / 3.0)
  {
    hide BitLength, Pow2, Series11, ShiftOf, ExactRatio, Aligned;
    SameRatio(n, e);
    var s, l := ShiftOf(n, e) as real, Series11(1.0 / 3.0);
    ExactSum(n, e, s, l);
    ExactSum(n, 2 * e, s - 1.0, l);
    assert (s - 1.0) * l == s * l - l;
  }

  lemma SameRatio(n: nat, e: nat)
    requires n >= 1 && e >= 1
    ensures ShiftOf(n, 2 * e) == ShiftOf(n, e) - 1 && ExactRatio(n, 2 * e) == ExactRatio(n, e)
  {
    hide BitLength, Pow2, Aligned;
    BitLengthDoubles(e);
    var s := ShiftOf(n, e);
    AlignedForm(n, e);
    AlignedForm(n, 2 * e);
    if s >= 1 {
      Pow2Doubles(s);
      var p := Pow2(s - 1);
      assert e * (2 * p) == 2 * e * p;
      assert Aligned(n, 2 * e) == Aligned(n, e);
    } else {
      Pow2Doubles(1 - s);
      var p := Pow2(-s);
      assert n * (2 * p) == 2 * (n * p);
      AlignedPositive(n, e);
      HalvedRatio(n * p, e, n * (2 * p));
    }
  }

  lemma AlignedForm(n: nat, d: nat)
    ensures ShiftOf(n, d) >= 0 ==> Aligned(n, d) == (n, d * Pow2(ShiftOf(n, d)))
    ensures ShiftOf(n, d) <= 0 ==> Aligned(n, d) == (n * Pow2(-ShiftOf(n, d)), d)
  {
  }

  lemma HalvedRatio(a: nat, e: nat, b: nat)
    requires a >= 1 && e >= 1 && b == 2 * a
    ensures (a - e) as real / (a + e) as real == (b - 2 * e) as real / (b + 2 * e) as real
  {
    var x, y := (a - e) as real, (a + e) as real;
    assert (b - 2 * e) as real == 2.0 * x && (b + 2 * e) as real == 2.0 * y;
  }

  /** The arguments on the two sides of a step of the shift: a/y is at most twice c/x. */
  lemma NextShiftRatio(n: nat, e: nat, f: nat)
    requires n >= 1 && 1 <= e <= f && ShiftOf(n, e) == ShiftOf(n, f) + 1
    ensures var (c, x) := Aligned(n, e);
            var (a, y) := Aligned(n, f);
            a * x <= 2 * c * y
  {
    hide BitLength, Pow2, Aligned, ShiftOf;
    var s := ShiftOf(n, f);
    AlignedForm(n, e);
    AlignedForm(n, f);
    if s >= 0 {
      Pow2Doubles(s + 1);
      Crossed(n, Pow2(s), e, f);
    } else {
      Pow2Doubles(-s);
      Crossed(n, Pow2(-s - 1), e, f);
    }
  }

  lemma Crossed(n: nat, p: nat, e: nat, f: nat)
    requires e <= f
    ensures n * (e * (2 * p)) <= 2 * n * (f * p) && n * (2 * p) * e <= 2 * (n * p) * f
  {
    var m := 2 * n * p;
    ProductOrdered(m, e, f);
    assert n * (e * (2 * p)) == e * m && 2 * n * (f * p) == f * m;
    assert n * (2 * p) * e == e * m && 2 * (n * p) * f == f * m;
  }

  /** Across one step of the shift the series at most makes up for the lost ln 2, up to rounding. */
  lemma NextShiftSeries(c: nat, x: nat, a: nat, y: nat)
    requires 1 <= c < 2 * x && 1 <= x < 2 * c && 1 <= a < 2 * y && 1 <= y < 2 * a && a * x <= 2 * c * y
    ensures Series11((a - y) as real / (a + y) as real) <=
            Series11((c - x) as real / (c + x) as real) + Series11(1.0 / 3.0) + 1.0 / 300_000.0
  {
    hide Series11, Inside, Lower, Doubled;
    var z, r := (a - y) as real / (a + y) as real, (c - x) as real / (c + x) as real;
    if a <= y {
      NotPositive((a - y) as real, (a + y) as real);
      RatioClose(c, x);
      SeriesRises(z, 0.0);
      SeriesRises(-1.0 / 3.0, r);
      ThirdNegates();
    } else {
      var b := (a - 2 * y) as real / (a + 2 * y) as real;
      HalfArgument(a, y, b);
      DoublingAddsLn2(b);
      HalfBelow(c, x, a, y);
      SeriesRises(b, r);
    }
  }

  lemma NotPositive(p: real, q: real)
    requires p <= 0.0 && q > 0.0
    ensures p / q <= 0.0
  {
  }

  lemma ThirdNegates()
    ensures Series11(-1.0 / 3.0) == -Series11(1.0 / 3.0) && Series11(0.0) == 0.0
  {
    hide Terms;
    TermsNegate(1.0 / 3.0, 11);
    TermsAtZero(11);
    assert -(1.0 / 3.0) == -1.0 / 3.0;
  }

  lemma HalfArgument(a: nat, y: nat, b: real)
    requires 1 <= y <= a < 2 * y && b == (a - 2 * y) as real / (a + 2 * y) as real
    ensures Lower(b) && Doubled(b) == (a - y) as real / (a + y) as real
  {
    var p, q := (a - 2 * y) as real, (a + 2 * y) as real;
    assert b * q == p;
    assert 3.0 * p + q == 4.0 * (a - y) as real && 3.0 * q + p == 4.0 * (a + y) as real;
    Between(b, q, p, -1.0 / 3.0, 0.0);
    assert (3.0 * b + 1.0) * q == 3.0 * p + q && (3.0 + b) * q == 3.0 * q + p;
    SameQuotient(3.0 * b + 1.0, 3.0 + b, q, (a - y) as real, (a + y) as real);
  }

  lemma SameQuotient(n: real, d: real, q: real, m: real, e: real)
    requires d > 0.0 && q > 0.0 && e > 0.0 && n * q == 4.0 * m && d * q == 4.0 * e
    ensures n / d == m / e
  {
    var r := n / d;
    assert r * d == n;
    assert r * (d * q) == n * q;
    assert r * e == m;
  }

  lemma HalfBelow(c: nat, x: nat, a: nat, y: nat)
    requires c >= 1 && x >= 1 && a >= 1 && y >= 1 && a * x <= 2 * c * y
    ensures (a - 2 * y) as real / (a + 2 * y) as real <= (c - x) as real / (c + x) as real
  {
    var p, q, r, t := a as real, x as real, c as real, y as real;
    RealProducts(a, x, c, y, p, q, r, t);
    RatiosOrder(p, 2.0 * t, r, q);
    assert (a - 2 * y) as real == p - 2.0 * t && (a + 2 * y) as real == p + 2.0 * t;
    assert (c - x) as real == r - q && (c + x) as real == r + q;
  }

  lemma RealProducts(a: nat, x: nat, c: nat, y: nat, p: real, q: real, r: real, t: real)
    requires p == a as real && q == x as real && r == c as real && t == y as real && a * x <= 2 * c * y
    ensures p * q <= r * (2.0 * t)
  {
    assert (a * x) as real == p * q;
    assert (2 * c * y) as real == r * (2.0 * t);
  }

  lemma NextShiftFalls(n: nat, e: nat, f: nat)
    requires n >= 1 && 1 <= e <= f && ShiftOf(n, e) == ShiftOf(n, f) + 1
    ensures Exact(n, f) <= Exact(n, e) + 1.0 / 150.0
  {
    hide Series11, ShiftOf, Aligned;
    NextShiftRatio(n, e, f);
    var (c, x) := Aligned(n, e);
    var (a, y) := Aligned(n, f);
    AlignedClose(n, e);
    AlignedClose(n, f);
    NextShiftSeries(c, x, a, y);
    var s, l := ShiftOf(n, f) as real, Series11(1.0 / 3.0);
    ExactSum(n, e, s + 1.0, l);
    ExactSum(n, f, s, l);
    assert (s + 1.0) * l == s * l + l;
  }

  /** A larger denominator gives no higher logarithm, up to 1/150 of a thousandth. */
  lemma {:induction false} ExactFalls(n: nat, e: nat, f: nat)
    requires n >= 1 && 1 <= e <= f
    ensures Exact(n, f) <= Exact(n, e) + 1.0 / 150.0
    decreases f - e
  {
    hide Series11, Exact, BitLength;
    BitLengthRises(e, f);
    if 2 * e <= f {
      ExactFalls(n, 2 * e, f);
      DoubledDenominator(n, e);
      ThirdPositive();
    } else {
      BitLengthRises(f, 2 * e);
      BitLengthDoubles(e);
      if BitLength(f) == BitLength(e) { SameShiftFalls(n, e, f); } else { NextShiftFalls(n, e, f); }
    }
  }

  lemma ThirdPositive()
    ensures Series11(1.0 / 3.0) >= 0.0
  {
    hide Series11;
    SeriesRises(0.0, 1.0 / 3.0);
    ThirdNegates();
  }

  /**
   For numbers of up to thirty thousand bits together the fixed-point logarithm never rises by
   more than one thousandth when the denominator grows.
   */
  lemma LnMilliFallsButForOne(n: nat, e: nat, f: nat)
    requires n >= 1 && 1 <= e <= f && BitLength(n) + BitLength(f) <= 30_000
    ensures LnMilli(n, f) <= LnMilli(n, e) + 1
  {
    hide LnMilli, Exact, ExactMilli, BitLength;
    LnMilliAccurate(n, e, 11);
    LnMilliAccurate(n, f, 11);
    ExactIs(n, e);
    ExactIs(n, f);
    ExactFalls(n, e, f);
    BitLengthRises(e, f);
    BitLengthBounds(n);
    BitLengthBounds(e);
    assert Magnitude(ShiftOf(n, e) as real) <= 30_000.0 && Magnitude(ShiftOf(n, f) as real) <= 30_000.0;
  }
}
