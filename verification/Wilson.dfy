/**
  The Wilson score interval over the reals. The square root the program takes is a parameter: a
  non-negative real whose square is the radicand.
 */
module Wilson {
  import opened Wrappers
  import opened Reals

  const Z_95 := 1.959963984540054

  datatype Interval = Interval(rate: real, lower: real, upper: real)

  function Variance(p: real, n: real, z: real): real
    requires n > 0.0
  {
    p * (1.0 - p) / n + z * z / (4.0 * n * n)
  }

  function Radicand(flakes: int, n: int, z: real): real
    requires n > 0
  {
    Variance(flakes as real / n as real, n as real, z)
  }

  predicate IsRoot(root: real, flakes: int, n: int, z: real) {
    n > 0 ==> root >= 0.0 && root * root == Radicand(flakes, n, z)
  }

  function Max(a: real, b: real): real {
    if a >= b then a else b
  }

  function Min(a: real, b: real): real {
    if a <= b then a else b
  }

  function WilsonInterval(flakes: int, opportunities: int, z: real, root: real): Option<Interval>
    requires IsRoot(root, flakes, opportunities, z)
  {
    if opportunities <= 0 then None
    else
      Some(ScoreInterval(flakes as real / opportunities as real, opportunities as real, z, root))
  }

  function ScoreInterval(p: real, n: real, z: real, root: real): Interval
    requires n > 0.0
  {
    var z2 := z * z;
    assert z2 / n >= 0.0;
    Around(p, p + z2 / (2.0 * n), 1.0 + z2 / n, z, root)
  }

  function Around(p: real, numerator: real, denominator: real, z: real, root: real): Interval
    requires denominator > 0.0
  {
    var centre := numerator / denominator;
    var margin := z / denominator * root;
    Interval(p, Max(0.0, centre - margin), Min(1.0, centre + margin))
  }

  // ---------------------------------------------------------------------------------------------
  // Algebra, in the rate p, its complement q, the weight k = z^2/n and the half-width m = z * root
  // ---------------------------------------------------------------------------------------------

  ghost predicate HalfWidth(p: real, q: real, k: real, m: real) {
    && p >= 0.0 && q >= 0.0 && p + q == 1.0 && k >= 0.0 && m >= 0.0
    && m * m == k * (p * q) + k * k / 4.0
  }

  ghost function Low(p: real, k: real, m: real): real
    requires k >= 0.0
  {
    (p + k / 2.0 - m) / (1.0 + k)
  }

  ghost function High(p: real, k: real, m: real): real
    requires k >= 0.0
  {
    (p + k / 2.0 + m) / (1.0 + k)
  }

  /** The half-width against the rate. */
  lemma OneSide(p: real, q: real, k: real, m: real)
    requires HalfWidth(p, q, k, m)
    ensures (p + k / 2.0 - m) * (p + k / 2.0 + m) == (1.0 + k) * (p * p)
    ensures m <= p + k / 2.0
  {
    var a := p + k / 2.0;
    assert p * q == p - p * p by { assert q == 1.0 - p; }
    assert k * (p * q) == k * p - k * (p * p);
    assert a * a == p * p + k * p + k * k / 4.0;
    assert (a - m) * (a + m) == a * a - m * m;
    ProductIsNonNegative(p, p, p * p);
    ProductIsNonNegative(k, p * p, k * (p * p));
    SquaresOrder(m, a);
  }

  /** The half-width against the distance of the rate from one half. */
  lemma OtherSide(p: real, q: real, k: real, m: real)
    requires HalfWidth(p, q, k, m)
    ensures 2.0 * m >= k * (q - p)
  {
    var v, d := p * q, k * (q - p);
    ProductIsNonNegative(p, q, p * q);
    ProductIsNonNegative(k, v, k * v);
    ProductIsNonNegative(k, k * v, k * (k * v));
    assert (q - p) * (q - p) == 1.0 - 4.0 * v by {
      assert (q - p) * (q - p) == (q + p) * (q + p) - 4.0 * v;
    }
    assert d * d == k * k - 4.0 * (k * (k * v)) by {
      assert d * d == (k * k) * ((q - p) * (q - p));
    }
    assert (2.0 * m) * (2.0 * m) == 4.0 * (k * v) + k * k;
    SquaresOrder(d, 2.0 * m);
  }

  lemma Strictly(p: real, q: real, k: real, m: real)
    requires HalfWidth(p, q, k, m) && k > 0.0
    ensures p > 0.0 ==> 2.0 * m > k * (q - p)
    ensures m > 0.0
  {
    var v := p * q;
    ProductIsNonNegative(p, q, p * q);
    ProductIsNonNegative(k, v, k * v);
    ProductIsPositive(k, k, k * k);
    assert m * m == k * v + k * k / 4.0;
    NonZero(m);
    if q == 0.0 {
      assert k * (q - p) == -k;
    } else if p > 0.0 {
      ProductIsPositive(p, q, p * q);
      Narrower(k, v, q - p, m);
    }
  }

  lemma NonZero(m: real)
    requires m >= 0.0 && m * m > 0.0
    ensures m > 0.0
  {
  }

  lemma Narrower(k: real, v: real, e: real, m: real)
    requires k > 0.0 && v > 0.0 && m >= 0.0 && m * m == k * v + k * k / 4.0
    requires e <= 1.0
    ensures 2.0 * m > k * e
  {
    ProductIsPositive(k, v, k * v);
    assert (2.0 * m) * (2.0 * m) == 4.0 * (k * v) + k * k;
    SquaresOrder(k, 2.0 * m);
    Scale(e, k, 1.0);
  }

  lemma HighMirrorsLow(p: real, q: real, k: real, m: real)
    requires HalfWidth(p, q, k, m)
    ensures HalfWidth(q, p, k, m) && High(p, k, m) == 1.0 - Low(q, k, m)
  {
    assert p * q == q * p;
    var l, d := Low(q, k, m), 1.0 + k;
    Quotient(q + k / 2.0 - m, d, 0.0);
    assert (1.0 - l) * d == d - l * d;
    Quotient(p + k / 2.0 + m, d, 1.0 - l);
  }

  lemma LowIsBelow(p: real, q: real, k: real, m: real)
    requires HalfWidth(p, q, k, m)
    ensures 0.0 <= Low(p, k, m) <= p
  {
    OneSide(p, q, k, m);
    var kp := WeightedRate(p, q, k, m);
    LowBetween(p, k, kp, m);
  }

  lemma WeightedRate(p: real, q: real, k: real, m: real) returns (kp: real)
    requires HalfWidth(p, q, k, m)
    ensures kp == k * p && k - 2.0 * kp <= 2.0 * m
  {
    OtherSide(p, q, k, m);
    kp := k * p;
    assert k * (q - p) == k - 2.0 * kp by { assert q == 1.0 - p; }
  }

  lemma LowBetween(p: real, k: real, kp: real, m: real)
    requires k >= 0.0 && kp == k * p && m <= p + k / 2.0 && k - 2.0 * kp <= 2.0 * m
    ensures 0.0 <= Low(p, k, m) <= p
  {
    Quotient(p + k / 2.0 - m, 1.0 + k, 0.0);
    Quotient(p + k / 2.0 - m, 1.0 + k, p);
    assert p * (1.0 + k) == p + kp;
  }

  lemma BoundsAreOrdered(p: real, q: real, k: real, m: real)
    requires HalfWidth(p, q, k, m)
    ensures 0.0 <= Low(p, k, m) <= p <= High(p, k, m) <= 1.0
  {
    LowIsBelow(p, q, k, m);
    HighMirrorsLow(p, q, k, m);
    LowIsBelow(q, p, k, m);
  }

  /** The rate x is within reach of the observed rate: no more than z standard errors of x away. */
  ghost predicate Within(rate: real, k: real, x: real) {
    (rate - x) * (rate - x) <= k * (x * (1.0 - x))
  }

  /** The two bounds are the roots of (p - x)^2 = k x (1 - x), and between them it is an inequality. */
  lemma BoundsSolveTheScoreEquation(p: real, q: real, k: real, m: real, x: real)
    requires HalfWidth(p, q, k, m)
    ensures Low(p, k, m) <= x <= High(p, k, m) <==> Within(p, k, x)
  {
    hide *;
    var l, u := Roots(p, q, k, m);
    Between(p, k, m, x, l, u);
  }

  /** The bounds, with their denominator cleared. */
  lemma Roots(p: real, q: real, k: real, m: real) returns (l: real, u: real)
    requires HalfWidth(p, q, k, m)
    ensures k >= 0.0 && l == Low(p, k, m) && u == High(p, k, m) && l <= u
    ensures l * (1.0 + k) == p + k / 2.0 - m && u * (1.0 + k) == p + k / 2.0 + m
    ensures (p + k / 2.0 - m) * (p + k / 2.0 + m) == (1.0 + k) * (p * p)
  {
    l, u := Low(p, k, m), High(p, k, m);
    BoundsAreOrdered(p, q, k, m);
    OneSide(p, q, k, m);
    Quotient(p + k / 2.0 - m, 1.0 + k, 0.0);
    Quotient(p + k / 2.0 + m, 1.0 + k, 0.0);
  }

  lemma Between(p: real, k: real, m: real, x: real, l: real, u: real)
    requires k >= 0.0 && l <= u
    requires l * (1.0 + k) == p + k / 2.0 - m && u * (1.0 + k) == p + k / 2.0 + m
    requires (p + k / 2.0 - m) * (p + k / 2.0 + m) == (1.0 + k) * (p * p)
    ensures l <= x <= u <==> Within(p, k, x)
  {
    Factored(p, k, m, x, l, u);
    SignOfProduct(x - l, u - x, 1.0 + k, k * (x * (1.0 - x)) - (p - x) * (p - x));
  }

  lemma SignOfProduct(a: real, b: real, d: real, product: real)
    requires a + b >= 0.0 && d > 0.0 && product == (a * b) * d
    ensures product >= 0.0 <==> a >= 0.0 && b >= 0.0
  {
    var ab := a * b;
    PositiveFactor(ab, d, product);
    if a < 0.0 {
      ProductIsPositive(-a, b, -ab);
    } else if b < 0.0 {
      ProductIsPositive(a, -b, -ab);
    } else {
      ProductIsNonNegative(a, b, ab);
    }
  }

  lemma Factored(p: real, k: real, m: real, x: real, l: real, u: real)
    requires k >= 0.0
    requires (p + k / 2.0 - m) * (p + k / 2.0 + m) == (1.0 + k) * (p * p)
    requires l * (1.0 + k) == p + k / 2.0 - m && u * (1.0 + k) == p + k / 2.0 + m
    ensures k * (x * (1.0 - x)) - (p - x) * (p - x) == ((x - l) * (u - x)) * (1.0 + k)
  {
    var d := 1.0 + k;
    Vieta(p, d, l, u);
    assert (l + u) * d == 2.0 * p + k;
    Expanded(x, l, u, d);
    assert x * ((l + u) * d) == 2.0 * (p * x) + k * x;
    assert (x * x) * d == x * x + k * (x * x);
    assert (p - x) * (p - x) == p * p - 2.0 * (p * x) + x * x;
    assert k * (x * (1.0 - x)) == k * x - k * (x * x);
  }

  lemma Vieta(p: real, d: real, l: real, u: real)
    requires d > 0.0 && (l * d) * (u * d) == d * (p * p)
    ensures (l * u) * d == p * p
  {
    assert (l * d) * (u * d) == ((l * u) * d) * d;
    Scale((l * u) * d, d, p * p);
  }

  lemma Expanded(x: real, l: real, u: real, d: real)
    ensures ((x - l) * (u - x)) * d == x * ((l + u) * d) - (l * u) * d - (x * x) * d
  {
    assert (x - l) * (u - x) == x * (l + u) - l * u - x * x;
    assert (x * (l + u)) * d == x * ((l + u) * d);
  }

  /** The half-width rises more slowly than the rate. */
  lemma HalfWidthRisesSlowly(p: real, q: real, r: real, t: real, k: real, m: real, w: real)
    requires HalfWidth(p, q, k, m) && HalfWidth(r, t, k, w) && p < r && k > 0.0
    ensures w - m < r - p
  {
    hide HalfWidth;
    var slope := Outreach(p, q, r, t, k, m, w);
    DifferenceOfSquares(p, q, r, t, k, m, w);
    SmallerFactor(w - m, m + w, slope, r - p);
  }

  /** Together two half-widths reach past the slope of their squares. */
  lemma Outreach(p: real, q: real, r: real, t: real, k: real, m: real, w: real) returns (slope: real)
    requires HalfWidth(p, q, k, m) && HalfWidth(r, t, k, w) && p < r && k > 0.0
    ensures slope == k * (q - r) && slope < m + w && m + w > 0.0
  {
    hide HalfWidth;
    Proportions(p, q, k, m);
    Proportions(r, t, k, w);
    var a := Reach(p, q, k, m);
    var b := Reach(r, t, k, w);
    slope := Average(k, q - p, t - r, q - r, a, b);
  }

  lemma Proportions(p: real, q: real, k: real, m: real)
    requires HalfWidth(p, q, k, m)
    ensures p >= 0.0 && q >= 0.0 && p + q == 1.0 && k >= 0.0 && m >= 0.0
  {
  }

  lemma Reach(p: real, q: real, k: real, m: real) returns (reach: real)
    requires HalfWidth(p, q, k, m) && k > 0.0
    ensures reach == k * (q - p) && reach <= 2.0 * m && m > 0.0 && (p > 0.0 ==> reach < 2.0 * m)
  {
    OtherSide(p, q, k, m);
    Strictly(p, q, k, m);
    reach := k * (q - p);
  }

  lemma Average(k: real, a: real, b: real, c: real, ka: real, kb: real) returns (kc: real)
    requires a + b == 2.0 * c && ka == k * a && kb == k * b
    ensures kc == k * c && ka + kb == 2.0 * kc
  {
    kc := k * c;
    assert ka + kb == k * (a + b);
  }

  lemma SmallerFactor(a: real, b: real, c: real, d: real)
    requires a * b == c * d && c < b && b > 0.0 && d > 0.0
    ensures a < d
  {
    Scale(c, d, b);
    assert b * d == d * b;
    Scale(a, b, d);
  }

  lemma DifferenceOfSquares(p: real, q: real, r: real, t: real, k: real, m: real, w: real)
    requires HalfWidth(p, q, k, m) && HalfWidth(r, t, k, w)
    ensures (w - m) * (m + w) == (k * (q - r)) * (r - p)
  {
    assert r * t - p * q == (q - r) * (r - p) by {
      assert t == p + q - r;
      assert r * t == r * p + r * q - r * r;
    }
    assert k * (r * t) - k * (p * q) == k * (r * t - p * q);
    assert k * ((q - r) * (r - p)) == (k * (q - r)) * (r - p);
    assert (w - m) * (m + w) == w * w - m * m;
  }

  lemma LowRisesWithTheRate(p: real, q: real, r: real, t: real, k: real, m: real, w: real)
    requires HalfWidth(p, q, k, m) && HalfWidth(r, t, k, w) && p < r && k > 0.0
    ensures Low(p, k, m) < Low(r, k, w)
  {
    HalfWidthRisesSlowly(p, q, r, t, k, m, w);
    QuotientsOrder(p + k / 2.0 - m, r + k / 2.0 - w, 1.0 + k);
  }

  lemma QuotientsOrder(a: real, b: real, d: real)
    requires a < b && d > 0.0
    ensures a / d < b / d
  {
    Quotient(a, d, b / d);
    Quotient(b, d, b / d);
  }

  /** At one rate, less weight on the prior moves the lower bound up. */
  lemma LowRisesWithEvidence(p: real, q: real, k: real, j: real, m: real, w: real)
    requires HalfWidth(p, q, k, m) && HalfWidth(p, q, j, w) && 0.0 < p && j < k
    ensures Low(p, k, m) < Low(p, j, w)
  {
    hide *;
    HalfWidthRises(p, q, k, j, m, w);
    Conjugate(p, q, k, m);
    Conjugate(p, q, j, w);
    LargerFactor(Low(p, k, m), Conjugated(p, k, m), Low(p, j, w), Conjugated(p, j, w), Square(p));
  }

  ghost function Conjugated(p: real, k: real, m: real): real {
    p + k / 2.0 + m
  }

  ghost function Square(p: real): real {
    p * p
  }

  lemma HalfWidthRises(p: real, q: real, k: real, j: real, m: real, w: real)
    requires HalfWidth(p, q, k, m) && HalfWidth(p, q, j, w) && 0.0 < p && j < k
    ensures 0.0 <= j && 0.0 < Conjugated(p, j, w) < Conjugated(p, k, m)
  {
    ProductIsNonNegative(p, q, p * q);
    HalfWidthRisesWithWeight(p * q, k, j, m, w);
  }

  lemma HalfWidthRisesWithWeight(v: real, k: real, j: real, m: real, w: real)
    requires v >= 0.0 && 0.0 <= j < k && m >= 0.0 && w >= 0.0
    requires m * m == k * v + k * k / 4.0 && w * w == j * v + j * j / 4.0
    ensures w <= m
  {
    ProductIsNonNegative(k - j, v, (k - j) * v);
    assert k * v - j * v == (k - j) * v;
    ProductIsNonNegative(k - j, k + j, (k - j) * (k + j));
    assert k * k - j * j == (k - j) * (k + j);
    SquaresOrder(w, m);
  }

  lemma LargerFactor(x: real, a: real, y: real, b: real, c: real)
    requires x * a == c && y * b == c && c > 0.0 && 0.0 < b < a
    ensures x < y
  {
    var gap := y * a - c;
    PositiveFactor(y, b, c);
    ProductIsPositive(a - b, y, gap);
    PositiveFactor(y - x, a, gap);
  }

  lemma Conjugate(p: real, q: real, k: real, m: real)
    requires HalfWidth(p, q, k, m) && p > 0.0
    ensures k >= 0.0 && Low(p, k, m) * Conjugated(p, k, m) == Square(p) && Square(p) > 0.0
  {
    OneSide(p, q, k, m);
    ProductIsPositive(p, p, p * p);
    var c, d := p + k / 2.0, 1.0 + k;
    var l := Low(p, k, m);
    Quotient(c - m, d, 0.0);
    assert (l * d) * (c + m) == (l * (c + m)) * d;
    assert d * (p * p) == (p * p) * d;
    Scale(l * (c + m), d, p * p);
  }

  // ---------------------------------------------------------------------------------------------
  // The interval
  // ---------------------------------------------------------------------------------------------

  ghost function Rate(flakes: int, n: int): real
    requires n > 0
  {
    flakes as real / n as real
  }

  ghost function Weight(n: int, z: real): real
    requires n > 0
    ensures Weight(n, z) >= 0.0
  {
    SquareIsNonNegative(z);
    Quotient(z * z, n as real, 0.0);
    z * z / n as real
  }

  lemma SquareIsNonNegative(z: real)
    ensures z * z >= 0.0
  {
  }

  lemma RateIsAProportion(flakes: int, n: int)
    requires 0 <= flakes <= n && n > 0
    ensures 0.0 <= Rate(flakes, n) <= 1.0
    ensures flakes > 0 ==> Rate(flakes, n) > 0.0
  {
    Quotient(flakes as real, n as real, 0.0);
    Quotient(flakes as real, n as real, 1.0);
    PositiveFactor(Rate(flakes, n), n as real, flakes as real);
  }

  lemma Widths(flakes: int, n: int, z: real, root: real)
    requires 0 <= flakes <= n && n > 0 && z >= 0.0 && IsRoot(root, flakes, n, z)
    ensures HalfWidth(Rate(flakes, n), 1.0 - Rate(flakes, n), Weight(n, z), z * root)
  {
    RateIsAProportion(flakes, n);
    ProductIsNonNegative(z, root, z * root);
    SquareOfHalfWidth(Rate(flakes, n), z, n as real, root);
  }

  /** The program's expressions in terms of rate, weight and half-width; neither clamp ever fires. */
  lemma IntervalInTerms(flakes: int, n: int, z: real, root: real)
    requires 0 <= flakes <= n && n > 0 && z >= 0.0 && IsRoot(root, flakes, n, z)
    ensures WilsonInterval(flakes, n, z, root)
         == Some(Interval(Rate(flakes, n), Low(Rate(flakes, n), Weight(n, z), z * root),
                          High(Rate(flakes, n), Weight(n, z), z * root)))
  {
    Widths(flakes, n, z, root);
    BoundsAreOrdered(Rate(flakes, n), 1.0 - Rate(flakes, n), Weight(n, z), z * root);
    ScoreInTerms(Rate(flakes, n), n as real, z, root, Weight(n, z));
  }

  lemma ScoreInTerms(p: real, n: real, z: real, root: real, k: real)
    requires n > 0.0 && k == z * z / n && k >= 0.0
    ensures ScoreInterval(p, n, z, root)
         == Interval(p, Max(0.0, Low(p, k, z * root)), Min(1.0, High(p, k, z * root)))
  {
    HalfOf(z * z, n);
    AroundInTerms(p, k, z, root);
  }

  lemma AroundInTerms(p: real, k: real, z: real, root: real)
    requires k >= 0.0
    ensures Around(p, p + k / 2.0, 1.0 + k, z, root)
         == Interval(p, Max(0.0, Low(p, k, z * root)), Min(1.0, High(p, k, z * root)))
  {
    Splits(p + k / 2.0, z, root, 1.0 + k);
  }

  lemma HalfOf(a: real, r: real)
    requires r > 0.0
    ensures a / (2.0 * r) == a / r / 2.0
  {
    Quotient(a, r, 0.0);
    Quotient(a, 2.0 * r, a / r / 2.0);
    assert (a / r / 2.0) * (2.0 * r) == a / r * r;
  }

  lemma SquareOfHalfWidth(p: real, z: real, n: real, root: real)
    requires n > 0.0 && root * root == Variance(p, n, z)
    ensures var k := z * z / n; (z * root) * (z * root) == k * (p * (1.0 - p)) + k * k / 4.0
  {
    var k, v := z * z / n, p * (1.0 - p);
    assert (z * root) * (z * root) == (z * z) * (root * root);
    assert z * z == k * n;
    var a, b := v / n, z * z / (4.0 * n * n);
    assert a * n == v;
    assert b * (4.0 * n * n) == z * z;
    assert (k * n) * a == k * v by { assert (k * n) * a == k * (a * n); }
    assert (4.0 * n * n) * b == k * n;
    assert n * (4.0 * (n * b) - k) == 0.0;
    assert 4.0 * (n * b) == k;
    assert (k * n) * b == k * (n * b);
  }

  lemma Splits(c: real, z: real, root: real, d: real)
    requires d > 0.0
    ensures c / d - z / d * root == (c - z * root) / d
    ensures c / d + z / d * root == (c + z * root) / d
  {
    var a, b := c / d, z / d;
    assert a * d == c && b * d == z;
    assert (a - b * root) * d == c - z * root;
    assert (a + b * root) * d == c + z * root;
  }

  /** Undefined without opportunities; otherwise the interval holds the rate and stays inside [0, 1]. */
  lemma IntervalHoldsTheRate(flakes: int, n: int, z: real, root: real)
    requires 0 <= flakes <= n && z >= 0.0 && IsRoot(root, flakes, n, z)
    ensures WilsonInterval(flakes, n, z, root).None? <==> n == 0
    ensures n > 0 ==>
      var i := WilsonInterval(flakes, n, z, root).value;
      0.0 <= i.lower <= i.rate <= i.upper <= 1.0 && i.rate == flakes as real / n as real
  {
    if n > 0 {
      Widths(flakes, n, z, root);
      IntervalInTerms(flakes, n, z, root);
      BoundsAreOrdered(Rate(flakes, n), 1.0 - Rate(flakes, n), Weight(n, z), z * root);
    }
  }

  /** What the interval means: it holds exactly the rates x from which the observed rate is at most z
      standard errors away, the standard error being that of x. */
  lemma IntervalIsTheScoreTest(flakes: int, n: int, z: real, root: real, x: real)
    requires 0 <= flakes <= n && n > 0 && z >= 0.0 && IsRoot(root, flakes, n, z)
    ensures var i := WilsonInterval(flakes, n, z, root).value;
            i.lower <= x <= i.upper <==> Within(i.rate, Weight(n, z), x)
  {
    hide *;
    Widths(flakes, n, z, root);
    IntervalInTerms(flakes, n, z, root);
    BoundsSolveTheScoreEquation(Rate(flakes, n), 1.0 - Rate(flakes, n), Weight(n, z), z * root, x);
  }

  /** More flakes out of as many runs raise both bounds. */
  lemma BoundsRiseWithFlakes(f: int, g: int, n: int, z: real, root: real, other: real)
    requires 0 <= f < g <= n && z > 0.0 && IsRoot(root, f, n, z) && IsRoot(other, g, n, z)
    ensures WilsonInterval(f, n, z, root).value.lower < WilsonInterval(g, n, z, other).value.lower
    ensures WilsonInterval(f, n, z, root).value.upper < WilsonInterval(g, n, z, other).value.upper
  {
    Widths(f, n, z, root);
    Widths(g, n, z, other);
    IntervalInTerms(f, n, z, root);
    IntervalInTerms(g, n, z, other);
    RateRises(f, g, n);
    var p, r, k := Rate(f, n), Rate(g, n), Weight(n, z);
    WeightIsPositive(n, z);
    LowRisesWithTheRate(p, 1.0 - p, r, 1.0 - r, k, z * root, z * other);
    HighMirrorsLow(p, 1.0 - p, k, z * root);
    HighMirrorsLow(r, 1.0 - r, k, z * other);
    LowRisesWithTheRate(1.0 - r, r, 1.0 - p, p, k, z * other, z * root);
  }

  lemma RateRises(f: int, g: int, n: int)
    requires f < g && n > 0
    ensures Rate(f, n) < Rate(g, n)
  {
    Quotient(f as real, n as real, 0.0);
    Quotient(g as real, n as real, 0.0);
    Scale(Rate(f, n), n as real, Rate(g, n));
  }

  lemma WeightIsPositive(n: int, z: real)
    requires n > 0 && z > 0.0
    ensures Weight(n, z) > 0.0
  {
    ProductIsPositive(z, z, z * z);
    Quotient(z * z, n as real, 0.0);
    assert Weight(n, z) * n as real == z * z;
    PositiveFactor(Weight(n, z), n as real, z * z);
  }

  lemma WeightFalls(n: int, more: int, z: real)
    requires 0 < n < more && z > 0.0
    ensures 0.0 < Weight(more, z) < Weight(n, z)
  {
    WeightIsPositive(more, z);
    var w, v := Weight(n, z), Weight(more, z);
    Quotient(z * z, n as real, 0.0);
    Quotient(z * z, more as real, 0.0);
    Scale(n as real, v, more as real);
    assert n as real * v == v * n as real && more as real * v == v * more as real;
    Scale(v, n as real, w);
  }

  /** Seen longer at the same rate, the interval tightens on both sides: a flaky job's rank rises, and
      the worst a job that sometimes passes could be falls. */
  lemma IntervalTightensWithEvidence(f: int, n: int, g: int, more: int, z: real, root: real, other: real)
    requires 0 <= f <= n && 0 < n < more && 0 <= g <= more && g * n == f * more && z > 0.0
    requires IsRoot(root, f, n, z) && IsRoot(other, g, more, z)
    ensures var i, j := WilsonInterval(f, n, z, root).value, WilsonInterval(g, more, z, other).value;
            && i.rate == j.rate
            && (f > 0 ==> i.lower < j.lower)
            && (f < n ==> j.upper < i.upper)
  {
    SameRate(f, n, g, more);
    Widths(f, n, z, root);
    Widths(g, more, z, other);
    IntervalInTerms(f, n, z, root);
    IntervalInTerms(g, more, z, other);
    WeightFalls(n, more, z);
    RateIsAProportion(f, n);
    var p, k, j := Rate(f, n), Weight(n, z), Weight(more, z);
    if f > 0 {
      LowRisesWithEvidence(p, 1.0 - p, k, j, z * root, z * other);
    }
    if f < n {
      HighMirrorsLow(p, 1.0 - p, k, z * root);
      HighMirrorsLow(p, 1.0 - p, j, z * other);
      RateRises(f, n, n);
      Quotient(n as real, n as real, 1.0);
      LowRisesWithEvidence(1.0 - p, p, k, j, z * root, z * other);
    }
  }

  lemma SameRate(f: int, n: int, g: int, more: int)
    requires 0 < n && 0 < more && g * n == f * more
    ensures Rate(f, n) == Rate(g, more)
  {
    var p, r := Rate(f, n), Rate(g, more);
    var a, b := n as real, more as real;
    Quotient(f as real, a, 0.0);
    Quotient(g as real, b, 0.0);
    assert (g * n) as real == g as real * a && (f * more) as real == f as real * b;
    assert (r * b) * a == (r * a) * b && (p * a) * b == (r * b) * a;
    Scale(p * a, b, r * a);
    Scale(p, a, r);
  }

  /** The lower bound exceeds x exactly when x is below the rate and more than z standard errors away. */
  lemma LowerExceedsIff(g: int, m: int, z: real, root: real, x: real)
    requires 0 <= g <= m && m > 0 && z >= 0.0 && IsRoot(root, g, m, z)
    ensures var i := WilsonInterval(g, m, z, root).value;
            i.lower > x <==> x < i.rate && !Within(i.rate, Weight(m, z), x)
  {
    hide *;
    IntervalHoldsTheRate(g, m, z, root);
    IntervalIsTheScoreTest(g, m, z, root, x);
  }

  /** One job outranks another exactly when the other's lower bound is below its rate and more than z
      standard errors away from it: a high rate on few runs can outrank a low rate on many. */
  lemma OutranksIff(f: int, n: int, g: int, m: int, z: real, root: real, other: real)
    requires 0 <= f <= n && n > 0 && 0 <= g <= m && m > 0 && z >= 0.0
    requires IsRoot(root, f, n, z) && IsRoot(other, g, m, z)
    ensures var x, rate := WilsonInterval(f, n, z, root).value.lower, g as real / m as real;
            WilsonInterval(g, m, z, other).value.lower > x <==> x < rate && !Within(rate, Weight(m, z), x)
  {
    hide *;
    IntervalHoldsTheRate(f, n, z, root);
    IntervalHoldsTheRate(g, m, z, other);
    LowerExceedsIff(g, m, z, other, WilsonInterval(f, n, z, root).value.lower);
  }

  /** A sufficient condition that needs no square root: a rate far enough above the other rate outranks it,
      however many runs the other was seen on. */
  lemma FarHigherRateOutranks(f: int, n: int, g: int, m: int, z: real, root: real, other: real)
    requires 0 <= f <= n && n > 0 && 0 <= g <= m && m > 0 && z >= 0.0
    requires IsRoot(root, f, n, z) && IsRoot(other, g, m, z)
    requires FarAbove(Rate(g, m), Rate(f, n), Weight(m, z))
    ensures WilsonInterval(g, m, z, other).value.lower > WilsonInterval(f, n, z, root).value.lower
  {
    hide *;
    IntervalHoldsTheRate(f, n, z, root);
    OutranksIff(f, n, g, m, z, root, other);
    assert Rate(f, n) == f as real / n as real && Rate(g, m) == g as real / m as real by { RateIs(f, n); RateIs(g, m); }
    FurtherBelow(Rate(g, m), Rate(f, n), WilsonInterval(f, n, z, root).value.lower, Weight(m, z));
  }

  lemma RateIs(f: int, n: int)
    requires n > 0
    ensures Rate(f, n) == f as real / n as real
  {
  }

  ghost predicate FarAbove(r: real, p: real, k: real) {
    p < r && (r - p) * (r - p) > k * p
  }

  lemma FurtherBelow(r: real, p: real, x: real, k: real)
    requires 0.0 <= x <= p && k >= 0.0 && FarAbove(r, p, k)
    ensures x < r && !Within(r, k, x)
  {
    var a, b := r - x, r - p;
    ProductIsNonNegative(a - b, a + b, a * a - b * b);
    ProductIsNonNegative(x, x, x - x * (1.0 - x));
    var y := x * (1.0 - x);
    ProductIsNonNegative(k, p - y, k * p - k * y);
  }

  /** The example the ranking is motivated by does not come out that way: one flake in two runs still
      has the higher lower bound than fifty in a thousand. */
  lemma OneInTwoStillOutranksFiftyInAThousand(root: real, other: real)
    requires IsRoot(root, 1, 2, Z_95) && IsRoot(other, 50, 1000, Z_95)
    ensures WilsonInterval(1, 2, Z_95, root).value.lower > WilsonInterval(50, 1000, Z_95, other).value.lower
  {
    assert Rate(1, 2) == 0.5 && Rate(50, 1000) == 0.05;
    assert Weight(2, Z_95) < 1.921;
    FarHigherRateOutranks(50, 1000, 1, 2, Z_95, other, root);
  }

  // ---------------------------------------------------------------------------------------------
  // Jobs that never, or always, flaked
  // ---------------------------------------------------------------------------------------------

  lemma RootAtTheEnds(n: int, z: real)
    requires n > 0 && z >= 0.0
    ensures var root := z / (2.0 * n as real); IsRoot(root, 0, n, z) && IsRoot(root, n, n, z)
  {
    var m := n as real;
    var root := z / (2.0 * m);
    assert root * (2.0 * m) == z;
    assert z * z == root * root * (4.0 * m * m);
    Quotient(z * z, 4.0 * m * m, root * root);
    assert 0 as real / m == 0.0 && m / m == 1.0;
    assert 0.0 * (1.0 - 0.0) / m == 0.0 && 1.0 * (1.0 - 1.0) / m == 0.0;
  }

  lemma EndsOfAround(m: real, z: real)
    requires m > 0.0 && z >= 0.0
    ensures var k, root := z * z / m, z / (2.0 * m);
            && k >= 0.0 && z * root == k / 2.0 && 1.0 + k > 0.0
            && k / (1.0 + k) == z * z / (m + z * z) && 1.0 / (1.0 + k) == m / (m + z * z)
            && 0.0 <= k / (1.0 + k) <= 1.0 && 0.0 <= 1.0 / (1.0 + k) <= 1.0
  {
  }

  /** Half of z^2 / m, as the numerator has it and as the margin has it. */
  lemma Halves(m: real, z: real, k: real, root: real)
    requires m > 0.0 && k == z * z / m && root == z / (2.0 * m)
    ensures z * z / (2.0 * m) == k / 2.0 && z * root == k / 2.0
  {
  }

  lemma AroundAnEnd(p: real, k: real, z: real, root: real)
    requires k >= 0.0 && z * root == k / 2.0
    ensures var i := Around(p, p + k / 2.0, 1.0 + k, z, root);
            && i.rate == p && i.lower == Max(0.0, p / (1.0 + k)) && i.upper == Min(1.0, (p + k) / (1.0 + k))
  {
    var d, half := 1.0 + k, k / 2.0;
    MarginIs(d, z, root, half);
    Split(p, half, d);
    var centre, margin := (p + half) / d, z / d * root;
    assert half + half == k;
    assert centre - margin == p / d && centre + margin == (p + k) / d;
  }

  lemma MarginIs(d: real, z: real, root: real, half: real)
    requires d > 0.0 && z * root == half
    ensures z / d * root == half / d
  {
  }

  lemma Split(p: real, half: real, d: real)
    requires d > 0.0
    ensures (p + half) / d - half / d == p / d && (p + half) / d + half / d == (p + (half + half)) / d
  {
  }

  lemma ScoreAtTheEnds(m: real, z: real, k: real, root: real)
    requires m > 0.0 && z >= 0.0 && k == z * z / m && root == z / (2.0 * m)
    ensures ScoreInterval(0.0, m, z, root) == Interval(0.0, 0.0, k / (1.0 + k))
    ensures ScoreInterval(1.0, m, z, root) == Interval(1.0, 1.0 / (1.0 + k), 1.0)
  {
    hide Around;
    EndsOfAround(m, z);
    Halves(m, z, k, root);
    AroundAnEnd(0.0, k, z, root);
    AroundAnEnd(1.0, k, z, root);
    WholeIsOne(1.0 + k);
    assert 0.0 / (1.0 + k) == 0.0;
  }

  lemma WholeIsOne(d: real)
    requires d > 0.0
    ensures d / d == 1.0
  {
  }

  /** A job that never flaked may flake at a rate up to z^2 / (n + z^2); one that always did has not been shown
      to flake at a rate above n / (n + z^2): three flakes out of three are not certainty. */
  lemma NeverAndAlwaysFlaky(n: int, z: real)
    requires n > 0 && z >= 0.0
    ensures var m, root := n as real, z / (2.0 * n as real);
            && IsRoot(root, 0, n, z) && IsRoot(root, n, n, z)
            && WilsonInterval(0, n, z, root) == Some(Interval(0.0, 0.0, z * z / (m + z * z)))
            && WilsonInterval(n, n, z, root) == Some(Interval(1.0, m / (m + z * z), 1.0))
  {
    hide IsRoot, Radicand, ScoreInterval;
    var m, root := n as real, z / (2.0 * n as real);
    RootAtTheEnds(n, z);
    EndsOfAround(m, z);
    ScoreAtTheEnds(m, z, z * z / m, root);
    WholeIsOne(m);
    assert 0 as real / m == 0.0;
  }

  /** At the confidence the board uses, three flakes out of three have a lower bound of 0.4385. */
  lemma ThreeOfThreeIsNotCertain(root: real)
    requires IsRoot(root, 3, 3, Z_95) && root == Z_95 / 6.0
    ensures var i := WilsonInterval(3, 3, Z_95, root).value;
            i.rate == 1.0 && 0.438502968244 < i.lower < 0.438502968245 && i.upper == 1.0
  {
    NeverAndAlwaysFlaky(3, Z_95);
    var square := Z_95 * Z_95;
    Quotient(3.0, 3.0 + square, 0.438502968244);
    Quotient(3.0, 3.0 + square, 0.438502968245);
  }
}
