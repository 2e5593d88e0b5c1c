/** Order facts about products and quotients of reals. */
module Reals {

  lemma ProductIsPositive(a: real, b: real, product: real)
    requires a > 0.0 && b > 0.0 && product == a * b
    ensures product > 0.0
  {
  }

  lemma ProductIsNonNegative(a: real, b: real, product: real)
    requires a >= 0.0 && b >= 0.0 && product == a * b
    ensures product >= 0.0
  {
  }

  lemma PositiveFactor(a: real, b: real, product: real)
    requires b > 0.0 && product == a * b
    ensures a > 0.0 <==> product > 0.0
    ensures a >= 0.0 <==> product >= 0.0
  {
    if a > 0.0 { ProductIsPositive(a, b, product); }
    if a < 0.0 { ProductIsPositive(-a, b, -product); }
  }

  lemma Scale(a: real, b: real, c: real)
    requires b > 0.0
    ensures a <= c <==> a * b <= c * b
    ensures a < c <==> a * b < c * b
    ensures a == c <==> a * b == c * b
  {
    PositiveFactor(c - a, b, c * b - a * b);
    PositiveFactor(a - c, b, a * b - c * b);
  }

  lemma SquaresOrder(a: real, b: real)
    requires b >= 0.0
    ensures a * a <= b * b ==> a <= b
    ensures a * a < b * b ==> a < b
  {
    if a > b {
      ProductIsPositive(a - b, a + b, a * a - b * b);
    }
  }

  lemma Quotient(a: real, b: real, c: real)
    requires b > 0.0
    ensures a / b * b == a
    ensures a / b <= c <==> a <= c * b
    ensures a / b >= c <==> a >= c * b
    ensures a / b == c <==> a == c * b
  {
    var q := a / b;
    assert q * b == a;
    Scale(q, b, c);
  }
}
