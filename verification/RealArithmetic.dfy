/** Products and quotients of real numbers. */
module RealArithmetic {
  lemma ProductMonotone(x: real, y: real, factor: real)
    requires x <= y && 0.0 <= factor
    ensures x * factor <= y * factor
  {
  }

  lemma ProductStrictlyMonotone(x: real, y: real, factor: real)
    requires x < y && 0.0 < factor
    ensures x * factor < y * factor
  {
  }

  lemma ProductAntitone(x: real, y: real, factor: real)
    requires x <= y && factor <= 0.0
    ensures y * factor <= x * factor
  {
  }

  lemma ProductNonZero(x: real, y: real)
    requires x != 0.0 && y != 0.0
    ensures x * y != 0.0
  {
    ProductStrictlyMonotone(0.0, if 0.0 < x then x else -x, if 0.0 < y then y else -y);
  }

  lemma ProductSign(x: real, y: real)
    requires 0.0 <= x && 0.0 <= y
    ensures 0.0 <= x * y && (x * y == 0.0 <==> x == 0.0 || y == 0.0)
  {
  }

  lemma QuotientSign(d: real, p: real)
    requires 0.0 <= d && 0.0 < p
    ensures 0.0 <= d / p && (d == 0.0 <==> d / p == 0.0)
  {
    assert d == d / p * p;
  }
}
