/**
 Products and quotients of reals behind function symbols, with the few facts the other modules need
 about them, so that their proofs stay linear.
 */
module Reals {

  function Product(u: real, v: real): real { u * v }

  function Square(u: real): real { Product(u, u) }

  function Ratio(x: real, y: real): real
    requires y > 0.0
  {
    x / y
  }

  lemma ProductSign(u: real, v: real)
    ensures (u > 0.0 && v > 0.0) || (u < 0.0 && v < 0.0) ==> Product(u, v) > 0.0
    ensures u == 0.0 || v == 0.0 ==> Product(u, v) == 0.0
  {
  }

  lemma ProductNegative(u: real, v: real)
    ensures Product(u, -v) == -Product(u, v) && Product(-u, v) == -Product(u, v)
  {
  }

  lemma SquareSign(u: real)
    ensures Square(u) >= 0.0
    ensures Square(u) == 0.0 <==> u == 0.0
  {
    ProductSign(u, u);
  }

  lemma ProductSum(k: real, x: real, y: real)
    ensures Product(k, x + y) == Product(k, x) + Product(k, y)
    ensures Product(k, x - y) == Product(k, x) - Product(k, y)
  {
  }

  lemma Commute(u: real, v: real)
    ensures Product(u, v) == Product(v, u)
  {
  }

  lemma ProductOneMore(n: real, x: real)
    ensures Product(1.0 + n, x) == x + Product(n, x)
  {
  }

  lemma Distribute(k: real, x: real, y: real)
    ensures k * (x + y) == k * x + k * y
  {
  }

  lemma ProductMonotone(x: real, y: real, d: real)
    requires x <= y && d > 0.0
    ensures Product(x, d) <= Product(y, d)
    ensures Product(d, x) <= Product(d, y)
  {
  }

  lemma Quotient(x: real, d: real)
    requires d > 0.0
    ensures Product(Ratio(x, d), d) == x
    ensures Ratio(Product(x, d), d) == x
  {
  }

  lemma RatioDifference(x: real, y: real, d: real)
    requires d > 0.0
    ensures Ratio(x, d) - Ratio(y, d) == Ratio(x - y, d)
  {
  }

  lemma RatioNonnegative(x: real, d: real)
    requires x >= 0.0 && d > 0.0
    ensures Ratio(x, d) >= 0.0
  {
    var q := x / d;
    assert q * d == x;
    ProductSign(-q, d);
    ProductNegative(q, d);
  }

  lemma RatioMonotone(x: real, y: real, d: real)
    requires x <= y && d > 0.0
    ensures Ratio(x, d) <= Ratio(y, d)
  {
    RatioDifference(y, x, d);
    RatioNonnegative(y - x, d);
  }

  lemma ErrorTimes(total: real, n: real, error: real, bound: real)
    requires n > 0.0 && -bound <= error <= bound
    ensures (Ratio(total, n) + error) * n - total == error * n
    ensures -bound * n <= error * n <= bound * n
  {
    assert Ratio(total, n) * n == total;
  }

  /** A quotient that is off by at most `bound` multiplies back to within n times that. */
  lemma MultipliesBack(total: real, n: real, quotient: real, bound: real)
    requires n > 0.0 && -bound <= quotient - Ratio(total, n) <= bound
    ensures -bound * n <= quotient * n - total <= bound * n
  {
    hide Ratio;
    ErrorTimes(total, n, quotient - Ratio(total, n), bound);
  }
}
