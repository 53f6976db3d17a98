/**
 Python's `round(x, k)` over exact reals: the nearest multiple of 10^-k, ties to the even multiple.
 Everything the derived metrics need from it is here: nearest, half-unit error, monotone, exact on
 its own outputs.
 */
module Rounding {
  import opened Reals

  function Pow10(k: nat): (p: real)
    ensures p >= 1.0
  {
    if k == 0 then 1.0 else 10.0 * Pow10(k - 1)
  }

  /** Nearest integer; a tie goes to the even neighbour. */
  function RoundInt(x: real): int {
    var f := x.Floor;
    var d := x - f as real;
    if d < 0.5 || (d == 0.5 && f % 2 == 0) then f else f + 1
  }

  /** Nearest multiple of 1/p. */
  function RoundAt(x: real, p: real): real
    requires p >= 1.0
  {
    Ratio(RoundInt(Product(x, p)) as real, p)
  }

  function Round(x: real, digits: nat): real {
    RoundAt(x, Pow10(digits))
  }

  /** No integer is closer, and an equally close one is odd. */
  lemma RoundIntNearest(x: real, m: int)
    ensures -0.5 <= RoundInt(x) as real - x <= 0.5
    ensures m != RoundInt(x) ==> m as real - x >= 0.5 || x - m as real >= 0.5
    ensures m != RoundInt(x) && (m as real - x == 0.5 || x - m as real == 0.5) ==> m % 2 == 1
  {
    var f := x.Floor;
    assert f as real <= x < f as real + 1.0;
    if m < f { assert m as real <= f as real - 1.0; }
    if m > f + 1 { assert m as real >= f as real + 2.0; }
  }

  lemma RoundIntMonotone(x: real, y: real)
    requires x <= y
    ensures RoundInt(x) <= RoundInt(y)
  {
    assert x.Floor <= y.Floor;
  }

  lemma RoundAtMonotone(x: real, y: real, p: real)
    requires x <= y && p >= 1.0
    ensures RoundAt(x, p) <= RoundAt(y, p)
  {
    ProductMonotone(x, y, p);
    RoundIntMonotone(Product(x, p), Product(y, p));
    RatioMonotone(RoundInt(Product(x, p)) as real, RoundInt(Product(y, p)) as real, p);
  }

  lemma RoundMonotone(x: real, y: real, digits: nat)
    requires x <= y
    ensures Round(x, digits) <= Round(y, digits)
  {
    RoundAtMonotone(x, y, Pow10(digits));
  }

  lemma RoundAtError(x: real, p: real)
    requires p >= 1.0
    ensures Ratio(-0.5, p) <= RoundAt(x, p) - x <= Ratio(0.5, p)
  {
    var u := Product(x, p);
    var n := RoundInt(u) as real;
    RoundIntNearest(u, 0);
    Quotient(x, p);
    RatioDifference(n, u, p);
    RatioMonotone(-0.5, n - u, p);
    RatioMonotone(n - u, 0.5, p);
  }

  /** Half a unit in the last kept digit is the most rounding moves a value. */
  lemma RoundError(x: real, digits: nat)
    ensures -0.5 / Pow10(digits) <= Round(x, digits) - x <= 0.5 / Pow10(digits)
  {
    RoundAtError(x, Pow10(digits));
  }

  lemma RoundAtFixesMultiples(n: int, p: real)
    requires p >= 1.0
    ensures RoundAt(Ratio(n as real, p), p) == Ratio(n as real, p)
  {
    Quotient(n as real, p);
    assert RoundInt(n as real) == n;
  }

  /** A value already at that precision comes back unchanged. */
  lemma RoundFixesMultiples(n: int, digits: nat)
    ensures Round(n as real / Pow10(digits), digits) == n as real / Pow10(digits)
  {
    RoundAtFixesMultiples(n, Pow10(digits));
  }

  lemma RoundNonnegative(x: real, digits: nat)
    requires x >= 0.0
    ensures Round(x, digits) >= 0.0
  {
    var p := Pow10(digits);
    RoundAtMonotone(0.0, x, p);
    assert Ratio(0.0, p) == 0.0;
    RoundAtFixesMultiples(0, p);
  }
}
