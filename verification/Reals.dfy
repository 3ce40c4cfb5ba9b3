/** Order and division facts the solver needs by name. */
module Reals {

  function Pow(x: real, n: nat): real {
    if n == 0 then 1.0 else x * Pow(x, n - 1)
  }

  lemma MulOrder(a: real, b: real, n: real)
    requires n > 0.0
    ensures a < b <==> a * n < b * n
    ensures a == b <==> a * n == b * n
  {
    assert (b - a) * n == b * n - a * n;
  }

  lemma MulNonNegative(a: real, b: real)
    requires a >= 0.0 && b >= 0.0
    ensures a * b >= 0.0
  {
  }

  lemma MulPositive(a: real, b: real)
    requires a > 0.0 && b > 0.0
    ensures a * b > 0.0
  {
  }

  /** The product as a number of its own, since the solver forgets the sign of a product. */
  lemma ProductAbove(a: real, b: real) returns (e: real)
    requires a > 0.0 && b > 0.0
    ensures e > 0.0 && e == a * b
  {
    MulPositive(a, b);
    e := a * b;
  }

  lemma DivMul(a: real, b: real)
    requires b != 0.0
    ensures (a / b) * b == a
  {
  }

  lemma DivUnique(a: real, b: real, q: real)
    requires b != 0.0 && a == q * b
    ensures a / b == q
  {
  }

  /** Comparing quotients over a positive divisor is comparing the dividends. */
  lemma DivOrder(a: real, b: real, n: real)
    requires n > 0.0
    ensures a / n < b / n <==> a < b
    ensures a / n == b / n <==> a == b
  {
    DivMul(a, n);
    DivMul(b, n);
    MulOrder(a / n, b / n, n);
  }

  lemma DivSign(a: real, n: real)
    requires n > 0.0
    ensures a > 0.0 <==> a / n > 0.0
    ensures a == 0.0 <==> a / n == 0.0
  {
    DivUnique(0.0, n, 0.0);
    DivOrder(0.0, a, n);
  }

  /** A mean lies where its scaled bounds say. */
  lemma DivBounds(sum: real, n: real, lo: real, hi: real)
    requires n > 0.0 && lo * n <= sum <= hi * n
    ensures lo <= sum / n <= hi
  {
    DivMul(sum, n);
    MulOrder(sum / n, lo, n);
    MulOrder(hi, sum / n, n);
  }

  lemma Distribute(a: real, b: real, c: real)
    ensures (a + b) * c == a * c + b * c && c * (a + b) == c * a + c * b
    ensures (a - b) * c == a * c - b * c && c * (a - b) == c * a - c * b
  {
  }

  lemma Associate(a: real, b: real, c: real)
    ensures (a * b) * c == a * (b * c)
  {
  }
}
