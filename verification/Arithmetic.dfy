/** The nonlinear steps the other modules need, one at a time. */
module Arithmetic {

  lemma ProductNonNegative(a: int, b: int)
    requires 0 <= a && 0 <= b
    ensures 0 <= a * b
  {}

  lemma ProductMonotone(a: int, b: int, d: int)
    requires 0 <= d
    ensures a <= b ==> a * d <= b * d
  {
    if a <= b {
      ProductNonNegative(b - a, d);
    }
  }

  lemma FactorBound(a: int, b: int, limit: int)
    requires 0 < a && 0 <= b && a * b <= limit
    ensures b <= limit
  {
    ProductNonNegative(a - 1, b);
  }

  lemma Distribute(x: int, y: int, d: int)
    ensures (x + y) * d == x * d + y * d
  {}

  lemma DivMod(n: int, d: int)
    requires 0 < d
    ensures n == d * (n / d) + n % d
    ensures 0 <= n % d < d
    ensures 0 <= n ==> 0 <= n / d
  {
    if 0 <= n && n / d < 0 {
      ProductNonNegative(-(n / d) - 1, d);
    }
  }
}
