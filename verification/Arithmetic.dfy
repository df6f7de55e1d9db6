/** Division with remainder, where both operands vary. */
module Arithmetic {
  /** A quotient and remainder in range are the quotient and remainder. */
  lemma ModUnique(n: nat, d: nat, q: nat, r: nat)
    requires 0 <= r < d && n == q * d + r
    ensures n % d == r
  {
    QuotientLeast(q, n / d, d, r, n % d);
    QuotientLeast(n / d, q, d, n % d, r);
  }

  lemma QuotientLeast(a: nat, b: nat, d: nat, r: nat, r': nat)
    requires 0 <= r < d && 0 <= r' < d && a * d + r == b * d + r'
    ensures a >= b
  {
    if a < b {
      assert (a + 1) * d == a * d + d;
      MulMonotone(a + 1, b, d);
    }
  }

  lemma MulMonotone(a: nat, b: nat, d: nat)
    requires a <= b
    ensures a * d <= b * d
  {
  }
}
