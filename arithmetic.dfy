/** Small facts about Euclidean division and products that the solver does not find unaided. */
module Arithmetic {

  /** Euclidean division is determined by quotient and remainder. */
  lemma DivUnique(n: int, k: int, q: int, r: int)
    requires k > 0 && 0 <= r < k && n == q * k + r
    ensures n / k == q
  {
    var q0, r0 := n / k, n % k;
    assert n == q0 * k + r0;
    assert (q0 - q) * k == r - r0;
    MulStrict(q0 - q, 1, k);
    MulStrict(-1, q0 - q, k);
  }

  lemma MulStrict(a: int, b: int, k: int)
    requires k >= 1 && a * k < b * k
    ensures a < b
  {
  }

  lemma DivPlusOne(a: nat, k: nat)
    requires k >= 1
    ensures (a + k) / k == a / k + 1
  {
    assert a == (a / k) * k + a % k;
    DivUnique(a + k, k, a / k + 1, a % k);
  }

  lemma DivBounds(n: int, d: int)
    requires d > 0
    ensures d * (n / d) <= n < d * (n / d) + d
  {
  }

  /** The remainder of n is unchanged by taking one divisor off n. */
  lemma ModSubDivisor(n: int, k: int)
    requires k >= 1
    ensures (n - k) % k == n % k
  {
    DivUnique(n - k, k, n / k - 1, n % k);
  }
}
