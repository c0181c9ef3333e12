/** Facts about products, quotients and remainders. */
module Arithmetic {

  lemma AtLeastOnce(a: int, d: nat)
    requires a >= 1
    ensures a * d >= d
  {
  }

  lemma Scale(n: nat, a: nat, b: nat)
    requires a <= b
    ensures n * a <= n * b
  {
  }

  lemma QuotientIs(x: nat, k: nat, d: nat, r: nat)
    requires x == k * d + r && r < d
    ensures x / d == k && x % d == r
  {
    var q, m := x / d, x % d;
    assert x == q * d + m;
    assert (q - k) * d == r - m;
    if q > k { AtLeastOnce(q - k, d); }
    if q < k { AtLeastOnce(k - q, d); }
  }

  lemma NextRemainder(n: nat, k: nat)
    requires k >= 1
    ensures (n + 1) % k == if n % k == k - 1 then 0 else n % k + 1
  {
    var q, r := n / k, n % k;
    assert n == q * k + r;
    if r == k - 1 {
      assert n + 1 == (q + 1) * k + 0;
      QuotientIs(n + 1, q + 1, k, 0);
    } else {
      QuotientIs(n + 1, q, k, r + 1);
    }
  }

  /** Adding multiples of the divisor does not change the remainder. */
  lemma SameRemainder(a: nat, b: nat, d: nat, k: nat)
    requires d >= 1 && a == b + d * k
    ensures a % d == b % d
  {
    var q, r := b / d, b % d;
    assert b == q * d + r;
    assert a == (q + k) * d + r;
    QuotientIs(a, q + k, d, r);
  }

  lemma Expand(n: nat, i: nat, m: nat, t: nat)
    ensures (n * (i * m + t) + i) * 17 == (i + n * t) * 17 + i * (n * m * 17)
  {
    assert n * (i * m + t) == n * (i * m) + n * t;
    assert n * (i * m) == i * (n * m);
    assert i * (n * m * 17) == i * (n * m) * 17;
  }

  /** Twice the pairs among `n` things, from the pairs among one less. */
  lemma PairsNext(n: nat)
    requires n >= 1
    ensures n * (n - 1) == (n - 1) * (n - 2) + 2 * (n - 1)
  {
  }
}
