/** The few facts about products and quotients that proofs elsewhere lean on. */
module Arithmetic {
  lemma ProductGap(b: int, k: int)
    requires 0 <= b
    ensures 1 <= k ==> b <= b * k
    ensures k <= -1 ==> b * k <= -b
  {
    if 1 <= k {
      assert b * k == b + b * (k - 1);
    } else if k <= -1 {
      assert b * k == -b + b * (k + 1);
    }
  }

  lemma DivMod(n: nat, x: nat)
    requires 0 < x
    ensures n == x * (n / x) + n % x
  {
  }

  lemma ProductBelow(d: int, k: int, q: int, r: int)
    requires 0 <= r < d && k * d <= d * q + r
    ensures k <= q
  {
    assert k * d - d * q == d * (k - q);
    ProductGap(d, k - q);
  }

  lemma QuotientAtLeast(t: nat, d: nat, k: nat)
    requires 0 < d && k * d <= t
    ensures k <= t / d
  {
    DivMod(t, d);
    ProductBelow(d, k, t / d, t % d);
  }
}
