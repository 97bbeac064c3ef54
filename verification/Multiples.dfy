// Division with remainder, as far as buckets of a fixed length need it.

module Multiples {
  lemma AtLeastOnce(k: int, n: int)
    requires k >= 0 && n >= 1
    ensures k * n >= k
  {
    assert k * n == k * (n - 1) + k;
    assert k * (n - 1) >= 0;
  }

  lemma NotPositive(k: nat, n: int)
    requires n <= 0
    ensures k * n <= 0
  {
  }

  lemma MultiplesApart(a: nat, b: nat, k: nat)
    requires k > 0 && a % k == 0 && b % k == 0 && a < b
    ensures a + k <= b
  {
    var n := b / k - a / k;
    assert b - a == k * n;
    if n <= 0 {
      NotPositive(k, n);
    } else {
      AtLeastOnce(k, n);
    }
  }

  lemma UniqueQuotient(k: nat, q: int, r: nat, p: int, t: nat)
    requires r < k && t < k && k * q + r == k * p + t
    ensures q == p
  {
    assert k * q - k * p == k * (q - p);
    assert k * p - k * q == k * (p - q);
    if q > p {
      AtLeastOnce(k, q - p);
    } else if p > q {
      AtLeastOnce(k, p - q);
    }
  }

  lemma ModOfSum(k: nat, q: nat, r: nat)
    requires k > 0 && r < k
    ensures (k * q + r) % k == r
  {
    var a := k * q + r;
    UniqueQuotient(k, q, r, a / k, a % k);
  }

  lemma FloorMultiple(a: nat, k: nat)
    requires k > 0
    ensures (a - a % k) % k == 0 && (a + k) % k == a % k
  {
    var q := a / k;
    assert a - a % k == k * q;
    ModOfSum(k, q, 0);
    assert a + k == k * (q + 1) + a % k;
    ModOfSum(k, q + 1, a % k);
  }
}
