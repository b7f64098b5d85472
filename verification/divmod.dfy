/** Facts about Euclidean division by a positive divisor, used to count cycles. */
module DivMod {

  /** A positive multiple of `k` is at least `k`. */
  lemma {:induction false} MulAtLeast(d: int, k: nat)
    requires d >= 1
    ensures d * k >= k
    decreases d
  {
    if d > 1 {
      MulAtLeast(d - 1, k);
      assert d * k == (d - 1) * k + k;
    }
  }

  /** Division is determined by any quotient/remainder pair. */
  lemma DivUnique(x: int, k: int, q: int, r: int)
    requires k >= 1 && 0 <= r < k && x == q * k + r
    ensures x / k == q && x % k == r
  {
    var q', r' := x / k, x % k;
    assert x == q' * k + r' && 0 <= r' < k;
    assert (q - q') * k == r' - r by {
      assert q * k - q' * k == (q - q') * k;
    }
    if q > q' {
      MulAtLeast(q - q', k);
    } else if q < q' {
      MulAtLeast(q' - q, k);
    }
  }

  /** Taking one divisor's worth off the dividend lowers the quotient by one
      and keeps the remainder. */
  lemma DivStep(x: int, k: int)
    requires k >= 1 && x >= k
    ensures (x - k) % k == x % k && (x - k) / k + 1 == x / k
  {
    var q := (x - k) / k;
    var r := (x - k) % k;
    assert x - k == q * k + r;
    assert x == (q + 1) * k + r;
    DivUnique(x, k, q + 1, r);
  }
}
