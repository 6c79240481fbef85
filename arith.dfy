/** Facts about Euclidean division and remainder used by the proxy rotation and the progress percentage. */
module Arith {

  lemma MulAtLeast(a: int, b: int)
    requires a >= 1 && b >= 0
    ensures a * b >= b
  {
  }

  /** `n % L` is the remainder of any split `n == q * L + r` with `0 <= r < L`. */
  lemma ModOfSplit(n: nat, L: nat, q: nat, r: nat)
    requires 0 <= r < L && n == q * L + r
    ensures n % L == r
  {
    var q', r' := n / L, n % L;
    assert q' * L + r' == q * L + r;
    if q' < q {
      assert (q - q') * L == q * L - q' * L;
      MulAtLeast(q - q', L);
    } else if q < q' {
      assert (q' - q) * L == q' * L - q * L;
      MulAtLeast(q' - q, L);
    }
  }

  /** The quotient `x / t` reaches `k` exactly when `x` reaches `k * t`. */
  lemma DivAtLeast(x: nat, t: nat, k: nat)
    requires t > 0
    ensures x / t >= k <==> x >= k * t
  {
    var q := x / t;
    assert x == q * t + x % t;
    if q >= k {
      if q > k {
        assert q * t - k * t == (q - k) * t;
        MulAtLeast(q - k, t);
      }
    } else {
      assert k * t - (q + 1) * t == (k - q - 1) * t;
      if k - q - 1 >= 1 {
        MulAtLeast(k - q - 1, t);
      }
    }
  }
}
