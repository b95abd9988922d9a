/** Integer division facts. */
module Arith {
  lemma SubsetSize(a: set<int>, b: set<int>)
    requires a <= b
    ensures |a| <= |b|
  {
    assert b == a + (b - a);
  }

  lemma {:induction false} MultiplesBelow(n: nat, k: nat)
    requires k > 0 && n > 0
    ensures |set i | 0 < i < n && i % k == 0| == (n - 1) / k
    decreases n
  {
    if n == 1 {
      assert (set i | 0 < i < n && i % k == 0) == {};
      assert 0 / k == 0;
    } else {
      MultiplesBelow(n - 1, k);
      var s := set i | 0 < i < n - 1 && i % k == 0;
      if (n - 1) % k == 0 {
        assert (set i | 0 < i < n && i % k == 0) == s + {n - 1};
        DivStep(n - 1, k);
      } else {
        assert (set i | 0 < i < n && i % k == 0) == s;
        DivStep(n - 1, k);
      }
    }
  }

  lemma DivStep(n: nat, k: nat)
    requires k > 0 && n > 0
    ensures n / k == (n - 1) / k + (if n % k == 0 then 1 else 0)
  {
    var q, r := (n - 1) / k, (n - 1) % k;
    assert n == k * q + (r + 1);
    if r + 1 == k {
      assert n == k * (q + 1);
      UniqueDiv(n, k, q + 1, 0);
    } else {
      UniqueDiv(n, k, q, r + 1);
    }
  }

  lemma UniqueDiv(n: int, k: int, q: int, r: int)
    requires k > 0 && n == k * q + r && 0 <= r < k
    ensures n / k == q && n % k == r
  {
    var q', r' := n / k, n % k;
    assert n == k * q' + r' && 0 <= r' < k;
    assert k * q - k * q' == r' - r;
    if q > q' {
      ScaleUp(k, q, q');
    } else if q < q' {
      ScaleUp(k, q', q);
    }
  }

  lemma ScaleUp(k: int, a: int, b: int)
    requires k > 0 && a > b
    ensures k * a - k * b >= k
  {
    assert k * a - k * b == k * (a - b);
    assert k * (a - b) == k + k * (a - b - 1);
    assert k * (a - b - 1) >= 0;
  }

  lemma CeilDiv(n: nat, k: nat)
    requires k > 0 && n > 0
    ensures (n + k - 1) / k == (n - 1) / k + 1
    ensures n <= k ==> (n - 1) / k == 0
  {
    var q, r := (n - 1) / k, (n - 1) % k;
    assert n - 1 == k * q + r;
    assert k * (q + 1) == k * q + k;
    UniqueDiv(n + k - 1, k, q + 1, r);
    if n <= k {
      UniqueDiv(n - 1, k, 0, n - 1);
    }
  }

  /** Position `blk * k + r` lies in block `blk` at offset `r`. */
  lemma BlockOf(blk: nat, r: nat, k: nat)
    requires r < k
    ensures (blk * k + r) / k == blk && (blk * k + r) % k == r
  {
    assert blk * k == k * blk;
    UniqueDiv(blk * k + r, k, blk, r);
  }
}
