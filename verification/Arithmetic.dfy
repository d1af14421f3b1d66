/** Facts about division and finite sets that several models need. */
module Arithmetic {
  lemma SmallMultiple(k: int, n: int)
    requires -n < k * n < n
    ensures k == 0
  {
  }

  /** Quotient and remainder are unique. */
  lemma DivUnique(i: int, n: int, q: int, r: int)
    requires n > 0 && 0 <= r < n && i == q * n + r
    ensures i / n == q && i % n == r
  {
    assert i == (i / n) * n + i % n;
    assert (i / n - q) * n == (i / n) * n - q * n;
    SmallMultiple(i / n - q, n);
  }

  /** A remainder taken early makes no difference. */
  lemma ModAdd(a: int, b: int, m: int)
    requires m > 0
    ensures (a % m + b) % m == (a + b) % m
  {
    var q, r := (a + b) / m, (a + b) % m;
    assert a % m + b == a + b - a / m * m == (q - a / m) * m + r;
    DivUnique(a % m + b, m, q - a / m, r);
  }

  lemma SubsetSize<T>(a: set<T>, b: set<T>)
    requires a <= b
    ensures |a| <= |b|
  {
    assert b == a + (b - a);
  }

  /** Distinct numbers below n are at most n. */
  lemma {:induction false} DistinctBounded(w: seq<int>, n: nat)
    requires forall i :: 0 <= i < |w| ==> 0 <= w[i] < n
    requires forall i, j :: 0 <= i < j < |w| ==> w[i] != w[j]
    ensures |w| <= n
  {
    var s := set i | 0 <= i < |w| :: w[i];
    DistinctCount(w);
    RangeCount(n);
    assert s <= UpTo(n);
    SubsetSize(s, UpTo(n));
  }

  lemma {:induction false} DistinctCount(w: seq<int>)
    requires forall i, j :: 0 <= i < j < |w| ==> w[i] != w[j]
    ensures |set i | 0 <= i < |w| :: w[i]| == |w|
    decreases |w|
  {
    if w != [] {
      var n := |w| - 1;
      DistinctCount(w[..n]);
      assert (set i | 0 <= i < |w| :: w[i]) == (set i | 0 <= i < n :: w[..n][i]) + {w[n]};
    }
  }

  function UpTo(n: nat): set<int> { if n == 0 then {} else UpTo(n - 1) + {n - 1} }

  lemma {:induction false} RangeCount(n: nat)
    ensures |UpTo(n)| == n && forall i :: i in UpTo(n) <==> 0 <= i < n
    decreases n
  {
    if n > 0 { RangeCount(n - 1); }
  }
}
