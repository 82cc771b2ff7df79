// Triangular probing, as used by ulib's open-addressing hash table.
//
// A probe for a key with hash value h visits (h + 0), (h + 0 + 1), (h + 0 + 1 + 2), ...
// modulo the number of buckets, which is a power of two.  This module proves
// that the first n probes of a table with n buckets are a permutation of the buckets.
module Probing {

  function Pow2(m: nat): (r: nat)
    ensures r >= 1
  {
    if m == 0 then 1 else 2 * Pow2(m - 1)
  }

  ghost predicate PowerOfTwo(n: nat) {
    exists m: nat :: n == Pow2(m)
  }

  // The sum 1 + 2 + ... + k.
  function Tri(k: nat): nat {
    if k == 0 then 0 else Tri(k - 1) + k
  }

  // Bucket visited by probe number k for hash value h in a table of n buckets.
  function Probe(h: nat, k: nat, n: nat): (b: nat)
    requires n > 0
    ensures b < n
  {
    (h + Tri(k)) % n
  }

  lemma {:induction false} TriClosed(k: nat)
    ensures 2 * Tri(k) == k * (k + 1)
  {
    if k > 0 {
      TriClosed(k - 1);
    }
  }

  lemma MulBounds(d: int, n: int)
    requires n > 0
    ensures d > 0 ==> d * n >= n
    ensures d < 0 ==> d * n <= -n
  {
  }

  lemma ModUnique(a: int, q: int, r: int, n: int)
    requires n > 0 && a == q * n + r && 0 <= r < n
    ensures a % n == r
  {
    var d := a / n - q;
    assert a == (a / n) * n + a % n;
    assert d * n == r - a % n;
    MulBounds(d, n);
  }

  lemma ModSumRight(a: nat, b: nat, n: nat)
    requires n > 0
    ensures (a % n + b) % n == (a + b) % n
  {
    var q, r := (a % n + b) / n, (a % n + b) % n;
    assert a == (a / n) * n + a % n;
    assert a % n + b == q * n + r;
    assert a + b == (a / n + q) * n + r;
    ModUnique(a + b, a / n + q, r, n);
  }

  // The loop of the source computes the next bucket from the current one.
  lemma ProbeStep(h: nat, k: nat, n: nat)
    requires n > 0
    ensures Probe(h, 0, n) == h % n
    ensures (Probe(h, k, n) + (k + 1)) % n == Probe(h, k + 1, n)
  {
    ModSumRight(h + Tri(k), k + 1, n);
  }

  // A power of two that divides a product with one odd factor divides the other factor.
  lemma {:induction false} OddFactor(m: nat, odd: int, x: int)
    requires odd % 2 == 1
    ensures (odd * x) % Pow2(m) == 0 ==> x % Pow2(m) == 0
  {
    var n := Pow2(m);
    if m > 0 && (odd * x) % n == 0 {
      var p, q := Pow2(m - 1), odd * x / n;
      assert odd * x == (2 * q) * p;
      ModUnique(odd * x, 2 * q, 0, p);
      OddFactor(m - 1, odd, x);
      var y, c := x / p, odd / 2;
      assert x == y * p;
      assert (odd * y) * p == (2 * q) * p;
      CancelFactor(odd * y, 2 * q, p);
      assert odd * y == 2 * (c * y) + y;
      var z := q - c * y;
      assert y == 2 * z;
      ModUnique(x, z, 0, n);
    }
  }

  lemma CancelFactor(a: int, b: int, p: int)
    requires p > 0
    ensures a * p == b * p ==> a == b
  {
    MulBounds(a - b, p);
    assert a * p - b * p == (a - b) * p;
  }

  lemma CongruentDifference(a: int, b: int, n: int)
    requires n > 0
    ensures a % n == b % n ==> (b - a) % n == 0
  {
    if a % n == b % n {
      assert a == (a / n) * n + a % n && b == (b / n) * n + b % n;
      var q := b / n - a / n;
      assert b - a == q * n;
      ModUnique(b - a, q, 0, n);
    }
  }

  lemma DoubleMultiple(x: int, n: int)
    requires n > 0
    ensures x % n == 0 ==> (2 * x) % (2 * n) == 0
  {
    if x % n == 0 {
      assert 2 * x == (x / n) * (2 * n);
      ModUnique(2 * x, x / n, 0, 2 * n);
    }
  }

  lemma SmallMod(x: int, n: int)
    requires 0 < x < n
    ensures x % n != 0
  {
  }

  lemma OppositeParity(m: nat, d: int, s: int)
    requires 0 < d < Pow2(m) && 0 < s < Pow2(m) && d % 2 != s % 2
    ensures (d * s) % Pow2(m) != 0
  {
    SmallMod(d, Pow2(m));
    SmallMod(s, Pow2(m));
    if d % 2 == 1 {
      OddFactor(m, d, s);
    } else {
      OddFactor(m, s, d);
      assert s * d == d * s;
    }
  }

  lemma TriDifference(i: nat, j: nat)
    ensures 2 * (Tri(j) - Tri(i)) == (j - i) * (j + i + 1)
  {
    TriClosed(i);
    TriClosed(j);
    assert (j - i) * (j + i + 1) == j * (j + 1) - i * (i + 1);
  }

  // No two of the first n probes hit the same bucket.
  lemma ProbeInjective(m: nat, h: nat, i: nat, j: nat)
    requires i < j < Pow2(m)
    ensures Probe(h, i, Pow2(m)) != Probe(h, j, Pow2(m))
  {
    var n, d, s, t := Pow2(m), j - i, j + i + 1, Tri(j) - Tri(i);
    assert s == d + 2 * i + 1;
    OppositeParity(m + 1, d, s);
    TriDifference(i, j);
    assert (2 * t) % (2 * n) != 0;
    DoubleMultiple(t, n);
    CongruentDifference(h + Tri(i), h + Tri(j), n);
  }

  function FirstProbes(h: nat, k: nat, n: nat): set<nat>
    requires n > 0
  {
    set t: nat | t < k :: Probe(h, t, n)
  }

  lemma NextProbe(h: nat, k: nat, n: nat)
    requires n > 0 && forall t: nat :: t < k ==> Probe(h, t, n) != Probe(h, k, n)
    ensures FirstProbes(h, k + 1, n) == FirstProbes(h, k, n) + {Probe(h, k, n)}
    ensures Probe(h, k, n) !in FirstProbes(h, k, n)
  {
    hide Probe;
    forall b: nat
      ensures b in FirstProbes(h, k + 1, n) <==> b in FirstProbes(h, k, n) || b == Probe(h, k, n)
    {
      if t: nat :| t < k + 1 && Probe(h, t, n) == b {
        assert t < k ==> b in FirstProbes(h, k, n);
      }
    }
  }

  lemma {:induction false} FirstProbesSize(m: nat, h: nat, k: nat)
    requires k <= Pow2(m)
    ensures |FirstProbes(h, k, Pow2(m))| == k
  {
    hide Probe, Pow2;
    var n := Pow2(m);
    if k == 0 {
      assert FirstProbes(h, 0, n) == {};
    } else {
      FirstProbesSize(m, h, k - 1);
      forall t: nat | t < k - 1
        ensures Probe(h, t, n) != Probe(h, k - 1, n)
      {
        ProbeInjective(m, h, t, k - 1);
      }
      NextProbe(h, k - 1, n);
    }
  }

  lemma FullSubset(s: set<nat>, n: nat, b: nat)
    requires forall x :: x in s ==> x < n
    requires |s| == n && b < n
    ensures b in s
  {
    BoundedSize(s + {b}, n);
    assert b !in s ==> |s + {b}| == |s| + 1;
  }

  lemma {:induction false} BoundedSize(s: set<nat>, n: nat)
    requires forall x :: x in s ==> x < n
    ensures |s| <= n
  {
    if n == 0 {
      assert s == {};
    } else {
      BoundedSize(s - {n - 1}, n - 1);
      assert |s| <= |s - {n - 1}| + 1 by {
        if n - 1 in s {
          assert s == (s - {n - 1}) + {n - 1};
        } else {
          assert s == s - {n - 1};
        }
      }
    }
  }

  // Every bucket is met by one of the first n probes, whatever the hash value.
  lemma ProbeCovers(m: nat, h: nat, b: nat) returns (k: nat)
    requires b < Pow2(m)
    ensures k < Pow2(m) && Probe(h, k, Pow2(m)) == b
  {
    var n := Pow2(m);
    FirstProbesSize(m, h, n);
    FullSubset(FirstProbes(h, n, n), n, b);
    k :| k < n && Probe(h, k, n) == b;
  }
}
