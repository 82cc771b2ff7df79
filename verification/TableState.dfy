// Value-level theory of ulib's open-addressing table: what the flag, key and value
// arrays mean, and how single-bucket updates change that meaning.
module TableState {
  import opened Probing

  // The two flag bits of a bucket.  A live bucket has both bits clear.
  datatype Flag = Flag(empty: bool, del: bool)

  const EMPTY := Flag(true, false)

  predicate Live(f: Flag) {
    !f.empty && !f.del
  }

  function CountLive(fs: seq<Flag>): nat {
    if fs == [] then 0 else CountLive(fs[..|fs| - 1]) + (if Live(fs[|fs| - 1]) then 1 else 0)
  }

  function CountOccupied(fs: seq<Flag>): nat {
    if fs == [] then 0 else CountOccupied(fs[..|fs| - 1]) + (if fs[|fs| - 1].empty then 0 else 1)
  }

  lemma {:induction false} CountsAfterUpdate(fs: seq<Flag>, i: nat, f: Flag)
    requires i < |fs|
    ensures CountLive(fs[i := f]) == CountLive(fs) - (if Live(fs[i]) then 1 else 0) + (if Live(f) then 1 else 0)
    ensures CountOccupied(fs[i := f]) ==
            CountOccupied(fs) - (if fs[i].empty then 0 else 1) + (if f.empty then 0 else 1)
  {
    var last := |fs| - 1;
    if i == last {
      assert fs[i := f][..last] == fs[..last];
    } else {
      assert fs[i := f][..last] == fs[..last][i := f];
      CountsAfterUpdate(fs[..last], i, f);
    }
  }

  lemma {:induction false} AllEmptyCounts(fs: seq<Flag>)
    requires forall i :: 0 <= i < |fs| ==> fs[i] == EMPTY
    ensures CountLive(fs) == 0 && CountOccupied(fs) == 0
  {
    if fs != [] {
      AllEmptyCounts(fs[..|fs| - 1]);
    }
  }

  lemma {:induction false} NoneLiveCount(fs: seq<Flag>)
    requires forall i :: 0 <= i < |fs| ==> !Live(fs[i])
    ensures CountLive(fs) == 0
  {
    if fs != [] {
      NoneLiveCount(fs[..|fs| - 1]);
    }
  }

  lemma {:induction false} LiveAtMostOccupied(fs: seq<Flag>)
    ensures CountLive(fs) <= CountOccupied(fs) <= |fs|
  {
    if fs != [] {
      LiveAtMostOccupied(fs[..|fs| - 1]);
    }
  }

  lemma {:induction false} NoTombstoneCounts(fs: seq<Flag>)
    requires forall i :: 0 <= i < |fs| ==> !fs[i].del
    ensures CountLive(fs) == CountOccupied(fs)
  {
    if fs != [] {
      NoTombstoneCounts(fs[..|fs| - 1]);
    }
  }

  lemma {:induction false} LiveCountPositive(fs: seq<Flag>, i: nat)
    requires i < |fs| && Live(fs[i])
    ensures CountLive(fs) > 0
  {
    if i < |fs| - 1 {
      LiveCountPositive(fs[..|fs| - 1], i);
    }
  }

  lemma {:induction false} SomeEmpty(fs: seq<Flag>) returns (e: nat)
    requires CountOccupied(fs) < |fs|
    ensures e < |fs| && fs[e].empty
  {
    e := |fs| - 1;
    if !fs[e].empty {
      e := SomeEmpty(fs[..e]);
    }
  }

  // Probe number s for hash value h meets bucket i, and no earlier probe meets an empty bucket.
  ghost predicate OnPath(fs: seq<Flag>, h: nat, s: nat, i: nat) {
    && s < |fs|
    && Probe(h, s, |fs|) == i
    && forall t: nat :: t < s ==> !fs[Probe(h, t, |fs|)].empty
  }

  ghost predicate Reachable(fs: seq<Flag>, h: nat, i: nat) {
    exists s: nat :: OnPath(fs, h, s, i)
  }

  ghost predicate AllReachable<K(!new)>(fs: seq<Flag>, ks: seq<K>, hash: K -> nat)
    requires |fs| <= |ks|
  {
    forall i: nat :: i < |fs| && Live(fs[i]) ==> Reachable(fs, hash(ks[i]), i)
  }

  ghost predicate DistinctKeys<K>(fs: seq<Flag>, ks: seq<K>)
    requires |fs| <= |ks|
  {
    forall i: nat, j: nat :: i < j < |fs| && Live(fs[i]) && Live(fs[j]) ==> ks[i] != ks[j]
  }

  ghost predicate HasKey<K>(fs: seq<Flag>, ks: seq<K>, k: K)
    requires |fs| <= |ks|
  {
    exists i: nat :: i < |fs| && Live(fs[i]) && ks[i] == k
  }

  // The live buckets hold exactly the entries of m.
  ghost predicate Holds<K(!new), V>(fs: seq<Flag>, ks: seq<K>, vs: seq<V>, m: map<K, V>)
    requires |fs| <= |ks| && |fs| <= |vs|
  {
    && (forall i: nat :: i < |fs| && Live(fs[i]) ==> ks[i] in m && m[ks[i]] == vs[i])
    && (forall k :: k in m ==> HasKey(fs, ks, k))
  }

  // The representation invariant of the three arrays.
  ghost predicate Table<K(!new), V>(fs: seq<Flag>, ks: seq<K>, vs: seq<V>, m: map<K, V>, hash: K -> nat) {
    && |fs| <= |ks| && |fs| <= |vs|
    && AllReachable(fs, ks, hash)
    && DistinctKeys(fs, ks)
    && Holds(fs, ks, vs, m)
  }

  // Everything a search loop knows after s unsuccessful probes.
  ghost predicate Searched<K>(fs: seq<Flag>, ks: seq<K>, key: K, h: nat, s: nat)
    requires |fs| <= |ks|
  {
    && s < |fs|
    && forall t: nat :: t < s ==>
        var f := fs[Probe(h, t, |fs|)]; !f.empty && (f.del || ks[Probe(h, t, |fs|)] != key)
  }

  // A search that meets an empty bucket proves that the key is absent.
  lemma SearchedAbsent<K(!new), V>(fs: seq<Flag>, ks: seq<K>, vs: seq<V>, m: map<K, V>, hash: K -> nat, key: K, s: nat)
    requires Table(fs, ks, vs, m, hash)
    requires Searched(fs, ks, key, hash(key), s)
    requires fs[Probe(hash(key), s, |fs|)].empty
    ensures key !in m
  {
    var h := hash(key);
    forall i: nat | i < |fs| && Live(fs[i])
      ensures ks[i] != key
    {
      var s' :| OnPath(fs, hash(ks[i]), s', i);
    }
    assert !HasKey(fs, ks, key);
  }

  // An unsuccessful search stops before it has used up the buckets, and never comes back to its start.
  lemma SearchBounded<K>(m: nat, fs: seq<Flag>, ks: seq<K>, key: K, h: nat, s: nat)
    requires |fs| == Pow2(m) && |fs| <= |ks| && CountOccupied(fs) < |fs|
    requires Searched(fs, ks, key, h, s) && !fs[Probe(h, s, |fs|)].empty
    ensures s + 1 < |fs|
    ensures Probe(h, s + 1, |fs|) != Probe(h, 0, |fs|)
  {
    var e := SomeEmpty(fs);
    var k := ProbeCovers(m, h, e);
    ProbeInjective(m, h, 0, s + 1);
  }

  // Filling or deleting a bucket keeps every path: occupied buckets stay occupied.
  lemma PathsSurvive(fs: seq<Flag>, fs': seq<Flag>, h: nat, i: nat)
    requires |fs| == |fs'|
    requires forall b :: 0 <= b < |fs| && !fs[b].empty ==> !fs'[b].empty
    requires Reachable(fs, h, i)
    ensures Reachable(fs', h, i)
  {
    var s :| OnPath(fs, h, s, i);
    assert OnPath(fs', h, s, i);
  }

  // Writing an absent key into a reachable bucket that is not live adds one entry.
  lemma InsertKeepsTable<K(!new), V>(fs: seq<Flag>, ks: seq<K>, vs: seq<V>, m: map<K, V>, hash: K -> nat, key: K,
      x: nat)
    requires Table(fs, ks, vs, m, hash)
    requires key !in m && x < |fs| && !Live(fs[x])
    requires Reachable(fs, hash(key), x)
    ensures Table(fs[x := Flag(false, false)], ks[x := key], vs, m[key := vs[x]], hash)
  {
    var fs', ks', m' := fs[x := Flag(false, false)], ks[x := key], m[key := vs[x]];
    forall i: nat | i < |fs'| && Live(fs'[i])
      ensures Reachable(fs', hash(ks'[i]), i)
    {
      PathsSurvive(fs, fs', hash(ks'[i]), i);
    }
    forall k | k in m'
      ensures HasKey(fs', ks', k)
    {
      if k == key {
        assert Live(fs'[x]) && ks'[x] == k;
      } else {
        var i: nat :| i < |fs| && Live(fs[i]) && ks[i] == k;
        assert Live(fs'[i]) && ks'[i] == k;
      }
    }
  }

  // Turning a live bucket into a tombstone removes exactly its entry.
  lemma DeleteKeepsTable<K(!new), V>(fs: seq<Flag>, ks: seq<K>, vs: seq<V>, m: map<K, V>, hash: K -> nat, x: nat)
    requires Table(fs, ks, vs, m, hash)
    requires x < |fs| && Live(fs[x])
    ensures Table(fs[x := Flag(false, true)], ks, vs, m - {ks[x]}, hash)
  {
    var fs', m' := fs[x := Flag(false, true)], m - {ks[x]};
    forall i: nat | i < |fs'| && Live(fs'[i])
      ensures Reachable(fs', hash(ks[i]), i)
      ensures ks[i] in m' && m'[ks[i]] == vs[i]
    {
      PathsSurvive(fs, fs', hash(ks[i]), i);
      assert ks[i] != ks[x];
    }
    forall k | k in m'
      ensures HasKey(fs', ks, k)
    {
      var i: nat :| i < |fs| && Live(fs[i]) && ks[i] == k;
      assert Live(fs'[i]);
    }
  }

  // Overwriting the value of a live bucket updates exactly its entry.
  lemma AssignKeepsTable<K(!new), V>(fs: seq<Flag>, ks: seq<K>, vs: seq<V>, m: map<K, V>, hash: K -> nat, x: nat, v: V)
    requires Table(fs, ks, vs, m, hash)
    requires x < |fs| && Live(fs[x])
    ensures Table(fs, ks, vs[x := v], m[ks[x] := v], hash)
  {
    var m' := m[ks[x] := v];
    forall k | k in m'
      ensures HasKey(fs, ks, k)
    {
    }
  }

  // The invariant looks only at the first |fs| keys and values.
  lemma TableAgree<K(!new), V>(fs: seq<Flag>, ks: seq<K>, vs: seq<V>, ks': seq<K>, vs': seq<V>, m: map<K, V>,
      hash: K -> nat)
    requires Table(fs, ks, vs, m, hash)
    requires |fs| <= |ks'| && |fs| <= |vs'| && ks[..|fs|] == ks'[..|fs|] && vs[..|fs|] == vs'[..|fs|]
    ensures Table(fs, ks', vs', m, hash)
  {
    forall i: nat | i < |fs|
      ensures ks[i] == ks'[i] && vs[i] == vs'[i]
    {
      assert ks[..|fs|][i] == ks'[..|fs|][i] && vs[..|fs|][i] == vs'[..|fs|][i];
    }
    forall k | k in m
      ensures HasKey(fs, ks', k)
    {
      var i: nat :| i < |fs| && Live(fs[i]) && ks[i] == k;
      assert ks'[i] == k;
    }
  }

  // The number of live buckets is the number of entries.
  lemma {:induction false} LiveCountIsSize<K(!new), V>(fs: seq<Flag>, ks: seq<K>, vs: seq<V>, m: map<K, V>)
    requires |fs| <= |ks| && |fs| <= |vs| && DistinctKeys(fs, ks) && Holds(fs, ks, vs, m)
    ensures CountLive(fs) == |m|
  {
    if fs == [] {
      forall k ensures k !in m { assert !HasKey(fs, ks, k); }
      assert m == map[];
    } else {
      var last := |fs| - 1;
      var fs' := fs[..last];
      var m' := if Live(fs[last]) then m - {ks[last]} else m;
      forall k | k in m'
        ensures HasKey(fs', ks, k)
      {
        var i: nat :| i < |fs| && Live(fs[i]) && ks[i] == k;
        assert i < last && Live(fs'[i]);
      }
      LiveCountIsSize(fs', ks, vs, m');
      if Live(fs[last]) {
        assert m.Keys == m'.Keys + {ks[last]};
        assert |m| == |m.Keys| && |m'| == |m'.Keys|;
      }
    }
  }
}
