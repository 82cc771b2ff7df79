// Value-level theory of the in-place rehash of ulib's open-addressing table.
//
// While a table is resized, one pair of key and value arrays holds two tables at once:
// the buckets still live under the old flags and the buckets already filled under the
// new flags.  At most one further entry is in the hand of the loop.
module Rehash {
  import opened TableState

  datatype Hand<K, V> = Free | Holding(key: K, val: V)

  // Bucket i is still live under the old flags fs or already filled under the new flags gs.
  ghost predicate Owned(fs: seq<Flag>, gs: seq<Flag>, i: nat) {
    (i < |fs| && Live(fs[i])) || (i < |gs| && !gs[i].empty)
  }

  ghost predicate Stored<K>(fs: seq<Flag>, gs: seq<Flag>, ks: seq<K>, k: K) {
    exists i: nat :: i < |ks| && Owned(fs, gs, i) && ks[i] == k
  }

  ghost predicate OwnedFaithful<K(!new), V>(fs: seq<Flag>, gs: seq<Flag>, ks: seq<K>, vs: seq<V>, m: map<K, V>)
    requires |vs| == |ks|
  {
    && (forall i: nat :: i < |ks| && Owned(fs, gs, i) ==> ks[i] in m && m[ks[i]] == vs[i])
    && (forall i: nat, j: nat :: i < j < |ks| && Owned(fs, gs, i) && Owned(fs, gs, j) ==> ks[i] != ks[j])
  }

  ghost predicate NewReachable<K(!new)>(gs: seq<Flag>, ks: seq<K>, hash: K -> nat)
    requires |gs| <= |ks|
  {
    forall i: nat :: i < |gs| && !gs[i].empty ==> Reachable(gs, hash(ks[i]), i)
  }

  ghost predicate Rehashing<K(!new), V>(fs: seq<Flag>, gs: seq<Flag>, ks: seq<K>, vs: seq<V>, hand: Hand<K, V>,
                                        m: map<K, V>, hash: K -> nat)
  {
    && |fs| <= |ks| && |gs| <= |ks| && |vs| == |ks|
    && (forall i: nat :: i < |fs| && i < |gs| && Live(fs[i]) ==> gs[i].empty)
    && (forall i: nat :: i < |gs| ==> !gs[i].del)
    && NewReachable(gs, ks, hash)
    && OwnedFaithful(fs, gs, ks, vs, m)
    && (hand.Holding? ==> hand.key in m && m[hand.key] == hand.val && !Stored(fs, gs, ks, hand.key))
    && (forall k :: k in m ==> Stored(fs, gs, ks, k) || (hand.Holding? && hand.key == k))
  }

  lemma RehashStart<K(!new), V>(fs: seq<Flag>, gs: seq<Flag>, ks: seq<K>, vs: seq<V>, m: map<K, V>, hash: K -> nat)
    requires Table(fs, ks, vs, m, hash) && |gs| <= |ks| && |vs| == |ks|
    requires forall i :: 0 <= i < |gs| ==> gs[i] == EMPTY
    ensures Rehashing(fs, gs, ks, vs, Free, m, hash)
  {
    forall k | k in m
      ensures Stored(fs, gs, ks, k)
    {
      var i: nat :| i < |fs| && Live(fs[i]) && ks[i] == k;
      assert Owned(fs, gs, i);
    }
  }

  lemma RehashFinish<K(!new), V>(fs: seq<Flag>, gs: seq<Flag>, ks: seq<K>, vs: seq<V>, m: map<K, V>, hash: K -> nat)
    requires Rehashing(fs, gs, ks, vs, Free, m, hash)
    requires forall i :: 0 <= i < |fs| ==> !Live(fs[i])
    ensures Table(gs, ks, vs, m, hash)
  {
    forall i: nat | i < |gs| && Live(gs[i])
      ensures Owned(fs, gs, i)
    {
    }
    forall k | k in m
      ensures HasKey(gs, ks, k)
    {
      var i: nat :| i < |ks| && Owned(fs, gs, i) && ks[i] == k;
      assert Live(gs[i]);
    }
  }

  // Taking the entry of a live bucket j into the hand.
  lemma PickUp<K(!new), V>(fs: seq<Flag>, gs: seq<Flag>, ks: seq<K>, vs: seq<V>, m: map<K, V>, hash: K -> nat, j: nat)
    requires Rehashing(fs, gs, ks, vs, Free, m, hash)
    requires j < |fs| && Live(fs[j])
    ensures Rehashing(fs[j := Flag(false, true)], gs, ks, vs, Holding(ks[j], vs[j]), m, hash)
  {
    var fs' := fs[j := Flag(false, true)];
    forall i: nat | i < |ks|
      ensures Owned(fs', gs, i) <==> Owned(fs, gs, i) && i != j
    {
    }
    forall k | k in m && k != ks[j]
      ensures Stored(fs', gs, ks, k)
    {
      var i: nat :| i < |ks| && Owned(fs, gs, i) && ks[i] == k;
      assert Owned(fs', gs, i);
    }
    assert Owned(fs, gs, j);
  }

  // Dropping the entry in the hand into new bucket i; a resident that is still live under the old flags is kicked out.
  lemma Drop<K(!new), V>(fs: seq<Flag>, gs: seq<Flag>, ks: seq<K>, vs: seq<V>, key: K, val: V, m: map<K, V>,
                         hash: K -> nat, i: nat)
    requires Rehashing(fs, gs, ks, vs, Holding(key, val), m, hash)
    requires i < |gs| && gs[i].empty && Reachable(gs, hash(key), i)
    ensures
      var gs', ks', vs' := gs[i := Flag(false, false)], ks[i := key], vs[i := val];
      if i < |fs| && Live(fs[i]) then
        Rehashing(fs[i := Flag(false, true)], gs', ks', vs', Holding(ks[i], vs[i]), m, hash)
      else
        Rehashing(fs, gs', ks', vs', Free, m, hash)
  {
    var gs', ks', vs' := gs[i := Flag(false, false)], ks[i := key], vs[i := val];
    var kick := i < |fs| && Live(fs[i]);
    var fs' := if kick then fs[i := Flag(false, true)] else fs;
    forall b: nat | b < |gs'| && !gs'[b].empty
      ensures Reachable(gs', hash(ks'[b]), b)
    {
      PathsSurvive(gs, gs', hash(ks'[b]), b);
    }
    assert Owned(fs', gs', i);
    forall b: nat | b < |ks| && b != i
      ensures Owned(fs', gs', b) <==> Owned(fs, gs, b)
    {
    }
    forall b: nat | b < |ks| && Owned(fs, gs, b)
      ensures ks[b] != key
    {
      assert !Stored(fs, gs, ks, key);
    }
    assert kick ==> Owned(fs, gs, i);
    forall k | k in m
      ensures Stored(fs', gs', ks', k) || (kick && ks[i] == k)
    {
      if k == key {
        assert ks'[i] == k;
      } else {
        var b: nat :| b < |ks| && Owned(fs, gs, b) && ks[b] == k;
        assert b != i ==> Owned(fs', gs', b) && ks'[b] == k;
      }
    }
  }
}
