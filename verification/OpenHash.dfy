// ulib's open-addressing hash table: the flag, key and value arrays updated in place
// by probe loops.  Every operation is proved against a finite map.
module OpenHash {
  import opened Probing
  import opened TableState
  import opened Rehash

  // Result code of Set.  Untouched means that the caller's variable was not written.
  datatype Code = Exists | New | Reused | Untouched

  // Outcome of the memory requests a resize may make.
  datatype Memory = Memory(flags: bool, growKeys: bool, growVals: bool, shrinkKeys: bool, shrinkVals: bool)

  // The load limit: the integer part of 0.7 * n.
  function Bound(n: nat): nat {
    7 * n / 10
  }

  method Reallocate<T(0)>(a: array<T>, n: nat) returns (b: array<T>)
    ensures fresh(b) && b.Length == n
    ensures forall i :: 0 <= i < n && i < a.Length ==> b[i] == a[i]
    ensures n <= a.Length ==> b[..] == a[..n]
    ensures a.Length <= n ==> b[..a.Length] == a[..]
  {
    b := new T[n];
    forall i | 0 <= i < n && i < a.Length {
      b[i] := a[i];
    }
  }

  class Table<K(==, 0, !new), V(0)> {
    const hash: K -> nat
    var nbucket: nat
    var nelem: nat
    var noccupied: nat
    var bound: nat
    var flags: array<Flag>
    var keys: array<K>
    var vals: array<V>
    ghost var contents: map<K, V>

    ghost function Repr(): set<object>
      reads this
    {
      {this, flags, keys, vals}
    }

    ghost predicate Shape()
      reads this
    {
      && flags.Length == nbucket <= keys.Length
      && nbucket <= vals.Length
      && keys as object != vals && keys as object != flags && vals as object != flags
      && (nbucket == 0 || PowerOfTwo(nbucket))
      && bound == Bound(nbucket)
    }

    ghost predicate Valid()
      reads this, flags, keys, vals
    {
      && Shape()
      && TableState.Table(flags[..], keys[..], vals[..], contents, hash)
      && nelem == CountLive(flags[..])
      && noccupied == CountOccupied(flags[..])
      && noccupied <= bound
    }

    // The counters are exact and an occupied table is never full.
    lemma Counts()
      requires Valid()
      ensures nelem == |contents| <= noccupied <= bound
      ensures nbucket > 0 ==> bound < nbucket
    {
      LiveCountIsSize(flags[..], keys[..], vals[..], contents);
      LiveAtMostOccupied(flags[..]);
    }

    constructor (hash: K -> nat)
      ensures Valid() && fresh(Repr()) && contents == map[] && nbucket == 0 && this.hash == hash
    {
      this.hash := hash;
      nbucket, nelem, noccupied, bound := 0, 0, 0, 0;
      flags := new Flag[0];
      keys := new K[0];
      vals := new V[0];
      contents := map[];
    }

    method Clear()
      requires Valid()
      modifies this, flags
      ensures Valid() && Repr() == old(Repr())
      ensures contents == map[] && nbucket == old(nbucket)
    {
      forall i | 0 <= i < flags.Length {
        flags[i] := EMPTY;
      }
      nelem, noccupied := 0, 0;
      contents := map[];
      AllEmptyCounts(flags[..]);
    }

    // Finds the bucket of a key; nbucket stands for "absent".
    method Get(key: K) returns (x: nat)
      requires Valid()
      ensures x <= nbucket
      ensures x < nbucket <==> key in contents
      ensures x < nbucket ==> Live(flags[x]) && keys[x] == key && vals[x] == contents[key]
    {
      hide AllReachable, DistinctKeys, HasKey, CountLive, CountOccupied;
      if nbucket == 0 {
        Counts();
        return 0;
      }
      ghost var m: nat :| nbucket == Pow2(m);
      ghost var h := hash(key);
      var i := hash(key) % nbucket;
      var last, step := i, 0;
      ProbeStep(h, 0, nbucket);
      while !flags[i].empty && (flags[i].del || keys[i] != key)
        invariant step < nbucket && i == Probe(h, step, nbucket) && last == Probe(h, 0, nbucket)
        invariant Searched(flags[..], keys[..], key, h, step)
        decreases nbucket - step
      {
        SearchBounded(m, flags[..], keys[..], key, h, step);
        ProbeStep(h, step, nbucket);
        step := step + 1;
        i := (i + step) % nbucket;
        if i == last {
          assert false;
          return nbucket;
        }
      }
      if flags[i].empty {
        SearchedAbsent(flags[..], keys[..], vals[..], contents, hash, key, step);
        x := nbucket;
      } else {
        x := i;
      }
    }

    // The bucket where a key is, or where it may be written: the last tombstone met before
    // the first empty bucket, else that empty bucket.
    method FindSite(key: K) returns (x: nat)
      requires Valid() && 0 < nbucket && noccupied < nbucket
      ensures x < nbucket
      ensures key in contents ==> Live(flags[x]) && keys[x] == key
      ensures key !in contents ==> !Live(flags[x]) && Reachable(flags[..], hash(key), x)
    {
      hide AllReachable, DistinctKeys, HasKey, CountLive, CountOccupied;
      ghost var m: nat :| nbucket == Pow2(m);
      ghost var fs, ks, h := flags[..], keys[..], hash(key);
      var site: nat := nbucket;
      x := site;
      var i := hash(key) % nbucket;
      ProbeStep(h, 0, nbucket);
      if flags[i].empty {
        SearchedAbsent(fs, ks, vals[..], contents, hash, key, 0);
        assert OnPath(fs, h, 0, i);
        x := i;
      } else {
        var last, step := i, 0;
        while !flags[i].empty && (flags[i].del || keys[i] != key)
          invariant step < nbucket && i == Probe(h, step, nbucket) && last == Probe(h, 0, nbucket)
          invariant Searched(fs, ks, key, h, step)
          invariant x == nbucket
          invariant 0 <= site <= nbucket
          invariant site < nbucket ==> fs[site].del && Reachable(fs, h, site)
          decreases nbucket - step
        {
          SearchBounded(m, fs, ks, key, h, step);
          ProbeStep(h, step, nbucket);
          if flags[i].del {
            assert OnPath(fs, h, step, i);
            site := i;
          }
          step := step + 1;
          i := (i + step) % nbucket;
          if i == last {
            assert false;
            x := site;
            break;
          }
        }
        if flags[i].empty {
          SearchedAbsent(fs, ks, vals[..], contents, hash, key, step);
          assert OnPath(fs, h, step, i);
        }
        if x == nbucket {
          if flags[i].empty && site != nbucket {
            x := site;
          } else {
            x := i;
          }
        }
      }
    }

    // Makes room for one more occupied bucket.
    method Reserve(mem: Memory) returns (ok: bool)
      requires Valid()
      modifies this, flags, keys, vals
      ensures Valid() && fresh(Repr() - old(Repr()))
      ensures contents == old(contents)
      ensures ok <==> old(noccupied < bound) || (mem.flags && mem.growKeys && mem.growVals)
      ensures if ok then noccupied < bound else nbucket == old(nbucket)
    {
      ok := true;
      if noccupied >= bound {
        LiveAtMostOccupied(flags[..]);
        if nbucket > 0 {
          ghost var m: nat :| nbucket == Pow2(m);
          assert 2 * nbucket == Pow2(m + 1);
          ok := Resize(2 * nbucket, mem);
        } else {
          assert Pow2(1) == 2;
          ok := Resize(2, mem);
        }
      }
    }

    method Set(key: K, mem: Memory) returns (x: nat, ret: Code)
      requires Valid()
      modifies this, flags, keys, vals
      ensures Valid() && fresh(Repr() - old(Repr()))
      ensures ret != Untouched <==> old(noccupied < bound) || (mem.flags && mem.growKeys && mem.growVals)
      ensures ret == Untouched ==> x == nbucket == old(nbucket) && contents == old(contents)
      ensures ret != Untouched ==> x < nbucket && Live(flags[x]) && keys[x] == key
      ensures ret == Exists ==> key in old(contents) && contents == old(contents)
      ensures ret in {New, Reused} ==> key !in old(contents) && contents == old(contents)[key := vals[x]]
    {
      var ok := Reserve(mem);
      if !ok { return nbucket, Untouched; }
      x := FindSite(key);
      if Live(flags[x]) {
        ret := Exists;
      } else {
        ret := Occupy(key, x);
      }
    }

    // Writes a key into an empty bucket or over a tombstone.
    method Occupy(key: K, x: nat) returns (ret: Code)
      requires Valid() && noccupied < bound
      requires x < nbucket && !Live(flags[x]) && key !in contents && Reachable(flags[..], hash(key), x)
      modifies this, flags, keys
      ensures Valid() && Repr() == old(Repr()) && nbucket == old(nbucket)
      ensures Live(flags[x]) && keys[x] == key && contents == old(contents)[key := vals[x]]
      ensures ret == if old(flags[x].empty) then New else Reused
    {
      ghost var fs, ks := flags[..], keys[..];
      CountsAfterUpdate(fs, x, Flag(false, false));
      InsertKeepsTable(fs, ks, vals[..], contents, hash, key, x);
      contents := contents[key := vals[x]];
      keys[x] := key;
      nelem := nelem + 1;
      if flags[x].empty {
        flags[x] := Flag(false, false);
        noccupied := noccupied + 1;
        ret := New;
      } else {
        flags[x] := Flag(false, false);
        ret := Reused;
      }
      assert flags[..] == fs[x := Flag(false, false)] && keys[..] == ks[x := key];
    }

    // The caller's assignment through openhash_value.
    method PutValue(x: nat, v: V)
      requires Valid() && x < nbucket && Live(flags[x])
      modifies this`contents, vals
      ensures Valid() && contents == old(contents)[keys[x] := v]
    {
      AssignKeepsTable(flags[..], keys[..], vals[..], contents, hash, x, v);
      contents := contents[keys[x] := v];
      vals[x] := v;
    }

    method Del(x: nat)
      requires Valid() && x <= nbucket
      modifies this, flags
      ensures Valid() && Repr() == old(Repr()) && nbucket == old(nbucket)
      ensures contents == if x < nbucket && old(Live(flags[x])) then old(contents) - {keys[x]} else old(contents)
    {
      if x != nbucket && Live(flags[x]) {
        DeleteKeepsTable(flags[..], keys[..], vals[..], contents, hash, x);
        CountsAfterUpdate(flags[..], x, Flag(false, true));
        LiveCountPositive(flags[..], x);
        contents := contents - {keys[x]};
        flags[x] := flags[x].(del := true);
        nelem := nelem - 1;
      }
    }

    // What the rehash loops keep: both tables in the arrays are sound and no entry is lost or counted twice.
    ghost predicate MidRehash(gs: array<Flag>, c: nat, hand: Hand<K, V>)
      reads this, flags, keys, vals, gs
    {
      && flags.Length == nbucket <= c && gs.Length <= c <= keys.Length && c <= vals.Length
      && keys as object != vals && keys as object != flags && vals as object != flags
      && gs != flags && gs as object != keys && gs as object != vals
      && Rehashing(flags[..], gs[..], keys[..c], vals[..c], hand, contents, hash)
      && nelem == CountLive(flags[..]) + CountOccupied(gs[..]) + (if hand.Holding? then 1 else 0)
    }

    // The probe loop of the rehash: the first empty bucket on the new path of a hash value.
    static method FindEmpty(gs: array<Flag>, h: nat) returns (i: nat)
      requires PowerOfTwo(gs.Length) && CountOccupied(gs[..]) < gs.Length
      ensures i < gs.Length && gs[i].empty && Reachable(gs[..], h, i)
    {
      ghost var m: nat :| gs.Length == Pow2(m);
      ghost var e := SomeEmpty(gs[..]);
      ghost var k := ProbeCovers(m, h, e);
      var n, step := gs.Length, 0;
      i := h % n;
      ProbeStep(h, 0, n);
      while !gs[i].empty
        invariant step <= k && i == Probe(h, step, n)
        invariant forall t: nat :: t < step ==> !gs[Probe(h, t, n)].empty
        decreases k - step
      {
        ProbeStep(h, step, n);
        step := step + 1;
        i := (i + step) % n;
      }
      assert OnPath(gs[..], h, step, i);
    }

    // Writes the entry in hand to new bucket i and takes up the old resident, if there is one.
    method DropAt(gs: array<Flag>, i: nat, ghost c: nat, key: K, val: V) returns (done: bool, key': K, val': V)
      requires MidRehash(gs, c, Holding(key, val))
      requires i < gs.Length && gs[i].empty && Reachable(gs[..], hash(key), i)
      modifies flags, gs, keys, vals
      ensures MidRehash(gs, c, if done then Free else Holding(key', val'))
      ensures forall b :: 0 <= b < nbucket && Live(flags[b]) ==> old(Live(flags[b]))
      ensures !done ==> CountLive(flags[..]) < old(CountLive(flags[..]))
    {
      ghost var fs, gs0, ks, vs := flags[..], gs[..], keys[..c], vals[..c];
      Drop(fs, gs0, ks, vs, key, val, contents, hash, i);
      CountsAfterUpdate(gs0, i, Flag(false, false));
      gs[i] := gs[i].(empty := false);
      assert gs[..] == gs0[i := Flag(false, false)];
      done, key', val' := true, key, val;
      if i < nbucket && Live(flags[i]) {
        CountsAfterUpdate(fs, i, Flag(false, true));
        done, key', val' := false, keys[i], vals[i];
        flags[i] := flags[i].(del := true);
        assert flags[..] == fs[i := Flag(false, true)];
      }
      keys[i] := key;
      vals[i] := val;
      assert keys[..c] == ks[i := key] && vals[..c] == vs[i := val];
    }

    // Moves the entry of bucket j, and every resident it displaces, to the new table.
    method MoveEntry(gs: array<Flag>, j: nat, ghost c: nat)
      requires MidRehash(gs, c, Free) && j < nbucket && Live(flags[j])
      requires PowerOfTwo(gs.Length) && nelem < gs.Length
      modifies flags, gs, keys, vals
      ensures MidRehash(gs, c, Free)
      ensures forall i :: 0 <= i < nbucket && Live(flags[i]) ==> old(Live(flags[i])) && i != j
    {
      ghost var fs := flags[..];
      PickUp(fs, gs[..], keys[..c], vals[..c], contents, hash, j);
      CountsAfterUpdate(fs, j, Flag(false, true));
      var key, val := keys[j], vals[j];
      flags[j] := flags[j].(del := true);
      assert flags[..] == fs[j := Flag(false, true)];
      var done := false;
      while !done
        invariant MidRehash(gs, c, if done then Free else Holding(key, val))
        invariant forall i :: 0 <= i < nbucket && Live(flags[i]) ==> old(Live(flags[i])) && i != j
        decreases !done, CountLive(flags[..])
      {
        var i := FindEmpty(gs, hash(key));
        done, key, val := DropAt(gs, i, c, key, val);
      }
    }

    method Grow(n: nat, mem: Memory) returns (ok: bool)
      requires Valid() && nbucket < n
      modifies this`keys, this`vals
      ensures Valid() && fresh(Repr() - old(Repr()))
      ensures ok <==> mem.growKeys && mem.growVals
      ensures ok ==> n <= keys.Length && n <= vals.Length
    {
      ok := false;
      if !mem.growKeys { return; }
      ghost var ks, vs := keys[..], vals[..];
      keys := Reallocate(keys, n);
      TableAgree(flags[..], ks, vs, keys[..], vals[..], contents, hash);
      if !mem.growVals { return; }
      vals := Reallocate(vals, n);
      TableAgree(flags[..], ks, vs, keys[..], vals[..], contents, hash);
      ok := true;
    }

    lemma StartRehash(gs: array<Flag>, c: nat)
      requires Valid() && nbucket <= c <= keys.Length && gs.Length <= c <= vals.Length
      requires gs !in {flags} && gs as object != keys && gs as object != vals
      requires forall i :: 0 <= i < gs.Length ==> gs[i] == EMPTY
      ensures MidRehash(gs, c, Free)
    {
      var ks, vs := keys[..c], vals[..c];
      assert ks[..nbucket] == keys[..nbucket] && vs[..nbucket] == vals[..nbucket];
      TableAgree(flags[..], keys[..], vals[..], ks, vs, contents, hash);
      RehashStart(flags[..], gs[..], ks, vs, contents, hash);
      AllEmptyCounts(gs[..]);
    }

    lemma FinishRehash(gs: array<Flag>, c: nat)
      requires MidRehash(gs, c, Free)
      requires forall i :: 0 <= i < nbucket ==> !Live(flags[i])
      ensures TableState.Table(gs[..], keys[..c], vals[..c], contents, hash)
      ensures CountLive(gs[..]) == CountOccupied(gs[..]) == nelem
    {
      RehashFinish(flags[..], gs[..], keys[..c], vals[..c], contents, hash);
      NoneLiveCount(flags[..]);
      NoTombstoneCounts(gs[..]);
    }

    // Rehashes in place, growing or shrinking.
    method Resize(n: nat, mem: Memory) returns (ok: bool)
      requires Valid()
      requires n == 0 || PowerOfTwo(n)
      modifies this, flags, keys, vals
      ensures Valid() && fresh(Repr() - old(Repr()))
      ensures contents == old(contents) && nelem == old(nelem)
      ensures ok <==> nelem < Bound(n) && mem.flags && (old(nbucket) < n ==> mem.growKeys && mem.growVals)
      ensures ok ==> nbucket == n && noccupied == nelem < bound
      ensures !ok ==> nbucket == old(nbucket) && noccupied == old(noccupied)
    {
      hide TableState.Table, CountLive, CountOccupied;
      if nelem >= Bound(n) || !mem.flags {
        return false;
      }
      var gs := new Flag[n](_ => EMPTY);
      if nbucket < n {
        ok := Grow(n, mem);
        if !ok { return; }
      }
      Migrate(gs);
      Adopt(gs, mem);
      ok := true;
    }

    // The loop over the old buckets.
    method Migrate(gs: array<Flag>)
      requires Valid() && gs !in {flags} && gs as object != keys && gs as object != vals
      requires PowerOfTwo(gs.Length) && gs.Length <= keys.Length && gs.Length <= vals.Length
      requires nelem < gs.Length && forall i :: 0 <= i < gs.Length ==> gs[i] == EMPTY
      modifies flags, gs, keys, vals
      ensures TableState.Table(gs[..], keys[..], vals[..], contents, hash)
      ensures CountLive(gs[..]) == CountOccupied(gs[..]) == nelem
    {
      hide Rehashing, TableState.Table, CountLive, CountOccupied;
      ghost var c := if gs.Length < nbucket then nbucket else gs.Length;
      StartRehash(gs, c);
      var j := 0;
      while j != nbucket
        invariant j <= nbucket && MidRehash(gs, c, Free)
        invariant forall i :: 0 <= i < j ==> !Live(flags[i])
      {
        if Live(flags[j]) {
          MoveEntry(gs, j, c);
        }
        j := j + 1;
      }
      FinishRehash(gs, c);
      ghost var ks, vs := keys[..c], vals[..c];
      assert ks[..gs.Length] == keys[..gs.Length] && vs[..gs.Length] == vals[..gs.Length];
      TableAgree(gs[..], ks, vs, keys[..], vals[..], contents, hash);
    }

    // Trims the arrays of a shrinking table and installs the new flags.
    method Adopt(gs: array<Flag>, mem: Memory)
      requires gs as object != keys && gs as object != vals && keys as object != vals
      requires TableState.Table(gs[..], keys[..], vals[..], contents, hash)
      requires CountLive(gs[..]) == CountOccupied(gs[..]) == nelem < Bound(gs.Length)
      requires PowerOfTwo(gs.Length)
      modifies this
      ensures Valid() && flags == gs && fresh(Repr() - old(Repr()) - {gs})
      ensures contents == old(contents) && nelem == old(nelem)
      ensures nbucket == gs.Length && noccupied == nelem < bound
    {
      hide AllReachable, DistinctKeys, Holds, CountLive, CountOccupied;
      var n := gs.Length;
      ghost var ks, vs := keys[..], vals[..];
      if nbucket > n {
        if mem.shrinkKeys { keys := Reallocate(keys, n); }
        if mem.shrinkVals { vals := Reallocate(vals, n); }
      }
      assert ks[..n] == keys[..n] && vs[..n] == vals[..n];
      TableAgree(gs[..], ks, vs, keys[..], vals[..], contents, hash);
      flags := gs;
      nbucket := n;
      noccupied := nelem;
      bound := Bound(n);
    }
  }
}
