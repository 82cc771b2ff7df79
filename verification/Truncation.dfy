// Giving the objects on a free list back to their pages: one at a time, and in batches.
module Truncation {
  import opened TruncationTheory
  import Probing

  ghost function At(f: seq<nat>, i: nat): nat
    requires |f| > 0
  {
    f[i % |f|]
  }

  lemma AtNext(f: seq<nat>, x: nat, i: nat)
    requires |f| > 0
    ensures At(f, x % |f| + i) == At(f, x + i)
  {
    Probing.ModSumRight(x, i, |f|);
  }

  // The objects of a ring.
  ghost function RingOf(f: seq<nat>, start: nat, count: nat): seq<nat>
    requires |f| > 0
  {
    seq<nat>(count, i requires 0 <= i < count => At(f, start + i))
  }

  lemma RingAdvances(f: seq<nat>, start: nat, count: nat, n: nat)
    requires |f| > 0 && n <= count
    ensures RingOf(f, (start + n) % |f|, count - n) == RingOf(f, start, count)[n..]
  {
    hide At;
    var x := start + n;
    var r, r' := RingOf(f, start, count)[n..], RingOf(f, x % |f|, count - n);
    forall i | 0 <= i < |r'|
      ensures r'[i] == r[i]
    {
      AtNext(f, x, i);
    }
  }

  // fl_hdr: a ring of objects.
  class Ring {
    var fl: array<nat>
    var start: nat
    var count: nat

    ghost predicate Valid()
      reads this
    {
      start < fl.Length && count <= fl.Length
    }

    ghost function Contents(): seq<nat>
      reads this, fl
      requires Valid()
    {
      RingOf(fl[..], start, count)
    }

    // The first n objects are gone.
    method Advance(n: nat)
      requires Valid() && n <= count
      modifies this
      ensures Valid() && fl == old(fl) && Contents() == old(Contents())[n..]
    {
      hide RingOf;
      RingAdvances(fl[..], start, count, n);
      start, count := (start + n) % fl.Length, count - n;
    }
  }

  // Pages of small objects and the operations on them.
  class Reclaimer {
    var pages: Pages

    // One object of MAK_truncate_freelist.
    method GiveBack(p: nat, thr: int)
      requires Sound(pages) && SlotOf(p).0 in pages
      modifies this
      ensures pages == if old(Holds(pages, SlotOf(p))) then Drop(old(pages), {SlotOf(p)}, thr) else old(pages)
    {
      hide Drop;
      var h, bit := p / HB, p % HB / GRANULE;
      var hdr := pages[h];
      if bit !in hdr.marks {
        return;
      }
      ghost var e := Entry(h, {bit}, 1);
      assert EntrySlots(e) == {SlotOf(p)};
      DropEntry(pages, e, thr);
      hdr := hdr.(marks := hdr.marks - {bit}, n := hdr.n - 1);
      if hdr.n == 0 {
        pages := pages - {h};
      } else {
        if hdr.floating && hdr.n <= thr {
          hdr := hdr.(floating := false);
        }
        pages := pages[h := hdr];
      }
    }

    // MAK_truncate_freelist.
    method TruncateFreelist(ring: Ring, keep: nat, thr: int)
      requires Sound(pages) && ring.Valid()
      requires keep < ring.count ==> Bearable(pages, ring.Contents()[..ring.count - keep])
      modifies this, ring
      ensures ring.Valid() && Sound(pages)
      ensures keep >= old(ring.count) ==> pages == old(pages) && ring.Contents() == old(ring.Contents())
      ensures keep < old(ring.count) ==>
                var n := old(ring.count) - keep;
                && pages == Drop(old(pages), Held(old(pages), old(ring.Contents())[..n]), thr)
                && ring.Contents() == old(ring.Contents())[n..]
    {
      hide Drop, Held, Bearable, Sound, Holds;
      var kept := if keep < ring.count then keep else ring.count;
      if kept == ring.count {
        return;
      }
      var n := ring.count - kept;
      ghost var ps, objs := pages, ring.Contents()[..n];
      NoneYet(ps, objs, thr);
      for i := 0 to n
        invariant Sound(pages) && pages == Drop(ps, Held(ps, objs[..i]), thr)
        modifies this
      {
        var p := ring.fl[(ring.start + i) % ring.fl.Length];
        assert p == objs[i];
        StillThere(ps, objs, i, thr);
        OneMore(ps, objs, i, thr);
        GiveBack(p, thr);
        HeldSound(ps, objs, i + 1, thr);
      }
      assert objs[..n] == objs;
      ring.Advance(n);
    }

    // The loop body of remove_trun_tb_entry; tells whether the page has been freed.
    method RemoveEntry(e: Entry, thr: int) returns (freed: bool)
      requires e.block in pages
      modifies this
      ensures pages == Removed(old(pages), e, thr)
    {
      var hdr := pages[e.block];
      hdr := hdr.(n := (hdr.n - e.count) % WORDS);
      freed := hdr.n == 0;
      if freed {
        pages := pages - {e.block};
      } else {
        hdr := hdr.(marks := hdr.marks - e.marks);
        if hdr.floating && hdr.n <= thr {
          hdr := hdr.(floating := false);
        }
        pages := pages[e.block := hdr];
      }
    }

    // remove_trun_tb_entry for the entries from lo up to hi.
    method RemoveEntries(tab: array<Entry>, lo: nat, hi: nat, thr: int)
      requires Standing(Pass(pages, tab[..])) && lo <= hi <= tab.Length
      modifies this, tab
      ensures pages == RemovedAll(old(pages), old(tab[lo..hi]), thr)
      ensures forall k :: 0 <= k < tab.Length ==>
                tab[k] == old(tab[k]) || (lo <= k < hi && tab[k] == old(tab[k]).(block := 0))
    {
      hide Standing, Removed, RemovedAll;
      ghost var ps, t := pages, tab[lo..hi];
      NoneRemoved(ps, t, thr);
      for k := lo to hi
        invariant forall j :: 0 <= j < tab.Length ==>
                  tab[j] == old(tab[j]) || (lo <= j < k && tab[j] == old(tab[j]).(block := 0))
        invariant pages == RemovedAll(ps, t[..k - lo], thr)
      {
        RemovedMore(ps, old(tab[..]), lo, hi, k, thr);
        if tab[k].block != 0 {
          var freed := RemoveEntry(tab[k], thr);
          if freed {
            tab[k] := tab[k].(block := 0);
          }
        }
      }
      assert t[..hi - lo] == t;
    }

    // The loop body of MAK_truncate_fast_fl; tells whether the page of the object is gone.
    method Enter(tab: array<Entry>, p: nat, thr: int) returns (gone: bool)
      requires Standing(Pass(pages, tab[..]))
      modifies this, tab
      ensures var r := Collected(old(Pass(pages, tab[..])), p, thr);
              if gone then r.None? else r == Some(Pass(pages, tab[..]))
    {
      hide Removed;
      var block := p / HB;
      var k := block % ENTRIES;
      var bit := p % HB / GRANULE;
      ghost var t := tab[..];
      gone := false;
      if tab[k].block != block {
        if tab[k].block != 0 {
          assert tab[k..k + 1] == [t[k]];
          RemovedOne(pages, t[k], thr);
          RemoveEntries(tab, k, k + 1, thr);
          tab[k] := tab[k].(marks := {}, count := 0);
          t := t[k := UNUSED];
        }
        if block !in pages {
          return true;
        }
        tab[k] := tab[k].(block := block);
      }
      tab[k] := tab[k].(marks := tab[k].marks + {bit}, count := tab[k].count + 1);
      assert tab[..] == t[k := tab[k]];
    }

    // MAK_truncate_fast_fl; tells whether it met an object whose page was gone.
    method TruncateFast(ring: Ring, keep: nat, thr: int) returns (gone: bool)
      requires ring.Valid()
      modifies this, ring
      ensures ring.Valid()
      ensures keep >= old(ring.count) ==> !gone && pages == old(pages) && ring.Contents() == old(ring.Contents())
      ensures keep < old(ring.count) ==>
                var n := old(ring.count) - keep;
                var r := Fast(old(pages), old(ring.Contents())[..n], thr);
                if gone then r.None? else r == Some(pages) && ring.Contents() == old(ring.Contents())[n..]
    {
      hide Collected, RemovedAll, Passed;
      gone := false;
      var tab := new Entry[ENTRIES](_ => UNUSED);
      var kept := if keep < ring.count then keep else ring.count;
      if kept == ring.count {
        return;
      }
      var n := ring.count - kept;
      ghost var ps, objs := pages, ring.Contents()[..n];
      NonePassed(ps, objs, tab[..], thr);
      for i := 0 to n
        invariant Passed(ps, objs[..i], thr) == Some(Pass(pages, tab[..]))
        modifies this, tab
      {
        var p := ring.fl[(ring.start + i) % ring.fl.Length];
        assert p == objs[i];
        PassedMore(ps, objs, i, thr);
        gone := Enter(tab, p, thr);
        if gone {
          StaysGone(ps, objs, i + 1, thr);
          return;
        }
      }
      assert objs[..n] == objs && tab[0..ENTRIES] == tab[..];
      RemoveEntries(tab, 0, ENTRIES, thr);
      ring.Advance(n);
    }
  }

  lemma NoneRemoved(ps: Pages, t: seq<Entry>, thr: int)
    ensures RemovedAll(ps, t[..0], thr) == ps
  {
  }

  lemma NonePassed(ps: Pages, objs: seq<nat>, tab: seq<Entry>, thr: int)
    requires |tab| == ENTRIES && forall k :: 0 <= k < ENTRIES ==> tab[k] == UNUSED
    ensures Passed(ps, objs[..0], thr) == Some(Pass(ps, tab))
  {
    assert tab == seq(ENTRIES, _ => UNUSED);
  }

  lemma {:induction false} StaysGone(ps: Pages, objs: seq<nat>, i: nat, thr: int)
    requires i <= |objs| && Passed(ps, objs[..i], thr).None?
    ensures Passed(ps, objs, thr).None?
    decreases |objs| - i
  {
    if i < |objs| {
      assert objs[..i + 1][..i] == objs[..i];
      StaysGone(ps, objs, i + 1, thr);
    } else {
      assert objs[..i] == objs;
    }
  }

  // Both ways, on the same pages and lists.  They agree exactly if every object is marked and occurs
  // once, whatever the order of the objects and the collisions in the table.
  method TruncateBoth(one: Reclaimer, batch: Reclaimer, r: Ring, q: Ring, keep: nat, thr: int) returns (gone: bool)
    requires one != batch && r != q && one.pages == batch.pages && Sound(one.pages)
    requires r.Valid() && q.Valid() && r.count == q.count < WORDS && r.Contents() == q.Contents()
    requires keep < r.count ==> Bearable(one.pages, r.Contents()[..r.count - keep])
    modifies one, batch, r, q
    ensures keep < old(r.count) ==>
              (!gone && batch.pages == one.pages <==> Fresh(old(one.pages), old(r.Contents())[..old(r.count) - keep]))
    ensures keep >= old(r.count) ==> !gone && batch.pages == one.pages
    ensures r.Valid() && q.Valid() && (!gone ==> r.Contents() == q.Contents())
  {
    hide Drop, Held, Fresh, Bearable, Sound, Fast;
    if keep < r.count {
      FastIff(one.pages, r.Contents()[..r.count - keep], thr);
    }
    one.TruncateFreelist(r, keep, thr);
    gone := batch.TruncateFast(q, keep, thr);
  }
}
