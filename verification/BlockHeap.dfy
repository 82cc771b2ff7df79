// Makalu's heap blocks: freeing with coalescing, allocation with splitting, and what a crash leaves.
module BlockHeap {
  import opened BlockMap
  import opened Headers
  import opened PageIndex
  import opened BlockTheory
  import opened RebuildTheory
  import FL = FreeLists
  import NvmModel

  // Header i with its block marked free.
  ghost function Marked(t: Table, i: nat): Table
    requires i < |t.hd|
  {
    SetHdr(t, i, t.hd[i].(flags := SetFree(t.hd[i].flags)))
  }

  class Heap {
    const hs: HeaderStore
    const ix: Index
    const fl: FL.Lists
    var spare: seq<nat>       // MAK_hdr_free_list
    ghost var bs: Blocks
    ghost var heap: set<nat>
    ghost var known: set<nat> // headers that have been in use since the last restart

    ghost function Repr(): set<object>
      reads this
    {
      {this, hs, hs.nvm, hs.nvm.table, ix, ix.top, fl, fl.heads, fl.bytes}
    }

    ghost function Now(): World
      reads this, ix, fl
    {
      World(ix.flat, bs, heap, fl.lists, fl.sizes, spare, known)
    }

    // Everything agrees with table t on the blocks; the free blocks in xs are not on lists.
    ghost predicate Around(t: Table, xs: set<nat>)
      reads Repr()
    {
      ix.Valid() && fl.Valid() && Agrees(t, Now(), xs)
    }

    // Between operations.
    ghost predicate AtRest()
      reads Repr()
    {
      hs.Between() && Around(hs.tab, {}) && Coalesced(bs, 0) && fl.Sum() == hs.tab.large
    }

    // A heap without blocks.
    constructor (hs: HeaderStore)
      requires hs.Between() && hs.tab.freePtr == 0 && hs.tab.large == 0
      ensures AtRest() && this.hs == hs && bs == map[] && heap == {} && fresh(Repr() - {hs, hs.nvm, hs.nvm.table})
    {
      this.hs := hs;
      ix := new Index();
      fl := new FL.Lists();
      spare, bs, heap, known := [], map[], {}, {};
      new;
      hide HeaderStore.Between, Index.Valid, Agrees, Coalesced, FL.Linked, FL.Distinct;
      EmptyTotal(fl.bytes[..], fl.lists, fl.sizes);
      EmptyAgrees(hs.tab, Now());
    }

    //
    // Parts of operations.
    //

    twostate predicate Continues()
      reads Repr()
    {
      && hs.Inside() && hs.pre == old(hs.pre) && old(hs.logged) <= hs.logged
      && hs.nvm.start == old(hs.nvm.start) && hs.nvm.init == old(hs.nvm.init)
    }

    twostate predicate Untouched()
      reads Repr()
    {
      unchanged(Repr())
    }

    // The field may be stored to without logging.
    ghost predicate Writable(f: Field)
      reads hs
    {
      f in hs.logged || (In(hs.pre, f) && Harmless(hs.pre, f))
    }

    // All headers in use were in use when the section started.
    ghost predicate AllOld()
      reads hs
    {
      forall j: nat :: Live(hs.tab, j) ==> Live(hs.pre, j)
    }

    // All headers in use were in use when the section started, except for header i.
    ghost predicate OldBut(i: nat)
      reads hs
    {
      forall j: nat :: Live(hs.tab, j) && j != i ==> Live(hs.pre, j)
    }

    // Takes block p of the given size off its list.
    method TakeOff(p: nat, size: nat, ghost xs: set<nat>)
      requires fl.Valid() && Listed(fl.lists, fl.sizes, bs, xs) && IsFree(bs, p) && p !in xs && size == bs[p].pages * HB
      modifies fl, fl.heads, fl.bytes
      ensures fl.Valid() && Listed(fl.lists, fl.sizes, bs, xs + {p}) && fl.Sum() == old(fl.Sum()) - size
    {
      var k := FL.ListFor(size / HB);
      ghost var j :| 0 <= j < |fl.lists[k]| && fl.lists[k][j] == p;
      RemoveListed(fl.lists, fl.sizes, bs, xs, k, j);
      fl.Remove(p, size, k, j);
    }

    // Puts block p of the given size on its list.
    method PutOn(p: nat, size: nat, ghost xs: set<nat>)
      requires fl.Valid() && Listed(fl.lists, fl.sizes, bs, xs) && IsFree(bs, p) && p in xs && p != 0
      requires size == bs[p].pages * HB
      modifies fl, fl.heads, fl.bytes
      ensures fl.Valid() && Listed(fl.lists, fl.sizes, bs, xs - {p}) && fl.Sum() == old(fl.Sum()) + size
    {
      hide FL.Lists.Valid, Listed, FL.Nowhere;
      var k := FL.ListFor(size / HB);
      FL.ListsAreOrdered(0, size / HB);
      AddListed(fl.lists, fl.sizes, bs, xs, p);
      fl.Add(p, size, k);
    }

    // MAK_remove_from_fl for header i of block p.
    method RemoveFromFl(p: nat, i: nat, ghost t: Table, ghost xs: set<nat>)
      requires hs.Inside() && Around(t, xs) && IsFree(bs, p) && p !in xs && Heads(t, i, p)
      requires |hs.tab.hd| == |t.hd| && hs.tab.hd[i] == t.hd[i]
      requires Live(hs.pre, i) && hs.Entries() + 2 < NvmModel.LOG_CAPACITY
      modifies hs, hs.nvm, hs.nvm.table, fl, fl.heads, fl.bytes
      ensures Continues() && Around(t, xs + {p})
      ensures hs.tab == old(hs.tab) && Sz(i) in hs.logged && Flags(i) in hs.logged
      ensures hs.Entries() == old(hs.Entries()) + 2 && fl.Sum() == old(fl.Sum()) - bs[p].pages * HB
    {
      hide HeaderStore.Inside, Headers.Shows, Index.Valid, FL.Lists.Valid, FL.Lists.Sum, FreeBytes, Spare, Buried;
      hide Describes, Listed, Tiles, Points, HeadsRight;
      LiveMatches(t, ix.flat, bs, heap, i);
      TakeOff(p, hs.Read(Sz(i)), xs);
      hs.Log(Sz(i), hs.Read(Sz(i)));
      hs.Log(Flags(i), hs.Read(Flags(i)));
    }

    // MAK_add_to_fl for header i of block p.
    method AddToFl(p: nat, i: nat)
      requires hs.Inside() && i < |hs.tab.hd| && Around(Marked(hs.tab, i), {p}) && IsFree(bs, p) && Heads(hs.tab, i, p)
      requires Writable(Flags(i))
      modifies hs, hs.nvm, hs.nvm.table, fl, fl.heads, fl.bytes
      ensures Continues() && Around(hs.tab, {}) && hs.tab == old(Marked(hs.tab, i))
      ensures hs.Entries() == old(hs.Entries()) && fl.Sum() == old(fl.Sum()) + bs[p].pages * HB
    {
      hide HeaderStore.Inside, Headers.Shows, Index.Valid, FL.Lists.Valid, FL.Lists.Sum, FreeBytes, Spare, Buried;
      hide Describes, Listed, Tiles, Points, HeadsRight;
      LiveMatches(Marked(hs.tab, i), ix.flat, bs, heap, i);
      PutOn(p, hs.Read(Sz(i)), {p});
      assert {p} - {p} == {};
      hs.NoLog(Flags(i), SetFree(hs.Read(Flags(i))));
    }

    // MAK_free_block_ending_at.
    method FreeBlockEndingAt(x: nat) returns (r: Link)
      requires hs.Inside() && ix.Valid() && Views(hs.tab, ix.flat, bs, heap) && x > 0 && (x in bs || !Covered(bs, x))
      ensures r.Null? ==> LeftApart(bs, x)
      ensures r.To? ==> IsFree(bs, r.b) && End(bs, r.b) == x
    {
      hide HeaderStore.Inside, Headers.Shows, Index.Valid, Describes;
      var p: nat := x - 1;
      var e := ix.Get(p);
      while e.Fwd?
        invariant e == Look(ix.flat, p) && p < x
        invariant p == x - 1 || exists b: nat :: Covers(bs, b, x - 1) && Covers(bs, b, p) && bs[b].Used?
        decreases p
      {
        Forwarded(ix.flat, bs, heap, p);
        p := p - e.n;
        e := ix.Get(p);
      }
      if e.Head? {
        HeadEndsAt(hs.tab, ix.flat, bs, heap, p, x);
        return if IsFreeFlag(hs.Read(Flags(e.i))) then To(p) else Null;
      }
      PointsForward(ix.flat, bs, heap);
      r := ix.PrevBlock(x - 1);
      if r.To? {
        BlockAt(hs.tab, ix.flat, bs, heap, r.b);
        var i := HeaderAt(r.b);
        if IsFreeFlag(hs.Read(Flags(i))) && r.b * HB + hs.Read(Sz(i)) == x * HB {
          return;
        }
      }
      NoneEndsAt(ix.flat, bs, heap, x, r);
      r := Null;
    }

    // HDR for the first page of a block.
    method HeaderAt(p: nat) returns (i: nat)
      requires ix.Valid() && Views(hs.tab, ix.flat, bs, heap) && p in bs
      ensures Look(ix.flat, p) == Head(i) && Heads(hs.tab, i, p) && Matches(hs.tab, bs, i)
    {
      hide Index.Valid;
      HeaderOf(hs.tab, ix.flat, bs, heap, p);
      var e := ix.Get(p);
      i := e.i;
    }

    // MAK_remove_header for block q.
    method RemoveHeader(q: nat, ghost j: nat)
      requires hs.Inside() && ix.Valid() && Look(ix.flat, q) == Head(j)
      requires j < |hs.tab.hd| && Sz(j) in hs.logged && Live(hs.pre, j) && hs.Entries() + 1 < NvmModel.LOG_CAPACITY
      modifies hs, hs.nvm, hs.nvm.table, ix, `spare
      ensures Continues() && ix.Valid() && ix.flat == old(ix.flat)[q := Nil] && ix.keys == old(ix.keys)
      ensures hs.tab == SetHdr(old(hs.tab), j, old(hs.tab).hd[j].(sz := 0, block := 0))
      ensures spare == [j] + old(spare) && hs.Entries() == old(hs.Entries()) + 1
    {
      hide HeaderStore.Inside;
      hide Index.Valid;
      ix.HeadHasKey(q);
      var e := ix.Get(q);
      hs.NoLog(Sz(e.i), 0);
      hs.Store(Start(e.i), 0);
      spare := [e.i] + spare;
      ix.Set(q, Nil);
    }

    // Block q follows block p and is merged into it.
    method Absorb(p: nat, i: nat, q: nat, j: nat)
      requires hs.Inside() && i < |hs.tab.hd| && Around(Marked(hs.tab, i), {p, q})
      requires IsFree(bs, p) && IsFree(bs, q) && q == End(bs, p)
      requires Heads(hs.tab, i, p) && Heads(hs.tab, j, q)
      requires Writable(Sz(i)) && Sz(j) in hs.logged && Live(hs.pre, j) && hs.Entries() + 1 < NvmModel.LOG_CAPACITY
      modifies hs, hs.nvm, hs.nvm.table, ix, `spare, `bs
      ensures Continues() && Around(Marked(hs.tab, i), {p}) && bs == Merged(old(bs), p, q)
      ensures Heads(hs.tab, i, p) && ix.flat == old(ix.flat)[q := Nil] && ix.keys == old(ix.keys)
      ensures hs.Entries() == old(hs.Entries()) + 1 && hs.tab.large == old(hs.tab.large)
      ensures forall k: nat :: Live(hs.tab, k) ==> old(Live(hs.tab, k))
      ensures hs.tab.hd[i].flags == old(hs.tab.hd[i].flags)
    {
      hide HeaderStore.Inside, Headers.Shows, Index.Valid, FL.Lists.Valid, FL.Lists.Sum, FreeBytes, Agrees;
      ghost var t := Marked(hs.tab, i);
      MergedAgrees(t, Now(), p, i, q, j);
      hs.NoLog(Sz(i), hs.Read(Sz(i)) + hs.Read(Sz(j)));
      RemoveHeader(q, j);
      assert Marked(hs.tab, i) == MergedTable(t, i, j);
      bs := Merged(bs, p, q);
    }

    // alloc_hdr, for a header space that is not used up.
    method AllocHdr() returns (i: nat)
      requires hs.Inside() && hs.tab.freePtr == hs.pre.freePtr >= 0 && Spare(hs.tab, spare) && OnlyOld()
      requires FreePtr in hs.logged && HeaderLeft() && hs.Entries() + 1 < NvmModel.LOG_CAPACITY
      modifies hs, hs.nvm, hs.nvm.table, `spare
      ensures Continues() && old(Unused(hs.tab, i)) && SpareBut(hs.tab, spare, i)
      ensures hs.tab == old(hs.tab).(freePtr := if i < old(hs.tab.freePtr) then old(hs.tab.freePtr) else i + 1)
      ensures Writable(Sz(i)) && Harmless(hs.pre, Flags(i)) && Harmless(hs.pre, Start(i)) && Harmless(hs.pre, Kind(i))
      ensures hs.Entries() <= old(hs.Entries()) + 1
    {
      hide HeaderStore.Inside, Headers.Shows;
      if spare != [] {
        i := spare[0];
        TakeSpare(hs.tab, spare);
        spare := spare[1..];
        hs.Log(Sz(i), 0);
      } else {
        i := hs.Read(FreePtr);
        hs.NoLog(FreePtr, i + 1);
      }
    }

    ghost predicate OnlyOld()
      reads hs
    {
      forall j: nat :: Live(hs.pre, j) ==> Live(hs.tab, j)
    }

    ghost predicate HeaderLeft()
      reads this, hs
    {
      spare != [] || hs.tab.freePtr < |hs.tab.hd|
    }

    // There is a header for the rest of a block that is split for n pages, or no block to split.
    ghost predicate MaySplit(n: nat)
      reads this, hs
    {
      HeaderLeft() || forall q :: IsFree(bs, q) ==> bs[q].pages <= n
    }

    // MAK_install_header.
    method InstallHeader(p: nat) returns (i: nat)
      requires hs.Inside() && ix.Valid() && hs.tab.freePtr == hs.pre.freePtr >= 0 && Spare(hs.tab, spare) && OnlyOld()
      requires FreePtr in hs.logged && HeaderLeft() && hs.Entries() + 1 < NvmModel.LOG_CAPACITY
      modifies hs, hs.nvm, hs.nvm.table, ix, ix.top, `spare
      ensures Continues() && old(Unused(hs.tab, i)) && SpareBut(hs.tab, spare, i)
      ensures hs.tab == Born(old(hs.tab), i, old(hs.tab).hd[i].(block := p))
      ensures ix.Valid() && ix.flat == old(ix.flat)[p := Head(i)]
      ensures Writable(Sz(i)) && Harmless(hs.pre, Flags(i)) && Harmless(hs.pre, Start(i)) && Harmless(hs.pre, Kind(i))
      ensures hs.Entries() <= old(hs.Entries()) + 1
    {
      hide HeaderStore.Inside, Headers.Shows, Index.Valid, Spare;
      ix.Ensure(Key(p));
      i := AllocHdr();
      hs.NoLog(Start(i), p);
      ix.Set(p, Head(i));
    }

    // A new header for a block of the given size.
    method SizedHeader(p: nat, size: nat) returns (i: nat)
      requires hs.Inside() && ix.Valid() && hs.tab.freePtr == hs.pre.freePtr >= 0 && Spare(hs.tab, spare) && OnlyOld()
      requires FreePtr in hs.logged && HeaderLeft() && hs.Entries() + 1 < NvmModel.LOG_CAPACITY && size > 0
      modifies hs, hs.nvm, hs.nvm.table, ix, ix.top, `spare
      ensures Continues() && old(Unused(hs.tab, i)) && SpareBut(hs.tab, spare, i)
      ensures hs.tab == Born(old(hs.tab), i, old(hs.tab).hd[i].(block := p, sz := size))
      ensures ix.Valid() && ix.flat == old(ix.flat)[p := Head(i)]
      ensures Writable(Sz(i)) && Harmless(hs.pre, Flags(i)) && Harmless(hs.pre, Kind(i))
      ensures hs.Entries() <= old(hs.Entries()) + 1
    {
      hide HeaderStore.Inside, Headers.Shows, Index.Valid, Spare;
      i := InstallHeader(p);
      hs.NoLog(Sz(i), size);
    }

    //
    // Freeing.
    //

    // Coalesces free block p with its predecessor, if that is free.
    method JoinPrev(p: nat, i: nat) returns (q: nat, j: nat)
      requires hs.Inside() && Around(hs.tab, {p}) && Coalesced(bs, p) && IsFree(bs, p) && Heads(hs.tab, i, p)
      requires Sz(i) in hs.logged && Flags(i) in hs.logged && AllOld() && hs.Entries() + 4 < NvmModel.LOG_CAPACITY
      modifies hs, hs.nvm, hs.nvm.table, fl, fl.heads, fl.bytes, ix, `spare, `bs
      ensures Continues() && Around(hs.tab, {q}) && Coalesced(bs, q) && IsFree(bs, q) && Heads(hs.tab, j, q)
      ensures LeftApart(bs, q) && End(bs, q) == old(End(bs, p)) && UsedOf(bs) == old(UsedOf(bs))
      ensures Sz(j) in hs.logged && Flags(j) in hs.logged && AllOld() && hs.Entries() <= old(hs.Entries()) + 3
      ensures forall x: nat :: x != p ==> Look(ix.flat, x) == old(Look(ix.flat, x))
      ensures hs.tab.large == old(hs.tab.large)
      ensures fl.Sum() + bs[q].pages * HB == old(fl.Sum() + bs[p].pages * HB)
    {
      hide HeaderStore.Inside, Headers.Shows, Index.Valid, FL.Lists.Valid, FL.Lists.Sum;
      hide Agrees, Views, Coalesced, LeftApart, UsedOf, Marked;
      AgreesViews(hs.tab, Now(), {p});
      var r := FreeBlockEndingAt(p);
      q, j := p, i;
      if r.To? {
        var k := HeaderAt(r.b);
        PrevJoins(hs.tab, Now(), p, i, r.b, k);
        if hs.Read(Sz(i)) + hs.Read(Sz(k)) < SIGNED_LIMIT {
          q, j := r.b, k;
          TakeInPrev(p, i, q, j);
        }
      }
    }

    // Free block p becomes part of free block q before it.
    method TakeInPrev(p: nat, i: nat, q: nat, j: nat)
      requires hs.Inside() && Around(hs.tab, {p}) && IsFree(bs, p) && IsFree(bs, q) && p == End(bs, q) && p != q
      requires Heads(hs.tab, i, p) && Heads(hs.tab, j, q) && Marked(hs.tab, j) == hs.tab
      requires Sz(i) in hs.logged && AllOld() && hs.Entries() + 4 < NvmModel.LOG_CAPACITY
      modifies hs, hs.nvm, hs.nvm.table, fl, fl.heads, fl.bytes, ix, `spare, `bs
      ensures Continues() && Around(hs.tab, {q}) && bs == Merged(old(bs), q, p) && Heads(hs.tab, j, q)
      ensures Sz(j) in hs.logged && Flags(j) in hs.logged && AllOld() && hs.Entries() == old(hs.Entries()) + 3
      ensures ix.flat == old(ix.flat)[p := Nil] && hs.tab.large == old(hs.tab.large)
      ensures fl.Sum() == old(fl.Sum()) - old(bs)[q].pages * HB
    {
      hide HeaderStore.Inside, Headers.Shows, Index.Valid, FL.Lists.Valid, FL.Lists.Sum, Agrees;
      RemoveFromFl(q, j, hs.tab, {p});
      assert {p} + {q} == {q, p};
      Absorb(q, j, p, i);
      assert Marked(hs.tab, j) == hs.tab;
    }

    // Coalesces free block p with its successor, if that is free; e is the index entry there.
    method JoinNext(p: nat, i: nat, e: Entry)
      requires hs.Inside() && i < |hs.tab.hd| && Around(Marked(hs.tab, i), {p}) && Coalesced(bs, p) && LeftApart(bs, p)
      requires IsFree(bs, p) && Heads(hs.tab, i, p) && e == Look(ix.flat, End(bs, p))
      requires Writable(Sz(i)) && OldBut(i) && hs.Entries() + 4 < NvmModel.LOG_CAPACITY
      modifies hs, hs.nvm, hs.nvm.table, fl, fl.heads, fl.bytes, ix, `spare, `bs
      ensures Continues() && Around(Marked(hs.tab, i), {p}) && Coalesced(bs, 0) && IsFree(bs, p) && Heads(hs.tab, i, p)
      ensures UsedOf(bs) == old(UsedOf(bs)) && hs.Entries() <= old(hs.Entries()) + 3
      ensures hs.tab.hd[i].flags == old(hs.tab.hd[i].flags) && hs.tab.large == old(hs.tab.large)
      ensures fl.Sum() + bs[p].pages * HB == old(fl.Sum() + bs[p].pages * HB)
    {
      hide HeaderStore.Inside, Headers.Shows, Index.Valid, FL.Lists.Valid, FL.Lists.Sum;
      hide Agrees, Coalesced, LeftApart, UsedOf;
      ghost var t, q := Marked(hs.tab, i), End(bs, p);
      NextJoins(t, Now(), p, i, e);
      if e.Head? {
        if IsFreeFlag(hs.Read(Flags(e.i))) {
          if hs.Read(Sz(i)) + hs.Read(Sz(e.i)) < SIGNED_LIMIT {
            var next := p + hs.Read(Sz(i)) / HB;
            TakeInNext(p, i, next, e.i);
          }
        }
      }
      AllApart(bs, p);
    }

    // Free block q becomes part of free block p before it.
    method TakeInNext(p: nat, i: nat, q: nat, j: nat)
      requires hs.Inside() && i < |hs.tab.hd| && Around(Marked(hs.tab, i), {p})
      requires IsFree(bs, p) && IsFree(bs, q) && q == End(bs, p) && q != p && i != j
      requires Heads(hs.tab, i, p) && Heads(hs.tab, j, q)
      requires Writable(Sz(i)) && OldBut(i) && hs.Entries() + 4 < NvmModel.LOG_CAPACITY
      modifies hs, hs.nvm, hs.nvm.table, fl, fl.heads, fl.bytes, ix, `spare, `bs
      ensures Continues() && Around(Marked(hs.tab, i), {p}) && bs == Merged(old(bs), p, q) && Heads(hs.tab, i, p)
      ensures hs.Entries() == old(hs.Entries()) + 3 && hs.tab.large == old(hs.tab.large)
      ensures hs.tab.hd[i].flags == old(hs.tab.hd[i].flags) && fl.Sum() == old(fl.Sum()) - old(bs)[q].pages * HB
    {
      hide HeaderStore.Inside, Headers.Shows, Index.Valid, FL.Lists.Valid, FL.Lists.Sum, Agrees;
      RemoveFromFl(q, j, Marked(hs.tab, i), {p});
      assert {p} + {q} == {p, q};
      Absorb(p, i, q, j);
    }

    // Coalesces free block p with both neighbours; e is the index entry of the successor.
    method Coalesce(p: nat, i: nat, e: Entry) returns (q: nat, j: nat)
      requires hs.Inside() && Around(hs.tab, {p}) && Coalesced(bs, p) && IsFree(bs, p) && Heads(hs.tab, i, p)
      requires e == Look(ix.flat, End(bs, p)) && bs[p].pages > 0
      requires Sz(i) in hs.logged && Flags(i) in hs.logged && AllOld() && hs.Entries() + 8 < NvmModel.LOG_CAPACITY
      modifies hs, hs.nvm, hs.nvm.table, fl, fl.heads, fl.bytes, ix, `spare, `bs
      ensures Continues() && j < |hs.tab.hd| && Around(Marked(hs.tab, j), {q}) && Coalesced(bs, 0)
      ensures IsFree(bs, q) && Heads(hs.tab, j, q) && Flags(j) in hs.logged
      ensures UsedOf(bs) == old(UsedOf(bs)) && hs.Entries() <= old(hs.Entries()) + 6
      ensures hs.tab.large == old(hs.tab.large)
      ensures fl.Sum() + bs[q].pages * HB == old(fl.Sum() + bs[p].pages * HB)
    {
      hide HeaderStore.Inside, Headers.Shows, Index.Valid, FL.Lists.Valid, FL.Lists.Sum, FreeBytes, Spare, Buried;
      hide Listed, Views, Coalesced, LeftApart;
      q, j := JoinPrev(p, i);
      MarkedAlready(hs.tab, ix.flat, bs, heap, j);
      JoinNext(q, j, e);
    }

    // The counts, the size and the flag of a block that is given back.
    method Release(p: nat) returns (i: nat, n: nat)
      requires hs.Inside() && hs.tab == hs.pre && Around(hs.tab, {}) && Coalesced(bs, 0) && p in bs && bs[p].Used?
      requires hs.Entries() == 0
      modifies hs, hs.nvm, hs.nvm.table, ix, `bs
      ensures Continues() && Around(hs.tab, {p}) && Coalesced(bs, p) && bs == old(bs)[p := Free(n)]
      ensures n == old(bs)[p].pages > 0
      ensures UsedOf(bs) == old(UsedOf(bs)) - {p}
      ensures Heads(hs.tab, i, p) && Sz(i) in hs.logged && Flags(i) in hs.logged && AllOld() && hs.Entries() == 2
      ensures hs.tab.large == old(hs.tab.large)
    {
      hide HeaderStore.Inside, Headers.Shows, Index.Valid, FL.Lists.Valid, FL.Lists.Sum;
      hide Agrees, Views, Coalesced, UsedOf;
      ghost var t, w := hs.tab, Now();
      AgreesViews(t, w, {});
      i := HeaderAt(p);
      n := PagesFor(hs.Read(Sz(i)));
      InnerKeys(p, n);
      ix.RemoveCounts(p, n);
      StoreFree(i, n);
      ReleasedAgrees(t, w, ix.flat, p, i, hs.tab.hd[i]);
      bs := bs[p := Free(n)];
    }

    // Size and flag of a header become those of a free block of n pages.
    method StoreFree(i: nat, n: nat)
      requires hs.Inside() && i < |hs.tab.hd| && Live(hs.pre, i) && hs.tab == hs.pre && hs.Entries() == 0
      modifies hs, hs.nvm, hs.nvm.table
      ensures Continues()
      ensures hs.tab == SetHdr(old(hs.tab), i,
                old(hs.tab).hd[i].(sz := n * HB, flags := SetFree(old(hs.tab).hd[i].flags)))
      ensures Sz(i) in hs.logged && Flags(i) in hs.logged && hs.Entries() == 2
    {
      hide HeaderStore.Inside, Headers.Shows;
      hs.Store(Sz(i), n * HB);
      hs.Store(Flags(i), SetFree(hs.Read(Flags(i))));
    }

    // The index has room for the inner pages of a block in use.
    lemma InnerKeys(p: nat, n: nat)
      requires ix.Valid() && Views(hs.tab, ix.flat, bs, heap) && p in bs && bs[p].Used? && n == bs[p].pages
      ensures n > 0 && forall q: nat :: p < q < p + n ==> HasKey(ix.keys, Key(q))
    {
      forall q: nat | p < q < p + n
        ensures HasKey(ix.keys, Key(q))
      {
        assert PointAt(ix.flat, bs, q) && Covers(bs, p, q);
        ix.HeadHasKey(q);
      }
    }

    // The end of MAK_freehblk and MAK_newfreehblk, and of their section.
    method Settle(p: nat, i: nat, size: nat, ghost bs0: Blocks)
      requires hs.Inside() && i < |hs.tab.hd| && Around(Marked(hs.tab, i), {p}) && Coalesced(bs, 0)
      requires IsFree(bs, p) && Heads(hs.tab, i, p) && Writable(Flags(i)) && hs.Entries() + 1 < NvmModel.LOG_CAPACITY
      requires fl.Sum() + bs[p].pages * HB == hs.tab.large + size && Tells(hs.pre, bs0)
      modifies hs, hs.nvm, hs.nvm.table, fl, fl.heads, fl.bytes
      ensures AtRest() && |hs.tab.hd| == |old(hs.pre.hd)| && hs.nvm.init == old(hs.nvm.init)
      ensures CrashShows(hs.nvm.init, hs.nvm.trace, old(hs.nvm.start), |hs.tab.hd|, bs0, bs)
    {
      hide HeaderStore.Inside, HeaderStore.Between, Headers.Shows, Index.Valid, FL.Lists.Valid, FL.Lists.Sum, FreeBytes;
      hide Agrees, Listed, Describes, Coalesced, CrashShows;
      LargeAgrees(Marked(hs.tab, i), Now(), {p}, hs.tab.large + size);
      hs.Store(Large, hs.Read(Large) + size);
      AddToFl(p, i);
      AgreesDescribes(hs.tab, Now(), {});
      SumIsFree();
      Commit(bs0);
    }

    // The counters of the lists add up to the bytes in free blocks.
    lemma SumIsFree()
      requires fl.Valid() && Listed(fl.lists, fl.sizes, bs, {})
      ensures fl.Sum() == FreeBytes(bs)
    {
      ListedBytes(fl.bytes[..], fl.lists, fl.sizes, bs);
    }

    // MAK_END_NVM_ATOMIC at the end of an operation.
    method Commit(ghost bs0: Blocks)
      requires hs.Inside() && Tells(hs.pre, bs0) && Tells(hs.tab, bs)
      modifies hs.nvm, hs.nvm.table
      ensures hs.Between() && hs.nvm.init == old(hs.nvm.init)
      ensures CrashShows(hs.nvm.init, hs.nvm.trace, old(hs.nvm.start), |hs.tab.hd|, bs0, bs)
    {
      hide Tells, CrashShows, HeaderStore.Between, HeaderStore.Inside, CrashRestores;
      hs.Finish();
      CrashDescribes(hs.nvm.init, hs.nvm.trace, hs.nvm.start, hs.pre, hs.tab, bs0, bs);
    }

    // MAK_freehblk in its failure-atomic section.
    method FreeHblk(p: nat)
      requires AtRest() && p in bs && bs[p].Used?
      modifies Repr()
      ensures AtRest() && heap == old(heap) && known == old(known)
      ensures UsedOf(bs) == old(UsedOf(bs)) - {p}
      ensures hs.nvm.init == old(hs.nvm.init)
      ensures CrashShows(hs.nvm.init, hs.nvm.trace, |old(hs.nvm.trace)|, |old(hs.tab.hd)|, old(bs), bs)
    {
      hide HeaderStore.Inside, HeaderStore.Between, Headers.Shows, Index.Valid, FL.Lists.Valid, FL.Lists.Sum;
      hide FreeBytes, Spare, Buried, Listed, Points, HeadsRight;
      hide Describes, Tiles, UserSpace, CrashShows, Coalesced, LeftApart, UsedOf;
      SumIsFree();
      hs.Begin();
      var i, n := Release(p);
      var e := ix.Get(p + n);
      var q, j := Coalesce(p, i, e);
      Settle(q, j, n * HB, old(bs));
    }

    //
    // Growing the heap.
    //

    // The new pages extend free block q.
    method GrowPrev(q: nat, i: nat, n: nat)
      requires hs.Inside() && hs.tab == hs.pre && Around(hs.tab, {}) && Coalesced(bs, 0) && IsFree(bs, q)
      requires Heads(hs.tab, i, q)
      requires n > 0 && heap !! Extent(End(bs, q), n) && UserSpace(Extent(End(bs, q), n)) && hs.Entries() == 0
      modifies hs, hs.nvm, hs.nvm.table, fl, fl.heads, fl.bytes, `bs, `heap
      ensures Continues() && i < |hs.tab.hd| && Around(Marked(hs.tab, i), {q}) && Coalesced(bs, q) && LeftApart(bs, q)
      ensures bs == old(bs)[q := Free(old(bs)[q].pages + n)] && heap == old(heap) + Extent(old(End(bs, q)), n)
      ensures Heads(hs.tab, i, q) && Writable(Sz(i)) && Writable(Flags(i)) && OldBut(i) && hs.Entries() == 3
      ensures hs.tab.large == old(hs.tab.large) && fl.Sum() + bs[q].pages * HB == old(fl.Sum()) + n * HB
      ensures UsedOf(bs) == old(UsedOf(bs))
    {
      hide HeaderStore.Inside, Headers.Shows, Index.Valid, FL.Lists.Valid, FL.Lists.Sum;
      hide Agrees, Views, Coalesced, LeftApart, UserSpace, UsedOf, Marked;
      ghost var t := hs.tab;
      RemoveFromFl(q, i, t, {});
      assert {} + {q} == {q};
      LongerAgrees(t, Now(), i, q, n);
      hs.NoLog(Sz(i), hs.Read(Sz(i)) + n * HB);
      hs.Log(FreePtr, hs.Read(FreePtr));
      assert hs.tab == SetHdr(t, i, t.hd[i].(sz := t.hd[i].sz + n * HB));
      heap := heap + Extent(End(bs, q), n);
      bs := bs[q := Free(bs[q].pages + n)];
      AgreesViews(hs.tab, Now(), {q});
      MarkedAlready(hs.tab, ix.flat, bs, heap, i);
    }

    // The new pages become a block of their own.
    method GrowNew(p: nat, n: nat) returns (i: nat)
      requires hs.Inside() && hs.tab == hs.pre && Around(hs.tab, {}) && Coalesced(bs, 0) && LeftApart(bs, p) && p !in bs
      requires n > 0 && p > 0 && heap !! Extent(p, n) && UserSpace(Extent(p, n)) && hs.Entries() == 0 && HeaderLeft()
      modifies hs, hs.nvm, hs.nvm.table, ix, ix.top, `spare, `known, `bs, `heap
      ensures Continues() && i < |hs.tab.hd| && Around(Marked(hs.tab, i), {p}) && Coalesced(bs, p) && LeftApart(bs, p)
      ensures bs == old(bs)[p := Free(n)] && heap == old(heap) + Extent(p, n) && known == old(known) + {i}
      ensures Heads(hs.tab, i, p) && Writable(Sz(i)) && Writable(Flags(i)) && OldBut(i) && hs.Entries() <= 2
      ensures hs.tab.large == old(hs.tab.large)
      ensures UsedOf(bs) == old(UsedOf(bs)) && forall q: nat :: q != p ==> Look(ix.flat, q) == old(Look(ix.flat, q))
    {
      hide HeaderStore.Inside, Headers.Shows, Index.Valid, FL.Lists.Valid, FL.Lists.Sum;
      hide Agrees, Spare, SpareBut, Coalesced, LeftApart, UserSpace, Born, Marked, UsedOf, Extent;
      ghost var t, w := hs.tab, Now();
      AgreesBasics(t, w, {});
      i := FreeHeader(p, n);
      BornAgrees(t, w, spare, i, FreeHdr(t.hd[i], p, n), p, n);
      heap := heap + Extent(p, n);
      bs := bs[p := Free(n)];
      known := known + {i};
    }

    // A new header for a free block of n pages that is not marked yet.
    method FreeHeader(p: nat, n: nat) returns (i: nat)
      requires hs.Inside() && ix.Valid() && hs.tab == hs.pre && hs.tab.freePtr >= 0 && Spare(hs.tab, spare)
      requires n > 0 && hs.Entries() == 0 && HeaderLeft()
      modifies hs, hs.nvm, hs.nvm.table, ix, ix.top, `spare
      ensures Continues() && ix.Valid() && ix.flat == old(ix.flat)[p := Head(i)] && old(Unused(hs.tab, i))
      ensures i < |hs.tab.hd|
      ensures Marked(hs.tab, i) == Born(old(hs.tab), i, FreeHdr(old(hs.tab).hd[i], p, n))
      ensures SpareBut(Marked(hs.tab, i), spare, i)
      ensures Heads(hs.tab, i, p) && Writable(Sz(i)) && Writable(Flags(i)) && OldBut(i) && hs.Entries() <= 2
      ensures hs.tab.large == old(hs.tab.large)
    {
      hide HeaderStore.Inside, Headers.Shows, Index.Valid, Spare, SpareBut, Put, Born, Marked;
      ghost var t := hs.tab;
      hs.Log(FreePtr, hs.Read(FreePtr));
      i := SizedHeader(p, n * HB);
      hs.NoLog(Flags(i), 0);
      MarkedBorn(t, i, t.hd[i].(block := p, sz := n * HB), spare);
    }

    // The new pages extend the free block before them, if there is one.
    method Place(p: nat, n: nat) returns (q: nat, i: nat)
      requires hs.Inside() && hs.tab == hs.pre && Around(hs.tab, {}) && Coalesced(bs, 0) && hs.Entries() == 0
      requires n > 0 && p > 0 && heap !! Extent(p, n) && UserSpace(Extent(p, n)) && (LeftApart(bs, p) ==> HeaderLeft())
      modifies hs, hs.nvm, hs.nvm.table, fl, fl.heads, fl.bytes, ix, ix.top, `spare, `known, `bs, `heap
      ensures Continues() && i < |hs.tab.hd| && Around(Marked(hs.tab, i), {q}) && Coalesced(bs, q) && LeftApart(bs, q)
      ensures IsFree(bs, q) && End(bs, q) == p + n && heap == old(heap) + Extent(p, n) && known >= old(known)
      ensures Heads(hs.tab, i, q) && Writable(Sz(i)) && Writable(Flags(i)) && OldBut(i) && hs.Entries() <= 3
      ensures hs.tab.large == old(hs.tab.large) && fl.Sum() + bs[q].pages * HB == old(fl.Sum()) + n * HB
      ensures UsedOf(bs) == old(UsedOf(bs)) && Look(ix.flat, p + n) == old(Look(ix.flat, p + n))
    {
      hide HeaderStore.Inside, Headers.Shows, Index.Valid, FL.Lists.Valid, FL.Lists.Sum, FreeBytes, Spare, Buried;
      hide Listed, Points, HeadsRight;
      hide Describes, UserSpace, Coalesced, LeftApart;
      GrowTiles(bs, heap, p, n);
      NotCovered(bs, heap, p, n);
      var r := FreeBlockEndingAt(p);
      q, i := p, 0;
      if r.To? {
        i := HeaderAt(r.b);
        LongerFits(bs, heap, r.b, n);
      }
      if r.To? && n * HB + hs.Read(Sz(i)) < SIGNED_LIMIT {
        q := r.b;
        GrowPrev(q, i, n);
      } else {
        i := GrowNew(p, n);
      }
    }

    // MAK_newfreehblk in its failure-atomic section.
    method NewFreeHblk(p: nat, n: nat)
      requires AtRest() && n > 0 && p > 0 && heap !! Extent(p, n) && UserSpace(Extent(p, n))
      requires LeftApart(bs, p) ==> HeaderLeft()
      modifies Repr()
      ensures AtRest() && heap == old(heap) + Extent(p, n) && known >= old(known)
      ensures UsedOf(bs) == old(UsedOf(bs))
      ensures hs.nvm.init == old(hs.nvm.init)
      ensures CrashShows(hs.nvm.init, hs.nvm.trace, |old(hs.nvm.trace)|, |old(hs.tab.hd)|, old(bs), bs)
    {
      hide HeaderStore.Inside, HeaderStore.Between, Headers.Shows, Index.Valid, FL.Lists.Valid, FL.Lists.Sum;
      hide FreeBytes, Spare, Buried, Listed, Points, HeadsRight;
      hide Describes, Tiles, UserSpace, CrashShows, Coalesced, LeftApart, UsedOf;
      SumIsFree();
      hs.Begin();
      var e := ix.Get(p + n);
      var q, i := Place(p, n);
      JoinNext(q, i, e);
      Settle(q, i, n * HB, old(bs));
    }

    //
    // Allocation.
    //

    // MAK_get_first_part for header i of block p; the block is wanted for use b.
    method GetFirstPart(p: nat, i: nat, need: nat, ghost b: Block) returns (ghost j: nat)
      requires hs.Inside() && hs.tab == hs.pre && Around(hs.tab, {}) && IsFree(bs, p) && Heads(hs.tab, i, p)
      requires b.Used? && need == b.pages * HB && 0 < b.pages <= bs[p].pages
      requires FreePtr in hs.logged && (b.pages < bs[p].pages ==> HeaderLeft()) && hs.Entries() == 1
      modifies hs, hs.nvm, hs.nvm.table, fl, fl.heads, fl.bytes, ix, ix.top, `spare, `bs, `known
      ensures Continues() && ix.Valid() && fl.Valid() && hs.Entries() <= 4 && Sz(i) in hs.logged
      ensures Flags(i) in hs.logged
      ensures bs == Taken(old(bs), p, b) && UsedOf(bs) == old(UsedOf(bs))[p := b] && Listed(fl.lists, fl.sizes, bs, {})
      ensures b.pages == old(bs)[p].pages ==>
                hs.tab == old(hs.tab) && ix.flat == old(ix.flat) && spare == old(spare) && known == old(known)
      ensures b.pages < old(bs)[p].pages ==>
                && old(Unused(hs.tab, j)) && j != i
                && hs.tab == Born(old(hs.tab), j, Rest(old(hs.tab).hd[j], p, b.pages, old(bs)[p].pages))
                && ix.flat == old(ix.flat)[p + b.pages := Head(j)]
                && SpareBut(hs.tab, spare, j) && known == old(known) + {j}
      ensures fl.Sum() == old(fl.Sum()) - need
    {
      hide HeaderStore.Inside, Headers.Shows, Index.Valid, FL.Lists.Valid, FL.Lists.Sum, FreeBytes, Describes, Points;
      hide HeadsRight, Listed, Spare, Buried, SpareBut;
      ghost var t := hs.tab;
      LiveMatches(t, ix.flat, bs, heap, i);
      AgreesBasics(t, Now(), {});
      j := 0;
      var total := hs.Read(Sz(i));
      RemoveFromFl(p, i, hs.tab, {});
      assert {} + {p} == {p};
      if total != need {
        SplitOrder(bs, heap, p, b.pages);
      }
      TakenListed(fl.lists, fl.sizes, bs, p, b);
      bs := Taken(bs, p, b);
      if total != need {
        j := PutRest(p + need / HB, total - need, t);
      }
    }

    // The rest of a split block gets a header and goes on its list.
    method PutRest(rest: nat, size: nat, ghost t: Table) returns (ghost j: nat)
      requires hs.Inside() && ix.Valid() && fl.Valid() && hs.tab == hs.pre == t && t.freePtr >= 0 && Spare(t, spare)
      requires IsFree(bs, rest) && rest > 0 && bs[rest].pages * HB == size > 0 && Listed(fl.lists, fl.sizes, bs, {rest})
      requires FreePtr in hs.logged && HeaderLeft() && hs.Entries() <= 3
      modifies hs, hs.nvm, hs.nvm.table, fl, fl.heads, fl.bytes, ix, ix.top, `spare, `known
      ensures Continues() && ix.Valid() && fl.Valid() && hs.Entries() <= 4 && Listed(fl.lists, fl.sizes, bs, {})
      ensures Unused(t, j) && hs.tab == Born(t, j, t.hd[j].(sz := size, flags := SetFree(0), block := rest))
      ensures ix.flat == old(ix.flat)[rest := Head(j)] && SpareBut(hs.tab, spare, j) && known == old(known) + {j}
      ensures fl.Sum() == old(fl.Sum()) + size
    {
      hide HeaderStore.Inside, Headers.Shows, Index.Valid, FL.Lists.Valid, FL.Lists.Sum, FreeBytes, Listed, Spare;
      hide SpareBut, Put, Born;
      var k := SizedHeader(rest, size);
      j := k;
      hs.NoLogTwice(Flags(k), 0, SetFree(0));
      BornFlags(t, k, t.hd[k].(block := rest, sz := size), SetFree(0), spare);
      PutOn(rest, size, {rest});
      assert {rest} - {rest} == {};
      known := known + {j};
    }

    // setup_header.
    method SetupHeader(i: nat, p: nat, sz: nat, kind: int, flags: int)
      requires hs.Inside() && i < |hs.tab.hd| && Sz(i) in hs.logged && Flags(i) in hs.logged
      requires Harmless(hs.pre, Kind(i)) && hs.pre.hd[i].block == p
      modifies hs, hs.nvm, hs.nvm.table
      ensures Continues() && hs.tab == SetHdr(old(hs.tab), i, Hdr(sz, flags, p, kind))
      ensures hs.Entries() == old(hs.Entries())
    {
      hide HeaderStore.Inside, Headers.Shows;
      hs.NoLog(Sz(i), sz);
      hs.NoLog(Kind(i), kind);
      hs.NoLog(Flags(i), flags);
      hs.NoLog(Start(i), p);
    }

    // Gets the block and sets up its header h.
    method Convert(p: nat, i: nat, h: Hdr, ghost w: World) returns (ghost j: nat, ghost g: Hdr)
      requires hs.Inside() && hs.tab == hs.pre && Around(hs.tab, {}) && w == Now() && IsFree(bs, p)
      requires Heads(hs.tab, i, p)
      requires h.sz > 0 && h.block == p && !IsFreeFlag(h.flags) && PagesFor(h.sz) <= bs[p].pages
      requires IsFreeFlag(hs.tab.hd[i].flags)
      requires FreePtr in hs.logged && (PagesFor(h.sz) < bs[p].pages ==> HeaderLeft()) && hs.Entries() == 1
      modifies hs, hs.nvm, hs.nvm.table, fl, fl.heads, fl.bytes, ix, ix.top, `spare, `bs, `known
      ensures Continues() && ix.Valid() && fl.Valid() && hs.Entries() <= 4
      ensures fl.Sum() == old(fl.Sum()) - PagesFor(h.sz) * HB
      ensures bs == Taken(w.bs, p, BlockOf(h)) && UsedOf(bs) == UsedOf(w.bs)[p := BlockOf(h)]
      ensures hs.tab.large == old(hs.tab.large)
      ensures var split := PagesFor(h.sz) < w.bs[p].pages; var t := old(hs.tab);
              && Takes(t, w.bs, i, h, split, j, g) && hs.tab == TakenTable(t, i, h, split, j, g)
              && known == (if split then w.known + {j} else w.known)
              && ix.flat == (if split then w.flat[g.block := Head(j)] else w.flat)
              && Listed(fl.lists, fl.sizes, bs, {})
              && if split then SpareBut(Born(t, j, g), spare, j) else spare == w.spare
    {
      hide HeaderStore.Inside, Headers.Shows, Index.Valid, FL.Lists.Valid, FL.Lists.Sum, FreeBytes, Agrees, Listed;
      hide SpareBut;
      ghost var t := hs.tab;
      ghost var n, n0 := PagesFor(h.sz), bs[p].pages;
      j := GetFirstPart(p, i, PagesFor(h.sz) * HB, BlockOf(h));
      g := if n < n0 then Rest(t.hd[j], p, n, n0) else h;
      SetupHeader(i, p, h.sz, h.kind, h.flags);
      assert hs.tab == TakenTable(t, i, h, n < n0, j, g);
    }

    // The failure-atomic section of MAK_allochblk_nth for free block p, and the counts.
    method Take(p: nat, sz: nat, kind: int, flags: int)
      requires AtRest() && IsFree(bs, p) && 0 < sz && PagesFor(sz) <= bs[p].pages && !IsFreeFlag(flags)
      requires PagesFor(sz) < bs[p].pages ==> HeaderLeft()
      modifies Repr()
      ensures AtRest() && heap == old(heap) && known >= old(known)
      ensures UsedOf(bs) == old(UsedOf(bs))[p := Used(PagesFor(sz), sz, kind)]
      ensures hs.nvm.init == old(hs.nvm.init)
      ensures CrashShows(hs.nvm.init, hs.nvm.trace, |old(hs.nvm.trace)|, |old(hs.tab.hd)|, old(bs), bs)
    {
      hide HeaderStore.Inside, HeaderStore.Between, Headers.Shows, Index.Valid, FL.Lists.Valid, FL.Lists.Sum;
      hide FreeBytes, Agrees, Listed, SpareBut, Coalesced;
      hide CrashShows, Describes, Takes, TakenTable, Taken, UsedOf;
      ghost var t, w, h := hs.tab, Now(), Hdr(sz, flags, p, kind);
      AgreesDescribes(t, w, {});
      SumIsFree();
      var i := HeaderFor(p);
      hs.Begin();
      hs.Log(FreePtr, hs.Read(FreePtr));
      ghost var j, g := Convert(p, i, Hdr(sz, flags, p, kind), w);
      var n := PagesFor(sz);
      ghost var split := n < w.bs[p].pages;
      ghost var t' := hs.tab;
      TakenDescribes(t, w, {}, i, h, split, j, g);
      Charge(n * HB, old(bs));
      ix.InstallCounts(p, n);
      TakenAgrees(t, w, {}, Now(), i, h, split, j, g);
      LargeAgrees(t', Now(), {}, hs.tab.large);
      assert Around(hs.tab, {}) && fl.Sum() == hs.tab.large;
    }

    // The end of the section: the total goes down.
    method Charge(size: nat, ghost bs0: Blocks)
      requires hs.Inside() && Tells(hs.pre, bs0) && Describes(hs.tab, bs) && hs.Entries() + 1 < NvmModel.LOG_CAPACITY
      requires fl.Valid() && Listed(fl.lists, fl.sizes, bs, {}) && hs.tab.large == fl.Sum() + size
      modifies hs, hs.nvm, hs.nvm.table
      ensures hs.Between() && hs.tab == old(hs.tab).(large := fl.Sum()) && hs.nvm.init == old(hs.nvm.init)
      ensures CrashShows(hs.nvm.init, hs.nvm.trace, old(hs.nvm.start), |hs.tab.hd|, bs0, bs)
    {
      hide HeaderStore.Inside, HeaderStore.Between, Headers.Shows, FL.Lists.Valid, FL.Lists.Sum, FreeBytes, Listed;
      hide CrashShows, Describes;
      SumIsFree();
      LargeDescribes(hs.tab, bs, hs.tab.large - size);
      hs.Store(Large, hs.Read(Large) - size);
      Commit(bs0);
    }

    // HDR for the first page of a free block, between operations.
    method HeaderFor(p: nat) returns (i: nat)
      requires Around(hs.tab, {}) && IsFree(bs, p)
      ensures Heads(hs.tab, i, p) && Good(hs.tab.hd[i]) && IsFreeFlag(hs.tab.hd[i].flags)
      ensures hs.tab.hd[i].sz == bs[p].pages * HB
    {
      i := HeaderAt(p);
    }

    // The blocks on list k are free and linked.
    lemma ListWalk(k: nat)
      requires fl.Valid() && Agrees(hs.tab, Now(), {}) && k <= FL.LAST_LIST
      ensures k < fl.heads.Length && k < |fl.lists| && FL.Linked(fl.heads[k], fl.lists[k], fl.next, fl.prev)
      ensures forall q :: q in fl.lists[k] ==> IsFree(bs, q)
    {
      hide Views, Spare, Buried, FL.Counted;
    }

    // The search of MAK_allochblk_nth in list k for need bytes; 0 if there is nothing suitable.
    method Search(k: nat, need: nat, maySplit: bool) returns (p: nat)
      requires AtRest() && k <= FL.LAST_LIST
      ensures p != 0 ==> IsFree(bs, p) && Suits(bs[p].pages * HB, need, maySplit)
      ensures p == 0 ==> forall q :: q in fl.lists[k] ==> q in bs && !Suits(bs[q].pages * HB, need, maySplit)
    {
      hide HeaderStore.Between, Headers.Shows, Index.Valid, FL.Lists.Valid, FL.Lists.Sum, Agrees, Coalesced;
      ListWalk(k);
      p := fl.heads[k];
      ghost var l, pos: nat := fl.lists[k], 0;
      while p != 0
        invariant pos <= |l| && p == FL.After(l, pos - 1) && (pos < |l| ==> FL.Knot(l, fl.next, fl.prev, pos))
        invariant forall m: nat :: m < pos ==> l[m] in bs && (Suits(bs[l[m]].pages * HB, need, maySplit) ==>
                    pos < |l| && l[pos] in bs && Suits(bs[l[pos]].pages * HB, need, maySplit))
        decreases |l| - pos
      {
        assert l[pos] in l && (pos + 1 < |l| ==> FL.Knot(l, fl.next, fl.prev, pos + 1));
        var i := HeaderFor(p);
        var avail := hs.Read(Sz(i));
        var next := fl.next[p];
        if avail >= need && (avail == need || maySplit) {
          var better := false;
          if avail != need && next != 0 {
            assert l[pos + 1] in l;
            var m := HeaderFor(next);
            better := need <= hs.Read(Sz(m)) < avail;
          }
          if !better {
            return;
          }
        }
        p, pos := next, pos + 1;
      }
      forall q | q in l
        ensures q in bs && !Suits(bs[q].pages * HB, need, maySplit)
      {
        var m: nat :| m < |l| && l[m] == q;
      }
    }

    // MAK_allochblk_nth.
    method AllocNth(sz: nat, kind: int, flags: int, k: nat, maySplit: bool) returns (p: nat)
      requires AtRest() && 0 < sz && !IsFreeFlag(flags) && k <= FL.LAST_LIST && (maySplit ==> MaySplit(PagesFor(sz)))
      modifies Repr()
      ensures p == 0 ==> Untouched()
      ensures AtRest() && heap == old(heap) && known >= old(known) && hs.nvm.init == old(hs.nvm.init)
      ensures p == 0 ==> forall q :: q in fl.lists[k] ==>
                q in bs && !Suits(bs[q].pages * HB, PagesFor(sz) * HB, maySplit)
      ensures p != 0 ==> old(IsFree(bs, p)) && old(bs)[p].pages >= PagesFor(sz)
      ensures p != 0 ==> UsedOf(bs) == old(UsedOf(bs))[p := Used(PagesFor(sz), sz, kind)]
      ensures p != 0 ==> CrashShows(hs.nvm.init, hs.nvm.trace, |old(hs.nvm.trace)|, |old(hs.tab.hd)|, old(bs), bs)
    {
      hide HeaderStore.Between, Headers.Shows, Index.Valid, Agrees, Coalesced, CrashShows, FL.Lists.Valid;
      hide FL.Lists.Sum, FreeBytes;
      p := Search(k, PagesFor(sz) * HB, maySplit);
      if p != 0 {
        Take(p, sz, kind, flags);
      }
    }

    // The second pass of MAK_allochblk, which may split blocks.
    method AllocFrom(sz: nat, kind: int, flags: int, start: nat) returns (p: nat)
      requires AtRest() && 0 < sz && !IsFreeFlag(flags) && MaySplit(PagesFor(sz))
      modifies Repr()
      ensures p == 0 ==> Untouched()
      ensures AtRest() && heap == old(heap) && known >= old(known) && hs.nvm.init == old(hs.nvm.init)
      ensures p == 0 ==> forall m: nat, q :: start <= m <= FL.LAST_LIST && q in fl.lists[m] ==>
                q in bs && !Suits(bs[q].pages * HB, PagesFor(sz) * HB, true)
      ensures p != 0 ==> old(IsFree(bs, p)) && old(bs)[p].pages >= PagesFor(sz)
      ensures p != 0 ==> UsedOf(bs) == old(UsedOf(bs))[p := Used(PagesFor(sz), sz, kind)]
      ensures p != 0 ==> CrashShows(hs.nvm.init, hs.nvm.trace, |old(hs.nvm.trace)|, |old(hs.tab.hd)|, old(bs), bs)
    {
      hide HeaderStore.Between, Headers.Shows, Index.Valid, Coalesced, CrashShows, FL.Lists.Valid, FL.Lists.Sum;
      hide FreeBytes, Views, Spare, Buried, UsedOf;
      var k := start;
      while k <= FL.LAST_LIST
        invariant start <= k && Untouched()
        invariant forall m: nat, q :: start <= m < k && m <= FL.LAST_LIST && q in fl.lists[m] ==>
                    q in bs && !Suits(bs[q].pages * HB, PagesFor(sz) * HB, true)
      {
        p := AllocNth(sz, kind, flags, k, true);
        if p != 0 {
          return;
        }
        k := k + 1;
      }
      return 0;
    }

    // MAK_allochblk; 0 if there is no block.
    method AllocHblk(sz: nat, kind: int, flags: int) returns (p: nat)
      requires AtRest() && 0 < sz && !IsFreeFlag(flags) && sz + HB <= 2 * SIGNED_LIMIT
      requires MaySplit(PagesFor(sz)) || ExactFit(bs, PagesFor(sz))
      modifies Repr()
      ensures p == 0 ==> Untouched()
      ensures AtRest() && heap == old(heap) && known >= old(known) && hs.nvm.init == old(hs.nvm.init)
      ensures p == 0 <==> NoFit(old(bs), PagesFor(sz))
      ensures p != 0 ==> old(IsFree(bs, p)) && UsedOf(bs) == old(UsedOf(bs))[p := Used(PagesFor(sz), sz, kind)]
      ensures p != 0 ==> CrashShows(hs.nvm.init, hs.nvm.trace, |old(hs.nvm.trace)|, |old(hs.tab.hd)|, old(bs), bs)
    {
      hide HeaderStore.Between, Headers.Shows, Index.Valid, FL.Lists.Valid, FL.Lists.Sum, FL.ListFor;
      hide Agrees, Views, Coalesced, CrashShows, Listed, UsedOf, MaySplit;
      AgreesDescribes(hs.tab, Now(), {});
      var n := PagesFor(sz);
      if n * HB >= SIGNED_LIMIT {
        AgreesViews(hs.tab, Now(), {});
        AllFit(hs.tab, ix.flat, bs, heap);
        return 0;
      }
      var start := FL.ListFor(n);
      FL.ListsAreOrdered(n, n);
      p := AllocNth(sz, kind, flags, start, false);
      if p != 0 {
        return;
      }
      NoneExact(fl.lists, fl.sizes, bs, n);
      if start < FL.UNIQUE_THRESHOLD {
        start := start + 1;
      }
      p := AllocFrom(sz, kind, flags, start);
      if p == 0 {
        NothingFits(fl.lists, fl.sizes, bs, n, start);
      }
    }

    //
    // Restart.
    //

    // Offline recovery: the index, the unused headers and the free lists are rebuilt from the headers.
    constructor Rebuild(hs: HeaderStore, ghost bs: Blocks, ghost heap: set<nat>)
      requires hs.Between() && Tells(hs.tab, bs) && Tiles(bs, heap) && UserSpace(heap) && 0 !in bs && Coalesced(bs, 0)
      ensures AtRest() && this.hs == hs && this.bs == bs && this.heap == heap
      ensures fresh(Repr() - {hs, hs.nvm, hs.nvm.table})
    {
      hide HeaderStore.Between, Headers.Shows, Index.Valid, FL.Lists.Valid, FL.Lists.Sum, FreeBytes, Tiles, Points;
      hide HeadsRight, Coalesced, UserSpace;
      this.hs := hs;
      ix := new Index();
      fl := new FL.Lists();
      spare := [];
      this.bs, this.heap, known := bs, heap, set i: nat | i < |hs.tab.hd| && Live(hs.tab, i);
      new;
      RebuildIndex();
      RebuildLists();
      SumIsFree();
    }

    // MAK_rebuild_metadata_from_headers.
    method RebuildIndex()
      requires Headers.Shows(hs.nvm.mem, hs.tab) && Describes(hs.tab, bs) && Tiles(bs, heap) && ix.Valid()
      requires ix.flat == map[] && spare == []
      modifies ix, ix.top, `spare
      ensures ix.Valid() && Points(ix.flat, bs) && HeadsRight(ix.flat, hs.tab) && Spare(hs.tab, spare)
    {
      hide Headers.Shows, Index.Valid, Points, HeadsRight, Tiles, Describes, Spare, Rebuilt;
      RebuiltStart(hs.tab, bs);
      var i: nat, end := 0, hs.Read(FreePtr);
      while i < end
        invariant i <= end && ix.Valid() && Rebuilt(hs.tab, bs, ix.flat, spare, i)
      {
        ScanHeader(i);
        i := i + 1;
      }
      RebuiltDone(hs.tab, bs, ix.flat, spare);
    }

    // Header i is unused, or the header of a block.
    method ScanHeader(i: nat)
      requires Headers.Shows(hs.nvm.mem, hs.tab) && Describes(hs.tab, bs) && Tiles(bs, heap) && ix.Valid()
      requires i < hs.tab.freePtr <= |hs.tab.hd| && Rebuilt(hs.tab, bs, ix.flat, spare, i)
      modifies ix, ix.top, `spare
      ensures ix.Valid() && Rebuilt(hs.tab, bs, ix.flat, spare, i + 1)
    {
      hide Headers.Shows, Index.Valid, Tiles, Describes, Rebuilt;
      if hs.Read(Sz(i)) == 0 {
        RebuiltSkip(hs.tab, bs, ix.flat, spare, i);
        spare := [i] + spare;
      } else {
        EnterHeader(i);
      }
    }

    // The index entries of the block of header i.
    method EnterHeader(i: nat)
      requires Headers.Shows(hs.nvm.mem, hs.tab) && Describes(hs.tab, bs) && Tiles(bs, heap) && ix.Valid()
      requires Live(hs.tab, i)
      requires Rebuilt(hs.tab, bs, ix.flat, spare, i)
      modifies ix, ix.top
      ensures ix.Valid() && Rebuilt(hs.tab, bs, ix.flat, spare, i + 1)
    {
      assert Matches(hs.tab, bs, i);
      hide HeaderStore.Between, Headers.Shows, Index.Valid, Tiles, Describes, Rebuilt;
      ghost var flat := ix.flat;
      var p := hs.Read(Start(i));
      ix.Ensure(Key(p));
      ix.Set(p, Head(i));
      if !IsFreeFlag(hs.Read(Flags(i))) {
        ix.InstallCounts(p, PagesFor(hs.Read(Sz(i))));
      }
      RebuiltEnter(hs.tab, bs, heap, flat, ix.flat, spare, i);
    }

    // MAK_restart_block_freelists, for the heap blocks.
    method RebuildLists()
      requires Headers.Shows(hs.nvm.mem, hs.tab) && Views(hs.tab, ix.flat, bs, heap) && ix.Valid() && fl.Valid()
      requires forall k: nat :: k <= FL.LAST_LIST ==> fl.lists[k] == []
      modifies fl, fl.heads, fl.bytes
      ensures fl.Valid() && Listed(fl.lists, fl.sizes, bs, {})
    {
      hide Headers.Shows, Index.Valid, FL.AllLinked, FL.Counted, Views, Listed, Elements, IsHead, Forwards;
      AllHeads(hs.tab, ix.flat, bs, heap);
      var ps := ix.Heads();
      HeadsAreBlocks(hs.tab, ix.flat, bs, heap, ps);
      NoneListed(fl.lists, fl.sizes, bs, ps);
      var m := 0;
      while m < |ps|
        invariant 0 <= m <= |ps| && fl.Valid() && Listed(fl.lists, fl.sizes, bs, Elements(ps[m..]))
      {
        NextElement(ps, m);
        ListBlock(ps[m], Elements(ps[m..]));
        m := m + 1;
      }
      NoElements(ps);
    }

    // Puts block p on its list if it is free.
    method ListBlock(p: nat, ghost xs: set<nat>)
      requires Headers.Shows(hs.nvm.mem, hs.tab) && Views(hs.tab, ix.flat, bs, heap) && ix.Valid() && fl.Valid()
      requires p in bs && p in xs && p != 0 && Listed(fl.lists, fl.sizes, bs, xs)
      modifies fl, fl.heads, fl.bytes
      ensures fl.Valid() && Listed(fl.lists, fl.sizes, bs, xs - {p})
    {
      hide Headers.Shows, Index.Valid, FL.Lists.Valid, Views, Listed;
      var i := HeaderAt(p);
      if IsFreeFlag(hs.Read(Flags(i))) {
        PutOn(p, hs.Read(Sz(i)), xs);
      } else {
        SameListed(fl.lists, fl.sizes, bs, xs, bs, xs - {p});
      }
    }

    // MAK_apply_to_all_blocks: the blocks that the function is applied to, in order.
    method ApplyToAllBlocks() returns (visited: seq<nat>)
      requires AtRest()
      ensures NoRepeats(visited) && forall p: nat :: p in visited <==> p in bs && bs[p].Used?
    {
      hide HeaderStore.Between, Headers.Shows, Index.Valid, FL.Lists.Valid, FL.Lists.Sum, FreeBytes, Describes;
      hide Points, HeadsRight, Tiles, Coalesced, Listed, Spare, Buried;
      PointsForward(ix.flat, bs, heap);
      var ps := ix.Heads();
      HeadsAreBlocks(hs.tab, ix.flat, bs, heap, ps);
      visited := [];
      var m := 0;
      while m < |ps|
        invariant 0 <= m <= |ps| && NoRepeats(visited)
        invariant forall p: nat :: p in visited <==> p in ps[..m] && bs[p].Used?
      {
        var i := HeaderAt(ps[m]);
        assert ps[..m + 1] == ps[..m] + [ps[m]];
        if !IsFreeFlag(hs.Read(Flags(i))) {
          visited := visited + [ps[m]];
        }
        m := m + 1;
      }
      assert ps[..|ps|] == ps;
    }
  }

  lemma NotCovered(bs: Blocks, heap: set<nat>, p: nat, n: nat)
    requires Tiles(bs, heap) && n > 0 && heap !! Extent(p, n)
    ensures !Covered(bs, p)
  {
    assert Within(p, n, p) && p in Extent(p, n);
  }

  lemma LongerFits(bs: Blocks, heap: set<nat>, p: nat, n: nat)
    requires Tiles(bs, heap) && UserSpace(heap) && p in bs && n > 0 && UserSpace(Extent(End(bs, p), n)) && 0 !in bs
    ensures (bs[p].pages + n) * HB < SIGNED_LIMIT
  {
    assert Within(End(bs, p), n, End(bs, p) + n - 1);
    assert End(bs, p) + n - 1 in Extent(End(bs, p), n);
  }

  // A new header whose flags have been cleared, with its block marked free.
  lemma MarkedBorn(t: Table, i: nat, h: Hdr, spare: seq<nat>)
    requires Unused(t, i) && SpareBut(Born(t, i, h), spare, i)
    ensures i < |Born(t, i, h).hd| && Born(t, i, h).large == t.large
    ensures var t', h' := Put(Born(t, i, h), Flags(i), 0), h.(flags := SetFree(0));
            && |t'.hd| == |t.hd| && Marked(t', i) == Born(t, i, h') && SpareBut(Born(t, i, h'), spare, i)
            && t'.large == t.large && t'.hd[i].block == h.block && (h.sz != 0 && t.freePtr >= 0 ==> Live(t', i))
            && forall j: nat :: Live(t', j) && j != i ==> Live(t, j)
  {
  }

  // Setting the flags of a new header.
  lemma BornFlags(t: Table, i: nat, h: Hdr, v: int, spare: seq<nat>)
    requires Unused(t, i) && SpareBut(Born(t, i, h), spare, i)
    ensures i < |Born(t, i, h).hd| && Put(Born(t, i, h), Flags(i), v) == Born(t, i, h.(flags := v))
    ensures SpareBut(Born(t, i, h.(flags := v)), spare, i)
  {
  }

  // Header h when it is given to a free block of n pages at p.
  function FreeHdr(h: Hdr, p: nat, n: nat): Hdr {
    h.(block := p, sz := n * HB, flags := SetFree(0))
  }

  // The header of what is left of a block of total pages at p after the first k.
  function Rest(h: Hdr, p: nat, k: nat, total: nat): Hdr {
    h.(sz := (total - k) * HB, flags := SetFree(0), block := p + k)
  }

  // A free block of avail bytes can serve a request for need bytes.
  predicate Suits(avail: nat, need: nat, maySplit: bool) {
    avail == need || (maySplit && avail > need)
  }

  // Blocks are never larger than a signed word can say.
  lemma AllFit(t: Table, flat: Flat, bs: Blocks, heap: set<nat>)
    requires Views(t, flat, bs, heap)
    ensures forall q :: q in bs ==> bs[q].pages * HB < SIGNED_LIMIT
  {
    forall q | q in bs
      ensures bs[q].pages * HB < SIGNED_LIMIT
    {
      forall x: nat | q <= x < q + bs[q].pages
        ensures x in heap
      {
        assert Covers(bs, q, x) && Covered(bs, x);
      }
      AlwaysFits(bs, heap, q, bs[q].pages);
    }
  }

  // No free block has n pages or more.
  ghost predicate NoFit(bs: Blocks, n: nat) {
    forall q :: IsFree(bs, q) ==> bs[q].pages < n
  }

  // Some free block has exactly n pages.
  ghost predicate ExactFit(bs: Blocks, n: nat) {
    exists q :: IsFree(bs, q) && bs[q].pages == n
  }

  // If the list for n pages has no exact fit, there is none.
  lemma NoneExact(lists: seq<seq<nat>>, sizes: map<nat, nat>, bs: Blocks, n: nat)
    requires Listed(lists, sizes, bs, {}) && FL.ListFor(n) < |lists|
    requires forall q :: q in lists[FL.ListFor(n)] ==> q in bs && !Suits(bs[q].pages * HB, n * HB, false)
    ensures !ExactFit(bs, n)
  {
  }

  // The lists that have been searched are all that may hold a block of n pages or more.
  lemma NothingFits(lists: seq<seq<nat>>, sizes: map<nat, nat>, bs: Blocks, n: nat, start: nat)
    requires Listed(lists, sizes, bs, {})
    requires start == FL.ListFor(n) || (FL.ListFor(n) < FL.UNIQUE_THRESHOLD && start == FL.ListFor(n) + 1)
    requires FL.ListFor(n) <= FL.LAST_LIST
    requires forall q :: q in lists[FL.ListFor(n)] ==> q in bs && !Suits(bs[q].pages * HB, n * HB, false)
    requires forall m: nat, q :: start <= m <= FL.LAST_LIST && q in lists[m] ==>
              q in bs && !Suits(bs[q].pages * HB, n * HB, true)
    ensures forall q :: IsFree(bs, q) ==> bs[q].pages < n
  {
    forall q | IsFree(bs, q)
      ensures bs[q].pages < n
    {
      FL.ListsAreOrdered(n, bs[q].pages);
      assert q in lists[FL.ListFor(bs[q].pages)];
    }
  }

  lemma AllHeads(t: Table, flat: Flat, bs: Blocks, heap: set<nat>)
    requires Views(t, flat, bs, heap)
    ensures Forwards(flat)
  {
    PointsForward(flat, bs, heap);
  }

  // No block is listed, and ps are all blocks.
  lemma NoneListed(lists: seq<seq<nat>>, sizes: map<nat, nat>, bs: Blocks, ps: seq<nat>)
    requires |lists| == FL.LAST_LIST + 1 && (forall k: nat :: k <= FL.LAST_LIST ==> lists[k] == [])
    requires forall p: nat :: p in ps <==> p in bs
    ensures Listed(lists, sizes, bs, Elements(ps[0..]))
  {
    assert ps[0..] == ps;
  }

  lemma NextElement(ps: seq<nat>, m: nat)
    requires m < |ps| && forall i, j :: 0 <= i < j < |ps| ==> ps[i] != ps[j]
    ensures ps[m] in ps && ps[m] in Elements(ps[m..]) && Elements(ps[m..]) - {ps[m]} == Elements(ps[m + 1..])
  {
    assert ps[m..] == [ps[m]] + ps[m + 1..];
  }

  lemma NoElements(ps: seq<nat>)
    ensures Elements(ps[|ps|..]) == {}
  {
  }

  lemma HeadsAreBlocks(t: Table, flat: Flat, bs: Blocks, heap: set<nat>, ps: seq<nat>)
    requires Views(t, flat, bs, heap) && forall p: nat :: p in ps <==> IsHead(flat, p)
    ensures forall p: nat :: p in ps <==> p in bs
    ensures 0 !in ps
  {
    forall p: nat
      ensures p in ps <==> p in bs
    {
      BlockAt(t, flat, bs, heap, p);
    }
  }

  // A free block is marked.
  lemma MarkedAlready(t: Table, flat: Flat, bs: Blocks, heap: set<nat>, i: nat)
    requires Views(t, flat, bs, heap) && Live(t, i) && t.hd[i].block >= 0 && IsFree(bs, t.hd[i].block)
    ensures Marked(t, i) == t
  {
    LiveMatches(t, flat, bs, heap, i);
  }

  // Free block p may become part of free block q before it.
  lemma PrevJoins(t: Table, w: World, p: nat, i: nat, q: nat, k: nat)
    requires Agrees(t, w, {p}) && Coalesced(w.bs, p) && IsFree(w.bs, p) && IsFree(w.bs, q) && p == End(w.bs, q)
    requires Heads(t, i, p) && Heads(t, k, q)
    ensures t.hd[i].sz == w.bs[p].pages * HB && t.hd[k].sz == w.bs[q].pages * HB
    ensures t.hd[i].sz + t.hd[k].sz < SIGNED_LIMIT
    ensures p != q && Marked(t, k) == t
    ensures var bs' := Merged(w.bs, q, p);
            Coalesced(bs', q) && LeftApart(bs', q) && UsedOf(bs') == UsedOf(w.bs)
  {
    hide Listed, Spare, Buried, Describes, Points, HeadsRight;
    LiveMatches(t, w.flat, w.bs, w.heap, i);
    LiveMatches(t, w.flat, w.bs, w.heap, k);
    MarkedAlready(t, w.flat, w.bs, w.heap, k);
    MergedFits(w.bs, w.heap, q, p);
    MergeCoalesced(w.bs, w.heap, q, p, p);
  }

  // Whether the block after free block p may become part of it; e is the index entry there.
  lemma NextJoins(t: Table, w: World, p: nat, i: nat, e: Entry)
    requires Agrees(t, w, {p}) && Coalesced(w.bs, p) && LeftApart(w.bs, p) && IsFree(w.bs, p) && Heads(t, i, p)
    requires e == Look(w.flat, End(w.bs, p))
    ensures t.hd[i].sz == w.bs[p].pages * HB > 0 && 0 !in w.bs
    ensures var q := End(w.bs, p);
            && (e.Head? ==> Heads(t, e.i, q) && e.i != i && (IsFreeFlag(t.hd[e.i].flags) <==> IsFree(w.bs, q)))
            && (!e.Head? ==> !IsFree(w.bs, q))
            && (IsFree(w.bs, q) ==>
                  var bs' := Merged(w.bs, p, q);
                  && e.Head? && t.hd[i].sz + t.hd[e.i].sz < SIGNED_LIMIT && t.hd[e.i].sz == w.bs[q].pages * HB
                  && Coalesced(bs', p) && LeftApart(bs', p) && !IsFree(bs', End(bs', p)) && UsedOf(bs') == UsedOf(w.bs))
  {
    hide Listed, Spare, Buried, Describes, Points, HeadsRight;
    var q := End(w.bs, p);
    BlockAt(t, w.flat, w.bs, w.heap, q);
    LiveMatches(t, w.flat, w.bs, w.heap, i);
    if e.Head? {
      HeaderOf(t, w.flat, w.bs, w.heap, q);
      if IsFree(w.bs, q) {
        MergedFits(w.bs, w.heap, p, q);
        MergeCoalesced(w.bs, w.heap, p, q, p);
      }
    }
  }

  // Two blocks that follow each other are small enough to be merged.
  lemma MergedFits(bs: Blocks, heap: set<nat>, p: nat, q: nat)
    requires Tiles(bs, heap) && UserSpace(heap) && 0 !in bs && p in bs && q in bs && q == End(bs, p)
    ensures (bs[p].pages + bs[q].pages) * HB < SIGNED_LIMIT
  {
    forall x: nat | p <= x < p + bs[p].pages + bs[q].pages
      ensures x in heap
    {
      assert Covers(bs, if x < q then p else q, x) && Covered(bs, x);
    }
    AlwaysFits(bs, heap, p, bs[p].pages + bs[q].pages);
  }

  // Block p covers the page before x, and does not end there or is in use.
  lemma EndsAt(bs: Blocks, heap: set<nat>, p: nat, x: nat)
    requires Tiles(bs, heap) && x > 0 && Covers(bs, p, x - 1)
    requires bs[p].Used? || End(bs, p) != x
    ensures LeftApart(bs, x)
  {
    forall r: nat | IsFree(bs, r)
      ensures End(bs, r) != x
    {
      assert (r < p ==> End(bs, r) <= p) && (p < r ==> End(bs, p) <= r);
    }
  }

  // Forwarding from the page before x has led to the block that starts at p.
  lemma HeadEndsAt(t: Table, flat: Flat, bs: Blocks, heap: set<nat>, p: nat, x: nat)
    requires Views(t, flat, bs, heap) && x > 0 && (x in bs || !Covered(bs, x)) && IsHead(flat, p)
    requires p == x - 1 || exists b: nat :: Covers(bs, b, x - 1) && Covers(bs, b, p) && bs[b].Used?
    ensures var i := Look(flat, p).i;
            && i < |t.hd|
            && if IsFreeFlag(t.hd[i].flags) then IsFree(bs, p) && End(bs, p) == x else LeftApart(bs, x)
  {
    BlockAt(t, flat, bs, heap, p);
    HeaderOf(t, flat, bs, heap, p);
    if p != x - 1 {
      var b: nat :| Covers(bs, b, x - 1) && Covers(bs, b, p) && bs[b].Used?;
      OneCovers(bs, heap, b, p, p);
    }
    assert Covers(bs, p, x - 1);
    assert End(bs, p) == x by {
      assert End(bs, p) > x ==> Covers(bs, p, x);
    }
    if bs[p].Used? {
      EndsAt(bs, heap, p, x);
    }
  }

  lemma NoneEndsAt(flat: Flat, bs: Blocks, heap: set<nat>, x: nat, r: Link)
    requires Points(flat, bs) && Tiles(bs, heap) && x > 0
    requires r.Null? ==> forall p: nat :: p <= x - 1 ==> !IsHead(flat, p)
    requires r.To? ==> r.b in bs && r.b <= x - 1 && AllUpTo(flat, x - 1, r.b) && (bs[r.b].Used? || End(bs, r.b) != x)
    ensures LeftApart(bs, x)
  {
    forall q: nat | IsFree(bs, q)
      ensures End(bs, q) != x
    {
      assert PointAt(flat, bs, q);
    }
  }

  // Where forwarding from page p leads in one step.
  lemma Forwarded(flat: Flat, bs: Blocks, heap: set<nat>, p: nat)
    requires Points(flat, bs) && Tiles(bs, heap) && Look(flat, p).Fwd?
    ensures Look(flat, p).n <= p && Look(flat, p).n > 0
    ensures exists b: nat :: Covers(bs, b, p) && Covers(bs, b, p - Look(flat, p).n) && bs[b].Used?
  {
    assert PointAt(flat, bs, p) && Covered(bs, p);
    var b: nat :| Covers(bs, b, p);
    assert b != p;
    assert Covers(bs, b, p - Look(flat, p).n);
  }

  lemma {:induction false} ZeroTotal(bytes: seq<nat>)
    requires forall k: nat :: k < |bytes| ==> bytes[k] == 0
    ensures FL.Total(bytes) == 0
  {
    if bytes != [] {
      ZeroTotal(bytes[..|bytes| - 1]);
    }
  }

  lemma EmptyTotal(bytes: seq<nat>, lists: seq<seq<nat>>, sizes: map<nat, nat>)
    requires FL.Counted(bytes, lists, sizes) && forall k: nat :: k < |lists| ==> lists[k] == []
    ensures FL.Total(bytes) == 0
  {
    ZeroTotal(bytes);
  }
}
