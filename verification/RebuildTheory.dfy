// What the page index says while it is being rebuilt from the headers one by one.
module RebuildTheory {
  import opened BlockMap
  import opened Headers
  import opened PageIndex
  import opened BlockTheory

  ghost predicate HasEarly(t: Table, p: nat, k: nat) {
    exists i: nat :: i < k && Heads(t, i, p)
  }

  // The blocks of the first k headers.
  ghost function Part(t: Table, bs: Blocks, k: nat): Blocks {
    map p | p in bs && HasEarly(t, p, k) :: bs[p]
  }

  ghost function PartHeap(t: Table, bs: Blocks, heap: set<nat>, k: nat): set<nat> {
    set q | q in heap && Covered(Part(t, bs, k), q)
  }

  lemma PartTiles(t: Table, bs: Blocks, heap: set<nat>, k: nat)
    requires Tiles(bs, heap)
    ensures Tiles(Part(t, bs, k), PartHeap(t, bs, heap, k))
  {
    var part := Part(t, bs, k);
    forall q
      ensures Covered(part, q) ==> q in heap
    {
      if r :| Covers(part, r, q) {
        assert Covers(bs, r, q) && Covered(bs, q);
      }
    }
  }

  // A header that is not in use adds nothing.
  lemma PartSkips(t: Table, bs: Blocks, k: nat)
    requires !Live(t, k)
    ensures Part(t, bs, k + 1) == Part(t, bs, k)
  {
    forall p | p in bs
      ensures HasEarly(t, p, k + 1) <==> HasEarly(t, p, k)
    {
      if i: nat :| i < k + 1 && Heads(t, i, p) {
        assert i < k;
      }
    }
  }

  // A header in use adds its block.
  lemma PartGrows(t: Table, bs: Blocks, k: nat)
    requires Describes(t, bs) && Live(t, k)
    ensures Matches(t, bs, k) && t.hd[k].block !in Part(t, bs, k)
    ensures Part(t, bs, k + 1) == Part(t, bs, k)[t.hd[k].block := BlockOf(t.hd[k])]
  {
    var p0: nat := t.hd[k].block;
    assert Matches(t, bs, k) && Heads(t, k, p0);
    forall p | p in bs
      ensures HasEarly(t, p, k + 1) <==> HasEarly(t, p, k) || p == p0
      ensures p == p0 ==> !HasEarly(t, p, k)
    {
      if i: nat :| i < k + 1 && Heads(t, i, p) {
        assert i < k ==> HasEarly(t, p, k);
      }
      if p == p0 {
        assert HasEarly(t, p, k + 1);
      }
    }
  }

  // The pages of the block of header k are not in use yet.
  lemma PartApart(t: Table, bs: Blocks, heap: set<nat>, k: nat)
    requires Describes(t, bs) && Tiles(bs, heap) && Live(t, k)
    ensures Matches(t, bs, k) && BlockOf(t.hd[k]).pages > 0
    ensures PartHeap(t, bs, heap, k) !! Extent(t.hd[k].block, BlockOf(t.hd[k]).pages)
  {
    PartGrows(t, bs, k);
    var p: nat, n := t.hd[k].block, BlockOf(t.hd[k]).pages;
    forall q | q in Extent(p, n)
      ensures q !in PartHeap(t, bs, heap, k)
    {
      assert Covers(bs, p, q);
      if r :| Covers(Part(t, bs, k), r, q) {
        assert Covers(bs, r, q);
        OneCovers(bs, heap, p, r, q);
        assert false;
      }
    }
  }

  lemma PartDone(t: Table, bs: Blocks)
    requires Describes(t, bs)
    ensures Part(t, bs, t.freePtr) == bs
  {
    forall p | p in bs
      ensures HasEarly(t, p, t.freePtr)
    {
      var i: nat :| Heads(t, i, p);
    }
  }

  // The index entries for the block of header k have been set.
  lemma PartPoints(t: Table, bs: Blocks, heap: set<nat>, k: nat, flat: Flat, flat': Flat)
    requires Describes(t, bs) && Tiles(bs, heap) && Live(t, k) && t.hd[k].block >= 0 && Good(t.hd[k])
    requires Points(flat, Part(t, bs, k)) && HeadsRight(flat, t)
    requires var h := t.hd[k];
             if IsFreeFlag(h.flags) then flat' == flat[h.block := Head(k)]
             else Inner(flat[h.block := Head(k)], flat', h.block, PagesFor(h.sz), true)
    ensures Points(flat', Part(t, bs, k + 1)) && HeadsRight(flat', t)
  {
    hide Tiles, Points, Describes;
    var p: nat, b := t.hd[k].block, BlockOf(t.hd[k]);
    var part, ph, flat1 := Part(t, bs, k), PartHeap(t, bs, heap, k), flat[t.hd[k].block := Head(k)];
    PartGrows(t, bs, k);
    PartTiles(t, bs, heap, k);
    PartApart(t, bs, heap, k);
    GrowPoints(flat, part, ph, p, b.pages, k);
    GrowTiles(part, ph, p, b.pages);
    if b.Used? {
      var grown: Blocks := part[p := Free(b.pages)];
      ReusePoints(flat1, flat', grown, ph + Extent(p, b.pages), p, b);
      assert grown[p := b] == part[p := b];
    }
    forall q: nat | IsHead(flat', q)
      ensures Heads(t, Look(flat', q).i, q)
    {
      assert Look(flat', q) == Look(flat1, q);
      assert q != p ==> IsHead(flat, q) && Heads(t, Look(flat, q).i, q);
    }
  }

  // Unused headers among the first k.
  ghost predicate SpareBelow(t: Table, spare: seq<nat>, k: nat) {
    && (forall a, b :: 0 <= a < b < |spare| ==> spare[a] != spare[b])
    && (forall i: nat :: i in spare <==> i < k && i < |t.hd| && t.hd[i].sz == 0)
  }

  //
  // All that the rebuild keeps.
  //

  // The first k headers have been entered.
  ghost predicate Rebuilt(t: Table, bs: Blocks, flat: Flat, spare: seq<nat>, k: nat) {
    Points(flat, Part(t, bs, k)) && HeadsRight(flat, t) && SpareBelow(t, spare, k)
  }

  lemma RebuiltStart(t: Table, bs: Blocks)
    requires Describes(t, bs)
    ensures Rebuilt(t, bs, map[], [], 0) && 0 <= t.freePtr <= |t.hd|
  {
    assert Part(t, bs, 0) == map[];
    forall q: nat
      ensures PointAt(map[], map[], q)
    {
    }
  }

  lemma RebuiltSkip(t: Table, bs: Blocks, flat: Flat, spare: seq<nat>, k: nat)
    requires Rebuilt(t, bs, flat, spare, k) && k < |t.hd| && t.hd[k].sz == 0
    ensures Rebuilt(t, bs, flat, [k] + spare, k + 1)
  {
    hide Points, HeadsRight;
    PartSkips(t, bs, k);
    assert k !in spare;
  }

  lemma RebuiltEnter(t: Table, bs: Blocks, heap: set<nat>, flat: Flat, flat': Flat, spare: seq<nat>, k: nat)
    requires Describes(t, bs) && Tiles(bs, heap) && Live(t, k) && t.hd[k].block >= 0 && Good(t.hd[k])
    requires Rebuilt(t, bs, flat, spare, k)
    requires var h := t.hd[k];
             if IsFreeFlag(h.flags) then flat' == flat[h.block := Head(k)]
             else Inner(flat[h.block := Head(k)], flat', h.block, PagesFor(h.sz), true)
    ensures Rebuilt(t, bs, flat', spare, k + 1)
  {
    hide Points, HeadsRight, Describes, Tiles, Inner;
    PartPoints(t, bs, heap, k, flat, flat');
  }

  lemma RebuiltDone(t: Table, bs: Blocks, flat: Flat, spare: seq<nat>)
    requires Describes(t, bs) && Rebuilt(t, bs, flat, spare, t.freePtr)
    ensures Points(flat, bs) && HeadsRight(flat, t) && Spare(t, spare)
  {
    hide Points, HeadsRight;
    PartDone(t, bs);
  }
}
