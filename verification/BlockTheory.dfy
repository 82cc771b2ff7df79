// How splitting, merging and reusing blocks show in the headers, in the page index and on the free lists.
module BlockTheory {
  import opened BlockMap
  import opened Headers
  import opened PageIndex
  import FL = FreeLists

  //
  // Headers.
  //

  // A header in use changes; its block stays where it is.
  lemma UpdateDescribes(t: Table, bs: Blocks, i: nat, h: Hdr)
    requires Describes(t, bs) && Live(t, i) && Good(h) && h.block == t.hd[i].block
    ensures Describes(t.(hd := t.hd[i := h]), bs[h.block := BlockOf(h)])
  {
    var t', bs' := t.(hd := t.hd[i := h]), bs[h.block := BlockOf(h)];
    forall j: nat | Live(t', j)
      ensures Matches(t', bs', j)
    {
      assert Live(t, j) && Matches(t, bs, j);
    }
    forall p | p in bs'
      ensures HasHeader(t', p)
    {
      if p != h.block {
        var j: nat :| Heads(t, j, p);
        assert Heads(t', j, p);
      } else {
        assert Heads(t', i, p);
      }
    }
  }

  // A header goes out of use, and its block with it.
  lemma KillDescribes(t: Table, bs: Blocks, i: nat, h: Hdr)
    requires Describes(t, bs) && Live(t, i) && h.sz == 0
    ensures t.hd[i].block >= 0 && Describes(t.(hd := t.hd[i := h]), bs - {t.hd[i].block})
  {
    assert Matches(t, bs, i);
    var t', p0: nat := t.(hd := t.hd[i := h]), t.hd[i].block;
    forall j: nat | Live(t', j)
      ensures Matches(t', bs - {p0}, j)
    {
      assert Live(t, j) && Matches(t, bs, j);
    }
    forall p | p in bs - {p0}
      ensures HasHeader(t', p)
    {
      var j: nat :| Heads(t, j, p);
      assert Heads(t', j, p);
    }
  }

  // A header that is not in use is taken for a new block; it may be the next one at the free pointer.
  lemma BirthDescribes(t: Table, bs: Blocks, i: nat, h: Hdr, freePtr: int)
    requires Describes(t, bs) && i < |t.hd| && !Live(t, i) && Good(h) && h.block !in bs
    requires if i < t.freePtr then freePtr == t.freePtr else i == t.freePtr && freePtr == i + 1
    ensures Describes(t.(hd := t.hd[i := h], freePtr := freePtr), bs[h.block := BlockOf(h)])
  {
    var t', bs' := t.(hd := t.hd[i := h], freePtr := freePtr), bs[h.block := BlockOf(h)];
    forall j: nat | Live(t', j)
      ensures Matches(t', bs', j)
      ensures j != i ==> Live(t, j) && t.hd[j].block in bs
    {
      if j != i {
        assert Live(t, j) && Matches(t, bs, j);
      }
    }
    forall p | p in bs'
      ensures HasHeader(t', p)
    {
      if p != h.block {
        var j: nat :| Heads(t, j, p);
        assert Heads(t', j, p);
      } else {
        assert Heads(t', i, p);
      }
    }
  }

  // Free and remaining header fields do not matter.
  lemma LargeDescribes(t: Table, bs: Blocks, large: int)
    requires Describes(t, bs)
    ensures Describes(t.(large := large), bs)
  {
    var t' := t.(large := large);
    forall i: nat
      ensures Live(t', i) <==> Live(t, i)
      ensures Live(t, i) ==> Matches(t', bs, i)
    {
      assert Live(t, i) ==> Matches(t, bs, i);
    }
    forall p | p in bs
      ensures HasHeader(t', p)
    {
      var j: nat :| Heads(t, j, p);
      assert Heads(t', j, p);
    }
  }

  //
  // The page index.
  //

  ghost predicate PointAt(flat: Flat, bs: Blocks, q: nat) {
    && (q in bs <==> IsHead(flat, q))
    && (forall p: nat :: Covers(bs, p, q) && p < q ==> Look(flat, q) == InnerEntry(bs[p].Used?, q - p))
    && (!Covered(bs, q) ==> Look(flat, q) == Nil)
  }

  // The index leads from every page to its block.
  ghost predicate Points(flat: Flat, bs: Blocks) {
    forall q: nat :: PointAt(flat, bs, q)
  }

  lemma PointsForward(flat: Flat, bs: Blocks, heap: set<nat>)
    requires Points(flat, bs) && Tiles(bs, heap)
    ensures Forwards(flat)
  {
    forall q: nat | Look(flat, q).Fwd?
      ensures 0 < Look(flat, q).n <= q && NoHeadIn(flat, q, Look(flat, q).n)
    {
      assert PointAt(flat, bs, q) && Covered(bs, q);
      var p :| Covers(bs, p, q);
      forall r: nat | q < r + Look(flat, q).n && r <= q
        ensures !IsHead(flat, r)
      {
        assert PointAt(flat, bs, r);
      }
    }
  }

  // A block changes its use; its inner entries follow.
  lemma ReusePoints(flat: Flat, flat': Flat, bs: Blocks, heap: set<nat>, p: nat, b: Block)
    requires Points(flat, bs) && Tiles(bs, heap) && p in bs && b.pages == bs[p].pages
    requires Inner(flat, flat', p, b.pages, b.Used?)
    ensures Points(flat', bs[p := b])
  {
    var bs' := bs[p := b];
    forall q: nat
      ensures PointAt(flat', bs', q)
    {
      assert PointAt(flat, bs, q);
      assert Look(flat', q) == if p < q < p + b.pages then InnerEntry(b.Used?, q - p) else Look(flat, q);
      if r :| Covers(bs, r, q) {
        assert Covers(bs', r, q);
      }
      assert p < q < p + b.pages ==> Covers(bs', p, q);
    }
  }

  lemma MergePoints(flat: Flat, bs: Blocks, heap: set<nat>, p: nat, q: nat)
    requires Points(flat, bs) && Tiles(bs, heap) && IsFree(bs, p) && IsFree(bs, q) && q == End(bs, p)
    ensures Points(flat[q := Nil], Merged(bs, p, q))
  {
    var flat', bs' := flat[q := Nil], Merged(bs, p, q);
    forall x: nat
      ensures PointAt(flat', bs', x)
    {
      MergeCovers(bs, p, q, x);
      assert PointAt(flat, bs, x);
      forall r: nat | Covers(bs', r, x) && r < x
        ensures Look(flat', x) == InnerEntry(bs'[r].Used?, x - r)
      {
        assert Covers(bs, if r == p && x >= q then q else r, x);
      }
    }
  }

  lemma SplitPoints(flat: Flat, bs: Blocks, heap: set<nat>, p: nat, k: nat, i: nat)
    requires Points(flat, bs) && Tiles(bs, heap) && IsFree(bs, p) && 0 < k < bs[p].pages && p + k !in bs
    ensures Points(flat[p + k := Head(i)], Split(bs, p, k))
  {
    var flat', bs' := flat[p + k := Head(i)], Split(bs, p, k);
    forall x: nat
      ensures PointAt(flat', bs', x)
    {
      SplitCovers(bs, p, k, x);
      assert PointAt(flat, bs, x);
      assert Covers(bs', p + k, p + k);
      forall r: nat | Covers(bs', r, x) && r < x
        ensures Look(flat', x) == InnerEntry(bs'[r].Used?, x - r)
      {
        assert Covers(bs, if r == p + k then p else r, x);
      }
    }
  }

  lemma GrowPoints(flat: Flat, bs: Blocks, heap: set<nat>, p: nat, n: nat, i: nat)
    requires Points(flat, bs) && Tiles(bs, heap) && n > 0 && heap !! Extent(p, n)
    ensures Points(flat[p := Head(i)], bs[p := Free(n)])
  {
    var flat', bs' := flat[p := Head(i)], bs[p := Free(n)];
    GrowTiles(bs, heap, p, n);
    forall x: nat
      ensures PointAt(flat', bs', x)
    {
      assert PointAt(flat, bs, x);
      if r :| Covers(bs, r, x) {
        assert Covers(bs', r, x);
      }
      if Within(p, n, x) {
        assert x in Extent(p, n) && x !in heap;
      }
    }
  }

  // The index leads from block starts to their headers.
  ghost predicate HeadsRight(flat: Flat, t: Table) {
    forall p: nat :: IsHead(flat, p) ==> Heads(t, Look(flat, p).i, p)
  }

  //
  // Free blocks that are neighbours.
  //

  // No free block ends where x starts.
  ghost predicate LeftApart(bs: Blocks, x: nat) {
    forall r: nat :: IsFree(bs, r) ==> End(bs, r) != x
  }

  // Block p changes its use and is exempt now.
  lemma ReuseCoalesced(bs: Blocks, p: nat, b: Block)
    requires Coalesced(bs, 0) && 0 !in bs && p in bs && b.pages == bs[p].pages
    ensures Coalesced(bs[p := b], p)
  {
    var bs' := bs[p := b];
    forall r: nat | IsFree(bs', r) && r != p && End(bs', r) != p
      ensures !IsFree(bs', End(bs', r))
    {
      assert IsFree(bs, r) && End(bs, r) == End(bs', r);
    }
  }

  // The exempt block is in use or has no free neighbours.
  lemma AllApart(bs: Blocks, x: nat)
    requires Coalesced(bs, x) && x in bs && 0 !in bs
    requires bs[x].Used? || (LeftApart(bs, x) && !IsFree(bs, End(bs, x)))
    ensures Coalesced(bs, 0)
  {
  }

  // Merging the exempt block x with a neighbour.
  lemma MergeCoalesced(bs: Blocks, heap: set<nat>, p: nat, q: nat, x: nat)
    requires Tiles(bs, heap) && Coalesced(bs, x) && (x == p || x == q) && IsFree(bs, p) && IsFree(bs, q)
    requires q == End(bs, p)
    ensures Coalesced(Merged(bs, p, q), p)
    ensures x == q ==> LeftApart(Merged(bs, p, q), p)
    ensures x == p && LeftApart(bs, p) ==> LeftApart(Merged(bs, p, q), p)
    ensures x == p ==> !IsFree(Merged(bs, p, q), End(Merged(bs, p, q), p))
  {
    var bs' := Merged(bs, p, q);
    forall r: nat | IsFree(bs', r) && r != p
      ensures End(bs', r) == End(bs, r) && IsFree(bs, r) && r != q && End(bs, r) != q
    {
    }
    assert End(bs, q) != p;
  }

  // The rest of a split block has the neighbour of the whole; the part before it is used.
  lemma SplitCoalesced(bs: Blocks, heap: set<nat>, p: nat, k: nat, b: Block)
    requires Tiles(bs, heap) && Coalesced(bs, 0) && 0 !in bs && IsFree(bs, p) && 0 < k < bs[p].pages && p + k !in bs
    requires b.Used? && b.pages == k
    ensures Coalesced(Split(bs, p, k)[p := b], 0)
  {
    var bs' := Split(bs, p, k)[p := b];
    forall r: nat | IsFree(bs', r)
      ensures !IsFree(bs', End(bs', r))
    {
      assert End(bs', r) == if r == p + k then End(bs, p) else End(bs, r);
      assert r != p + k ==> IsFree(bs, r) && End(bs, r) != p && End(bs, r) != p + k;
    }
  }

  //
  // Free lists.
  //

  // Every free block outside xs is on the list of its size, and nothing else is.
  ghost predicate Listed(lists: seq<seq<nat>>, sizes: map<nat, nat>, bs: Blocks, xs: set<nat>) {
    && |lists| == FL.LAST_LIST + 1
    && (forall k: nat, p :: k < |lists| && p in lists[k] ==>
          IsFree(bs, p) && p !in xs && FL.ListFor(bs[p].pages) == k && p in sizes && sizes[p] == bs[p].pages * HB)
    && (forall p :: IsFree(bs, p) && p !in xs ==>
          FL.ListFor(bs[p].pages) <= FL.LAST_LIST && p in lists[FL.ListFor(bs[p].pages)])
  }

  lemma RemoveListed(lists: seq<seq<nat>>, sizes: map<nat, nat>, bs: Blocks, xs: set<nat>, k: nat, j: nat)
    requires Listed(lists, sizes, bs, xs) && FL.Disjoint(lists) && k < |lists| && j < |lists[k]|
    ensures Listed(lists[k := FL.Without(lists[k], j)], sizes, bs, xs + {lists[k][j]})
  {
    var l, h := lists[k], lists[k][j];
    forall p
      ensures p in FL.Without(l, j) <==> p in l && p != h
    {
      if p in l && p != h {
        var i :| 0 <= i < |l| && l[i] == p;
        assert p == FL.Without(l, j)[if i < j then i else i - 1];
      }
    }
  }

  lemma AddListed(lists: seq<seq<nat>>, sizes: map<nat, nat>, bs: Blocks, xs: set<nat>, h: nat)
    requires Listed(lists, sizes, bs, xs) && IsFree(bs, h) && h in xs && FL.ListFor(bs[h].pages) <= FL.LAST_LIST
    ensures FL.Nowhere(lists, h)
    ensures var k := FL.ListFor(bs[h].pages);
            Listed(lists[k := [h] + lists[k]], sizes[h := bs[h].pages * HB], bs, xs - {h})
  {
  }

  // Changes to blocks that are not on lists.
  lemma SameListed(lists: seq<seq<nat>>, sizes: map<nat, nat>, bs: Blocks, xs: set<nat>, bs': Blocks, xs': set<nat>)
    requires Listed(lists, sizes, bs, xs)
    requires forall p :: (IsFree(bs, p) && p !in xs) <==> (IsFree(bs', p) && p !in xs')
    requires forall p :: IsFree(bs, p) && p !in xs ==> p in bs' && bs'[p] == bs[p]
    ensures Listed(lists, sizes, bs', xs')
  {
  }

  ghost function Elements(l: seq<nat>): set<nat> {
    set p | p in l
  }

  lemma {:induction false} ListSum(l: seq<nat>, sizes: map<nat, nat>, bs: Blocks, ps: set<nat>)
    requires FL.Distinct(l) && Elements(l) <= ps
    requires forall p :: p in l ==> p in sizes && sizes[p] == FreeSize(bs, p)
    ensures SumOver(bs, ps) == FL.Bytes(l, sizes) + SumOver(bs, ps - Elements(l))
  {
    if l == [] {
      assert ps - Elements(l) == ps;
    } else {
      assert l[0] in Elements(l);
      SumWithout(bs, ps, l[0]);
      ListSum(l[1..], sizes, bs, ps - {l[0]});
      assert ps - {l[0]} - Elements(l[1..]) == ps - Elements(l);
    }
  }

  ghost function Members(lists: seq<seq<nat>>, k: nat): set<nat>
    requires k <= |lists|
  {
    if k == 0 then {} else Members(lists, k - 1) + Elements(lists[k - 1])
  }

  lemma {:induction false} MembersAre(lists: seq<seq<nat>>, k: nat, p: nat)
    requires k <= |lists|
    ensures p in Members(lists, k) <==> exists m: nat :: m < k && p in lists[m]
  {
    if k > 0 {
      MembersAre(lists, k - 1, p);
    }
  }

  lemma ListAt(lists: seq<seq<nat>>, sizes: map<nat, nat>, bs: Blocks, k: nat)
    requires Listed(lists, sizes, bs, {}) && k < |lists|
    requires FL.Disjoint(lists)
    ensures forall p :: p in lists[k] ==>
              p in bs && p in sizes && sizes[p] == FreeSize(bs, p) && p !in Members(lists, k)
    ensures FL.Distinct(lists[k])
  {
    forall p | p in lists[k]
      ensures p in bs && p in sizes && sizes[p] == FreeSize(bs, p) && p !in Members(lists, k)
    {
      assert IsFree(bs, p);
      MembersAre(lists, k, p);
    }
  }

  lemma {:induction false} ListsSum(bytes: seq<nat>, lists: seq<seq<nat>>, sizes: map<nat, nat>, bs: Blocks, k: nat)
    requires Listed(lists, sizes, bs, {}) && FL.Disjoint(lists) && FL.Counted(bytes, lists, sizes) && k <= |lists|
    ensures FreeBytes(bs) == FL.Total(bytes[..k]) + SumOver(bs, bs.Keys - Members(lists, k))
  {
    if k == 0 {
      assert bs.Keys - {} == bs.Keys;
    } else {
      hide Listed, SumOver, FL.Disjoint, FL.Bytes;
      assert bytes[..k][..k - 1] == bytes[..k - 1];
      assert FL.Total(bytes[..k]) == FL.Total(bytes[..k - 1]) + bytes[k - 1];
      hide FL.Total;
      var ps, l := bs.Keys - Members(lists, k - 1), lists[k - 1];
      ListAt(lists, sizes, bs, k - 1);
      ListsSum(bytes, lists, sizes, bs, k - 1);
      ListSum(l, sizes, bs, ps);
      assert ps - Elements(l) == bs.Keys - Members(lists, k);
    }
  }

  // The counters of the lists add up to the bytes in free blocks.
  lemma ListedBytes(bytes: seq<nat>, lists: seq<seq<nat>>, sizes: map<nat, nat>, bs: Blocks)
    requires Listed(lists, sizes, bs, {}) && FL.Disjoint(lists) && FL.Counted(bytes, lists, sizes)
    ensures FL.Total(bytes) == FreeBytes(bs)
  {
    ListsSum(bytes, lists, sizes, bs, |lists|);
    assert bytes[..|lists|] == bytes;
    forall p | p in bs.Keys - Members(lists, |lists|)
      ensures FreeSize(bs, p) == 0
    {
      MembersAre(lists, |lists|, p);
    }
    SumNothing(bs, bs.Keys - Members(lists, |lists|));
  }

  // The headers that are not in use are on the header free list.
  ghost predicate Spare(t: Table, spare: seq<nat>) {
    && (forall a, b :: 0 <= a < b < |spare| ==> spare[a] != spare[b])
    && (forall i: nat :: i in spare <==> i < |t.hd| && i < t.freePtr && t.hd[i].sz == 0)
  }

  //
  // All views of the blocks together.
  //

  ghost predicate Views(t: Table, flat: Flat, bs: Blocks, heap: set<nat>) {
    && Describes(t, bs) && Points(flat, bs) && HeadsRight(flat, t)
    && Tiles(bs, heap) && UserSpace(heap) && 0 !in bs
  }

  // The header of a block.
  lemma HeaderOf(t: Table, flat: Flat, bs: Blocks, heap: set<nat>, p: nat)
    requires Views(t, flat, bs, heap) && p in bs
    ensures IsHead(flat, p)
    ensures var i := Look(flat, p).i; Heads(t, i, p) && Good(t.hd[i]) && bs[p] == BlockOf(t.hd[i])
  {
    assert PointAt(flat, bs, p);
    var i := Look(flat, p).i;
    assert Matches(t, bs, i);
  }

  lemma LiveMatches(t: Table, flat: Flat, bs: Blocks, heap: set<nat>, i: nat)
    requires Views(t, flat, bs, heap) && Live(t, i)
    ensures Matches(t, bs, i) && bs[t.hd[i].block].pages > 0
  {
  }

  // The block of page p, if a block starts there.
  lemma BlockAt(t: Table, flat: Flat, bs: Blocks, heap: set<nat>, p: nat)
    requires Views(t, flat, bs, heap)
    ensures IsHead(flat, p) <==> p in bs
  {
    assert PointAt(flat, bs, p);
  }

  function SetHdr(t: Table, i: nat, h: Hdr): Table
    requires i < |t.hd|
  {
    t.(hd := t.hd[i := h])
  }

  // Block p is given back.
  lemma FreedViews(t: Table, flat: Flat, flat': Flat, bs: Blocks, heap: set<nat>, p: nat, i: nat, h: Hdr)
    requires Views(t, flat, bs, heap) && p in bs && Heads(t, i, p)
    requires Good(h) && h.block == p && BlockOf(h).pages == bs[p].pages
    requires Inner(flat, flat', p, bs[p].pages, BlockOf(h).Used?)
    ensures Views(SetHdr(t, i, h), flat', bs[p := BlockOf(h)], heap)
  {
    UpdateDescribes(t, bs, i, h);
    ReusePoints(flat, flat', bs, heap, p, BlockOf(h));
    ReuseTiles(bs, heap, p, BlockOf(h));
    forall q: nat | IsHead(flat', q)
      ensures Heads(SetHdr(t, i, h), Look(flat', q).i, q)
    {
      assert Look(flat', q) == Look(flat, q);
    }
  }

  // Block q is merged into p, which ends where it starts.
  lemma MergedDescribes(t: Table, bs: Blocks, p: nat, i: nat, q: nat, j: nat)
    requires Describes(t, bs) && IsFree(bs, p) && IsFree(bs, q) && p != q && Heads(t, i, p) && Heads(t, j, q)
    ensures i != j && t.hd[i].sz > 0 && t.hd[j].sz > 0 && Describes(MergedTable(t, i, j), Merged(bs, p, q))
  {
    assert Matches(t, bs, i) && Matches(t, bs, j) && i != j;
    var h, g := t.hd[i].(sz := t.hd[i].sz + t.hd[j].sz), t.hd[j].(sz := 0, block := 0);
    hide Describes;
    KillDescribes(t, bs, j, g);
    UpdateDescribes(SetHdr(t, j, g), bs - {q}, i, h);
    assert SetHdr(SetHdr(t, j, g), i, h) == MergedTable(t, i, j);
  }

  lemma MergedViews(t: Table, flat: Flat, bs: Blocks, heap: set<nat>, p: nat, i: nat, q: nat, j: nat)
    requires Views(t, flat, bs, heap) && IsFree(bs, p) && IsFree(bs, q) && q == End(bs, p)
    requires Heads(t, i, p) && Heads(t, j, q)
    ensures i != j && Views(MergedTable(t, i, j), flat[q := Nil], Merged(bs, p, q), heap)
  {
    hide Points, HeadsRight, Tiles, Describes, UserSpace;
    LiveMatches(t, flat, bs, heap, i);
    MergedDescribes(t, bs, p, i, q, j);
    MergePoints(flat, bs, heap, p, q);
    MergeTiles(bs, heap, p, q);
    MergedHeads(t, flat, i, q, j, t.hd[i].(sz := t.hd[i].sz + t.hd[j].sz), t.hd[j].(sz := 0, block := 0));
  }

  // The table after header j has gone out of use and its size has been added to header i.
  function MergedTable(t: Table, i: nat, j: nat): Table
    requires i < |t.hd| && j < |t.hd|
  {
    SetHdr(SetHdr(t, i, t.hd[i].(sz := t.hd[i].sz + t.hd[j].sz)), j, t.hd[j].(sz := 0, block := 0))
  }

  lemma MergedHeads(t: Table, flat: Flat, i: nat, q: nat, j: nat, h: Hdr, g: Hdr)
    requires HeadsRight(flat, t) && Live(t, i) && Live(t, j) && i != j && t.hd[j].block == q
    requires h.block == t.hd[i].block && h.sz != 0
    ensures HeadsRight(flat[q := Nil], SetHdr(SetHdr(t, i, h), j, g))
  {
    var t', flat' := SetHdr(SetHdr(t, i, h), j, g), flat[q := Nil];
    forall r: nat | IsHead(flat', r)
      ensures Heads(t', Look(flat', r).i, r)
    {
      assert r != q && IsHead(flat, r) && Heads(t, Look(flat, r).i, r);
    }
  }

  // The same headers with another total.
  lemma LargeViews(t: Table, flat: Flat, bs: Blocks, heap: set<nat>, large: int)
    requires Views(t, flat, bs, heap)
    ensures Views(t.(large := large), flat, bs, heap)
  {
    LargeDescribes(t, bs, large);
    forall p: nat | IsHead(flat, p)
      ensures Heads(t.(large := large), Look(flat, p).i, p)
    {
      assert Heads(t, Look(flat, p).i, p);
    }
  }

  // The table t after header i, which was not in use, became h.
  function Born(t: Table, i: nat, h: Hdr): Table
    requires i < |t.hd|
  {
    t.(hd := t.hd[i := h], freePtr := if i < t.freePtr then t.freePtr else i + 1)
  }

  predicate Unused(t: Table, i: nat) {
    i < |t.hd| && i <= t.freePtr && !Live(t, i)
  }

  lemma BornHeads(t: Table, flat: Flat, i: nat, h: Hdr, p: nat)
    requires HeadsRight(flat, t) && Unused(t, i) && h.block == p && h.sz != 0
    ensures HeadsRight(flat[p := Head(i)], Born(t, i, h))
  {
    var flat', t' := flat[p := Head(i)], Born(t, i, h);
    forall q: nat | IsHead(flat', q)
      ensures Heads(t', Look(flat', q).i, q)
    {
      assert q != p ==> IsHead(flat, q) && Heads(t, Look(flat, q).i, q);
    }
  }

  // A new free block with a new header.
  lemma BornViews(t: Table, flat: Flat, bs: Blocks, heap: set<nat>, i: nat, h: Hdr, p: nat, n: nat)
    requires Views(t, flat, bs, heap) && Unused(t, i) && Good(h) && h.block == p && BlockOf(h) == Free(n)
    requires n > 0 && p > 0 && heap !! Extent(p, n) && UserSpace(Extent(p, n))
    ensures Views(Born(t, i, h), flat[p := Head(i)], bs[p := Free(n)], heap + Extent(p, n))
  {
    GrowTiles(bs, heap, p, n);
    GrowPoints(flat, bs, heap, p, n, i);
    BirthDescribes(t, bs, i, h, Born(t, i, h).freePtr);
    BornHeads(t, flat, i, h, p);
  }

  lemma SamePoints(flat: Flat, flat': Flat, bs: Blocks)
    requires Points(flat, bs) && forall q: nat :: Look(flat, q) == Look(flat', q)
    ensures Points(flat', bs)
  {
    forall q: nat
      ensures PointAt(flat', bs, q)
    {
      assert PointAt(flat, bs, q);
    }
  }

  // A free block grows by the pages that follow it.
  lemma LongerPoints(flat: Flat, bs: Blocks, heap: set<nat>, q: nat, n: nat)
    requires Points(flat, bs) && Tiles(bs, heap) && IsFree(bs, q) && n > 0 && heap !! Extent(End(bs, q), n)
    ensures var bs' := bs[q := Free(bs[q].pages + n)]; Points(flat, bs') && Tiles(bs', heap + Extent(End(bs, q), n))
  {
    var p := End(bs, q);
    var bs1, flat1 := bs[p := Free(n)], flat[p := Head(0)];
    GrowTiles(bs, heap, p, n);
    GrowPoints(flat, bs, heap, p, n, 0);
    MergeTiles(bs1, heap + Extent(p, n), q, p);
    MergePoints(flat1, bs1, heap + Extent(p, n), q, p);
    assert Merged(bs1, q, p) == bs[q := Free(bs[q].pages + n)];
    assert Within(p, n, p) && p !in heap && PointAt(flat, bs, p);
    SamePoints(flat1[p := Nil], flat, Merged(bs1, q, p));
  }

  lemma LongerViews(t: Table, flat: Flat, bs: Blocks, heap: set<nat>, i: nat, q: nat, n: nat)
    requires Views(t, flat, bs, heap) && Heads(t, i, q) && IsFree(bs, q) && n > 0
    requires heap !! Extent(End(bs, q), n) && UserSpace(Extent(End(bs, q), n))
    ensures Views(SetHdr(t, i, t.hd[i].(sz := t.hd[i].sz + n * HB)), flat, bs[q := Free(bs[q].pages + n)],
              heap + Extent(End(bs, q), n))
  {
    LiveMatches(t, flat, bs, heap, i);
    var h := t.hd[i].(sz := t.hd[i].sz + n * HB);
    LongerPoints(flat, bs, heap, q, n);
    UpdateDescribes(t, bs, i, h);
    forall p: nat | IsHead(flat, p)
      ensures Heads(SetHdr(t, i, h), Look(flat, p).i, p)
    {
      assert Heads(t, Look(flat, p).i, p);
    }
  }

  // A block that grows or is new is exempt now.
  lemma GrownCoalesced(bs: Blocks, q: nat, b: Block)
    requires Coalesced(bs, 0) && 0 !in bs && b.Free? && b.pages > 0 && (q in bs ==> IsFree(bs, q))
    requires q !in bs ==> LeftApart(bs, q)
    ensures Coalesced(bs[q := b], q) && LeftApart(bs[q := b], q)
  {
    var bs' := bs[q := b];
    forall r: nat | IsFree(bs', r) && r != q
      ensures End(bs', r) != q && !IsFree(bs', End(bs', r))
    {
      assert IsFree(bs, r) && End(bs, r) == End(bs', r) && !IsFree(bs, End(bs, r));
    }
  }

  // The blocks after k pages of free block p have been put to use b.
  function Taken(bs: Blocks, p: nat, b: Block): Blocks
    requires p in bs && b.pages <= bs[p].pages
  {
    if b.pages == bs[p].pages then bs[p := b] else Split(bs, p, b.pages)[p := b]
  }

  lemma SplitDescribes(t: Table, bs: Blocks, heap: set<nat>, i: nat, h: Hdr, j: nat, g: Hdr)
    requires Describes(t, bs) && Tiles(bs, heap) && Live(t, i) && Unused(t, j) && Good(h) && Good(g)
    requires h.block == t.hd[i].block && h.block in bs && 0 < BlockOf(h).pages < bs[h.block].pages
    requires g.block == h.block + BlockOf(h).pages && BlockOf(g) == Free(bs[h.block].pages - BlockOf(h).pages)
    ensures Describes(Born(SetHdr(t, i, h), j, g), Taken(bs, h.block, BlockOf(h)))
  {
    hide Tiles, Describes;
    var p: nat := h.block;
    SplitOrder(bs, heap, p, BlockOf(h).pages);
    UpdateDescribes(t, bs, i, h);
    var t1 := SetHdr(t, i, h);
    assert !Live(t1, j);
    BirthDescribes(t1, bs[p := BlockOf(h)], j, g, Born(t1, j, g).freePtr);
    assert bs[p := BlockOf(h)][g.block := BlockOf(g)] == Taken(bs, p, BlockOf(h));
  }

  lemma TakenPoints(flat: Flat, flat': Flat, bs: Blocks, heap: set<nat>, p: nat, b: Block, j: nat)
    requires Points(flat, bs) && Tiles(bs, heap) && IsFree(bs, p) && 0 < b.pages < bs[p].pages && 0 !in bs
    requires Inner(flat[p + b.pages := Head(j)], flat', p, b.pages, b.Used?)
    ensures Points(flat', Taken(bs, p, b)) && Tiles(Taken(bs, p, b), heap) && 0 !in Taken(bs, p, b)
  {
    SplitTiles(bs, heap, p, b.pages);
    SplitPoints(flat, bs, heap, p, b.pages, j);
    ReusePoints(flat[p + b.pages := Head(j)], flat', Split(bs, p, b.pages), heap, p, b);
    ReuseTiles(Split(bs, p, b.pages), heap, p, b);
  }

  lemma SplitViews(t: Table, flat: Flat, flat': Flat, bs: Blocks, heap: set<nat>, i: nat, h: Hdr, j: nat, g: Hdr)
    requires Views(t, flat, bs, heap) && Live(t, i) && Unused(t, j) && Good(h) && Good(g)
    requires h.block == t.hd[i].block && IsFree(bs, h.block) && 0 < BlockOf(h).pages < bs[h.block].pages
    requires g.block == h.block + BlockOf(h).pages && BlockOf(g) == Free(bs[h.block].pages - BlockOf(h).pages)
    requires Inner(flat[g.block := Head(j)], flat', h.block, BlockOf(h).pages, BlockOf(h).Used?)
    ensures Views(Born(SetHdr(t, i, h), j, g), flat', Taken(bs, h.block, BlockOf(h)), heap)
  {
    var p: nat, b := h.block, BlockOf(h);
    SplitDescribes(t, bs, heap, i, h, j, g);
    TakenPoints(flat, flat', bs, heap, p, b, j);
    SplitHeads(t, flat, flat', i, h, j, g, b);
  }

  lemma SplitHeads(t: Table, flat: Flat, flat': Flat, i: nat, h: Hdr, j: nat, g: Hdr, b: Block)
    requires HeadsRight(flat, t) && Live(t, i) && Unused(t, j) && h.sz != 0 && g.sz != 0
    requires h.block >= 0 && h.block == t.hd[i].block && g.block == h.block + b.pages && b.pages > 0
    requires Inner(flat[g.block := Head(j)], flat', h.block, b.pages, b.Used?)
    ensures HeadsRight(flat', Born(SetHdr(t, i, h), j, g))
  {
    var t1, flat1 := SetHdr(t, i, h), flat[g.block := Head(j)];
    forall q: nat | IsHead(flat, q)
      ensures Heads(t1, Look(flat, q).i, q)
    {
      assert Heads(t, Look(flat, q).i, q);
    }
    BornHeads(t1, flat, j, g, g.block);
    forall q: nat | IsHead(flat', q)
      ensures Heads(Born(t1, j, g), Look(flat', q).i, q)
    {
      assert Look(flat', q) == Look(flat1, q);
    }
  }

  //
  // Headers that may be remembered by a cache.
  //

  // Every header that has been in use either is in use now or names no block.
  ghost predicate Buried(t: Table, known: set<nat>) {
    && (forall i :: i in known ==> i < |t.hd| && (Live(t, i) || t.hd[i].block == 0))
    && (forall i: nat :: Live(t, i) ==> i in known)
  }

  // The index leads to the header of a block.
  lemma IndexedBy(t: Table, flat: Flat, bs: Blocks, heap: set<nat>, p: nat, i: nat)
    requires Views(t, flat, bs, heap) && Heads(t, i, p)
    ensures p in bs && Look(flat, p) == Head(i)
  {
    assert Matches(t, bs, i) && PointAt(flat, bs, p);
    assert Heads(t, Look(flat, p).i, p);
  }

  // A header in use changes and stays in use.
  lemma FreedSpare(t: Table, i: nat, h: Hdr, spare: seq<nat>, known: set<nat>)
    requires Live(t, i) && h.sz > 0 && Spare(t, spare) && Buried(t, known)
    ensures Spare(SetHdr(t, i, h), spare) && Buried(SetHdr(t, i, h), known)
  {
  }

  lemma LargeSpare(t: Table, spare: seq<nat>, known: set<nat>, large: int)
    requires Spare(t, spare) && Buried(t, known)
    ensures Spare(t.(large := large), spare) && Buried(t.(large := large), known)
  {
  }

  lemma MergedSpare(t: Table, i: nat, j: nat, spare: seq<nat>, known: set<nat>)
    requires Live(t, i) && Live(t, j) && i != j && t.hd[i].sz > 0 && t.hd[j].sz > 0
    requires Spare(t, spare) && Buried(t, known)
    ensures Spare(MergedTable(t, i, j), [j] + spare) && Buried(MergedTable(t, i, j), known)
  {
  }

  // So a header that has been in use and names block p is the one that the index leads to.
  lemma KnownIsRight(t: Table, flat: Flat, bs: Blocks, heap: set<nat>, known: set<nat>, i: nat, p: nat)
    requires Views(t, flat, bs, heap) && Buried(t, known) && i in known && t.hd[i].block == p && p != 0
    ensures Look(flat, p) == Head(i)
  {
    IndexedBy(t, flat, bs, heap, p, i);
  }

  //
  // The whole state: index, blocks, heap, free lists, unused headers and headers that may be remembered.
  //

  datatype World = World(flat: Flat, bs: Blocks, heap: set<nat>, lists: seq<seq<nat>>, sizes: map<nat, nat>,
                         spare: seq<nat>, known: set<nat>)

  // Everything agrees on the blocks; the free blocks in xs are not on lists.
  ghost predicate Agrees(t: Table, w: World, xs: set<nat>) {
    && Views(t, w.flat, w.bs, w.heap)
    && Listed(w.lists, w.sizes, w.bs, xs)
    && Spare(t, w.spare) && Buried(t, w.known)
  }

  // No headers and no blocks.
  lemma EmptyAgrees(t: Table, w: World)
    requires t.freePtr == 0 && w.flat == map[] && w.bs == map[] && w.heap == {} && w.spare == [] && w.known == {}
    requires |w.lists| == FL.LAST_LIST + 1 && forall k: nat :: k <= FL.LAST_LIST ==> w.lists[k] == []
    ensures Agrees(t, w, {}) && Coalesced(w.bs, 0)
  {
  }

  // Like Spare, except for header i, which has been taken.
  ghost predicate SpareBut(t: Table, spare: seq<nat>, i: nat) {
    && (forall a, b :: 0 <= a < b < |spare| ==> spare[a] != spare[b])
    && (forall j: nat :: j in spare <==> j < |t.hd| && j < t.freePtr && t.hd[j].sz == 0 && j != i)
  }

  // The first unused header is taken, or a new one.
  lemma TakeSpare(t: Table, spare: seq<nat>)
    requires Spare(t, spare) && spare != []
    ensures SpareBut(t, spare[1..], spare[0]) && Unused(t, spare[0]) && spare[0] < t.freePtr && t.hd[spare[0]].sz == 0
  {
    assert spare[0] in spare;
    forall j: nat
      ensures j in spare[1..] <==> j in spare && j != spare[0]
    {
      if j in spare && j != spare[0] {
        var a :| 0 <= a < |spare| && spare[a] == j;
        assert spare[1..][a - 1] == j;
      }
      if j in spare[1..] {
        var a :| 0 <= a < |spare| - 1 && spare[1..][a] == j;
        assert spare[a + 1] == j;
      }
    }
  }

  lemma BornSpare(t: Table, i: nat, h: Hdr, spare: seq<nat>, known: set<nat>)
    requires Unused(t, i) && SpareBut(Born(t, i, h), spare, i) && Buried(t, known) && h.sz > 0
    ensures Spare(Born(t, i, h), spare) && Buried(Born(t, i, h), known + {i})
  {
  }

  lemma AgreesBasics(t: Table, w: World, xs: set<nat>)
    requires Agrees(t, w, xs)
    ensures Spare(t, w.spare) && 0 <= t.freePtr <= |t.hd|
  {
  }

  lemma AgreesViews(t: Table, w: World, xs: set<nat>)
    requires Agrees(t, w, xs)
    ensures Views(t, w.flat, w.bs, w.heap) && 0 !in w.bs
  {
  }

  lemma AgreesDescribes(t: Table, w: World, xs: set<nat>)
    requires Agrees(t, w, xs)
    ensures Describes(t, w.bs) && Listed(w.lists, w.sizes, w.bs, xs)
  {
  }

  lemma LargeAgrees(t: Table, w: World, xs: set<nat>, large: int)
    requires Agrees(t, w, xs)
    ensures Agrees(t.(large := large), w, xs)
  {
    LargeViews(t, w.flat, w.bs, w.heap, large);
    LargeSpare(t, w.spare, w.known, large);
  }

  lemma MergedAgrees(t: Table, w: World, p: nat, i: nat, q: nat, j: nat)
    requires Agrees(t, w, {p, q}) && IsFree(w.bs, p) && IsFree(w.bs, q) && q == End(w.bs, p)
    requires Heads(t, i, p) && Heads(t, j, q)
    ensures i != j && Look(w.flat, q) == Head(j) && t.hd[i].sz > 0 && t.hd[j].sz > 0
    ensures Agrees(MergedTable(t, i, j),
              w.(flat := w.flat[q := Nil], bs := Merged(w.bs, p, q), spare := [j] + w.spare), {p})
  {
    hide Views, Spare, Buried, Listed;
    LiveMatches(t, w.flat, w.bs, w.heap, i);
    LiveMatches(t, w.flat, w.bs, w.heap, j);
    IndexedBy(t, w.flat, w.bs, w.heap, q, j);
    MergedViews(t, w.flat, w.bs, w.heap, p, i, q, j);
    MergedSpare(t, i, j, w.spare, w.known);
    SameListed(w.lists, w.sizes, w.bs, {p, q}, Merged(w.bs, p, q), {p});
  }

  lemma UsedSame(bs: Blocks, p: nat, b: Block)
    requires (p !in bs || IsFree(bs, p)) && b.Free?
    ensures UsedOf(bs[p := b]) == UsedOf(bs)
  {
  }

  lemma UsedFreed(bs: Blocks, p: nat, b: Block)
    requires p in bs && b.Free?
    ensures UsedOf(bs[p := b]) == UsedOf(bs) - {p}
  {
  }

  // The header of block p, which is in use, now says that it is free.
  lemma ReleasedAgrees(t: Table, w: World, flat': Flat, p: nat, i: nat, h: Hdr)
    requires Agrees(t, w, {}) && Heads(t, i, p) && p in w.bs && w.bs[p].Used? && Coalesced(w.bs, 0)
    requires Good(h) && h.block == p && BlockOf(h) == Free(w.bs[p].pages)
    requires Inner(w.flat, flat', p, w.bs[p].pages, false)
    ensures Agrees(SetHdr(t, i, h), w.(flat := flat', bs := w.bs[p := BlockOf(h)]), {p})
    ensures Coalesced(w.bs[p := BlockOf(h)], p)
    ensures UsedOf(w.bs[p := BlockOf(h)]) == UsedOf(w.bs) - {p}
  {
    hide Spare, Buried, Listed, Coalesced, Describes, Points, HeadsRight, Tiles, UsedOf, Inner;
    UsedFreed(w.bs, p, BlockOf(h));
    FreedViews(t, w.flat, flat', w.bs, w.heap, p, i, h);
    FreedSpare(t, i, h, w.spare, w.known);
    SameListed(w.lists, w.sizes, w.bs, {}, w.bs[p := BlockOf(h)], {p});
    ReuseCoalesced(w.bs, p, BlockOf(h));
  }

  // Free block q grows by n pages.
  lemma LongerAgrees(t: Table, w: World, i: nat, q: nat, n: nat)
    requires Agrees(t, w, {q}) && Heads(t, i, q) && IsFree(w.bs, q) && n > 0 && Coalesced(w.bs, 0)
    requires w.heap !! Extent(End(w.bs, q), n) && UserSpace(Extent(End(w.bs, q), n))
    ensures var bs' := w.bs[q := Free(w.bs[q].pages + n)];
            && Agrees(SetHdr(t, i, t.hd[i].(sz := t.hd[i].sz + n * HB)),
                w.(bs := bs', heap := w.heap + Extent(End(w.bs, q), n)), {q})
            && Coalesced(bs', q) && LeftApart(bs', q) && t.hd[i].sz > 0 && UsedOf(bs') == UsedOf(w.bs)
  {
    hide Spare, Buried, Listed, Coalesced, LeftApart, UsedOf, Describes, Points, HeadsRight, Tiles, UserSpace;
    var h := t.hd[i].(sz := t.hd[i].sz + n * HB);
    UsedSame(w.bs, q, Free(w.bs[q].pages + n));
    LiveMatches(t, w.flat, w.bs, w.heap, i);
    LongerViews(t, w.flat, w.bs, w.heap, i, q, n);
    FreedSpare(t, i, h, w.spare, w.known);
    GrownCoalesced(w.bs, q, Free(w.bs[q].pages + n));
    SameListed(w.lists, w.sizes, w.bs, {q}, w.bs[q := Free(w.bs[q].pages + n)], {q});
  }

  // A new free block with a new header.
  lemma BornAgrees(t: Table, w: World, spare': seq<nat>, i: nat, h: Hdr, p: nat, n: nat)
    requires Agrees(t, w, {}) && Unused(t, i) && SpareBut(Born(t, i, h), spare', i)
    requires Good(h) && h.block == p && BlockOf(h) == Free(n) && n > 0 && p > 0 && p !in w.bs
    requires w.heap !! Extent(p, n) && UserSpace(Extent(p, n)) && Coalesced(w.bs, 0) && LeftApart(w.bs, p)
    ensures var bs' := w.bs[p := Free(n)];
            && Agrees(Born(t, i, h),
                      w.(flat := w.flat[p := Head(i)], bs := bs', heap := w.heap + Extent(p, n),
                         spare := spare', known := w.known + {i}), {p})
            && Coalesced(bs', p) && LeftApart(bs', p) && UsedOf(bs') == UsedOf(w.bs)
  {
    hide SpareBut, Spare, Buried, Listed, Coalesced, LeftApart, UsedOf, Describes, Points, HeadsRight, Tiles, UserSpace;
    UsedSame(w.bs, p, Free(n));
    BornViews(t, w.flat, w.bs, w.heap, i, h, p, n);
    BornSpare(t, i, h, spare', w.known);
    GrownCoalesced(w.bs, p, Free(n));
    SameListed(w.lists, w.sizes, w.bs, {}, w.bs[p := Free(n)], {p});
  }

  // Block p of header i is put to use as h says; what is left of it becomes the block of header j.
  function TakenTable(t: Table, i: nat, h: Hdr, split: bool, j: nat, g: Hdr): Table
    requires i < |t.hd| && (split ==> j < |t.hd|)
  {
    if split then Born(SetHdr(t, i, h), j, g) else SetHdr(t, i, h)
  }

  ghost predicate Takes(t: Table, bs: Blocks, i: nat, h: Hdr, split: bool, j: nat, g: Hdr) {
    && Live(t, i) && Good(h) && h.block == t.hd[i].block && IsFree(bs, h.block) && BlockOf(h).Used?
    && 0 < BlockOf(h).pages <= bs[h.block].pages && (split <==> BlockOf(h).pages < bs[h.block].pages)
    && (split ==> && Unused(t, j) && Good(g) && g.block == h.block + BlockOf(h).pages
                  && BlockOf(g) == Free(bs[h.block].pages - BlockOf(h).pages))
  }

  lemma TakenDescribes(t: Table, w: World, xs: set<nat>, i: nat, h: Hdr, split: bool, j: nat, g: Hdr)
    requires Agrees(t, w, xs) && Takes(t, w.bs, i, h, split, j, g)
    ensures Describes(TakenTable(t, i, h, split, j, g), Taken(w.bs, h.block, BlockOf(h)))
  {
    if split {
      SplitDescribes(t, w.bs, w.heap, i, h, j, g);
    } else {
      UpdateDescribes(t, w.bs, i, h);
    }
  }

  lemma TakenSpare(t: Table, i: nat, h: Hdr, j: nat, g: Hdr, spare: seq<nat>, known: set<nat>)
    requires Live(t, i) && Unused(t, j) && h.sz > 0 && g.sz > 0 && Buried(t, known) && SpareBut(Born(t, j, g), spare, j)
    ensures Spare(Born(SetHdr(t, i, h), j, g), spare) && Buried(Born(SetHdr(t, i, h), j, g), known + {j})
  {
  }

  // w' is w after the block has been taken, with the lists and the unused headers that result.
  lemma TakenAgrees(t: Table, w: World, xs: set<nat>, w': World, i: nat, h: Hdr, split: bool, j: nat, g: Hdr)
    requires Agrees(t, w, xs) && Takes(t, w.bs, i, h, split, j, g) && Coalesced(w.bs, 0)
    requires w'.bs == Taken(w.bs, h.block, BlockOf(h)) && w'.heap == w.heap
    requires w'.known == if split then w.known + {j} else w.known
    requires Inner(if split then w.flat[g.block := Head(j)] else w.flat, w'.flat, h.block, BlockOf(h).pages, true)
    requires Listed(w'.lists, w'.sizes, w'.bs, {})
    requires if split then SpareBut(Born(t, j, g), w'.spare, j) else w'.spare == w.spare
    ensures Agrees(TakenTable(t, i, h, split, j, g), w', {}) && Coalesced(w'.bs, 0)
  {
    hide Describes, Points, HeadsRight, Listed, Spare, Buried, SpareBut, Coalesced, Inner, UserSpace;
    var p: nat := h.block;
    if split {
      SplitViews(t, w.flat, w'.flat, w.bs, w.heap, i, h, j, g);
      TakenSpare(t, i, h, j, g, w'.spare, w.known);
      SplitOrder(w.bs, w.heap, p, BlockOf(h).pages);
      SplitCoalesced(w.bs, w.heap, p, BlockOf(h).pages, BlockOf(h));
    } else {
      FreedViews(t, w.flat, w'.flat, w.bs, w.heap, p, i, h);
      FreedSpare(t, i, h, w.spare, w.known);
      ReuseCoalesced(w.bs, p, BlockOf(h));
      AllApart(w'.bs, p);
    }
  }

  // The blocks on lists, once the rest of block p has been carved off.
  lemma TakenListed(lists: seq<seq<nat>>, sizes: map<nat, nat>, bs: Blocks, p: nat, b: Block)
    requires Listed(lists, sizes, bs, {p}) && IsFree(bs, p) && b.Used? && 0 < b.pages <= bs[p].pages
    requires b.pages < bs[p].pages ==> p + b.pages !in bs
    ensures Listed(lists, sizes, Taken(bs, p, b), if b.pages < bs[p].pages then {p + b.pages} else {})
    ensures UsedOf(Taken(bs, p, b)) == UsedOf(bs)[p := b]
  {
    hide Listed;
    var bs' := Taken(bs, p, b);
    SameListed(lists, sizes, bs, {p}, bs', if b.pages < bs[p].pages then {p + b.pages} else {});
  }

  //
  // What the blocks in use determine.
  //

  function UsedOf(bs: Blocks): Blocks {
    map p | p in bs && bs[p].Used? :: bs[p]
  }

  lemma FreeInBoth(bs: Blocks, bs': Blocks, heap: set<nat>, p: nat, p': nat, q: nat)
    requires Tiles(bs, heap) && Tiles(bs', heap) && UsedOf(bs) == UsedOf(bs')
    requires Covers(bs, p, q) && Covers(bs', p', q) && IsFree(bs, p)
    ensures IsFree(bs', p')
  {
    if bs'[p'].Used? {
      assert p' in UsedOf(bs') && p' in UsedOf(bs);
      assert Covers(bs, p', q);
      OneCovers(bs, heap, p, p', q);
      assert false;
    }
  }

  lemma SameStart(bs: Blocks, bs': Blocks, heap: set<nat>, p: nat)
    requires Tiles(bs, heap) && Tiles(bs', heap) && UsedOf(bs) == UsedOf(bs')
    requires Coalesced(bs, 0) && 0 !in bs && IsFree(bs, p)
    ensures IsFree(bs', p)
  {
    assert Covers(bs, p, p) && Covered(bs, p);
    var q: nat :| Covers(bs', q, p);
    FreeInBoth(bs, bs', heap, p, q, p);
    if q < p {
      assert Covers(bs', q, p - 1) && Covered(bs', p - 1);
      var r: nat :| Covers(bs, r, p - 1);
      FreeInBoth(bs', bs, heap, q, r, p - 1);
      assert false;
    }
  }

  lemma SameLength(bs: Blocks, bs': Blocks, heap: set<nat>, p: nat)
    requires Tiles(bs, heap) && Tiles(bs', heap) && UsedOf(bs) == UsedOf(bs')
    requires Coalesced(bs, 0) && 0 !in bs && IsFree(bs, p) && IsFree(bs', p)
    ensures bs'[p].pages <= bs[p].pages
  {
    var e := End(bs, p);
    if e < End(bs', p) {
      assert Covers(bs', p, e) && Covered(bs', e);
      var r: nat :| Covers(bs, r, e);
      FreeInBoth(bs', bs, heap, p, r, e);
      assert false;
    }
  }

  // The heap and the blocks in use determine the free blocks: coalescing is canonical.
  lemma CoalescedUnique(bs: Blocks, bs': Blocks, heap: set<nat>)
    requires Tiles(bs, heap) && Tiles(bs', heap) && UsedOf(bs) == UsedOf(bs')
    requires Coalesced(bs, 0) && Coalesced(bs', 0) && 0 !in bs && 0 !in bs'
    ensures bs == bs'
  {
    forall p
      ensures p in bs <==> p in bs'
      ensures p in bs ==> bs[p] == bs'[p]
    {
      assert p in UsedOf(bs) <==> p in UsedOf(bs');
      if IsFree(bs, p) {
        SameStart(bs, bs', heap, p);
      }
      if IsFree(bs', p) {
        SameStart(bs', bs, heap, p);
      }
      if IsFree(bs, p) {
        SameLength(bs, bs', heap, p);
        SameLength(bs', bs, heap, p);
      }
    }
  }
}
