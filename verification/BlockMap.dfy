// Heap blocks as a map from first pages: tilings of the heap, splitting and merging.
module BlockMap {

  const HB: nat := 4096                            // bytes per page
  const SIGNED_LIMIT: nat := 0x8000_0000_0000_0000 // first byte count that a signed word cannot hold

  // sz: size of the objects in the block in bytes, or of the single large object.
  datatype Block = Free(pages: nat) | Used(pages: nat, sz: nat, kind: int)

  type Blocks = map<nat, Block>

  function PagesFor(sz: nat): nat {
    (sz + HB - 1) / HB
  }

  predicate Fits(pages: nat) {
    pages * HB < SIGNED_LIMIT
  }

  predicate IsFree(bs: Blocks, p: nat) {
    p in bs && bs[p].Free?
  }

  function End(bs: Blocks, p: nat): nat
    requires p in bs
  {
    p + bs[p].pages
  }

  predicate Covers(bs: Blocks, p: nat, q: nat) {
    p in bs && p <= q < End(bs, p)
  }

  ghost predicate Covered(bs: Blocks, q: nat) {
    exists p :: Covers(bs, p, q)
  }

  // The blocks are disjoint and make up the heap.
  ghost predicate Tiles(bs: Blocks, heap: set<nat>) {
    && (forall p :: p in bs ==> bs[p].pages > 0)
    && (forall p, p' :: p in bs && p' in bs && p < p' ==> End(bs, p) <= p')
    && (forall q :: q in heap <==> Covered(bs, q))
  }

  // No two free blocks are neighbours, except for block x.
  ghost predicate Coalesced(bs: Blocks, x: nat) {
    forall p :: IsFree(bs, p) && p != x && End(bs, p) != x ==> !IsFree(bs, End(bs, p))
  }

  // The heap lies in the lower half of the address space.
  ghost predicate UserSpace(heap: set<nat>) {
    forall q :: q in heap ==> q * HB < SIGNED_LIMIT
  }

  // So block sizes always fit into a signed word.
  lemma AlwaysFits(bs: Blocks, heap: set<nat>, p: nat, n: nat)
    requires Tiles(bs, heap) && UserSpace(heap) && 0 < p && 0 < n && forall q: nat :: p <= q < p + n ==> q in heap
    ensures Fits(n)
  {
    assert p + n - 1 in heap;
  }

  //
  // Changing blocks.
  //

  // A block changes its use and keeps its extent.
  lemma ReuseTiles(bs: Blocks, heap: set<nat>, p: nat, b: Block)
    requires Tiles(bs, heap) && p in bs && b.pages == bs[p].pages
    ensures Tiles(bs[p := b], heap)
  {
    var bs' := bs[p := b];
    forall q
      ensures Covered(bs', q) <==> Covered(bs, q)
    {
      if r :| Covers(bs, r, q) {
        assert Covers(bs', r, q);
      }
      if r :| Covers(bs', r, q) {
        assert Covers(bs, r, q);
      }
    }
  }

  // Block q follows p and is merged into it.
  function Merged(bs: Blocks, p: nat, q: nat): Blocks
    requires p in bs && q in bs
  {
    (bs - {q})[p := Free(bs[p].pages + bs[q].pages)]
  }

  lemma MergeCovers(bs: Blocks, p: nat, q: nat, x: nat)
    requires p in bs && q in bs && q == End(bs, p)
    ensures Covered(Merged(bs, p, q), x) <==> Covered(bs, x)
  {
    var bs' := Merged(bs, p, q);
    if r :| Covers(bs, r, x) {
      assert Covers(bs', if r == q then p else r, x);
    }
    if r :| Covers(bs', r, x) {
      assert Covers(bs, if r == p && x >= q then q else r, x);
    }
  }

  lemma MergeTiles(bs: Blocks, heap: set<nat>, p: nat, q: nat)
    requires Tiles(bs, heap) && p in bs && q in bs && q == End(bs, p)
    ensures Tiles(Merged(bs, p, q), heap)
  {
    forall x: nat
      ensures Covered(Merged(bs, p, q), x) <==> Covered(bs, x)
    {
      MergeCovers(bs, p, q, x);
    }
  }

  // Block p is cut after k pages; what follows is free.
  function Split(bs: Blocks, p: nat, k: nat): Blocks
    requires p in bs && k < bs[p].pages
  {
    bs[p := Free(k)][p + k := Free(bs[p].pages - k)]
  }

  lemma SplitCovers(bs: Blocks, p: nat, k: nat, x: nat)
    requires p in bs && k < bs[p].pages && p + k !in bs
    ensures Covered(Split(bs, p, k), x) <==> Covered(bs, x)
  {
    var bs' := Split(bs, p, k);
    if r :| Covers(bs, r, x) {
      assert Covers(bs', if r == p && x >= p + k then p + k else r, x);
    }
    if r :| Covers(bs', r, x) {
      assert Covers(bs, if r == p + k then p else r, x);
    }
  }

  lemma SplitOrder(bs: Blocks, heap: set<nat>, p: nat, k: nat)
    requires Tiles(bs, heap) && p in bs && 0 < k < bs[p].pages
    ensures p + k !in bs
    ensures var bs' := Split(bs, p, k); forall r, s :: r in bs' && s in bs' && r < s ==> End(bs', r) <= s
  {
  }

  lemma SplitTiles(bs: Blocks, heap: set<nat>, p: nat, k: nat)
    requires Tiles(bs, heap) && p in bs && 0 < k < bs[p].pages
    ensures p + k !in bs && Tiles(Split(bs, p, k), heap)
  {
    SplitOrder(bs, heap, p, k);
    forall x: nat
      ensures Covered(Split(bs, p, k), x) <==> Covered(bs, x)
    {
      SplitCovers(bs, p, k, x);
    }
  }

  predicate Within(p: nat, n: nat, q: nat) {
    p <= q < p + n
  }

  ghost function Extent(p: nat, n: nat): set<nat> {
    set q: nat | p <= q < p + n && Within(p, n, q)
  }

  lemma GrowTiles(bs: Blocks, heap: set<nat>, p: nat, n: nat)
    requires Tiles(bs, heap) && n > 0 && heap !! Extent(p, n)
    ensures p !in bs && Tiles(bs[p := Free(n)], heap + Extent(p, n))
  {
    assert Within(p, n, p);
    assert p in bs ==> Covers(bs, p, p);
    var bs' := bs[p := Free(n)];
    forall r | r in bs
      ensures End(bs, r) <= p || p + n <= r
    {
      assert r < p < End(bs, r) ==> Covers(bs, r, p) && Covered(bs, p);
      assert Covers(bs, r, r) && Covered(bs, r) && r in heap;
      assert Within(p, n, r) ==> r in Extent(p, n);
    }
    forall x: nat
      ensures Covered(bs', x) <==> x in heap + Extent(p, n)
    {
      if r :| Covers(bs, r, x) {
        assert Covers(bs', r, x);
      }
      if Within(p, n, x) {
        assert Covers(bs', p, x);
      }
      if r :| Covers(bs', r, x) {
        assert r != p ==> Covers(bs, r, x);
      }
    }
  }

  // A page that is covered is covered by one block.
  lemma OneCovers(bs: Blocks, heap: set<nat>, p: nat, p': nat, q: nat)
    requires Tiles(bs, heap) && Covers(bs, p, q) && Covers(bs, p', q)
    ensures p == p'
  {
  }

  //
  // Bytes in free blocks.
  //

  function FreeSize(bs: Blocks, p: nat): nat {
    if IsFree(bs, p) then bs[p].pages * HB else 0
  }

  ghost function SumOver(bs: Blocks, ps: set<nat>): nat {
    if ps == {} then 0 else
      var p :| p in ps;
      FreeSize(bs, p) + SumOver(bs, ps - {p})
  }

  ghost function FreeBytes(bs: Blocks): nat {
    SumOver(bs, bs.Keys)
  }

  // The order of summation does not matter.
  lemma {:induction false} SumWithout(bs: Blocks, ps: set<nat>, q: nat)
    requires q in ps
    ensures SumOver(bs, ps) == FreeSize(bs, q) + SumOver(bs, ps - {q})
  {
    var p :| p in ps && SumOver(bs, ps) == FreeSize(bs, p) + SumOver(bs, ps - {p});
    if p != q {
      SumWithout(bs, ps - {p}, q);
      SumWithout(bs, ps - {q}, p);
      assert ps - {p} - {q} == ps - {q} - {p};
    }
  }

  lemma {:induction false} SumNothing(bs: Blocks, ps: set<nat>)
    requires forall p :: p in ps ==> FreeSize(bs, p) == 0
    ensures SumOver(bs, ps) == 0
  {
    if ps != {} {
      var p :| p in ps;
      SumNothing(bs, ps - {p});
      SumWithout(bs, ps, p);
    }
  }
}
