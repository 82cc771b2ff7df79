// The cache in front of the page index.  Its entries are never invalidated; a hit is only believed if
// the header still names the block.
module HeaderCache {
  import opened BlockMap
  import opened Headers
  import opened PageIndex
  import opened BlockTheory
  import BlockHeap
  import FL = FreeLists

  class Cache {
    const page: array<nat>   // block_addr; 0 in an entry that was never filled
    const header: array<nat> // hce_hdr

    // Every remembered header has been in use since the last restart.
    ghost predicate Valid(known: set<nat>)
      reads page, header
    {
      && page != header && page.Length == header.Length > 0
      && forall k: nat :: k < page.Length && page[k] != 0 ==> header[k] in known
    }

    constructor (size: nat)
      requires size > 0
      ensures Valid({}) && fresh(page) && fresh(header) && page.Length == size
    {
      page := new nat[size](_ => 0);
      header := new nat[size](_ => 0);
    }

    // The cached header of page p, if the entry is for p and the header names p.
    method Hit(h: BlockHeap.Heap, p: nat) returns (e: Entry)
      requires h.AtRest() && Valid(h.known) && p > 0
      ensures e != Nil ==> e == Look(h.ix.flat, p) && e.Head?
    {
      hide HeaderStore.Between, Headers.Shows, Index.Valid, FL.Lists.Valid, FL.Lists.Sum, Listed, Views, Coalesced;
      var k := p % page.Length;
      if page[k] == p {
        var i := header[k];
        if h.hs.Read(Start(i)) == p {
          KnownIsRight(h.hs.tab, h.ix.flat, h.bs, h.heap, h.known, i, p);
          return Head(i);
        }
      }
      return Nil;
    }

    // MAK_get_hdr_no_update.
    method Get(h: BlockHeap.Heap, p: nat) returns (e: Entry)
      requires h.AtRest() && Valid(h.known) && p > 0
      ensures e == Look(h.ix.flat, p)
    {
      e := Hit(h, p);
      if e == Nil {
        e := h.ix.Get(p);
      }
    }

    // MAK_get_hdr_and_update_hc, for the first page of a block.
    method GetAndUpdate(h: BlockHeap.Heap, p: nat) returns (i: nat)
      requires h.AtRest() && Valid(h.known) && p in h.bs
      modifies page, header
      ensures Look(h.ix.flat, p) == Head(i) && Heads(h.hs.tab, i, p) && Valid(h.known)
    {
      hide HeaderStore.Between, Headers.Shows, Index.Valid, FL.Lists.Valid, FL.Lists.Sum, Listed, Coalesced;
      hide Describes, Points, Tiles;
      HeaderOf(h.hs.tab, h.ix.flat, h.bs, h.heap, p);
      var e := Hit(h, p);
      if e == Nil {
        e := h.ix.Get(p);
        Update(h.hs.Read(Start(e.i)), e.i, h.known);
      }
      i := e.i;
    }

    // MAK_update_hc.
    method Update(p: nat, i: nat, ghost known: set<nat>)
      requires Valid(known) && i in known
      modifies page, header
      ensures Valid(known)
      ensures page[..] == old(page[..])[p % page.Length := p] && header[..] == old(header[..])[p % page.Length := i]
    {
      var k := p % page.Length;
      page[k] := p;
      header[k] := i;
    }
  }
}
