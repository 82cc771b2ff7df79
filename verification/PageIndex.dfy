// The two-level index from pages to block headers.
//
// Bottom indices hold an entry for each of BOTTOM consecutive pages.  They are found through a hash
// table of chains, and are also linked in ascending and descending order of their keys.
module PageIndex {

  const BOTTOM: nat := 1024
  const TOP: nat := 2048
  const MAX_JUMP: nat := 4095

  // Fwd(n): the block starts at least n pages before.  Head(i): the first page of the block of header i.
  datatype Entry = Nil | Fwd(n: nat) | Head(i: nat)

  datatype Link = Null | To(b: nat)

  type Flat = map<nat, Entry>

  function Look(flat: Flat, p: nat): Entry {
    if p in flat then flat[p] else Nil
  }

  function Key(p: nat): nat {
    p / BOTTOM
  }

  //
  // Links between bottom indices, given their keys in order of allocation.
  //

  // No bottom index from number lo up to number hi belongs to chain i.
  ghost predicate NoneIn(ks: seq<nat>, i: nat, lo: nat, hi: nat) {
    forall b: nat :: lo <= b < hi && b < |ks| ==> ks[b] % TOP != i
  }

  // l leads to the youngest bottom index of chain i that is older than n.
  ghost predicate Chain(ks: seq<nat>, i: nat, n: nat, l: Link) {
    if l.Null? then NoneIn(ks, i, 0, n)
    else l.b < n && l.b < |ks| && ks[l.b] % TOP == i && NoneIn(ks, i, l.b + 1, n)
  }

  // l leads to the bottom index with the smallest key that is k or more.
  ghost predicate Above(ks: seq<nat>, k: nat, l: Link) {
    && (l.To? ==> l.b < |ks| && ks[l.b] >= k)
    && (forall b: nat :: b < |ks| ==> ks[b] < k || (l.To? && ks[b] >= ks[l.b]))
  }

  // l leads to the bottom index with the largest key that is below k.
  ghost predicate Below(ks: seq<nat>, k: nat, l: Link) {
    && (l.To? ==> l.b < |ks| && ks[l.b] < k)
    && (forall b: nat :: b < |ks| ==> ks[b] >= k || (l.To? && ks[b] <= ks[l.b]))
  }

  // l leads to the bottom index with the largest key.
  ghost predicate Highest(ks: seq<nat>, l: Link) {
    && (l.To? ==> l.b < |ks|)
    && (forall b: nat :: b < |ks| ==> l.To? && ks[b] <= ks[l.b])
  }

  ghost predicate OneEach(ks: seq<nat>) {
    forall b: nat, c: nat :: b < c < |ks| ==> ks[b] != ks[c]
  }

  ghost predicate HashLinks(ks: seq<nat>, hash: seq<Link>, top: seq<Link>) {
    && |hash| == |ks| && |top| == TOP
    && (forall b: nat {:trigger hash[b]} :: b < |ks| ==> Chain(ks, ks[b] % TOP, b, hash[b]))
    && (forall i: nat :: i < TOP ==> Chain(ks, i, |ks|, top[i]))
  }

  ghost predicate AscLinks(ks: seq<nat>, asc: seq<Link>, first: Link) {
    |asc| == |ks| && Above(ks, 0, first) && forall b: nat {:trigger asc[b]} :: b < |ks| ==> Above(ks, ks[b] + 1, asc[b])
  }

  ghost predicate DescLinks(ks: seq<nat>, desc: seq<Link>, last: Link) {
    |desc| == |ks| && Highest(ks, last) && forall b: nat {:trigger desc[b]} :: b < |ks| ==> Below(ks, ks[b], desc[b])
  }

  ghost predicate HasKey(ks: seq<nat>, k: nat) {
    exists b: nat :: b < |ks| && ks[b] == k
  }

  // The bottom indices say what flat says.
  ghost predicate Shows(ks: seq<nat>, entries: seq<seq<Entry>>, flat: Flat) {
    && |entries| == |ks|
    && (forall b: nat :: b < |ks| ==> |entries[b]| == BOTTOM)
    && (forall b: nat, j: nat :: b < |ks| && j < BOTTOM ==> entries[b][j] == Look(flat, ks[b] * BOTTOM + j))
    && (forall p: nat :: !HasKey(ks, Key(p)) ==> Look(flat, p) == Nil)
  }

  lemma SetShows(ks: seq<nat>, entries: seq<seq<Entry>>, flat: Flat, p: nat, b: nat, e: Entry)
    requires Shows(ks, entries, flat) && OneEach(ks) && b < |ks| && ks[b] == Key(p)
    ensures Shows(ks, entries[b := entries[b][p % BOTTOM := e]], flat[p := e])
  {
  }

  //
  // A new bottom index.
  //

  lemma NewChain(ks: seq<nat>, hash: seq<Link>, top: seq<Link>, k: nat)
    requires HashLinks(ks, hash, top)
    ensures |top| == TOP && HashLinks(ks + [k], hash + [top[k % TOP]], top[k % TOP := To(|ks|)])
  {
    var ks', hash' := ks + [k], hash + [top[k % TOP]];
    var top' := top[k % TOP := To(|ks|)];
    forall b: nat | b < |ks'|
      ensures Chain(ks', ks'[b] % TOP, b, hash'[b])
    {
      assert b < |ks| ==> Chain(ks, ks[b] % TOP, b, hash[b]);
    }
    forall i: nat | i < TOP
      ensures Chain(ks', i, |ks'|, top'[i])
    {
      assert Chain(ks, i, |ks|, top[i]);
    }
  }

  // The links with the bottom index number n put next to its neighbour.
  function Insert(links: seq<Link>, neighbour: Link, n: nat, other: Link): seq<Link>
    requires neighbour.To? ==> neighbour.b < |links|
  {
    (if neighbour.To? then links[neighbour.b := To(n)] else links) + [other]
  }

  lemma NewOneEach(ks: seq<nat>, k: nat)
    requires OneEach(ks) && !HasKey(ks, k)
    ensures OneEach(ks + [k])
  {
    assert forall c: nat :: c < |ks| ==> ks[c] != k;
  }

  // With one more key, a link upwards stays or moves to the new bottom index.
  lemma AboveWith(ks: seq<nat>, k: nat, x: nat, l: Link)
    requires Above(ks, x, l)
    ensures Above(ks + [k], x, if x <= k && (l.Null? || k < ks[l.b]) then To(|ks|) else l)
  {
    assert forall b: nat :: b < |ks| ==> (ks + [k])[b] == ks[b];
  }

  lemma BelowWith(ks: seq<nat>, k: nat, x: nat, l: Link)
    requires Below(ks, x, l)
    ensures Below(ks + [k], x, if k < x && (l.Null? || ks[l.b] < k) then To(|ks|) else l)
  {
    assert forall b: nat :: b < |ks| ==> (ks + [k])[b] == ks[b];
  }

  // The upward link that moves is the one of the neighbour below.
  lemma MovesAbove(ks: seq<nat>, k: nat, b: nat, below: Link, l: Link)
    requires OneEach(ks) && !HasKey(ks, k) && b < |ks| && Below(ks, k, below) && Above(ks, ks[b] + 1, l)
    ensures ks[b] < k && (l.Null? || k < ks[l.b]) <==> below == To(b)
  {
    assert below.To? ==> ks[below.b] < k && (below.b == b || ks[below.b] != ks[b]);
    assert l.To? ==> ks[l.b] != k && ks[l.b] > ks[b];
  }

  lemma MovesBelow(ks: seq<nat>, k: nat, b: nat, above: Link, l: Link)
    requires OneEach(ks) && !HasKey(ks, k) && b < |ks| && Above(ks, k, above) && Below(ks, ks[b], l)
    ensures k < ks[b] && (l.Null? || ks[l.b] < k) <==> above == To(b)
  {
    assert ks[b] != k && (above.To? ==> ks[above.b] != k && (above.b == b || ks[above.b] != ks[b]));
    assert l.To? ==> ks[l.b] != k && ks[l.b] < ks[b];
  }

  lemma NewFirst(ks: seq<nat>, first: Link, k: nat, below: Link, above: Link)
    requires Above(ks, 0, first) && !HasKey(ks, k) && Below(ks, k, below) && Above(ks, k, above)
    ensures Above(ks + [k], 0, if below.To? then first else To(|ks|)) && Above(ks + [k], k + 1, above)
  {
    AboveWith(ks, k, 0, first);
    assert first.To? ==> ks[first.b] != k;
    assert forall b: nat :: b < |ks| ==> ks[b] != k;
    AboveWith(ks, k, k + 1, above);
  }

  lemma NewLast(ks: seq<nat>, last: Link, k: nat, below: Link, above: Link)
    requires Highest(ks, last) && !HasKey(ks, k) && Below(ks, k, below) && Above(ks, k, above)
    ensures Highest(ks + [k], if above.To? then last else To(|ks|)) && Below(ks + [k], k, below)
  {
    assert forall b: nat :: b < |ks| ==> (ks + [k])[b] == ks[b];
    BelowWith(ks, k, k, below);
  }

  lemma NewAsc(ks: seq<nat>, asc: seq<Link>, first: Link, k: nat, below: Link, above: Link)
    requires AscLinks(ks, asc, first) && OneEach(ks) && !HasKey(ks, k) && Below(ks, k, below) && Above(ks, k, above)
    requires below.To? ==> below.b < |ks|
    ensures |asc| == |ks| && AscLinks(ks + [k], Insert(asc, below, |ks|, above), if below.To? then first else To(|ks|))
  {
    hide Above, Below, OneEach, HasKey;
    var ks', asc' := ks + [k], Insert(asc, below, |ks|, above);
    NewFirst(ks, first, k, below, above);
    forall b: nat | b < |ks'|
      ensures Above(ks', ks'[b] + 1, asc'[b])
    {
      if b < |ks| {
        assert Above(ks, ks[b] + 1, asc[b]);
        MovesAbove(ks, k, b, below, asc[b]);
        AboveWith(ks, k, ks[b] + 1, asc[b]);
      }
    }
  }

  lemma NewDesc(ks: seq<nat>, desc: seq<Link>, last: Link, k: nat, below: Link, above: Link)
    requires DescLinks(ks, desc, last) && OneEach(ks) && !HasKey(ks, k) && Below(ks, k, below) && Above(ks, k, above)
    requires above.To? ==> above.b < |ks|
    ensures |desc| == |ks|
    ensures DescLinks(ks + [k], Insert(desc, above, |ks|, below), if above.To? then last else To(|ks|))
  {
    hide Above, Below, Highest, OneEach, HasKey;
    var ks', desc' := ks + [k], Insert(desc, above, |ks|, below);
    NewLast(ks, last, k, below, above);
    forall b: nat | b < |ks'|
      ensures Below(ks', ks'[b], desc'[b])
    {
      if b < |ks| {
        assert Below(ks, ks[b], desc[b]);
        MovesBelow(ks, k, b, above, desc[b]);
        BelowWith(ks, k, ks[b], desc[b]);
      }
    }
  }

  lemma NewShows(ks: seq<nat>, entries: seq<seq<Entry>>, flat: Flat, k: nat)
    requires Shows(ks, entries, flat) && !HasKey(ks, k)
    ensures Shows(ks + [k], entries + [seq(BOTTOM, _ => Nil)], flat)
    ensures forall m: nat :: HasKey(ks + [k], m) <==> HasKey(ks, m) || m == k
  {
    var ks' := ks + [k];
    forall m: nat
      ensures HasKey(ks', m) <==> HasKey(ks, m) || m == k
    {
      assert ks'[|ks|] == k;
      if b: nat :| b < |ks| && ks[b] == m {
        assert ks'[b] == m;
      }
    }
    var entries' := entries + [seq(BOTTOM, _ => Nil)];
    forall b: nat, j: nat | b < |ks'| && j < BOTTOM
      ensures entries'[b][j] == Look(flat, ks'[b] * BOTTOM + j)
    {
      assert Key(ks'[b] * BOTTOM + j) == ks'[b];
    }
  }

  //
  // Forwarding.
  //

  predicate IsHead(flat: Flat, p: nat) {
    Look(flat, p).Head?
  }

  // There is no block start from page p - n + 1 up to page p.
  ghost predicate NoHeadIn(flat: Flat, p: nat, n: nat) {
    forall q: nat :: p < q + n && q <= p ==> !IsHead(flat, q)
  }

  // Forwarding never jumps over a block start.
  ghost predicate Forwards(flat: Flat) {
    forall p: nat :: Look(flat, p).Fwd? ==> 0 < Look(flat, p).n <= p && NoHeadIn(flat, p, Look(flat, p).n)
  }

  // Every block start up to page q is at or before page p.
  ghost predicate AllUpTo(flat: Flat, q: nat, p: int) {
    forall r: nat :: r <= q && IsHead(flat, r) ==> r <= p
  }

  function Count(d: nat): nat {
    if d > MAX_JUMP then MAX_JUMP else d
  }

  // flat' is flat with the entries of the inner pages of the block of n pages at p set to counts, or cleared.
  ghost predicate Inner(flat: Flat, flat': Flat, p: nat, n: nat, used: bool) {
    forall q: nat :: Look(flat', q) == if p < q < p + n then InnerEntry(used, q - p) else Look(flat, q)
  }

  function InnerEntry(used: bool, d: nat): Entry {
    if used then Fwd(Count(d)) else Nil
  }

  lemma InnerStep(flat: Flat, flat': Flat, p: nat, n: nat, used: bool)
    requires Inner(flat, flat', p, n, used) && n > 0
    ensures Inner(flat, flat'[p + n := InnerEntry(used, n)], p, n + 1, used)
  {
    var f := flat'[p + n := InnerEntry(used, n)];
    forall q: nat
      ensures Look(f, q) == if p < q < p + n + 1 then InnerEntry(used, q - p) else Look(flat, q)
    {
      assert Look(flat', q) == if p < q < p + n then InnerEntry(used, q - p) else Look(flat, q);
    }
  }

  ghost predicate NoRepeats(ps: seq<nat>) {
    forall a, b :: 0 <= a < b < |ps| ==> ps[a] != ps[b]
  }

  // ps holds the block starts in bottom indices with keys below k.
  ghost predicate HeadsBelow(flat: Flat, ps: seq<nat>, k: nat) {
    forall p: nat :: p in ps <==> IsHead(flat, p) && Key(p) < k
  }

  class Index {
    const top: array<Link>
    // One element for every bottom index, in order of allocation.
    var keys: seq<nat>
    var entries: seq<seq<Entry>>
    var hash: seq<Link>
    var asc: seq<Link>
    var desc: seq<Link>
    var first: Link       // MAK_all_bottom_indices
    var last: Link        // MAK_all_bottom_indices_end
    ghost var flat: Flat

    ghost predicate Valid()
      reads this, top
    {
      && OneEach(keys) && HashLinks(keys, hash, top[..]) && AscLinks(keys, asc, first) && DescLinks(keys, desc, last)
      && Shows(keys, entries, flat)
    }

    // MAK_init_headers.
    constructor ()
      ensures Valid() && flat == map[] && fresh(top)
    {
      top := new Link[TOP](_ => Null);
      keys, entries, hash, asc, desc, first, last, flat := [], [], [], [], [], Null, Null, map[];
    }

    // GET_BI.
    method Find(k: nat) returns (l: Link)
      requires Valid()
      ensures l.To? ==> l.b < |keys| && keys[l.b] == k
      ensures l.Null? ==> !HasKey(keys, k)
    {
      l := top[k % TOP];
      ghost var n: nat := |keys|;
      while l.To? && keys[l.b] != k
        invariant Chain(keys, k % TOP, n, l) && n <= |keys|
        invariant forall b: nat :: n <= b < |keys| ==> keys[b] != k
        decreases n
      {
        n := l.b;
        l := hash[l.b];
      }
    }

    // HDR.
    method Get(p: nat) returns (e: Entry)
      requires Valid()
      ensures e == Look(flat, p)
    {
      var l := Find(Key(p));
      if l.Null? {
        return Nil;
      }
      assert keys[l.b] * BOTTOM + p % BOTTOM == p;
      e := entries[l.b][p % BOTTOM];
    }

    // SET_HDR.
    method Set(p: nat, e: Entry)
      requires Valid() && HasKey(keys, Key(p))
      modifies `entries, `flat
      ensures Valid() && flat == old(flat)[p := e]
    {
      var l := Find(Key(p));
      SetShows(keys, entries, flat, p, l.b, e);
      entries := entries[l.b := entries[l.b][p % BOTTOM := e]];
      flat := flat[p := e];
    }

    // Where a new bottom index belongs in the list.
    method Neighbours(k: nat) returns (below: Link, above: Link)
      requires Valid()
      ensures Below(keys, k, below) && Above(keys, k, above)
    {
      below, above := Null, first;
      ghost var bound: nat := 0;
      while above.To? && keys[above.b] < k
        invariant Above(keys, bound, above)
        invariant below.To? ==> below.b < |keys| && keys[below.b] < k && bound == keys[below.b] + 1
        invariant below.Null? ==> bound == 0
        decreases if above.To? then k - keys[above.b] else 0
      {
        bound := keys[above.b] + 1;
        below, above := above, asc[above.b];
      }
    }

    // get_index.
    method Ensure(k: nat)
      requires Valid()
      modifies this, top
      ensures Valid() && flat == old(flat)
      ensures forall m: nat :: HasKey(keys, m) <==> HasKey(old(keys), m) || m == k
    {
      var l := Find(k);
      if l.To? {
        return;
      }
      var below, above := Neighbours(k);
      NewOneEach(keys, k);
      Append(k, below, above);
    }

    // Puts a new bottom index in front of its chain and between its neighbours.
    method Append(k: nat, below: Link, above: Link)
      requires Valid() && !HasKey(keys, k) && OneEach(keys + [k]) && Below(keys, k, below) && Above(keys, k, above)
      requires (below.To? ==> below.b < |keys|) && (above.To? ==> above.b < |keys|)
      modifies this, top
      ensures Valid() && flat == old(flat)
      ensures forall m: nat :: HasKey(keys, m) <==> HasKey(old(keys), m) || m == k
    {
      hide HashLinks, AscLinks, DescLinks, OneEach, Shows, HasKey, Above, Below;
      NewChain(keys, hash, top[..], k);
      NewAsc(keys, asc, first, k, below, above);
      NewDesc(keys, desc, last, k, below, above);
      NewShows(keys, entries, flat, k);
      var n := |keys|;
      hash := hash + [top[k % TOP]];
      top[k % TOP] := To(n);
      asc, desc := Insert(asc, below, n, above), Insert(desc, above, n, below);
      first, last := if below.To? then first else To(n), if above.To? then last else To(n);
      keys, entries := keys + [k], entries + [seq(BOTTOM, _ => Nil)];
    }

    lemma HeadHasKey(p: nat)
      requires Valid() && Look(flat, p) != Nil
      ensures HasKey(keys, Key(p))
    {
    }

    // The entry at position j of bottom index b.
    lemma EntryAt(b: nat, j: nat)
      requires Valid() && b < |keys| && j < BOTTOM
      ensures entries[b][j] == Look(flat, keys[b] * BOTTOM + j)
    {
    }

    // Where the search for the last block start up to page q begins: the bottom index of q, or the
    // last one before it.
    method Entrance(q: nat) returns (l: Link, j: int)
      requires Valid()
      ensures l.Null? ==> forall p: nat :: p <= q ==> !IsHead(flat, p)
      ensures l.To? ==> l.b < |keys| && 0 <= j < BOTTOM && keys[l.b] * BOTTOM + j <= q
      ensures l.To? ==> AllUpTo(flat, q, keys[l.b] * BOTTOM + j)
    {
      var k := Key(q);
      l := Find(k);
      j := q % BOTTOM;
      if l.Null? {
        l, j := last, BOTTOM - 1;
        while l.To? && keys[l.b] > k
          invariant l.To? ==> l.b < |keys|
          invariant forall b: nat :: b < |keys| && keys[b] <= k ==> l.To? && keys[b] <= keys[l.b]
          decreases if l.To? then keys[l.b] + 1 else 0
        {
          l := desc[l.b];
        }
        forall p: nat | p <= q && IsHead(flat, p)
          ensures l.To? && Key(p) <= keys[l.b]
        {
          HeadHasKey(p);
        }
      }
    }

    // MAK_prev_block.
    method PrevBlock(q: nat) returns (r: Link)
      requires Valid() && Forwards(flat)
      ensures r.Null? ==> forall p: nat :: p <= q ==> !IsHead(flat, p)
      ensures r.To? ==> r.b <= q && IsHead(flat, r.b) && AllUpTo(flat, q, r.b)
    {
      var l, j := Entrance(q);
      while l.To?
        invariant l.Null? ==> forall p: nat :: p <= q ==> !IsHead(flat, p)
        invariant l.To? ==> l.b < |keys| && 0 <= j < BOTTOM && keys[l.b] * BOTTOM + j <= q
        invariant l.To? ==> AllUpTo(flat, q, keys[l.b] * BOTTOM + j)
        decreases if l.To? then keys[l.b] + 1 else 0
      {
        var base := keys[l.b] * BOTTOM;
        while j >= 0
          invariant j < BOTTOM && base + j <= q && AllUpTo(flat, q, base + j)
          decreases j
        {
          EntryAt(l.b, j);
          var e := entries[l.b][j];
          match e
          case Nil => j := j - 1;
          case Fwd(n) => j := j - n;
          case Head(_) => return To(base + j);
        }
        StepDown(q, l.b, j);
        l, j := desc[l.b], BOTTOM - 1;
      }
      return Null;
    }

    // Leaving bottom index b for the one before it.
    lemma StepDown(q: nat, b: nat, j: int)
      requires Valid() && b < |keys| && j < 0 && AllUpTo(flat, q, keys[b] * BOTTOM + j)
      ensures desc[b].Null? ==> forall p: nat :: p <= q ==> !IsHead(flat, p)
      ensures desc[b].To? ==> && desc[b].b < |keys| && keys[desc[b].b] < keys[b]
                              && AllUpTo(flat, q, keys[desc[b].b] * BOTTOM + BOTTOM - 1)
    {
      assert Below(keys, keys[b], desc[b]);
      forall p: nat | p <= q && IsHead(flat, p)
        ensures desc[b].To? && Key(p) <= keys[desc[b].b]
      {
        HeadHasKey(p);
      }
    }

    // MAK_remove_counts.
    method RemoveCounts(p: nat, n: nat)
      requires Valid() && n > 0 && forall q: nat :: p < q < p + n ==> HasKey(keys, Key(q))
      modifies `entries, `flat
      ensures Valid() && Inner(old(flat), flat, p, n, false)
    {
      var q := p + 1;
      while q < p + n
        invariant p < q <= p + n && Valid() && Inner(old(flat), flat, p, q - p, false)
      {
        InnerStep(old(flat), flat, p, q - p, false);
        Set(q, Nil);
        q := q + 1;
      }
    }

    // MAK_install_counts: bottom indices for all pages of the block, then the counts.
    method InstallCounts(p: nat, n: nat)
      requires Valid() && n > 0
      modifies this, top
      ensures Valid() && Inner(old(flat), flat, p, n, true)
      ensures forall k: nat :: HasKey(old(keys), k) ==> HasKey(keys, k)
      ensures forall q: nat :: p <= q < p + n ==> HasKey(keys, Key(q))
    {
      EnsureAll(p, n);
      SetCounts(p, n);
    }

    method SetCounts(p: nat, n: nat)
      requires Valid() && n > 0 && forall q: nat :: p <= q < p + n ==> HasKey(keys, Key(q))
      modifies `entries, `flat
      ensures Valid() && Inner(old(flat), flat, p, n, true)
    {
      var q := p + 1;
      while q < p + n
        invariant p < q <= p + n && Valid() && Inner(old(flat), flat, p, q - p, true)
      {
        InnerStep(old(flat), flat, p, q - p, true);
        Set(q, Fwd(Count(q - p)));
        q := q + 1;
      }
    }

    method EnsureAll(p: nat, n: nat)
      requires Valid() && n > 0
      modifies this, top
      ensures Valid() && flat == old(flat) && forall k: nat :: HasKey(old(keys), k) ==> HasKey(keys, k)
      ensures forall q: nat :: p <= q < p + n ==> HasKey(keys, Key(q))
    {
      var q := p;
      while q < p + n
        invariant p <= q && Valid() && flat == old(flat)
        invariant forall k: nat :: HasKey(old(keys), k) ==> HasKey(keys, k)
        invariant forall k: nat :: Key(p) <= k && k * BOTTOM + p % BOTTOM < q ==> HasKey(keys, k)
        invariant q % BOTTOM == p % BOTTOM
      {
        Ensure(Key(q));
        q := q + BOTTOM;
      }
      Ensure(Key(p + n - 1));
    }

    // The traversal of MAK_apply_to_all_blocks and MAK_restart_block_freelists: bottom indices in ascending
    // order, the entries of each from the last to the first.
    method Heads() returns (ps: seq<nat>)
      requires Valid() && Forwards(flat)
      ensures NoRepeats(ps) && forall p: nat :: p in ps <==> IsHead(flat, p)
    {
      ps := [];
      var l := first;
      ghost var bound: nat, highest: nat := 0, if last.To? then keys[last.b] else 0;
      while l.To?
        invariant Above(keys, bound, l)
        invariant NoRepeats(ps) && HeadsBelow(flat, ps, bound)
        decreases if l.To? then highest + 1 - keys[l.b] else 0
      {
        SkipTo(ps, bound, l.b);
        ps := VisitBottom(l.b, ps);
        bound := keys[l.b] + 1;
        l := asc[l.b];
      }
      forall p: nat | IsHead(flat, p)
        ensures Key(p) < bound
      {
        HeadHasKey(p);
      }
    }

    // There is no block start before the bottom index that comes next.
    lemma SkipTo(ps: seq<nat>, bound: nat, b: nat)
      requires Valid() && Above(keys, bound, To(b)) && HeadsBelow(flat, ps, bound)
      ensures HeadsBelow(flat, ps, keys[b])
    {
      forall p: nat | IsHead(flat, p) && Key(p) < keys[b]
        ensures Key(p) < bound
      {
        HeadHasKey(p);
      }
    }

    method VisitBottom(b: nat, before: seq<nat>) returns (ps: seq<nat>)
      requires Valid() && Forwards(flat) && b < |keys| && NoRepeats(before) && HeadsBelow(flat, before, keys[b])
      ensures NoRepeats(ps) && HeadsBelow(flat, ps, keys[b] + 1)
    {
      ps := before;
      var base := keys[b] * BOTTOM;
      var j := BOTTOM - 1;
      while j >= 0
        invariant j < BOTTOM && NoRepeats(ps)
        invariant forall p: nat :: p in ps <==> IsHead(flat, p) && (Key(p) < keys[b] || base + j < p < base + BOTTOM)
      {
        EntryAt(b, j);
        var e := entries[b][j];
        match e
        case Nil => j := j - 1;
        case Fwd(n) => j := j - n;
        case Head(_) =>
          ps := ps + [base + j];
          j := j - 1;
      }
    }
  }
}
