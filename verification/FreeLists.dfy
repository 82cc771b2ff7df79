// The size classes and doubly linked free lists of heap blocks.
module FreeLists {

  const UNIQUE_THRESHOLD := 32
  const HUGE_THRESHOLD := 256
  const FL_COMPRESSION := 8
  const LAST_LIST := 60

  // MAK_hblk_fl_from_blocks.
  function ListFor(pages: nat): nat {
    if pages <= UNIQUE_THRESHOLD then pages
    else if pages >= HUGE_THRESHOLD then LAST_LIST
    else (pages - UNIQUE_THRESHOLD) / FL_COMPRESSION + UNIQUE_THRESHOLD
  }

  // A list holds no block that is larger than the blocks of a later list, and the first lists hold
  // blocks of one size each.
  lemma ListsAreOrdered(m: nat, n: nat)
    ensures ListFor(n) <= LAST_LIST
    ensures m <= n ==> ListFor(m) <= ListFor(n)
    ensures ListFor(m) == ListFor(n) < UNIQUE_THRESHOLD ==> m == n
  {
  }

  //
  // Linked lists of blocks; 0 is the nil pointer.
  //

  type Links = map<nat, nat>

  function After(l: seq<nat>, j: int): nat
    requires -1 <= j < |l|
  {
    if j + 1 < |l| then l[j + 1] else 0
  }

  function Before(l: seq<nat>, j: nat): nat
    requires j <= |l|
  {
    if j > 0 then l[j - 1] else 0
  }

  // The block at position j of l is linked to its neighbours.
  predicate Knot(l: seq<nat>, next: Links, prev: Links, j: nat)
    requires j < |l|
  {
    l[j] != 0 && l[j] in next && l[j] in prev && next[l[j]] == After(l, j) && prev[l[j]] == Before(l, j)
  }

  ghost predicate Linked(head: nat, l: seq<nat>, next: Links, prev: Links) {
    head == After(l, -1) && forall j: nat :: j < |l| ==> Knot(l, next, prev, j)
  }

  ghost predicate Distinct(l: seq<nat>) {
    forall i, j :: 0 <= i < j < |l| ==> l[i] != l[j]
  }

  function Without(l: seq<nat>, j: nat): seq<nat>
    requires j < |l|
  {
    l[..j] + l[j + 1..]
  }

  function Unlink(next: Links, prev: Links, h: nat): (r: (Links, Links))
    requires h in next && h in prev && (prev[h] != 0 ==> prev[h] in next) && (next[h] != 0 ==> next[h] in prev)
  {
    (if prev[h] == 0 then next else next[prev[h] := next[h]], if next[h] == 0 then prev else prev[next[h] := prev[h]])
  }

  lemma UnlinkKeeps(head: nat, l: seq<nat>, next: Links, prev: Links, j: nat)
    requires Linked(head, l, next, prev) && Distinct(l) && j < |l|
    ensures var h := l[j];
            && h in next && h in prev
            && (prev[h] != 0 ==> prev[h] in next && prev[h] in l) && (next[h] != 0 ==> next[h] in prev && next[h] in l)
            && var (next', prev') := Unlink(next, prev, h);
               Linked(if prev[h] == 0 then next[h] else head, Without(l, j), next', prev')
  {
    assert Knot(l, next, prev, j);
    if j > 0 {
      assert Knot(l, next, prev, j - 1);
    }
    if j + 1 < |l| {
      assert Knot(l, next, prev, j + 1);
    }
    var l', links := Without(l, j), Unlink(next, prev, l[j]);
    forall i: nat | i < |l'|
      ensures Knot(l', links.0, links.1, i)
    {
      assert Knot(l, next, prev, if i < j then i else i + 1);
    }
  }

  // Lists that do not meet the changed blocks stay linked.
  lemma OtherLists(head: nat, l: seq<nat>, next: Links, prev: Links, next': Links, prev': Links)
    requires Linked(head, l, next, prev)
    requires forall p :: p in l && p in next && p in prev ==>
               p in next' && p in prev' && next'[p] == next[p] && prev'[p] == prev[p]
    ensures Linked(head, l, next', prev')
  {
    forall j: nat | j < |l|
      ensures Knot(l, next', prev', j)
    {
      assert Knot(l, next, prev, j);
    }
  }

  function Push(next: Links, prev: Links, second: nat, h: nat): (Links, Links) {
    (next[h := second], if second == 0 then prev[h := 0] else prev[h := 0][second := h])
  }

  lemma PushKeeps(head: nat, l: seq<nat>, next: Links, prev: Links, h: nat)
    requires Linked(head, l, next, prev) && Distinct(l) && h != 0 && h !in l
    ensures var (next', prev') := Push(next, prev, head, h); Linked(h, [h] + l, next', prev')
  {
    var l', links := [h] + l, Push(next, prev, head, h);
    forall i: nat | i < |l'|
      ensures Knot(l', links.0, links.1, i)
    {
      if i > 0 {
        assert Knot(l, next, prev, i - 1);
      }
    }
  }

  //
  // Bytes on a list.
  //

  ghost function Bytes(l: seq<nat>, sizes: map<nat, nat>): nat {
    if l == [] then 0 else (if l[0] in sizes then sizes[l[0]] else 0) + Bytes(l[1..], sizes)
  }

  lemma {:induction false} BytesWithout(l: seq<nat>, sizes: map<nat, nat>, j: nat)
    requires j < |l| && l[j] in sizes
    ensures Bytes(l, sizes) == Bytes(Without(l, j), sizes) + sizes[l[j]]
  {
    if j == 0 {
      assert Without(l, j) == l[1..];
    } else {
      BytesWithout(l[1..], sizes, j - 1);
      assert Without(l, j)[1..] == Without(l[1..], j - 1);
    }
  }

  lemma {:induction false} BytesSame(l: seq<nat>, sizes: map<nat, nat>, sizes': map<nat, nat>)
    requires forall j: nat :: j < |l| ==> l[j] in sizes && l[j] in sizes' && sizes[l[j]] == sizes'[l[j]]
    ensures Bytes(l, sizes) == Bytes(l, sizes')
  {
    if l != [] {
      BytesSame(l[1..], sizes, sizes');
    }
  }

  ghost function Total(bytes: seq<nat>): nat {
    if bytes == [] then 0 else Total(bytes[..|bytes| - 1]) + bytes[|bytes| - 1]
  }

  lemma {:induction false} TotalUpdate(bytes: seq<nat>, k: nat, b: nat)
    requires k < |bytes|
    ensures Total(bytes[k := b]) == Total(bytes) - bytes[k] + b
  {
    var n := |bytes| - 1;
    if k < n {
      assert bytes[k := b][..n] == bytes[..n][k := b];
      TotalUpdate(bytes[..n], k, b);
    } else {
      assert bytes[k := b][..n] == bytes[..n];
    }
  }

  // All lists together.
  ghost predicate Disjoint(lists: seq<seq<nat>>) {
    && (forall k: nat :: k < |lists| ==> Distinct(lists[k]))
    && (forall k: nat, m: nat, p :: k < m < |lists| && p in lists[k] ==> p !in lists[m])
  }

  ghost predicate AllLinked(heads: seq<nat>, lists: seq<seq<nat>>, next: Links, prev: Links) {
    |heads| == |lists| && Disjoint(lists) && forall k: nat :: k < |lists| ==> Linked(heads[k], lists[k], next, prev)
  }

  ghost predicate Counted(bytes: seq<nat>, lists: seq<seq<nat>>, sizes: map<nat, nat>) {
    && |bytes| == |lists|
    && (forall k: nat, p :: k < |lists| && p in lists[k] ==> p in sizes)
    && (forall k: nat :: k < |lists| ==> bytes[k] == Bytes(lists[k], sizes))
  }

  lemma WithoutDisjoint(lists: seq<seq<nat>>, k: nat, j: nat)
    requires Disjoint(lists) && k < |lists| && j < |lists[k]|
    ensures Disjoint(lists[k := Without(lists[k], j)])
  {
    assert forall p :: p in Without(lists[k], j) ==> p in lists[k];
  }

  lemma RemoveLinked(heads: seq<nat>, lists: seq<seq<nat>>, next: Links, prev: Links, k: nat, j: nat)
    requires AllLinked(heads, lists, next, prev) && k < |lists| && j < |lists[k]|
    ensures var h := lists[k][j];
            && h in next && h in prev
            && (prev[h] != 0 ==> prev[h] in next) && (next[h] != 0 ==> next[h] in prev) && prev[h] != h
            && var (next', prev') := Unlink(next, prev, h);
               AllLinked(heads[k := if prev[h] == 0 then next[h] else heads[k]], lists[k := Without(lists[k], j)],
                   next', prev')
  {
    UnlinkKeeps(heads[k], lists[k], next, prev, j);
    assert Knot(lists[k], next, prev, j);
    WithoutDisjoint(lists, k, j);
    var (next', prev') := Unlink(next, prev, lists[k][j]);
    forall m: nat | m < |lists| && m != k
      ensures Linked(heads[m], lists[m], next', prev')
    {
      OtherLists(heads[m], lists[m], next, prev, next', prev');
    }
  }

  lemma RemoveCounted(bytes: seq<nat>, lists: seq<seq<nat>>, sizes: map<nat, nat>, k: nat, j: nat)
    requires Counted(bytes, lists, sizes) && k < |lists| && j < |lists[k]|
    ensures lists[k][j] in sizes && bytes[k] >= sizes[lists[k][j]]
    ensures Counted(bytes[k := bytes[k] - sizes[lists[k][j]]], lists[k := Without(lists[k], j)], sizes)
  {
    assert lists[k][j] in lists[k];
    BytesWithout(lists[k], sizes, j);
    assert forall p :: p in Without(lists[k], j) ==> p in lists[k];
  }

  ghost predicate Nowhere(lists: seq<seq<nat>>, h: nat) {
    forall m: nat :: m < |lists| ==> h !in lists[m]
  }

  lemma AddLinked(heads: seq<nat>, lists: seq<seq<nat>>, next: Links, prev: Links, k: nat, h: nat)
    requires AllLinked(heads, lists, next, prev) && k < |lists| && h != 0 && Nowhere(lists, h)
    ensures var (next', prev') := Push(next, prev, heads[k], h);
            AllLinked(heads[k := h], lists[k := [h] + lists[k]], next', prev')
  {
    PushKeeps(heads[k], lists[k], next, prev, h);
    var (next', prev') := Push(next, prev, heads[k], h);
    forall m: nat | m < |lists| && m != k
      ensures Linked(heads[m], lists[m], next', prev')
    {
      OtherLists(heads[m], lists[m], next, prev, next', prev');
    }
  }

  lemma AddCounted(bytes: seq<nat>, lists: seq<seq<nat>>, sizes: map<nat, nat>, k: nat, h: nat, size: nat)
    requires Counted(bytes, lists, sizes) && k < |lists| && Nowhere(lists, h)
    ensures Counted(bytes[k := bytes[k] + size], lists[k := [h] + lists[k]], sizes[h := size])
  {
    forall m: nat | m < |lists|
      ensures Bytes(lists[m], sizes[h := size]) == Bytes(lists[m], sizes)
    {
      BytesSame(lists[m], sizes, sizes[h := size]);
    }
    assert ([h] + lists[k])[1..] == lists[k];
  }

  // MAK_hblkfreelist with the hb_next and hb_prev links of the blocks, and MAK_free_bytes.
  class Lists {
    const heads: array<nat>
    const bytes: array<nat>
    var next: Links
    var prev: Links
    ghost var lists: seq<seq<nat>>
    ghost var sizes: map<nat, nat>

    ghost predicate Valid()
      reads this, heads, bytes
    {
      && heads != bytes && |lists| == LAST_LIST + 1
      && AllLinked(heads[..], lists, next, prev)
      && Counted(bytes[..], lists, sizes)
    }

    // Bytes on all lists.
    ghost function Sum(): nat
      reads bytes
    {
      Total(bytes[..])
    }

    constructor ()
      ensures Valid() && fresh(heads) && fresh(bytes)
      ensures forall k: nat :: k <= LAST_LIST ==> lists[k] == []
    {
      heads := new nat[LAST_LIST + 1](_ => 0);
      bytes := new nat[LAST_LIST + 1](_ => 0);
      next, prev := map[], map[];
      lists := seq(LAST_LIST + 1, _ => []);
      sizes := map[];
    }

    // MAK_remove_from_fl, without the two log entries.
    method Remove(h: nat, size: nat, k: nat, ghost j: nat)
      requires Valid() && k <= LAST_LIST && j < |lists[k]| && lists[k][j] == h && h in sizes && sizes[h] == size
      modifies this, heads, bytes
      ensures Valid() && sizes == old(sizes)
      ensures lists == old(lists)[k := Without(old(lists)[k], j)]
      ensures Sum() == old(Sum()) - size
    {
      RemoveCounted(bytes[..], lists, sizes, k, j);
      TotalUpdate(bytes[..], k, bytes[k] - size);
      RemoveLinked(heads[..], lists, next, prev, k, j);
      if prev[h] == 0 {
        heads[k] := next[h];
      } else {
        next := next[prev[h] := next[h]];
      }
      bytes[k] := bytes[k] - size;
      if next[h] != 0 {
        prev := prev[next[h] := prev[h]];
      }
      lists := lists[k := Without(lists[k], j)];
    }

    // MAK_add_to_fl, without the store to the flags.
    method Add(h: nat, size: nat, k: nat)
      requires Valid() && h != 0 && k <= LAST_LIST && Nowhere(lists, h)
      modifies this, heads, bytes
      ensures Valid() && sizes == old(sizes)[h := size]
      ensures lists == old(lists)[k := [h] + old(lists)[k]]
      ensures Sum() == old(Sum()) + size
    {
      TotalUpdate(bytes[..], k, bytes[k] + size);
      AddLinked(heads[..], lists, next, prev, k, h);
      AddCounted(bytes[..], lists, sizes, k, h, size);
      var second := heads[k];
      heads[k] := h;
      bytes[k] := bytes[k] + size;
      next := next[h := second];
      prev := prev[h := 0];
      if second != 0 {
        prev := prev[second := h];
      }
      sizes := sizes[h := size];
      lists := lists[k := [h] + lists[k]];
    }
  }
}
