// Theory of free-list truncation: what giving objects back to their pages means, one at a time and
// in batches.
module TruncationTheory {
  import BlockMap

  const HB: nat := BlockMap.HB
  const GRANULE: nat := 16     // bytes per mark bit
  const ENTRIES: nat := 16     // entries of the truncation table
  const WORDS: int := 0x1_0000_0000_0000_0000 // values of a machine word

  // A page of small objects: its mark bits, their count, and whether it is off the reclaim lists.
  datatype Page = Page(marks: set<nat>, n: int, floating: bool)

  type Pages = map<nat, Page>

  // A page number and the number of a mark bit.
  type Slot = (nat, nat)

  function SlotOf(p: nat): Slot {
    (p / HB, p % HB / GRANULE)
  }

  predicate Holds(ps: Pages, x: Slot) {
    x.0 in ps && x.1 in ps[x.0].marks
  }

  ghost predicate Sound(ps: Pages) {
    0 !in ps && forall b :: b in ps ==> ps[b].n == |ps[b].marks| < WORDS
  }

  //
  // What truncation means.
  //

  ghost function BitsOf(s: set<Slot>, b: nat): set<nat> {
    set x | x in s && x.0 == b :: x.1
  }

  // The page when the marks d are gone; below the threshold it returns to its reclaim list.
  ghost function Cut(pg: Page, d: set<nat>, thr: int): Page {
    if d == {} then pg else Page(pg.marks - d, pg.n - |d|, pg.floating && pg.n - |d| > thr)
  }

  ghost predicate Emptied(pg: Page, d: set<nat>) {
    d != {} && pg.marks <= d
  }

  // The pages when the slots s are given back: empty pages are freed.
  ghost function Drop(ps: Pages, s: set<Slot>, thr: int): Pages {
    map b | b in ps && !Emptied(ps[b], BitsOf(s, b)) :: Cut(ps[b], BitsOf(s, b), thr)
  }

  // Exactly the mark bits in s are cleared.
  lemma DropClears(ps: Pages, s: set<Slot>, thr: int, x: Slot)
    ensures Holds(Drop(ps, s, thr), x) <==> Holds(ps, x) && x !in s
  {
    assert x.1 in BitsOf(s, x.0) <==> x in s by {
      if x.1 in BitsOf(s, x.0) {
        var y :| y in s && y.0 == x.0 && y.1 == x.1;
        assert y == x;
      }
    }
  }

  lemma CutCount(pg: Page, d: set<nat>)
    requires pg.n == |pg.marks| && d <= pg.marks
    ensures |pg.marks - d| == pg.n - |d| && (Emptied(pg, d) <==> d != {} && pg.n == |d|)
  {
    assert (pg.marks - d) + d == pg.marks;
    assert pg.marks <= d <==> pg.marks - d == {};
  }

  // A page is freed exactly if all its objects are given back.
  lemma DropFrees(ps: Pages, s: set<Slot>, thr: int, b: nat)
    requires Sound(ps) && b in ps && forall x :: x in s ==> Holds(ps, x)
    ensures b !in Drop(ps, s, thr) <==> BitsOf(s, b) != {} && |BitsOf(s, b)| == ps[b].n
  {
    CutCount(ps[b], BitsOf(s, b));
  }

  lemma DropSound(ps: Pages, s: set<Slot>, thr: int)
    requires Sound(ps) && forall x :: x in s ==> Holds(ps, x)
    ensures Sound(Drop(ps, s, thr))
  {
    forall b | b in Drop(ps, s, thr)
      ensures Drop(ps, s, thr)[b].n == |Drop(ps, s, thr)[b].marks|
    {
      CutCount(ps[b], BitsOf(s, b));
    }
  }

  lemma CutTwice(pg: Page, d: set<nat>, e: set<nat>, thr: int)
    requires pg.n == |pg.marks| && d !! e && d + e <= pg.marks
    ensures Emptied(pg, d + e) <==> Emptied(pg, d) || Emptied(Cut(pg, d, thr), e)
    ensures Cut(Cut(pg, d, thr), e, thr) == Cut(pg, d + e, thr)
  {
    if d == {} {
      assert d + e == e;
    } else if e == {} {
      assert d + e == d;
    } else {
      assert pg.marks - d - e == pg.marks - (d + e);
      assert |d + e| == |d| + |e|;
      var x :| x in e;
      assert x in pg.marks && x !in d;
      assert pg.marks <= d + e <==> pg.marks - d <= e;
    }
  }

  // Giving back in two parts or all at once makes no difference.
  lemma DropTwice(ps: Pages, s: set<Slot>, s': set<Slot>, thr: int)
    requires Sound(ps) && s !! s' && forall x :: x in s + s' ==> Holds(ps, x)
    ensures Drop(Drop(ps, s, thr), s', thr) == Drop(ps, s + s', thr)
  {
    forall b | b in ps
      ensures Emptied(ps[b], BitsOf(s + s', b)) <==>
              Emptied(ps[b], BitsOf(s, b)) || Emptied(Cut(ps[b], BitsOf(s, b), thr), BitsOf(s', b))
      ensures Cut(Cut(ps[b], BitsOf(s, b), thr), BitsOf(s', b), thr) == Cut(ps[b], BitsOf(s + s', b), thr)
    {
      var d, e := BitsOf(s, b), BitsOf(s', b);
      assert BitsOf(s + s', b) == d + e;
      assert forall i :: i in d + e ==> Holds(ps, (b, i));
      assert forall i :: i in d ==> (b, i) in s;
      assert forall i :: i in e ==> (b, i) in s';
      CutTwice(ps[b], d, e, thr);
    }
  }

  //
  // Lists of objects.
  //

  ghost function Slots(objs: seq<nat>): set<Slot> {
    set i | 0 <= i < |objs| :: SlotOf(objs[i])
  }

  // The slots of the objects that are marked.
  ghost function Held(ps: Pages, objs: seq<nat>): set<Slot> {
    set x | x in Slots(objs) && Holds(ps, x)
  }

  // Every object is marked and occurs once.
  ghost predicate Fresh(ps: Pages, objs: seq<nat>) {
    && (forall i :: 0 <= i < |objs| ==> Holds(ps, SlotOf(objs[i])))
    && (forall i, j :: 0 <= i < j < |objs| ==> SlotOf(objs[i]) != SlotOf(objs[j]))
  }

  // An object may be deallocated twice, unless its page is freed.
  ghost predicate Bearable(ps: Pages, objs: seq<nat>) {
    forall i :: 0 <= i < |objs| ==>
      var x := SlotOf(objs[i]);
      && x.0 in ps
      && (Emptied(ps[x.0], BitsOf(Held(ps, objs), x.0)) ==> Holds(ps, x) && x !in Slots(objs[..i]))
  }

  lemma FreshIsBearable(ps: Pages, objs: seq<nat>)
    requires Fresh(ps, objs)
    ensures Bearable(ps, objs) && Held(ps, objs) == Slots(objs)
  {
  }

  lemma SlotsMore(objs: seq<nat>, i: nat)
    requires i < |objs|
    ensures Slots(objs[..i + 1]) == Slots(objs[..i]) + {SlotOf(objs[i])}
  {
    assert objs[..i + 1] == objs[..i] + [objs[i]];
    assert forall k :: 0 <= k < i ==> objs[..i + 1][k] == objs[..i][k];
    assert SlotOf(objs[..i + 1][i]) in Slots(objs[..i + 1]);
    forall x | x in Slots(objs[..i])
      ensures x in Slots(objs[..i + 1])
    {
      var k :| 0 <= k < i && x == SlotOf(objs[..i][k]);
      assert x == SlotOf(objs[..i + 1][k]);
    }
  }

  // The page of the next object has not been freed.
  lemma StillThere(ps: Pages, objs: seq<nat>, i: nat, thr: int)
    requires Bearable(ps, objs) && i < |objs|
    ensures SlotOf(objs[i]).0 in Drop(ps, Held(ps, objs[..i]), thr)
  {
    var x := SlotOf(objs[i]);
    var d, e := BitsOf(Held(ps, objs[..i]), x.0), BitsOf(Held(ps, objs), x.0);
    forall y | y in d
      ensures y in e
    {
      assert (x.0, y) in Slots(objs[..i]);
      var k :| 0 <= k < i && (x.0, y) == SlotOf(objs[..i][k]);
      assert (x.0, y) == SlotOf(objs[k]) && (x.0, y) in Held(ps, objs);
    }
    assert x.1 in d ==> x in Slots(objs[..i]);
  }

  // One more object.
  lemma OneMore(ps: Pages, objs: seq<nat>, i: nat, thr: int)
    requires Sound(ps) && i < |objs|
    ensures var ps', x := Drop(ps, Held(ps, objs[..i]), thr), SlotOf(objs[i]);
            && Sound(ps')
            && Drop(ps, Held(ps, objs[..i + 1]), thr) == if Holds(ps', x) then Drop(ps', {x}, thr) else ps'
  {
    var s, x := Held(ps, objs[..i]), SlotOf(objs[i]);
    DropSound(ps, s, thr);
    DropClears(ps, s, thr, x);
    SlotsMore(objs, i);
    if Holds(ps, x) && x !in s {
      assert Held(ps, objs[..i + 1]) == s + {x};
      DropTwice(ps, s, {x}, thr);
    } else {
      assert Held(ps, objs[..i + 1]) == s;
    }
  }

  //
  // The truncation table.
  //

  // trun_tb_e: marks to clear on a page; block 0 stands for an unused entry.
  datatype Entry = Entry(block: nat, marks: set<nat>, count: nat)

  ghost function EntrySlots(e: Entry): set<Slot> {
    if e.block == 0 then {} else set x | x in e.marks :: (e.block, x)
  }

  ghost predicate EntryOk(e: Entry) {
    e.count == |e.marks| && (e.block == 0 <==> e.marks == {})
  }

  ghost function Pending(tab: seq<Entry>): set<Slot> {
    set k, x | 0 <= k < |tab| && x in EntrySlots(tab[k]) :: x
  }

  // Entries are at the places that their blocks are hashed to.
  ghost predicate TableOk(tab: seq<Entry>) {
    && (forall k :: 0 <= k < |tab| ==> EntryOk(tab[k]))
    && (forall k :: 0 <= k < |tab| && tab[k].block != 0 ==> tab[k].block % ENTRIES == k)
  }

  lemma EntryBits(e: Entry, b: nat)
    ensures BitsOf(EntrySlots(e), b) == if b == e.block && b != 0 then e.marks else {}
  {
    forall x | x in e.marks && e.block != 0
      ensures x in BitsOf(EntrySlots(e), e.block)
    {
      assert (e.block, x) in EntrySlots(e);
    }
  }

  // Giving back marks of one page.
  lemma DropEntry(ps: Pages, e: Entry, thr: int)
    requires Sound(ps) && EntryOk(e) && e.block in ps && e.marks <= ps[e.block].marks && e.marks != {}
    ensures Drop(ps, EntrySlots(e), thr) ==
            if ps[e.block].n == e.count then ps - {e.block} else ps[e.block := Cut(ps[e.block], e.marks, thr)]
  {
    CutCount(ps[e.block], e.marks);
    forall b
      ensures BitsOf(EntrySlots(e), b) == if b == e.block && b != 0 then e.marks else {}
    {
      EntryBits(e, b);
    }
  }

  lemma EntryHeld(ps: Pages, e: Entry)
    requires EntryOk(e) && e.block != 0 && forall x :: x in EntrySlots(e) ==> Holds(ps, x)
    ensures e.block in ps && e.marks <= ps[e.block].marks
  {
    var x :| x in e.marks;
    assert (e.block, x) in EntrySlots(e);
    assert forall y :: y in e.marks ==> (e.block, y) in EntrySlots(e);
  }

  //
  // Batches.
  //

  lemma PendingParts(t: seq<Entry>, n: nat)
    requires n < |t| && (forall j, k :: 0 <= j < k < |t| && t[j].block != 0 ==> t[j].block != t[k].block)
    ensures Pending(t[..n + 1]) == Pending(t[..n]) + EntrySlots(t[n]) && Pending(t[..n]) !! EntrySlots(t[n])
    ensures Pending(t[..n + 1]) <= Pending(t) && (t[n].block == 0 ==> EntrySlots(t[n]) == {})
  {
    forall x
      ensures x in Pending(t[..n + 1]) <==> x in Pending(t[..n]) || x in EntrySlots(t[n])
    {
      if x in EntrySlots(t[n]) {
        assert t[..n + 1][n] == t[n];
      }
      if j :| 0 <= j < n && x in EntrySlots(t[..n][j]) {
        assert t[..n + 1][j] == t[..n][j];
      }
    }
    forall x | x in Pending(t[..n + 1])
      ensures x in Pending(t)
    {
      var j :| 0 <= j <= n && x in EntrySlots(t[..n + 1][j]);
      assert t[j] == t[..n + 1][j];
    }
  }

  lemma PendingMore(ps: Pages, tab: seq<Entry>, lo: nat, hi: nat, k: nat, thr: int)
    requires Sound(ps) && TableOk(tab) && lo <= k < hi <= |tab|
    requires forall x :: x in Pending(tab[lo..hi]) ==> Holds(ps, x)
    ensures var t := tab[lo..hi];
            var ps', ps'' := Drop(ps, Pending(t[..k - lo]), thr), Drop(ps, Pending(t[..k + 1 - lo]), thr);
            && EntryOk(tab[k]) && Sound(ps'') && ps'' == Drop(ps', EntrySlots(tab[k]), thr)
            && (forall x :: x in EntrySlots(tab[k]) ==> Holds(ps', x))
            && (tab[k].block == 0 ==> ps'' == ps')
  {
    hide Drop, Sound, Holds, Pending, EntrySlots;
    var t := tab[lo..hi];
    var p, e := Pending(t[..k - lo]), EntrySlots(t[k - lo]);
    PendingParts(t, k - lo);
    DropTwice(ps, p, e, thr);
    DropSound(ps, p + e, thr);
    forall x | x in e
      ensures Holds(Drop(ps, p, thr), x)
    {
      DropClears(ps, p, thr, x);
    }
    DropNone(Drop(ps, p, thr), thr);
  }

  lemma PendingNone(ps: Pages, t: seq<Entry>, thr: int)
    ensures Drop(ps, Pending(t[..0]), thr) == ps
  {
    assert Pending(t[..0]) == {};
    DropNone(ps, thr);
  }

  // The objects os have been taken off the list, and those in the table are still to be given back.
  ghost predicate Batch(ps: Pages, os: seq<nat>, tab: seq<Entry>, pages: Pages, thr: int) {
    && TableOk(tab) && |tab| == ENTRIES && Sound(pages)
    && Pending(tab) <= Slots(os) && pages == Drop(ps, Slots(os) - Pending(tab), thr)
  }

  lemma EmptyBatch(ps: Pages, objs: seq<nat>, tab: seq<Entry>, thr: int)
    requires Sound(ps) && |tab| == ENTRIES && forall k :: 0 <= k < |tab| ==> tab[k] == Entry(0, {}, 0)
    ensures Batch(ps, objs[..0], tab, ps, thr)
  {
    assert Slots(objs[..0]) - Pending(tab) == {};
    DropNone(ps, thr);
  }

  // Giving back what the table holds: all of it, or one entry.
  lemma PartDone(ps: Pages, s: set<Slot>, p: set<Slot>, e: set<Slot>, thr: int)
    requires Sound(ps) && e <= p <= s && forall x :: x in s ==> Holds(ps, x)
    ensures var ps' := Drop(ps, s - p, thr);
            && Drop(ps', e, thr) == Drop(ps, s - (p - e), thr) && Sound(Drop(ps', e, thr))
            && forall x :: x in e ==> Holds(ps', x)
  {
    hide Drop, Sound, Holds;
    assert s - (p - e) == (s - p) + e;
    DropTwice(ps, s - p, e, thr);
    DropSound(ps, (s - p) + e, thr);
    forall x | x in e
      ensures Holds(Drop(ps, s - p, thr), x)
    {
      DropClears(ps, s - p, thr, x);
    }
  }

  lemma FreshHolds(ps: Pages, objs: seq<nat>, i: nat)
    requires Fresh(ps, objs) && i <= |objs|
    ensures forall x :: x in Slots(objs[..i]) ==> Holds(ps, x)
    ensures i < |objs| ==> SlotOf(objs[i]) !in Slots(objs[..i])
  {
    forall x | x in Slots(objs[..i])
      ensures Holds(ps, x) && (i < |objs| ==> x != SlotOf(objs[i]))
    {
      var k :| 0 <= k < i && x == SlotOf(objs[..i][k]);
      assert x == SlotOf(objs[k]);
    }
  }

  lemma BatchDone(ps: Pages, objs: seq<nat>, tab: seq<Entry>, pages: Pages, thr: int)
    requires Sound(ps) && Fresh(ps, objs) && Batch(ps, objs[..|objs|], tab, pages, thr)
    ensures TableOk(tab) && |tab| == ENTRIES && Sound(pages) && forall x :: x in Pending(tab) ==> Holds(pages, x)
    ensures Drop(pages, Pending(tab), thr) == Drop(ps, Slots(objs), thr)
  {
    hide Drop, Sound, Holds, Fresh, TableOk, Pending;
    assert objs[..|objs|] == objs;
    FreshHolds(ps, objs, |objs|);
    PartDone(ps, Slots(objs), Pending(tab), Pending(tab), thr);
    assert Slots(objs) - (Pending(tab) - Pending(tab)) == Slots(objs);
  }

  // The table with another entry.
  lemma PendingSet(tab: seq<Entry>, k: nat, e: Entry)
    requires TableOk(tab) && k < |tab| && EntryOk(e) && (e.block != 0 ==> e.block % ENTRIES == k)
    ensures TableOk(tab[k := e]) && EntrySlots(tab[k]) <= Pending(tab)
    ensures Pending(tab[k := e]) == Pending(tab) - EntrySlots(tab[k]) + EntrySlots(e)
  {
    var tab' := tab[k := e];
    forall x
      ensures x in Pending(tab') <==> (x in Pending(tab) && x !in EntrySlots(tab[k])) || x in EntrySlots(e)
    {
      if x in EntrySlots(e) {
        assert tab'[k] == e;
      }
      if j :| 0 <= j < |tab| && x in EntrySlots(tab[j]) && j != k {
        assert tab'[j] == tab[j] && x.0 == tab[j].block;
      }
    }
  }

  lemma EvictBatch(ps: Pages, objs: seq<nat>, i: nat, tab: seq<Entry>, k: nat, pages: Pages, thr: int)
    requires Sound(ps) && Fresh(ps, objs) && i <= |objs| && Batch(ps, objs[..i], tab, pages, thr) && k < |tab|
    ensures Pending([tab[k]]) == EntrySlots(tab[k]) && forall x :: x in EntrySlots(tab[k]) ==> Holds(pages, x)
    ensures Batch(ps, objs[..i], tab[k := Entry(0, {}, 0)], Drop(pages, EntrySlots(tab[k]), thr), thr)
  {
    assert Pending([tab[k]]) == EntrySlots(tab[k]) by {
      assert [tab[k]][0] == tab[k];
    }
    PendingSet(tab, k, Entry(0, {}, 0));
    FreshHolds(ps, objs, i);
    hide Drop, Sound, Holds, Fresh, TableOk, Pending, Slots;
    var s, p, e := Slots(objs[..i]), Pending(tab), EntrySlots(tab[k]);
    PartDone(ps, s, p, e, thr);
    assert p - e + {} == p - e;
  }

  lemma EnterBatch(ps: Pages, objs: seq<nat>, i: nat, tab: seq<Entry>, pages: Pages, thr: int)
    requires Sound(ps) && Fresh(ps, objs) && i < |objs| && Batch(ps, objs[..i], tab, pages, thr)
    requires var k := SlotOf(objs[i]).0 % ENTRIES; tab[k].block == 0 || tab[k].block == SlotOf(objs[i]).0
    ensures var k := SlotOf(objs[i]).0 % ENTRIES;
            var e := Entry(SlotOf(objs[i]).0, tab[k].marks + {SlotOf(objs[i]).1}, tab[k].count + 1);
            Batch(ps, objs[..i + 1], tab[k := e], pages, thr)
  {
    hide Drop, Sound, Holds, Fresh, TableOk, Pending, Slots, EntrySlots, EntryOk;
    var x := SlotOf(objs[i]);
    var k := x.0 % ENTRIES;
    var e := Entry(x.0, tab[k].marks + {x.1}, tab[k].count + 1);
    FreshHolds(ps, objs, i);
    SlotsMore(objs, i);
    var s, p := Slots(objs[..i]), Pending(tab);
    EntryMore(ps, objs, i, tab);
    PendingSet(tab, k, e);
    assert Pending(tab[k := e]) == p + {x};
    assert (s + {x}) - (p + {x}) == s - p;
  }

  lemma EntryMore(ps: Pages, objs: seq<nat>, i: nat, tab: seq<Entry>)
    requires Sound(ps) && Fresh(ps, objs) && i < |objs| && TableOk(tab) && |tab| == ENTRIES
    requires Pending(tab) <= Slots(objs[..i])
    requires var k := SlotOf(objs[i]).0 % ENTRIES; tab[k].block == 0 || tab[k].block == SlotOf(objs[i]).0
    ensures var x := SlotOf(objs[i]);
            var t := tab[x.0 % ENTRIES];
            var e := Entry(x.0, t.marks + {x.1}, t.count + 1);
            x.0 != 0 && EntryOk(e) && EntrySlots(e) == EntrySlots(t) + {x}
  {
    var x := SlotOf(objs[i]);
    var t := tab[x.0 % ENTRIES];
    assert Holds(ps, x) && EntryOk(t);
    FreshHolds(ps, objs, i);
    assert EntrySlots(t) <= Pending(tab);
    assert x.1 in t.marks ==> x in EntrySlots(t);
  }

  lemma NoneYet(ps: Pages, objs: seq<nat>, thr: int)
    ensures Drop(ps, Held(ps, objs[..0]), thr) == ps
  {
    assert Held(ps, objs[..0]) == {};
    DropNone(ps, thr);
  }

  lemma DropNone(ps: Pages, thr: int)
    ensures Drop(ps, {}, thr) == ps
  {
    assert forall b :: BitsOf({}, b) == {};
  }

  lemma HeldSound(ps: Pages, objs: seq<nat>, i: nat, thr: int)
    requires Sound(ps) && i <= |objs|
    ensures Sound(Drop(ps, Held(ps, objs[..i]), thr))
  {
    DropSound(ps, Held(ps, objs[..i]), thr);
  }

  //
  // What the batched loop does with any list.
  //

  datatype Option<T> = None | Some(value: T)

  // The pages and the truncation table in between.
  datatype Pass = Pass(pages: Pages, tab: seq<Entry>)

  const UNUSED: Entry := Entry(0, {}, 0)

  // The pages after the marks and the count of an entry have been taken off its page.
  function Removed(ps: Pages, e: Entry, thr: int): Pages
    requires e.block in ps
  {
    var hdr := ps[e.block];
    var n := (hdr.n - e.count) % WORDS;
    if n == 0 then ps - {e.block} else ps[e.block := Page(hdr.marks - e.marks, n, hdr.floating && n > thr)]
  }

  // Entries are in their places, and their pages have not been freed.
  ghost predicate Standing(s: Pass) {
    && |s.tab| == ENTRIES
    && (forall k :: 0 <= k < ENTRIES && s.tab[k].block != 0 ==>
        s.tab[k].block % ENTRIES == k && s.tab[k].block in s.pages)
  }

  // Makes room in the place of block b.
  function Cleared(s: Pass, b: nat, thr: int): Pass
    requires Standing(s)
  {
    var k := b % ENTRIES;
    if s.tab[k].block == b || s.tab[k].block == 0 then s
    else Pass(Removed(s.pages, s.tab[k], thr), s.tab[k := UNUSED])
  }

  // One object enters the table, unless its page is gone.
  function Collected(s: Pass, p: nat, thr: int): (r: Option<Pass>)
    requires Standing(s)
    ensures r.Some? ==> Standing(r.value)
  {
    var x := SlotOf(p);
    var k := x.0 % ENTRIES;
    var s' := Cleared(s, x.0, thr);
    if s.tab[k].block != x.0 && x.0 !in s'.pages then None
    else Some(Pass(s'.pages, s'.tab[k := Entry(x.0, s'.tab[k].marks + {x.1}, s'.tab[k].count + 1)]))
  }

  // The first loop, over the objects.
  ghost function Passed(ps: Pages, objs: seq<nat>, thr: int): (r: Option<Pass>)
    ensures r.Some? ==> Standing(r.value)
  {
    if objs == [] then Some(Pass(ps, seq(ENTRIES, _ => UNUSED)))
    else
      var r := Passed(ps, objs[..|objs| - 1], thr);
      if r.None? then None else Collected(r.value, objs[|objs| - 1], thr)
  }

  // remove_trun_tb_entry for some entries.
  ghost function RemovedAll(ps: Pages, es: seq<Entry>, thr: int): Pages {
    if es == [] then ps
    else
      var ps', e := RemovedAll(ps, es[..|es| - 1], thr), es[|es| - 1];
      if e.block == 0 || e.block !in ps' then ps' else Removed(ps', e, thr)
  }

  // The pages at the end; none if an object was met whose page was gone.
  ghost function Fast(ps: Pages, objs: seq<nat>, thr: int): Option<Pages> {
    var r := Passed(ps, objs, thr);
    if r.None? then None else Some(RemovedAll(r.value.pages, r.value.tab, thr))
  }

  // Distinct marked objects: the batches give back exactly these.
  lemma RemovedIsDrop(ps: Pages, e: Entry, thr: int)
    requires Sound(ps) && EntryOk(e) && e.block != 0 && forall x :: x in EntrySlots(e) ==> Holds(ps, x)
    ensures e.block in ps && Removed(ps, e, thr) == Drop(ps, EntrySlots(e), thr)
  {
    hide Drop, EntrySlots, Holds;
    EntryHeld(ps, e);
    DropEntry(ps, e, thr);
    CutCount(ps[e.block], e.marks);
    ModSmall(ps[e.block].n - e.count);
  }

  lemma ModSmall(x: int)
    requires 0 <= x < WORDS
    ensures x % WORDS == x
  {
  }

  lemma {:induction false} PassedFresh(ps: Pages, objs: seq<nat>, i: nat, thr: int)
    requires Sound(ps) && Fresh(ps, objs) && i <= |objs|
    ensures var r := Passed(ps, objs[..i], thr); r.Some? && Batch(ps, objs[..i], r.value.tab, r.value.pages, thr)
  {
    hide Collected, Batch, Fresh, Sound;
    if i == 0 {
      EmptyBatch(ps, objs, seq(ENTRIES, _ => UNUSED), thr);
    } else {
      PassedFresh(ps, objs, i - 1, thr);
      PassedMore(ps, objs, i - 1, thr);
      CollectFresh(ps, objs, i - 1, Passed(ps, objs[..i - 1], thr).value, thr);
    }
  }

  lemma CollectFresh(ps: Pages, objs: seq<nat>, i: nat, s: Pass, thr: int)
    requires Sound(ps) && Fresh(ps, objs) && i < |objs| && Standing(s) && Batch(ps, objs[..i], s.tab, s.pages, thr)
    ensures var r := Collected(s, objs[i], thr); r.Some? && Batch(ps, objs[..i + 1], r.value.tab, r.value.pages, thr)
  {
    hide Drop, Slots, Fresh, TableOk, Pending, EntrySlots, Batch, Removed;
    var x := SlotOf(objs[i]);
    var k := x.0 % ENTRIES;
    ClearFresh(ps, objs, i, s, thr);
    var s' := Cleared(s, x.0, thr);
    NextIsHeld(ps, objs, i, s'.tab, s'.pages, thr);
    EnterBatch(ps, objs, i, s'.tab, s'.pages, thr);
  }

  lemma ClearFresh(ps: Pages, objs: seq<nat>, i: nat, s: Pass, thr: int)
    requires Sound(ps) && Fresh(ps, objs) && i < |objs| && Standing(s) && Batch(ps, objs[..i], s.tab, s.pages, thr)
    ensures var x := SlotOf(objs[i]);
            var s' := Cleared(s, x.0, thr);
            && Batch(ps, objs[..i], s'.tab, s'.pages, thr)
            && (s'.tab[x.0 % ENTRIES].block == 0 || s'.tab[x.0 % ENTRIES].block == x.0)
  {
    hide Drop, Slots, Fresh, Pending, EntrySlots, Removed;
    var x := SlotOf(objs[i]);
    var k := x.0 % ENTRIES;
    if s.tab[k].block != x.0 && s.tab[k].block != 0 {
      EvictBatch(ps, objs, i, s.tab, k, s.pages, thr);
      RemovedIsDrop(s.pages, s.tab[k], thr);
    }
  }

  lemma NextIsHeld(ps: Pages, objs: seq<nat>, i: nat, tab: seq<Entry>, pages: Pages, thr: int)
    requires Fresh(ps, objs) && i < |objs| && Batch(ps, objs[..i], tab, pages, thr)
    ensures SlotOf(objs[i]).0 in pages
  {
    hide Drop, Slots, Pending, TableOk;
    FreshHolds(ps, objs, i);
    DropClears(ps, Slots(objs[..i]) - Pending(tab), thr, SlotOf(objs[i]));
  }

  lemma {:induction false} RemovedAllFresh(ps: Pages, tab: seq<Entry>, k: nat, thr: int)
    requires Sound(ps) && TableOk(tab) && k <= |tab| && forall x :: x in Pending(tab) ==> Holds(ps, x)
    ensures RemovedAll(ps, tab[..k], thr) == Drop(ps, Pending(tab[..k]), thr)
  {
    hide Drop, Holds, Pending, EntrySlots, Removed;
    if k == 0 {
      PendingNone(ps, tab, thr);
    } else {
      assert tab[..k][..k - 1] == tab[..k - 1] && tab[0..|tab|] == tab;
      RemovedAllFresh(ps, tab, k - 1, thr);
      PendingMore(ps, tab, 0, |tab|, k - 1, thr);
      SoundBelow(ps, tab, k - 1, thr);
      if tab[k - 1].block != 0 {
        RemovedIsDrop(Drop(ps, Pending(tab[..k - 1]), thr), tab[k - 1], thr);
      }
    }
  }

  lemma SoundBelow(ps: Pages, tab: seq<Entry>, k: nat, thr: int)
    requires Sound(ps) && k <= |tab| && forall x :: x in Pending(tab) ==> Holds(ps, x)
    ensures Sound(Drop(ps, Pending(tab[..k]), thr))
  {
    forall x | x in Pending(tab[..k])
      ensures Holds(ps, x)
    {
      var j :| 0 <= j < k && x in EntrySlots(tab[..k][j]);
      assert tab[j] == tab[..k][j];
    }
    DropSound(ps, Pending(tab[..k]), thr);
  }

  lemma FastFresh(ps: Pages, objs: seq<nat>, thr: int)
    requires Sound(ps) && Fresh(ps, objs)
    ensures Fast(ps, objs, thr) == Some(Drop(ps, Slots(objs), thr))
  {
    hide Drop, Slots, Fresh, Batch, TableOk, Pending;
    PassedFresh(ps, objs, |objs|, thr);
    assert objs[..|objs|] == objs;
    var s := Passed(ps, objs, thr).value;
    BatchDone(ps, objs, s.tab, s.pages, thr);
    assert s.tab[..|s.tab|] == s.tab;
    RemovedAllFresh(s.pages, s.tab, |s.tab|, thr);
  }

  //
  // Counting: the batches subtract every occurrence of an object.
  //

  // The number of objects on page b.
  ghost function Occurrences(objs: seq<nat>, b: nat): (n: nat)
    ensures n <= |objs|
  {
    if objs == [] then 0
    else Occurrences(objs[..|objs| - 1], b) + if SlotOf(objs[|objs| - 1]).0 == b then 1 else 0
  }

  // Objects of page b that are in the table.
  ghost function Waiting(tab: seq<Entry>, b: nat): nat
    requires |tab| == ENTRIES
  {
    if tab[b % ENTRIES].block == b then tab[b % ENTRIES].count else 0
  }

  // Unused entries are empty, and page b counts what has been given back.
  ghost predicate Counted(ps: Pages, s: Pass, n: int, b: nat)
    requires |s.tab| == ENTRIES && b in ps
  {
    && (forall k :: 0 <= k < ENTRIES && s.tab[k].block == 0 ==> s.tab[k] == UNUSED)
    && (b in s.pages ==> s.pages[b].n == (ps[b].n - n + Waiting(s.tab, b)) % WORDS)
  }

  lemma ModLess(x: int, c: int)
    ensures (x % WORDS - c) % WORDS == (x - c) % WORDS
  {
    assert x == x / WORDS * WORDS + x % WORDS;
  }

  lemma ClearCounted(ps: Pages, s: Pass, n: int, b: nat, x: nat, thr: int)
    requires Standing(s) && b in ps && Counted(ps, s, n, b)
    ensures Counted(ps, Cleared(s, x, thr), n, b)
  {
    var k := x % ENTRIES;
    if s.tab[k].block != x && s.tab[k].block == b && b != 0 {
      ModLess(ps[b].n - n + Waiting(s.tab, b), s.tab[k].count);
    }
  }

  lemma CollectCounted(ps: Pages, s: Pass, n: int, b: nat, p: nat, thr: int)
    requires Standing(s) && b in ps && Counted(ps, s, n, b) && SlotOf(p).0 != 0
    requires Collected(s, p, thr).Some?
    ensures Counted(ps, Collected(s, p, thr).value, n + if SlotOf(p).0 == b then 1 else 0, b)
  {
    ClearCounted(ps, s, n, b, SlotOf(p).0, thr);
  }

  lemma {:induction false} PassedCounted(ps: Pages, objs: seq<nat>, b: nat, thr: int)
    requires Sound(ps) && b in ps && (forall i :: 0 <= i < |objs| ==> SlotOf(objs[i]).0 != 0)
    requires Passed(ps, objs, thr).Some?
    ensures Counted(ps, Passed(ps, objs, thr).value, Occurrences(objs, b), b)
  {
    if objs != [] {
      var rest, p := objs[..|objs| - 1], objs[|objs| - 1];
      PassedCounted(ps, rest, b, thr);
      CollectCounted(ps, Passed(ps, rest, thr).value, Occurrences(rest, b), b, p, thr);
    }
  }

  // Emptying the table subtracts what waits in it.
  lemma {:induction false} RemovedAllCount(s: Pass, k: nat, b: nat, thr: int)
    requires Standing(s) && k <= ENTRIES && b != 0 && b in RemovedAll(s.pages, s.tab[..k], thr)
    ensures b in s.pages
    ensures RemovedAll(s.pages, s.tab[..k], thr)[b].n ==
            if b % ENTRIES < k && s.tab[b % ENTRIES].block == b then (s.pages[b].n - Waiting(s.tab, b)) % WORDS
            else s.pages[b].n
  {
    if k > 0 {
      assert s.tab[..k][..k - 1] == s.tab[..k - 1];
      RemovedAllCount(s, k - 1, b, thr);
    }
  }

  lemma FastCount(ps: Pages, objs: seq<nat>, b: nat, thr: int)
    requires Sound(ps) && b in ps && (forall i :: 0 <= i < |objs| ==> SlotOf(objs[i]).0 != 0)
    requires var r := Fast(ps, objs, thr); r.Some? && b in r.value
    ensures Fast(ps, objs, thr).value[b].n == (ps[b].n - Occurrences(objs, b)) % WORDS
  {
    hide Passed, RemovedAll, Occurrences;
    var s := Passed(ps, objs, thr).value;
    assert s.tab[..ENTRIES] == s.tab;
    RemovedAllCount(s, ENTRIES, b, thr);
    PassedCounted(ps, objs, b, thr);
    ModLess(ps[b].n - Occurrences(objs, b) + Waiting(s.tab, b), Waiting(s.tab, b));
  }

  // Object i is marked and does not occur before.
  ghost predicate FreshAt(ps: Pages, objs: seq<nat>, i: nat)
    requires i < |objs|
  {
    Holds(ps, SlotOf(objs[i])) && SlotOf(objs[i]) !in Slots(objs[..i])
  }

  lemma HeldMore(ps: Pages, objs: seq<nat>, i: nat, b: nat)
    requires i < |objs|
    ensures var x := SlotOf(objs[i]);
            BitsOf(Held(ps, objs[..i + 1]), b) ==
              BitsOf(Held(ps, objs[..i]), b) + if x.0 == b && FreshAt(ps, objs, i) then {x.1} else {}
    ensures FreshAt(ps, objs, i) ==> SlotOf(objs[i]).1 !in BitsOf(Held(ps, objs[..i]), SlotOf(objs[i]).0)
  {
    var x := SlotOf(objs[i]);
    SlotsMore(objs, i);
    if FreshAt(ps, objs, i) {
      assert Held(ps, objs[..i + 1]) == Held(ps, objs[..i]) + {x};
    } else {
      assert Held(ps, objs[..i + 1]) == Held(ps, objs[..i]);
    }
    assert forall y :: y in BitsOf(Held(ps, objs[..i]), x.0) ==> (x.0, y) in Held(ps, objs[..i]);
  }

  // A page gets back at most as many marks as it has objects on the list, and exactly as many only
  // if these are marked and distinct.
  lemma {:induction false} HeldCount(ps: Pages, objs: seq<nat>, i: nat, b: nat)
    requires i <= |objs|
    ensures var n := |BitsOf(Held(ps, objs[..i]), b)|;
            && n <= Occurrences(objs[..i], b)
            && (n == Occurrences(objs[..i], b) ==>
                  forall j :: 0 <= j < i && SlotOf(objs[j]).0 == b ==> FreshAt(ps, objs, j))
  {
    hide Held, FreshAt, BitsOf;
    if i == 0 {
      NoBitsYet(ps, objs, b);
    } else {
      HeldCount(ps, objs, i - 1, b);
      HeldMore(ps, objs, i - 1, b);
      assert objs[..i][..i - 1] == objs[..i - 1];
    }
  }

  lemma NoBitsYet(ps: Pages, objs: seq<nat>, b: nat)
    ensures BitsOf(Held(ps, objs[..0]), b) == {}
  {
  }

  lemma ModSame(n: int, d: int, o: int)
    requires 0 <= d <= o < WORDS && 0 <= n - d < WORDS && (n - o) % WORDS == n - d
    ensures d == o
  {
  }

  // If both ways agree on the page of object i, the object is marked and does not occur before.
  lemma AgreeAt(ps: Pages, objs: seq<nat>, i: nat, thr: int)
    requires Sound(ps) && Bearable(ps, objs) && |objs| < WORDS && i < |objs|
    requires Fast(ps, objs, thr) == Some(Drop(ps, Held(ps, objs), thr))
    ensures FreshAt(ps, objs, i)
  {
    hide Fast, Bearable, Drop, Held, BitsOf, Occurrences, FreshAt, Emptied;
    var b := SlotOf(objs[i]).0;
    var d := BitsOf(Held(ps, objs), b);
    InPages(ps, objs);
    if Emptied(ps[b], d) {
      FreedIsFresh(ps, objs, i);
    } else {
      HeldHolds(ps, objs);
      DropCount(ps, Held(ps, objs), b, thr);
      FastCount(ps, objs, b, thr);
      HeldCount(ps, objs, |objs|, b);
      assert objs[..|objs|] == objs;
      ModSame(ps[b].n, |d|, Occurrences(objs, b));
    }
  }

  lemma FreedIsFresh(ps: Pages, objs: seq<nat>, i: nat)
    requires Bearable(ps, objs) && i < |objs| && SlotOf(objs[i]).0 in ps
    requires Emptied(ps[SlotOf(objs[i]).0], BitsOf(Held(ps, objs), SlotOf(objs[i]).0))
    ensures FreshAt(ps, objs, i)
  {
  }

  lemma HeldHolds(ps: Pages, objs: seq<nat>)
    ensures forall x :: x in Held(ps, objs) ==> Holds(ps, x)
  {
  }

  lemma DropCount(ps: Pages, s: set<Slot>, b: nat, thr: int)
    requires Sound(ps) && b in ps && (forall x :: x in s ==> Holds(ps, x)) && !Emptied(ps[b], BitsOf(s, b))
    ensures b in Drop(ps, s, thr) && Drop(ps, s, thr)[b].n == ps[b].n - |BitsOf(s, b)|
    ensures 0 <= ps[b].n - |BitsOf(s, b)| < WORDS
  {
    CutCount(ps[b], BitsOf(s, b));
  }

  lemma InPages(ps: Pages, objs: seq<nat>)
    requires Sound(ps) && Bearable(ps, objs)
    ensures forall i :: 0 <= i < |objs| ==> SlotOf(objs[i]).0 in ps && SlotOf(objs[i]).0 != 0
  {
  }

  // On every list that the loop over single objects can bear, the batches give the same pages exactly
  // if every object is marked and occurs once.
  lemma FastIff(ps: Pages, objs: seq<nat>, thr: int)
    requires Sound(ps) && Bearable(ps, objs) && |objs| < WORDS
    ensures Fast(ps, objs, thr) == Some(Drop(ps, Held(ps, objs), thr)) <==> Fresh(ps, objs)
  {
    if Fresh(ps, objs) {
      FreshIsBearable(ps, objs);
      FastFresh(ps, objs, thr);
    } else if Fast(ps, objs, thr) == Some(Drop(ps, Held(ps, objs), thr)) {
      forall i | 0 <= i < |objs|
        ensures FreshAt(ps, objs, i)
      {
        AgreeAt(ps, objs, i, thr);
      }
      AllFresh(ps, objs);
    }
  }

  lemma AllFresh(ps: Pages, objs: seq<nat>)
    requires forall i :: 0 <= i < |objs| ==> FreshAt(ps, objs, i)
    ensures Fresh(ps, objs)
  {
    forall i | 0 <= i < |objs|
      ensures Holds(ps, SlotOf(objs[i]))
    {
      assert FreshAt(ps, objs, i);
    }
    forall i, j | 0 <= i < j < |objs|
      ensures SlotOf(objs[i]) != SlotOf(objs[j])
    {
      assert FreshAt(ps, objs, j) && objs[..j][i] == objs[i];
    }
  }

  // An object that is deallocated twice: one at a time, its page keeps two of three marks and counts
  // two; in a batch, it counts one.
  lemma DoubleFreeDiffers(thr: int)
    ensures var ps, objs := map[1 := Page({0, 1, 2}, 3, false)], [HB, HB];
            && Sound(ps) && Bearable(ps, objs) && !Fresh(ps, objs)
            && Drop(ps, Held(ps, objs), thr) == map[1 := Page({1, 2}, 2, false)]
            && Fast(ps, objs, thr) == Some(map[1 := Page({1, 2}, 1, false)])
  {
    var ps, objs: seq<nat> := map[1 := Page({0, 1, 2}, 3, false)], [HB, HB];
    hide Fast;
    assert SlotOf(HB) == (1, 0);
    assert objs[0] == HB && objs[1] == HB;
    assert Slots(objs) == {(1, 0)};
    assert Held(ps, objs) == {(1, 0)};
    assert BitsOf(Held(ps, objs), 1) == {0};
    assert {0, 1, 2} - {0} == {1, 2};
    assert 1 in {0, 1, 2} && 1 !in {0};
    TwiceCollected(ps, thr);
  }

  lemma CollectAgain(ps: Pages, tab: seq<Entry>, n: nat, thr: int)
    requires |tab| == ENTRIES && 1 in ps && (forall k :: 0 <= k < ENTRIES && k != 1 ==> tab[k] == UNUSED)
    requires tab[1] == if n == 0 then UNUSED else Entry(1, {0}, n)
    ensures Collected(Pass(ps, tab), HB, thr) == Some(Pass(ps, tab[1 := Entry(1, {0}, n + 1)]))
  {
    assert SlotOf(HB) == (1, 0);
    assert {0} + {0} == {0} && {} + {0} == {0};
  }

  lemma TwiceCollected(ps: Pages, thr: int)
    requires ps == map[1 := Page({0, 1, 2}, 3, false)]
    ensures Fast(ps, [HB, HB], thr) == Some(map[1 := Page({1, 2}, 1, false)])
  {
    hide Collected, Removed, RemovedAll;
    var objs: seq<nat>, tab := [HB, HB], seq(ENTRIES, _ => UNUSED);
    var tab' := tab[1 := Entry(1, {0}, 1)];
    var tab'' := tab'[1 := Entry(1, {0}, 2)];
    CollectAgain(ps, tab, 0, thr);
    CollectAgain(ps, tab', 1, thr);
    PassedMore(ps, objs, 0, thr);
    PassedMore(ps, objs, 1, thr);
    assert objs[..2] == objs && tab''[..ENTRIES] == tab'';
    OneEntry(ps, tab'', 1, ENTRIES, thr);
    TwoOff(ps, thr);
  }

  lemma TwoOff(ps: Pages, thr: int)
    requires ps == map[1 := Page({0, 1, 2}, 3, false)]
    ensures Removed(ps, Entry(1, {0}, 2), thr) == map[1 := Page({1, 2}, 1, false)]
  {
    assert {0, 1, 2} - {0} == {1, 2};
  }

  // A table with a single entry at place k.
  lemma {:induction false} OneEntry(ps: Pages, tab: seq<Entry>, k: nat, n: nat, thr: int)
    requires k < |tab| && n <= |tab| && tab[k].block in ps && tab[k].block != 0
    requires forall j :: 0 <= j < |tab| && j != k ==> tab[j].block == 0
    ensures RemovedAll(ps, tab[..n], thr) == if n <= k then ps else Removed(ps, tab[k], thr)
  {
    if n > 0 {
      OneEntry(ps, tab, k, n - 1, thr);
      assert tab[..n][..n - 1] == tab[..n - 1];
    }
  }

  lemma RemovedOne(ps: Pages, e: Entry, thr: int)
    requires e.block in ps && e.block != 0
    ensures RemovedAll(ps, [e], thr) == Removed(ps, e, thr)
  {
    assert [e][..0] == [];
  }

  lemma PassedMore(ps: Pages, objs: seq<nat>, i: nat, thr: int)
    requires i < |objs|
    ensures Passed(ps, objs[..i + 1], thr) ==
            var r := Passed(ps, objs[..i], thr); if r.None? then None else Collected(r.value, objs[i], thr)
  {
    assert objs[..i + 1][..i] == objs[..i];
  }

  // One more entry of the part from lo up to hi of the table.
  lemma RemovedMore(ps: Pages, tab: seq<Entry>, lo: nat, hi: nat, k: nat, thr: int)
    requires Standing(Pass(ps, tab)) && lo <= k < hi <= |tab|
    ensures var t := tab[lo..hi];
            var ps' := RemovedAll(ps, t[..k - lo], thr);
            && (tab[k].block != 0 ==> tab[k].block in ps')
            && RemovedAll(ps, t[..k + 1 - lo], thr) == if tab[k].block == 0 then ps' else Removed(ps', tab[k], thr)
  {
    hide Removed;
    var t := tab[lo..hi];
    assert t[..k + 1 - lo][..k - lo] == t[..k - lo];
    if tab[k].block != 0 {
      RemovedAllKeeps(ps, t[..k - lo], tab[k].block, thr);
    }
  }

  // Pages that are not in the entries stay.
  lemma {:induction false} RemovedAllKeeps(ps: Pages, es: seq<Entry>, b: nat, thr: int)
    requires b in ps && forall k :: 0 <= k < |es| ==> es[k].block != b
    ensures b in RemovedAll(ps, es, thr)
  {
    if es != [] {
      RemovedAllKeeps(ps, es[..|es| - 1], b, thr);
    }
  }
}
