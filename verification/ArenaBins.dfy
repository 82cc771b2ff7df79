// The bins of small objects of an nvm_malloc arena that was created fresh.
// src/arena.c
module ArenaBins {
  import Probing

  const PAGE: nat := 4096      // bytes per run
  const HEADER: nat := 64      // bytes of the header of a run
  const SMALL_MAX: nat := 1984 // the largest small object

  // The bytes that a request is rounded up to.
  function ClassSize(n: nat): (r: nat)
    ensures n <= r < n + HEADER && r % HEADER == 0
  {
    n / HEADER * HEADER + if n % HEADER != 0 then HEADER else 0
  }

  // Every small request has a bin.
  lemma ClassIndex(n: nat)
    requires 0 < n <= SMALL_MAX
    ensures n <= ClassSize(n) <= SMALL_MAX && 0 <= ClassSize(n) / HEADER - 1 < 31
    ensures ClassSize(n) == (ClassSize(n) / HEADER) * HEADER
  {
  }

  // Objects per run.
  function Capacity(size: nat): nat
    requires size > 0
  {
    (PAGE - HEADER) / size
  }

  // An object: its run, and its number in the run.
  type Slot = (nat, nat)

  function Addr(s: Slot, size: nat): nat {
    s.0 + HEADER + size * s.1
  }

  // The objects of a run lie in its page, after the header.
  lemma InPage(s: Slot, size: nat)
    requires size > 0 && s.1 < Capacity(size)
    ensures s.0 + HEADER <= Addr(s, size) && Addr(s, size) + size <= s.0 + PAGE
  {
    var cap := Capacity(size);
    assert size * cap <= PAGE - HEADER;
    assert size * s.1 + size == size * (s.1 + 1) <= size * cap by {
      MulOrder(size, s.1 + 1, cap);
    }
  }

  lemma MulOrder(x: nat, y: nat, z: nat)
    requires y <= z
    ensures x * y <= x * z
  {
  }

  // arena_free finds the run and the number of an object from its address.
  lemma AddrInverse(s: Slot, size: nat)
    requires size > 0 && s.1 < Capacity(size) && s.0 % PAGE == 0
    ensures Addr(s, size) / PAGE * PAGE == s.0 && (Addr(s, size) - s.0 - HEADER) / size == s.1
  {
    InPage(s, size);
    DivExact(s.1, size);
    assert Addr(s, size) == s.0 / PAGE * PAGE + (HEADER + size * s.1);
  }

  lemma DivExact(i: nat, size: nat)
    requires size > 0
    ensures size * i / size == i
  {
    assert size * i == i * size + 0;
    Probing.ModUnique(size * i, i, 0, size);
    var q := size * i / size;
    assert (q - i) * size == 0;
    Probing.MulBounds(q - i, size);
  }

  // Different objects do not overlap.
  lemma Apart(s: Slot, s': Slot, size: nat)
    requires size > 0 && s.1 < Capacity(size) && s'.1 < Capacity(size) && s.0 % PAGE == 0 && s'.0 % PAGE == 0
    requires s.0 < s'.0 || (s.0 == s'.0 && s.1 < s'.1)
    ensures Addr(s, size) + size <= Addr(s', size)
  {
    InPage(s, size);
    InPage(s', size);
    if s.0 == s'.0 {
      MulOrder(size, s.1 + 1, s'.1);
      assert size * (s.1 + 1) == size * s.1 + size;
    } else {
      assert s.0 + PAGE <= s'.0;
    }
  }

  //
  // Runs and bins.
  //

  datatype Run = Run(bitmap: seq<bool>, free: nat, next: nat)

  type Runs = map<nat, Run>

  ghost function ClearBits(b: seq<bool>): set<nat> {
    set i: nat | i < |b| && !b[i]
  }

  // All objects that are handed out, and all that are not.
  ghost function Live(rs: Runs): set<Slot> {
    set p, i: nat | p in rs && i < |rs[p].bitmap| && rs[p].bitmap[i] :: (p, i)
  }

  ghost function Idle(rs: Runs): set<Slot> {
    set p, i: nat | p in rs && i < |rs[p].bitmap| && !rs[p].bitmap[i] :: (p, i)
  }

  ghost predicate RunsOk(rs: Runs, cap: nat) {
    && 0 !in rs
    && (forall p :: p in rs ==> p % PAGE == 0 && |rs[p].bitmap| == cap && rs[p].free == |ClearBits(rs[p].bitmap)|)
  }

  // The bin's list holds the runs with idle objects, except for the current run.
  ghost predicate Listed(rs: Runs, current: nat, l: seq<nat>) {
    && (forall i, j :: 0 <= i < j < |l| ==> l[i] != l[j])
    && (forall p :: p in l <==> p in rs && p != current && rs[p].free > 0)
  }

  function After(l: seq<nat>, j: int): nat
    requires -1 <= j < |l|
  {
    if j + 1 < |l| then l[j + 1] else 0
  }

  ghost predicate Linked(rs: Runs, head: nat, l: seq<nat>) {
    head == After(l, -1) && forall j :: 0 <= j < |l| ==> l[j] in rs && rs[l[j]].next == After(l, j)
  }

  ghost predicate Everything(rs: Runs, current: nat, head: nat, l: seq<nat>, cap: nat) {
    RunsOk(rs, cap) && (current == 0 || current in rs) && Listed(rs, current, l) && Linked(rs, head, l)
  }

  lemma SetBit(b: seq<bool>, i: nat, v: bool)
    requires i < |b| && b[i] != v
    ensures |ClearBits(b[i := v])| == |ClearBits(b)| + if v then -1 else 1
  {
    assert ClearBits(b[i := v]) == if v then ClearBits(b) - {i} else ClearBits(b) + {i};
  }

  function Blank(n: nat): seq<bool> {
    seq(n, _ => false)
  }

  lemma {:induction false} AllClear(n: nat)
    ensures |ClearBits(Blank(n))| == n
  {
    if n > 0 {
      hide ClearBits, Blank;
      AllClear(n - 1);
      OneMoreBit(n);
    }
  }

  lemma OneMoreBit(n: nat)
    requires n > 0
    ensures ClearBits(Blank(n)) == ClearBits(Blank(n - 1)) + {n - 1} && n - 1 !in ClearBits(Blank(n - 1))
  {
  }

  // Handing out an object and taking it back.
  lemma Switched(rs: Runs, p: nat, i: nat, r: Run)
    requires p in rs && i < |rs[p].bitmap| && r.bitmap == rs[p].bitmap[i := !rs[p].bitmap[i]]
    ensures !rs[p].bitmap[i] ==> Live(rs[p := r]) == Live(rs) + {(p, i)} && Idle(rs[p := r]) == Idle(rs) - {(p, i)}
    ensures rs[p].bitmap[i] ==> Live(rs[p := r]) == Live(rs) - {(p, i)} && Idle(rs[p := r]) == Idle(rs) + {(p, i)}
    ensures (p, i) in (if rs[p].bitmap[i] then Live(rs) else Idle(rs))
    ensures (p, i) !in (if rs[p].bitmap[i] then Idle(rs) else Live(rs))
  {
  }

  // The objects of run p with the numbers in b.
  ghost function Objects(p: nat, b: set<nat>): set<Slot> {
    set i | i in b :: (p, i)
  }

  lemma {:induction false} ObjectCount(p: nat, b: set<nat>)
    ensures |Objects(p, b)| == |b|
  {
    if b == {} {
      assert Objects(p, b) == {};
    } else {
      var i :| i in b;
      ObjectCount(p, b - {i});
      assert Objects(p, b) == Objects(p, b - {i}) + {(p, i)};
    }
  }

  // A new run.
  lemma Opened(rs: Runs, p: nat, cap: nat)
    requires p !in rs
    ensures var rs' := rs[p := Run(Blank(cap), cap, 0)];
            Live(rs') == Live(rs) && |Idle(rs')| == |Idle(rs)| + cap
  {
    hide Idle, Live, Objects, ClearBits, Blank;
    var rs', new' := rs[p := Run(Blank(cap), cap, 0)], Objects(p, ClearBits(Blank(cap)));
    forall x
      ensures x in Idle(rs') <==> x in Idle(rs) || x in new'
      ensures x in Live(rs') <==> x in Live(rs)
      ensures x in Idle(rs) ==> x !in new'
    {
      OpenedAt(rs, p, cap, x);
    }
    assert Idle(rs') == Idle(rs) + new' && Idle(rs) !! new';
    ObjectCount(p, ClearBits(Blank(cap)));
    AllClear(cap);
  }

  lemma OpenedAt(rs: Runs, p: nat, cap: nat, x: Slot)
    requires p !in rs
    ensures var rs', new' := rs[p := Run(Blank(cap), cap, 0)], Objects(p, ClearBits(Blank(cap)));
            && (x in Idle(rs') <==> x in Idle(rs) || x in new')
            && (x in Live(rs') <==> x in Live(rs)) && (x in Idle(rs) ==> x !in new')
  {
    assert x in Objects(p, ClearBits(Blank(cap))) <==> x.0 == p && x.1 < cap;
  }

  // With idle objects, but none in the current run, some run is on the list.
  lemma SomeListed(rs: Runs, current: nat, l: seq<nat>, cap: nat)
    requires RunsOk(rs, cap) && Listed(rs, current, l) && Idle(rs) != {} && (current in rs ==> rs[current].free == 0)
    ensures |l| > 0
  {
    var s :| s in Idle(rs);
    assert s.1 in ClearBits(rs[s.0].bitmap);
    assert s.0 in l;
  }

  class Bin {
    const size: nat
    var runs: Runs
    var current: nat     // 0 if there is none
    var head: nat        // the first run of the list, or 0
    var nFree: nat
    var nRuns: nat
    ghost var list: seq<nat>

    ghost predicate Valid()
      reads this
    {
      && 0 < size <= SMALL_MAX
      && Everything(runs, current, head, list, Capacity(size))
      && nFree == |Idle(runs)| && nRuns == |runs|
    }

    // A bin of arena_init.
    constructor (size: nat)
      requires 0 < size <= SMALL_MAX
      ensures Valid() && this.size == size && Live(runs) == {} && nFree == 0
    {
      this.size := size;
      runs, current, head, nFree, nRuns, list := map[], 0, 0, 0, 0, [];
    }

    // Makes sure that the current run has idle objects; page is the page for a new run, or 0.
    method SelectRun(page: nat) returns (ok: bool)
      requires Valid() && (page != 0 ==> page !in runs && page % PAGE == 0)
      modifies this
      ensures Valid() && Live(runs) == old(Live(runs))
      ensures ok == (old(nFree) > 0 || page != 0)
      ensures ok ==> current in runs && runs[current].free > 0
      ensures !ok ==> unchanged(this)
      ensures old(nFree) > 0 ==> runs == old(runs)
      ensures nFree == if ok && old(nFree) == 0 then Capacity(size) else old(nFree)
    {
      hide Everything, Live, Idle, Capacity;
      CurrentRun(runs, current, head, list, Capacity(size));
      ok := true;
      if nFree == 0 {
        if page == 0 {
          return false;
        }
        Roomy(size);
        Opened(runs, page, Capacity(size));
        OpenKeeps(runs, current, head, list, Capacity(size), page);
        runs := runs[page := Run(Blank(Capacity(size)), Capacity(size), 0)];
        current, nFree, nRuns := page, nFree + Capacity(size), nRuns + 1;
      } else if current == 0 || runs[current].free == 0 {
        NextKeeps(runs, current, head, list, Capacity(size));
        current := head;
        head := runs[current].next;
        list := list[1..];
      }
    }

    // The search in the current run.
    method TakeObject() returns (i: nat)
      requires Valid() && current in runs && runs[current].free > 0
      modifies this
      ensures Valid() && i < Capacity(size) && (current, i) !in old(Live(runs))
      ensures Live(runs) == old(Live(runs)) + {(current, i)} && current == old(current) && nFree == old(nFree) - 1
      ensures current % PAGE == 0
    {
      hide Everything, Live, Idle, Capacity;
      RunSize(runs, current, head, list, Capacity(size));
      var run := runs[current];
      i := 0;
      while i < Capacity(size) && run.bitmap[i]
        invariant i <= Capacity(size) && forall j :: 0 <= j < i ==> run.bitmap[j]
      {
        i := i + 1;
      }
      SearchSucceeds(runs, current, head, list, Capacity(size), i);
      TakeKeeps(runs, current, head, list, Capacity(size), i);
      runs := runs[current := run.(bitmap := run.bitmap[i := true], free := run.free - 1)];
      nFree := nFree - 1;
    }

    // arena_allocate for a small object; page is the page that arena_create_run can get, or 0.
    method Allocate(page: nat) returns (ptr: nat, ghost s: Slot)
      requires Valid() && (page != 0 ==> page !in runs && page % PAGE == 0)
      modifies this
      ensures Valid() && (ptr == 0 <==> old(nFree) == 0 && page == 0)
      ensures ptr == 0 ==> unchanged(this)
      ensures ptr != 0 ==> s !in old(Live(runs)) && Live(runs) == old(Live(runs)) + {s}
      ensures ptr != 0 ==> ptr == Addr(s, size) && s.0 % PAGE == 0 && s.1 < Capacity(size)
      ensures ptr != 0 ==> nFree == (if old(nFree) == 0 then Capacity(size) else old(nFree)) - 1
    {
      hide Everything, Live, Idle, Capacity;
      ptr, s := 0, (0, 0);
      var ok := SelectRun(page);
      if ok {
        var i := TakeObject();
        s := (current, i);
        InPage(s, size);
        ptr := current + HEADER + size * i;
      }
    }

    // arena_free for a small object.
    method Free(ptr: nat, ghost s: Slot)
      requires Valid() && s in Live(runs) && ptr == Addr(s, size)
      modifies this
      ensures Valid() && Live(runs) == old(Live(runs)) - {s} && nFree == old(nFree) + 1
    {
      hide Everything, Live, Idle, Capacity;
      LiveSlot(runs, current, head, list, Capacity(size), s);
      AddrInverse(s, size);
      var p := ptr / PAGE * PAGE;
      var i := (ptr - p - HEADER) / size;
      GiveKeeps(runs, current, head, list, Capacity(size), p, i);
      var run := runs[p];
      run := run.(bitmap := run.bitmap[i := false], free := run.free + 1);
      nFree := nFree + 1;
      if p != current && run.free == 1 {
        run := run.(next := head);
        head := p;
        list := [p] + list;
      }
      runs := runs[p := run];
    }
  }

  // A run with idle objects has a clear bit.
  lemma SearchSucceeds(rs: Runs, current: nat, head: nat, l: seq<nat>, cap: nat, i: nat)
    requires Everything(rs, current, head, l, cap) && current in rs && rs[current].free > 0
    requires i <= |rs[current].bitmap| && forall j :: 0 <= j < i ==> rs[current].bitmap[j]
    ensures i < |rs[current].bitmap|
  {
    var k :| k in ClearBits(rs[current].bitmap);
  }

  // A run changes, but not its place on or off the list.
  lemma SameList(rs: Runs, current: nat, head: nat, l: seq<nat>, p: nat, r: Run)
    requires Listed(rs, current, l) && Linked(rs, head, l) && p in rs && r.next == rs[p].next
    requires p == current || (r.free > 0 <==> rs[p].free > 0)
    ensures Listed(rs[p := r], current, l) && Linked(rs[p := r], head, l)
  {
  }

  // A run that was full becomes the first of the list.
  lemma NewFirst(rs: Runs, current: nat, head: nat, l: seq<nat>, p: nat, r: Run)
    requires Listed(rs, current, l) && Linked(rs, head, l) && p in rs && p != current && rs[p].free == 0
    requires r.next == head && r.free > 0
    ensures Listed(rs[p := r], current, [p] + l) && Linked(rs[p := r], p, [p] + l)
  {
    var l' := [p] + l;
    assert p !in l;
    forall q
      ensures q in l' <==> q == p || q in l
    {
    }
    forall j | 0 <= j < |l'|
      ensures l'[j] in rs && rs[p := r][l'[j]].next == After(l', j)
    {
      if j > 0 {
        assert l'[j] == l[j - 1] && l[j - 1] in l;
      }
    }
  }

  // The runs after object i of run p has been handed out.
  function Taken(rs: Runs, p: nat, i: nat): Runs
    requires p in rs && i < |rs[p].bitmap| && rs[p].free > 0
  {
    rs[p := rs[p].(bitmap := rs[p].bitmap[i := true], free := rs[p].free - 1)]
  }

  lemma TakeKeeps(rs: Runs, current: nat, head: nat, l: seq<nat>, cap: nat, i: nat)
    requires Everything(rs, current, head, l, cap) && current in rs && rs[current].free > 0
    requires i < |rs[current].bitmap| && !rs[current].bitmap[i]
    ensures var rs' := Taken(rs, current, i);
            && Everything(rs', current, head, l, cap) && |rs'| == |rs| && current % PAGE == 0 && i < cap
            && Live(rs') == Live(rs) + {(current, i)} && (current, i) !in Live(rs) && |Idle(rs')| == |Idle(rs)| - 1
  {
    hide ClearBits, Live, Idle, Listed, Linked;
    var r := Taken(rs, current, i)[current];
    SetBit(rs[current].bitmap, i, true);
    Switched(rs, current, i, r);
    SameList(rs, current, head, l, current, r);
    assert Taken(rs, current, i).Keys == rs.Keys;
  }

  // The runs after object i has been given back to run p, which is put on the list if it was full.
  function Given(rs: Runs, current: nat, head: nat, p: nat, i: nat): Runs
    requires p in rs && i < |rs[p].bitmap|
  {
    var r := rs[p];
    rs[p := Run(r.bitmap[i := false], r.free + 1, if p != current && r.free == 0 then head else r.next)]
  }

  function ListWith(rs: Runs, current: nat, l: seq<nat>, p: nat): seq<nat>
    requires p in rs
  {
    if p != current && rs[p].free == 0 then [p] + l else l
  }

  lemma FirstOf(rs: Runs, head: nat, l: seq<nat>)
    requires Linked(rs, head, l)
    ensures head == After(l, -1)
  {
  }

  lemma GiveListed(rs: Runs, current: nat, head: nat, l: seq<nat>, p: nat, i: nat)
    requires Listed(rs, current, l) && Linked(rs, head, l) && p in rs && i < |rs[p].bitmap|
    ensures var rs', l' := Given(rs, current, head, p, i), ListWith(rs, current, l, p);
            Listed(rs', current, l') && Linked(rs', After(l', -1), l') && (l' == l ==> After(l', -1) == head)
  {
    var r := Given(rs, current, head, p, i)[p];
    hide Listed, Linked;
    if p != current && rs[p].free == 0 {
      NewFirst(rs, current, head, l, p, r);
    } else {
      SameList(rs, current, head, l, p, r);
      FirstOf(rs, head, l);
    }
  }

  lemma GiveKeeps(rs: Runs, current: nat, head: nat, l: seq<nat>, cap: nat, p: nat, i: nat)
    requires Everything(rs, current, head, l, cap) && p in rs && i < |rs[p].bitmap| && rs[p].bitmap[i]
    ensures var rs', l' := Given(rs, current, head, p, i), ListWith(rs, current, l, p);
            && Everything(rs', current, After(l', -1), l', cap) && (l' == l ==> After(l', -1) == head)
            && |rs'| == |rs| && Live(rs') == Live(rs) - {(p, i)} && |Idle(rs')| == |Idle(rs)| + 1
  {
    hide ClearBits, Live, Idle, Listed, Linked, ListWith;
    SetBit(rs[p].bitmap, i, false);
    Switched(rs, p, i, Given(rs, current, head, p, i)[p]);
    GiveListed(rs, current, head, l, p, i);
    assert Given(rs, current, head, p, i).Keys == rs.Keys;
  }

  lemma RunSize(rs: Runs, current: nat, head: nat, l: seq<nat>, cap: nat)
    requires Everything(rs, current, head, l, cap) && current in rs
    ensures |rs[current].bitmap| == cap && current != 0
  {
  }

  lemma LiveSlot(rs: Runs, current: nat, head: nat, l: seq<nat>, cap: nat, s: Slot)
    requires Everything(rs, current, head, l, cap) && s in Live(rs)
    ensures s.0 in rs && s.0 % PAGE == 0 && |rs[s.0].bitmap| == cap && s.1 < cap && rs[s.0].bitmap[s.1]
  {
  }

  lemma CurrentRun(rs: Runs, current: nat, head: nat, l: seq<nat>, cap: nat)
    requires Everything(rs, current, head, l, cap)
    ensures 0 !in rs && (current == 0 || current in rs)
  {
  }

  lemma Roomy(size: nat)
    requires 0 < size <= SMALL_MAX
    ensures Capacity(size) > 0
  {
    var q, r := (PAGE - HEADER) / size, (PAGE - HEADER) % size;
    assert PAGE - HEADER == q * size + r;
  }

  // A new run becomes the current one.
  lemma OpenKeeps(rs: Runs, current: nat, head: nat, l: seq<nat>, cap: nat, p: nat)
    requires Everything(rs, current, head, l, cap) && Idle(rs) == {} && p !in rs && p != 0 && p % PAGE == 0
    ensures Everything(rs[p := Run(Blank(cap), cap, 0)], p, head, l, cap)
  {
    hide Idle, ClearBits;
    NothingListed(rs, current, l, cap);
    AllClear(cap);
  }

  // The first run of the list becomes the current one.
  lemma NextKeeps(rs: Runs, current: nat, head: nat, l: seq<nat>, cap: nat)
    requires Everything(rs, current, head, l, cap) && Idle(rs) != {} && (current in rs ==> rs[current].free == 0)
    ensures head in rs && rs[head].free > 0 && |l| > 0 && Everything(rs, head, rs[head].next, l[1..], cap)
  {
    SomeListed(rs, current, l, cap);
    hide Idle, RunsOk;
    var l' := l[1..];
    assert head == l[0] && l[0] in l;
    forall q
      ensures q in l' <==> q in l && q != head
    {
      assert q in l ==> exists j :: 0 <= j < |l| && l[j] == q;
    }
    assert forall j :: 0 <= j < |l'| ==> l'[j] == l[j + 1];
  }

  lemma NothingListed(rs: Runs, current: nat, l: seq<nat>, cap: nat)
    requires RunsOk(rs, cap) && Listed(rs, current, l) && Idle(rs) == {}
    ensures l == [] && forall p :: p in rs ==> rs[p].free == 0
  {
    assert |l| > 0 ==> l[0] in l;
    forall p | p in rs
      ensures rs[p].free == 0
    {
      assert forall i :: i in ClearBits(rs[p].bitmap) ==> (p, i) in Idle(rs);
      assert ClearBits(rs[p].bitmap) == {};
    }
  }
}
