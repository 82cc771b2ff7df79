// The parallel marker can always be completed: a measure of the work that is left, which some thread
// lowers within three steps.
module ParallelProgress {
  import opened MarkTheory
  import opened ParallelMarker

  //
  // Entries.
  //

  ghost function Costs(l: seq<Entry>): nat {
    if l == [] then 0 else Costs(l[..|l| - 1]) + Cost(l[|l| - 1].len)
  }

  lemma {:induction false} CostsJoin(a: seq<Entry>, b: seq<Entry>)
    ensures Costs(a + b) == Costs(a) + Costs(b)
  {
    if b == [] {
      assert a + b == a;
    } else {
      CostsJoin(a, b[..|b| - 1]);
      assert (a + b)[..|a + b| - 1] == a + b[..|b| - 1];
    }
  }

  lemma CostsSplit(l: seq<Entry>, k: nat)
    requires k <= |l|
    ensures Costs(l) == Costs(l[..k]) + Costs(l[k..])
  {
    assert l == l[..k] + l[k..];
    CostsJoin(l[..k], l[k..]);
  }

  lemma CostsPush(l: seq<Entry>, e: Entry)
    ensures Costs(l + [e]) == Costs(l) + Cost(e.len)
  {
    assert (l + [e])[..|l|] == l;
  }

  lemma {:induction false} SlotCleared(l: seq<Entry>, p: nat, e: Entry)
    requires p < |l| && e.len == 0
    ensures Costs(l[p := e]) == Costs(l) - Cost(l[p].len)
  {
    var k := |l| - 1;
    if p < k {
      SlotCleared(l[..k], p, e);
      assert l[p := e][..k] == l[..k][p := e];
    } else {
      assert l[p := e][..k] == l[..k];
    }
  }

  // Scanning the first part of the topmost range.
  lemma TakenCosts(rest: seq<Entry>, e: Entry)
    ensures Costs(Taken(rest, e, Chunk(e.len))) + Chunk(e.len) <= Costs(rest + [e])
  {
    var n := Chunk(e.len);
    CostsPush(rest, e);
    if n < e.len {
      CostsPush(rest, Entry(e.start + n, e.len - n));
    }
  }

  lemma HalvedCosts(l: seq<Entry>)
    requires Shared(l)
    ensures Costs(Halved(l)) < Costs(l)
  {
    var e, rest := l[|l| - 1], l[..|l| - 1];
    var a, b := Entry(e.start, e.len / 2 + 1), Entry(e.start + e.len / 2, e.len - e.len / 2);
    CostsPush(rest, a);
    CostsPush(rest + [a], b);
  }

  //
  // Threads.
  //

  function Left(lo: nat, hi: nat): nat {
    if lo < hi then hi - lo else 0
  }

  function ObjectCost(h: Heap, o: nat): nat {
    if o < |h.objs| then Cost(h.objs[o].len) else 0
  }

  // The words that thread th holds: those to be scanned at some time count more than those being
  // scanned, and these more than a used-up credit.
  ghost function Burden(h: Heap, th: Thread): nat {
    4 * Costs(th.local)
    + (if th.pc.Clear? || th.pc.Grab? then 4 * Cost(th.len) else 0)
    + (if Scanning(th.pc) then 2 * Left(th.lo, th.hi) else 0)
    + (if th.pc.SetBit? || th.pc.Push? then 4 * ObjectCost(h, th.obj) else 0)
    + (if th.credit < 0 then 1 else 0)
  }

  ghost function Burdens(h: Heap, ths: seq<Thread>): nat {
    if ths == [] then 0 else Burdens(h, ths[..|ths| - 1]) + Burden(h, ths[|ths| - 1])
  }

  lemma {:induction false} BurdensUpdate(h: Heap, ths: seq<Thread>, t: nat, th: Thread)
    requires t < |ths|
    ensures Burdens(h, ths[t := th]) == Burdens(h, ths) - Burden(h, ths[t]) + Burden(h, th)
  {
    hide Burden;
    var k := |ths| - 1;
    if t < k {
      BurdensUpdate(h, ths[..k], t, th);
      assert ths[t := th][..k] == ths[..k][t := th];
    } else {
      assert ths[t := th][..k] == ths[..k];
    }
  }

  // What returning an entry may cost all n threads.
  function Toll(n: nat): nat {
    35 * n + 20
  }

  // The steps that thread th has left, with n threads and the global stack up to top.
  ghost function Weight(top: int, n: nat, th: Thread): int {
    var d, e := 20 * (top + 1 - th.myFirst) + 2 * |th.local|, 20 * (top + 1 - th.p) + 2 * |th.local|;
    match th.pc
    case Outside => 0
    case Joined => 20 * (top + 1) + 16
    case Loop => d + 14
    case Sync => d + 13
    case Load => d + 12
    case Check => d + 11
    case Waiting => if d == 0 then 3 else d + 15
    case Steal => e + if th.p == th.myFirst then 10 else 18
    case Clear => e + 4
    case Grab => e + 3
    case Mark => d + 16
    case Scan => d + 17
    case SetBit => d + 19
    case Push => d + 18
    case Return => d + th.count * Toll(n) + 18
    case Publish => d + th.count * Toll(n) + 17
    case Closing => 2
    case Draining => 1
    case Finished => 0
  }

  ghost function Weights(top: int, n: nat, ths: seq<Thread>): int {
    if ths == [] then 0 else Weights(top, n, ths[..|ths| - 1]) + Weight(top, n, ths[|ths| - 1])
  }

  lemma {:induction false} WeightsUpdate(top: int, n: nat, ths: seq<Thread>, t: nat, th: Thread)
    requires t < |ths|
    ensures Weights(top, n, ths[t := th]) == Weights(top, n, ths) - Weight(top, n, ths[t]) + Weight(top, n, th)
  {
    hide Weight;
    var k := |ths| - 1;
    if t < k {
      WeightsUpdate(top, n, ths[..k], t, th);
      assert ths[t := th][..k] == ths[..k][t := th];
    } else {
      assert ths[t := th][..k] == ths[..k];
    }
  }

  lemma WeightHigher(top: int, n: nat, th: Thread, k: nat)
    ensures Weight(top + k, n, th) <= Weight(top, n, th) + 35 * k
  {
  }

  lemma {:induction false} WeightsHigher(top: int, n: nat, ths: seq<Thread>, k: nat)
    ensures Weights(top + k, n, ths) <= Weights(top, n, ths) + 35 * k * |ths|
  {
    hide Weight;
    if ths != [] {
      WeightsHigher(top, n, ths[..|ths| - 1], k);
      WeightHigher(top, n, ths[|ths| - 1], k);
      assert 35 * k * |ths| == 35 * k * (|ths| - 1) + 35 * k;
    }
  }

  //
  // The measure.
  //

  ghost function WordsLeft(s: State): nat
    requires -1 <= s.top < |s.stack|
  {
    4 * Costs(s.stack[..s.top + 1]) + Burdens(s.h, s.threads)
  }

  ghost function WorkLeft(s: State): int {
    20 * (s.top + 1 - s.first) + Weights(s.top, |s.threads|, s.threads)
  }

  ghost predicate Lower(s': State, s: State) {
    && -1 <= s.top < |s.stack| && -1 <= s'.top < |s'.stack|
    && (|| Unmarked(s'.marks) < Unmarked(s.marks)
        || (&& Unmarked(s'.marks) == Unmarked(s.marks)
            && (WordsLeft(s') < WordsLeft(s) || (WordsLeft(s') == WordsLeft(s) && WorkLeft(s') < WorkLeft(s)))))
  }

  lemma WeightIsNat(s: State, t: nat)
    requires Inv(s) && t < |s.threads|
    ensures Weight(s.top, |s.threads|, s.threads[t]) >= 0
  {
    hide Coverage, GlobalLive, MarkedReachable, ThreadLive, Vacant, ActiveSet, HelperSet, Toll;
    assert ThreadInv(s, t);
  }

  lemma {:induction false} WeightsAreNat(s: State, k: nat)
    requires Inv(s) && k <= |s.threads|
    ensures Weights(s.top, |s.threads|, s.threads[..k]) >= 0
  {
    hide Inv, Weight;
    if k > 0 {
      WeightsAreNat(s, k - 1);
      WeightIsNat(s, k - 1);
      assert s.threads[..k][..k - 1] == s.threads[..k - 1];
    }
  }

  lemma WorkIsNat(s: State)
    requires Inv(s)
    ensures -1 <= s.top < |s.stack| && WorkLeft(s) >= 0
  {
    WeightsAreNat(s, |s.threads|);
    assert s.threads[..|s.threads|] == s.threads;
  }

  // Thread th has less left to do than before, if the first entry moves from f to f'.
  ghost predicate Less(h: Heap, top: int, n: nat, th': Thread, f': nat, th: Thread, f: nat) {
    || Burden(h, th') < Burden(h, th)
    || (Burden(h, th') == Burden(h, th) && Weight(top, n, th') + 20 * (f - f') < Weight(top, n, th))
  }

  // A step of thread t that leaves the global stack and the marks alone.
  lemma OwnStep(s: State, s': State, t: nat)
    requires -1 <= s.top < |s.stack| && t < |s.threads| && s'.h == s.h && s'.marks == s.marks
    requires s'.stack == s.stack && s'.top == s.top
    requires |s'.threads| == |s.threads| && s'.threads == s.threads[t := s'.threads[t]]
    requires Less(s.h, s.top, |s.threads|, s'.threads[t], s'.first, s.threads[t], s.first)
    ensures Lower(s', s)
  {
    hide Weight, Burden, Unmarked, Costs;
    WeightsUpdate(s.top, |s.threads|, s.threads, t, s'.threads[t]);
    BurdensUpdate(s.h, s.threads, t, s'.threads[t]);
  }

  //
  // Some steps that lower the measure.
  //

  // The steps of path lead from s to s'.
  ghost predicate Leads(s: State, path: seq<(nat, Action)>, s': State)
    decreases |path|
  {
    if path == [] then s' == s
    else Enabled(s, path[0].0, path[0].1) && Leads(Do(s, path[0].0, path[0].1), path[1..], s')
  }

  lemma LeadsOne(s: State, t: nat, a: Action)
    requires Enabled(s, t, a)
    ensures Leads(s, [(t, a)], Do(s, t, a))
  {
    hide Do;
    assert [(t, a)][1..] == [];
  }

  lemma LeadsTwo(s: State, t: nat, a: Action, b: Action)
    requires Enabled(s, t, a) && Enabled(Do(s, t, a), t, b)
    ensures Leads(s, [(t, a), (t, b)], Do(Do(s, t, a), t, b))
  {
    hide Do;
    LeadsOne(Do(s, t, a), t, b);
    assert [(t, a), (t, b)][1..] == [(t, b)];
  }

  // Where thread th is, in numbers.
  ghost predicate Placed(s: State, th: Thread) {
    && -1 <= s.top < |s.stack| && s.first <= s.top + 1 && |s.marks| == |s.h.objs|
    && (IsActive(th.pc) || th.pc.Waiting? ==> th.myFirst <= s.top + 1)
    && (th.pc.Sync? ==> th.seen <= s.first)
    && (Stealing(th.pc) ==> th.myFirst <= th.p <= th.myTop + 1 <= s.top + 1 && th.myFirst <= th.myTop)
    && (Stealing(th.pc) && th.p == th.myFirst ==> th.local == [])
    && (th.pc.Clear? || th.pc.Grab? ==> th.p <= th.myTop)
    && (!Working(th.pc) ==> th.local == [])
    && (th.pc.SetBit? || th.pc.Push? ==> th.lo < th.hi && th.obj < |s.h.objs|)
    && (th.pc.Return? || th.pc.Publish? ==> th.count <= |th.local|)
  }

  lemma Facts(s: State, t: nat)
    requires Inv(s) && t < |s.threads|
    ensures Placed(s, s.threads[t])
  {
    hide Coverage, GlobalLive, MarkedReachable, ThreadLive, Vacant, ActiveSet, HelperSet;
    assert ThreadInv(s, t);
  }

  // Thread t can take step a, and it lowers the measure.
  ghost predicate Good(s: State, t: nat, a: Action) {
    t < |s.threads| && Enabled(s, t, a) && Lower(Do(s, t, a), s)
  }

  // A single step of thread t that leaves the global stack and the marks alone.
  lemma OneStep(s: State, t: nat, a: Action, s': State)
    requires -1 <= s.top < |s.stack| && t < |s.threads| && Enabled(s, t, a) && s' == Do(s, t, a)
    requires s'.h == s.h && s'.marks == s.marks && s'.stack == s.stack && s'.top == s.top
    requires |s'.threads| == |s.threads| && s'.threads == s.threads[t := s'.threads[t]]
    requires Less(s.h, s.top, |s.threads|, s'.threads[t], s'.first, s.threads[t], s.first)
    ensures Good(s, t, a)
  {
    hide Less, Do, Enabled, Lower;
    OwnStep(s, s', t);
  }

  // Threads that look for work.
  lemma LoopLowers(s: State, t: nat)
    requires t < |s.threads| && Placed(s, s.threads[t]) && s.threads[t].pc.Loop?
    ensures Good(s, t, Coordinate(LoadFirst))
  {
    hide Good, Costs, Cost, Toll;
    OneStep(s, t, Coordinate(LoadFirst), Do(s, t, Coordinate(LoadFirst)));
  }

  lemma SyncLowers(s: State, t: nat)
    requires t < |s.threads| && Placed(s, s.threads[t]) && s.threads[t].pc.Sync?
    ensures Good(s, t, Coordinate(SyncFirst))
  {
    hide Good, Less, Working, Stealing;
    var th, a := s.threads[t], Coordinate(SyncFirst);
    SyncedLess(s.h, s.top, |s.threads|, th, th.myFirst, s.first);
    if th.myFirst < th.seen {
      SyncedLess(s.h, s.top, |s.threads|, th, th.seen, s.first);
      OneStep(s, t, a, Put(s, t, th.(pc := Load, myFirst := th.seen)));
    } else if th.seen < th.myFirst && s.first == th.seen {
      OneStep(s, t, a, Put(s.(first := th.myFirst), t, th.(pc := Load)));
    } else {
      OneStep(s, t, a, Put(s, t, th.(pc := Load)));
    }
  }

  lemma SyncedLess(h: Heap, top: int, n: nat, th: Thread, first: nat, f: nat)
    requires th.pc.Sync? && first >= th.myFirst
    ensures Less(h, top, n, th.(pc := Load, myFirst := first), f, th, f)
    ensures f <= th.myFirst ==> Less(h, top, n, th.(pc := Load, myFirst := first), th.myFirst, th, f)
  {
    hide Costs, Cost, Toll;
  }

  lemma LoadLowers(s: State, t: nat)
    requires t < |s.threads| && Placed(s, s.threads[t]) && s.threads[t].pc.Load?
    ensures Good(s, t, Coordinate(LoadTop))
  {
    hide Good, Costs, Cost, Toll;
    OneStep(s, t, Coordinate(LoadTop), Do(s, t, Coordinate(LoadTop)));
  }

  lemma CheckLowers(s: State, t: nat)
    requires t < |s.threads| && Placed(s, s.threads[t]) && s.threads[t].pc.Check? && !s.lock
    ensures Good(s, t, Coordinate(CheckTop))
  {
    hide Good, Less;
    var th, a := s.threads[t], Coordinate(CheckTop);
    CheckedLess(s.h, s.top, |s.threads|, th, s.first);
    if s.top - th.myFirst + 1 == 0 {
      OneStep(s, t, a, Put(s.(active := s.active - 1), t, th.(myTop := s.top, pc := Waiting)));
    } else {
      OneStep(s, t, a, Put(s, t, th.(myTop := s.top, p := th.myFirst, pc := Steal)));
    }
  }

  lemma CheckedLess(h: Heap, top: int, n: nat, th: Thread, f: nat)
    requires th.pc.Check? && th.local == []
    ensures top - th.myFirst + 1 == 0 ==> Less(h, top, n, th.(myTop := top, pc := Waiting), f, th, f)
    ensures Less(h, top, n, th.(myTop := top, p := th.myFirst, pc := Steal), f, th, f)
  {
    hide Costs, Cost, Toll;
  }

  // Threads that steal.
  lemma GrabLowers(s: State, t: nat)
    requires t < |s.threads| && Placed(s, s.threads[t]) && s.threads[t].pc.Grab? && s.threads[t].p < |s.stack|
    ensures Good(s, t, Thieve(GrabEntry))
  {
    var th := s.threads[t];
    CostsPush(th.local, Entry(s.stack[th.p].start, th.len));
    hide Good, Costs, Cost, Toll;
    OneStep(s, t, Thieve(GrabEntry), Do(s, t, Thieve(GrabEntry)));
  }

  lemma StealStopLowers(s: State, t: nat)
    requires t < |s.threads| && Placed(s, s.threads[t]) && s.threads[t].pc.Steal? && Sated(s.threads[t])
    ensures Good(s, t, Thieve(StealStop))
  {
    hide Good, Costs, Cost, Toll;
    OneStep(s, t, Thieve(StealStop), Do(s, t, Thieve(StealStop)));
  }

  lemma StealVacantLowers(s: State, t: nat)
    requires t < |s.threads| && Placed(s, s.threads[t]) && s.threads[t].pc.Steal? && !Sated(s.threads[t])
    requires s.stack[s.threads[t].p].len == 0
    ensures Good(s, t, Thieve(StealRead))
  {
    hide Good, Costs, Cost, Toll, Loot, Quota;
    OneStep(s, t, Thieve(StealRead), Do(s, t, Thieve(StealRead)));
  }

  // Clearing slot p of the global stack.
  lemma ClearSlots(s: State, p: nat)
    requires -1 <= s.top < |s.stack| && p <= s.top
    ensures var stack' := s.stack[p := s.stack[p].(len := 0)];
            Costs(stack'[..s.top + 1]) == Costs(s.stack[..s.top + 1]) - Cost(s.stack[p].len)
  {
    var l, e := s.stack[..s.top + 1], s.stack[p].(len := 0);
    assert s.stack[p := e][..s.top + 1] == l[p := e];
    SlotCleared(l, p, e);
  }

  lemma ClearLowers(s: State, t: nat)
    requires t < |s.threads| && Placed(s, s.threads[t]) && s.threads[t].pc.Clear?
    ensures Good(s, t, Thieve(ClearSlot))
  {
    hide Costs, Cost, Burden, Weight, Unmarked;
    var th := s.threads[t];
    var s' := Do(s, t, Thieve(ClearSlot));
    ClearSlots(s, th.p);
    ClearedLess(s.h, s.top, |s.threads|, th);
    WeightsUpdate(s.top, |s.threads|, s.threads, t, s'.threads[t]);
    BurdensUpdate(s.h, s.threads, t, s'.threads[t]);
  }

  lemma ClearedLess(h: Heap, top: int, n: nat, th: Thread)
    requires th.pc.Clear?
    ensures var th' := th.(pc := Grab); Burden(h, th') == Burden(h, th) && Weight(top, n, th') < Weight(top, n, th)
  {
    hide Costs, Cost, Toll;
  }

  // Reading and clearing a slot that holds an entry.
  lemma StealLowers(s: State, t: nat)
    requires t < |s.threads| && Placed(s, s.threads[t]) && s.threads[t].pc.Steal? && !Sated(s.threads[t])
    requires s.stack[s.threads[t].p].len > 0
    ensures Enabled(s, t, Thieve(StealRead))
    ensures var s1 := Do(s, t, Thieve(StealRead));
            Enabled(s1, t, Thieve(ClearSlot)) && Lower(Do(s1, t, Thieve(ClearSlot)), s)
  {
    hide Costs, Cost, Burden, Weight, Unmarked, Loot, Quota;
    var th := s.threads[t];
    var s1 := Do(s, t, Thieve(StealRead));
    var s2 := Do(s1, t, Thieve(ClearSlot));
    ClearSlots(s, th.p);
    StolenLess(s.h, s.top, |s.threads|, th, s.stack[th.p].len);
    WeightsUpdate(s.top, |s.threads|, s.threads, t, s2.threads[t]);
    BurdensUpdate(s.h, s.threads, t, s2.threads[t]);
    assert s2.threads == s.threads[t := s2.threads[t]];
  }

  lemma StolenLess(h: Heap, top: int, n: nat, th: Thread, len: nat)
    requires th.pc.Steal?
    ensures var th' := th.(len := len, pc := Grab);
            Burden(h, th') == Burden(h, th) + 4 * Cost(len) && Weight(top, n, th') < Weight(top, n, th)
  {
    hide Costs, Cost, Toll;
  }

  // Threads that mark.
  lemma NoWorkLowers(s: State, t: nat)
    requires t < |s.threads| && Placed(s, s.threads[t]) && s.threads[t].pc.Mark? && s.threads[t].local == []
    ensures Good(s, t, DoMark(NoWork))
  {
    hide Good, Costs, Cost, Toll;
    OneStep(s, t, DoMark(NoWork), Do(s, t, DoMark(NoWork)));
  }

  lemma TakeLowers(s: State, t: nat)
    requires t < |s.threads| && Placed(s, s.threads[t]) && MayMark(s, t, Take)
    ensures Good(s, t, DoMark(Take))
  {
    var th := s.threads[t];
    var k := |th.local| - 1;
    assert th.local == th.local[..k] + [th.local[k]];
    TakenCosts(th.local[..k], th.local[k]);
    hide Good, Costs, Cost, Toll, Shared;
    OneStep(s, t, DoMark(Take), Do(s, t, DoMark(Take)));
  }

  lemma SplitLowers(s: State, t: nat)
    requires t < |s.threads| && Placed(s, s.threads[t]) && MayMark(s, t, Split)
    ensures Good(s, t, DoMark(Split))
  {
    hide Good, Less, Costs, Shared, Halved, IsActive, Working, Stealing;
    var th := s.threads[t];
    HalvedCosts(th.local);
    LocalLess(s.h, s.top, |s.threads|, th, Halved(th.local), s.first);
    OneStep(s, t, DoMark(Split), Put(s, t, th.(local := Halved(th.local))));
  }

  lemma LocalLess(h: Heap, top: int, n: nat, th: Thread, local: seq<Entry>, f: nat)
    requires Costs(local) < Costs(th.local)
    ensures Less(h, top, n, th.(local := local), f, th, f)
  {
    hide Costs, Cost, Weight;
  }

  lemma RenewLowers(s: State, t: nat)
    requires t < |s.threads| && Placed(s, s.threads[t]) && MayMark(s, t, Renew)
    ensures Good(s, t, DoMark(Renew))
  {
    hide Good, Costs, Cost, Toll;
    OneStep(s, t, DoMark(Renew), Do(s, t, DoMark(Renew)));
  }

  lemma GiveLowers(s: State, t: nat)
    requires t < |s.threads| && Placed(s, s.threads[t]) && MayGive(s, t, Give)
    ensures Good(s, t, GiveBack(Give))
  {
    hide Good, Costs, Cost, Toll;
    OneStep(s, t, GiveBack(Give), Do(s, t, GiveBack(Give)));
  }

  lemma NextMarkLowers(s: State, t: nat)
    requires t < |s.threads| && Placed(s, s.threads[t]) && s.threads[t].pc.Mark?
    ensures Good(s, t, NextMark(s, s.threads[t]))
  {
    hide Good, Placed;
    match NextMark(s, s.threads[t])
    case DoMark(NoWork) => NoWorkLowers(s, t);
    case DoMark(Take) => TakeLowers(s, t);
    case DoMark(Split) => SplitLowers(s, t);
    case DoMark(Renew) => RenewLowers(s, t);
    case GiveBack(Give) => GiveLowers(s, t);
  }

  // Whether the next word is a pointer to an object that is not marked.
  predicate Fresh(s: State, th: Thread) {
    && th.lo < th.hi && th.lo < |s.h.words| && s.h.words[th.lo].Ptr?
    && !(s.h.words[th.lo].obj < |s.marks| && s.marks[s.h.words[th.lo].obj])
  }

  lemma ScanLowers(s: State, t: nat)
    requires t < |s.threads| && Placed(s, s.threads[t]) && s.threads[t].pc.Scan? && !Fresh(s, s.threads[t])
    ensures Good(s, t, DoMark(ScanWord))
  {
    hide Good, Less, IsActive, Working, Stealing;
    ScannedLess(s.h, s.top, |s.threads|, s.threads[t], s.first);
    OneStep(s, t, DoMark(ScanWord), Do(s, t, DoMark(ScanWord)));
  }

  lemma ScannedLess(h: Heap, top: int, n: nat, th: Thread, f: nat)
    requires th.pc.Scan?
    ensures th.lo >= th.hi ==> Less(h, top, n, th.(pc := Mark), f, th, f)
    ensures th.lo < th.hi ==> Less(h, top, n, th.(lo := th.lo + 1), f, th, f)
  {
    hide Costs, Cost, Toll;
  }

  // Scanning a pointer and marking its object.
  lemma MarkLowers(s: State, t: nat)
    requires t < |s.threads| && Placed(s, s.threads[t]) && s.threads[t].pc.Scan?
    requires Fresh(s, s.threads[t]) && WellFormed(s.h)
    ensures Enabled(s, t, DoMark(ScanWord))
    ensures var s1 := Do(s, t, DoMark(ScanWord));
            Enabled(s1, t, DoMark(SetMark)) && Lower(Do(s1, t, DoMark(SetMark)), s)
  {
    hide WordsLeft, WorkLeft, Unmarked;
    UnmarkedDrops(s.marks, s.h.words[s.threads[t].lo].obj);
  }

  lemma SetMarkLowers(s: State, t: nat)
    requires t < |s.threads| && Placed(s, s.threads[t]) && s.threads[t].pc.SetBit?
    ensures Good(s, t, DoMark(SetMark))
  {
    hide Costs, Cost, Toll, Unmarked;
    var th := s.threads[t];
    var s' := Do(s, t, DoMark(SetMark));
    WeightsUpdate(s.top, |s.threads|, s.threads, t, s'.threads[t]);
    BurdensUpdate(s.h, s.threads, t, s'.threads[t]);
    if s.marks[th.obj] {
      assert s'.marks == s.marks;
    } else {
      UnmarkedDrops(s.marks, th.obj);
    }
  }

  lemma PushedLess(h: Heap, top: int, n: nat, th: Thread, local: seq<Entry>, f: nat)
    requires th.pc.Push? && th.lo < th.hi && Costs(local) <= Costs(th.local) + ObjectCost(h, th.obj)
    ensures Less(h, top, n, th.(local := local, lo := th.lo + 1, pc := Scan), f, th, f)
  {
    hide Costs, Toll, ObjectCost;
  }

  lemma PushLowers(s: State, t: nat)
    requires t < |s.threads| && Placed(s, s.threads[t]) && s.threads[t].pc.Push?
    ensures Good(s, t, DoMark(PushObject))
  {
    hide Good, Costs, Cost, Less, IsActive, Working, Stealing;
    var th, a := s.threads[t], DoMark(PushObject);
    var o := s.h.objs[th.obj];
    var e, next := Entry(o.first, o.len), th.(lo := th.lo + 1, pc := Scan);
    PushCosts(th.local, e);
    if o.len == 0 {
      PushedLess(s.h, s.top, |s.threads|, th, th.local, s.first);
      OneStep(s, t, a, Put(s, t, next));
    } else if |th.local| < LOCAL_STACK {
      PushedLess(s.h, s.top, |s.threads|, th, th.local + [e], s.first);
      OneStep(s, t, a, Put(s, t, next.(local := th.local + [e])));
    } else {
      var local := th.local[..LOCAL_STACK - DISCARDS] + [e];
      PushedLess(s.h, s.top, |s.threads|, th, local, s.first);
      OneStep(s, t, a, Put(s.(invalid := true), t, next.(local := local)));
    }
  }

  lemma PushCosts(l: seq<Entry>, e: Entry)
    ensures Costs(l + [e]) == Costs(l) + Cost(e.len)
    ensures |l| >= LOCAL_STACK ==> Costs(l[..LOCAL_STACK - DISCARDS] + [e]) <= Costs(l) + Cost(e.len)
  {
    CostsPush(l, e);
    if |l| >= LOCAL_STACK {
      CostsSplit(l, LOCAL_STACK - DISCARDS);
      CostsPush(l[..LOCAL_STACK - DISCARDS], e);
    }
  }

  // Threads that give entries back.
  lemma ReturnLowers(s: State, t: nat)
    requires t < |s.threads| && Placed(s, s.threads[t]) && s.threads[t].pc.Return? && !s.lock
    ensures Good(s, t, GiveBack(CopyBack))
  {
    hide Costs, Cost, Burden, Burdens, Weight, Weights, Unmarked, IsActive, Working, Stealing;
    var th, s' := s.threads[t], Do(s, t, GiveBack(CopyBack));
    ReturnedLess(s.h, s.top, |s.threads|, th);
    WeightsUpdate(s.top, |s.threads|, s.threads, t, s'.threads[t]);
    BurdensUpdate(s.h, s.threads, t, s'.threads[t]);
    assert s'.stack[..s.top + 1] == s.stack[..s.top + 1];
  }

  lemma ReturnedLess(h: Heap, top: int, n: nat, th: Thread)
    requires th.pc.Return? && th.count <= |th.local|
    ensures var th1 := th.(pc := Publish);
            Burden(h, th1) == Burden(h, th) && Weight(top, n, th1) < Weight(top, n, th)
    ensures var th2 := th.(local := th.local[th.count..], pc := Mark);
            Burden(h, th2) <= Burden(h, th) && Weight(top, n, th2) < Weight(top, n, th)
  {
    hide Costs, Cost, Toll;
    CostsSplit(th.local, th.count);
    TollIsNat(th.count, n);
  }

  lemma TollIsNat(k: nat, n: nat)
    ensures k * Toll(n) >= 0 && k * Toll(n) == 35 * k * n + 20 * k
  {
  }

  lemma AdvanceLowers(s: State, t: nat)
    requires t < |s.threads| && Placed(s, s.threads[t]) && s.threads[t].pc.Publish?
    requires s.top + 1 + s.threads[t].count <= |s.stack|
    requires s.stack[s.top + 1..s.top + 1 + s.threads[t].count] == s.threads[t].local[..s.threads[t].count]
    ensures Good(s, t, GiveBack(Advance))
  {
    hide Costs, Cost, Toll, Burden, Burdens, Unmarked, Weight, Weights, IsActive, Working, Stealing;
    var th, s', n := s.threads[t], Do(s, t, GiveBack(Advance)), |s.threads|;
    var k := th.count;
    assert s.stack[..s.top + k + 1] == s.stack[..s.top + 1] + th.local[..k];
    CostsJoin(s.stack[..s.top + 1], th.local[..k]);
    WeightsHigher(s.top, n, s.threads, k);
    WeightsUpdate(s.top + k, n, s.threads, t, s'.threads[t]);
    BurdensUpdate(s.h, s.threads, t, s'.threads[t]);
    AdvancedLess(s.h, s.top + k, n, th);
  }

  lemma AdvancedLess(h: Heap, top: int, n: nat, th: Thread)
    requires th.pc.Publish? && th.count <= |th.local|
    ensures var th' := th.(local := th.local[th.count..], pc := Mark);
            && Burden(h, th') + 4 * Costs(th.local[..th.count]) == Burden(h, th)
            && Weight(top, n, th') + 35 * th.count * n + 20 * th.count < Weight(top, n, th)
  {
    hide Costs, Cost, Toll;
    CostsSplit(th.local, th.count);
    TollIsNat(th.count, n);
  }

  // Threads that join, wait and leave.
  lemma ActivateLowers(s: State, t: nat)
    requires t < |s.threads| && Placed(s, s.threads[t]) && s.threads[t].pc.Joined? && !s.lock
    ensures Good(s, t, Coordinate(Activate))
  {
    hide Good, Costs, Cost, Toll;
    OneStep(s, t, Coordinate(Activate), Do(s, t, Coordinate(Activate)));
  }

  lemma LeaveLowers(s: State, t: nat)
    requires t < |s.threads| && Placed(s, s.threads[t]) && s.threads[t].pc.Waiting? && !s.lock
    requires s.active == 0 && s.first > s.top
    ensures Good(s, t, Coordinate(Leave))
  {
    hide Good, Costs, Cost, Toll;
    OneStep(s, t, Coordinate(Leave), Do(s, t, Coordinate(Leave)));
  }

  lemma ResumeLowers(s: State, t: nat)
    requires t < |s.threads| && Placed(s, s.threads[t]) && s.threads[t].pc.Waiting? && !s.lock
    requires s.threads[t].myFirst <= s.top
    ensures Good(s, t, Coordinate(Resume))
  {
    hide Good, Costs, Cost, Toll;
    OneStep(s, t, Coordinate(Resume), Do(s, t, Coordinate(Resume)));
  }

  // A thread that has seen the whole global stack brings the shared position up to date.
  lemma CatchUpLowers(s: State, t: nat) returns (s1: State, s2: State, s3: State)
    requires t < |s.threads| && Placed(s, s.threads[t]) && s.threads[t].pc.Waiting? && !s.lock
    requires s.threads[t].myFirst == s.top + 1 && s.first <= s.top
    ensures Enabled(s, t, Coordinate(Resume)) && s1 == Do(s, t, Coordinate(Resume))
    ensures Enabled(s1, t, Coordinate(LoadFirst)) && s2 == Do(s1, t, Coordinate(LoadFirst))
    ensures Enabled(s2, t, Coordinate(SyncFirst)) && s3 == Do(s2, t, Coordinate(SyncFirst))
    ensures Lower(s3, s)
  {
    hide Costs, Cost, Toll, Lower, Unmarked;
    s1 := Do(s, t, Coordinate(Resume));
    s2 := Do(s1, t, Coordinate(LoadFirst));
    s3 := Do(s2, t, Coordinate(SyncFirst));
    assert s3.threads == s.threads[t := s3.threads[t]];
    OwnStep(s, s3, t);
  }

  lemma CloseLowers(s: State)
    requires |s.threads| > 0 && Placed(s, s.threads[0]) && s.threads[0].pc.Closing? && !s.lock
    ensures Good(s, 0, Coordinate(Close))
  {
    hide Good, Costs, Cost, Toll;
    OneStep(s, 0, Coordinate(Close), Do(s, 0, Coordinate(Close)));
  }

  lemma DrainLowers(s: State)
    requires |s.threads| > 0 && Placed(s, s.threads[0]) && s.threads[0].pc.Draining? && !s.lock && s.helpers == 0
    ensures Good(s, 0, Coordinate(Drain))
  {
    hide Good, Costs, Cost, Toll;
    OneStep(s, 0, Coordinate(Drain), Do(s, 0, Coordinate(Drain)));
  }

  //
  // Completing a run.
  //

  // Some path of at most three steps lowers the measure.
  ghost predicate Improves(s: State, path: seq<(nat, Action)>, s': State) {
    0 < |path| <= 3 && Leads(s, path, s') && Lower(s', s)
  }

  lemma GoodImproves(s: State, t: nat, a: Action)
    requires Good(s, t, a)
    ensures Enabled(s, t, a) && Improves(s, [(t, a)], Do(s, t, a))
  {
    hide Lower, Do, Leads;
    LeadsOne(s, t, a);
  }

  lemma TwoImprove(s: State, t: nat, a: Action, b: Action)
    requires Enabled(s, t, a) && Enabled(Do(s, t, a), t, b) && Lower(Do(Do(s, t, a), t, b), s)
    ensures Improves(s, [(t, a), (t, b)], Do(Do(s, t, a), t, b))
  {
    hide Lower, Do, Leads;
    LeadsTwo(s, t, a, b);
  }

  lemma StealImproves(s: State, t: nat) returns (path: seq<(nat, Action)>, s': State)
    requires t < |s.threads| && Placed(s, s.threads[t]) && s.threads[t].pc.Steal?
    ensures Improves(s, path, s')
  {
    hide Improves, Good, Lower, IsActive, Working, Loot, Quota;
    var th := s.threads[t];
    var a := Thieve(if Sated(th) then StealStop else StealRead);
    if Sated(th) {
      StealStopLowers(s, t);
    } else if s.stack[th.p].len == 0 {
      StealVacantLowers(s, t);
    } else {
      StealLowers(s, t);
      TwoImprove(s, t, a, Thieve(ClearSlot));
      path, s' := [(t, a), (t, Thieve(ClearSlot))], Do(Do(s, t, a), t, Thieve(ClearSlot));
      return;
    }
    GoodImproves(s, t, a);
    path, s' := [(t, a)], Do(s, t, a);
  }

  lemma ScanImproves(s: State, t: nat) returns (path: seq<(nat, Action)>, s': State)
    requires t < |s.threads| && Placed(s, s.threads[t]) && s.threads[t].pc.Scan? && WellFormed(s.h)
    ensures Improves(s, path, s')
  {
    hide Improves, Good, Lower, IsActive, Working, WellFormed, Placed, Fresh;
    var a := DoMark(ScanWord);
    if Fresh(s, s.threads[t]) {
      MarkLowers(s, t);
      TwoImprove(s, t, a, DoMark(SetMark));
      path, s' := [(t, a), (t, DoMark(SetMark))], Do(Do(s, t, a), t, DoMark(SetMark));
    } else {
      ScanLowers(s, t);
      GoodImproves(s, t, a);
      path, s' := [(t, a)], Do(s, t, a);
    }
  }

  // The action of the other active threads.
  lemma ActiveLowers(s: State, t: nat) returns (a: Action)
    requires t < |s.threads| && Placed(s, s.threads[t]) && IsActive(s.threads[t].pc) && !s.lock
    requires !s.threads[t].pc.Steal? && !s.threads[t].pc.Scan? && !s.threads[t].pc.Publish?
    ensures Good(s, t, a)
  {
    hide Good;
    var th := s.threads[t];
    match th.pc
    case Loop => LoopLowers(s, t); a := Coordinate(LoadFirst);
    case Sync => SyncLowers(s, t); a := Coordinate(SyncFirst);
    case Load => LoadLowers(s, t); a := Coordinate(LoadTop);
    case Check => CheckLowers(s, t); a := Coordinate(CheckTop);
    case Clear => ClearLowers(s, t); a := Thieve(ClearSlot);
    case Grab => GrabLowers(s, t); a := Thieve(GrabEntry);
    case Mark => NextMarkLowers(s, t); a := NextMark(s, th);
    case SetBit => SetMarkLowers(s, t); a := DoMark(SetMark);
    case Push => PushLowers(s, t); a := DoMark(PushObject);
    case Return => ReturnLowers(s, t); a := GiveBack(CopyBack);
  }

  lemma ActiveImproves(s: State, t: nat) returns (path: seq<(nat, Action)>, s': State)
    requires t < |s.threads| && Placed(s, s.threads[t]) && IsActive(s.threads[t].pc) && !s.lock
    requires WellFormed(s.h) && !s.threads[t].pc.Publish?
    ensures Improves(s, path, s')
  {
    hide Improves, Good, Placed, WellFormed;
    if s.threads[t].pc.Steal? {
      path, s' := StealImproves(s, t);
    } else if s.threads[t].pc.Scan? {
      path, s' := ScanImproves(s, t);
    } else {
      var a := ActiveLowers(s, t);
      GoodImproves(s, t, a);
      path, s' := [(t, a)], Do(s, t, a);
    }
  }

  lemma WaitingImproves(s: State, t: nat) returns (path: seq<(nat, Action)>, s': State)
    requires t < |s.threads| && Placed(s, s.threads[t]) && s.threads[t].pc.Waiting? && !s.lock && s.active == 0
    ensures Improves(s, path, s')
  {
    hide Good, Lower, Do;
    var a := Coordinate(if s.first > s.top then Leave else Resume);
    if s.first > s.top {
      LeaveLowers(s, t);
    } else if s.threads[t].myFirst <= s.top {
      ResumeLowers(s, t);
    } else {
      var s1, s2, s3 := CatchUpLowers(s, t);
      var b, c := Coordinate(LoadFirst), Coordinate(SyncFirst);
      LeadsTwo(s1, t, b, c);
      path, s' := [(t, a), (t, b), (t, c)], s3;
      assert path[1..] == [(t, b), (t, c)];
      return;
    }
    GoodImproves(s, t, a);
    path, s' := [(t, a)], Do(s, t, a);
  }

  // The thread that holds the mark lock.
  lemma PublishImproves(s: State) returns (path: seq<(nat, Action)>, s': State)
    requires Inv(s) && s.lock
    ensures Improves(s, path, s')
  {
    hide Improves, Good, Coverage, GlobalLive, MarkedReachable, ThreadLive, Vacant, ActiveSet, HelperSet;
    var t: nat :| t < |s.threads| && s.threads[t].pc.Publish?;
    assert ThreadInv(s, t);
    Facts(s, t);
    AdvanceLowers(s, t);
    GoodImproves(s, t, GiveBack(Advance));
    path, s' := [(t, GiveBack(Advance))], Do(s, t, GiveBack(Advance));
  }

  // As long as the initiating thread has not returned, some thread can lower the measure.
  lemma SomebodyImproves(s: State) returns (path: seq<(nat, Action)>, s': State)
    requires Inv(s) && |s.threads| > 0 && !s.threads[0].pc.Outside? && !s.threads[0].pc.Finished?
    ensures Improves(s, path, s')
  {
    hide Improves, Good, Placed, Coverage, GlobalLive, MarkedReachable, ThreadInv, Vacant, ActiveSet, HelperSet;
    if s.lock {
      path, s' := PublishImproves(s);
    } else if s.active > 0 {
      var t := SomeActive(s);
      Facts(s, t);
      NoPublish(s, t);
      path, s' := ActiveImproves(s, t);
    } else if s.helpers > 0 {
      var t := SomeHelper(s);
      NobodyActive(s, t);
      Facts(s, t);
      if s.threads[t].pc.Joined? {
        ActivateLowers(s, t);
        GoodImproves(s, t, Coordinate(Activate));
        path, s' := [(t, Coordinate(Activate))], Do(s, t, Coordinate(Activate));
      } else {
        path, s' := WaitingImproves(s, t);
      }
    } else {
      NobodyHelps(s);
      Facts(s, 0);
      var a := Coordinate(if s.threads[0].pc.Closing? then Close else Drain);
      if s.threads[0].pc.Closing? {
        CloseLowers(s);
      } else {
        DrainLowers(s);
      }
      GoodImproves(s, 0, a);
      path, s' := [(0, a)], Do(s, 0, a);
    }
  }

  lemma NoPublish(s: State, t: nat)
    requires Inv(s) && !s.lock && t < |s.threads|
    ensures !s.threads[t].pc.Publish?
  {
    assert ThreadInv(s, t);
  }

  lemma NobodyHelps(s: State)
    requires s.helpers == |HelperSet(s.threads)| <= 0 && |s.threads| > 0
    ensures !IsHelper(s.threads[0].pc)
  {
    assert IsHelper(s.threads[0].pc) ==> 0 in HelperSet(s.threads);
  }

  // The initiating thread stays in, and the invariant holds.
  ghost predicate Begun(s: State) {
    Inv(s) && |s.threads| > 0 && !s.threads[0].pc.Outside?
  }

  lemma PutIn()
    ensures forall s: State, t: nat, th: Thread {:trigger Put(s, t, th)} ::
              t < |s.threads| && !s.threads[0].pc.Outside? && (t == 0 ==> !th.pc.Outside?) ==>
                |Put(s, t, th).threads| == |s.threads| && !Put(s, t, th).threads[0].pc.Outside?
  {
  }

  lemma JoinStays(s: State, t: nat, a: Coordination)
    requires MayCoordinate(s, t, a) && !s.threads[0].pc.Outside?
    requires a.Begin? || a.Join? || a.Activate? || a.Leave? || a.Resume? || a.Close? || a.Drain?
    ensures |CoordinateStep(s, t, a).threads| == |s.threads| && !CoordinateStep(s, t, a).threads[0].pc.Outside?
  {
    hide Put;
    PutIn();
  }

  lemma SeekStays(s: State, t: nat, a: Coordination)
    requires MayCoordinate(s, t, a) && !s.threads[0].pc.Outside?
    requires a.LoadFirst? || a.SyncFirst? || a.LoadTop? || a.CheckTop?
    ensures |CoordinateStep(s, t, a).threads| == |s.threads| && !CoordinateStep(s, t, a).threads[0].pc.Outside?
  {
    hide Put;
    PutIn();
  }

  lemma StealStays(s: State, t: nat, a: Theft)
    requires MaySteal(s, t, a) && !s.threads[0].pc.Outside?
    ensures |StealStep(s, t, a).threads| == |s.threads| && !StealStep(s, t, a).threads[0].pc.Outside?
  {
    hide Put;
    PutIn();
  }

  lemma TakeStays(s: State, t: nat, a: Marking)
    requires MayMark(s, t, a) && (a.NoWork? || a.Take? || a.Split? || a.Renew?) && !s.threads[0].pc.Outside?
    ensures |MarkStep(s, t, a).threads| == |s.threads| && !MarkStep(s, t, a).threads[0].pc.Outside?
  {
    hide Put;
    PutIn();
  }

  lemma ScanStays(s: State, t: nat, a: Marking)
    requires MayMark(s, t, a) && (a.ScanWord? || a.SetMark?) && !s.threads[0].pc.Outside?
    ensures |MarkStep(s, t, a).threads| == |s.threads| && !MarkStep(s, t, a).threads[0].pc.Outside?
  {
    hide Put;
    PutIn();
  }

  lemma PushStays(s: State, t: nat)
    requires MayMark(s, t, PushObject) && !s.threads[0].pc.Outside?
    ensures |MarkStep(s, t, PushObject).threads| == |s.threads| && !MarkStep(s, t, PushObject).threads[0].pc.Outside?
  {
    hide Put;
    PutIn();
  }

  lemma GiveStays(s: State, t: nat, a: Giving)
    requires MayGive(s, t, a) && !s.threads[0].pc.Outside?
    ensures |GiveStep(s, t, a).threads| == |s.threads| && !GiveStep(s, t, a).threads[0].pc.Outside?
  {
    hide Put;
    PutIn();
  }

  lemma StaysIn(s: State, t: nat, a: Action)
    requires Enabled(s, t, a) && |s.threads| > 0 && !s.threads[0].pc.Outside?
    ensures |Do(s, t, a).threads| > 0 && !Do(s, t, a).threads[0].pc.Outside?
  {
    hide CoordinateStep, StealStep, MarkStep, GiveStep, MayCoordinate, MaySteal, MayMark, MayGive;
    match a
    case Coordinate(c) =>
      if c.LoadFirst? || c.SyncFirst? || c.LoadTop? || c.CheckTop? {
        SeekStays(s, t, c);
      } else {
        JoinStays(s, t, c);
      }
    case Thieve(x) => StealStays(s, t, x);
    case DoMark(m) =>
      if m.PushObject? {
        PushStays(s, t);
      } else if m.ScanWord? || m.SetMark? {
        ScanStays(s, t, m);
      } else {
        TakeStays(s, t, m);
      }
    case GiveBack(g) => GiveStays(s, t, g);
  }

  lemma StepBegun(s: State, t: nat, a: Action)
    requires Begun(s) && Enabled(s, t, a)
    ensures Begun(Do(s, t, a))
  {
    hide Inv, Do, Enabled;
    StaysIn(s, t, a);
    StepKeeps(s, t, a);
  }

  lemma {:induction false} LeadsBegun(s: State, path: seq<(nat, Action)>, s': State)
    requires Begun(s) && Leads(s, path, s')
    ensures Begun(s')
    decreases |path|
  {
    hide Begun, Do, Enabled;
    if path != [] {
      StepBegun(s, path[0].0, path[0].1);
      LeadsBegun(Do(s, path[0].0, path[0].1), path[1..], s');
    }
  }

  lemma {:induction false} LeadsOn(s: State, p: seq<(nat, Action)>, s1: State, q: seq<(nat, Action)>, s2: State)
    requires Leads(s, p, s1) && Leads(s1, q, s2)
    ensures Leads(s, p + q, s2)
    decreases |p|
  {
    hide Do, Enabled;
    if p == [] {
      assert p + q == q;
    } else {
      LeadsOn(Do(s, p[0].0, p[0].1), p[1..], s1, q, s2);
      assert (p + q)[1..] == p[1..] + q;
    }
  }

  lemma {:induction false} FinishFrom(s: State) returns (path: seq<(nat, Action)>, s': State)
    requires Begun(s)
    ensures Leads(s, path, s') && Begun(s') && s'.threads[0].pc.Finished?
    decreases Unmarked(s.marks), WordsLeft(s), WorkLeft(s)
  {
    hide Inv, Leads;
    if s.threads[0].pc.Finished? {
      path, s' := [], s;
      LeadsNowhere(s);
    } else {
      WorkIsNat(s);
      var p, s1 := SomebodyImproves(s);
      LeadsBegun(s, p, s1);
      var q, s2 := FinishFrom(s1);
      LeadsOn(s, p, s1, q, s2);
      path, s' := p + q, s2;
    }
  }

  lemma LeadsNowhere(s: State)
    ensures Leads(s, [], s)
  {
  }

  // A run goes on along a path.
  lemma {:induction false} Continue(states: seq<State>, schedule: seq<(nat, Action)>, path: seq<(nat, Action)>,
                                    s': State)
    returns (states': seq<State>)
    requires Run(states, schedule) && Leads(states[|schedule|], path, s')
    ensures Run(states', schedule + path) && states <= states' && states'[|schedule + path|] == s'
    decreases |path|
  {
    hide Init, Do, Enabled;
    if path == [] {
      assert schedule + path == schedule;
      states' := states;
    } else {
      var s1 := Do(states[|schedule|], path[0].0, path[0].1);
      states' := Continue(states + [s1], schedule + [path[0]], path[1..], s');
      assert schedule + [path[0]] + path[1..] == schedule + path;
    }
  }

  // Every run in which the initiating thread has begun can be continued until it has returned.
  lemma CanFinish(states: seq<State>, schedule: seq<(nat, Action)>)
    returns (states': seq<State>, schedule': seq<(nat, Action)>)
    requires Run(states, schedule)
    requires |states[|schedule|].threads| > 0 && !states[|schedule|].threads[0].pc.Outside?
    ensures Run(states', schedule') && states <= states' && schedule <= schedule'
    ensures |states'[|schedule'|].threads| > 0 && states'[|schedule'|].threads[0].pc.Finished?
  {
    hide Init, Inv, Do, Enabled;
    RunInv(states, schedule, |schedule|);
    var path, s' := FinishFrom(states[|schedule|]);
    states' := Continue(states, schedule, path, s');
    schedule' := schedule + path;
  }
}
