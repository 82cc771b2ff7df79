// Makalu's parallel marker: any number of threads share a global mark stack, steal entries from its
// bottom, mark from local stacks and return surplus entries on top.  Each action below is one atomic
// step of one thread; runs interleave them arbitrarily.
module ParallelMarker {
  import opened MarkTheory

  const LOCAL_STACK := 4096
  const ENTRIES_TO_GET := 5

  datatype PC =
    | Outside                        // not part of this mark cycle
    | Joined                         // counted as a helper
    | Loop | Sync | Load | Check     // looking for work
    | Waiting                        // counted as inactive, waiting for work or for the end
    | Steal | Clear | Grab           // stealing from the global stack
    | Mark | Scan | SetBit | Push    // marking from the local stack
    | Return | Publish               // giving entries back
    | Closing | Draining | Finished  // the initiating thread after its own part

  // The local variables of a thread.
  datatype Thread = Thread(pc: PC, myFirst: nat, myTop: int, seen: nat, local: seq<Entry>, p: nat, len: nat,
                           lo: nat, hi: nat, obj: nat, count: nat, credit: int)

  // A slot of the global stack is vacant if its length is zero.  lock: the mark lock is held across
  // steps.  over: some thread has found that all work is done.  cleared: marking began with clear marks.
  datatype State = State(h: Heap, marks: seq<bool>, stack: seq<Entry>, top: int, first: nat, invalid: bool,
                         active: int, helpers: int, helpWanted: bool, lock: bool, threads: seq<Thread>, over: bool,
                         cleared: bool)

  // Joining, leaving and looking for work.
  datatype Coordination =
    | Begin | Join | Activate | LoadFirst | SyncFirst | LoadTop | CheckTop | Leave | Resume | Close | Drain
  // Taking entries from the global stack.
  datatype Theft = StealStop | StealRead | ClearSlot | GrabEntry
  // Marking from the local stack.
  datatype Marking = NoWork | Take | Split | Renew | ScanWord | SetMark | PushObject
  // Returning entries to the global stack.
  datatype Giving = Give | CopyBack | Advance

  datatype Action = Coordinate(c: Coordination) | Thieve(x: Theft) | DoMark(m: Marking) | GiveBack(g: Giving)

  predicate MayCoordinate(s: State, t: nat, a: Coordination) {
    t < |s.threads| &&
    var th := s.threads[t];
    match a
    case Begin => t == 0 && th.pc.Outside? && !s.lock && !s.helpWanted && s.active == 0 && s.helpers == 0 && !s.over
    case Join => t > 0 && th.pc.Outside? && !s.lock && s.helpWanted
    case Activate => th.pc.Joined? && !s.lock
    case LoadFirst => th.pc.Loop?
    case SyncFirst => th.pc.Sync?
    case LoadTop => th.pc.Load?
    case CheckTop => th.pc.Check? && !s.lock
    case Leave => th.pc.Waiting? && !s.lock && s.active == 0 && s.first > s.top
    case Resume => th.pc.Waiting? && !s.lock
    case Close => t == 0 && th.pc.Closing? && !s.lock
    case Drain => t == 0 && th.pc.Draining? && !s.lock && s.helpers == 0
  }

  // What a thief has got, where a large range counts as several entries.
  function Loot(l: seq<Entry>): nat {
    if l == [] then 0 else Loot(l[..|l| - 1]) + 1 + l[|l| - 1].len / 32
  }

  function Quota(th: Thread): nat {
    if th.myTop - th.myFirst + 1 < 2 * ENTRIES_TO_GET then 1 else ENTRIES_TO_GET
  }

  // The thief has reached the end of the stack or has got enough.
  predicate Sated(th: Thread) {
    th.p > th.myTop || Loot(th.local) > Quota(th)
  }

  // The topmost range is large, and there is room to share it out.
  predicate Shared(l: seq<Entry>) {
    l != [] && l[|l| - 1].len > SHARE_WORDS && |l| < LOCAL_STACK
  }

  // The local stack is so full that all of it is returned.
  predicate HalfFull(l: seq<Entry>) {
    |l| > LOCAL_STACK / 2
  }

  predicate MaySteal(s: State, t: nat, a: Theft) {
    t < |s.threads| &&
    var th := s.threads[t];
    match a
    case StealStop => th.pc.Steal? && Sated(th)
    case StealRead => th.pc.Steal? && !Sated(th) && th.p < |s.stack|
    case ClearSlot => th.pc.Clear? && th.p < |s.stack|
    case GrabEntry => th.pc.Grab? && th.p < |s.stack|
  }

  predicate MayMark(s: State, t: nat, a: Marking) {
    t < |s.threads| &&
    var th := s.threads[t];
    match a
    case NoWork => th.pc.Mark? && th.local == []
    case Take => th.pc.Mark? && th.local != [] && th.credit >= 0 && !Shared(th.local)
    case Split => th.pc.Mark? && th.local != [] && th.credit >= 0 && Shared(th.local)
    case Renew => th.pc.Mark? && th.local != [] && th.credit < 0 && !HalfFull(th.local)
    case ScanWord => th.pc.Scan?
    case SetMark => th.pc.SetBit?
    case PushObject => th.pc.Push? && th.obj < |s.h.objs|
  }

  predicate MayGive(s: State, t: nat, a: Giving) {
    t < |s.threads| &&
    var th := s.threads[t];
    match a
    case Give => th.pc.Mark? && |th.local| >= 3 && th.credit < 0
    case CopyBack => th.pc.Return? && !s.lock && th.count <= |th.local| && -1 <= s.top < |s.stack|
    case Advance => th.pc.Publish? && th.count <= |th.local|
  }

  predicate Enabled(s: State, t: nat, a: Action) {
    match a
    case Coordinate(c) => MayCoordinate(s, t, c)
    case Thieve(x) => MaySteal(s, t, x)
    case DoMark(m) => MayMark(s, t, m)
    case GiveBack(g) => MayGive(s, t, g)
  }

  function Put(s: State, t: nat, th: Thread): State
    requires t < |s.threads|
  {
    s.(threads := s.threads[t := th])
  }

  function CoordinateStep(s: State, t: nat, a: Coordination): State
    requires MayCoordinate(s, t, a)
  {
    var th := s.threads[t];
    match a
    case Begin =>
      Put(s.(first := 0, active := 0, helpers := 1, helpWanted := true), t, th.(pc := Joined))
    case Join =>
      Put(s.(helpers := s.helpers + 1), t, th.(pc := Joined))
    case Activate =>
      Put(s.(active := s.active + 1), t, th.(pc := Loop, myFirst := s.first))
    case LoadFirst =>
      Put(s, t, th.(pc := Sync, seen := s.first))
    case SyncFirst =>
      if th.myFirst < th.seen then
        Put(s, t, th.(pc := Load, myFirst := th.seen))
      else if th.seen < th.myFirst && s.first == th.seen then
        Put(s.(first := th.myFirst), t, th.(pc := Load))
      else
        Put(s, t, th.(pc := Load))
    case LoadTop =>
      Put(s, t, th.(myTop := s.top, p := th.myFirst, pc := if s.top - th.myFirst + 1 == 0 then Check else Steal))
    case CheckTop =>
      if s.top - th.myFirst + 1 == 0 then
        Put(s.(active := s.active - 1), t, th.(myTop := s.top, pc := Waiting))
      else
        Put(s, t, th.(myTop := s.top, p := th.myFirst, pc := Steal))
    case Leave =>
      Put(s.(helpers := s.helpers - 1, over := true), t, th.(pc := if t == 0 then Closing else Outside))
    case Resume =>
      Put(s.(active := s.active + 1), t, th.(pc := Loop))
    case Close =>
      Put(s.(helpWanted := false), t, th.(pc := Draining))
    case Drain =>
      Put(s, t, th.(pc := Finished))
  }

  function StealStep(s: State, t: nat, a: Theft): State
    requires MaySteal(s, t, a)
  {
    var th := s.threads[t];
    match a
    case StealStop =>
      Put(s, t, th.(pc := Mark, myFirst := th.p, credit := CREDIT_WORDS))
    case StealRead =>
      if s.stack[th.p].len == 0 then
        Put(s, t, th.(p := th.p + 1))
      else
        Put(s, t, th.(len := s.stack[th.p].len, pc := Clear))
    case ClearSlot =>
      Put(s.(stack := s.stack[th.p := s.stack[th.p].(len := 0)]), t, th.(pc := Grab))
    case GrabEntry =>
      Put(s, t, th.(local := th.local + [Entry(s.stack[th.p].start, th.len)], p := th.p + 1, pc := Steal))
  }

  function MarkStep(s: State, t: nat, a: Marking): State
    requires MayMark(s, t, a)
  {
    var th := s.threads[t];
    match a
    case NoWork =>
      Put(s, t, th.(pc := Loop))
    case Take =>
      // A small range is taken as a whole, of a large one the first part.
      var k := |th.local| - 1;
      var e := th.local[k];
      var n := Chunk(e.len);
      Put(s, t, th.(local := Taken(th.local[..k], e, n), lo := e.start, hi := e.start + n, credit := th.credit - n,
                    pc := Scan))
    case Split =>
      // A large range is shared out as two overlapping ones.
      Put(s, t, th.(local := Halved(th.local)))
    case Renew =>
      // The credit is used up and nothing is returned.
      Put(s, t, th.(credit := CREDIT_WORDS))
    case ScanWord =>
      if th.lo >= th.hi then
        Put(s, t, th.(pc := Mark))
      else if th.lo < |s.h.words| && s.h.words[th.lo].Ptr?
          && !(s.h.words[th.lo].obj < |s.marks| && s.marks[s.h.words[th.lo].obj]) then
        Put(s, t, th.(obj := s.h.words[th.lo].obj, pc := SetBit))
      else
        Put(s, t, th.(lo := th.lo + 1))
    case SetMark =>
      Put(s.(marks := if th.obj < |s.marks| then s.marks[th.obj := true] else s.marks), t, th.(pc := Push))
    case PushObject =>
      var o := s.h.objs[th.obj];
      if o.len == 0 then
        Put(s, t, th.(lo := th.lo + 1, pc := Scan))
      else if |th.local| < LOCAL_STACK then
        Put(s, t, th.(local := th.local + [Entry(o.first, o.len)], lo := th.lo + 1, pc := Scan))
      else
        Put(s.(invalid := true), t,
            th.(local := th.local[..LOCAL_STACK - DISCARDS] + [Entry(o.first, o.len)], lo := th.lo + 1, pc := Scan))
  }

  function GiveStep(s: State, t: nat, a: Giving): State
    requires MayGive(s, t, a)
  {
    var th := s.threads[t];
    match a
    case Give =>
      // All of a local stack that is half full, or else the lower half of it.
      var l := |th.local|;
      Put(s, t, th.(count := if HalfFull(th.local) then l else (l - 1) / 2, credit := CREDIT_WORDS, pc := Return))
    case CopyBack =>
      if s.top + 1 + th.count > |s.stack| then
        Put(s.(invalid := true), t, th.(local := th.local[th.count..], pc := Mark))
      else
        Put(s.(stack := s.stack[..s.top + 1] + th.local[..th.count] + s.stack[s.top + 1 + th.count..], lock := true), t,
            th.(pc := Publish))
    case Advance =>
      Put(s.(top := s.top + th.count, lock := false), t, th.(local := th.local[th.count..], pc := Mark))
  }

  function Do(s: State, t: nat, a: Action): State
    requires Enabled(s, t, a)
  {
    match a
    case Coordinate(c) => CoordinateStep(s, t, c)
    case Thieve(x) => StealStep(s, t, x)
    case DoMark(m) => MarkStep(s, t, m)
    case GiveBack(g) => GiveStep(s, t, g)
  }

  //
  // What a thread still has to scan.
  //

  ghost predicate InEntry(e: Entry, w: nat) {
    e.start <= w < e.start + e.len
  }

  ghost predicate HoldsWord(h: Heap, stack: seq<Entry>, th: Thread, w: nat) {
    || Stacked(th.local, w)
    || (th.pc.Grab? && th.p < |stack| && InEntry(Entry(stack[th.p].start, th.len), w))
    || (Scanning(th.pc) && th.lo <= w < th.hi)
    || (th.pc.Push? && th.obj < |h.objs| && OfObject(h, th.obj, w))
  }

  ghost predicate InGlobal(stack: seq<Entry>, top: int, w: nat) {
    exists p: nat :: p <= top && p < |stack| && InEntry(stack[p], w)
  }

  ghost predicate Held(s: State, w: nat) {
    InGlobal(s.stack, s.top, w) || exists j: nat :: j < |s.threads| && HoldsWord(s.h, s.stack, s.threads[j], w)
  }

  // Word w needs no further attention, or is still to be scanned by someone.
  ghost predicate Settled(s: State, w: nat) {
    w < |s.h.words| && s.h.words[w].Ptr? ==> IsMarked(s.marks, s.h.words[w].obj) || Held(s, w)
  }

  ghost predicate Coverage(s: State) {
    forall w: nat :: LiveWord(s.h, s.marks, w) ==> Settled(s, w)
  }

  predicate Seeking(pc: PC) {
    pc.Loop? || pc.Sync? || pc.Load? || pc.Check?
  }

  predicate Stealing(pc: PC) {
    pc.Steal? || pc.Clear? || pc.Grab?
  }

  predicate Scanning(pc: PC) {
    pc.Scan? || pc.SetBit? || pc.Push?
  }

  // The thread may have entries on its local stack.
  predicate Working(pc: PC) {
    Stealing(pc) || pc.Mark? || Scanning(pc) || pc.Return? || pc.Publish?
  }

  predicate IsActive(pc: PC) {
    Seeking(pc) || Working(pc)
  }

  predicate IsHelper(pc: PC) {
    IsActive(pc) || pc.Joined? || pc.Waiting?
  }

  predicate IsDone(pc: PC) {
    pc.Closing? || pc.Draining? || pc.Finished?
  }

  ghost predicate Vacant(stack: seq<Entry>, p: nat) {
    forall q: nat :: q < p && q < |stack| ==> stack[q].len == 0
  }

  // The bookkeeping of one thread agrees with the global stack.
  ghost predicate Position(s: State, th: Thread) {
    && (IsActive(th.pc) || th.pc.Waiting? ==> th.myFirst <= s.top + 1 && Vacant(s.stack, th.myFirst))
    && (th.pc.Sync? ==> th.seen <= s.first)
    && (Stealing(th.pc) ==> th.myFirst <= th.p <= th.myTop + 1 <= s.top + 1 && Vacant(s.stack, th.p))
    && (Stealing(th.pc) ==> th.myFirst <= th.myTop && (th.p == th.myFirst ==> th.local == []))
    && (th.pc.Clear? || th.pc.Grab? ==> th.p <= th.myTop && th.p < |s.stack| && th.len > 0)
    && (th.pc.Grab? ==> s.stack[th.p].len == 0)
    && (th.pc.Clear? ==> s.stack[th.p].len == 0 || s.stack[th.p].len == th.len)
    && (th.pc.Return? || th.pc.Publish? ==> th.count <= |th.local|)
    && (th.pc.Publish? ==> s.lock && 0 <= s.top + 1 && s.top + 1 + th.count <= |s.stack|
                           && s.stack[s.top + 1..s.top + 1 + th.count] == th.local[..th.count])
  }

  // Only words of the roots and of marked objects are ever to be scanned.
  ghost predicate ThreadLive(h: Heap, m: seq<bool>, stack: seq<Entry>, th: Thread) {
    && EntriesLive(h, m, th.local)
    && (th.pc.Clear? || th.pc.Grab? ==>
          th.p < |stack| && RangeLive(h, m, stack[th.p].start, stack[th.p].start + th.len))
    && (Scanning(th.pc) ==> RangeLive(h, m, th.lo, th.hi))
  }

  ghost predicate ThreadInv(s: State, t: nat)
    requires t < |s.threads|
  {
    var th := s.threads[t];
    && Position(s, th)
    && ThreadLive(s.h, s.marks, s.stack, th)
    && (IsDone(th.pc) ==> t == 0 && s.over)
    && (th.pc.SetBit? || th.pc.Push? ==> th.lo < th.hi && PointsTo(s.h, th.lo, th.obj))
    && (th.pc.Push? ==> IsMarked(s.marks, th.obj))
    && (!Working(th.pc) ==> th.local == [])
    && (s.over ==> Resting(th))
  }

  // The thread has nothing left to scan.
  ghost predicate Resting(th: Thread) {
    && th.local == []
    && !(th.pc.Clear? || th.pc.Grab? || th.pc.SetBit? || th.pc.Push? || th.pc.Return? || th.pc.Publish?)
    && (th.pc.Scan? ==> th.lo >= th.hi)
  }

  ghost function ActiveSet(ths: seq<Thread>): set<nat> {
    set t: nat | t < |ths| && IsActive(ths[t].pc)
  }

  ghost function HelperSet(ths: seq<Thread>): set<nat> {
    set t: nat | t < |ths| && IsHelper(ths[t].pc)
  }

  ghost predicate GlobalLive(h: Heap, m: seq<bool>, stack: seq<Entry>, top: int) {
    forall p: nat :: p <= top && p < |stack| ==> RangeLive(h, m, stack[p].start, stack[p].start + stack[p].len)
  }

  ghost predicate Global(s: State) {
    && WellFormed(s.h) && |s.marks| == |s.h.objs|
    && -1 <= s.top < |s.stack|
    && s.first <= s.top + 1 && Vacant(s.stack, s.first)
    && s.active == |ActiveSet(s.threads)| && s.helpers == |HelperSet(s.threads)|
    && GlobalLive(s.h, s.marks, s.stack, s.top)
    && (s.cleared ==> MarkedReachable(s.h, s.marks))
    && (s.over ==> s.first > s.top)
    && (s.lock ==> exists t: nat :: t < |s.threads| && s.threads[t].pc.Publish?)
    && (forall t: nat, u: nat :: t < u < |s.threads| && s.threads[t].pc.Publish? ==> !s.threads[u].pc.Publish?)
  }

  ghost predicate Inv(s: State) {
    && Global(s)
    && (forall t: nat :: t < |s.threads| ==> ThreadInv(s, t))
    && (!s.invalid ==> Coverage(s))
  }

  //
  // Counting threads.
  //

  lemma SwapCount(a: set<nat>, b: set<nat>, t: nat)
    requires a - {t} == b - {t}
    ensures |b| == |a| - (if t in a then 1 else 0) + (if t in b then 1 else 0)
  {
    assert a == if t in a then (a - {t}) + {t} else a - {t};
    assert b == if t in b then (b - {t}) + {t} else b - {t};
  }

  lemma CountUpdate(ths: seq<Thread>, t: nat, th: Thread)
    requires t < |ths|
    ensures |ActiveSet(ths[t := th])| ==
            |ActiveSet(ths)| - (if IsActive(ths[t].pc) then 1 else 0) + (if IsActive(th.pc) then 1 else 0)
    ensures |HelperSet(ths[t := th])| ==
            |HelperSet(ths)| - (if IsHelper(ths[t].pc) then 1 else 0) + (if IsHelper(th.pc) then 1 else 0)
  {
    var ths' := ths[t := th];
    SwapCount(ActiveSet(ths), ActiveSet(ths'), t);
    SwapCount(HelperSet(ths), HelperSet(ths'), t);
  }

  //
  // Passing words on.
  //

  ghost predicate WordDone(s: State, w: nat) {
    w < |s.h.words| && s.h.words[w].Ptr? ==> IsMarked(s.marks, s.h.words[w].obj)
  }

  // A step of thread t that loses no word: what t held or what was on the global stack is still
  // held by t, still on the global stack, or finished.
  lemma CoverageKept(s: State, s': State, t: nat)
    requires t < |s.threads| && s'.h == s.h && s'.marks == s.marks && Coverage(s)
    requires |s'.threads| == |s.threads|
    requires forall j: nat :: j < |s.threads| && j != t ==> s'.threads[j] == s.threads[j]
    requires forall j: nat, w: nat :: j < |s.threads| && j != t && HoldsWord(s.h, s.stack, s.threads[j], w) ==>
               HoldsWord(s.h, s'.stack, s.threads[j], w)
    requires forall w: nat :: InGlobal(s.stack, s.top, w) || HoldsWord(s.h, s.stack, s.threads[t], w) ==>
               InGlobal(s'.stack, s'.top, w) || HoldsWord(s.h, s'.stack, s'.threads[t], w) || WordDone(s, w)
    ensures Coverage(s')
  {
    forall w: nat | LiveWord(s'.h, s'.marks, w)
      ensures Settled(s', w)
    {
      assert Settled(s, w);
      if Held(s, w) && !WordDone(s, w) {
        if !InGlobal(s.stack, s.top, w) {
          var j: nat :| j < |s.threads| && HoldsWord(s.h, s.stack, s.threads[j], w);
          if j != t {
            assert HoldsWord(s'.h, s'.stack, s'.threads[j], w);
          }
        }
      }
    }
  }

  // The common case: the global stack and the marks are untouched.
  lemma PrivateStep(s: State, s': State, t: nat)
    requires Inv(s) && t < |s.threads| == |s'.threads|
    requires s' == s.(first := s'.first, active := s'.active, helpers := s'.helpers, helpWanted := s'.helpWanted,
                      invalid := s'.invalid, threads := s.threads[t := s'.threads[t]])
    requires s.first <= s'.first <= s.top + 1 && Vacant(s.stack, s'.first)
    requires s'.active ==
             s.active - (if IsActive(s.threads[t].pc) then 1 else 0) + (if IsActive(s'.threads[t].pc) then 1 else 0)
    requires s'.helpers ==
             s.helpers - (if IsHelper(s.threads[t].pc) then 1 else 0) + (if IsHelper(s'.threads[t].pc) then 1 else 0)
    requires !s.threads[t].pc.Publish? && !s'.threads[t].pc.Publish?
    requires ThreadInv(s', t)
    requires s.invalid ==> s'.invalid
    requires !s'.invalid ==> forall w: nat :: HoldsWord(s.h, s.stack, s.threads[t], w) ==>
               InGlobal(s.stack, s.top, w) || HoldsWord(s.h, s.stack, s'.threads[t], w) || WordDone(s, w)
    ensures Inv(s')
  {
    hide EntriesLive, RangeLive, GlobalLive, WellFormed, MarkedReachable, Coverage, HoldsWord, InGlobal;
    CountUpdate(s.threads, t, s'.threads[t]);
    forall j: nat | j < |s.threads| && j != t
      ensures ThreadInv(s', j)
    {
      assert ThreadInv(s, j);
      SameStack(s, s', j);
    }
    hide ThreadInv;
    if s.lock {
      var j: nat :| j < |s.threads| && s.threads[j].pc.Publish?;
      assert s'.threads[j].pc.Publish?;
    }
    if !s'.invalid {
      CoverageKept(s, s', t);
    }
  }

  // The bookkeeping of a thread survives a step that touches neither the marks nor the global stack.
  lemma SameStack(s: State, s': State, j: nat)
    requires j < |s.threads| == |s'.threads| && s'.threads[j] == s.threads[j] && ThreadInv(s, j)
    requires s'.h == s.h && s'.marks == s.marks && s'.stack == s.stack && s'.top == s.top
    requires s'.lock == s.lock && s'.over == s.over && s'.first >= s.first
    ensures ThreadInv(s', j)
  {
    hide EntriesLive, RangeLive;
  }

  //
  // Every action keeps the invariant.
  //

  lemma BeginKeeps(s: State, t: nat)
    requires Inv(s) && MayCoordinate(s, t, Begin)
    ensures Inv(CoordinateStep(s, t, Begin))
  {
    var s' := CoordinateStep(s, t, Begin);
    assert HelperSet(s.threads) == {} && ActiveSet(s.threads) == {};
    CountUpdate(s.threads, t, s'.threads[t]);
    forall j: nat | j < |s.threads|
      ensures ThreadInv(s', j)
    {
      assert ThreadInv(s, j) && j !in HelperSet(s.threads);
    }
    if !s.invalid {
      CoverageKept(s, s', t);
    }
  }

  lemma JoinKeeps(s: State, t: nat)
    requires Inv(s) && MayCoordinate(s, t, Join)
    ensures Inv(CoordinateStep(s, t, Join))
  {
    hide EntriesLive, RangeLive, GlobalLive, Coverage, WellFormed, MarkedReachable;
    assert ThreadInv(s, t);
    PrivateStep(s, CoordinateStep(s, t, Join), t);
  }

  lemma ActivateKeeps(s: State, t: nat)
    requires Inv(s) && MayCoordinate(s, t, Activate)
    ensures Inv(CoordinateStep(s, t, Activate))
  {
    hide EntriesLive, RangeLive, GlobalLive, Coverage, WellFormed, MarkedReachable;
    assert ThreadInv(s, t);
    PrivateStep(s, CoordinateStep(s, t, Activate), t);
  }

  lemma LoadFirstKeeps(s: State, t: nat)
    requires Inv(s) && MayCoordinate(s, t, LoadFirst)
    ensures Inv(CoordinateStep(s, t, LoadFirst))
  {
    assert ThreadInv(s, t);
    PrivateStep(s, CoordinateStep(s, t, LoadFirst), t);
  }

  // The compare-and-swap succeeds: everything below the new first entry is vacant.
  lemma RaiseKeeps(s: State, t: nat)
    requires Inv(s) && t < |s.threads| && s.threads[t].pc.Sync? && s.threads[t].seen < s.threads[t].myFirst
    requires s.first == s.threads[t].seen
    ensures Inv(Put(s.(first := s.threads[t].myFirst), t, s.threads[t].(pc := Load)))
  {
    assert ThreadInv(s, t);
    PrivateStep(s, Put(s.(first := s.threads[t].myFirst), t, s.threads[t].(pc := Load)), t);
  }

  lemma AdoptKeeps(s: State, t: nat, myFirst: nat)
    requires Inv(s) && t < |s.threads| && s.threads[t].pc.Sync?
    requires myFirst == s.threads[t].myFirst || myFirst == s.threads[t].seen
    ensures Inv(Put(s, t, s.threads[t].(pc := Load, myFirst := myFirst)))
  {
    assert ThreadInv(s, t);
    assert Vacant(s.stack, s.threads[t].seen);
    PrivateStep(s, Put(s, t, s.threads[t].(pc := Load, myFirst := myFirst)), t);
  }

  lemma SyncFirstKeeps(s: State, t: nat)
    requires Inv(s) && MayCoordinate(s, t, SyncFirst)
    ensures Inv(CoordinateStep(s, t, SyncFirst))
  {
    var th := s.threads[t];
    if th.seen < th.myFirst && s.first == th.seen {
      RaiseKeeps(s, t);
    } else {
      AdoptKeeps(s, t, if th.myFirst < th.seen then th.seen else th.myFirst);
    }
  }

  lemma LoadTopKeeps(s: State, t: nat)
    requires Inv(s) && MayCoordinate(s, t, LoadTop)
    ensures Inv(CoordinateStep(s, t, LoadTop))
  {
    assert ThreadInv(s, t);
    PrivateStep(s, CoordinateStep(s, t, LoadTop), t);
  }

  lemma CheckTopKeeps(s: State, t: nat)
    requires Inv(s) && MayCoordinate(s, t, CheckTop)
    ensures Inv(CoordinateStep(s, t, CheckTop))
  {
    hide Inv;
    var th := s.threads[t];
    if s.top - th.myFirst + 1 == 0 {
      WaitKeeps(s, t);
    } else {
      TryKeeps(s, t);
    }
  }

  // The stack is still empty: the thread is no longer active.
  lemma WaitKeeps(s: State, t: nat)
    requires Inv(s) && t < |s.threads| && s.threads[t].pc.Check? && s.top - s.threads[t].myFirst + 1 == 0
    ensures Inv(Put(s.(active := s.active - 1), t, s.threads[t].(myTop := s.top, pc := Waiting)))
  {
    hide EntriesLive, RangeLive, GlobalLive, Coverage, WellFormed, MarkedReachable;
    assert ThreadInv(s, t);
    PrivateStep(s, Put(s.(active := s.active - 1), t, s.threads[t].(myTop := s.top, pc := Waiting)), t);
  }

  lemma TryKeeps(s: State, t: nat)
    requires Inv(s) && t < |s.threads| && s.threads[t].pc.Check? && s.top - s.threads[t].myFirst + 1 != 0
    ensures Inv(Put(s, t, s.threads[t].(myTop := s.top, p := s.threads[t].myFirst, pc := Steal)))
  {
    hide EntriesLive, RangeLive, GlobalLive, Coverage, WellFormed, MarkedReachable;
    assert ThreadInv(s, t);
    PrivateStep(s, Put(s, t, s.threads[t].(myTop := s.top, p := s.threads[t].myFirst, pc := Steal)), t);
  }

  lemma ResumeKeeps(s: State, t: nat)
    requires Inv(s) && MayCoordinate(s, t, Resume)
    ensures Inv(CoordinateStep(s, t, Resume))
  {
    hide EntriesLive, RangeLive, GlobalLive, Coverage, WellFormed, MarkedReachable;
    assert ThreadInv(s, t);
    PrivateStep(s, CoordinateStep(s, t, Resume), t);
  }

  lemma NoWorkKeeps(s: State, t: nat)
    requires Inv(s) && MayMark(s, t, NoWork)
    ensures Inv(MarkStep(s, t, NoWork))
  {
    assert ThreadInv(s, t);
    PrivateStep(s, MarkStep(s, t, NoWork), t);
  }

  lemma CloseKeeps(s: State, t: nat)
    requires Inv(s) && MayCoordinate(s, t, Close)
    ensures Inv(CoordinateStep(s, t, Close))
  {
    assert ThreadInv(s, t);
    PrivateStep(s, CoordinateStep(s, t, Close), t);
  }

  lemma DrainKeeps(s: State, t: nat)
    requires Inv(s) && MayCoordinate(s, t, Drain)
    ensures Inv(CoordinateStep(s, t, Drain))
  {
    assert ThreadInv(s, t);
    PrivateStep(s, CoordinateStep(s, t, Drain), t);
  }

  // The end is declared only when nobody holds anything: active counts exactly the threads that might.
  lemma LeaveKeeps(s: State, t: nat)
    requires Inv(s) && MayCoordinate(s, t, Leave)
    ensures Inv(CoordinateStep(s, t, Leave))
  {
    hide EntriesLive, RangeLive, GlobalLive, WellFormed, MarkedReachable, Coverage;
    var s' := CoordinateStep(s, t, Leave);
    assert ActiveSet(s.threads) == {};
    CountUpdate(s.threads, t, s'.threads[t]);
    forall j: nat | j < |s.threads|
      ensures ThreadInv(s', j)
    {
      assert ThreadInv(s, j) && j !in ActiveSet(s.threads);
      LeaveThread(s, t, j);
    }
    if !s.invalid {
      CoverageKept(s, s', t);
    }
  }

  lemma LeaveThread(s: State, t: nat, j: nat)
    requires MayCoordinate(s, t, Leave) && j < |s.threads| && ThreadInv(s, j) && !IsActive(s.threads[j].pc)
    ensures ThreadInv(CoordinateStep(s, t, Leave), j)
  {
    hide EntriesLive, RangeLive;
  }

  lemma StealStopKeeps(s: State, t: nat)
    requires Inv(s) && MaySteal(s, t, StealStop)
    ensures Inv(StealStep(s, t, StealStop))
  {
    assert ThreadInv(s, t);
    PrivateStep(s, StealStep(s, t, StealStop), t);
  }

  lemma StealReadKeeps(s: State, t: nat)
    requires Inv(s) && MaySteal(s, t, StealRead)
    ensures Inv(StealStep(s, t, StealRead))
  {
    hide EntriesLive, RangeLive, Coverage, WellFormed, MarkedReachable;
    var th := s.threads[t];
    assert ThreadInv(s, t);
    if s.stack[th.p].len == 0 {
      PrivateStep(s, Put(s, t, th.(p := th.p + 1)), t);
    } else {
      assert RangeLive(s.h, s.marks, s.stack[th.p].start, s.stack[th.p].start + s.stack[th.p].len);
      PrivateStep(s, Put(s, t, th.(len := s.stack[th.p].len, pc := Clear)), t);
    }
  }

  lemma GrabKeeps(s: State, t: nat)
    requires Inv(s) && MaySteal(s, t, GrabEntry)
    ensures Inv(StealStep(s, t, GrabEntry))
  {
    assert ThreadInv(s, t);
    var th, s' := s.threads[t], StealStep(s, t, GrabEntry);
    var e := Entry(s.stack[th.p].start, th.len);
    forall w: nat | HoldsWord(s.h, s.stack, th, w)
      ensures HoldsWord(s.h, s.stack, s'.threads[t], w)
    {
      StackedPrefix(th.local, e, w);
    }
    PrivateStep(s, s', t);
  }

  lemma TakeKeeps(s: State, t: nat)
    requires Inv(s) && MayMark(s, t, Take)
    ensures Inv(MarkStep(s, t, Take))
  {
    assert ThreadInv(s, t);
    var th, s' := s.threads[t], MarkStep(s, t, Take);
    var k := |th.local| - 1;
    var e := th.local[k];
    var rest, n := th.local[..k], Chunk(e.len);
    assert th.local == rest + [e] && s'.threads[t].local == Taken(rest, e, n);
    TakenLive(s.h, s.marks, rest, e, n);
    hide EntriesLive, RangeLive, GlobalLive, Coverage, WellFormed, MarkedReachable;
    forall w: nat | HoldsWord(s.h, s.stack, th, w)
      ensures HoldsWord(s.h, s.stack, s'.threads[t], w)
    {
      StackedPrefix(rest, e, w);
      StackedPrefix(rest, Entry(e.start + n, e.len - n), w);
    }
    PrivateStep(s, s', t);
  }

  lemma SplitKeeps(s: State, t: nat)
    requires Inv(s) && MayMark(s, t, Split)
    ensures Inv(MarkStep(s, t, Split))
  {
    hide EntriesLive, RangeLive, GlobalLive, Coverage, WellFormed, MarkedReachable, Halved;
    assert ThreadInv(s, t);
    var th, s' := s.threads[t], MarkStep(s, t, Split);
    HalvedLive(s.h, s.marks, th.local);
    forall w: nat | HoldsWord(s.h, s.stack, th, w)
      ensures HoldsWord(s.h, s.stack, s'.threads[t], w)
    {
      if Stacked(th.local, w) {
        HalvedStacked(th.local, w);
      }
    }
    PrivateStep(s, s', t);
  }

  // The word under the cursor is no pointer to an unmarked object.
  lemma SkipKeeps(s: State, t: nat)
    requires Inv(s) && t < |s.threads| && s.threads[t].pc.Scan? && s.threads[t].lo < s.threads[t].hi
    requires WordDone(s, s.threads[t].lo)
    ensures Inv(Put(s, t, s.threads[t].(lo := s.threads[t].lo + 1)))
  {
    assert ThreadInv(s, t);
    PrivateStep(s, Put(s, t, s.threads[t].(lo := s.threads[t].lo + 1)), t);
  }

  lemma FoundKeeps(s: State, t: nat, o: nat)
    requires Inv(s) && t < |s.threads| && s.threads[t].pc.Scan? && s.threads[t].lo < s.threads[t].hi
    requires PointsTo(s.h, s.threads[t].lo, o)
    ensures Inv(Put(s, t, s.threads[t].(obj := o, pc := SetBit)))
  {
    assert ThreadInv(s, t);
    PrivateStep(s, Put(s, t, s.threads[t].(obj := o, pc := SetBit)), t);
  }

  lemma RangeDoneKeeps(s: State, t: nat)
    requires Inv(s) && t < |s.threads| && s.threads[t].pc.Scan? && s.threads[t].lo >= s.threads[t].hi
    ensures Inv(Put(s, t, s.threads[t].(pc := Mark)))
  {
    assert ThreadInv(s, t);
    PrivateStep(s, Put(s, t, s.threads[t].(pc := Mark)), t);
  }

  lemma ScanWordKeeps(s: State, t: nat)
    requires Inv(s) && MayMark(s, t, ScanWord)
    ensures Inv(MarkStep(s, t, ScanWord))
  {
    hide Inv;
    var th := s.threads[t];
    if th.lo >= th.hi {
      RangeDoneKeeps(s, t);
    } else if WordDone(s, th.lo) {
      SkipKeeps(s, t);
    } else {
      FoundKeeps(s, t, s.h.words[th.lo].obj);
    }
  }

  lemma RenewKeeps(s: State, t: nat)
    requires Inv(s) && MayMark(s, t, Renew)
    ensures Inv(MarkStep(s, t, Renew))
  {
    assert ThreadInv(s, t);
    PrivateStep(s, MarkStep(s, t, Renew), t);
  }

  lemma GiveKeeps(s: State, t: nat)
    requires Inv(s) && MayGive(s, t, Give)
    ensures Inv(GiveStep(s, t, Give))
  {
    assert ThreadInv(s, t);
    PrivateStep(s, GiveStep(s, t, Give), t);
  }

  // Nothing to push: the object is pointer-free, or its entry goes onto a local stack that may lose entries.
  lemma PushedKeeps(s: State, t: nat, local: seq<Entry>, invalid: bool)
    requires Inv(s) && t < |s.threads| && s.threads[t].pc.Push? && s.threads[t].obj < |s.h.objs|
    requires s.invalid ==> invalid
    requires !invalid ==> forall w: nat :: Stacked(s.threads[t].local, w) || OfObject(s.h, s.threads[t].obj, w) ==>
              Stacked(local, w)
    requires EntriesLive(s.h, s.marks, local)
    ensures Inv(Put(s.(invalid := invalid), t, s.threads[t].(local := local, lo := s.threads[t].lo + 1, pc := Scan)))
  {
    assert ThreadInv(s, t);
    var s' := Put(s.(invalid := invalid), t, s.threads[t].(local := local, lo := s.threads[t].lo + 1, pc := Scan));
    forall w: nat | !invalid && HoldsWord(s.h, s.stack, s.threads[t], w)
      ensures HoldsWord(s.h, s.stack, s'.threads[t], w) || WordDone(s, w)
    {
    }
    PrivateStep(s, s', t);
  }

  lemma PushObjectKeeps(s: State, t: nat)
    requires Inv(s) && MayMark(s, t, PushObject)
    ensures Inv(MarkStep(s, t, PushObject))
  {
    hide Coverage, WellFormed, GlobalLive, Position;
    var th := s.threads[t];
    var o := s.h.objs[th.obj];
    var e := Entry(o.first, o.len);
    forall w: nat
      ensures Stacked(th.local + [e], w) <==> Stacked(th.local, w) || OfObject(s.h, th.obj, w)
    {
      StackedPrefix(th.local, e, w);
    }
    assert ThreadInv(s, t);
    ObjectLive(s.h, s.marks, th.obj);
    if o.len == 0 {
      PushedKeeps(s, t, th.local, s.invalid);
    } else if |th.local| < LOCAL_STACK {
      PushedKeeps(s, t, th.local + [e], s.invalid);
    } else {
      PushedKeeps(s, t, th.local[..LOCAL_STACK - DISCARDS] + [e], true);
    }
  }

  lemma ThreadLiveGrows(h: Heap, m: seq<bool>, m': seq<bool>, stack: seq<Entry>, th: Thread)
    requires ThreadLive(h, m, stack, th) && MoreMarked(m, m')
    ensures ThreadLive(h, m', stack, th)
  {
    EntriesLiveGrow(h, m, th.local, m');
    if th.pc.Clear? || th.pc.Grab? {
      RangeLiveGrows(h, m, m', stack[th.p].start, stack[th.p].start + th.len);
    }
    if Scanning(th.pc) {
      RangeLiveGrows(h, m, m', th.lo, th.hi);
    }
  }

  // The bookkeeping of a thread survives a step of another thread on the global stack.
  lemma OtherKeeps(s: State, s': State, j: nat)
    requires j < |s.threads| == |s'.threads| && s'.threads[j] == s.threads[j] && ThreadInv(s, j)
    requires s'.h == s.h && MoreMarked(s.marks, s'.marks) && s'.over == s.over && s'.first == s.first
    requires |s'.stack| == |s.stack| && -1 <= s.top <= s'.top < |s.stack|
    requires forall p: nat :: p <= s.top ==>
               s'.stack[p].start == s.stack[p].start && (s'.stack[p].len == s.stack[p].len || s'.stack[p].len == 0)
    requires s.threads[j].pc.Publish? ==>
               s'.lock && s'.top == s.top && s'.stack[s.top + 1..] == s.stack[s.top + 1..]
    ensures ThreadInv(s', j)
  {
    var th := s.threads[j];
    ThreadLiveGrows(s.h, s.marks, s'.marks, s.stack, th);
    if th.pc.Publish? {
      assert s.stack[s.top + 1..s.top + 1 + th.count] == s.stack[s.top + 1..][..th.count];
      assert s'.stack[s.top + 1..s.top + 1 + th.count] == s'.stack[s.top + 1..][..th.count];
    }
  }

  // Marking the target of a live word keeps everything live and reachable.
  lemma MarkedLive(s: State, t: nat)
    requires Inv(s) && t < |s.threads| && s.threads[t].pc.SetBit?
    ensures s.threads[t].obj < |s.marks|
    ensures var m := s.marks[s.threads[t].obj := true];
            && GlobalLive(s.h, m, s.stack, s.top)
            && (s.cleared ==> MarkedReachable(s.h, m))
            && ThreadLive(s.h, m, s.stack, s.threads[t])
  {
    assert ThreadInv(s, t);
    var th := s.threads[t];
    var m := s.marks[th.obj := true];
    assert LiveWord(s.h, s.marks, th.lo);
    if s.cleared {
      LiveTargetReachable(s.h, s.marks, th.lo, th.obj);
    }
    forall p: nat | p <= s.top
      ensures RangeLive(s.h, m, s.stack[p].start, s.stack[p].start + s.stack[p].len)
    {
      RangeLiveGrows(s.h, s.marks, m, s.stack[p].start, s.stack[p].start + s.stack[p].len);
    }
    ThreadLiveGrows(s.h, s.marks, m, s.stack, th);
  }

  ghost function Marked(s: State, t: nat): State
    requires t < |s.threads| && s.threads[t].obj < |s.marks|
  {
    Put(s.(marks := s.marks[s.threads[t].obj := true]), t, s.threads[t].(pc := Push))
  }

  lemma MarkedInv(s: State, t: nat)
    requires Inv(s) && t < |s.threads| && s.threads[t].pc.SetBit? && s.threads[t].obj < |s.marks|
    ensures Inv(Marked(s, t))
  {
    assert ThreadInv(s, t);
    var s' := Marked(s, t);
    CountUpdate(s.threads, t, s'.threads[t]);
    MarkedLive(s, t);
    forall j: nat | j < |s.threads| && j != t
      ensures ThreadInv(s', j)
    {
      assert ThreadInv(s, j);
      OtherKeeps(s, s', j);
    }
    if s.lock {
      var j: nat :| j < |s.threads| && s.threads[j].pc.Publish?;
      assert s'.threads[j].pc.Publish?;
    }
    if !s.invalid {
      MarkedCovers(s, t);
    }
  }

  // Marking makes the words of the object live; the marking thread holds them.
  lemma SetMarkKeeps(s: State, t: nat)
    requires Inv(s) && MayMark(s, t, SetMark)
    ensures Inv(MarkStep(s, t, SetMark))
  {
    assert ThreadInv(s, t);
    MarkedInv(s, t);
  }

  lemma MarkedCovers(s: State, t: nat)
    requires Inv(s) && t < |s.threads| && s.threads[t].pc.SetBit? && s.threads[t].obj < |s.marks| && Coverage(s)
    ensures Coverage(Marked(s, t))
  {
    assert ThreadInv(s, t);
    var th, s' := s.threads[t], Marked(s, t);
    forall w: nat | LiveWord(s'.h, s'.marks, w)
      ensures Settled(s', w)
    {
      if LiveWord(s.h, s.marks, w) {
        assert Settled(s, w);
        if !InGlobal(s.stack, s.top, w) && Held(s, w) {
          var j: nat :| j < |s.threads| && HoldsWord(s.h, s.stack, s.threads[j], w);
          assert HoldsWord(s'.h, s'.stack, s'.threads[j], w);
        }
      } else {
        var o: nat :| o < |s'.h.objs| && IsMarked(s'.marks, o) && OfObject(s'.h, o, w);
        assert o == th.obj;
        assert HoldsWord(s'.h, s'.stack, s'.threads[t], w);
      }
    }
  }

  ghost function Cleared(s: State, t: nat): State
    requires t < |s.threads| && s.threads[t].p < |s.stack|
  {
    var th := s.threads[t];
    Put(s.(stack := s.stack[th.p := s.stack[th.p].(len := 0)]), t, th.(pc := Grab))
  }

  lemma ClearSlotCovers(s: State, t: nat)
    requires Inv(s) && t < |s.threads| && s.threads[t].pc.Clear? && s.threads[t].p < |s.stack| && Coverage(s)
    ensures Coverage(Cleared(s, t))
  {
    assert ThreadInv(s, t);
    var th, s' := s.threads[t], Cleared(s, t);
    forall w: nat | InGlobal(s.stack, s.top, w)
      ensures InGlobal(s'.stack, s'.top, w) || HoldsWord(s.h, s'.stack, s'.threads[t], w)
    {
      var p: nat :| p <= s.top && p < |s.stack| && InEntry(s.stack[p], w);
      assert p != th.p ==> InEntry(s'.stack[p], w);
    }
    CoverageKept(s, s', t);
  }

  lemma ClearedInv(s: State, t: nat)
    requires Inv(s) && t < |s.threads| && s.threads[t].pc.Clear? && s.threads[t].p < |s.stack|
    ensures Inv(Cleared(s, t))
  {
    hide EntriesLive, WellFormed, MarkedReachable, Coverage;
    assert ThreadInv(s, t);
    var s' := Cleared(s, t);
    CountUpdate(s.threads, t, s'.threads[t]);
    forall p: nat | p <= s.top
      ensures RangeLive(s.h, s.marks, s'.stack[p].start, s'.stack[p].start + s'.stack[p].len)
    {
      assert RangeLive(s.h, s.marks, s.stack[p].start, s.stack[p].start + s.stack[p].len);
    }
    forall j: nat | j < |s.threads| && j != t
      ensures ThreadInv(s', j)
    {
      assert ThreadInv(s, j);
      assert s'.stack[s.top + 1..] == s.stack[s.top + 1..];
      OtherKeeps(s, s', j);
    }
    if s.lock {
      var j: nat :| j < |s.threads| && s.threads[j].pc.Publish?;
      assert s'.threads[j].pc.Publish?;
    }
    if !s.invalid {
      ClearSlotCovers(s, t);
    }
  }

  // Clearing a slot moves its range into the hand of the thief.
  lemma ClearSlotKeeps(s: State, t: nat)
    requires Inv(s) && MaySteal(s, t, ClearSlot)
    ensures Inv(StealStep(s, t, ClearSlot))
  {
    ClearedInv(s, t);
  }

  //
  // Giving entries back.
  //

  // The global stack does not have room: the entries are dropped and the state becomes invalid.
  lemma DropKeeps(s: State, t: nat)
    requires Inv(s) && MayGive(s, t, CopyBack) && s.top + 1 + s.threads[t].count > |s.stack|
    ensures Inv(GiveStep(s, t, CopyBack))
  {
    assert ThreadInv(s, t);
    PrivateStep(s, GiveStep(s, t, CopyBack), t);
  }

  ghost function Copied(s: State, t: nat): State
    requires Inv(s) && t < |s.threads| && s.threads[t].pc.Return? && s.threads[t].count <= |s.threads[t].local|
    requires s.top + 1 + s.threads[t].count <= |s.stack|
  {
    var th := s.threads[t];
    Put(s.(stack := s.stack[..s.top + 1] + th.local[..th.count] + s.stack[s.top + 1 + th.count..], lock := true), t,
        th.(pc := Publish))
  }

  lemma CopiedCovers(s: State, t: nat)
    requires Inv(s) && t < |s.threads| && s.threads[t].pc.Return? && s.threads[t].count <= |s.threads[t].local|
    requires s.top + 1 + s.threads[t].count <= |s.stack| && Coverage(s)
    ensures Coverage(Copied(s, t))
  {
    var s' := Copied(s, t);
    assert forall p: nat :: p <= s.top ==> s'.stack[p] == s.stack[p];
    forall w: nat | InGlobal(s.stack, s.top, w)
      ensures InGlobal(s'.stack, s'.top, w)
    {
      var p: nat :| p <= s.top && p < |s.stack| && InEntry(s.stack[p], w);
      assert InEntry(s'.stack[p], w);
    }
    forall j: nat | j < |s.threads|
      ensures s.threads[j].pc.Grab? ==> s.threads[j].p <= s.top
    {
      assert ThreadInv(s, j);
    }
    CoverageKept(s, s', t);
  }

  lemma CopiedThread(s: State, t: nat, j: nat)
    requires Inv(s) && !s.lock && t < |s.threads| && j < |s.threads| && s.threads[t].pc.Return?
    requires s.threads[t].count <= |s.threads[t].local| && s.top + 1 + s.threads[t].count <= |s.stack|
    ensures ThreadInv(Copied(s, t), j)
  {
    hide EntriesLive, RangeLive, WellFormed, MarkedReachable, Coverage, GlobalLive;
    var th, s' := s.threads[t], Copied(s, t);
    assert ThreadInv(s, t) && ThreadInv(s, j);
    assert forall p: nat :: p <= s.top ==> s'.stack[p] == s.stack[p];
    if j == t {
      assert s'.stack[s.top + 1..s.top + 1 + th.count] == th.local[..th.count];
    } else {
      OtherKeeps(s, s', j);
    }
  }

  lemma CopiedInv(s: State, t: nat)
    requires Inv(s) && !s.lock && t < |s.threads| && s.threads[t].pc.Return?
    requires s.threads[t].count <= |s.threads[t].local|
    requires s.top + 1 + s.threads[t].count <= |s.stack|
    ensures Inv(Copied(s, t))
  {
    hide EntriesLive, RangeLive, WellFormed, MarkedReachable, Coverage;
    var s' := Copied(s, t);
    CountUpdate(s.threads, t, s'.threads[t]);
    assert forall p: nat :: p <= s.top ==> s'.stack[p] == s.stack[p];
    forall j: nat | j < |s.threads|
      ensures ThreadInv(s', j)
    {
      CopiedThread(s, t, j);
    }
    forall j: nat | j < |s.threads|
      ensures !s.threads[j].pc.Publish?
    {
      assert ThreadInv(s, j);
    }
    assert s'.threads[t].pc.Publish?;
    if !s.invalid {
      CopiedCovers(s, t);
    }
  }

  lemma CopyBackKeeps(s: State, t: nat)
    requires Inv(s) && MayGive(s, t, CopyBack)
    ensures Inv(GiveStep(s, t, CopyBack))
  {
    if s.top + 1 + s.threads[t].count > |s.stack| {
      DropKeeps(s, t);
    } else {
      CopiedInv(s, t);
    }
  }

  lemma PublishedLive(s: State, t: nat)
    requires Inv(s) && t < |s.threads| && s.threads[t].pc.Publish?
    ensures s.threads[t].count <= |s.threads[t].local|
    ensures GlobalLive(s.h, s.marks, s.stack, s.top + s.threads[t].count)
    ensures EntriesLive(s.h, s.marks, s.threads[t].local[s.threads[t].count..])
  {
    assert ThreadInv(s, t);
    var th := s.threads[t];
    forall p: nat | s.top < p <= s.top + th.count && p < |s.stack|
      ensures RangeLive(s.h, s.marks, s.stack[p].start, s.stack[p].start + s.stack[p].len)
    {
      var i := p - (s.top + 1);
      assert s.stack[s.top + 1..s.top + 1 + th.count][i] == th.local[..th.count][i] == th.local[i];
    }
  }

  // Raising the top publishes the copied entries.
  lemma AdvanceKeeps(s: State, t: nat)
    requires Inv(s) && MayGive(s, t, Advance)
    ensures Inv(GiveStep(s, t, Advance))
  {
    assert ThreadInv(s, t);
    var th, s' := s.threads[t], GiveStep(s, t, Advance);
    CountUpdate(s.threads, t, s'.threads[t]);
    PublishedLive(s, t);
    forall j: nat | j < |s.threads| && j != t
      ensures ThreadInv(s', j)
    {
      assert ThreadInv(s, j);
      OtherKeeps(s, s', j);
    }
    if !s.invalid {
      AdvanceCovers(s, t);
    }
  }

  lemma PublishedOrKept(s: State, t: nat, w: nat)
    requires Inv(s) && t < |s.threads| && s.threads[t].pc.Publish? && Stacked(s.threads[t].local, w)
    ensures s.threads[t].count <= |s.threads[t].local|
    ensures InGlobal(s.stack, s.top + s.threads[t].count, w) || Stacked(s.threads[t].local[s.threads[t].count..], w)
  {
    assert ThreadInv(s, t);
    var th, base := s.threads[t], s.top + 1;
    var i :| 0 <= i < |th.local| && th.local[i].start <= w < th.local[i].start + th.local[i].len;
    if i < th.count {
      assert s.stack[base..base + th.count][i] == th.local[..th.count][i];
      assert InEntry(s.stack[base + i], w);
    } else {
      assert th.local[th.count..][i - th.count] == th.local[i];
    }
  }

  lemma AdvanceCovers(s: State, t: nat)
    requires Inv(s) && MayGive(s, t, Advance) && Coverage(s)
    ensures Coverage(GiveStep(s, t, Advance))
  {
    var th, s' := s.threads[t], GiveStep(s, t, Advance);
    forall w: nat | InGlobal(s.stack, s.top, w) || HoldsWord(s.h, s.stack, th, w)
      ensures InGlobal(s'.stack, s'.top, w) || HoldsWord(s.h, s'.stack, s'.threads[t], w)
    {
      if InGlobal(s.stack, s.top, w) {
        var p: nat :| p <= s.top && p < |s.stack| && InEntry(s.stack[p], w);
        assert p <= s'.top;
      } else {
        PublishedOrKept(s, t, w);
      }
    }
    CoverageKept(s, s', t);
  }

  //
  // Runs.
  //

  lemma CoordinateStepKeeps(s: State, t: nat, a: Coordination)
    requires Inv(s) && MayCoordinate(s, t, a)
    ensures Inv(CoordinateStep(s, t, a))
  {
    match a
    case Begin => BeginKeeps(s, t);
    case Join => JoinKeeps(s, t);
    case Activate => ActivateKeeps(s, t);
    case LoadFirst => LoadFirstKeeps(s, t);
    case SyncFirst => SyncFirstKeeps(s, t);
    case LoadTop => LoadTopKeeps(s, t);
    case CheckTop => CheckTopKeeps(s, t);
    case Leave => LeaveKeeps(s, t);
    case Resume => ResumeKeeps(s, t);
    case Close => CloseKeeps(s, t);
    case Drain => DrainKeeps(s, t);
  }

  lemma StealStepKeeps(s: State, t: nat, a: Theft)
    requires Inv(s) && MaySteal(s, t, a)
    ensures Inv(StealStep(s, t, a))
  {
    match a
    case StealStop => StealStopKeeps(s, t);
    case StealRead => StealReadKeeps(s, t);
    case ClearSlot => ClearSlotKeeps(s, t);
    case GrabEntry => GrabKeeps(s, t);
  }

  lemma MarkStepKeeps(s: State, t: nat, a: Marking)
    requires Inv(s) && MayMark(s, t, a)
    ensures Inv(MarkStep(s, t, a))
  {
    match a
    case NoWork => NoWorkKeeps(s, t);
    case Take => TakeKeeps(s, t);
    case Split => SplitKeeps(s, t);
    case Renew => RenewKeeps(s, t);
    case ScanWord => ScanWordKeeps(s, t);
    case SetMark => SetMarkKeeps(s, t);
    case PushObject => PushObjectKeeps(s, t);
  }

  lemma GiveStepKeeps(s: State, t: nat, a: Giving)
    requires Inv(s) && MayGive(s, t, a)
    ensures Inv(GiveStep(s, t, a))
  {
    match a
    case Give => GiveKeeps(s, t);
    case CopyBack => CopyBackKeeps(s, t);
    case Advance => AdvanceKeeps(s, t);
  }

  lemma StepKeeps(s: State, t: nat, a: Action)
    requires Inv(s) && Enabled(s, t, a)
    ensures Inv(Do(s, t, a))
  {
    match a
    case Coordinate(c) => CoordinateStepKeeps(s, t, c);
    case Thieve(x) => StealStepKeeps(s, t, x);
    case DoMark(m) => MarkStepKeeps(s, t, m);
    case GiveBack(g) => GiveStepKeeps(s, t, g);
  }

  // The state in which the initiating thread enters the parallel phase: the roots have been pushed,
  // the marker's invariant holds for the global stack, and no thread takes part yet.
  ghost predicate Init(s: State) {
    && WellFormed(s.h) && |s.marks| == |s.h.objs| && -1 <= s.top < |s.stack|
    && BelowOk(s.h, s.marks, s.stack[..s.top + 1], 0, 0, |s.h.blocks|)
    && RootsOk(s.h, s.marks, s.stack[..s.top + 1], 0, 0)
    && EntriesLive(s.h, s.marks, s.stack[..s.top + 1]) && (s.cleared ==> MarkedReachable(s.h, s.marks))
    && s.first == 0 && s.active == 0 && s.helpers == 0 && !s.invalid && !s.helpWanted && !s.lock && !s.over
    && forall t: nat :: t < |s.threads| ==> s.threads[t].pc.Outside? && s.threads[t].local == []
  }

  lemma InitInv(s: State)
    requires Init(s)
    ensures Inv(s)
  {
    assert ActiveSet(s.threads) == {} && HelperSet(s.threads) == {};
    forall p: nat | p <= s.top
      ensures RangeLive(s.h, s.marks, s.stack[p].start, s.stack[p].start + s.stack[p].len)
    {
      assert s.stack[..s.top + 1][p] == s.stack[p];
    }
    var global := s.stack[..s.top + 1];
    forall w: nat | LiveWord(s.h, s.marks, w)
      ensures Settled(s, w)
    {
      assert WordOk(s.h, s.marks, global, 0, 0, w) by {
        if !RootWord(s.h, w) {
          var o: nat :| o < |s.h.objs| && IsMarked(s.marks, o) && OfObject(s.h, o, w);
          assert ObjectOk(s.h, s.marks, global, 0, 0, o);
        }
      }
      if Stacked(global, w) {
        var i :| 0 <= i < |global| && global[i].start <= w < global[i].start + global[i].len;
        assert InEntry(s.stack[i], w);
      }
    }
  }

  // A run: the states visited when the threads and actions of the schedule are executed in turn.
  ghost predicate Run(states: seq<State>, schedule: seq<(nat, Action)>) {
    && |states| == |schedule| + 1
    && Init(states[0])
    && forall i :: 0 <= i < |schedule| ==>
         Enabled(states[i], schedule[i].0, schedule[i].1) &&
         states[i + 1] == Do(states[i], schedule[i].0, schedule[i].1)
  }

  lemma {:induction false} RunInv(states: seq<State>, schedule: seq<(nat, Action)>, n: nat)
    requires Run(states, schedule) && n < |states|
    ensures Inv(states[n])
  {
    if n == 0 {
      InitInv(states[0]);
    } else {
      RunInv(states, schedule, n - 1);
      StepKeeps(states[n - 1], schedule[n - 1].0, schedule[n - 1].1);
    }
  }

  // Once a thread has left, nothing is left to scan anywhere.
  lemma NothingHeld(s: State, w: nat)
    requires Inv(s) && s.over
    ensures !Held(s, w)
  {
    forall j: nat | j < |s.threads|
      ensures !HoldsWord(s.h, s.stack, s.threads[j], w)
    {
      assert ThreadInv(s, j);
    }
  }

  // When the initiating thread has returned and no entry was lost, the marks are closed.
  lemma FinishedIsClosed(s: State)
    requires Inv(s) && |s.threads| > 0 && s.threads[0].pc.Finished? && !s.invalid
    ensures BelowOk(s.h, s.marks, [], 0, 0, |s.h.blocks|) && RootsOk(s.h, s.marks, [], 0, 0)
  {
    assert ThreadInv(s, 0);
    forall w: nat | LiveWord(s.h, s.marks, w)
      ensures WordDone(s, w)
    {
      NothingHeld(s, w);
      assert Settled(s, w);
    }
    forall o: nat, w: nat | o < |s.h.objs| && IsMarked(s.marks, o) && OfObject(s.h, o, w)
      ensures WordOk(s.h, s.marks, [], 0, 0, w)
    {
      assert w < |s.h.words| ==> LiveWord(s.h, s.marks, w);
    }
    forall w: nat | RootWord(s.h, w)
      ensures WordOk(s.h, s.marks, [], 0, 0, w)
    {
      assert w < |s.h.words| ==> LiveWord(s.h, s.marks, w);
    }
  }

  // In every run of any number of threads: when the initiating thread has returned, the global stack
  // is used up, and either entries were lost and the state is invalid, or everything reachable is marked.
  lemma ParallelMarkComplete(states: seq<State>, schedule: seq<(nat, Action)>, n: nat)
    requires Run(states, schedule) && n < |states|
    requires |states[n].threads| > 0 && states[n].threads[0].pc.Finished?
    ensures states[n].top < states[n].first
    ensures states[n].invalid || forall o: nat :: Reachable(states[n].h, o) ==> IsMarked(states[n].marks, o)
    ensures states[n].cleared ==> forall o: nat :: IsMarked(states[n].marks, o) ==> Reachable(states[n].h, o)
  {
    var s := states[n];
    RunInv(states, schedule, n);
    assert ThreadInv(s, 0);
    if !s.invalid {
      FinishedIsClosed(s);
      ClosedMarksReachable(s.h, s.marks);
    }
  }

  // What no step changes, and what no step takes back.
  ghost predicate Same(s: State, s': State) {
    && s'.h == s.h && s'.cleared == s.cleared
    && (s.invalid ==> s'.invalid) && Unmarked(s'.marks) <= Unmarked(s.marks)
  }

  lemma PutSame()
    ensures forall s: State, t: nat, th: Thread {:trigger Put(s, t, th)} :: t < |s.threads| ==>
              && Put(s, t, th).h == s.h && Put(s, t, th).cleared == s.cleared
              && Put(s, t, th).invalid == s.invalid && Put(s, t, th).marks == s.marks
  {
  }

  lemma CoordinateSame(s: State, t: nat, a: Coordination)
    requires MayCoordinate(s, t, a)
    ensures Same(s, CoordinateStep(s, t, a))
  {
    hide Put;
    PutSame();
  }

  lemma StealSame(s: State, t: nat, a: Theft)
    requires MaySteal(s, t, a)
    ensures Same(s, StealStep(s, t, a))
  {
    hide Put;
    PutSame();
  }

  lemma MarkSame(s: State, t: nat, a: Marking)
    requires MayMark(s, t, a)
    ensures Same(s, MarkStep(s, t, a))
  {
    hide Put, Unmarked;
    PutSame();
    MarkedSame(s.marks, s.threads[t].obj);
  }

  lemma MarkedSame(m: seq<bool>, o: nat)
    ensures o < |m| ==> Unmarked(m[o := true]) <= Unmarked(m)
  {
    if o < |m| {
      if m[o] {
        assert m[o := true] == m;
      } else {
        UnmarkedDrops(m, o);
      }
    }
  }

  lemma GiveSame(s: State, t: nat, a: Giving)
    requires MayGive(s, t, a)
    ensures Same(s, GiveStep(s, t, a))
  {
    hide Put;
    PutSame();
  }

  lemma StepSame(s: State, t: nat, a: Action)
    requires Enabled(s, t, a)
    ensures Same(s, Do(s, t, a))
  {
    hide Same, CoordinateStep, StealStep, MarkStep, GiveStep, MayCoordinate, MaySteal, MayMark, MayGive;
    match a
    case Coordinate(c) => CoordinateSame(s, t, c);
    case Thieve(x) => StealSame(s, t, x);
    case DoMark(m) => MarkSame(s, t, m);
    case GiveBack(g) => GiveSame(s, t, g);
  }

  lemma {:induction false} RunSame(states: seq<State>, schedule: seq<(nat, Action)>, i: nat, n: nat)
    requires Run(states, schedule) && i <= n < |states|
    ensures Same(states[i], states[n])
    decreases n
  {
    hide Init, Do, Enabled, Unmarked;
    if i < n {
      RunSame(states, schedule, i, n - 1);
      StepSame(states[n - 1], schedule[n - 1].0, schedule[n - 1].1);
    }
  }

  //
  // No state is stuck.
  //

  // A step that is not an idle look around: a waiting thread wakes only if there is work and nobody
  // is active.
  predicate Useful(s: State, a: Action) {
    a == Coordinate(Resume) ==> s.active == 0 && s.first <= s.top
  }

  // The global stack is empty and some helper waits.
  predicate Starved(s: State) {
    s.top < s.first && s.active < s.helpers
  }

  // What thread th does next with its local stack, if its four loads for Starved happen at once.
  function NextMark(s: State, th: Thread): Action {
    if th.local == [] then DoMark(NoWork)
    else if th.credit >= 0 then DoMark(if Shared(th.local) then Split else Take)
    else if HalfFull(th.local) || (Starved(s) && |th.local| >= 3) then GiveBack(Give)
    else DoMark(Renew)
  }

  // An active thread can go on, unless it needs the mark lock while another thread holds it.
  lemma ActiveGoesOn(s: State, t: nat) returns (a: Action)
    requires Inv(s) && t < |s.threads| && IsActive(s.threads[t].pc) && !s.lock
    ensures Enabled(s, t, a) && Useful(s, a)
  {
    hide Coverage, GlobalLive, MarkedReachable, ThreadLive, Vacant;
    var th := s.threads[t];
    assert ThreadInv(s, t);
    a := match th.pc
      case Loop => Coordinate(LoadFirst)
      case Sync => Coordinate(SyncFirst)
      case Load => Coordinate(LoadTop)
      case Check => Coordinate(CheckTop)
      case Steal => Thieve(if Sated(th) then StealStop else StealRead)
      case Clear => Thieve(ClearSlot)
      case Grab => Thieve(GrabEntry)
      case Mark => NextMark(s, th)
      case Scan => DoMark(ScanWord)
      case SetBit => DoMark(SetMark)
      case Push => DoMark(PushObject)
      case Return => GiveBack(CopyBack)
      case _ => GiveBack(Advance);
  }

  lemma SomeActive(s: State) returns (t: nat)
    requires s.active == |ActiveSet(s.threads)| && s.active > 0
    ensures t < |s.threads| && IsActive(s.threads[t].pc)
  {
    t :| t in ActiveSet(s.threads);
  }

  lemma SomeHelper(s: State) returns (t: nat)
    requires s.helpers == |HelperSet(s.threads)| && s.helpers > 0
    ensures t < |s.threads| && IsHelper(s.threads[t].pc)
  {
    t :| t in HelperSet(s.threads);
  }

  // In every reachable state in which a thread takes part or the initiating thread has not returned
  // yet, some thread can take a useful step.
  lemma NeverStuck(states: seq<State>, schedule: seq<(nat, Action)>, n: nat) returns (t: nat, a: Action)
    requires Run(states, schedule) && n < |states| && |states[n].threads| > 0
    requires states[n].helpers > 0 || states[n].threads[0].pc.Closing? || states[n].threads[0].pc.Draining?
    ensures Enabled(states[n], t, a) && Useful(states[n], a)
  {
    RunInv(states, schedule, n);
    t, a := UsefulStep(states[n]);
  }

  lemma UsefulStep(s: State) returns (t: nat, a: Action)
    requires Inv(s) && |s.threads| > 0
    requires s.helpers > 0 || s.threads[0].pc.Closing? || s.threads[0].pc.Draining?
    ensures Enabled(s, t, a) && Useful(s, a)
  {
    hide Coverage, GlobalLive, MarkedReachable, ThreadLive, Vacant, ActiveSet, HelperSet;
    if s.lock {
      t :| t < |s.threads| && s.threads[t].pc.Publish?;
      assert ThreadInv(s, t);
      a := GiveBack(Advance);
    } else if s.active > 0 {
      t := SomeActive(s);
      a := ActiveGoesOn(s, t);
    } else if s.helpers > 0 {
      t := SomeHelper(s);
      NobodyActive(s, t);
      a := Coordinate(if s.threads[t].pc.Joined? then Activate else if s.first > s.top then Leave else Resume);
    } else {
      t, a := 0, Coordinate(if s.threads[0].pc.Closing? then Close else Drain);
    }
  }

  lemma NobodyActive(s: State, t: nat)
    requires s.active == |ActiveSet(s.threads)| <= 0 && t < |s.threads|
    ensures !IsActive(s.threads[t].pc)
  {
    assert IsActive(s.threads[t].pc) ==> t in ActiveSet(s.threads);
  }
}
