// A parallel phase that starts with the root ranges alone loses entries only after it has marked a new
// object: until then no thread uses up its credit, so nothing is returned, and nothing is pushed.
module ParallelLoss {
  import opened MarkTheory
  import opened ParallelMarker
  import PP = ParallelProgress

  //
  // Credit.
  //

  // The words that are scanned twice when a range no larger than the roots is shared out.
  function Overlap(len: nat): nat {
    if len <= SHARE_WORDS then 0 else if len < ROOT_WORDS then 1 else 2
  }

  function Demand(len: nat): nat {
    len + Overlap(len)
  }

  // The credit that scanning all ranges takes.
  ghost function Demands(l: seq<Entry>): nat {
    if l == [] then 0 else Demands(l[..|l| - 1]) + Demand(l[|l| - 1].len)
  }

  // The credit lasts until the last part of the lowest range is scanned.  Two words may be missing at the
  // end if the lowest range is all of the roots, or what is left of it.
  ghost predicate Suffices(credit: int, l: seq<Entry>) {
    || l == []
    || Demands(l) <= credit
    || (Demands(l) <= credit + 2 && l[0].len in {2, 129, 257, ROOT_WORDS})
  }

  lemma DemandsPush(l: seq<Entry>, e: Entry)
    ensures Demands(l + [e]) == Demands(l) + Demand(e.len)
  {
    assert (l + [e])[..|l|] == l;
  }

  lemma {:induction false} DemandsFirst(l: seq<Entry>)
    requires l != []
    ensures Demands(l) >= l[0].len
  {
    if |l| > 1 {
      DemandsFirst(l[..|l| - 1]);
    }
  }

  // At most one of the ranges is large enough to be shared out.
  lemma {:induction false} DemandsBelow(l: seq<Entry>)
    requires Spread(l) - |l| <= ROOT_WORDS
    ensures Spread(l) >= |l| && Demands(l) <= Demand(Spread(l) - |l|)
  {
    if l != [] {
      SpreadIsLonger(l[..|l| - 1]);
      DemandsBelow(l[..|l| - 1]);
    }
  }

  lemma {:induction false} SpreadIsLonger(l: seq<Entry>)
    ensures Spread(l) >= |l|
  {
    if l != [] {
      SpreadIsLonger(l[..|l| - 1]);
    }
  }

  // Ranges of the roots that lie apart.
  lemma FullCredit(l: seq<Entry>)
    requires Spread(l) <= ROOT_WORDS + 1
    ensures Suffices(CREDIT_WORDS, l)
  {
    if l != [] {
      SpreadIsLonger(l[..|l| - 1]);
      DemandsBelow(l);
    }
  }

  lemma CreditLeft(credit: int, l: seq<Entry>)
    requires Suffices(credit, l) && l != []
    ensures credit >= 0
  {
    DemandsFirst(l);
  }

  lemma TakeSuffices(credit: int, l: seq<Entry>)
    requires l != [] && !Shared(l) && |l| <= LOCAL_STACK && Suffices(credit, l)
    ensures var e := l[|l| - 1]; Suffices(credit - Chunk(e.len), Taken(l[..|l| - 1], e, Chunk(e.len)))
  {
    var e, rest := l[|l| - 1], l[..|l| - 1];
    var n := Chunk(e.len);
    if n < e.len {
      DemandsPush(rest, Entry(e.start + n, e.len - n));
    }
  }

  lemma HalvedDemand(len: nat, half: nat)
    requires SHARE_WORDS < len <= ROOT_WORDS && 2 * half <= len <= 2 * half + 1
    ensures Demand(half + 1) + Demand(len - half) <= Demand(len)
    ensures len in {257, ROOT_WORDS} ==> half + 1 in {129, 257}
  {
  }

  lemma SplitSuffices(credit: int, l: seq<Entry>)
    requires Shared(l) && credit <= CREDIT_WORDS && Suffices(credit, l)
    ensures Suffices(credit, Halved(l))
  {
    var e, rest := l[|l| - 1], l[..|l| - 1];
    var a, b := Entry(e.start, e.len / 2 + 1), Entry(e.start + e.len / 2, e.len - e.len / 2);
    HalvedDemand(e.len, e.len / 2);
    hide Demand;
    DemandsPush(rest, a);
    DemandsPush(rest + [a], b);
  }

  //
  // Before the first mark.
  //

  // What thread th can be doing, if marking began with the ranges st and nothing has been marked.
  ghost predicate CalmThread(m: seq<bool>, st: seq<Entry>, th: Thread) {
    && !th.pc.Push? && !th.pc.Return? && !th.pc.Publish?
    && (Stealing(th.pc) ==> th.p <= |st| && Spread(th.local) <= Spread(st[..th.p]))
    && (th.pc.Clear? || th.pc.Grab? ==> th.p < |st| && th.len <= st[th.p].len)
    && (th.pc.Mark? || th.pc.Scan? || th.pc.SetBit? ==>
          th.credit <= CREDIT_WORDS && |th.local| <= LOCAL_STACK && Suffices(th.credit, th.local))
    && (th.pc.SetBit? ==> !IsMarked(m, th.obj))
  }

  ghost predicate Calm(s: State, st: seq<Entry>) {
    && !s.invalid && s.top + 1 == |st| <= |s.stack|
    && (forall p: nat :: p < |st| ==> s.stack[p].len <= st[p].len)
    && (forall t: nat :: t < |s.threads| ==> CalmThread(s.marks, st, s.threads[t]))
  }

  lemma {:induction false} SpreadPrefix(l: seq<Entry>, k: nat)
    requires k <= |l|
    ensures Spread(l[..k]) <= Spread(l)
  {
    if k == |l| {
      assert l[..k] == l;
    } else {
      SpreadPrefix(l[..|l| - 1], k);
      assert l[..|l| - 1][..k] == l[..k];
    }
  }

  lemma SpreadNext(l: seq<Entry>, k: nat)
    requires k < |l|
    ensures Spread(l[..k + 1]) == Spread(l[..k]) + l[k].len + 1
  {
    assert l[..k + 1][..k] == l[..k];
  }

  // Thread t goes on as th, and neither the marks nor the global stack change.
  lemma PutCalm(s: State, s': State, t: nat, th: Thread, st: seq<Entry>)
    requires Calm(s, st) && t < |s.threads| && CalmThread(s.marks, st, th)
    requires s'.invalid == s.invalid && s'.marks == s.marks && s'.stack == s.stack && s'.top == s.top
    requires s'.threads == s.threads[t := th]
    ensures Calm(s', st)
  {
    hide CalmThread;
  }

  lemma ThreadsCalm(s: State, st: seq<Entry>, t: nat)
    requires Calm(s, st) && t < |s.threads|
    ensures s.top + 1 == |st| && CalmThread(s.marks, st, s.threads[t])
  {
  }

  // Threads that join, wait and leave.
  lemma JoinCalm(s: State, t: nat, a: Coordination, st: seq<Entry>)
    requires MayCoordinate(s, t, a) && Calm(s, st) && !a.SyncFirst? && !a.LoadTop? && !a.CheckTop?
    ensures CoordinateStep(s, t, a).marks == s.marks && Calm(CoordinateStep(s, t, a), st)
  {
    hide Suffices, Calm, Spread;
    var s' := CoordinateStep(s, t, a);
    PutCalm(s, s', t, s'.threads[t], st);
  }

  lemma SyncCalm(s: State, t: nat, st: seq<Entry>)
    requires MayCoordinate(s, t, SyncFirst) && Calm(s, st)
    ensures CoordinateStep(s, t, SyncFirst).marks == s.marks && Calm(CoordinateStep(s, t, SyncFirst), st)
  {
    hide Suffices, Calm, Spread;
    var th, s' := s.threads[t], CoordinateStep(s, t, SyncFirst);
    if th.myFirst < th.seen {
      PutCalm(s, s', t, th.(pc := Load, myFirst := th.seen), st);
    } else {
      PutCalm(s, s', t, th.(pc := Load), st);
    }
  }

  // Threads that look for work.
  lemma SeekCalm(s: State, t: nat, a: Coordination, st: seq<Entry>)
    requires MayCoordinate(s, t, a) && PP.Placed(s, s.threads[t]) && Calm(s, st) && (a.LoadTop? || a.CheckTop?)
    ensures CoordinateStep(s, t, a).marks == s.marks && Calm(CoordinateStep(s, t, a), st)
  {
    hide Suffices, Calm;
    var s' := CoordinateStep(s, t, a);
    ThreadsCalm(s, st, t);
    PutCalm(s, s', t, s'.threads[t], st);
  }

  lemma StealStopCalm(s: State, t: nat, st: seq<Entry>)
    requires MaySteal(s, t, StealStop) && Calm(s, st) && Spread(st) <= ROOT_WORDS + 1
    ensures Calm(StealStep(s, t, StealStop), st)
  {
    hide Suffices, Sated;
    var th, s' := s.threads[t], StealStep(s, t, StealStop);
    assert CalmThread(s.marks, st, th);
    SpreadPrefix(st, th.p);
    SpreadIsLonger(th.local);
    FullCredit(th.local);
    PutCalm(s, s', t, s'.threads[t], st);
  }

  lemma StealReadCalm(s: State, t: nat, st: seq<Entry>)
    requires MaySteal(s, t, StealRead) && PP.Placed(s, s.threads[t]) && Calm(s, st)
    ensures Calm(StealStep(s, t, StealRead), st)
  {
    hide Suffices, Loot, Quota;
    var th, s' := s.threads[t], StealStep(s, t, StealRead);
    assert CalmThread(s.marks, st, th);
    if s.stack[th.p].len == 0 {
      SpreadNext(st, th.p);
      PutCalm(s, s', t, th.(p := th.p + 1), st);
    } else {
      PutCalm(s, s', t, th.(len := s.stack[th.p].len, pc := Clear), st);
    }
  }

  lemma GrabCalm(s: State, t: nat, st: seq<Entry>)
    requires MaySteal(s, t, GrabEntry) && Calm(s, st)
    ensures Calm(StealStep(s, t, GrabEntry), st)
  {
    hide Suffices;
    var th, s' := s.threads[t], StealStep(s, t, GrabEntry);
    assert CalmThread(s.marks, st, th);
    SpreadPush(th.local, Entry(s.stack[th.p].start, th.len));
    SpreadNext(st, th.p);
    PutCalm(s, s', t, s'.threads[t], st);
  }

  lemma ClearCalm(s: State, t: nat, st: seq<Entry>)
    requires MaySteal(s, t, ClearSlot) && Calm(s, st)
    ensures Calm(StealStep(s, t, ClearSlot), st)
  {
    hide Suffices;
    var th, s' := s.threads[t], StealStep(s, t, ClearSlot);
    assert CalmThread(s.marks, st, th);
    PutCalm(s.(stack := s'.stack), s', t, s'.threads[t], st);
  }

  lemma StealCalm(s: State, t: nat, a: Theft, st: seq<Entry>)
    requires MaySteal(s, t, a) && PP.Placed(s, s.threads[t]) && Calm(s, st) && Spread(st) <= ROOT_WORDS + 1
    ensures StealStep(s, t, a).marks == s.marks && Calm(StealStep(s, t, a), st)
  {
    hide Calm, PP.Placed, MaySteal;
    match a
    case StealStop => StealStopCalm(s, t, st);
    case StealRead => StealReadCalm(s, t, st);
    case ClearSlot => ClearCalm(s, t, st);
    case GrabEntry => GrabCalm(s, t, st);
  }

  lemma TakeCalm(s: State, t: nat, a: Marking, st: seq<Entry>)
    requires MayMark(s, t, a) && (a.NoWork? || a.Take? || a.Split? || a.Renew?) && Calm(s, st)
    ensures MarkStep(s, t, a).marks == s.marks && Calm(MarkStep(s, t, a), st)
  {
    hide Suffices, Shared, Halved;
    var th, s' := s.threads[t], MarkStep(s, t, a);
    assert CalmThread(s.marks, st, th);
    if a.Renew? {
      CreditLeft(th.credit, th.local);
    } else {
      if a.Take? {
        TakeSuffices(th.credit, th.local);
      } else if a.Split? {
        SplitSuffices(th.credit, th.local);
        HalvedLength(th.local);
      }
      PutCalm(s, s', t, s'.threads[t], st);
    }
  }

  lemma HalvedLength(l: seq<Entry>)
    requires Shared(l)
    ensures |Halved(l)| == |l| + 1 <= LOCAL_STACK
  {
  }

  lemma ScanCalm(s: State, t: nat, st: seq<Entry>)
    requires MayMark(s, t, ScanWord) && Calm(s, st)
    ensures MarkStep(s, t, ScanWord).marks == s.marks && Calm(MarkStep(s, t, ScanWord), st)
  {
    hide Suffices;
    var th := s.threads[t];
    assert CalmThread(s.marks, st, th);
    if th.lo >= th.hi {
      PutCalm(s, MarkStep(s, t, ScanWord), t, th.(pc := Mark), st);
    } else if PP.Fresh(s, th) {
      PutCalm(s, MarkStep(s, t, ScanWord), t, th.(obj := s.h.words[th.lo].obj, pc := SetBit), st);
    } else {
      PutCalm(s, MarkStep(s, t, ScanWord), t, th.(lo := th.lo + 1), st);
    }
  }

  // Only a pointer to an unmarked object is followed.
  lemma MarkCalm(s: State, t: nat, a: Marking, st: seq<Entry>)
    requires MayMark(s, t, a) && PP.Placed(s, s.threads[t]) && Calm(s, st)
    ensures var s' := MarkStep(s, t, a);
            Unmarked(s'.marks) < Unmarked(s.marks) || (s'.marks == s.marks && Calm(s', st))
  {
    hide Unmarked, Suffices, Calm;
    assert CalmThread(s.marks, st, s.threads[t]) by { ThreadsCalm(s, st, t); }
    match a
    case ScanWord => ScanCalm(s, t, st);
    case SetMark => UnmarkedDrops(s.marks, s.threads[t].obj);
    case PushObject =>
    case _ => TakeCalm(s, t, a, st);
  }

  lemma NothingGiven(s: State, t: nat, a: Giving, st: seq<Entry>)
    requires Calm(s, st) && t < |s.threads|
    ensures !MayGive(s, t, a)
  {
    hide Suffices;
    assert CalmThread(s.marks, st, s.threads[t]);
    if s.threads[t].pc.Mark? && s.threads[t].local != [] {
      CreditLeft(s.threads[t].credit, s.threads[t].local);
    }
  }

  lemma CalmStep(s: State, t: nat, a: Action, st: seq<Entry>)
    requires Inv(s) && Enabled(s, t, a) && Calm(s, st) && Spread(st) <= ROOT_WORDS + 1
    ensures var s' := Do(s, t, a); Unmarked(s'.marks) < Unmarked(s.marks) || (s'.marks == s.marks && Calm(s', st))
  {
    hide Inv, Calm, Unmarked, CoordinateStep, StealStep, MarkStep, GiveStep, MayCoordinate, MaySteal, MayMark, MayGive;
    hide PP.Placed;
    Somebody(s, t, a);
    PP.Facts(s, t);
    match a
    case Coordinate(c) =>
      if c.LoadTop? || c.CheckTop? {
        SeekCalm(s, t, c, st);
      } else if c.SyncFirst? {
        SyncCalm(s, t, st);
      } else {
        JoinCalm(s, t, c, st);
      }
    case Thieve(x) => StealCalm(s, t, x, st);
    case DoMark(m) => MarkCalm(s, t, m, st);
    case GiveBack(g) => NothingGiven(s, t, g, st);
  }

  lemma Somebody(s: State, t: nat, a: Action)
    requires Enabled(s, t, a)
    ensures t < |s.threads|
  {
  }

  lemma {:induction false} CalmOrMarked(states: seq<State>, schedule: seq<(nat, Action)>, n: nat, st: seq<Entry>)
    requires Run(states, schedule) && n < |states|
    requires st == states[0].stack[..states[0].top + 1] && Spread(st) <= ROOT_WORDS + 1
    ensures || Unmarked(states[n].marks) < Unmarked(states[0].marks)
            || (states[n].marks == states[0].marks && Calm(states[n], st))
  {
    hide Inv, Do, Enabled, Calm, Spread, Unmarked;
    if n == 0 {
      InitCalm(states[0], st);
    } else {
      CalmOrMarked(states, schedule, n - 1, st);
      RunInv(states, schedule, n - 1);
      var s, t, a := states[n - 1], schedule[n - 1].0, schedule[n - 1].1;
      StepSame(s, t, a);
      if Calm(s, st) {
        CalmStep(s, t, a, st);
      }
    }
  }

  lemma InitCalm(s: State, st: seq<Entry>)
    requires Init(s) && st == s.stack[..s.top + 1]
    ensures Calm(s, st)
  {
  }

  // In every run of any number of threads that starts with ranges of the roots: if entries have been lost,
  // an object has been marked that was not marked at the start.
  lemma LossFollowsMark(states: seq<State>, schedule: seq<(nat, Action)>, n: nat)
    requires Run(states, schedule) && n < |states|
    requires Spread(states[0].stack[..states[0].top + 1]) <= ROOT_WORDS + 1
    ensures states[n].invalid ==> Unmarked(states[n].marks) < Unmarked(states[0].marks)
  {
    CalmOrMarked(states, schedule, n, states[0].stack[..states[0].top + 1]);
  }
}
