// The offline marker with parallel marking: once the roots have been pushed, any number of threads mark
// together, and if entries were lost the heap is scanned again.
module MarkRestart {
  import opened MarkTheory
  import opened Marker
  import PM = ParallelMarker
  import PL = ParallelLoss
  import PP = ParallelProgress

  // How a parallel phase ends: the marks, and whether entries were lost.
  datatype Outcome = Outcome(marks: seq<bool>, invalid: bool)

  // The outcomes of the parallel phases by number, marks, stack and top.
  type Phases = (nat, seq<bool>, seq<Entry>, int) -> Outcome

  function Idler(): PM.Thread {
    PM.Thread(PM.Outside, 0, 0, 0, [], 0, 0, 0, 0, 0, 0, 0)
  }

  // The state in which n threads start a parallel phase.
  ghost function Start(h: Heap, m: seq<bool>, stack: seq<Entry>, top: int, n: nat): PM.State {
    PM.State(h, m, stack, top, 0, false, 0, 0, false, false, seq(n, _ => Idler()), false, MarkedReachable(h, m))
  }

  // Some run from s ends with the outcome.
  ghost predicate Ends(s: PM.State, out: Outcome) {
    exists states, schedule :: PM.Run(states, schedule) && states[0] == s && EndsIn(states[|schedule|], out)
  }

  predicate EndsIn(s: PM.State, out: Outcome) {
    |s.threads| > 0 && s.threads[0].pc.Finished? && s.marks == out.marks && s.invalid == out.invalid
  }

  // Every outcome is that of some interleaving of n threads.
  ghost predicate Runs(h: Heap, n: nat, par: Phases) {
    forall k: nat, m, stack, top :: PM.Init(Start(h, m, stack, top, n)) ==>
      Ends(Start(h, m, stack, top, n), par(k, m, stack, top))
  }

  // There always is an outcome.
  lemma SomeOutcome(s: PM.State)
    requires PM.Init(s) && |s.threads| > 0
    ensures exists out :: Ends(s, out)
  {
    var a := PM.Coordinate(PM.Begin);
    assert PM.Enabled(s, 0, a);
    var states, schedule := [s, PM.Do(s, 0, a)], [(0, a)];
    assert PM.Run(states, schedule);
    var states', schedule' := PP.CanFinish(states, schedule);
    var e := states'[|schedule'|];
    assert PM.Run(states', schedule') && states'[0] == s && EndsIn(e, Outcome(e.marks, e.invalid));
    assert Ends(s, Outcome(e.marks, e.invalid));
  }

  ghost function Choice(s: PM.State): Outcome
    requires |s.threads| > 0
  {
    if PM.Init(s) then
      SomeOutcome(s);
      var out :| Ends(s, out); out
    else
      Outcome([], false)
  }

  // So every phase can be given one.
  lemma SomeRuns(h: Heap, n: nat) returns (par: Phases)
    requires n > 0
    ensures Runs(h, n, par)
  {
    par := (k, m, stack, top) => Choice(Start(h, m, stack, top, n));
  }

  // What an outcome says about the marks.
  lemma EndsWell(s: PM.State, out: Outcome)
    requires Ends(s, out)
    ensures |out.marks| == |s.h.objs| && (s.cleared ==> MarkedReachable(s.h, out.marks))
    ensures !out.invalid ==> BelowOk(s.h, out.marks, [], 0, 0, |s.h.blocks|) && RootsOk(s.h, out.marks, [], 0, 0)
    ensures -1 <= s.top < |s.stack|
    ensures out.invalid && Spread(s.stack[..s.top + 1]) <= ROOT_WORDS + 1 ==> Unmarked(out.marks) < Unmarked(s.marks)
  {
    hide PM.Inv, PM.Init, PM.Do, PM.Enabled, BelowOk, RootsOk, EntriesLive, Unmarked, Spread;
    var states, schedule :| PM.Run(states, schedule) && states[0] == s && EndsIn(states[|schedule|], out);
    InitTop(s);
    PM.RunInv(states, schedule, |schedule|);
    PM.RunSame(states, schedule, 0, |schedule|);
    MarksOf(states[|schedule|]);
    if !out.invalid {
      PM.FinishedIsClosed(states[|schedule|]);
    } else if Spread(s.stack[..s.top + 1]) <= ROOT_WORDS + 1 {
      PL.LossFollowsMark(states, schedule, |schedule|);
    }
  }

  lemma InitTop(s: PM.State)
    requires PM.Init(s)
    ensures -1 <= s.top < |s.stack|
  {
  }

  lemma MarksOf(s: PM.State)
    requires PM.Inv(s)
    ensures |s.marks| == |s.h.objs| && (s.cleared ==> MarkedReachable(s.h, s.marks))
  {
  }

  // The marker's invariant is what a parallel phase starts with.
  lemma PhaseEnds(h: Heap, m: seq<bool>, stack: seq<Entry>, top: int, n: nat, par: Phases, k: nat)
    requires WellFormed(h) && |m| == |h.objs| && -1 <= top < |stack| && n > 0 && Runs(h, n, par)
    requires BelowOk(h, m, stack[..top + 1], 0, 0, |h.blocks|) && RootsOk(h, m, stack[..top + 1], 0, 0)
    requires EntriesLive(h, m, stack[..top + 1])
    ensures var out := par(k, m, stack, top);
            && |out.marks| == |h.objs| && (MarkedReachable(h, m) ==> MarkedReachable(h, out.marks))
            && (!out.invalid ==> BelowOk(h, out.marks, [], 0, 0, |h.blocks|) && RootsOk(h, out.marks, [], 0, 0))
            && (out.invalid && Spread(stack[..top + 1]) <= ROOT_WORDS + 1 ==> Unmarked(out.marks) < Unmarked(m))
  {
    hide Ends, WellFormed, MarkedReachable, BelowOk, RootsOk, EntriesLive, Unmarked, Spread;
    var s := Start(h, m, stack, top, n);
    assert PM.Init(s);
    EndsWell(s, par(k, m, stack, top));
  }

  lemma NoEntries(h: Heap)
    ensures forall m :: EntriesLive(h, m, []) && BelowOk(h, m, [], 0, 0, 0)
  {
  }

  // The roots-pushed step of MAK_mark_some with parallel marking.
  method ParallelPhase(c: Collector, n: nat, par: Phases, k: nat) returns (finished: bool)
    requires c.Inv(0, 0) && c.state == RootsPushed && n > 0 && Runs(c.h, n, par)
    modifies c, c.stack, c.marks
    ensures c.Inv(0, 0) && c.cleared == old(c.cleared) && c.marks == old(c.marks)
    ensures c.stack == old(c.stack) || fresh(c.stack)
    ensures var out := par(k, old(c.marks[..]), old(c.stack[..]), old(c.top));
            && c.marks[..] == out.marks && finished == !out.invalid
            && c.state == if finished then Idle else Invalid
    ensures finished ==> c.Complete()
    ensures !finished && old(c.Restarted()) ==> Unmarked(c.marks[..]) < Unmarked(old(c.marks[..]))
  {
    hide Runs, PM.Init, Ends, WellFormed, MarkedReachable, BelowOk, RootsOk, EntriesLive, Unmarked, Spread;
    assert c.Stack() == c.stack[..][..c.top + 1];
    PhaseEnds(c.h, c.marks[..], c.stack[..], c.top, n, par, k);
    NoEntries(c.h);
    var out := par(k, c.marks[..], c.stack[..], c.top);
    SetMarks(c, out.marks);
    c.top := -1;
    assert c.Stack() == [];
    if out.invalid {
      c.state, c.tooSmall := Invalid, true;
    }
    if c.tooSmall {
      c.AllocMarkStack(2 * c.stack.Length);
    }
    finished := c.state == RootsPushed;
    if finished {
      c.state := Idle;
    }
  }

  method SetMarks(c: Collector, m: seq<bool>)
    requires c.marks.Length == |m|
    modifies c.marks
    ensures c.marks[..] == m
  {
    forall o | 0 <= o < c.marks.Length {
      c.marks[o] := m[o];
    }
  }

  // MAK_mark_some with parallel marking; k counts the parallel phases.
  method MarkSome(c: Collector, n: nat, par: Phases, k: nat) returns (finished: bool, k': nat)
    requires c.Inv(0, 0) && c.state != Idle && n > 0 && Runs(c.h, n, par)
    modifies c, c.stack, c.marks
    ensures c.Inv(0, 0) && c.cleared == old(c.cleared) && c.marks == old(c.marks)
    ensures c.stack == old(c.stack) || fresh(c.stack)
    ensures if finished then c.state == Idle && c.Complete() else c.state != Idle
    ensures k' == if old(c.state) == RootsPushed then k + 1 else k
    ensures k' == k ==> !finished && c.Progress().Below(old(c.Progress()))
    ensures !finished && (k' > k || old(c.Restarted())) ==> c.Restarted()
    ensures !finished && k' > k && old(c.Restarted()) ==> Unmarked(c.marks[..]) < Unmarked(old(c.marks[..]))
  {
    hide Runs, WellFormed, MarkedReachable, BelowOk, RootsOk, EntriesLive, Unmarked, Work, Spread;
    if c.state == RootsPushed {
      finished := ParallelPhase(c, n, par, k);
      k' := k + 1;
    } else {
      finished := c.MarkSome();
      k' := k;
    }
  }

  // MAK_mark_offline with parallel marking; phases is the number of parallel phases.  The first phase may
  // also start with the objects that a scan has found; any later one that loses entries marks an object.
  method MarkOffline(c: Collector, n: nat, par: Phases) returns (ok: bool, phases: nat)
    requires c.Inv(0, 0) && n > 0 && Runs(c.h, n, par)
    modifies c, c.stack, c.marks
    ensures ok <==> old(c.state) in {Idle, Invalid}
    ensures ok ==> c.state == Idle && phases > 0 && c.marks == old(c.marks) && c.marks.Length == |c.h.objs|
    ensures ok ==> forall o: nat :: Reachable(c.h, o) ==> IsMarked(c.marks[..], o)
    ensures ok && old(c.cleared) ==> forall o: nat :: IsMarked(c.marks[..], o) ==> Reachable(c.h, o)
  {
    hide Runs, WellFormed, MarkedReachable, BelowOk, RootsOk, EntriesLive, Unmarked, Work, Spread;
    phases := 0;
    if c.state == Idle {
      c.state := PushRescuers;
    } else if c.state != Invalid {
      return false, phases;
    }
    c.scan := 0;
    var finished := false;
    while !finished
      invariant c.Inv(0, 0) && c.cleared == old(c.cleared) && c.marks == old(c.marks)
      invariant c.stack == old(c.stack) || fresh(c.stack)
      invariant if finished then c.state == Idle && c.Complete() && phases > 0 else c.state != Idle
      invariant !finished && phases > 0 ==> c.Restarted()
      decreases !finished, phases == 0, Unmarked(c.marks[..]), c.Rank(), |c.h.blocks| - c.scan, Work(c.Stack())
    {
      finished, phases := MarkSome(c, n, par, phases);
    }
    Exact(c.h, c.marks[..], c.cleared);
    return true, phases;
  }

  lemma Exact(h: Heap, m: seq<bool>, cleared: bool)
    requires WellFormed(h) && BelowOk(h, m, [], 0, 0, |h.blocks|) && RootsOk(h, m, [], 0, 0)
    requires cleared ==> MarkedReachable(h, m)
    ensures forall o: nat :: Reachable(h, o) ==> IsMarked(m, o)
    ensures cleared ==> forall o: nat :: IsMarked(m, o) ==> Reachable(h, o)
  {
    ClosedMarksReachable(h, m);
  }

  // The marking half of MAK_collect_off with parallel marking: afterwards exactly the reachable objects
  // are marked.
  method Collect(c: Collector, n: nat, par: Phases) returns (ok: bool)
    requires c.Base() && n > 0 && Runs(c.h, n, par)
    modifies c, c.stack, c.marks
    ensures ok && c.marks.Length == |c.h.objs|
    ensures forall o: nat :: o < |c.h.objs| ==> (c.marks[o] <==> Reachable(c.h, o))
  {
    hide Runs;
    c.ClearMarks();
    var phases;
    ok, phases := MarkOffline(c, n, par);
    forall o: nat | o < |c.h.objs|
      ensures c.marks[o] <==> Reachable(c.h, o)
    {
      assert IsMarked(c.marks[..], o) <==> c.marks[o];
    }
  }
}
