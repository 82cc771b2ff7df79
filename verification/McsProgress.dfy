// The MCS lock does not get stuck: while a thread is queued, some queued thread can go on.
module McsProgress {
  import opened McsQueue
  import L = McsLock

  //
  // What the moves of the queue keep besides its invariant.
  //

  // Some entry in use leads to entry b.
  ghost predicate Pointed(q: Queue, b: nat) {
    exists a: nat :: a < |q.nodes| && q.nodes[a].next == To(b) && !q.nodes[a].role.Out?
  }

  ghost predicate AllPointed(q: Queue) {
    forall b: nat :: b < |q.nodes| && q.nodes[b].role.Asleep? ==> Pointed(q, b)
  }

  // Some entry stands behind entry w.
  ghost predicate Followed(ss: seq<Spot>, w: nat) {
    exists x: nat :: Before(ss, w, x)
  }

  // Entries that are followed stay so, except for entry t.
  ghost predicate KeepsFollowed(ss: seq<Spot>, ss': seq<Spot>, t: nat) {
    forall w: nat :: w != t && Followed(ss, w) ==> Followed(ss', w)
  }

  // The witness of Pointed survives a move that keeps its node.
  lemma StillPointed(q: Queue, q': Queue, b: nat, a: nat)
    requires a < |q.nodes| == |q'.nodes| && q'.nodes[a].next == To(b) && !q'.nodes[a].role.Out?
    ensures Pointed(q', b)
  {
  }

  lemma JoinProgress(q: Queue, t: nat)
    requires Inv(q) && AllPointed(q) && t < |q.nodes| && q.nodes[t].role.Out? && (q.lock.To? ==> q.lock.t < |q.spots|)
    ensures AllPointed(Join(q, t)) && KeepsFollowed(q.spots, Join(q, t).spots, t)
  {
    var q' := Join(q, t);
    forall b: nat | b < |q.nodes| && q'.nodes[b].role.Asleep?
      ensures Pointed(q', b)
    {
      assert Pointed(q, b);
      var a: nat :| a < |q.nodes| && q.nodes[a].next == To(b) && !q.nodes[a].role.Out?;
      StillPointed(q, q', b, a);
    }
    forall w: nat | w != t && Followed(q.spots, w)
      ensures Followed(q'.spots, w)
    {
      var x: nat :| Before(q.spots, w, x);
      assert Before(q'.spots, w, x);
    }
  }

  lemma LinkUpProgress(q: Queue, t: nat)
    requires Inv(q) && AllPointed(q) && t < |q.nodes| && q.nodes[t].role.Link?
    requires q.nodes[t].target.To? && q.nodes[t].target.t < |q.nodes|
    ensures AllPointed(LinkUp(q, t)) && LinkUp(q, t).spots == q.spots
  {
    var q', c := LinkUp(q, t), q.nodes[t].target.t;
    assert NodeInv(q, t) && Before(q.spots, c, t);
    NeighboursUnique(q.spots, q.limit, c, t);
    forall b: nat | b < |q.nodes| && q'.nodes[b].role.Asleep?
      ensures Pointed(q', b)
    {
      if b == t {
        StillPointed(q, q', t, c);
      } else {
        assert Pointed(q, b);
        var a: nat :| a < |q.nodes| && q.nodes[a].next == To(b) && !q.nodes[a].role.Out?;
        assert NodeInv(q, a);
        StillPointed(q, q', b, a);
      }
    }
  }

  // An entry that leaves, and whoever was behind it.
  lemma LeaveProgress(q: Queue, t: nat)
    requires Inv(q) && t < |q.nodes| && !q.nodes[t].role.Out?
    requires First(q.spots, t) || Followed(q.spots, t)
    ensures KeepsFollowed(q.spots, Leave(q.spots, t), t)
  {
    LeaveBefore(q.spots, t);
    forall w: nat | w != t && Followed(q.spots, w)
      ensures Followed(Leave(q.spots, t), w)
    {
      var x: nat :| Before(q.spots, w, x);
      if x != t {
        assert Before(Leave(q.spots, t), w, x);
      } else {
        assert SameChain(q.spots, t, w);
        var y: nat :| Before(q.spots, t, y);
        assert Before(Leave(q.spots, t), w, y);
      }
    }
  }

  lemma PassProgress(q: Queue, t: nat)
    requires Inv(q) && AllPointed(q) && t < |q.nodes| && q.nodes[t].role.Own?
    requires q.nodes[t].next.To? && q.nodes[t].next.t < |q.nodes|
    ensures AllPointed(Pass(q, t)) && KeepsFollowed(q.spots, Pass(q, t).spots, t)
  {
    var q' := Pass(q, t);
    assert NodeInv(q, t);
    LeaveProgress(q, t);
    forall b: nat | b < |q.nodes| && q'.nodes[b].role.Asleep?
      ensures Pointed(q', b)
    {
      assert Pointed(q, b);
      var a: nat :| a < |q.nodes| && q.nodes[a].next == To(b) && !q.nodes[a].role.Out?;
      StillPointed(q, q', b, a);
    }
  }

  lemma ClearProgress(q: Queue, t: nat)
    requires Inv(q) && AllPointed(q) && t < |q.nodes| && q.nodes[t].role.Own? && q.lock == To(t)
    ensures AllPointed(Clear(q, t)) && KeepsFollowed(q.spots, Clear(q, t).spots, t)
  {
    var q' := Clear(q, t);
    assert NodeInv(q, t);
    LeaveProgress(q, t);
    forall b: nat | b < |q.nodes| && q'.nodes[b].role.Asleep?
      ensures Pointed(q', b)
    {
      assert Pointed(q, b);
      var a: nat :| a < |q.nodes| && q.nodes[a].next == To(b) && !q.nodes[a].role.Out?;
      assert NodeInv(q, a);
      StillPointed(q, q', b, a);
    }
  }

  // Moves that change the part of one entry, but no link.
  lemma RoleProgress(q: Queue, q': Queue, t: nat)
    requires AllPointed(q) && t < |q.nodes| == |q'.nodes| && q'.nodes == q.nodes[t := q'.nodes[t]]
    requires q'.nodes[t].next == q.nodes[t].next
    requires !q'.nodes[t].role.Out? && !q'.nodes[t].role.Asleep?
    ensures AllPointed(q')
  {
    forall b: nat | b < |q.nodes| && q'.nodes[b].role.Asleep?
      ensures Pointed(q', b)
    {
      assert Pointed(q, b);
      var a: nat :| a < |q.nodes| && q.nodes[a].next == To(b) && !q.nodes[a].role.Out?;
      StillPointed(q, q', b, a);
    }
  }

  lemma PutBackProgress(q: Queue, t: nat)
    requires Inv(q) && AllPointed(q) && t < |q.nodes| && q.nodes[t].role.Taken?
    requires q.lock.To? ==> q.lock.t < |q.spots|
    ensures var q' := if q.lock.Nil? then PutBackFree(q, t) else PutBackBehind(q, t);
            AllPointed(q') && KeepsFollowed(q.spots, q'.spots, t) && Followed(q'.spots, t)
  {
    assert NodeInv(q, t) && Before(q.spots, t, q.nodes[t].target.t);
    if q.lock.Nil? {
      RoleProgress(q, PutBackFree(q, t), t);
    } else {
      var from, to := q.spots[t].chain, q.spots[q.lock.t].chain;
      assert !SameChain(q.spots, t, q.lock.t) && from != to;
      RoleProgress(q, PutBackBehind(q, t), t);
      AppendBefore(q.spots, q.limit, from, to);
      forall w: nat | Followed(q.spots, w)
        ensures Followed(PutBackBehind(q, t).spots, w)
      {
        var x: nat :| Before(q.spots, w, x);
        assert Before(PutBackBehind(q, t).spots, w, x);
      }
      assert Followed(q.spots, t);
    }
  }

  lemma SpliceInProgress(q: Queue, t: nat)
    requires Inv(q) && AllPointed(q) && t < |q.nodes| && q.nodes[t].role.Splice? && q.nodes[t].next.To?
    requires q.nodes[t].target.To? && q.nodes[t].target.t < |q.nodes|
    ensures AllPointed(SpliceIn(q, t)) && KeepsFollowed(q.spots, SpliceIn(q, t).spots, t)
  {
    var q', c := SpliceIn(q, t), q.nodes[t].target.t;
    assert NodeInv(q, t) && Before(q.spots, c, t) && Before(q.spots, t, q.nodes[t].next.t);
    NeighboursUnique(q.spots, q.limit, c, t);
    LeaveProgress(q, t);
    forall b: nat | b < |q.nodes| && q'.nodes[b].role.Asleep?
      ensures Pointed(q', b)
    {
      assert Pointed(q, b);
      var a: nat :| a < |q.nodes| && q.nodes[a].next == To(b) && !q.nodes[a].role.Out?;
      assert NodeInv(q, a);
      StillPointed(q, q', b, if a == t then c else a);
    }
  }

  //
  // Threads.
  //

  // The thread waits for its own entry to be linked.
  predicate AwaitsLink(pc: L.PC) {
    pc.CasWait? || pc.Await?
  }

  ghost predicate ProgressInv(s: L.State) {
    AllPointed(s.q) && forall t: nat :: t < |s.ths| && AwaitsLink(s.ths[t].pc) ==> Followed(s.q.spots, t)
  }

  // Threads that await a link go on doing so, and a thread that starts to is followed.
  lemma ThreadsKeep(s: L.State, s': L.State, t: nat)
    requires ProgressInv(s) && AllPointed(s'.q) && |s'.ths| == |s.ths| && KeepsFollowed(s.q.spots, s'.q.spots, t)
    requires forall u: nat :: u < |s.ths| && u != t ==> s'.ths[u].pc == s.ths[u].pc
    requires t < |s.ths| && (AwaitsLink(s'.ths[t].pc) ==> Followed(s'.q.spots, t))
    ensures ProgressInv(s')
  {
  }

  lemma NotLast(q: Queue, t: nat)
    requires Inv(q) && t < |q.nodes| && q.nodes[t].role.Own? && q.lock != To(t)
    ensures Followed(q.spots, t)
  {
    assert NodeInv(q, t);
    assert Before(q.spots, t, q.lock.t);
  }

  lemma SameFollowed(ss: seq<Spot>, t: nat)
    ensures KeepsFollowed(ss, ss, t)
  {
  }

  // The part of thread t in the queue.
  lemma Part(s: L.State, t: nat)
    requires L.StateInv(s) && t < |s.ths|
    ensures Inv(s.q) && |s.ths| == |s.q.nodes| == |s.q.spots| && s.lock == s.q.lock && L.Agrees(s.ths[t], s.q.nodes[t])
  {
    hide L.Agrees;
  }

  // What a move of thread t keeps.
  ghost predicate KeepsProgress(s: L.State, s': L.State, t: nat) {
    && AllPointed(s'.q) && KeepsFollowed(s.q.spots, s'.q.spots, t)
    && t < |s'.ths| && (AwaitsLink(s'.ths[t].pc) ==> Followed(s'.q.spots, t))
  }

  lemma ClearedStep(s: L.State, t: nat)
    requires L.StateInv(s) && AllPointed(s.q) && t < |s.ths| && L.RoleOf(s.ths[t]).Own? && s.lock == To(t)
    ensures |s.ths| == |s.q.nodes| == |s.q.spots| && KeepsProgress(s, L.Cleared(s, t), t)
  {
    hide AllPointed, KeepsFollowed, Followed, Inv, Clear, L.StateInv;
    Part(s, t);
    ClearProgress(s.q, t);
  }

  lemma PutQueueStep(s: L.State, t: nat)
    requires L.StateInv(s) && AllPointed(s.q) && L.Enabled(s, t, L.PutQueue)
    ensures KeepsProgress(s, L.Do(s, t, L.PutQueue), t)
  {
    hide AllPointed, KeepsFollowed, Followed, Inv, PutBackFree, PutBackBehind, L.StateInv;
    Part(s, t);
    PutBackProgress(s.q, t);
  }

  // The accesses of the unlocks that may clear the lock word.
  lemma UnlockStep(s: L.State, t: nat, a: L.Action)
    requires L.StateInv(s) && AllPointed(s.q) && L.Enabled(s, t, a) && (a.ClearIfLast? || a.TakeQueue?)
    ensures KeepsProgress(s, L.Do(s, t, a), t)
  {
    hide AllPointed, KeepsProgress, KeepsFollowed, Followed, Inv, L.StateInv, L.Cleared, L.Detached;
    Part(s, t);
    SameFollowed(s.q.spots, t);
    if s.lock == To(t) {
      ClearedStep(s, t);
    } else if a.TakeQueue? {
      DetachedStep(s, t);
    } else {
      WaitStep(s, t);
    }
  }

  lemma DetachedStep(s: L.State, t: nat)
    requires |s.ths| == |s.q.nodes| == |s.q.spots| && AllPointed(s.q) && t < |s.ths|
    ensures KeepsProgress(s, L.Detached(s, t), t)
  {
    hide AllPointed, KeepsFollowed, Followed;
    SameFollowed(s.q.spots, t);
    RoleProgress(s.q, Take(s.q, t), t);
  }

  lemma WaitStep(s: L.State, t: nat)
    requires Inv(s.q) && |s.ths| == |s.q.nodes| && AllPointed(s.q) && t < |s.ths|
    requires s.q.nodes[t].role.Own? && s.q.lock != To(t)
    ensures KeepsProgress(s, L.Put(s, t, s.ths[t].(pc := L.CasWait)), t)
  {
    hide AllPointed, KeepsFollowed, Followed, Inv;
    SameFollowed(s.q.spots, t);
    NotLast(s.q, t);
  }

  lemma JoinStep(s: L.State, t: nat, a: L.Action)
    requires L.StateInv(s) && AllPointed(s.q) && L.Enabled(s, t, a) && (a.Exchange? || a.TryExchange?)
    ensures KeepsProgress(s, L.Do(s, t, a), t)
  {
    hide AllPointed, KeepsFollowed, Followed, Inv, Join, L.StateInv;
    Part(s, t);
    SameFollowed(s.q.spots, t);
    if a.Exchange? || s.lock.Nil? {
      JoinProgress(s.q, t);
    }
  }

  lemma SetNextStep(s: L.State, t: nat)
    requires L.StateInv(s) && AllPointed(s.q) && L.Enabled(s, t, L.SetNext)
    ensures KeepsProgress(s, L.Do(s, t, L.SetNext), t)
  {
    hide AllPointed, KeepsFollowed, Followed, Inv, LinkUp, L.StateInv, L.Linked;
    Part(s, t);
    LinkedParts(s, t, s.ths[t].tail.t, To(t), L.Spin, LinkUp(s.q, t));
    SameFollowed(s.q.spots, t);
    LinkUpProgress(s.q, t);
  }

  lemma WokenStep(s: L.State, t: nat)
    requires L.StateInv(s) && AllPointed(s.q) && t < |s.ths| && L.RoleOf(s.ths[t]).Own? && s.ths[t].next.To?
    ensures s.ths[t].next.t < |s.ths| == |s.q.nodes| == |s.q.spots| && s.q.nodes[t].next == s.ths[t].next
    ensures KeepsProgress(s, L.Woken(s, t), t)
  {
    assert L.Agrees(s.ths[t], s.q.nodes[t]) && NodeInv(s.q, t);
    hide AllPointed, KeepsFollowed, Inv, Pass, L.Views, L.InOrder, NodeInv;
    PassProgress(s.q, t);
  }

  lemma LinkedParts(s: L.State, t: nat, a: nat, next: Ptr, pc: L.PC, q: Queue)
    requires t < |s.ths| && a < |s.ths|
    ensures var s' := L.Linked(s, t, a, next, pc, q); s'.q == q && |s'.ths| == |s.ths| && s'.ths[t].pc == pc
  {
  }

  lemma SplicedStep(s: L.State, t: nat)
    requires L.StateInv(s) && AllPointed(s.q) && L.Enabled(s, t, L.Complete) && s.ths[t].succ.To?
    ensures KeepsProgress(s, L.Do(s, t, L.Complete), t)
  {
    hide AllPointed, KeepsFollowed, Inv, SpliceIn, L.StateInv, L.Linked, L.Woken;
    Part(s, t);
    LinkedParts(s, t, s.ths[t].succ.t, s.ths[t].next, L.Idle, SpliceIn(s.q, t));
    SpliceInProgress(s.q, t);
  }

  lemma NextIsSet(s: L.State, t: nat)
    requires L.StateInv(s) && t < |s.ths| && (s.ths[t].pc.Hand? || s.ths[t].pc.Finish?)
    ensures s.ths[t].next.To?
  {
    assert L.Agrees(s.ths[t], s.q.nodes[t]);
  }

  lemma WakeStep(s: L.State, t: nat, a: L.Action)
    requires L.StateInv(s) && AllPointed(s.q) && L.Enabled(s, t, a) && (a.WakeNext? || a.Complete?)
    ensures KeepsProgress(s, L.Do(s, t, a), t)
  {
    hide AllPointed, KeepsProgress, L.StateInv, L.Woken, L.Linked;
    NextIsSet(s, t);
    if a.Complete? && s.ths[t].succ.To? {
      SplicedStep(s, t);
    } else {
      WokenStep(s, t);
    }
  }

  lemma StepProgress(s: L.State, t: nat, a: L.Action)
    requires L.StateInv(s) && ProgressInv(s) && L.Enabled(s, t, a)
    ensures ProgressInv(L.Do(s, t, a))
  {
    hide AllPointed, Followed, KeepsFollowed, L.StateInv;
    SameFollowed(s.q.spots, t);
    if a.ClearIfLast? || a.TakeQueue? {
      UnlockStep(s, t, a);
    } else if a.PutQueue? {
      PutQueueStep(s, t);
    } else if a.Exchange? || a.TryExchange? {
      JoinStep(s, t, a);
    } else if a.SetNext? {
      SetNextStep(s, t);
    } else if a.WakeNext? || a.Complete? {
      WakeStep(s, t, a);
    }
    ThreadsKeep(s, L.Do(s, t, a), t);
  }

  lemma InitProgress(s: L.State)
    requires L.Init(s)
    ensures ProgressInv(s)
  {
  }

  lemma {:induction false} RunProgress(ss: seq<L.State>, i: nat)
    requires L.Run(ss) && i < |ss|
    ensures ProgressInv(ss[i])
    decreases i
  {
    hide L.StateInv, L.Init, ProgressInv, L.Do;
    if i == 0 {
      InitProgress(ss[0]);
    } else {
      RunProgress(ss, i - 1);
      L.RunInv(ss, i - 1);
      assert L.Step(ss[i - 1], ss[i - 1 + 1]);
      var t: nat, a :| L.Enabled(ss[i - 1], t, a) && ss[i] == L.Do(ss[i - 1], t, a);
      StepProgress(ss[i - 1], t, a);
    }
  }

  //
  // Somebody can go on.
  //

  predicate InQueue(s: L.State, t: nat) {
    t < |s.ths| && !L.RoleOf(s.ths[t]).Out?
  }

  // A thread in the queue can take its next access, which is never a look at a flag or a pointer that
  // has not changed yet.
  ghost predicate GoesOn(s: L.State) {
    exists t: nat, a :: InQueue(s, t) && L.Enabled(s, t, a)
  }

  // A thread of the queue that cannot go on waits for its lock flag or for a link.
  lemma Blocked(s: L.State, t: nat)
    requires L.StateInv(s) && InQueue(s, t) && !GoesOn(s)
    ensures L.RoleOf(s.ths[t]).Asleep? || (AwaitsLink(s.ths[t].pc) && s.ths[t].next.Nil?)
  {
    hide L.StateInv;
    var a: L.Action := match s.ths[t].pc
      case Arm => L.SetLocked
      case Tie => L.SetNext
      case Spin => L.Enter
      case Critical => L.StartCas
      case CasCheck => L.LookNext
      case XchgCheck => L.LookNext
      case CasSwap => L.ClearIfLast
      case CasWait => L.SeeNext
      case Await => L.SeeNext
      case Hand => L.WakeNext
      case Detach => L.TakeQueue
      case Reattach => L.PutQueue
      case _ => L.Complete;
    if L.May(s.ths[t], s.fifo, a) {
      L.AlwaysDefined(s, t, a);
      assert L.Enabled(s, t, a);
    }
  }

  // Sleepers are woken in the end by one that does not sleep.
  lemma {:induction false} NoSleepers(s: L.State, b: nat)
    requires L.StateInv(s) && ProgressInv(s) && !GoesOn(s) && b < |s.ths| && L.RoleOf(s.ths[b]).Asleep?
    ensures false
    decreases s.q.spots[b].place
  {
    hide GoesOn, ProgressInv;
    var a := Waker(s, b);
    Blocked(s, a);
    NoSleepers(s, a);
  }

  lemma Waker(s: L.State, b: nat) returns (a: nat)
    requires L.StateInv(s) && ProgressInv(s) && b < |s.ths| && L.RoleOf(s.ths[b]).Asleep?
    ensures |s.q.spots| == |s.ths| && InQueue(s, a) && s.ths[a].next.To? && s.q.spots[a].place < s.q.spots[b].place
  {
    assert L.Agrees(s.ths[b], s.q.nodes[b]) && Pointed(s.q, b);
    a :| a < |s.q.nodes| && s.q.nodes[a].next == To(b) && !s.q.nodes[a].role.Out?;
    assert L.Agrees(s.ths[a], s.q.nodes[a]) && NodeInv(s.q, a) && Before(s.q.spots, a, b);
  }

  // Every queue has a last entry.
  lemma {:induction false} HasLast(ss: seq<Spot>, limit: nat, a: nat) returns (e: nat)
    requires Ordered(ss, limit) && InUse(ss, a)
    ensures InUse(ss, e) && !Followed(ss, e)
    decreases limit - ss[a].place
  {
    if Followed(ss, a) {
      var x: nat :| Before(ss, a, x);
      e := HasLast(ss, limit, x);
    } else {
      e := a;
    }
  }

  // In every run, with both unlocks mixed at will: while a thread is queued, some queued thread can go on.
  lemma NeverStuck(ss: seq<L.State>, i: nat, w: nat)
    requires L.Run(ss) && i < |ss| && InQueue(ss[i], w)
    ensures GoesOn(ss[i])
  {
    L.RunInv(ss, i);
    RunProgress(ss, i);
    var s := ss[i];
    assert L.Agrees(s.ths[w], s.q.nodes[w]);
    var e := HasLast(s.q.spots, s.q.limit, w);
    assert L.Agrees(s.ths[e], s.q.nodes[e]);
    if !GoesOn(s) {
      Blocked(s, e);
      NoSleepers(s, e);
    }
  }
}
