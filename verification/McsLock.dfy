// ulib's MCS queue lock with both unlock functions, for any number of threads.
//
// Every action is one atomic access of one thread.  A thread may release the lock with the
// compare-and-swap unlock or with the exchange-only unlock, which takes the queue off the lock word
// for a moment and lets usurpers in.
module McsLock {
  import opened McsQueue

  datatype PC =
    | Idle                                           // holds nothing
    | Ready                                          // own entry reset
    | Arm | Tie | Spin                               // queued behind another entry
    | Critical
    | CasCheck | CasSwap | CasWait                   // compare-and-swap unlock
    | Hand                                           // about to wake the successor
    | XchgCheck | Detach | Reattach | Await | Finish // exchange-only unlock

  // The queue entry of a thread, its program counter and its local variables.  arrival: when the
  // thread exchanged its entry with the lock word.
  datatype Thread = Thread(pc: PC, next: Ptr, locked: bool, tail: Ptr, succ: Ptr, arrival: nat)

  // q records what the accesses mean for the queue; no access depends on it.  fifo: only the
  // compare-and-swap unlock is used.
  datatype State = State(lock: Ptr, ths: seq<Thread>, q: Queue, fifo: bool)

  datatype Action =
    | Reset | SetLocked | Enter | StartCas | StartXchg | LookNext | SeeNext
    | Exchange | TryExchange | SetNext | ClearIfLast | WakeNext | TakeQueue | PutQueue | Complete

  // What the program counter and the thread's own entry must be for an access to come next.
  predicate May(th: Thread, fifo: bool, a: Action) {
    match a
    case Reset => th.pc.Idle?
    case SetLocked => th.pc.Arm?
    case Enter => th.pc.Spin? && !th.locked
    case StartCas => th.pc.Critical?
    case StartXchg => th.pc.Critical? && !fifo
    case LookNext => th.pc.CasCheck? || th.pc.XchgCheck?
    case SeeNext => (th.pc.CasWait? || th.pc.Await?) && th.next.To?
    case Exchange => th.pc.Ready?
    case TryExchange => th.pc.Ready?
    case SetNext => th.pc.Tie?
    case ClearIfLast => th.pc.CasSwap?
    case WakeNext => th.pc.Hand?
    case TakeQueue => th.pc.Detach?
    case PutQueue => th.pc.Reattach?
    case Complete => th.pc.Finish?
  }

  // The accesses that concern only the thread's own entry.
  predicate Local(a: Action) {
    a.Reset? || a.SetLocked? || a.Enter? || a.StartCas? || a.StartXchg? || a.LookNext? || a.SeeNext?
  }

  function Alone(th: Thread, a: Action): Thread
    requires Local(a)
  {
    match a
    case Reset => th.(next := Nil, pc := Ready)
    case SetLocked => th.(locked := true, pc := Tie)
    case Enter => th.(pc := Critical)
    case StartCas => th.(pc := CasCheck)
    case StartXchg => th.(pc := XchgCheck)
    case LookNext => th.(pc := if th.next.To? then Hand else if th.pc.CasCheck? then CasSwap else Detach)
    case SeeNext => th.(pc := if th.pc.CasWait? then Hand else Finish)
  }

  // The other accesses follow a pointer, which must lead somewhere.  AlwaysDefined: it does.
  predicate Defined(s: State, t: nat, a: Action)
    requires t < |s.ths|
  {
    var th := s.ths[t];
    && |s.ths| == |s.q.nodes| == |s.q.spots| && s.lock == s.q.lock && (s.lock.To? ==> s.lock.t < |s.ths|)
    && (a.SetNext? ==> th.tail.To? && th.tail.t < |s.ths| && s.q.nodes[t].target == th.tail)
    && (a.WakeNext? || a.Complete? ==> th.next.To? && th.next.t < |s.ths| && s.q.nodes[t].next == th.next)
    && (a.Complete? && th.succ.To? ==> th.succ.t < |s.ths| && s.q.nodes[t].target == th.succ)
  }

  predicate Enabled(s: State, t: nat, a: Action) {
    t < |s.ths| && May(s.ths[t], s.fifo, a) && Defined(s, t, a)
  }

  function Put(s: State, t: nat, th: Thread): State
    requires t < |s.ths|
  {
    s.(ths := s.ths[t := th])
  }

  // Exchange the own entry with the lock word.
  function Queued(s: State, t: nat): State
    requires Enabled(s, t, Exchange) || Enabled(s, t, TryExchange)
  {
    Put(s.(lock := To(t), q := Join(s.q, t)), t,
        s.ths[t].(tail := s.lock, arrival := s.q.limit, pc := if s.lock.Nil? then Critical else Arm))
  }

  // Store to the next pointer of entry a and go on.
  function Linked(s: State, t: nat, a: nat, next: Ptr, pc: PC, q: Queue): State
    requires t < |s.ths| && a < |s.ths|
  {
    var ths := s.ths[a := s.ths[a].(next := next)];
    s.(ths := ths[t := ths[t].(pc := pc)], q := q)
  }

  // Clear the lock flag of the next entry and leave.
  function Woken(s: State, t: nat): State
    requires t < |s.ths| == |s.q.nodes| == |s.q.spots| && s.ths[t].next.To? && s.ths[t].next.t < |s.ths|
    requires s.q.nodes[t].next == s.ths[t].next
  {
    var n := s.ths[t].next.t;
    var ths := s.ths[n := s.ths[n].(locked := false)];
    s.(ths := ths[t := ths[t].(pc := Idle)], q := Pass(s.q, t))
  }

  function Do(s: State, t: nat, a: Action): State
    requires Enabled(s, t, a)
  {
    var th := s.ths[t];
    if Local(a) then Put(s, t, Alone(th, a)) else Share(s, t, a)
  }

  function Share(s: State, t: nat, a: Action): State
    requires Enabled(s, t, a) && !Local(a)
  {
    var th := s.ths[t];
    match a
    case Exchange => Queued(s, t)
    case TryExchange => if s.lock.Nil? then Queued(s, t) else Put(s, t, th.(pc := Idle))
    case SetNext => Linked(s, t, th.tail.t, To(t), Spin, LinkUp(s.q, t))
    case ClearIfLast => if s.lock == To(t) then Cleared(s, t) else Put(s, t, th.(pc := CasWait))
    case WakeNext => Woken(s, t)
    case TakeQueue => if s.lock == To(t) then Cleared(s, t) else Detached(s, t)
    case PutQueue => Reattached(s, t)
    case Complete =>
      if th.succ.To? then Linked(s, t, th.succ.t, th.next, Idle, SpliceIn(s.q, t)) else Woken(s, t)
  }

  // Clear the lock word, which holds the own entry.
  function Cleared(s: State, t: nat): State
    requires t < |s.ths| == |s.q.nodes| == |s.q.spots|
  {
    Put(s.(lock := Nil, q := Clear(s.q, t)), t, s.ths[t].(pc := Idle))
  }

  // Exchange the lock word, which holds another entry, with nil.
  function Detached(s: State, t: nat): State
    requires t < |s.ths| == |s.q.nodes|
  {
    Put(s.(lock := Nil, q := Take(s.q, t)), t, s.ths[t].(tail := s.lock, pc := Reattach))
  }

  // Exchange the lock word with the entry it held before.
  function Reattached(s: State, t: nat): State
    requires t < |s.ths| == |s.q.nodes| == |s.q.spots| && (s.q.lock.To? ==> s.q.lock.t < |s.q.spots|)
  {
    var q := if s.q.lock.Nil? then PutBackFree(s.q, t) else PutBackBehind(s.q, t);
    Put(s.(lock := s.ths[t].tail, q := q), t, s.ths[t].(succ := s.lock, pc := Await))
  }

  //
  // The threads and the queue.
  //

  function RoleOf(th: Thread): Role {
    match th.pc
    case Idle => Out
    case Ready => Out
    case Arm => Link
    case Tie => Link
    case Spin => if th.locked then Asleep else Own
    case Reattach => Taken
    case Await => if th.succ.Nil? then Own else Splice
    case Finish => if th.succ.Nil? then Own else Splice
    case _ => Own
  }

  function TargetOf(th: Thread): Ptr {
    if RoleOf(th).Splice? then th.succ else th.tail
  }

  // A thread's entry and program counter agree with its part in the queue.
  predicate Agrees(th: Thread, n: Node) {
    && RoleOf(th) == n.role
    && (!n.role.Out? ==> th.next == n.next)
    && (n.role.Link? || n.role.Taken? || n.role.Splice? ==> TargetOf(th) == n.target)
    && (th.pc.Ready? ==> th.next.Nil?)
    && (th.pc.Tie? ==> th.locked)
    && (th.pc.Hand? || th.pc.Finish? ==> th.next.To?)
  }

  ghost predicate Views(ths: seq<Thread>, ns: seq<Node>) {
    |ths| == |ns| && forall t: nat :: t < |ths| ==> Agrees(ths[t], ns[t])
  }

  lemma ViewTwo(ths: seq<Thread>, ns: seq<Node>, a: nat, tha: Thread, na: Node, t: nat, th: Thread, n: Node)
    requires Views(ths, ns) && a < |ths| && t < |ths| && (a != t ==> Agrees(tha, na)) && Agrees(th, n)
    ensures Views(ths[a := tha][t := th], ns[a := na][t := n])
  {
  }

  lemma ViewOne(ths: seq<Thread>, ns: seq<Node>, t: nat, th: Thread, n: Node)
    requires Views(ths, ns) && t < |ths| && Agrees(th, n)
    ensures Views(ths[t := th], ns[t := n])
  {
  }

  // With the compare-and-swap unlock only, there is one queue and it is in order of arrival.
  ghost predicate InOrder(lock: Ptr, ths: seq<Thread>, ss: seq<Spot>) {
    && |ths| == |ss|
    && (forall t: nat :: t < |ths| ==> CasOnly(ths[t]))
    && (forall t: nat :: InUse(ss, t) ==> ths[t].arrival == ss[t].place && lock.To? && SameChain(ss, t, lock.t))
  }

  predicate CasOnly(th: Thread) {
    !(th.pc.XchgCheck? || th.pc.Detach? || th.pc.Reattach? || th.pc.Await? || th.pc.Finish?)
  }

  ghost predicate StateInv(s: State) {
    && McsQueue.Inv(s.q)
    && s.lock == s.q.lock
    && Views(s.ths, s.q.nodes)
    && (s.fifo ==> InOrder(s.lock, s.ths, s.q.spots))
  }

  // The entry of another thread that is in the queue.
  predicate Entry(s: State, t: nat, p: Ptr) {
    p.To? && p.t < |s.ths| && p.t != t && !RoleOf(s.ths[p.t]).Out?
  }

  // The entries of other threads that an access stores to.
  ghost predicate Follows(s: State, t: nat, a: Action)
    requires t < |s.ths|
  {
    var th := s.ths[t];
    && (a.SetNext? ==> Entry(s, t, th.tail))
    && (a.WakeNext? ==> Entry(s, t, th.next))
    && (a.Complete? ==> Entry(s, t, if th.succ.To? then th.succ else th.next))
  }

  // Every pointer an access follows leads to an entry that another thread has in the queue.
  lemma AlwaysDefined(s: State, t: nat, a: Action)
    requires StateInv(s) && t < |s.ths| && May(s.ths[t], s.fifo, a)
    ensures Enabled(s, t, a) && Follows(s, t, a)
  {
    assert Agrees(s.ths[t], s.q.nodes[t]);
    if a.SetNext? || a.WakeNext? || a.Complete? {
      assert NodeInv(s.q, t);
      if RoleOf(s.ths[t]).Own? {
        Successor(s.q, t);
        assert Agrees(s.ths[s.q.nodes[t].next.t], s.q.nodes[s.q.nodes[t].next.t]);
      } else {
        PendingLink(s.q, t);
        assert Agrees(s.ths[s.q.nodes[t].target.t], s.q.nodes[s.q.nodes[t].target.t]);
      }
    }
  }

  // A step that leaves the thread's part in the queue as it is.
  lemma QuietKeeps(s: State, t: nat, th: Thread)
    requires StateInv(s) && t < |s.ths| && Agrees(th, s.q.nodes[t]) && th.arrival == s.ths[t].arrival
    requires s.fifo ==> CasOnly(th)
    ensures StateInv(Put(s, t, th))
  {
  }

  lemma AloneAgrees(th: Thread, n: Node, fifo: bool, a: Action)
    requires Agrees(th, n) && Local(a) && May(th, fifo, a) && (fifo ==> CasOnly(th))
    ensures Agrees(Alone(th, a), n) && (fifo ==> CasOnly(Alone(th, a))) && Alone(th, a).arrival == th.arrival
  {
  }

  lemma AloneKeeps(s: State, t: nat, a: Action)
    requires StateInv(s) && Enabled(s, t, a) && Local(a)
    ensures StateInv(Do(s, t, a))
  {
    AloneAgrees(s.ths[t], s.q.nodes[t], s.fifo, a);
    QuietKeeps(s, t, Alone(s.ths[t], a));
  }

  //
  // The steps that move the queue.
  //

  lemma QueuedInOrder(s: State, t: nat)
    requires Enabled(s, t, Exchange) && !s.q.spots[t].used && InOrder(s.lock, s.ths, s.q.spots)
    ensures var s' := Queued(s, t); InOrder(s'.lock, s'.ths, s'.q.spots)
  {
    EnterBefore(s.q.spots, t, if s.lock.Nil? then s.q.limit else s.q.spots[s.lock.t].chain, s.q.limit);
  }

  lemma QueuedKeeps(s: State, t: nat)
    requires StateInv(s) && Enabled(s, t, Exchange)
    ensures StateInv(Queued(s, t))
  {
    JoinKeeps(s.q, t);
    if s.fifo {
      QueuedInOrder(s, t);
    }
  }

  // The links of the threads follow the links of the queue.
  lemma LinkedViews(ths: seq<Thread>, ns: seq<Node>, t: nat, a: nat, next: Ptr, pc: PC, role: Role)
    requires Views(ths, ns) && t < |ths| && a < |ths| && a != t && next.To?
    requires Agrees(ths[t].(pc := pc), ns[t].(role := role)) && !ns[a].role.Out?
    ensures var ths', ns' := ths[a := ths[a].(next := next)], ns[a := ns[a].(next := next)];
            Views(ths'[t := ths'[t].(pc := pc)], ns'[t := ns'[t].(role := role)])
  {
    ViewTwo(ths, ns, a, ths[a].(next := next), ns[a].(next := next), t, ths[t].(pc := pc), ns[t].(role := role));
  }

  // Threads that keep the lock word and their arrival keep the order.
  lemma SameOrder(lock: Ptr, ths: seq<Thread>, ths': seq<Thread>, ss: seq<Spot>)
    requires InOrder(lock, ths, ss) && |ths| == |ths'|
    requires forall u: nat :: u < |ths| ==> CasOnly(ths'[u]) && ths'[u].arrival == ths[u].arrival
    ensures InOrder(lock, ths', ss)
  {
  }

  // What a pending link says about its target.
  lemma PendingLink(q: Queue, t: nat)
    requires McsQueue.Inv(q) && t < |q.nodes| && (q.nodes[t].role.Link? || q.nodes[t].role.Splice?)
    ensures var a := q.nodes[t].target; a.To? && a.t < |q.nodes| && a.t != t && !q.nodes[a.t].role.Out?
  {
    assert NodeInv(q, t) && Before(q.spots, q.nodes[t].target.t, t);
  }

  lemma SetNextOrder(s: State, t: nat)
    requires Enabled(s, t, SetNext) && s.fifo && InOrder(s.lock, s.ths, s.q.spots)
    ensures InOrder(s.lock, Share(s, t, SetNext).ths, s.q.spots)
  {
    SameOrder(s.lock, s.ths, Share(s, t, SetNext).ths, s.q.spots);
  }

  lemma SetNextKeeps(s: State, t: nat)
    requires StateInv(s) && Enabled(s, t, SetNext)
    ensures StateInv(Share(s, t, SetNext))
  {
    PendingLink(s.q, t);
    LinkedViews(s.ths, s.q.nodes, t, s.ths[t].tail.t, To(t), Spin, Asleep);
    if s.fifo {
      SetNextOrder(s, t);
    }
    LinkUpKeeps(s.q, t);
  }

  // The exchange-only unlock is not among the steps of a run in order.
  lemma NotInOrder(s: State, t: nat)
    requires StateInv(s) && t < |s.ths| && !CasOnly(s.ths[t])
    ensures !s.fifo
  {
  }

  lemma SpliceKeeps(s: State, t: nat)
    requires StateInv(s) && Enabled(s, t, Complete) && s.ths[t].succ.To?
    ensures StateInv(Share(s, t, Complete))
  {
    assert Agrees(s.ths[t], s.q.nodes[t]);
    PendingLink(s.q, t);
    SpliceInKeeps(s.q, t);
    LinkedViews(s.ths, s.q.nodes, t, s.ths[t].succ.t, s.ths[t].next, Idle, Out);
    NotInOrder(s, t);
  }

  lemma WokenViews(ths: seq<Thread>, ns: seq<Node>, t: nat, b: nat)
    requires Views(ths, ns) && t < |ths| && b < |ths| && b != t && ns[b].role.Asleep?
    ensures var ths', ns' := ths[b := ths[b].(locked := false)], ns[b := ns[b].(role := Own)];
            Views(ths'[t := ths'[t].(pc := Idle)], ns'[t := ns'[t].(role := Out)])
  {
    ViewTwo(ths, ns, b, ths[b].(locked := false), ns[b].(role := Own), t, ths[t].(pc := Idle), ns[t].(role := Out));
  }

  lemma LeaveInOrder(lock: Ptr, ths: seq<Thread>, ss: seq<Spot>, t: nat)
    requires InOrder(lock, ths, ss) && t < |ths| && lock != To(t)
    ensures InOrder(lock, ths, Leave(ss, t))
  {
    LeaveBefore(ss, t);
  }

  // An owner that has a successor: the successor sleeps, and the lock word holds another entry.
  lemma Successor(q: Queue, t: nat)
    requires McsQueue.Inv(q) && t < |q.nodes| && q.nodes[t].role.Own? && q.nodes[t].next.To?
    ensures var b := q.nodes[t].next.t; b < |q.nodes| && b != t && q.nodes[b].role.Asleep? && q.lock != To(t)
  {
    assert NodeInv(q, t);
    NeighboursUnique(q.spots, q.limit, t, q.nodes[t].next.t);
  }

  lemma WokenKeeps(s: State, t: nat)
    requires StateInv(s) && t < |s.ths| && RoleOf(s.ths[t]).Own? && s.ths[t].next.To?
    ensures s.ths[t].next.t < |s.ths| && s.q.nodes[t].next == s.ths[t].next && StateInv(Woken(s, t))
  {
    assert Agrees(s.ths[t], s.q.nodes[t]);
    Successor(s.q, t);
    PassKeeps(s.q, t);
    WokenViews(s.ths, s.q.nodes, t, s.ths[t].next.t);
    if s.fifo {
      LeaveInOrder(s.lock, s.ths, s.q.spots, t);
      SameOrder(s.lock, s.ths, Woken(s, t).ths, Leave(s.q.spots, t));
    }
  }

  // The only entry of the only queue leaves.
  lemma ClearedInOrder(s: State, t: nat)
    requires InOrder(s.lock, s.ths, s.q.spots) && s.lock == To(t) && First(s.q.spots, t) && Last(s.q.spots, t)
    ensures forall u: nat :: !InUse(Leave(s.q.spots, t), u)
  {
    LeaveBefore(s.q.spots, t);
    forall u: nat | u != t
      ensures !InUse(s.q.spots, u)
    {
      assert InUse(s.q.spots, u) ==> SameChain(s.q.spots, t, u);
    }
  }

  lemma ClearedKeeps(s: State, t: nat)
    requires StateInv(s) && t < |s.ths| && RoleOf(s.ths[t]).Own? && s.lock == To(t)
    ensures StateInv(Cleared(s, t))
  {
    assert Agrees(s.ths[t], s.q.nodes[t]) && NodeInv(s.q, t);
    ClearKeeps(s.q, t);
    if s.fifo {
      ClearedInOrder(s, t);
    }
  }

  lemma DetachedKeeps(s: State, t: nat)
    requires StateInv(s) && Enabled(s, t, TakeQueue) && s.lock != To(t)
    ensures StateInv(Detached(s, t))
  {
    TakeKeeps(s.q, t);
    NotInOrder(s, t);
  }

  lemma ReattachedKeeps(s: State, t: nat)
    requires StateInv(s) && Enabled(s, t, PutQueue)
    ensures StateInv(Reattached(s, t))
  {
    NotInOrder(s, t);
    ReattachedViews(s, t);
    if s.q.lock.Nil? {
      PutBackFreeKeeps(s.q, t);
    } else {
      PutBackBehindKeeps(s.q, t);
    }
  }

  lemma ReattachedViews(s: State, t: nat)
    requires Views(s.ths, s.q.nodes) && t < |s.ths| && s.ths[t].pc.Reattach? && |s.q.nodes| == |s.q.spots|
    requires s.lock == s.q.lock && (s.lock.To? ==> s.lock.t < |s.ths|)
    ensures var s' := Reattached(s, t); Views(s'.ths, s'.q.nodes) && s'.lock == s'.q.lock
  {
    ViewOne(s.ths, s.q.nodes, t, Reattached(s, t).ths[t], Reattached(s, t).q.nodes[t]);
  }

  lemma ShareKeeps(s: State, t: nat, a: Action)
    requires StateInv(s) && Enabled(s, t, a) && !Local(a)
    ensures StateInv(Share(s, t, a))
  {
    var th := s.ths[t];
    match a
    case Exchange => QueuedKeeps(s, t);
    case TryExchange => if s.lock.Nil? { QueuedKeeps(s, t); } else { QuietKeeps(s, t, th.(pc := Idle)); }
    case SetNext => SetNextKeeps(s, t);
    case WakeNext => WokenKeeps(s, t);
    case ClearIfLast => if s.lock == To(t) { ClearedKeeps(s, t); } else { QuietKeeps(s, t, th.(pc := CasWait)); }
    case TakeQueue => if s.lock == To(t) { ClearedKeeps(s, t); } else { DetachedKeeps(s, t); }
    case PutQueue => ReattachedKeeps(s, t);
    case Complete => if th.succ.To? { SpliceKeeps(s, t); } else { WokenKeeps(s, t); }
  }

  lemma StepKeeps(s: State, t: nat, a: Action)
    requires StateInv(s) && Enabled(s, t, a)
    ensures StateInv(Do(s, t, a))
  {
    if Local(a) {
      AloneKeeps(s, t, a);
    } else {
      ShareKeeps(s, t, a);
    }
  }

  //
  // Runs.
  //

  predicate Init(s: State) {
    && s.lock.Nil? && s.q == Queue(Nil, Nil, s.q.nodes, s.q.spots, 0)
    && |s.ths| == |s.q.nodes| == |s.q.spots|
    && (forall t: nat :: t < |s.ths| ==> s.ths[t].pc.Idle? && s.q.nodes[t].role.Out? && !s.q.spots[t].used)
  }

  lemma InitInv(s: State)
    requires Init(s)
    ensures StateInv(s)
  {
  }

  // Every two states are joined by one access of one thread.
  ghost predicate Run(ss: seq<State>) {
    && |ss| > 0 && Init(ss[0])
    && (forall i: nat :: i + 1 < |ss| ==> Step(ss[i], ss[i + 1]))
  }

  ghost predicate Step(s: State, s': State) {
    exists t: nat, a :: Enabled(s, t, a) && s' == Do(s, t, a)
  }

  lemma StepInv(s: State, s': State)
    requires StateInv(s) && Step(s, s')
    ensures StateInv(s') && s'.fifo == s.fifo && |s'.ths| == |s.ths|
  {
    hide StateInv;
    var t: nat, a :| Enabled(s, t, a) && s' == Do(s, t, a);
    StepKeeps(s, t, a);
  }

  lemma {:induction false} RunInv(ss: seq<State>, i: nat)
    requires Run(ss) && i < |ss|
    ensures StateInv(ss[i]) && ss[i].fifo == ss[0].fifo && |ss[i].ths| == |ss[0].ths|
    decreases i
  {
    hide StateInv, Step, Init;
    if i == 0 {
      InitInv(ss[0]);
    } else {
      RunInv(ss, i - 1);
      assert Step(ss[i - 1], ss[i - 1 + 1]);
      StepInv(ss[i - 1], ss[i]);
    }
  }

  // The thread is between the return of a lock function and the end of an unlock function's first
  // access that gives the lock away.
  predicate Inside(th: Thread) {
    th.pc.Critical? || th.pc.CasCheck? || th.pc.XchgCheck?
  }

  // Queued: the thread has exchanged its entry with the lock word and not yet left.
  predicate Waiting(th: Thread) {
    th.pc.Arm? || th.pc.Tie? || th.pc.Spin?
  }

  // In every run, whichever unlock functions are used, at most one thread is inside, the lock word
  // is then set, and the pointers the code follows are defined.
  lemma MutualExclusion(ss: seq<State>, i: nat, t: nat, u: nat)
    requires Run(ss) && i < |ss| && t < |ss[i].ths| && Inside(ss[i].ths[t])
    ensures ss[i].lock.To?
    ensures u < |ss[i].ths| && Inside(ss[i].ths[u]) ==> u == t
    ensures forall a :: u < |ss[i].ths| && May(ss[i].ths[u], ss[i].fifo, a) ==> Enabled(ss[i], u, a)
  {
    hide Run;
    RunInv(ss, i);
    var s := ss[i];
    assert Agrees(s.ths[t], s.q.nodes[t]) && NodeInv(s.q, t);
    if u < |s.ths| {
      assert Agrees(s.ths[u], s.q.nodes[u]);
      assert s.q.nodes[u].role.Own? ==> NodeInv(s.q, u);
      forall a | May(s.ths[u], s.fifo, a)
        ensures Enabled(s, u, a)
      {
        AlwaysDefined(s, u, a);
      }
    }
  }

  //
  // Order of service.
  //

  lemma OwnerIsFirst(s: State, t: nat, u: nat)
    requires InOrder(s.lock, s.ths, s.q.spots) && LockInv(s.q) && s.q.owner == To(t) && s.lock == s.q.lock
    requires InUse(s.q.spots, u) && u != t
    ensures s.ths[t].arrival < s.ths[u].arrival
  {
    assert SameChain(s.q.spots, t, u);
    assert Before(s.q.spots, t, u);
  }

  // In every run with the compare-and-swap unlock only, the thread that is inside arrived before
  // every thread that waits.
  lemma FirstComeFirst(ss: seq<State>, i: nat, t: nat, u: nat)
    requires Run(ss) && i < |ss| && ss[0].fifo
    requires t < |ss[i].ths| && Inside(ss[i].ths[t]) && u < |ss[i].ths| && Waiting(ss[i].ths[u])
    ensures ss[i].ths[t].arrival < ss[i].ths[u].arrival
  {
    RunInv(ss, i);
    IsOwner(ss[i], t);
    assert Agrees(ss[i].ths[u], ss[i].q.nodes[u]);
    OwnerIsFirst(ss[i], t, u);
  }

  lemma IsOwner(s: State, t: nat)
    requires StateInv(s) && t < |s.ths| && RoleOf(s.ths[t]).Own?
    ensures s.q.owner == To(t) && InUse(s.q.spots, t)
  {
    assert Agrees(s.ths[t], s.q.nodes[t]) && NodeInv(s.q, t);
  }

  // When the owner arrived, or when the next thread to arrive at a free lock will.
  function Front(q: Queue): nat {
    if q.owner.To? && q.owner.t < |q.spots| then q.spots[q.owner.t].place else q.limit
  }

  predicate Forward(q: Queue, q': Queue) {
    && Front(q) <= Front(q')
    && (Front(q) == Front(q') && q.owner.To? ==> q'.owner == q.owner)
  }

  lemma PassForward(q: Queue, t: nat)
    requires McsQueue.Inv(q) && t < |q.nodes| && q.nodes[t].role.Own? && q.nodes[t].next.To?
    requires q.nodes[t].next.t < |q.nodes|
    ensures Forward(q, Pass(q, t))
  {
    assert NodeInv(q, t) && Before(q.spots, t, q.nodes[t].next.t);
  }

  lemma ShareForward(s: State, t: nat, a: Action)
    requires StateInv(s) && Enabled(s, t, a) && !Local(a) && s.fifo
    ensures Forward(s.q, Share(s, t, a).q)
  {
    assert Agrees(s.ths[t], s.q.nodes[t]) && CasOnly(s.ths[t]);
    if a.WakeNext? {
      PassForward(s.q, t);
    }
  }

  lemma StepForward(s: State, s': State)
    requires StateInv(s) && Step(s, s') && s.fifo
    ensures Forward(s.q, s'.q)
  {
    hide StateInv;
    var t: nat, a :| Enabled(s, t, a) && s' == Do(s, t, a);
    if !Local(a) {
      ShareForward(s, t, a);
    }
  }

  lemma {:induction false} RunForward(ss: seq<State>, i: nat, j: nat)
    requires Run(ss) && i <= j < |ss| && ss[0].fifo
    ensures Forward(ss[i].q, ss[j].q)
    decreases j
  {
    hide StateInv, Step, Init;
    if i < j {
      RunForward(ss, i, j - 1);
      RunInv(ss, j - 1);
      assert Step(ss[j - 1], ss[j - 1 + 1]);
      StepForward(ss[j - 1], ss[j]);
    }
  }

  lemma FrontIsArrival(s: State, t: nat)
    requires StateInv(s) && s.fifo && t < |s.ths| && RoleOf(s.ths[t]).Own?
    ensures s.q.owner == To(t) && Front(s.q) == s.ths[t].arrival
  {
    IsOwner(s, t);
  }

  // In every run with the compare-and-swap unlock only, threads are inside in the order of their
  // arrival: one that is inside later arrived later.
  lemma ServedInOrder(ss: seq<State>, i: nat, j: nat, t: nat, u: nat)
    requires Run(ss) && i <= j < |ss| && ss[0].fifo
    requires t < |ss[i].ths| && Inside(ss[i].ths[t]) && u < |ss[j].ths| && Inside(ss[j].ths[u])
    ensures ss[i].ths[t].arrival <= ss[j].ths[u].arrival
    ensures t != u ==> ss[i].ths[t].arrival < ss[j].ths[u].arrival
  {
    hide StateInv, Run;
    RunInv(ss, i);
    RunInv(ss, j);
    RunForward(ss, i, j);
    FrontIsArrival(ss[i], t);
    FrontIsArrival(ss[j], u);
  }
}
