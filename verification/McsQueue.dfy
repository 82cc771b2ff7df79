// The queue discipline behind an MCS lock: what the accesses of the code mean for the order in
// which threads are served.
module McsQueue {

  datatype Ptr = Nil | To(t: nat)

  //
  // Where entries stand.
  //

  // chain and place say in which queue an entry stands, and where.
  datatype Spot = Spot(used: bool, chain: nat, place: nat)

  predicate InUse(ss: seq<Spot>, a: nat) {
    a < |ss| && ss[a].used
  }

  predicate SameChain(ss: seq<Spot>, a: nat, b: nat) {
    InUse(ss, a) && InUse(ss, b) && ss[a].chain == ss[b].chain
  }

  predicate Before(ss: seq<Spot>, a: nat, b: nat) {
    SameChain(ss, a, b) && ss[a].place < ss[b].place
  }

  // b comes right after a.
  ghost predicate Adjacent(ss: seq<Spot>, a: nat, b: nat) {
    Before(ss, a, b) && forall x: nat :: Before(ss, a, x) ==> !Before(ss, x, b)
  }

  ghost predicate First(ss: seq<Spot>, a: nat) {
    InUse(ss, a) && forall x: nat :: SameChain(ss, a, x) && x != a ==> Before(ss, a, x)
  }

  ghost predicate Last(ss: seq<Spot>, e: nat) {
    InUse(ss, e) && forall x: nat :: SameChain(ss, e, x) && x != e ==> Before(ss, x, e)
  }

  // Places in a chain are distinct, and everything is below limit.
  ghost predicate Ordered(ss: seq<Spot>, limit: nat) {
    && (forall a: nat, b: nat :: SameChain(ss, a, b) && a != b ==> ss[a].place != ss[b].place)
    && (forall a: nat :: InUse(ss, a) ==> ss[a].chain < limit && ss[a].place < limit)
  }

  lemma NeighboursUnique(ss: seq<Spot>, limit: nat, a: nat, b: nat)
    requires Ordered(ss, limit) && Adjacent(ss, a, b)
    ensures forall c: nat :: Adjacent(ss, a, c) ==> c == b
    ensures forall c: nat :: Adjacent(ss, c, b) ==> c == a
    ensures !Last(ss, a) && !First(ss, b) && a != b
  {
    assert SameChain(ss, a, b) && SameChain(ss, b, a);
  }

  // Leaving the queue.
  function Leave(ss: seq<Spot>, t: nat): seq<Spot>
    requires t < |ss|
  {
    ss[t := ss[t].(used := false)]
  }

  lemma LeaveBefore(ss: seq<Spot>, t: nat)
    requires t < |ss|
    ensures forall a: nat, b: nat :: Before(Leave(ss, t), a, b) == (Before(ss, a, b) && a != t && b != t)
    ensures forall a: nat, b: nat :: SameChain(Leave(ss, t), a, b) == (SameChain(ss, a, b) && a != t && b != t)
  {
  }

  lemma LeaveAdjacent(ss: seq<Spot>, t: nat, a: nat, b: nat)
    requires t < |ss| && a != t && b != t && Adjacent(ss, a, b)
    ensures Adjacent(Leave(ss, t), a, b)
  {
    LeaveBefore(ss, t);
  }

  lemma LeaveEnds(ss: seq<Spot>, t: nat, a: nat)
    requires t < |ss| && a != t
    ensures First(ss, a) ==> First(Leave(ss, t), a)
    ensures Last(ss, a) ==> Last(Leave(ss, t), a)
  {
    LeaveBefore(ss, t);
  }

  // The neighbours of an entry that leaves become neighbours.
  lemma LeaveBetween(ss: seq<Spot>, limit: nat, a: nat, t: nat, b: nat)
    requires Ordered(ss, limit) && Adjacent(ss, a, t) && Adjacent(ss, t, b)
    ensures Adjacent(Leave(ss, t), a, b)
  {
    LeaveBefore(ss, t);
    assert Before(ss, a, b);
    forall x: nat | Before(Leave(ss, t), a, x)
      ensures !Before(Leave(ss, t), x, b)
    {
      assert !Before(ss, x, t) && x != t;
      assert Before(ss, t, x);
    }
  }

  // The second entry of a queue whose first one leaves becomes the first.
  lemma LeaveFirst(ss: seq<Spot>, limit: nat, t: nat, b: nat)
    requires Ordered(ss, limit) && First(ss, t) && Adjacent(ss, t, b)
    ensures First(Leave(ss, t), b)
  {
    LeaveBefore(ss, t);
    forall x: nat | SameChain(Leave(ss, t), b, x) && x != b
      ensures Before(Leave(ss, t), b, x)
    {
      assert Before(ss, t, x) && !Before(ss, x, b);
    }
  }

  // Joining a queue behind its last entry, or as a queue of its own.
  function Enter(ss: seq<Spot>, t: nat, chain: nat, place: nat): seq<Spot>
    requires t < |ss|
  {
    ss[t := Spot(true, chain, place)]
  }

  lemma EnterBefore(ss: seq<Spot>, t: nat, chain: nat, place: nat)
    requires t < |ss| && !ss[t].used
    ensures forall a: nat, b: nat :: a != t && b != t ==> Before(Enter(ss, t, chain, place), a, b) == Before(ss, a, b)
    ensures forall a: nat, b: nat :: a != t && b != t ==>
              SameChain(Enter(ss, t, chain, place), a, b) == SameChain(ss, a, b)
  {
  }

  lemma EnterAdjacent(ss: seq<Spot>, limit: nat, t: nat, chain: nat, a: nat, b: nat)
    requires Ordered(ss, limit) && t < |ss| && !ss[t].used && Adjacent(ss, a, b)
    ensures Adjacent(Enter(ss, t, chain, limit), a, b)
  {
    EnterBefore(ss, t, chain, limit);
  }

  lemma EnterEnds(ss: seq<Spot>, limit: nat, t: nat, chain: nat, a: nat)
    requires Ordered(ss, limit) && t < |ss| && !ss[t].used
    ensures First(ss, a) ==> First(Enter(ss, t, chain, limit), a)
    ensures Last(ss, a) && ss[a].chain != chain ==> Last(Enter(ss, t, chain, limit), a)
  {
    EnterBefore(ss, t, chain, limit);
  }

  // The newcomer stands last, right behind the entry that was last before.
  lemma EnterStands(ss: seq<Spot>, limit: nat, t: nat, chain: nat)
    requires Ordered(ss, limit) && t < |ss| && !ss[t].used && chain <= limit
    ensures var ss' := Enter(ss, t, chain, limit);
            && Ordered(ss', limit + 1) && Last(ss', t)
            && (forall e: nat :: Last(ss, e) && ss[e].chain == chain ==> Adjacent(ss', e, t))
            && (chain == limit ==> First(ss', t))
  {
    EnterBefore(ss, t, chain, limit);
  }

  // Moving a whole queue behind another one.
  function Append(ss: seq<Spot>, from: nat, to: nat, offset: nat): (r: seq<Spot>)
    ensures |r| == |ss|
  {
    seq(|ss|, i requires 0 <= i < |ss| =>
      if ss[i].used && ss[i].chain == from then Spot(true, to, ss[i].place + offset) else ss[i])
  }

  // Inside the moved queue and inside the other queues nothing changes; the moved entries come last.
  lemma AppendBefore(ss: seq<Spot>, limit: nat, from: nat, to: nat)
    requires Ordered(ss, limit) && from != to
    ensures var ss' := Append(ss, from, to, limit);
            && (forall a: nat :: InUse(ss', a) == InUse(ss, a))
            && (forall a: nat, b: nat :: SameChain(ss, a, b) ==>
                SameChain(ss', a, b) && (Before(ss', a, b) == Before(ss, a, b)))
            && (forall a: nat, b: nat :: InUse(ss, a) && InUse(ss, b) && ss[a].chain == to && ss[b].chain == from ==>
                Before(ss', a, b))
            && (forall a: nat, b: nat :: SameChain(ss', a, b) ==>
                  SameChain(ss, a, b) || (ss[a].chain == to && ss[b].chain == from)
                      || (ss[a].chain == from && ss[b].chain == to))
  {
  }

  lemma AppendAdjacent(ss: seq<Spot>, limit: nat, from: nat, to: nat, a: nat, b: nat)
    requires Ordered(ss, limit) && from != to && Adjacent(ss, a, b)
    ensures Adjacent(Append(ss, from, to, limit), a, b)
  {
    AppendBefore(ss, limit, from, to);
    var ss' := Append(ss, from, to, limit);
    forall x: nat | Before(ss', a, x)
      ensures !Before(ss', x, b)
    {
    }
  }

  lemma AppendEnds(ss: seq<Spot>, limit: nat, from: nat, to: nat, a: nat)
    requires Ordered(ss, limit) && from != to
    ensures First(ss, a) && ss[a].chain != from ==> First(Append(ss, from, to, limit), a)
    ensures Last(ss, a) && ss[a].chain != to ==> Last(Append(ss, from, to, limit), a)
  {
    AppendBefore(ss, limit, from, to);
  }

  lemma AppendJoint(ss: seq<Spot>, limit: nat, from: nat, to: nat, a: nat, b: nat)
    requires Ordered(ss, limit) && from != to
    requires Last(ss, a) && ss[a].chain == to && First(ss, b) && ss[b].chain == from
    ensures Adjacent(Append(ss, from, to, limit), a, b)
  {
    AppendBefore(ss, limit, from, to);
  }

  lemma AppendOrdered(ss: seq<Spot>, limit: nat, from: nat, to: nat)
    requires Ordered(ss, limit) && from != to
    ensures Ordered(Append(ss, from, to, limit), 2 * limit + to + 1)
  {
  }

  //
  // What entries do.
  //

  // Out: the entry is not in use.  Own: the thread has, or has been given, the lock.  Link: it has
  // joined and will link its entry after target.  Asleep: it is linked and waits.  Taken: it holds
  // the queue that ends with target off the lock word.  Splice: it has put its queue back behind
  // target and will link the two.
  datatype Role = Out | Own | Link | Asleep | Taken | Splice

  datatype Node = Node(role: Role, next: Ptr, target: Ptr)

  datatype Queue = Queue(lock: Ptr, owner: Ptr, nodes: seq<Node>, spots: seq<Spot>, limit: nat)

  // Next pointers and pending links join neighbours; a next pointer leads to a sleeping thread.
  ghost predicate NodeInv(q: Queue, t: nat)
    requires t < |q.nodes|
  {
    var n := q.nodes[t];
    && (n.next.To? ==> Adjacent(q.spots, t, n.next.t) && n.next.t < |q.nodes| && q.nodes[n.next.t].role.Asleep?)
    && (n.role.Link? || n.role.Splice? ==> n.target.To? && Adjacent(q.spots, n.target.t, t))
    && (n.role.Taken? ==>
          && n.target.To? && n.target.t != t
          && First(q.spots, t) && Last(q.spots, n.target.t) && SameChain(q.spots, t, n.target.t))
    && (n.role.Own? <==> q.owner == To(t))
  }

  // The queue at the lock word starts with the owner; a free lock has no owner.
  ghost predicate LockInv(q: Queue) {
    && (q.lock.Nil? <==> q.owner.Nil?)
    && (q.owner.To? ==> q.owner.t < |q.nodes|)
    && (q.lock.To? ==> First(q.spots, q.owner.t) && Last(q.spots, q.lock.t) && SameChain(q.spots, q.owner.t, q.lock.t))
  }

  // Queues that are off the lock word are different from each other and from the one at the lock word.
  ghost predicate ChainInv(q: Queue) {
    && (forall t: nat, u: nat :: t < u < |q.nodes| && q.nodes[t].role.Taken? && q.nodes[u].role.Taken? ==>
          !SameChain(q.spots, t, u))
    && (forall t: nat :: t < |q.nodes| && q.nodes[t].role.Taken? && q.lock.To? ==> !SameChain(q.spots, t, q.lock.t))
  }

  ghost predicate Inv(q: Queue) {
    && |q.nodes| == |q.spots| && Ordered(q.spots, q.limit)
    && (forall t: nat :: t < |q.nodes| ==> (q.nodes[t].role.Out? <==> !q.spots[t].used))
    && (forall t: nat :: t < |q.nodes| && !q.nodes[t].role.Out? ==> NodeInv(q, t))
    && LockInv(q) && ChainInv(q)
  }

  //
  // The moves.
  //

  // A thread joins the queue at the lock word; if it is empty, the thread owns the lock.
  function Join(q: Queue, t: nat): Queue
    requires t < |q.nodes| == |q.spots| && (q.lock.To? ==> q.lock.t < |q.spots|)
  {
    if q.lock.Nil? then
      Queue(To(t), To(t), q.nodes[t := Node(Own, Nil, Nil)], Enter(q.spots, t, q.limit, q.limit), q.limit + 1)
    else
      Queue(To(t), q.owner, q.nodes[t := Node(Link, Nil, q.lock)],
            Enter(q.spots, t, q.spots[q.lock.t].chain, q.limit), q.limit + 1)
  }

  lemma JoinOther(q: Queue, t: nat, u: nat)
    requires Inv(q) && t < |q.nodes| && q.nodes[t].role.Out? && (q.lock.To? ==> q.lock.t < |q.spots|)
    requires u < |q.nodes| && u != t && !q.nodes[u].role.Out?
    ensures NodeInv(Join(q, t), u)
  {
    assert NodeInv(q, u);
    var n := q.nodes[u];
    var chain := if q.lock.Nil? then q.limit else q.spots[q.lock.t].chain;
    if n.next.To? {
      EnterAdjacent(q.spots, q.limit, t, chain, u, n.next.t);
    }
    if n.role.Link? || n.role.Splice? {
      EnterAdjacent(q.spots, q.limit, t, chain, n.target.t, u);
    }
    if n.role.Taken? {
      EnterEnds(q.spots, q.limit, t, chain, u);
      EnterEnds(q.spots, q.limit, t, chain, n.target.t);
    }
  }

  lemma JoinStands(q: Queue, t: nat)
    requires Inv(q) && t < |q.nodes| && q.nodes[t].role.Out? && (q.lock.To? ==> q.lock.t < |q.spots|)
    ensures var q' := Join(q, t); Ordered(q'.spots, q'.limit) && NodeInv(q', t) && LockInv(q')
  {
    var chain := if q.lock.Nil? then q.limit else q.spots[q.lock.t].chain;
    EnterStands(q.spots, q.limit, t, chain);
    if q.lock.To? {
      EnterEnds(q.spots, q.limit, t, chain, q.owner.t);
    }
  }

  lemma JoinChains(q: Queue, t: nat)
    requires Inv(q) && t < |q.nodes| && q.nodes[t].role.Out? && (q.lock.To? ==> q.lock.t < |q.spots|)
    ensures ChainInv(Join(q, t))
  {
    EnterBefore(q.spots, t, if q.lock.Nil? then q.limit else q.spots[q.lock.t].chain, q.limit);
  }

  lemma JoinKeeps(q: Queue, t: nat)
    requires Inv(q) && t < |q.nodes| && q.nodes[t].role.Out?
    ensures q.lock.To? ==> q.lock.t < |q.spots|
    ensures Inv(Join(q, t))
  {
    JoinStands(q, t);
    JoinChains(q, t);
    forall u: nat | u < |q.nodes| && u != t && !q.nodes[u].role.Out?
      ensures NodeInv(Join(q, t), u)
    {
      JoinOther(q, t, u);
    }
  }

  // A thread links its own entry after its target and falls asleep.
  function LinkUp(q: Queue, t: nat): Queue
    requires t < |q.nodes| && q.nodes[t].target.To? && q.nodes[t].target.t < |q.nodes|
  {
    var a := q.nodes[t].target.t;
    var nodes := q.nodes[a := q.nodes[a].(next := To(t))];
    q.(nodes := nodes[t := nodes[t].(role := Asleep)])
  }

  lemma LinkUpKeeps(q: Queue, t: nat)
    requires Inv(q) && t < |q.nodes| && q.nodes[t].role.Link?
    ensures q.nodes[t].target.To? && q.nodes[t].target.t < |q.nodes| && Inv(LinkUp(q, t))
  {
    assert NodeInv(q, t);
    var q' := LinkUp(q, t);
    forall u: nat | u < |q.nodes| && !q.nodes[u].role.Out?
      ensures NodeInv(q', u)
    {
      LinkUpNode(q, t, u);
    }
  }

  lemma LinkUpNode(q: Queue, t: nat, u: nat)
    requires t < |q.nodes| && q.nodes[t].role.Link? && NodeInv(q, t) && q.nodes[t].target.t < |q.nodes|
    requires u < |q.nodes| && NodeInv(q, u)
    ensures NodeInv(LinkUp(q, t), u)
  {
  }

  // The owner gives the lock to its successor and leaves.
  function Pass(q: Queue, t: nat): Queue
    requires t < |q.nodes| == |q.spots| && q.nodes[t].next.To? && q.nodes[t].next.t < |q.nodes|
  {
    var b := q.nodes[t].next.t;
    var nodes := q.nodes[b := q.nodes[b].(role := Own)];
    q.(owner := To(b), nodes := nodes[t := nodes[t].(role := Out)], spots := Leave(q.spots, t))
  }

  // An entry that is not tied to the one that leaves.
  lemma LeaveOther(q: Queue, q': Queue, t: nat, u: nat)
    requires Inv(q) && t < |q.nodes| == |q'.nodes| && q'.spots == Leave(q.spots, t)
    requires u < |q.nodes| && u != t && !q.nodes[u].role.Out? && q'.nodes[u] == q.nodes[u]
    requires q.nodes[u].next != To(t) && (q.nodes[u].target == To(t) ==> q.nodes[u].role in {Own, Asleep})
    requires forall b: nat :: b < |q.nodes| && q.nodes[u].next == To(b) ==> q'.nodes[b].role.Asleep?
    requires q.nodes[u].role.Own? <==> q'.owner == To(u)
    ensures NodeInv(q', u)
  {
    assert NodeInv(q, u);
    var n := q.nodes[u];
    if n.next.To? {
      LeaveAdjacent(q.spots, t, u, n.next.t);
    }
    if n.role.Link? || n.role.Splice? {
      LeaveAdjacent(q.spots, t, n.target.t, u);
    }
    if n.role.Taken? {
      LeaveEnds(q.spots, t, u);
      LeaveEnds(q.spots, t, n.target.t);
    }
  }

  lemma PassNode(q: Queue, t: nat, u: nat)
    requires Inv(q) && t < |q.nodes| && q.nodes[t].role.Own? && q.nodes[t].next.To? && q.nodes[t].next.t < |q.nodes|
    requires u < |q.nodes| && u != t && !q.nodes[u].role.Out?
    ensures NodeInv(Pass(q, t), u)
  {
    hide Adjacent, Last, First, LockInv, ChainInv;
    assert NodeInv(q, t) && NodeInv(q, u);
    var b := q.nodes[t].next.t;
    NeighboursUnique(q.spots, q.limit, t, b);
    if u == b {
      if q.nodes[b].next.To? {
        LeaveAdjacent(q.spots, t, b, q.nodes[b].next.t);
      }
    } else {
      if q.nodes[u].next.To? {
        assert q.nodes[u].next.t != t;
      }
      LeaveOther(q, Pass(q, t), t, u);
    }
  }

  lemma PassKeeps(q: Queue, t: nat)
    requires Inv(q) && t < |q.nodes| && q.nodes[t].role.Own? && q.nodes[t].next.To?
    ensures q.nodes[t].next.t < |q.nodes| && Inv(Pass(q, t))
  {
    hide Adjacent, Last;
    assert NodeInv(q, t);
    var b, q' := q.nodes[t].next.t, Pass(q, t);
    LeaveBefore(q.spots, t);
    LeaveFirst(q.spots, q.limit, t, b);
    NeighboursUnique(q.spots, q.limit, t, b);
    LeaveEnds(q.spots, t, q.lock.t);
    forall u: nat | u < |q.nodes| && !q'.nodes[u].role.Out?
      ensures NodeInv(q', u)
    {
      PassNode(q, t, u);
    }
  }

  // The owner is alone in the queue and leaves.
  function Clear(q: Queue, t: nat): Queue
    requires t < |q.nodes| == |q.spots|
  {
    q.(lock := Nil, owner := Nil, nodes := q.nodes[t := q.nodes[t].(role := Out)], spots := Leave(q.spots, t))
  }

  lemma ClearKeeps(q: Queue, t: nat)
    requires Inv(q) && t < |q.nodes| && q.nodes[t].role.Own? && q.lock == To(t)
    ensures Inv(Clear(q, t))
  {
    assert NodeInv(q, t);
    var q' := Clear(q, t);
    LeaveBefore(q.spots, t);
    forall u: nat | u < |q.nodes| && !q'.nodes[u].role.Out?
      ensures NodeInv(q', u)
    {
      assert NodeInv(q, u);
      LeaveOther(q, q', t, u);
    }
  }

  // The owner takes the rest of the queue off the lock word, which leaves the lock free.
  function Take(q: Queue, t: nat): Queue
    requires t < |q.nodes|
  {
    q.(lock := Nil, owner := Nil, nodes := q.nodes[t := q.nodes[t].(role := Taken, target := q.lock)])
  }

  lemma TakeKeeps(q: Queue, t: nat)
    requires Inv(q) && t < |q.nodes| && q.nodes[t].role.Own? && q.lock != To(t)
    ensures Inv(Take(q, t))
  {
    assert NodeInv(q, t);
    var q' := Take(q, t);
    forall u: nat | u < |q.nodes| && !q'.nodes[u].role.Out?
      ensures NodeInv(q', u)
    {
      assert NodeInv(q, u);
    }
  }

  // A thread puts its queue back on a free lock and owns it.
  function PutBackFree(q: Queue, t: nat): Queue
    requires t < |q.nodes|
  {
    q.(lock := q.nodes[t].target, owner := To(t), nodes := q.nodes[t := q.nodes[t].(role := Own)])
  }

  lemma PutBackFreeKeeps(q: Queue, t: nat)
    requires Inv(q) && t < |q.nodes| && q.nodes[t].role.Taken? && q.lock.Nil?
    ensures Inv(PutBackFree(q, t))
  {
    assert NodeInv(q, t);
    var q' := PutBackFree(q, t);
    forall u: nat | u < |q.nodes| && !q'.nodes[u].role.Out?
      ensures NodeInv(q', u)
    {
      assert NodeInv(q, u);
    }
  }

  // A thread puts its queue back behind the last usurper.
  function PutBackBehind(q: Queue, t: nat): Queue
    requires t < |q.nodes| == |q.spots| && q.lock.To? && q.lock.t < |q.spots|
  {
    var from, to := q.spots[t].chain, q.spots[q.lock.t].chain;
    Queue(q.nodes[t].target, q.owner, q.nodes[t := q.nodes[t].(role := Splice, target := q.lock)],
          Append(q.spots, from, to, q.limit), 2 * q.limit + to + 1)
  }

  lemma PutBackOther(q: Queue, t: nat, u: nat)
    requires Inv(q) && t < |q.nodes| && q.nodes[t].role.Taken? && q.lock.To? && q.lock.t < |q.spots|
    requires u < |q.nodes| && u != t && !q.nodes[u].role.Out?
    ensures NodeInv(PutBackBehind(q, t), u)
  {
    hide Ordered, Adjacent, Last;
    assert NodeInv(q, u) && NodeInv(q, t);
    var n, from, to := q.nodes[u], q.spots[t].chain, q.spots[q.lock.t].chain;
    AppendBefore(q.spots, q.limit, from, to);
    hide Append;
    if n.next.To? {
      AppendAdjacent(q.spots, q.limit, from, to, u, n.next.t);
    }
    if n.role.Link? || n.role.Splice? {
      AppendAdjacent(q.spots, q.limit, from, to, n.target.t, u);
    }
    if n.role.Taken? {
      AppendEnds(q.spots, q.limit, from, to, u);
      AppendEnds(q.spots, q.limit, from, to, n.target.t);
    }
  }

  lemma PutBackStands(q: Queue, t: nat)
    requires Inv(q) && t < |q.nodes| && q.nodes[t].role.Taken? && q.lock.To? && q.lock.t < |q.spots|
    ensures var q' := PutBackBehind(q, t); Ordered(q'.spots, q'.limit) && NodeInv(q', t) && LockInv(q')
  {
    assert NodeInv(q, t);
    var from, to := q.spots[t].chain, q.spots[q.lock.t].chain;
    AppendOrdered(q.spots, q.limit, from, to);
    AppendJoint(q.spots, q.limit, from, to, q.lock.t, t);
    AppendEnds(q.spots, q.limit, from, to, q.owner.t);
    AppendEnds(q.spots, q.limit, from, to, q.nodes[t].target.t);
    if q.nodes[t].next.To? {
      AppendAdjacent(q.spots, q.limit, from, to, t, q.nodes[t].next.t);
    }
  }

  lemma PutBackChains(q: Queue, t: nat)
    requires Inv(q) && t < |q.nodes| && q.nodes[t].role.Taken? && q.lock.To? && q.lock.t < |q.spots|
    ensures ChainInv(PutBackBehind(q, t))
  {
    assert NodeInv(q, t);
    AppendBefore(q.spots, q.limit, q.spots[t].chain, q.spots[q.lock.t].chain);
  }

  lemma PutBackBehindKeeps(q: Queue, t: nat)
    requires Inv(q) && t < |q.nodes| && q.nodes[t].role.Taken? && q.lock.To?
    ensures q.lock.t < |q.spots| && Inv(PutBackBehind(q, t))
  {
    PutBackStands(q, t);
    PutBackChains(q, t);
    forall u: nat | u < |q.nodes| && u != t && !q.nodes[u].role.Out?
      ensures NodeInv(PutBackBehind(q, t), u)
    {
      PutBackOther(q, t, u);
    }
  }

  // A thread links its successor after the last usurper and leaves.
  function SpliceIn(q: Queue, t: nat): Queue
    requires t < |q.nodes| == |q.spots| && q.nodes[t].target.To? && q.nodes[t].target.t < |q.nodes|
  {
    var a := q.nodes[t].target.t;
    var nodes := q.nodes[a := q.nodes[a].(next := q.nodes[t].next)];
    q.(nodes := nodes[t := nodes[t].(role := Out)], spots := Leave(q.spots, t))
  }

  lemma SpliceInKeeps(q: Queue, t: nat)
    requires Inv(q) && t < |q.nodes| && q.nodes[t].role.Splice? && q.nodes[t].next.To?
    ensures q.nodes[t].target.To? && q.nodes[t].target.t < |q.nodes| && Inv(SpliceIn(q, t))
  {
    assert NodeInv(q, t);
    SpliceInStands(q, t);
    forall u: nat | u < |q.nodes| && u != t && !q.nodes[u].role.Out?
      ensures NodeInv(SpliceIn(q, t), u)
    {
      SpliceInOther(q, t, u);
    }
  }

  lemma SpliceInStands(q: Queue, t: nat)
    requires Inv(q) && t < |q.nodes| && q.nodes[t].role.Splice? && q.nodes[t].next.To?
    requires q.nodes[t].target.To? && q.nodes[t].target.t < |q.nodes|
    ensures var q' := SpliceIn(q, t);
            && Ordered(q'.spots, q'.limit) && LockInv(q') && ChainInv(q')
            && (forall u: nat :: u < |q.nodes| ==> (q'.nodes[u].role.Out? <==> !q'.spots[u].used))
  {
    assert NodeInv(q, t);
    NeighboursUnique(q.spots, q.limit, q.nodes[t].target.t, t);
    NeighboursUnique(q.spots, q.limit, t, q.nodes[t].next.t);
    LeaveBefore(q.spots, t);
    if q.lock.To? {
      LeaveEnds(q.spots, t, q.lock.t);
      LeaveEnds(q.spots, t, q.owner.t);
    }
  }

  lemma SpliceInOther(q: Queue, t: nat, u: nat)
    requires Inv(q) && t < |q.nodes| && q.nodes[t].role.Splice? && q.nodes[t].next.To?
    requires q.nodes[t].target.To? && q.nodes[t].target.t < |q.nodes|
    requires u < |q.nodes| && u != t && !q.nodes[u].role.Out?
    ensures NodeInv(SpliceIn(q, t), u)
  {
    assert NodeInv(q, t) && NodeInv(q, u);
    var q', a, b := SpliceIn(q, t), q.nodes[t].target.t, q.nodes[t].next.t;
    NeighboursUnique(q.spots, q.limit, a, t);
    NeighboursUnique(q.spots, q.limit, t, b);
    var n := q.nodes[u];
    if u == a {
      LeaveBetween(q.spots, q.limit, a, t, b);
    } else if n.next.To? {
      LeaveAdjacent(q.spots, t, u, n.next.t);
    }
    if n.role.Link? || n.role.Splice? {
      LeaveAdjacent(q.spots, t, n.target.t, u);
    }
    if n.role.Taken? {
      LeaveEnds(q.spots, t, u);
      LeaveEnds(q.spots, t, n.target.t);
    }
  }
}
