// Persistent memory behind a write-back cache.
//
// The processor executes a trace of stores, cache-line flushes and fences.  A dirty line may be
// written back at any moment.  A flush is guaranteed to have completed only at the next fence, and
// only if the line was not stored to in between.  A crash keeps the NVM image and loses the cache.
module NvmModel {

  const LINE := 8           // words per cache line
  const LOG_CAPACITY := 64  // entries in the persistent log, one cache line each

  // The memory cells that matter: metadata words, the log version and the fields of the log entries.
  datatype Cell =
    | Data(a: nat)
    | Version
    | LogAddr(i: nat)
    | LogVal(i: nat)
    | LogVer(i: nat)

  datatype Line = DataLine(n: nat) | LogLine(i: nat)

  // The version shares its line with ordinary metadata words.
  function LineOf(c: Cell): Line {
    match c
    case Data(a) => DataLine(a / LINE)
    case Version => DataLine(0)
    case LogAddr(i) => LogLine(i)
    case LogVal(i) => LogLine(i)
    case LogVer(i) => LogLine(i)
  }

  datatype Op = Store(c: Cell, v: int) | Flush(l: Line) | Fence

  type Image = Cell -> int

  // What the processor reads from cell c after executing tr.
  ghost function Value(init: Image, tr: seq<Op>, c: Cell): int {
    if tr == [] then init(c)
    else
      var op := tr[|tr| - 1];
      if op.Store? && op.c == c then op.v else Value(init, tr[..|tr| - 1], c)
  }

  ghost function PendingStep(pending: set<Line>, op: Op): set<Line> {
    match op
    case Store(c, _) => pending - {LineOf(c)}
    case Flush(l) => pending + {l}
    case Fence => {}
  }

  // Lines flushed and not stored to since the last fence.
  ghost function Pending(tr: seq<Op>): set<Line> {
    if tr == [] then {} else PendingStep(Pending(tr[..|tr| - 1]), tr[|tr| - 1])
  }

  // The last moment at which line l was certainly written back.
  ghost function Durable(tr: seq<Op>, l: Line): (t: nat)
    ensures t <= |tr|
  {
    if tr == [] then 0
    else
      var prefix := tr[..|tr| - 1];
      if tr[|tr| - 1].Fence? && l in Pending(prefix) then |tr| else Durable(prefix, l)
  }

  // In img, line l has the contents it had at moment t.
  ghost predicate LineAt(init: Image, tr: seq<Op>, img: Image, l: Line, t: nat)
    requires t <= |tr|
  {
    forall c :: LineOf(c) == l ==> img(c) == Value(init, tr[..t], c)
  }

  // img may be found in NVM if the machine crashes right after executing tr.
  ghost predicate Survives(init: Image, tr: seq<Op>, img: Image) {
    forall l :: LineSurvives(init, tr, img, l)
  }

  ghost predicate LineSurvives(init: Image, tr: seq<Op>, img: Image, l: Line) {
    exists t: nat :: Durable(tr, l) <= t <= |tr| && LineAt(init, tr, img, l, t)
  }

  // Executing one more operation.
  lemma Extend(init: Image, tr: seq<Op>, op: Op)
    ensures forall c :: Value(init, tr + [op], c) == if op.Store? && op.c == c then op.v else Value(init, tr, c)
    ensures Pending(tr + [op]) == PendingStep(Pending(tr), op)
    ensures forall l :: Durable(tr + [op], l) == if op.Fence? && l in Pending(tr) then |tr| + 1 else Durable(tr, l)
  {
    assert (tr + [op])[..|tr|] == tr;
  }

  //
  // The cache as a machine that evicts lines on its own account.
  //

  datatype Event = Exec(op: Op) | Evict(l: Line)

  ghost function Ops(evs: seq<Event>): seq<Op> {
    if evs == [] then []
    else
      var before := Ops(evs[..|evs| - 1]);
      match evs[|evs| - 1]
      case Exec(op) => before + [op]
      case Evict(_) => before
  }

  ghost predicate WritesBack(before: seq<Event>, ev: Event, l: Line) {
    match ev
    case Exec(op) => op.Fence? && l in Pending(Ops(before))
    case Evict(l') => l == l'
  }

  // The NVM image after a run: evictions write a line back at once, pending flushes complete at the fence.
  ghost function NvmAfter(init: Image, evs: seq<Event>, c: Cell): int {
    if evs == [] then init(c)
    else
      var before := evs[..|evs| - 1];
      if WritesBack(before, evs[|evs| - 1], LineOf(c)) then Value(init, Ops(before), c) else NvmAfter(init, before, c)
  }

  ghost function NvmImage(init: Image, evs: seq<Event>): Image {
    c => NvmAfter(init, evs, c)
  }

  lemma {:induction false} LineWritten(init: Image, evs: seq<Event>, l: Line) returns (t: nat)
    ensures Durable(Ops(evs), l) <= t <= |Ops(evs)|
    ensures LineAt(init, Ops(evs), NvmImage(init, evs), l, t)
  {
    if evs == [] {
      t := 0;
    } else {
      var before, last := evs[..|evs| - 1], evs[|evs| - 1];
      var ops := Ops(before);
      var t0 := LineWritten(init, before, l);
      match last
      case Evict(l') =>
        t := if l == l' then |ops| else t0;
        assert ops[..|ops|] == ops;
      case Exec(op) =>
        var ops' := ops + [op];
        Extend(init, ops, op);
        t := if op.Fence? && l in Pending(ops) then |ops| + 1 else t0;
        assert ops'[..t0] == ops[..t0] && ops'[..|ops| + 1] == ops';
    }
  }

  // Whatever the cache evicts and whenever it does so, the image left in NVM is one that Survives allows.
  lemma EvictionsAreCovered(init: Image, evs: seq<Event>)
    ensures Survives(init, Ops(evs), NvmImage(init, evs))
  {
    forall l
      ensures LineSurvives(init, Ops(evs), NvmImage(init, evs), l)
    {
      var t := LineWritten(init, evs, l);
    }
  }
}
