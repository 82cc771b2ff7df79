// Makalu's failure-atomic sections: log entries flushed at once, data flushed lazily through a
// small hash table, commit by bumping the log version, and recovery by replaying the log backwards.
module Persistence {
  import opened NvmModel
  import opened UndoLog
  import opened FlushTable

  const TABLE_SIZE := 8

  // Recovery undoes or keeps the whole section, whatever image survives a crash right after tr.
  ghost predicate AtomicAt(init: Image, tr: seq<Op>, s: Section, post: Image) {
    forall img: Image :: Survives(init, tr, img) ==>
      Undone(img, s.ver, s.pre, s.loose) || Committed(img, s.ver, post)
  }

  ghost predicate AtomicSince(init: Image, tr: seq<Op>, start: nat, s: Section, post: Image) {
    forall n: nat :: start <= n <= |tr| ==> AtomicAt(init, tr[..n], s, post)
  }

  lemma SafeIsAtomic(init: Image, tr: seq<Op>, start: nat, s: Section, post: Image)
    requires SafeSince(init, tr, start, s.ver, s.pre, s.loose)
    ensures AtomicSince(init, tr, start, s, post)
  {
    forall n: nat | start <= n <= |tr|
      ensures AtomicAt(init, tr[..n], s, post)
    {
      assert CrashSafe(init, tr[..n], s.ver, s.pre, s.loose);
    }
  }

  lemma AtomicExtends(init: Image, tr: seq<Op>, op: Op, start: nat, s: Section, post: Image)
    requires AtomicSince(init, tr, start, s, post) && Committing(init, tr + [op], s, post)
    ensures AtomicSince(init, tr + [op], start, s, post)
  {
    var tr' := tr + [op];
    forall n: nat | start <= n <= |tr'|
      ensures AtomicAt(init, tr'[..n], s, post)
    {
      if n <= |tr| {
        assert tr'[..n] == tr[..n];
      } else {
        assert tr'[..n] == tr';
        forall img: Image | Survives(init, tr', img)
          ensures Undone(img, s.ver, s.pre, s.loose) || Committed(img, s.ver, post)
        {
          CrashInCommit(init, tr', s, post, img);
        }
      }
    }
  }

  // The instructions that store version v and make it durable.
  ghost function Bumped(tr: seq<Op>, v: int): seq<Op> {
    tr + [Store(Version, v)] + [Fence] + [Flush(LineOf(Version))] + [Fence]
  }

  lemma CommitStep(init: Image, tr: seq<Op>, op: Op, start: nat, s: Section, post: Image)
    requires Committing(init, tr, s, post) && AtomicSince(init, tr, start, s, post)
    requires op.Store? ==> op == Store(Version, s.ver + 1)
    ensures Committing(init, tr + [op], s, post) && AtomicSince(init, tr + [op], start, s, post)
  {
    CommittingExtends(init, tr, op, s, post);
    AtomicExtends(init, tr, op, start, s, post);
  }

  lemma BumpIsFixed(init: Image, tr: seq<Op>, v: int)
    ensures Fixed(init, Bumped(tr, v), Version, v)
  {
    var tr1 := tr + [Store(Version, v)];
    var tr2 := tr1 + [Fence];
    var tr3 := tr2 + [Flush(LineOf(Version))];
    Extend(init, tr, Store(Version, v));
    Extend(init, tr1, Fence);
    Extend(init, tr2, Flush(LineOf(Version)));
    FencedIsFixed(init, tr3, Version);
  }

  lemma CommitsWell(init: Image, tr: seq<Op>, start: nat, s: Section, post: Image)
    requires Committing(init, tr, s, post) && AtomicSince(init, tr, start, s, post)
    ensures Ready(init, Bumped(tr, s.ver + 1), s.ver + 1) && AtomicSince(init, Bumped(tr, s.ver + 1), start, s, post)
  {
    var tr1 := tr + [Store(Version, s.ver + 1)];
    var tr2 := tr1 + [Fence];
    var tr3 := tr2 + [Flush(LineOf(Version))];
    CommitStep(init, tr, Store(Version, s.ver + 1), start, s, post);
    CommitStep(init, tr1, Fence, start, s, post);
    CommitStep(init, tr2, Flush(LineOf(Version)), start, s, post);
    CommitStep(init, tr3, Fence, start, s, post);
    BumpIsFixed(init, tr, s.ver + 1);
    CommitIsReady(init, tr3 + [Fence], s, post);
  }

  lemma ClosingStep(init: Image, tr: seq<Op>, op: Op)
    requires Sane(init) && Closing(init, tr) && AttemptSince(init, tr)
    requires op.Store? ==> op == Store(Version, init(Version) + 1)
    ensures Closing(init, tr + [op]) && AttemptSince(init, tr + [op])
  {
    ClosingExtends(init, tr, op);
    AttemptExtends(init, tr, op);
  }

  lemma ClosesWell(init: Image, tr: seq<Op>)
    requires Sane(init) && Closing(init, tr) && AttemptSince(init, tr)
    ensures Ready(init, Bumped(tr, init(Version) + 1), init(Version) + 1)
    ensures AttemptSince(init, Bumped(tr, init(Version) + 1))
  {
    var tr1 := tr + [Store(Version, init(Version) + 1)];
    var tr2 := tr1 + [Fence];
    var tr3 := tr2 + [Flush(LineOf(Version))];
    ClosingStep(init, tr, Store(Version, init(Version) + 1));
    ClosingStep(init, tr1, Fence);
    ClosingStep(init, tr2, Flush(LineOf(Version)));
    ClosingStep(init, tr3, Fence);
    BumpIsFixed(init, tr, init(Version) + 1);
    ClosedIsReady(init, tr3 + [Fence]);
  }

  // The log does not change while it is replayed.
  lemma EntryRead(init: Image, tr: seq<Op>, e: nat)
    requires Sane(init) && Replaying(init, tr) && e < Scan(init, 0)
    ensures Value(init, tr, LogAddr(e)) == init(LogAddr(e)) >= 0 && Value(init, tr, LogVal(e)) == init(LogVal(e))
    ensures InLog(init, Scan(init, 0), init(LogAddr(e)))
  {
    FixedNow(init, tr, LogAddr(e), init(LogAddr(e)));
    FixedNow(init, tr, LogVal(e), init(LogVal(e)));
  }

  // Flushing the table between two fences makes a section ready to commit.
  lemma FlushedSection(init: Image, tr: seq<Op>, tab: seq<Slot>, start: nat, s: Section, post: Image)
    requires SectionInv(init, tr, s) && s.building.Nothing? && SafeSince(init, tr, start, s.ver, s.pre, s.loose)
    requires Covered(init, tr, Lines(tab)) && forall c :: post(c) == Value(init, tr, c)
    ensures var tr' := tr + [Fence] + FlushOps(tab) + [Fence];
            Committing(init, tr', s, post) && AtomicSince(init, tr', start, s, post) && post(Version) == s.ver
  {
    hide LogInv, DataInv, SafeSince, Lines, Covered, FlushOps, AtomicSince, Fixed;
    var ops := [Fence] + FlushOps(tab) + [Fence];
    var tr' := tr + [Fence] + FlushOps(tab) + [Fence];
    assert tr + ops == tr';
    QuietSection(init, tr, ops, start, s);
    FlushAllSettles(init, tr, tab);
    forall a: nat
      ensures Fixed(init, tr', Data(a), post(Data(a)))
    {
      assert Settled(init, tr', a);
      QuietValue(init, tr, ops, Data(a));
    }
    QuietValue(init, tr, ops, Version);
    FixedNow(init, tr', Version, s.ver);
    SectionIsCommitting(init, tr', s, post);
    SafeIsAtomic(init, tr', start, s, post);
  }

  class Nvm {
    var mem: Image            // what the processor sees
    const table: array<Slot>  // the synchronous flush table
    var cursor: nat           // index of the next log entry
    ghost var init: Image     // NVM contents at restart
    ghost var trace: seq<Op>  // everything executed since
    ghost var start: nat      // where the current section began
    ghost var sec: Section

    ghost predicate Consistent()
      reads this
    {
      && table.Length == TABLE_SIZE
      && forall c :: mem(c) == Value(init, trace, c)
    }

    // Between sections.
    ghost predicate Idle(ver: int)
      reads this, table
    {
      && Consistent()
      && Ready(init, trace, ver)
      && forall i :: 0 <= i < TABLE_SIZE ==> table[i] == Null
    }

    ghost predicate Invariants()
      reads this
    {
      && Consistent()
      && SectionInv(init, trace, sec)
      && start <= |trace|
      && SafeSince(init, trace, start, sec.ver, sec.pre, sec.loose)
    }

    // Inside a section, between two macros.
    ghost predicate InSection()
      reads this, table
    {
      && Invariants()
      && sec.building.Nothing?
      && cursor == |sec.entries|
      && Covered(init, trace, Lines(table[..]))
    }

    //
    // Machine instructions.
    //

    method StoreCell(c: Cell, v: int)
      requires Consistent()
      modifies `mem, `trace
      ensures Consistent() && trace == old(trace) + [Store(c, v)]
      ensures forall c' :: mem(c') == if c' == c then v else old(mem)(c')
    {
      Extend(init, trace, Store(c, v));
      var before := mem;
      mem := c' => if c' == c then v else before(c');
      trace := trace + [Store(c, v)];
    }

    method Clflush(l: Line)
      requires Consistent()
      modifies `trace
      ensures Consistent() && trace == old(trace) + [Flush(l)]
    {
      Extend(init, trace, Flush(l));
      trace := trace + [Flush(l)];
    }

    method Mfence()
      requires Consistent()
      modifies `trace
      ensures Consistent() && trace == old(trace) + [Fence]
    {
      Extend(init, trace, Fence);
      trace := trace + [Fence];
    }

    //
    // Sections.
    //

    method StartAtomic()
      requires Idle(mem(Version))
      modifies `cursor, `start, `sec
      ensures InSection() && start == |trace|
      ensures sec.ver == mem(Version) && sec.entries == [] && sec.loose == {}
      ensures forall c :: sec.pre(c) == mem(c)
    {
      cursor := 0;
      start := |trace|;
      sec := Section(mem(Version), Snapshot(init, trace), [], Nothing, {});
      SectionStarts(init, trace, sec.ver);
      assert trace[..|trace|] == trace;
      forall img: Image | Survives(init, trace, img)
        ensures Undone(img, sec.ver, sec.pre, sec.loose)
      {
        CrashInSection(init, trace, sec, img);
      }
      assert forall a: nat :: Settled(init, trace, a);
    }

    ghost method Allow(op: Op)
      requires Invariants() && Allowed(sec, op)
      ensures SectionInv(init, trace + [op], sec)
      ensures SafeSince(init, trace + [op], start, sec.ver, sec.pre, sec.loose)
    {
      SectionExtends(init, trace, op, sec);
      SafeExtends(init, trace, op, start, sec, sec.loose);
    }

    // create_int_log_entry and its siblings: the fields, then the version, then a synchronous flush.
    method CreateLogEntry(a: nat, v: int)
      requires InSection() && |sec.entries| + 1 < LOG_CAPACITY
      requires Logged(sec.entries, a) || v == sec.pre(Data(a))
      modifies `mem, `trace, `cursor, `sec
      ensures InSection() && sec == old(sec).(entries := old(sec).entries + [Entry(a, v)])
      ensures forall b :: mem(Data(b)) == old(mem)(Data(b))
    {
      ghost var lines := Lines(table[..]);
      CoverStore(init, trace, LogAddr(cursor), a, lines);
      Allow(Store(LogAddr(cursor), a));
      StoreCell(LogAddr(cursor), a);
      CoverStore(init, trace, LogVal(cursor), v, lines);
      Allow(Store(LogVal(cursor), v));
      StoreCell(LogVal(cursor), v);
      SealAndFlush(a, v);
    }

    method SealAndFlush(a: nat, v: int)
      requires InSection() && |sec.entries| + 1 < LOG_CAPACITY
      requires Logged(sec.entries, a) || v == sec.pre(Data(a))
      requires mem(LogAddr(cursor)) == a && mem(LogVal(cursor)) == v
      modifies `mem, `trace, `cursor, `sec
      ensures InSection() && sec == old(sec).(entries := old(sec).entries + [Entry(a, v)])
      ensures forall b :: mem(Data(b)) == old(mem)(Data(b))
    {
      FixedNow(init, trace, Version, sec.ver);
      hide Lines, Covered, LogInv, DataInv, SafeSince;
      ghost var e, s := Entry(a, v), sec.(building := Sealed(Entry(a, v)));
      CoverStore(init, trace, LogVer(cursor), sec.ver, Lines(table[..]));
      SectionSeals(init, trace, sec, e);
      SafeExtends(init, trace, Store(LogVer(cursor), sec.ver), start, s, sec.loose);
      StoreCell(LogVer(cursor), mem(Version));
      sec := s;
      FlushEntry();
    }

    method FlushEntry()
      requires Invariants() && sec.building.Sealed? && cursor == |sec.entries| && Covered(init, trace, Lines(table[..]))
      requires mem(LogAddr(cursor)) == sec.building.e.a && mem(LogVal(cursor)) == sec.building.e.v
      requires mem(LogVer(cursor)) == sec.ver
      modifies `trace, `cursor, `sec
      ensures InSection()
      ensures sec == old(sec).(entries := old(sec).entries + [old(sec).building.e], building := Nothing)
    {
      ghost var lines := Lines(table[..]);
      CoverFence(init, trace, lines);
      Allow(Fence);
      Mfence();
      CoverFlush(init, trace, LogLine(cursor), lines, lines);
      Allow(Flush(LogLine(cursor)));
      Extend(init, trace, Flush(LogLine(cursor)));
      Clflush(LogLine(cursor));
      CoverFence(init, trace, lines);
      SectionLogs(init, trace, sec);
      sec := sec.(entries := sec.entries + [sec.building.e], building := Nothing);
      SafeExtends(init, trace, Fence, start, sec, sec.loose);
      Mfence();
      cursor := cursor + 1;
    }

    //
    // The flush table.
    //

    // add_to_flush_table for the words a, ..., a + size - 1.  Every round of the loop enters the first line again.
    method AddToFlushTable(a: nat, size: nat)
      requires Consistent() && size > 0
      modifies `trace, table
      ensures Consistent()
      ensures table[..] == old(table[..])[a / LINE % TABLE_SIZE := Holds(a / LINE)]
      ensures trace == old(trace) + EvictOps(old(table[..]), a / LINE)
    {
      var n := a / LINE;
      var i, end := n * LINE, a + size;
      ghost var first := true;
      while i < end
        invariant first <==> i == n * LINE
        invariant n * LINE <= i && Consistent()
        invariant first ==> trace == old(trace) && table[..] == old(table[..])
        invariant !first ==> trace == old(trace) + EvictOps(old(table[..]), n)
        invariant !first ==> table[..] == old(table[..])[n % TABLE_SIZE := Holds(n)]
      {
        var k := n % TABLE_SIZE;
        if table[k] != Holds(n) {
          if table[k] != Null {
            Clflush(DataLine(table[k].line));
          }
          table[k] := Holds(n);
        }
        i, first := i + LINE, false;
      }
    }

    // flush_all_entry.
    method FlushAll()
      requires Consistent()
      modifies `trace, table
      ensures Consistent()
      ensures forall i :: 0 <= i < TABLE_SIZE ==> table[i] == Null
      ensures trace == old(trace) + [Fence] + FlushOps(old(table[..])) + [Fence]
    {
      ghost var tab := table[..];
      Mfence();
      var i := 0;
      while i < TABLE_SIZE
        invariant 0 <= i <= TABLE_SIZE && Consistent()
        invariant forall j :: 0 <= j < i ==> table[j] == Null
        invariant forall j :: i <= j < TABLE_SIZE ==> table[j] == tab[j]
        invariant trace == old(trace) + [Fence] + FlushOps(tab[..i])
      {
        assert tab[..i + 1][..i] == tab[..i];
        if table[i] != Null {
          Clflush(DataLine(table[i].line));
          table[i] := Null;
        }
        i := i + 1;
      }
      assert tab[..TABLE_SIZE] == tab;
      Mfence();
    }

    // Stores a range of words, registers it once and flushes the table.  The new values are safe
    // exactly if they fit into one line.
    method WriteRange(a: nat, vs: seq<int>)
      requires Consistent() && |vs| > 0 && (forall i :: 0 <= i < TABLE_SIZE ==> table[i] == Null)
      requires (forall w: nat :: Settled(init, trace, w)) && forall i :: 0 <= i < |vs| ==> vs[i] != mem(Data(a + i))
      modifies `mem, `trace, table
      ensures Consistent()
      ensures RangeSettled(init, trace, a, |vs|) <==> a % LINE + |vs| <= LINE
    {
      hide Settled, RangeSettled, FlushOps;
      ghost var tab := table[..];
      var i := 0;
      assert trace + StoreOps(a, []) == trace;
      while i < |vs|
        invariant i <= |vs| && Consistent() && table[..] == tab && trace == old(trace) + StoreOps(a, vs[..i])
      {
        assert StoreOps(a, vs[..i + 1]) == StoreOps(a, vs[..i]) + [Store(Data(a + i), vs[i])];
        StoreCell(Data(a + i), vs[i]);
        i := i + 1;
      }
      assert vs[..|vs|] == vs;
      RangeCoveredIff(init, old(trace), tab, a, vs);
      AddToFlushTable(a, |vs|);
      FlushAll();
      assert trace == RangeFlushed(old(trace), tab, a, vs);
    }

    //
    // The macros.
    //

    // Stores to a word that is logged, loose or keeps its value.
    method StoreAndRegister(a: nat, v: int)
      requires InSection() && (Logged(sec.entries, a) || a in sec.loose || v == sec.pre(Data(a)))
      modifies `mem, `trace, table
      ensures InSection()
      ensures forall b :: mem(Data(b)) == if b == a then v else old(mem)(Data(b))
    {
      hide Lines, Covered, SectionInv, SafeSince, EvictOps;
      CoverMore(init, trace, Lines(table[..]), Lines(table[..]) + {a / LINE});
      CoverRegister(init, trace, table[..], a, v);
      Allow(Store(Data(a), v));
      StoreCell(Data(a), v);
      QuietSection(init, trace, EvictOps(table[..], a / LINE), start, sec);
      AddToFlushTable(a, 1);
    }

    // The section after a store to word a that does not log it.
    ghost function Unlogged(a: nat, v: int): Section
      reads this
    {
      if Logged(sec.entries, a) || v == sec.pre(Data(a)) then sec else sec.(loose := sec.loose + {a})
    }

    // MAK_NO_LOG_STORE_NVM.
    method NoLogStore(a: nat, v: int)
      requires InSection()
      modifies `mem, `trace, `sec, table
      ensures InSection() && sec == old(Unlogged(a, v))
      ensures forall b :: mem(Data(b)) == if b == a then v else old(mem)(Data(b))
    {
      if !Logged(sec.entries, a) && v != sec.pre(Data(a)) {
        Loosen(a);
      }
      StoreAndRegister(a, v);
    }

    // A plain store to a word that is not registered, followed by MAK_NO_LOG_STORE_NVM to the same word.
    method StoreTwice(a: nat, v0: int, v: int)
      requires InSection()
      modifies `mem, `trace, `sec, table
      ensures InSection()
      ensures sec == if Logged(old(sec).entries, a) then old(sec) else old(sec).(loose := old(sec).loose + {a})
      ensures forall b :: mem(Data(b)) == if b == a then v else old(mem)(Data(b))
    {
      if !Logged(sec.entries, a) {
        Loosen(a);
      }
      hide Lines, Covered, SectionInv, SafeSince, EvictOps;
      ghost var lines := Lines(table[..]) + {a / LINE};
      CoverMore(init, trace, Lines(table[..]), lines);
      CoverStore(init, trace, Data(a), v0, lines);
      Allow(Store(Data(a), v0));
      StoreCell(Data(a), v0);
      CoverRegister(init, trace, table[..], a, v);
      Allow(Store(Data(a), v));
      StoreCell(Data(a), v);
      QuietSection(init, trace, EvictOps(table[..], a / LINE), start, sec);
      AddToFlushTable(a, 1);
    }

    ghost method Loosen(a: nat)
      requires InSection()
      modifies `sec
      ensures InSection() && sec == old(sec).(loose := old(sec).loose + {a})
    {
      ghost var s := sec.(loose := sec.loose + {a});
      forall n: nat | start <= n <= |trace|
        ensures CrashSafe(init, trace[..n], s.ver, s.pre, s.loose)
      {
        assert CrashSafe(init, trace[..n], s.ver, s.pre, sec.loose);
      }
      sec := s;
    }

    // MAK_LOG_NVM_WORD and its siblings: the caller passes the current value.
    method LogNvm(a: nat, v: int)
      requires InSection() && |sec.entries| + 1 < LOG_CAPACITY
      requires a !in sec.loose && v == mem(Data(a))
      modifies `mem, `trace, `cursor, `sec
      ensures InSection() && sec == old(sec).(entries := old(sec).entries + [Entry(a, v)])
      ensures forall b :: mem(Data(b)) == old(mem)(Data(b))
    {
      if !Logged(sec.entries, a) {
        FixedNow(init, trace, Data(a), sec.pre(Data(a)));
      }
      CreateLogEntry(a, v);
    }

    // MAK_STORE_NVM_WORD and its siblings.
    method StoreNvm(a: nat, v: int)
      requires InSection() && |sec.entries| + 1 < LOG_CAPACITY
      requires a !in sec.loose
      modifies `mem, `trace, `cursor, `sec, table
      ensures InSection() && sec == old(sec).(entries := old(sec).entries + [Entry(a, old(mem)(Data(a)))])
      ensures forall b :: mem(Data(b)) == if b == a then v else old(mem)(Data(b))
    {
      LogNvm(a, mem(Data(a)));
      assert sec.entries[|sec.entries| - 1].a == a;
      StoreAndRegister(a, v);
    }

    //
    // Commit and recovery.
    //

    // Bumps the version and makes it durable.
    method BumpVersion()
      requires Consistent()
      modifies `mem, `trace
      ensures Consistent() && trace == Bumped(old(trace), old(mem)(Version) + 1)
      ensures mem(Version) == old(mem)(Version) + 1 && forall b :: mem(Data(b)) == old(mem)(Data(b))
    {
      StoreCell(Version, mem(Version) + 1);
      Mfence();
      Clflush(LineOf(Version));
      Mfence();
    }

    // The flushes of end_nvm_atomic.
    method FlushSection()
      requires InSection()
      modifies `trace, table
      ensures Consistent() && Committing(init, trace, sec, mem) && mem(Version) == sec.ver
      ensures start <= |trace| && AtomicSince(init, trace, start, sec, mem)
      ensures forall i :: 0 <= i < TABLE_SIZE ==> table[i] == Null
    {
      hide Lines, Covered, SafeSince, SectionInv, LogInv, DataInv, FlushOps;
      FlushedSection(init, trace, table[..], start, sec, mem);
      FlushAll();
    }

    // end_nvm_atomic.  A crash at any moment since the start of the section is undone or kept as a whole.
    method EndAtomic()
      requires InSection()
      modifies `mem, `trace, table
      ensures Idle(mem(Version)) && mem(Version) == sec.ver + 1
      ensures forall b :: mem(Data(b)) == old(mem)(Data(b))
      ensures start <= |trace| && AtomicSince(init, trace, start, sec, mem)
    {
      hide Lines, Covered, SafeSince, SectionInv, Committing, AtomicSince, Ready;
      FlushSection();
      ghost var post := mem;
      CommitsWell(init, trace, start, sec, post);
      BumpVersion();
      AtomicSame(init, trace, start, sec, post, mem);
    }

    // Restart after a crash: the cache is cold and the flush table empty.
    constructor Restart(img: Image)
      ensures Consistent() && init == img && trace == []
      ensures fresh(table) && forall i :: 0 <= i < TABLE_SIZE ==> table[i] == Null
      ensures forall c :: mem(c) == img(c)
    {
      mem, cursor := img, 0;
      table := new Slot[TABLE_SIZE](_ => Null);
      init, trace, start := img, [], 0;
      sec := Section(0, img, [], Nothing, {});
    }

    ghost predicate InRecovery(e: int)
      reads this, table
    {
      && Consistent()
      && Sane(init) && Replaying(init, trace) && AttemptSince(init, trace)
      && Covered(init, trace, Lines(table[..]))
      && 0 <= e <= Scan(init, 0)
      && forall a: nat :: mem(Data(a)) == Replayed(init, e, Scan(init, 0), a)
    }

    // MAK_recover_metadata.
    method Recover()
      requires Consistent() && trace == [] && Sane(init)
      requires forall i :: 0 <= i < TABLE_SIZE ==> table[i] == Null
      modifies `mem, `trace, table
      ensures Idle(mem(Version)) && mem(Version) == init(Version) + 1
      ensures forall a: nat :: mem(Data(a)) == Recovered(init, a)
      ensures AttemptSince(init, trace)
    {
      var e := 0;
      while mem(LogVer(e)) == mem(Version)
        invariant 0 <= e <= Scan(init, 0) == Scan(init, e)
        decreases LOG_CAPACITY - e
      {
        e := e + 1;
      }
      RecoveryBegins();
      e := e - 1;
      while e >= 0
        invariant InRecovery(e + 1)
      {
        ReplayEntry(e);
        e := e - 1;
      }
      FinishRecovery();
    }

    lemma RecoveryBegins()
      requires Consistent() && trace == [] && Sane(init)
      requires forall i :: 0 <= i < TABLE_SIZE ==> table[i] == Null
      ensures InRecovery(Scan(init, 0))
    {
      ReplayStarts(init);
      assert forall t: nat :: t <= 0 ==> trace[..t] == [];
    }

    method ReplayEntry(e: nat)
      requires InRecovery(e + 1)
      modifies `mem, `trace, table
      ensures InRecovery(e)
    {
      hide Lines, Covered, Replaying, AttemptSince, EvictOps;
      EntryRead(init, trace, e);
      var a, v := mem(LogAddr(e)), mem(LogVal(e));
      CoverMore(init, trace, Lines(table[..]), Lines(table[..]) + {a / LINE});
      CoverRegister(init, trace, table[..], a, v);
      ReplayingExtends(init, trace, Store(Data(a), v));
      AttemptExtends(init, trace, Store(Data(a), v));
      StoreCell(Data(a), v);
      QuietReplay(init, trace, EvictOps(table[..], a / LINE));
      AddToFlushTable(a, 1);
    }

    method FlushReplayed()
      requires InRecovery(0)
      modifies `trace, table
      ensures Consistent() && Closing(init, trace) && AttemptSince(init, trace)
      ensures forall i :: 0 <= i < TABLE_SIZE ==> table[i] == Null
    {
      ghost var tab := table[..];
      QuietReplay(init, trace, [Fence] + FlushOps(tab) + [Fence]);
      FlushAllSettles(init, trace, tab);
      assert trace + ([Fence] + FlushOps(tab) + [Fence]) == trace + [Fence] + FlushOps(tab) + [Fence];
      FlushAll();
      forall a: nat
        ensures Fixed(init, trace, Data(a), Recovered(init, a))
      {
        assert Settled(init, trace, a);
      }
    }

    method FinishRecovery()
      requires InRecovery(0)
      modifies `mem, `trace, table
      ensures Idle(mem(Version)) && mem(Version) == init(Version) + 1
      ensures forall a: nat :: mem(Data(a)) == Recovered(init, a)
      ensures AttemptSince(init, trace)
    {
      hide Ready, AttemptSince, Lines;
      FixedNow(init, trace, Version, init(Version));
      FlushReplayed();
      ClosesWell(init, trace);
      BumpVersion();
    }
  }

  lemma AtomicSame(init: Image, tr: seq<Op>, start: nat, s: Section, post: Image, post': Image)
    requires AtomicSince(init, tr, start, s, post)
    requires forall b :: post(Data(b)) == post'(Data(b))
    ensures AtomicSince(init, tr, start, s, post')
  {
    forall n: nat | start <= n <= |tr|
      ensures AtomicAt(init, tr[..n], s, post')
    {
      assert AtomicAt(init, tr[..n], s, post);
    }
  }
}
