// ulib's ticket reader/writer lock, for any number of threads.
//
// The lock is one 32-bit word: two byte counters, write and read, and an upper half whose low byte
// is the user counter.  Every action is one access of one thread.  Two accesses are not atomic
// read-modify-writes: a reader that is let in increments the read byte with a load and a store, and
// a writer that leaves loads the word and stores both byte counters.
module RwTicket {
  import opened Probing

  const B: nat := 256

  datatype Word = Word(write: nat, read: nat, upper: nat)

  function User(w: Word): nat {
    w.upper % B
  }

  // Adding one to the upper half; the carry out of the user byte stays in the word.
  function Taken(w: Word): Word {
    w.(upper := (w.upper + 1) % (B * B))
  }

  // user: the user byte the thread drew.  seen: the byte counter it last looked at.
  datatype PC =
    | Idle
    | WrSpin(user: nat, seen: nat) | Writing | WrLeave(was: Word) | TryWr(was: Word)
    | RdSpin(user: nat, seen: nat) | RdCount(loaded: nat) | Reading | TryRd(was: Word)

  // ticket: the number the thread drew, not wrapped.
  datatype Thread = Thread(pc: PC, ticket: nat)

  // done, admitted and drawn count all increments of the three counters, not wrapped; no access
  // depends on them.
  datatype State = State(word: Word, ths: seq<Thread>, done: nat, admitted: nat, drawn: nat)

  datatype Action =
    | WrTake | WrLook | WrEnter | WrLoad | WrStore | TryWrLoad | TryWrSwap
    | RdTake | RdLook | RdEnter | RdStore | RdLeave | TryRdLoad | TryRdSwap

  predicate Enabled(s: State, t: nat, a: Action) {
    t < |s.ths| &&
    var pc := s.ths[t].pc;
    match a
    case WrTake => pc.Idle?
    case WrLook => pc.WrSpin? && pc.seen != pc.user
    case WrEnter => pc.WrSpin? && pc.seen == pc.user
    case WrLoad => pc.Writing?
    case WrStore => pc.WrLeave?
    case TryWrLoad => pc.Idle?
    case TryWrSwap => pc.TryWr?
    case RdTake => pc.Idle?
    case RdLook => pc.RdSpin? && pc.seen != pc.user
    case RdEnter => pc.RdSpin? && pc.seen == pc.user
    case RdStore => pc.RdCount?
    case RdLeave => pc.Reading?
    case TryRdLoad => pc.Idle?
    case TryRdSwap => pc.TryRd?
  }

  function Goto(s: State, t: nat, pc: PC): State
    requires t < |s.ths|
  {
    s.(ths := s.ths[t := s.ths[t].(pc := pc)])
  }

  // Draw a ticket.
  function Draw(s: State, t: nat, pc: PC): State
    requires t < |s.ths|
  {
    s.(word := Taken(s.word), drawn := s.drawn + 1, ths := s.ths[t := Thread(pc, s.drawn)])
  }

  function Do(s: State, t: nat, a: Action): State
    requires Enabled(s, t, a)
  {
    var pc := s.ths[t].pc;
    match a
    case WrTake => Draw(s, t, WrSpin(User(s.word), s.word.write))
    case WrLook => Goto(s, t, WrSpin(pc.user, s.word.write))
    case WrEnter => Goto(s, t, Writing)
    case WrLoad => Goto(s, t, WrLeave(s.word))
    case WrStore => Release(s, t, (pc.was.write + 1) % B, (pc.was.read + 1) % B)
    case TryWrLoad => Goto(s, t, if s.word.write == User(s.word) then TryWr(s.word) else Idle)
    case TryWrSwap => if s.word == pc.was then Draw(s, t, Writing) else Goto(s, t, Idle)
    case RdTake => Draw(s, t, RdSpin(User(s.word), s.word.read))
    case RdLook => Goto(s, t, RdSpin(pc.user, s.word.read))
    case RdEnter => Goto(s, t, RdCount(s.word.read))
    case RdStore => Admit(s, t, (pc.loaded + 1) % B)
    case RdLeave => Goto(s.(word := s.word.(write := (s.word.write + 1) % B), done := s.done + 1), t, Idle)
    case TryRdLoad => Goto(s, t, if s.word.read == User(s.word) then TryRd(s.word) else Idle)
    case TryRdSwap =>
      if s.word == pc.was then Admit(Draw(s, t, RdCount(s.word.read)), t, (s.word.read + 1) % B) else Goto(s, t, Idle)
  }

  // A writer stores both byte counters at once.
  function Release(s: State, t: nat, write: nat, read: nat): State
    requires t < |s.ths|
  {
    Goto(s.(word := Word(write, read, s.word.upper), done := s.done + 1, admitted := s.admitted + 1), t, Idle)
  }

  // A reader stores the read byte and is in.
  function Admit(s: State, t: nat, read: nat): State
    requires t < |s.ths|
  {
    Goto(s.(word := s.word.(read := read), admitted := s.admitted + 1), t, Reading)
  }

  //
  // The invariant.
  //

  // The thread holds a ticket that has not been passed yet.
  predicate Pending(pc: PC) {
    pc.WrSpin? || pc.Writing? || pc.WrLeave? || pc.RdSpin? || pc.RdCount?
  }

  function Readers(ths: seq<Thread>): nat {
    if ths == [] then 0 else Readers(ths[..|ths| - 1]) + if ths[|ths| - 1].pc.Reading? then 1 else 0
  }

  lemma {:induction false} ReadersUpdate(ths: seq<Thread>, t: nat, th: Thread)
    requires t < |ths|
    ensures Readers(ths[t := th]) ==
            Readers(ths) - (if ths[t].pc.Reading? then 1 else 0) + if th.pc.Reading? then 1 else 0
  {
    var n := |ths| - 1;
    if t < n {
      assert ths[t := th][..n] == ths[..n][t := th];
      ReadersUpdate(ths[..n], t, th);
    } else {
      assert ths[t := th][..n] == ths[..n];
    }
  }

  lemma {:induction false} NoReaders(ths: seq<Thread>, t: nat)
    requires t < |ths| && ths[t].pc.Reading?
    ensures Readers(ths) > 0
  {
    if t < |ths| - 1 {
      NoReaders(ths[..|ths| - 1], t);
    }
  }

  // The bytes are the counts, wrapped, and not too far apart.
  predicate Counters(s: State) {
    && s.word == Word(s.done % B, s.admitted % B, s.drawn % (B * B))
    && s.done <= s.admitted <= s.drawn <= s.done + B
  }

  // What a thread has seen is still true.
  predicate ThreadInv(s: State, th: Thread) {
    var pc := th.pc;
    && (Pending(pc) ==> s.admitted <= th.ticket < s.drawn)
    && (pc.WrSpin? ==> pc.user == th.ticket % B && (pc.seen == pc.user ==> s.done == th.ticket))
    && (pc.Writing? || pc.WrLeave? ==> s.done == th.ticket)
    && (pc.WrLeave? ==> pc.was.write == s.word.write && pc.was.read == s.word.read)
    && (pc.RdSpin? ==> pc.user == th.ticket % B && (pc.seen == pc.user ==> s.admitted == th.ticket))
    && (pc.RdCount? ==> s.admitted == th.ticket && pc.loaded == s.word.read)
    && (pc.TryWr? ==> pc.was.write == User(pc.was))
    && (pc.TryRd? ==> pc.was.read == User(pc.was))
  }

  ghost predicate Distinct(ths: seq<Thread>) {
    forall t: nat, u: nat :: t < u < |ths| && Pending(ths[t].pc) && Pending(ths[u].pc) ==>
        ths[t].ticket != ths[u].ticket
  }

  ghost predicate Held(ths: seq<Thread>, k: nat) {
    exists t: nat :: t < |ths| && Pending(ths[t].pc) && ths[t].ticket == k
  }

  ghost predicate AllHeld(ths: seq<Thread>, lo: nat, hi: nat) {
    forall k: nat :: lo <= k < hi ==> Held(ths, k)
  }

  ghost predicate Inv(s: State) {
    && Counters(s)
    && Readers(s.ths) == s.admitted - s.done
    && Distinct(s.ths)
    && (forall t: nat :: t < |s.ths| ==> ThreadInv(s, s.ths[t]))
    && AllHeld(s.ths, s.admitted, s.drawn)
  }

  lemma UserByte(n: nat)
    ensures (n % (B * B)) % B == n % B
    ensures (n % (B * B) + 1) % (B * B) == (n + 1) % (B * B)
    ensures (n % B + 1) % B == (n + 1) % B
  {
    var q, r := n / 65536, n % 65536;
    var a, c := r / 256, r % 256;
    ModUnique(n, 256 * q + a, c, 256);
    NextByte(n, 256);
    NextByte(n, 65536);
  }

  lemma NextByte(n: nat, b: nat)
    requires b > 1
    ensures (n % b + 1) % b == (n + 1) % b
  {
    var q, r := n / b, n % b;
    assert n == q * b + r;
    if r + 1 < b {
      ModUnique(n + 1, q, r + 1, b);
      ModUnique(r + 1, 0, r + 1, b);
    } else {
      ModUnique(n + 1, q + 1, 0, b);
      ModUnique(r + 1, 1, 0, b);
    }
  }

  // Equal bytes of counts that are close are equal counts.
  lemma SameByte(m: nat, n: nat)
    requires m <= n < m + B
    ensures m % B == n % B ==> m == n
  {
  }

  // A step that leaves the word and the thread's ticket as they are.
  lemma GotoKeeps(s: State, t: nat, pc: PC)
    requires Inv(s) && t < |s.ths| && Pending(pc) == Pending(s.ths[t].pc)
    requires !pc.Reading? && !s.ths[t].pc.Reading? && ThreadInv(s, s.ths[t].(pc := pc))
    ensures Inv(Goto(s, t, pc))
  {
    ReadersUpdate(s.ths, t, s.ths[t].(pc := pc));
    forall k: nat | s.admitted <= k < s.drawn
      ensures Held(Goto(s, t, pc).ths, k)
    {
      HeldStill(s.ths, t, s.ths[t].(pc := pc), k);
    }
  }

  lemma HeldStill(ths: seq<Thread>, t: nat, th: Thread, k: nat)
    requires Held(ths, k) && t < |ths|
    requires Pending(ths[t].pc) && ths[t].ticket == k ==> Pending(th.pc) && th.ticket == k
    ensures Held(ths[t := th], k)
  {
    var u: nat :| u < |ths| && Pending(ths[u].pc) && ths[u].ticket == k;
    assert Pending(ths[t := th][u].pc);
  }

  // Drawing a ticket.
  lemma DrawKeeps(s: State, t: nat, pc: PC)
    requires Inv(s) && t < |s.ths| && !Pending(s.ths[t].pc) && !s.ths[t].pc.Reading? && Pending(pc)
    requires s.drawn < s.done + B && ThreadInv(Draw(s, t, pc), Thread(pc, s.drawn))
    ensures Inv(Draw(s, t, pc))
  {
    var s' := Draw(s, t, pc);
    UserByte(s.drawn);
    ReadersUpdate(s.ths, t, Thread(pc, s.drawn));
    forall k: nat | s'.admitted <= k < s'.drawn
      ensures Held(s'.ths, k)
    {
      if k < s.drawn {
        HeldStill(s.ths, t, Thread(pc, s.drawn), k);
      } else {
        assert Pending(s'.ths[t].pc) && s'.ths[t].ticket == k;
      }
    }
  }

  // The thread whose ticket comes next passes it.
  lemma PassHeld(s: State, t: nat, th: Thread)
    requires Inv(s) && t < |s.ths| && Pending(s.ths[t].pc) && s.ths[t].ticket == s.admitted
    ensures AllHeld(s.ths[t := th], s.admitted + 1, s.drawn)
  {
    var ths, lo := s.ths[t := th], s.admitted + 1;
    forall k: nat | lo <= k < s.drawn
      ensures Held(ths, k)
    {
      HeldStill(s.ths, t, th, k);
    }
  }

  // Nobody else has the next ticket.
  lemma NextIsUnique(s: State, t: nat, u: nat)
    requires Inv(s) && t < |s.ths| && Pending(s.ths[t].pc) && s.ths[t].ticket == s.admitted
    requires u < |s.ths| && u != t && Pending(s.ths[u].pc)
    ensures s.ths[u].ticket > s.admitted
  {
    assert ThreadInv(s, s.ths[u]);
  }

  // The thread whose ticket comes next has the read counter and passes on; the others still wait.
  lemma OthersWait(s: State, s': State, t: nat, u: nat)
    requires Inv(s) && t < |s.ths| && Pending(s.ths[t].pc) && s.ths[t].ticket == s.admitted
    requires s'.admitted == s.admitted + 1 && s'.drawn == s.drawn && s'.done >= s.done
    requires s'.done != s.done ==> s.done == s.admitted
    requires u < |s.ths| && u != t
    ensures ThreadInv(s', s.ths[u])
  {
    assert ThreadInv(s, s.ths[u]);
    if Pending(s.ths[u].pc) {
      NextIsUnique(s, t, u);
    }
  }

  lemma AdmitKeeps(s: State, t: nat)
    requires Inv(s) && t < |s.ths| && s.ths[t].pc.RdCount?
    ensures Inv(Admit(s, t, (s.ths[t].pc.loaded + 1) % B))
  {
    var s' := Admit(s, t, (s.ths[t].pc.loaded + 1) % B);
    assert ThreadInv(s, s.ths[t]);
    UserByte(s.admitted);
    ReadersUpdate(s.ths, t, s.ths[t].(pc := Reading));
    PassHeld(s, t, s.ths[t].(pc := Reading));
    forall u: nat | u < |s.ths| && u != t
      ensures ThreadInv(s', s'.ths[u])
    {
      OthersWait(s, s', t, u);
    }
  }

  lemma ReleaseKeeps(s: State, t: nat)
    requires Inv(s) && t < |s.ths| && s.ths[t].pc.WrLeave?
    ensures Inv(Release(s, t, (s.ths[t].pc.was.write + 1) % B, (s.ths[t].pc.was.read + 1) % B))
  {
    var s' := Release(s, t, (s.ths[t].pc.was.write + 1) % B, (s.ths[t].pc.was.read + 1) % B);
    assert ThreadInv(s, s.ths[t]);
    UserByte(s.admitted);
    UserByte(s.done);
    ReadersUpdate(s.ths, t, s.ths[t].(pc := Idle));
    PassHeld(s, t, s.ths[t].(pc := Idle));
    forall u: nat | u < |s.ths| && u != t
      ensures ThreadInv(s', s'.ths[u])
    {
      OthersWait(s, s', t, u);
    }
  }

  // A reader that leaves changes nothing a waiting thread relies on.
  lemma LeaveOther(s: State, s': State, th: Thread)
    requires ThreadInv(s, th) && s.done < s.admitted
    requires s' == s.(word := s.word.(write := s'.word.write), done := s.done + 1, ths := s'.ths)
    ensures ThreadInv(s', th)
  {
  }

  lemma LeaveHeld(s: State, t: nat)
    requires AllHeld(s.ths, s.admitted, s.drawn) && t < |s.ths| && s.ths[t].pc.Reading?
    ensures AllHeld(s.ths[t := s.ths[t].(pc := Idle)], s.admitted, s.drawn)
  {
    var ths := s.ths[t := s.ths[t].(pc := Idle)];
    forall k: nat | s.admitted <= k < s.drawn
      ensures Held(ths, k)
    {
      HeldStill(s.ths, t, s.ths[t].(pc := Idle), k);
    }
  }

  lemma LeaveKeeps(s: State, t: nat)
    requires Inv(s) && Enabled(s, t, RdLeave)
    ensures Inv(Do(s, t, RdLeave))
  {
    var s' := Do(s, t, RdLeave);
    UserByte(s.done);
    ReadersUpdate(s.ths, t, s.ths[t].(pc := Idle));
    NoReaders(s.ths, t);
    LeaveHeld(s, t);
    forall u: nat | u < |s.ths| && u != t
      ensures ThreadInv(s', s'.ths[u])
    {
      LeaveOther(s, s', s.ths[u]);
    }
  }

  // A thread that spins looks at its counter again.
  lemma LookKeeps(s: State, t: nat, a: Action)
    requires Inv(s) && Enabled(s, t, a) && (a.WrLook? || a.RdLook?)
    ensures Inv(Do(s, t, a))
  {
    var th := s.ths[t];
    assert ThreadInv(s, th);
    SameByte(s.done, th.ticket);
    SameByte(s.admitted, th.ticket);
    GotoKeeps(s, t, if a.WrLook? then WrSpin(th.pc.user, s.word.write) else RdSpin(th.pc.user, s.word.read));
  }

  lemma TakeKeeps(s: State, t: nat, a: Action)
    requires Inv(s) && Enabled(s, t, a) && (a.WrTake? || a.RdTake?) && s.drawn < s.done + B
    ensures Inv(Do(s, t, a))
  {
    UserByte(s.drawn);
    SameByte(s.done, s.drawn);
    SameByte(s.admitted, s.drawn);
    DrawKeeps(s, t, if a.WrTake? then WrSpin(User(s.word), s.word.write) else RdSpin(User(s.word), s.word.read));
  }

  lemma TrySwapKeeps(s: State, t: nat, a: Action)
    requires Inv(s) && Enabled(s, t, a) && (a.TryWrSwap? || a.TryRdSwap?)
    requires s.word == s.ths[t].pc.was && s.drawn < s.done + B
    ensures Inv(Do(s, t, a))
  {
    assert ThreadInv(s, s.ths[t]);
    UserByte(s.drawn);
    SameByte(s.done, s.drawn);
    SameByte(s.admitted, s.drawn);
    if a.TryWrSwap? {
      DrawKeeps(s, t, Writing);
    } else {
      DrawKeeps(s, t, RdCount(s.word.read));
      AdmitKeeps(Draw(s, t, RdCount(s.word.read)), t);
    }
  }

  // Every step keeps the invariant while no more than B tickets are outstanding.
  lemma StepKeeps(s: State, t: nat, a: Action)
    requires Inv(s) && Enabled(s, t, a) && Do(s, t, a).drawn <= Do(s, t, a).done + B
    ensures Inv(Do(s, t, a))
  {
    var pc := s.ths[t].pc;
    assert ThreadInv(s, s.ths[t]);
    match a
    case WrTake => TakeKeeps(s, t, a);
    case RdTake => TakeKeeps(s, t, a);
    case WrLook => LookKeeps(s, t, a);
    case RdLook => LookKeeps(s, t, a);
    case WrEnter => GotoKeeps(s, t, Writing);
    case WrLoad => GotoKeeps(s, t, WrLeave(s.word));
    case WrStore => ReleaseKeeps(s, t);
    case RdEnter => GotoKeeps(s, t, RdCount(s.word.read));
    case RdStore => AdmitKeeps(s, t);
    case RdLeave => LeaveKeeps(s, t);
    case TryWrLoad => GotoKeeps(s, t, if s.word.write == User(s.word) then TryWr(s.word) else Idle);
    case TryRdLoad => GotoKeeps(s, t, if s.word.read == User(s.word) then TryRd(s.word) else Idle);
    case TryWrSwap => if s.word == pc.was { TrySwapKeeps(s, t, a); } else { GotoKeeps(s, t, Idle); }
    case TryRdSwap => if s.word == pc.was { TrySwapKeeps(s, t, a); } else { GotoKeeps(s, t, Idle); }
  }

  //
  // Runs.
  //

  predicate Init(s: State) {
    && s.word == Word(0, 0, 0) && s.done == s.admitted == s.drawn == 0
    && (forall t: nat :: t < |s.ths| ==> s.ths[t].pc.Idle?)
  }

  ghost predicate Step(s: State, s': State) {
    exists t: nat, a :: Enabled(s, t, a) && s' == Do(s, t, a)
  }

  // A run in which at most limit tickets are outstanding at any time.
  ghost predicate Run(ss: seq<State>, limit: nat) {
    && |ss| > 0 && Init(ss[0])
    && (forall i: nat :: i + 1 < |ss| ==> Step(ss[i], ss[i + 1]))
    && (forall i: nat :: i < |ss| ==> ss[i].drawn <= ss[i].done + limit)
  }

  lemma {:induction false} NobodyReads(ths: seq<Thread>)
    requires forall t: nat :: t < |ths| ==> !ths[t].pc.Reading?
    ensures Readers(ths) == 0
  {
    if ths != [] {
      NobodyReads(ths[..|ths| - 1]);
    }
  }

  lemma InitInv(s: State)
    requires Init(s)
    ensures Inv(s)
  {
    NobodyReads(s.ths);
  }

  lemma StepInv(s: State, s': State)
    requires Inv(s) && Step(s, s') && s'.drawn <= s'.done + B
    ensures Inv(s')
  {
    hide Inv, Do;
    var t: nat, a :| Enabled(s, t, a) && s' == Do(s, t, a);
    StepKeeps(s, t, a);
  }

  lemma {:induction false} RunInv(ss: seq<State>, limit: nat, i: nat)
    requires Run(ss, limit) && limit <= B && i < |ss|
    ensures Inv(ss[i])
    decreases i
  {
    hide Inv, Step, Init;
    if i == 0 {
      InitInv(ss[0]);
    } else {
      RunInv(ss, limit, i - 1);
      assert Step(ss[i - 1], ss[i - 1 + 1]);
      StepInv(ss[i - 1], ss[i]);
    }
  }

  predicate Writer(pc: PC) {
    pc.Writing? || pc.WrLeave?
  }

  predicate Reader(pc: PC) {
    pc.Reading? || pc.RdCount?
  }

  // A writer is inside together with another writer or a reader.
  predicate Conflict(s: State, t: nat, u: nat) {
    t < |s.ths| && u < |s.ths| && t != u && Writer(s.ths[t].pc) && (Writer(s.ths[u].pc) || Reader(s.ths[u].pc))
  }

  lemma InvExcludes(s: State, t: nat, u: nat)
    requires Inv(s)
    ensures !Conflict(s, t, u)
  {
    if t < |s.ths| && u < |s.ths| && t != u && Writer(s.ths[t].pc) {
      assert ThreadInv(s, s.ths[t]) && ThreadInv(s, s.ths[u]);
      assert Pending(s.ths[u].pc) ==> s.ths[u].ticket != s.ths[t].ticket;
      if s.ths[u].pc.Reading? {
        NoReaders(s.ths, u);
      }
    }
  }

  ghost predicate Exclusive(limit: nat) {
    forall ss, i: nat, t: nat, u: nat :: Run(ss, limit) && i < |ss| ==> !Conflict(ss[i], t, u)
  }

  // A writer is alone in every state of every run with at most limit outstanding tickets, if and
  // only if limit is at most the number of values of a ticket.
  lemma WritersAreAlone(limit: nat)
    ensures Exclusive(limit) <==> limit <= B
  {
    if limit <= B {
      forall ss, i: nat, t: nat, u: nat | Run(ss, limit) && i < |ss|
        ensures !Conflict(ss[i], t, u)
      {
        RunInv(ss, limit, i);
        InvExcludes(ss[i], t, u);
      }
    } else {
      TwoWriters(limit);
    }
  }

  // The lock does not get stuck: while no thread is inside and some thread waits, some waiting
  // thread finds its turn the next time it looks.
  lemma SomebodyIsNext(ss: seq<State>, limit: nat, i: nat, w: nat)
    requires Run(ss, limit) && limit <= B && i < |ss| && w < |ss[i].ths|
    requires Pending(ss[i].ths[w].pc)
    requires forall t: nat :: t < |ss[i].ths| ==> !Writer(ss[i].ths[t].pc) && !Reader(ss[i].ths[t].pc)
    ensures exists t: nat :: t < |ss[i].ths| && IsNext(ss[i].word, ss[i].ths[t].pc)
  {
    var s := ss[i];
    RunInv(ss, limit, i);
    NobodyReads(s.ths);
    assert ThreadInv(s, s.ths[w]);
    assert Held(s.ths, s.admitted);
    var t: nat :| t < |s.ths| && Pending(s.ths[t].pc) && s.ths[t].ticket == s.admitted;
    assert ThreadInv(s, s.ths[t]);
    assert IsNext(s.word, s.ths[t].pc);
  }

  predicate IsNext(w: Word, pc: PC) {
    (pc.WrSpin? && pc.user == w.write) || (pc.RdSpin? && pc.user == w.read)
  }

  //
  // What goes wrong with one more ticket.
  //

  // The first thread writes; the next k threads have drawn tickets to read.
  function Crowd(k: nat): State {
    State(Word(0, 0, (k + 1) % (B * B)),
          seq(B + 1, (i: nat) =>
            if i == 0 then Thread(Writing, 0) else if i <= k then Thread(RdSpin(i % B, 0), i) else Thread(Idle, 0)),
          0, 0, k + 1)
  }

  function Quiet(): State {
    State(Word(0, 0, 0), seq(B + 1, i => Thread(Idle, 0)), 0, 0, 0)
  }

  function Trace(k: nat): (ss: seq<State>)
    ensures |ss| == k + 3 && ss[|ss| - 1] == Crowd(k)
  {
    if k == 0 then [Quiet(), Do(Quiet(), 0, WrTake), Crowd(0)] else Trace(k - 1) + [Crowd(k)]
  }

  lemma Joins(k: nat)
    requires 0 < k < B
    ensures Step(Crowd(k - 1), Crowd(k))
  {
    var s := Crowd(k - 1);
    assert Enabled(s, k, RdTake);
    UserByte(k);
    assert Crowd(k) == Do(s, k, RdTake);
  }

  lemma RunExtends(ss: seq<State>, limit: nat, s: State)
    requires Run(ss, limit) && Step(ss[|ss| - 1], s) && s.drawn <= s.done + limit
    ensures Run(ss + [s], limit)
  {
    var ss' := ss + [s];
    forall i: nat | i + 1 < |ss'|
      ensures Step(ss'[i], ss'[i + 1])
    {
      assert i + 1 < |ss| ==> Step(ss[i], ss[i + 1]);
    }
  }

  lemma {:induction false} TraceRuns(k: nat)
    requires k < B
    ensures Run(Trace(k), B)
  {
    if k == 0 {
      var s := Do(Quiet(), 0, WrTake);
      assert Enabled(Quiet(), 0, WrTake) && Enabled(s, 0, WrEnter);
      assert Crowd(0) == Do(s, 0, WrEnter);
      assert Step(Quiet(), s) && Step(s, Crowd(0));
      RunExtends([Quiet()], B, s);
      RunExtends([Quiet()] + [s], B, Crowd(0));
      assert Trace(0) == [Quiet()] + [s] + [Crowd(0)];
    } else {
      TraceRuns(k - 1);
      Joins(k);
      RunExtends(Trace(k - 1), B, Crowd(k));
    }
  }

  // With one writer and B - 1 readers waiting, the user byte has come round to the write byte, and
  // a thread that tries to write succeeds.
  lemma TwoWritersRun(limit: nat) returns (ss: seq<State>)
    requires limit > B
    ensures Run(ss, limit) && |ss[0].ths| == B + 1 && Conflict(ss[|ss| - 1], 0, B)
  {
    var s := Crowd(B - 1);
    TraceRuns(B - 1);
    TraceStarts(B - 1);
    assert Run(Trace(B - 1), limit);
    assert Enabled(s, B, TryWrLoad);
    var s1 := Do(s, B, TryWrLoad);
    assert Step(s, s1);
    RunExtends(Trace(B - 1), limit, s1);
    assert Enabled(s1, B, TryWrSwap);
    var s2 := Do(s1, B, TryWrSwap);
    assert Step(s1, s2);
    RunExtends(Trace(B - 1) + [s1], limit, s2);
    ss := Trace(B - 1) + [s1] + [s2];
  }

  lemma {:induction false} TraceStarts(k: nat)
    ensures Trace(k)[0] == Quiet()
  {
    if k > 0 {
      TraceStarts(k - 1);
    }
  }

  lemma TwoWriters(limit: nat)
    requires limit > B
    ensures !Exclusive(limit)
  {
    var ss := TwoWritersRun(limit);
    assert Conflict(ss[|ss| - 1], 0, B);
  }

  //
  // What a caller can see: the number of threads.
  //

  // The thread holds a ticket that is outstanding.
  predicate Holder(pc: PC) {
    Pending(pc) || pc.Reading?
  }

  function Holders(ths: seq<Thread>): (n: nat)
    ensures n <= |ths|
  {
    if ths == [] then 0 else Holders(ths[..|ths| - 1]) + if Holder(ths[|ths| - 1].pc) then 1 else 0
  }

  lemma {:induction false} HoldersUpdate(ths: seq<Thread>, t: nat, th: Thread)
    requires t < |ths|
    ensures Holders(ths[t := th]) ==
            Holders(ths) - (if Holder(ths[t].pc) then 1 else 0) + if Holder(th.pc) then 1 else 0
  {
    var n := |ths| - 1;
    if t < n {
      assert ths[t := th][..n] == ths[..n][t := th];
      HoldersUpdate(ths[..n], t, th);
    } else {
      assert ths[t := th][..n] == ths[..n];
    }
  }

  lemma {:induction false} NobodyHolds(ths: seq<Thread>)
    requires forall t: nat :: t < |ths| ==> ths[t].pc.Idle?
    ensures Holders(ths) == 0
  {
    if ths != [] {
      NobodyHolds(ths[..|ths| - 1]);
    }
  }

  // As many tickets are outstanding as threads hold one.
  predicate Balanced(s: State) {
    s.drawn == s.done + Holders(s.ths)
  }

  lemma StepBalanced(s: State, t: nat, a: Action)
    requires Balanced(s) && Enabled(s, t, a)
    ensures Balanced(Do(s, t, a)) && |Do(s, t, a).ths| == |s.ths|
  {
    var s' := Do(s, t, a);
    HoldersUpdate(s.ths, t, s'.ths[t]);
    assert s'.ths == s.ths[t := s'.ths[t]];
  }

  // A run without any assumption on the tickets.
  ghost predicate AnyRun(ss: seq<State>) {
    |ss| > 0 && Init(ss[0]) && forall i: nat :: i + 1 < |ss| ==> Step(ss[i], ss[i + 1])
  }

  lemma {:induction false} RunBalanced(ss: seq<State>, i: nat)
    requires AnyRun(ss) && i < |ss|
    ensures Balanced(ss[i]) && |ss[i].ths| == |ss[0].ths|
    decreases i
  {
    if i == 0 {
      NobodyHolds(ss[0].ths);
    } else {
      RunBalanced(ss, i - 1);
      assert Step(ss[i - 1], ss[i - 1 + 1]);
      var t: nat, a :| Enabled(ss[i - 1], t, a) && ss[i] == Do(ss[i - 1], t, a);
      StepBalanced(ss[i - 1], t, a);
    }
  }

  ghost predicate ExclusiveFor(n: nat) {
    forall ss: seq<State>, i: nat, t: nat, u: nat :: AnyRun(ss) && |ss[0].ths| <= n && i < |ss| ==>
        !Conflict(ss[i], t, u)
  }

  // A writer is alone in every run of at most n threads, if and only if n is at most 256.
  lemma EnoughTickets(n: nat)
    ensures ExclusiveFor(n) <==> n <= B
  {
    if n <= B {
      forall ss: seq<State>, i: nat, t: nat, u: nat | AnyRun(ss) && |ss[0].ths| <= n && i < |ss|
        ensures !Conflict(ss[i], t, u)
      {
        forall j: nat | j < |ss|
          ensures ss[j].drawn <= ss[j].done + B
        {
          RunBalanced(ss, j);
        }
        assert Run(ss, B);
        RunInv(ss, B, i);
        InvExcludes(ss[i], t, u);
      }
    } else {
      var ss := TwoWritersRun(B + 1);
      assert AnyRun(ss) && Conflict(ss[|ss| - 1], 0, B);
    }
  }
}
