// Theory of Makalu's undo log: what a crash image means, and which stores keep that meaning.
module UndoLog {
  import opened NvmModel

  datatype Entry = Entry(a: nat, v: int)

  //
  // What recovery makes of an image.
  //

  // Number of leading log entries whose version is the current one, starting from entry i.
  ghost function Scan(img: Image, i: nat): (n: nat)
    requires i <= LOG_CAPACITY
    ensures i <= n <= LOG_CAPACITY
    ensures forall j :: i <= j < n ==> img(LogVer(j)) == img(Version)
    ensures n < LOG_CAPACITY ==> img(LogVer(n)) != img(Version)
    decreases LOG_CAPACITY - i
  {
    if i == LOG_CAPACITY || img(LogVer(i)) != img(Version) then i else Scan(img, i + 1)
  }

  // Value of word a after entries n-1, n-2, ..., i have been replayed in this order.
  ghost function Replayed(img: Image, i: nat, n: nat, a: nat): int
    decreases n - i
  {
    if i >= n then img(Data(a))
    else if img(LogAddr(i)) == a then img(LogVal(i))
    else Replayed(img, i + 1, n, a)
  }

  // The value of word a that recovery produces from img.
  ghost function Recovered(img: Image, a: nat): int {
    Replayed(img, 0, Scan(img, 0), a)
  }

  // Every entry is at most as new as the version, the scan stops inside the log, and what it finds are addresses.
  ghost predicate Sane(img: Image) {
    && (forall i: nat :: i < LOG_CAPACITY ==> img(LogVer(i)) <= img(Version))
    && Scan(img, 0) < LOG_CAPACITY
    && (forall i: nat :: i < Scan(img, 0) ==> img(LogAddr(i)) >= 0)
  }

  lemma ScanIs(img: Image, i: nat, n: nat)
    requires i <= n < LOG_CAPACITY
    requires forall j :: i <= j < n ==> img(LogVer(j)) == img(Version)
    requires img(LogVer(n)) != img(Version)
    ensures Scan(img, i) == n
    decreases n - i
  {
    if i < n {
      ScanIs(img, i + 1, n);
    }
  }

  //
  // Cells with one value in every surviving image.
  //

  ghost predicate Fixed(init: Image, tr: seq<Op>, c: Cell, v: int) {
    forall t: nat :: Durable(tr, LineOf(c)) <= t <= |tr| ==> Value(init, tr[..t], c) == v
  }

  lemma FixedNow(init: Image, tr: seq<Op>, c: Cell, v: int)
    requires Fixed(init, tr, c, v)
    ensures Value(init, tr, c) == v
  {
    assert tr[..|tr|] == tr;
  }

  lemma FixedSurvives(init: Image, tr: seq<Op>, img: Image, c: Cell, v: int)
    requires Survives(init, tr, img) && Fixed(init, tr, c, v)
    ensures img(c) == v
  {
    assert LineSurvives(init, tr, img, LineOf(c));
  }

  lemma FixedExtends(init: Image, tr: seq<Op>, op: Op, c: Cell, v: int)
    requires Fixed(init, tr, c, v)
    requires op.Store? && op.c == c ==> op.v == v
    ensures Fixed(init, tr + [op], c, v)
  {
    Extend(init, tr, op);
    FixedNow(init, tr, c, v);
    var tr' := tr + [op];
    forall t: nat | Durable(tr', LineOf(c)) <= t <= |tr'|
      ensures Value(init, tr'[..t], c) == v
    {
      if t <= |tr| {
        assert tr'[..t] == tr[..t];
      } else {
        assert tr'[..t] == tr';
      }
    }
  }

  // A fence after a flush settles the line.
  lemma FencedIsFixed(init: Image, tr: seq<Op>, c: Cell)
    requires LineOf(c) in Pending(tr)
    ensures Fixed(init, tr + [Fence], c, Value(init, tr, c))
  {
    Extend(init, tr, Fence);
    var tr' := tr + [Fence];
    assert tr'[..|tr'|] == tr';
  }

  //
  // Older entries.
  //

  // In every surviving image entry i is older than version ver.
  ghost predicate Older(init: Image, tr: seq<Op>, i: nat, ver: int) {
    forall t: nat :: Durable(tr, LogLine(i)) <= t <= |tr| ==> Value(init, tr[..t], LogVer(i)) < ver
  }

  // In every surviving image entry i is older than ver or is exactly e under version ver.
  ghost predicate OlderOr(init: Image, tr: seq<Op>, i: nat, ver: int, e: Entry) {
    forall t: nat :: Durable(tr, LogLine(i)) <= t <= |tr| ==>
      || Value(init, tr[..t], LogVer(i)) < ver
      || (&& Value(init, tr[..t], LogVer(i)) == ver
          && Value(init, tr[..t], LogAddr(i)) == e.a
          && Value(init, tr[..t], LogVal(i)) == e.v)
  }

  lemma OlderExtends(init: Image, tr: seq<Op>, op: Op, i: nat, ver: int)
    requires Older(init, tr, i, ver)
    requires op.Store? && op.c == LogVer(i) ==> op.v < ver
    ensures Older(init, tr + [op], i, ver)
  {
    Extend(init, tr, op);
    var tr' := tr + [op];
    assert tr[..|tr|] == tr;
    forall t: nat | Durable(tr', LogLine(i)) <= t <= |tr'|
      ensures Value(init, tr'[..t], LogVer(i)) < ver
    {
      if t <= |tr| {
        assert tr'[..t] == tr[..t];
      } else {
        assert tr'[..t] == tr';
      }
    }
  }

  // The version of an entry is stored last, so a torn entry never carries the current version.
  lemma SealEntry(init: Image, tr: seq<Op>, i: nat, ver: int, e: Entry)
    requires Older(init, tr, i, ver)
    requires Value(init, tr, LogAddr(i)) == e.a && Value(init, tr, LogVal(i)) == e.v
    ensures OlderOr(init, tr + [Store(LogVer(i), ver)], i, ver, e)
  {
    var op := Store(LogVer(i), ver);
    Extend(init, tr, op);
    var tr' := tr + [op];
    forall t: nat | Durable(tr', LogLine(i)) <= t <= |tr'|
      ensures || Value(init, tr'[..t], LogVer(i)) < ver
              || (&& Value(init, tr'[..t], LogVer(i)) == ver
                  && Value(init, tr'[..t], LogAddr(i)) == e.a
                  && Value(init, tr'[..t], LogVal(i)) == e.v)
    {
      if t <= |tr| {
        assert tr'[..t] == tr[..t];
      } else {
        assert tr'[..t] == tr';
      }
    }
  }

  lemma OlderOrExtends(init: Image, tr: seq<Op>, op: Op, i: nat, ver: int, e: Entry)
    requires OlderOr(init, tr, i, ver, e)
    requires op.Store? ==> LineOf(op.c) != LogLine(i)
    ensures OlderOr(init, tr + [op], i, ver, e)
  {
    Extend(init, tr, op);
    var tr' := tr + [op];
    assert tr[..|tr|] == tr;
    forall t: nat | Durable(tr', LogLine(i)) <= t <= |tr'|
      ensures || Value(init, tr'[..t], LogVer(i)) < ver
              || (&& Value(init, tr'[..t], LogVer(i)) == ver
                  && Value(init, tr'[..t], LogAddr(i)) == e.a
                  && Value(init, tr'[..t], LogVal(i)) == e.v)
    {
      if t <= |tr| {
        assert tr'[..t] == tr[..t];
      } else {
        assert tr'[..t] == tr';
      }
    }
  }

  //
  // A failure-atomic section in progress.
  //

  // ver: log version of the section; pre: contents at its start; entries: log entries that are
  // complete and durable; building: the entry being written into the next slot, if any;
  // loose: words given a new value although they were not logged.
  datatype Section = Section(ver: int, pre: Image, entries: seq<Entry>, building: Building, loose: set<nat>)

  // Sealed: the version of the entry has been stored, but not made durable yet.
  datatype Building = Nothing | Sealed(e: Entry)

  ghost predicate Logged(es: seq<Entry>, a: nat) {
    exists i :: 0 <= i < |es| && es[i].a == a
  }

  ghost predicate EntryDurable(init: Image, tr: seq<Op>, ver: int, i: nat, e: Entry) {
    && Fixed(init, tr, LogAddr(i), e.a)
    && Fixed(init, tr, LogVal(i), e.v)
    && Fixed(init, tr, LogVer(i), ver)
  }

  // The earliest entry for a word holds its value from before the section.
  ghost predicate FirstIsPre(es: seq<Entry>, pre: Image) {
    forall i :: 0 <= i < |es| && !Logged(es[..i], es[i].a) ==> es[i].v == pre(Data(es[i].a))
  }

  ghost predicate LogInv(init: Image, tr: seq<Op>, s: Section) {
    var k := |s.entries|;
    && k < LOG_CAPACITY
    && (forall i: nat :: i < k ==> EntryDurable(init, tr, s.ver, i, s.entries[i]))
    && (forall i: nat :: k < i < LOG_CAPACITY ==> Older(init, tr, i, s.ver))
    && (s.building.Nothing? ==> Older(init, tr, k, s.ver))
    && (s.building.Sealed? ==> k + 1 < LOG_CAPACITY && OlderOr(init, tr, k, s.ver, s.building.e))
    && FirstIsPre(s.entries, s.pre)
    && (s.building.Sealed? ==> FirstIsPre(s.entries + [s.building.e], s.pre))
  }

  // Words that are neither logged nor loose have their old value, in the cache and in NVM.
  ghost predicate DataInv(init: Image, tr: seq<Op>, s: Section) {
    forall a: nat :: Logged(s.entries, a) || a in s.loose || Fixed(init, tr, Data(a), s.pre(Data(a)))
  }

  ghost predicate SectionInv(init: Image, tr: seq<Op>, s: Section) {
    && LogInv(init, tr, s)
    && DataInv(init, tr, s)
    && Fixed(init, tr, Version, s.ver)
  }

  // Recovery from img undoes the section, except for the words in loose.
  ghost predicate Undone(img: Image, ver: int, pre: Image, loose: set<nat>) {
    && Sane(img)
    && img(Version) == ver
    && forall a: nat :: a !in loose ==> Recovered(img, a) == pre(Data(a))
  }

  lemma ReplayUndoes(img: Image, pre: Image, es: seq<Entry>, i: nat, a: nat)
    requires i <= |es| && FirstIsPre(es, pre)
    requires forall j: nat :: j < |es| ==> img(LogAddr(j)) == es[j].a && img(LogVal(j)) == es[j].v
    requires !Logged(es[..i], a)
    ensures Replayed(img, i, |es|, a) == if Logged(es, a) then pre(Data(a)) else img(Data(a))
    decreases |es| - i
  {
    if i < |es| {
      if es[i].a == a {
        assert Logged(es, a);
      } else {
        assert es[..i + 1] == es[..i] + [es[i]];
        ReplayUndoes(img, pre, es, i + 1, a);
      }
    } else {
      assert es[..i] == es;
    }
  }

  // The log of a surviving image: the complete entries, and possibly the sealed one.
  lemma SurvivingLog(init: Image, tr: seq<Op>, s: Section, img: Image) returns (es: seq<Entry>)
    requires LogInv(init, tr, s) && Survives(init, tr, img)
    ensures es == s.entries || (s.building.Sealed? && es == s.entries + [s.building.e])
    ensures |es| < LOG_CAPACITY && FirstIsPre(es, s.pre)
    ensures forall i: nat :: i < |es| ==>
              img(LogAddr(i)) == es[i].a && img(LogVal(i)) == es[i].v && img(LogVer(i)) == s.ver
    ensures forall i: nat :: |es| <= i < LOG_CAPACITY ==> img(LogVer(i)) < s.ver
  {
    var k := |s.entries|;
    forall i: nat | i < k
      ensures img(LogAddr(i)) == s.entries[i].a && img(LogVal(i)) == s.entries[i].v && img(LogVer(i)) == s.ver
    {
      assert EntryDurable(init, tr, s.ver, i, s.entries[i]);
      FixedSurvives(init, tr, img, LogAddr(i), s.entries[i].a);
      FixedSurvives(init, tr, img, LogVal(i), s.entries[i].v);
      FixedSurvives(init, tr, img, LogVer(i), s.ver);
    }
    forall i: nat | k < i < LOG_CAPACITY
      ensures img(LogVer(i)) < s.ver
    {
      assert Older(init, tr, i, s.ver);
      assert LineSurvives(init, tr, img, LogLine(i));
    }
    assert LineSurvives(init, tr, img, LogLine(k));
    var t: nat :| Durable(tr, LogLine(k)) <= t <= |tr| && LineAt(init, tr, img, LogLine(k), t);
    assert img(LogVer(k)) == Value(init, tr[..t], LogVer(k));
    es := if img(LogVer(k)) < s.ver then s.entries else s.entries + [s.building.e];
  }

  // A crash anywhere inside a section: recovery restores every word that was logged or not written.
  lemma CrashInSection(init: Image, tr: seq<Op>, s: Section, img: Image)
    requires SectionInv(init, tr, s) && Survives(init, tr, img)
    ensures Undone(img, s.ver, s.pre, s.loose)
  {
    var es := SurvivingLog(init, tr, s, img);
    FixedSurvives(init, tr, img, Version, s.ver);
    ScanIs(img, 0, |es|);
    forall a: nat | a !in s.loose
      ensures Recovered(img, a) == s.pre(Data(a))
    {
      assert es[..0] == [];
      ReplayUndoes(img, s.pre, es, 0, a);
      if !Logged(es, a) {
        assert !Logged(s.entries, a) by {
          if i :| 0 <= i < |s.entries| && s.entries[i].a == a {
            assert es[i].a == a;
          }
        }
        FixedSurvives(init, tr, img, Data(a), s.pre(Data(a)));
      }
    }
  }

  //
  // Steps of a section.
  //

  // Flushes and fences, field stores into the slot being filled, and stores to words that are logged,
  // loose or keep their value.
  ghost predicate Allowed(s: Section, op: Op) {
    op.Store? ==>
      match op.c
      case Data(a) => Logged(s.entries, a) || a in s.loose || op.v == s.pre(op.c)
      case LogAddr(i) => s.building.Nothing? && i == |s.entries|
      case LogVal(i) => s.building.Nothing? && i == |s.entries|
      case LogVer(_) => false
      case Version => false
  }

  lemma SectionExtends(init: Image, tr: seq<Op>, op: Op, s: Section)
    requires SectionInv(init, tr, s) && Allowed(s, op)
    ensures SectionInv(init, tr + [op], s)
  {
    var tr', k := tr + [op], |s.entries|;
    FixedExtends(init, tr, op, Version, s.ver);
    forall i: nat | i < k
      ensures EntryDurable(init, tr', s.ver, i, s.entries[i])
    {
      assert EntryDurable(init, tr, s.ver, i, s.entries[i]);
      FixedExtends(init, tr, op, LogAddr(i), s.entries[i].a);
      FixedExtends(init, tr, op, LogVal(i), s.entries[i].v);
      FixedExtends(init, tr, op, LogVer(i), s.ver);
    }
    forall i: nat | k < i < LOG_CAPACITY
      ensures Older(init, tr', i, s.ver)
    {
      OlderExtends(init, tr, op, i, s.ver);
    }
    if s.building.Nothing? {
      OlderExtends(init, tr, op, k, s.ver);
    } else {
      OlderOrExtends(init, tr, op, k, s.ver, s.building.e);
    }
    forall a: nat | !Logged(s.entries, a) && a !in s.loose
      ensures Fixed(init, tr', Data(a), s.pre(Data(a)))
    {
      FixedExtends(init, tr, op, Data(a), s.pre(Data(a)));
    }
  }

  lemma FirstIsPreExtends(es: seq<Entry>, e: Entry, pre: Image)
    requires FirstIsPre(es, pre)
    requires Logged(es, e.a) || e.v == pre(Data(e.a))
    ensures FirstIsPre(es + [e], pre)
  {
    var es' := es + [e];
    forall i | 0 <= i < |es'| && !Logged(es'[..i], es'[i].a)
      ensures es'[i].v == pre(Data(es'[i].a))
    {
      if i < |es| {
        assert es'[..i] == es[..i];
      } else {
        assert es'[..i] == es;
      }
    }
  }

  // Storing the version field completes the entry in the cache.
  lemma SectionSeals(init: Image, tr: seq<Op>, s: Section, e: Entry)
    requires SectionInv(init, tr, s) && s.building.Nothing? && |s.entries| + 1 < LOG_CAPACITY
    requires Value(init, tr, LogAddr(|s.entries|)) == e.a && Value(init, tr, LogVal(|s.entries|)) == e.v
    requires Logged(s.entries, e.a) || e.v == s.pre(Data(e.a))
    ensures SectionInv(init, tr + [Store(LogVer(|s.entries|), s.ver)], s.(building := Sealed(e)))
  {
    var k := |s.entries|;
    var op := Store(LogVer(k), s.ver);
    var tr' := tr + [op];
    FixedExtends(init, tr, op, Version, s.ver);
    SealEntry(init, tr, k, s.ver, e);
    FirstIsPreExtends(s.entries, e, s.pre);
    forall i: nat | i < k
      ensures EntryDurable(init, tr', s.ver, i, s.entries[i])
    {
      assert EntryDurable(init, tr, s.ver, i, s.entries[i]);
      FixedExtends(init, tr, op, LogAddr(i), s.entries[i].a);
      FixedExtends(init, tr, op, LogVal(i), s.entries[i].v);
      FixedExtends(init, tr, op, LogVer(i), s.ver);
    }
    forall i: nat | k < i < LOG_CAPACITY
      ensures Older(init, tr', i, s.ver)
    {
      OlderExtends(init, tr, op, i, s.ver);
    }
    forall a: nat | !Logged(s.entries, a) && a !in s.loose
      ensures Fixed(init, tr', Data(a), s.pre(Data(a)))
    {
      FixedExtends(init, tr, op, Data(a), s.pre(Data(a)));
    }
  }

  // The fence after the flush makes a sealed entry durable.
  lemma SectionLogs(init: Image, tr: seq<Op>, s: Section)
    requires SectionInv(init, tr, s) && s.building.Sealed?
    requires LogLine(|s.entries|) in Pending(tr)
    requires Value(init, tr, LogAddr(|s.entries|)) == s.building.e.a
    requires Value(init, tr, LogVal(|s.entries|)) == s.building.e.v
    requires Value(init, tr, LogVer(|s.entries|)) == s.ver
    ensures SectionInv(init, tr + [Fence], s.(entries := s.entries + [s.building.e], building := Nothing))
  {
    var k, e := |s.entries|, s.building.e;
    SectionExtends(init, tr, Fence, s);
    FencedIsFixed(init, tr, LogAddr(k));
    FencedIsFixed(init, tr, LogVal(k));
    FencedIsFixed(init, tr, LogVer(k));
    forall a: nat | Logged(s.entries, a)
      ensures Logged(s.entries + [e], a)
    {
      var i :| 0 <= i < |s.entries| && s.entries[i].a == a;
      assert (s.entries + [e])[i].a == a;
    }
  }

  // The guarantee for one moment: whatever image survives a crash now, recovery undoes the section.
  ghost predicate CrashSafe(init: Image, tr: seq<Op>, ver: int, pre: Image, loose: set<nat>) {
    forall img: Image :: Survives(init, tr, img) ==> Undone(img, ver, pre, loose)
  }

  // The guarantee for every moment since the section started.
  ghost predicate SafeSince(init: Image, tr: seq<Op>, start: nat, ver: int, pre: Image, loose: set<nat>) {
    forall n: nat :: start <= n <= |tr| ==> CrashSafe(init, tr[..n], ver, pre, loose)
  }

  lemma SafeExtends(init: Image, tr: seq<Op>, op: Op, start: nat, s: Section, loose: set<nat>)
    requires loose <= s.loose
    requires SafeSince(init, tr, start, s.ver, s.pre, loose)
    requires SectionInv(init, tr + [op], s)
    ensures SafeSince(init, tr + [op], start, s.ver, s.pre, s.loose)
  {
    var tr' := tr + [op];
    forall n: nat | start <= n <= |tr'|
      ensures CrashSafe(init, tr'[..n], s.ver, s.pre, s.loose)
    {
      if n <= |tr| {
        assert tr'[..n] == tr[..n];
        assert CrashSafe(init, tr[..n], s.ver, s.pre, loose);
      } else {
        assert tr'[..n] == tr';
        forall img: Image | Survives(init, tr', img)
          ensures Undone(img, s.ver, s.pre, s.loose)
        {
          CrashInSection(init, tr', s, img);
        }
      }
    }
  }

  //
  // Commit.
  //

  // Between sections: the log holds only older entries and every word is durable.
  ghost predicate Ready(init: Image, tr: seq<Op>, ver: int) {
    && Fixed(init, tr, Version, ver)
    && (forall i: nat :: i < LOG_CAPACITY ==> Older(init, tr, i, ver))
    && (forall a: nat :: Fixed(init, tr, Data(a), Value(init, tr, Data(a))))
  }

  ghost predicate VersionEither(init: Image, tr: seq<Op>, ver: int) {
    forall t: nat :: Durable(tr, LineOf(Version)) <= t <= |tr| ==>
      Value(init, tr[..t], Version) == ver || Value(init, tr[..t], Version) == ver + 1
  }

  // The new version has been stored, but need not have reached NVM.
  ghost predicate Committing(init: Image, tr: seq<Op>, s: Section, post: Image) {
    && LogInv(init, tr, s) && s.building.Nothing?
    && DataInv(init, tr, s)
    && (forall a: nat :: Fixed(init, tr, Data(a), post(Data(a))))
    && VersionEither(init, tr, s.ver)
  }

  // Recovery from img keeps the section.
  ghost predicate Committed(img: Image, ver: int, post: Image) {
    && Sane(img)
    && img(Version) == ver + 1
    && forall a: nat :: Recovered(img, a) == post(Data(a))
  }

  lemma EitherExtends(init: Image, tr: seq<Op>, op: Op, ver: int)
    requires VersionEither(init, tr, ver)
    requires op.Store? && op.c == Version ==> op.v == ver + 1
    ensures VersionEither(init, tr + [op], ver)
  {
    Extend(init, tr, op);
    var tr' := tr + [op];
    assert tr[..|tr|] == tr;
    forall t: nat | Durable(tr', LineOf(Version)) <= t <= |tr'|
      ensures Value(init, tr'[..t], Version) == ver || Value(init, tr'[..t], Version) == ver + 1
    {
      if t <= |tr| {
        assert tr'[..t] == tr[..t];
      } else {
        assert tr'[..t] == tr';
      }
    }
  }

  lemma LogExtends(init: Image, tr: seq<Op>, op: Op, s: Section)
    requires LogInv(init, tr, s) && s.building.Nothing?
    requires op.Store? ==> op.c == Version
    ensures LogInv(init, tr + [op], s)
  {
    var tr', k := tr + [op], |s.entries|;
    forall i: nat | i < k
      ensures EntryDurable(init, tr', s.ver, i, s.entries[i])
    {
      assert EntryDurable(init, tr, s.ver, i, s.entries[i]);
      FixedExtends(init, tr, op, LogAddr(i), s.entries[i].a);
      FixedExtends(init, tr, op, LogVal(i), s.entries[i].v);
      FixedExtends(init, tr, op, LogVer(i), s.ver);
    }
    forall i: nat | k <= i < LOG_CAPACITY
      ensures Older(init, tr', i, s.ver)
    {
      OlderExtends(init, tr, op, i, s.ver);
    }
  }

  lemma CommittingExtends(init: Image, tr: seq<Op>, op: Op, s: Section, post: Image)
    requires Committing(init, tr, s, post)
    requires op.Store? ==> op == Store(Version, s.ver + 1)
    ensures Committing(init, tr + [op], s, post)
  {
    LogExtends(init, tr, op, s);
    EitherExtends(init, tr, op, s.ver);
    forall a: nat
      ensures Fixed(init, tr + [op], Data(a), post(Data(a)))
    {
      FixedExtends(init, tr, op, Data(a), post(Data(a)));
    }
    forall a: nat | !Logged(s.entries, a) && a !in s.loose
      ensures Fixed(init, tr + [op], Data(a), s.pre(Data(a)))
    {
      FixedExtends(init, tr, op, Data(a), s.pre(Data(a)));
    }
  }

  lemma SectionIsCommitting(init: Image, tr: seq<Op>, s: Section, post: Image)
    requires SectionInv(init, tr, s) && s.building.Nothing?
    requires forall a: nat :: Fixed(init, tr, Data(a), post(Data(a)))
    ensures Committing(init, tr, s, post)
  {
  }

  // While the version is being bumped, every word has its new value in NVM.
  lemma CommitData(init: Image, tr: seq<Op>, s: Section, post: Image, img: Image, a: nat)
    requires Committing(init, tr, s, post) && Survives(init, tr, img)
    ensures img(Data(a)) == post(Data(a))
    ensures Logged(s.entries, a) || a in s.loose || img(Data(a)) == s.pre(Data(a))
  {
    FixedSurvives(init, tr, img, Data(a), post(Data(a)));
    if !Logged(s.entries, a) && a !in s.loose {
      FixedSurvives(init, tr, img, Data(a), s.pre(Data(a)));
    }
  }

  lemma CommitVersion(init: Image, tr: seq<Op>, s: Section, img: Image)
    requires VersionEither(init, tr, s.ver) && Survives(init, tr, img)
    ensures img(Version) == s.ver || img(Version) == s.ver + 1
  {
    assert LineSurvives(init, tr, img, LineOf(Version));
  }

  lemma StillUndone(init: Image, tr: seq<Op>, s: Section, post: Image, img: Image)
    requires Committing(init, tr, s, post) && Survives(init, tr, img) && img(Version) == s.ver
    ensures Undone(img, s.ver, s.pre, s.loose)
  {
    var es := SurvivingLog(init, tr, s, img);
    ScanIs(img, 0, |es|);
    assert es[..0] == [];
    forall a: nat | a !in s.loose
      ensures Recovered(img, a) == s.pre(Data(a))
    {
      CommitData(init, tr, s, post, img, a);
      ReplayUndoes(img, s.pre, es, 0, a);
    }
  }

  // A crash while the version is being bumped: recovery undoes the whole section or keeps the whole section.
  lemma CrashInCommit(init: Image, tr: seq<Op>, s: Section, post: Image, img: Image)
    requires Committing(init, tr, s, post) && Survives(init, tr, img)
    ensures Undone(img, s.ver, s.pre, s.loose) || Committed(img, s.ver, post)
  {
    CommitVersion(init, tr, s, img);
    if img(Version) == s.ver {
      StillUndone(init, tr, s, post, img);
    } else {
      var es := SurvivingLog(init, tr, s, img);
      ScanIs(img, 0, 0);
      forall a: nat
        ensures Recovered(img, a) == post(Data(a))
      {
        CommitData(init, tr, s, post, img, a);
      }
    }
  }

  // Once the new version is durable the next section may start.
  lemma CommitIsReady(init: Image, tr: seq<Op>, s: Section, post: Image)
    requires Committing(init, tr, s, post) && Fixed(init, tr, Version, s.ver + 1)
    ensures Ready(init, tr, s.ver + 1)
  {
    var ver := s.ver + 1;
    forall i: nat | i < LOG_CAPACITY
      ensures Older(init, tr, i, ver)
    {
      if i < |s.entries| {
        assert EntryDurable(init, tr, s.ver, i, s.entries[i]);
        assert Fixed(init, tr, LogVer(i), s.ver);
      } else {
        assert Older(init, tr, i, s.ver);
      }
    }
    forall a: nat
      ensures Fixed(init, tr, Data(a), Value(init, tr, Data(a)))
    {
      FixedNow(init, tr, Data(a), post(Data(a)));
    }
  }

  ghost function Snapshot(init: Image, tr: seq<Op>): Image {
    c => Value(init, tr, c)
  }

  lemma SectionStarts(init: Image, tr: seq<Op>, ver: int)
    requires Ready(init, tr, ver)
    ensures SectionInv(init, tr, Section(ver, Snapshot(init, tr), [], Nothing, {}))
  {
    forall a: nat
      ensures Fixed(init, tr, Data(a), Snapshot(init, tr)(Data(a)))
    {
      assert Fixed(init, tr, Data(a), Value(init, tr, Data(a)));
    }
  }

  //
  // Recovery.
  //

  // Word a occurs in one of the first n log entries of img.
  ghost predicate InLog(img: Image, n: nat, a: nat) {
    exists i: nat :: i < n && img(LogAddr(i)) == a
  }

  ghost predicate LogUntouched(img: Image, tr: seq<Op>) {
    forall i: nat :: i < LOG_CAPACITY ==>
      && Fixed(img, tr, LogAddr(i), img(LogAddr(i)))
      && Fixed(img, tr, LogVal(i), img(LogVal(i)))
      && Fixed(img, tr, LogVer(i), img(LogVer(i)))
  }

  // Recovery has started from img and may have stored to logged words only.
  ghost predicate Replaying(img: Image, tr: seq<Op>) {
    && LogUntouched(img, tr)
    && Fixed(img, tr, Version, img(Version))
    && forall a: nat :: InLog(img, Scan(img, 0), a) || Fixed(img, tr, Data(a), img(Data(a)))
  }

  // All replayed words are durable; the version is being bumped.
  ghost predicate Closing(img: Image, tr: seq<Op>) {
    && LogUntouched(img, tr)
    && VersionEither(img, tr, img(Version))
    && forall a: nat :: Fixed(img, tr, Data(a), Recovered(img, a))
  }

  ghost predicate Attempt(img: Image, tr: seq<Op>) {
    Sane(img) && (Replaying(img, tr) || Closing(img, tr))
  }

  ghost predicate SameMeaning(img: Image, img': Image) {
    && Sane(img')
    && forall a: nat :: Recovered(img', a) == Recovered(img, a)
  }

  lemma {:induction false} ReplaySame(img: Image, img': Image, i: nat, n: nat, a: nat)
    requires forall j: nat :: j < n ==> img'(LogAddr(j)) == img(LogAddr(j)) && img'(LogVal(j)) == img(LogVal(j))
    requires (exists j: nat :: i <= j < n && img(LogAddr(j)) == a) || img'(Data(a)) == img(Data(a))
    ensures Replayed(img', i, n, a) == Replayed(img, i, n, a)
    decreases n - i
  {
    if i < n && img(LogAddr(i)) != a {
      ReplaySame(img, img', i + 1, n, a);
    }
  }

  lemma {:induction false} ReplayUnlogged(img: Image, i: nat, n: nat, a: nat)
    requires forall j: nat :: i <= j < n ==> img(LogAddr(j)) != a
    ensures Replayed(img, i, n, a) == img(Data(a))
    decreases n - i
  {
    if i < n {
      ReplayUnlogged(img, i + 1, n, a);
    }
  }

  lemma SurvivingSameLog(img: Image, tr: seq<Op>, img': Image)
    requires LogUntouched(img, tr) && Survives(img, tr, img')
    ensures forall i: nat :: i < LOG_CAPACITY ==>
              && img'(LogAddr(i)) == img(LogAddr(i))
              && img'(LogVal(i)) == img(LogVal(i))
              && img'(LogVer(i)) == img(LogVer(i))
  {
    forall i: nat | i < LOG_CAPACITY
      ensures img'(LogAddr(i)) == img(LogAddr(i)) && img'(LogVal(i)) == img(LogVal(i))
      ensures img'(LogVer(i)) == img(LogVer(i))
    {
      FixedSurvives(img, tr, img', LogAddr(i), img(LogAddr(i)));
      FixedSurvives(img, tr, img', LogVal(i), img(LogVal(i)));
      FixedSurvives(img, tr, img', LogVer(i), img(LogVer(i)));
    }
  }

  // A crash at any moment of recovery leaves an image from which recovery produces the same words.
  lemma CrashInRecovery(img: Image, tr: seq<Op>, img': Image)
    requires Attempt(img, tr) && Survives(img, tr, img')
    ensures SameMeaning(img, img')
  {
    var n := Scan(img, 0);
    SurvivingSameLog(img, tr, img');
    assert img'(Version) == img(Version) || (Closing(img, tr) && img'(Version) == img(Version) + 1) by {
      if Replaying(img, tr) {
        FixedSurvives(img, tr, img', Version, img(Version));
      } else {
        assert LineSurvives(img, tr, img', LineOf(Version));
      }
    }
    forall a: nat
      ensures Replaying(img, tr) ==> InLog(img, n, a) || img'(Data(a)) == img(Data(a))
      ensures Closing(img, tr) ==> img'(Data(a)) == Recovered(img, a)
    {
      if Replaying(img, tr) && !InLog(img, n, a) {
        FixedSurvives(img, tr, img', Data(a), img(Data(a)));
      }
      if Closing(img, tr) {
        FixedSurvives(img, tr, img', Data(a), Recovered(img, a));
      }
    }
    if img'(Version) == img(Version) {
      ScanIs(img', 0, n);
      forall a: nat
        ensures Recovered(img', a) == Recovered(img, a)
      {
        if !InLog(img, n, a) {
          ReplayUnlogged(img, 0, n, a);
        }
        ReplaySame(img, img', 0, n, a);
      }
    } else {
      ScanIs(img', 0, 0);
    }
  }

  lemma LogUntouchedExtends(img: Image, tr: seq<Op>, op: Op)
    requires LogUntouched(img, tr)
    requires op.Store? ==> op.c.Data? || op.c == Version
    ensures LogUntouched(img, tr + [op])
  {
    forall i: nat | i < LOG_CAPACITY
      ensures Fixed(img, tr + [op], LogAddr(i), img(LogAddr(i)))
      ensures Fixed(img, tr + [op], LogVal(i), img(LogVal(i)))
      ensures Fixed(img, tr + [op], LogVer(i), img(LogVer(i)))
    {
      FixedExtends(img, tr, op, LogAddr(i), img(LogAddr(i)));
      FixedExtends(img, tr, op, LogVal(i), img(LogVal(i)));
      FixedExtends(img, tr, op, LogVer(i), img(LogVer(i)));
    }
  }

  lemma ReplayingExtends(img: Image, tr: seq<Op>, op: Op)
    requires Replaying(img, tr)
    requires op.Store? ==> op.c.Data? && InLog(img, Scan(img, 0), op.c.a)
    ensures Replaying(img, tr + [op])
  {
    LogUntouchedExtends(img, tr, op);
    FixedExtends(img, tr, op, Version, img(Version));
    forall a: nat | !InLog(img, Scan(img, 0), a)
      ensures Fixed(img, tr + [op], Data(a), img(Data(a)))
    {
      FixedExtends(img, tr, op, Data(a), img(Data(a)));
    }
  }

  lemma ClosingExtends(img: Image, tr: seq<Op>, op: Op)
    requires Closing(img, tr)
    requires op.Store? ==> op == Store(Version, img(Version) + 1)
    ensures Closing(img, tr + [op])
  {
    LogUntouchedExtends(img, tr, op);
    EitherExtends(img, tr, op, img(Version));
    forall a: nat
      ensures Fixed(img, tr + [op], Data(a), Recovered(img, a))
    {
      FixedExtends(img, tr, op, Data(a), Recovered(img, a));
    }
  }

  lemma ReplayStarts(img: Image)
    ensures Replaying(img, [])
  {
    var tr: seq<Op> := [];
    assert forall t: nat :: t <= 0 ==> tr[..t] == [];
  }

  lemma ClosedIsReady(img: Image, tr: seq<Op>)
    requires Sane(img) && Closing(img, tr) && Fixed(img, tr, Version, img(Version) + 1)
    ensures Ready(img, tr, img(Version) + 1)
  {
    var ver := img(Version) + 1;
    forall i: nat | i < LOG_CAPACITY
      ensures Older(img, tr, i, ver)
    {
      assert Fixed(img, tr, LogVer(i), img(LogVer(i)));
    }
    forall a: nat
      ensures Fixed(img, tr, Data(a), Value(img, tr, Data(a)))
    {
      FixedNow(img, tr, Data(a), Recovered(img, a));
    }
  }

  // Every moment of a recovery run so far.
  ghost predicate AttemptSince(img: Image, tr: seq<Op>) {
    forall n: nat :: n <= |tr| ==> Attempt(img, tr[..n])
  }

  lemma AttemptExtends(img: Image, tr: seq<Op>, op: Op)
    requires AttemptSince(img, tr) && Attempt(img, tr + [op])
    ensures AttemptSince(img, tr + [op])
  {
    forall n: nat | n <= |tr| + 1
      ensures Attempt(img, (tr + [op])[..n])
    {
      if n <= |tr| {
        assert (tr + [op])[..n] == tr[..n];
      } else {
        assert (tr + [op])[..n] == tr + [op];
      }
    }
  }

  // Recovery interrupted and rerun any number of times: the words it produces never change.
  lemma {:induction false} RecoveryRerun(imgs: seq<Image>, trs: seq<seq<Op>>)
    requires |imgs| == |trs| + 1
    requires Sane(imgs[0])
    requires forall k :: 0 <= k < |trs| ==> Attempt(imgs[k], trs[k]) && Survives(imgs[k], trs[k], imgs[k + 1])
    ensures SameMeaning(imgs[0], imgs[|trs|])
  {
    if trs != [] {
      var k := |trs| - 1;
      RecoveryRerun(imgs[..k + 1], trs[..k]);
      CrashInRecovery(imgs[k], trs[k], imgs[k + 1]);
    }
  }
}
