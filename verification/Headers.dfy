// Block headers in persistent memory.
//
// A header is in use if its size is not zero.  Recovery finds the blocks by scanning the headers
// below the header free pointer.
module Headers {
  import opened BlockMap
  import NvmModel
  import UndoLog
  import P = Persistence

  const FREE_BLK := 4

  datatype Hdr = Hdr(sz: int, flags: int, block: int, kind: int)

  // hd: the header space.  freePtr: how many headers have been carved out of it.  large:
  // MAK_large_free_bytes.
  datatype Table = Table(hd: seq<Hdr>, freePtr: int, large: int)

  datatype Field = Sz(i: nat) | Flags(i: nat) | Start(i: nat) | Kind(i: nat) | FreePtr | Large

  predicate In(t: Table, f: Field) {
    f.FreePtr? || f.Large? || f.i < |t.hd|
  }

  function Get(t: Table, f: Field): int
    requires In(t, f)
  {
    match f
    case Sz(i) => t.hd[i].sz
    case Flags(i) => t.hd[i].flags
    case Start(i) => t.hd[i].block
    case Kind(i) => t.hd[i].kind
    case FreePtr => t.freePtr
    case Large => t.large
  }

  function Put(t: Table, f: Field, v: int): Table
    requires In(t, f)
  {
    match f
    case Sz(i) => t.(hd := t.hd[i := t.hd[i].(sz := v)])
    case Flags(i) => t.(hd := t.hd[i := t.hd[i].(flags := v)])
    case Start(i) => t.(hd := t.hd[i := t.hd[i].(block := v)])
    case Kind(i) => t.(hd := t.hd[i := t.hd[i].(kind := v)])
    case FreePtr => t.(freePtr := v)
    case Large => t.(large := v)
  }

  lemma PutGet(t: Table, f: Field, v: int)
    requires In(t, f)
    ensures forall g :: In(t, g) ==> In(Put(t, f, v), g) && Get(Put(t, f, v), g) == if g == f then v else Get(t, g)
    ensures |Put(t, f, v).hd| == |t.hd|
  {
  }

  // Where a field lives, in words.  A header starts a cache line.
  function Addr(f: Field): nat {
    match f
    case Sz(i) => 16 + 8 * i
    case Start(i) => 18 + 8 * i
    case Flags(i) => 20 + 8 * i
    case Kind(i) => 21 + 8 * i
    case FreePtr => 0
    case Large => 1
  }

  lemma AddrInjective(f: Field, g: Field)
    requires Addr(f) == Addr(g)
    ensures f == g
  {
  }

  //
  // What the headers say about the blocks.
  //

  predicate IsFreeFlag(flags: int) {
    flags / FREE_BLK % 2 == 1
  }

  function SetFree(flags: int): (r: int)
    ensures IsFreeFlag(r)
  {
    if IsFreeFlag(flags) then flags else flags + FREE_BLK
  }

  predicate Live(t: Table, i: nat) {
    i < |t.hd| && i < t.freePtr && t.hd[i].sz != 0
  }

  predicate Good(h: Hdr) {
    h.sz > 0 && h.block >= 0 && (IsFreeFlag(h.flags) ==> h.sz % HB == 0)
  }

  function BlockOf(h: Hdr): Block
    requires Good(h)
  {
    if IsFreeFlag(h.flags) then Free(h.sz / HB) else Used(PagesFor(h.sz), h.sz, h.kind)
  }

  ghost predicate Heads(t: Table, i: nat, p: nat) {
    Live(t, i) && t.hd[i].block == p
  }

  // Header i of the table is in use for a block of bs.
  ghost predicate Matches(t: Table, bs: Blocks, i: nat)
    requires Live(t, i)
  {
    var h := t.hd[i];
    Good(h) && h.block in bs && bs[h.block] == BlockOf(h)
  }

  ghost predicate HasHeader(t: Table, p: nat) {
    exists i: nat :: Heads(t, i, p)
  }

  // The headers in use are those of the blocks, one for each.
  ghost predicate Describes(t: Table, bs: Blocks) {
    && 0 <= t.freePtr <= |t.hd|
    && (forall i: nat :: Live(t, i) ==> Matches(t, bs, i))
    && (forall p :: p in bs ==> HasHeader(t, p))
    && (forall i: nat, j: nat :: Live(t, i) && Live(t, j) && t.hd[i].block == t.hd[j].block ==> i == j)
  }

  // The headers tell the blocks, and the total of MAK_large_free_bytes is right.
  ghost predicate Tells(t: Table, bs: Blocks) {
    Describes(t, bs) && t.large == FreeBytes(bs)
  }

  //
  // What a crash may do to fields that were stored to without logging.
  //

  // The field means nothing in table t: the header is not in use, or the field is the kind of a free block.
  predicate Harmless(t: Table, f: Field)
    requires In(t, f)
  {
    match f
    case Sz(i) => i >= t.freePtr
    case Flags(i) => !Live(t, i)
    case Start(i) => !Live(t, i)
    case Kind(i) => !Live(t, i) || IsFreeFlag(t.hd[i].flags)
    case FreePtr => false
    case Large => false
  }

  // The table that recovery from img produces, with n headers.
  ghost function Restored(img: NvmModel.Image, n: nat): Table {
    Table(seq(n, (i: nat) => Hdr(UndoLog.Recovered(img, Addr(Sz(i))), UndoLog.Recovered(img, Addr(Flags(i))),
                                 UndoLog.Recovered(img, Addr(Start(i))), UndoLog.Recovered(img, Addr(Kind(i))))),
          UndoLog.Recovered(img, Addr(FreePtr)), UndoLog.Recovered(img, Addr(Large)))
  }

  // Recovery from img gives back t, except for fields that mean nothing.
  ghost predicate Restores(img: NvmModel.Image, t: Table) {
    UndoLog.Sane(img) && forall f :: In(t, f) && !Harmless(t, f) ==> UndoLog.Recovered(img, Addr(f)) == Get(t, f)
  }

  lemma RestoredLive(img: NvmModel.Image, t: Table, i: nat)
    requires Restores(img, t) && i < |t.hd|
    ensures var r := Restored(img, |t.hd|);
            && r.freePtr == t.freePtr && r.large == t.large && (Live(r, i) <==> Live(t, i))
            && (Live(t, i) ==>
                  && r.hd[i].sz == t.hd[i].sz && r.hd[i].flags == t.hd[i].flags && r.hd[i].block == t.hd[i].block
                  && (!IsFreeFlag(t.hd[i].flags) ==> r.hd[i].kind == t.hd[i].kind))
  {
    assert !Harmless(t, FreePtr) && !Harmless(t, Large);
    assert i < t.freePtr ==> !Harmless(t, Sz(i));
    if Live(t, i) {
      assert !Harmless(t, Flags(i)) && !Harmless(t, Start(i));
      assert !IsFreeFlag(t.hd[i].flags) ==> !Harmless(t, Kind(i));
    }
  }

  // So the recovered headers describe the same blocks.
  lemma RestoredDescribes(img: NvmModel.Image, t: Table, bs: Blocks)
    requires Restores(img, t) && Describes(t, bs)
    ensures Describes(Restored(img, |t.hd|), bs) && Restored(img, |t.hd|).large == t.large
  {
    var r := Restored(img, |t.hd|);
    assert r.freePtr == t.freePtr && r.large == t.large by {
      assert !Harmless(t, FreePtr) && !Harmless(t, Large);
    }
    forall i: nat | i < |t.hd|
      ensures Live(r, i) <==> Live(t, i)
      ensures Live(t, i) ==> r.hd[i].block == t.hd[i].block && Matches(r, bs, i)
    {
      RestoredLive(img, t, i);
      if Live(t, i) {
        assert Matches(t, bs, i);
      }
    }
    forall p | p in bs
      ensures HasHeader(r, p)
    {
      var i: nat :| Heads(t, i, p);
      assert Heads(r, i, p);
    }
  }

  // Whatever crash happens since the start of a section, the recovered headers tell bs or bs'.
  ghost predicate CrashShows(init: NvmModel.Image, tr: seq<NvmModel.Op>, start: nat, n: nat, bs: Blocks, bs': Blocks) {
    forall m: nat, img: NvmModel.Image :: start <= m <= |tr| && NvmModel.Survives(init, tr[..m], img) ==>
      && UndoLog.Sane(img)
      && (Tells(Restored(img, n), bs) || Tells(Restored(img, n), bs'))
  }

  // Whatever crash happens since the start of a section, recovery gives back t or t'.
  ghost predicate CrashRestores(init: NvmModel.Image, tr: seq<NvmModel.Op>, start: nat, t: Table, t': Table) {
    forall m: nat, img: NvmModel.Image :: start <= m <= |tr| && NvmModel.Survives(init, tr[..m], img) ==>
      Restores(img, t) || Restores(img, t')
  }

  lemma CrashDescribes(init: NvmModel.Image, tr: seq<NvmModel.Op>, start: nat, t: Table, t': Table, bs: Blocks,
      bs': Blocks)
    requires CrashRestores(init, tr, start, t, t') && |t.hd| == |t'.hd| && Tells(t, bs) && Tells(t', bs')
    ensures CrashShows(init, tr, start, |t.hd|, bs, bs')
  {
    forall m: nat, img: NvmModel.Image | start <= m <= |tr| && NvmModel.Survives(init, tr[..m], img)
      ensures UndoLog.Sane(img) && (Tells(Restored(img, |t.hd|), bs) || Tells(Restored(img, |t.hd|), bs'))
    {
      if Restores(img, t) {
        RestoredDescribes(img, t, bs);
      } else {
        RestoredDescribes(img, t', bs');
      }
    }
  }

  ghost predicate Shows(mem: NvmModel.Image, t: Table) {
    forall f :: In(t, f) ==> mem(NvmModel.Data(Addr(f))) == Get(t, f)
  }

  ghost predicate HarmlessWord(t: Table, a: nat) {
    exists f :: In(t, f) && Addr(f) == a && Harmless(t, f)
  }

  class HeaderStore {
    const nvm: P.Nvm
    ghost var tab: Table         // the headers now
    ghost var pre: Table         // the headers when the section started
    ghost var logged: set<Field> // fields logged since

    constructor (nvm: P.Nvm, ghost t: Table)
      requires nvm.Idle(nvm.mem(NvmModel.Version)) && Shows(nvm.mem, t)
      ensures Between() && this.nvm == nvm && tab == t
    {
      this.nvm, tab, pre, logged := nvm, t, t, {};
    }

    ghost predicate Between()
      reads this, nvm, nvm.table
      ensures Between() ==> Shows(nvm.mem, tab)
    {
      nvm.Idle(nvm.mem(NvmModel.Version)) && Shows(nvm.mem, tab)
    }

    ghost predicate Inside()
      reads this, nvm, nvm.table
      ensures Inside() ==> Shows(nvm.mem, tab) && |tab.hd| == |pre.hd|
    {
      && nvm.InSection()
      && Shows(nvm.mem, tab) && Shows(nvm.sec.pre, pre) && |tab.hd| == |pre.hd|
      && (forall f :: f in logged ==> In(pre, f) && UndoLog.Logged(nvm.sec.entries, Addr(f)))
      && (forall a :: a in nvm.sec.loose ==> HarmlessWord(pre, a))
    }

    function Read(f: Field): (v: int)
      requires In(tab, f) && Shows(nvm.mem, tab)
      reads this, nvm
      ensures v == Get(tab, f)
    {
      nvm.mem(NvmModel.Data(Addr(f)))
    }

    ghost function Entries(): nat
      reads this, nvm
    {
      |nvm.sec.entries|
    }

    // MAK_START_NVM_ATOMIC.
    method Begin()
      requires Between()
      modifies this, nvm
      ensures Inside() && pre == tab == old(tab) && logged == {} && Entries() == 0
      ensures nvm.start == |nvm.trace| && nvm.trace == old(nvm.trace) && nvm.init == old(nvm.init)
    {
      nvm.StartAtomic();
      pre, logged := tab, {};
    }

    // MAK_NO_LOG_STORE_NVM on a field that is logged, means nothing to recovery or keeps its value.
    method NoLog(f: Field, v: int)
      requires Inside() && In(tab, f) && (f in logged || Harmless(pre, f) || v == Get(pre, f))
      modifies this, nvm, nvm.table
      ensures Inside() && tab == Put(old(tab), f, v) && pre == old(pre) && logged == old(logged)
      ensures Entries() == old(Entries()) && nvm.start == old(nvm.start) && nvm.init == old(nvm.init)
    {
      nvm.NoLogStore(Addr(f), v);
      Stored(f, v);
    }

    // A plain store followed by MAK_NO_LOG_STORE_NVM.
    method NoLogTwice(f: Field, v0: int, v: int)
      requires Inside() && In(tab, f) && (f in logged || Harmless(pre, f))
      modifies this, nvm, nvm.table
      ensures Inside() && tab == Put(old(tab), f, v) && pre == old(pre) && logged == old(logged)
      ensures Entries() == old(Entries()) && nvm.start == old(nvm.start) && nvm.init == old(nvm.init)
    {
      nvm.StoreTwice(Addr(f), v0, v);
      Stored(f, v);
    }

    ghost method Stored(f: Field, v: int)
      requires nvm.InSection() && In(tab, f) && |tab.hd| == |pre.hd| && Shows(nvm.sec.pre, pre)
      requires forall g :: In(tab, g) && g != f ==> nvm.mem(NvmModel.Data(Addr(g))) == Get(tab, g)
      requires nvm.mem(NvmModel.Data(Addr(f))) == v
      requires forall g :: g in logged ==> In(pre, g) && UndoLog.Logged(nvm.sec.entries, Addr(g))
      requires forall a :: a in nvm.sec.loose ==> HarmlessWord(pre, a)
      modifies `tab
      ensures Inside() && tab == Put(old(tab), f, v)
    {
      PutGet(tab, f, v);
      tab := Put(tab, f, v);
    }

    // MAK_LOG_NVM_WORD and its siblings.
    method Log(f: Field, v: int)
      requires Inside() && In(tab, f) && !Harmless(pre, f) && v == Get(tab, f) && Entries() + 1 < NvmModel.LOG_CAPACITY
      modifies this, nvm, nvm.table
      ensures Inside() && tab == old(tab) && pre == old(pre) && logged == old(logged) + {f}
      ensures Entries() == old(Entries()) + 1 && nvm.start == old(nvm.start) && nvm.init == old(nvm.init)
    {
      NotLoose(f);
      ghost var es := nvm.sec.entries;
      nvm.LogNvm(Addr(f), v);
      MoreLogged(es, UndoLog.Entry(Addr(f), v));
      logged := logged + {f};
    }

    // MAK_STORE_NVM_WORD and its siblings.
    method Store(f: Field, v: int)
      requires Inside() && In(tab, f) && !Harmless(pre, f) && Entries() + 1 < NvmModel.LOG_CAPACITY
      modifies this, nvm, nvm.table
      ensures Inside() && tab == Put(old(tab), f, v) && pre == old(pre) && logged == old(logged) + {f}
      ensures Entries() == old(Entries()) + 1 && nvm.start == old(nvm.start) && nvm.init == old(nvm.init)
    {
      Log(f, Read(f));
      NoLog(f, v);
    }

    lemma NotLoose(f: Field)
      requires Inside() && In(pre, f) && !Harmless(pre, f)
      ensures Addr(f) !in nvm.sec.loose
    {
      forall g | In(pre, g) && Addr(g) == Addr(f)
        ensures !Harmless(pre, g)
      {
        AddrInjective(f, g);
      }
    }

    // MAK_END_NVM_ATOMIC.
    method Finish()
      requires Inside()
      modifies nvm, nvm.table
      ensures Between()
      ensures nvm.start == old(nvm.start) <= |nvm.trace| && nvm.init == old(nvm.init)
      ensures CrashRestores(nvm.init, nvm.trace, nvm.start, pre, tab)
    {
      ghost var loose := nvm.sec.loose;
      nvm.EndAtomic();
      forall m: nat, img: NvmModel.Image | nvm.start <= m <= |nvm.trace|
          && NvmModel.Survives(nvm.init, nvm.trace[..m], img)
        ensures Restores(img, pre) || Restores(img, tab)
      {
        assert P.AtomicAt(nvm.init, nvm.trace[..m], nvm.sec, nvm.mem);
        if UndoLog.Undone(img, nvm.sec.ver, nvm.sec.pre, nvm.sec.loose) {
          UndoneRestores(img, nvm.sec, pre);
        }
      }
    }
  }

  lemma MoreLogged(es: seq<UndoLog.Entry>, e: UndoLog.Entry)
    ensures forall a: nat :: UndoLog.Logged(es, a) ==> UndoLog.Logged(es + [e], a)
    ensures UndoLog.Logged(es + [e], e.a)
  {
    assert (es + [e])[|es|] == e;
    forall a: nat | UndoLog.Logged(es, a)
      ensures UndoLog.Logged(es + [e], a)
    {
      var i :| 0 <= i < |es| && es[i].a == a;
      assert (es + [e])[i].a == a;
    }
  }

  lemma UndoneRestores(img: NvmModel.Image, s: UndoLog.Section, t: Table)
    requires UndoLog.Undone(img, s.ver, s.pre, s.loose) && Shows(s.pre, t)
    requires forall a :: a in s.loose ==> HarmlessWord(t, a)
    ensures Restores(img, t)
  {
    forall f | In(t, f) && !Harmless(t, f)
      ensures UndoLog.Recovered(img, Addr(f)) == Get(t, f)
    {
      forall g | In(t, g) && Addr(g) == Addr(f)
        ensures !Harmless(t, g)
      {
        AddrInjective(f, g);
      }
    }
  }
}
