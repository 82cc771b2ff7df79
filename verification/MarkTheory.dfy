// The object graph Makalu's marker works on, and the theory of its invariant:
// every word of a marked object leads to a marked object or still lies in a range on the mark stack.
module MarkTheory {

  // A memory word as the marker sees it.
  datatype Word = Zero | Scalar | Ptr(obj: nat)

  // The words an object's descriptor covers; none for a pointer-free object.
  datatype Object = Object(first: nat, len: nat, home: nat)

  // A heap block: its objects, grouped by the mark word that holds their bits.  Blocks of small
  // objects are scanned word by word (accel), others by pushing whole objects.
  // Blocks of pointer-free objects are skipped.
  datatype Block = Block(groups: seq<seq<nat>>, accel: bool, pointerFree: bool)

  datatype Heap = Heap(words: seq<Word>, objs: seq<Object>, blocks: seq<Block>, rootLo: nat, rootHi: nat)

  // A range of words still to be scanned.
  datatype Entry = Entry(start: nat, len: nat)

  const MAX_OBJECTS_PER_BLOCK := 256

  // Entries that an overflowing stack discards.
  const DISCARDS := 512
  // Ranges of at least this many words are scanned in parts.
  const SPLIT_WORDS := 128
  // Ranges of more words are shared out by parallel markers.
  const SHARE_WORDS := 256
  // Words that are scanned before the marker looks around.
  const CREDIT_WORDS := 512
  // Words of the persistent roots.
  const ROOT_WORDS := 512

  // How much of a range is scanned at a time.
  function Chunk(len: nat): nat {
    if len < SPLIT_WORDS then len else SPLIT_WORDS - 1
  }

  ghost function Total(groups: seq<seq<nat>>): nat {
    if groups == [] then 0 else Total(groups[..|groups| - 1]) + |groups[|groups| - 1]|
  }

  ghost predicate InBlock(b: Block, o: nat) {
    exists g :: 0 <= g < |b.groups| && o in b.groups[g]
  }

  ghost predicate WellFormed(h: Heap) {
    && (forall w :: 0 <= w < |h.words| && h.words[w].Ptr? ==> h.words[w].obj < |h.objs|)
    && (forall o :: 0 <= o < |h.objs| ==> h.objs[o].first + h.objs[o].len <= |h.words|)
    && (forall o :: 0 <= o < |h.objs| ==> h.objs[o].home < |h.blocks| && InBlock(h.blocks[h.objs[o].home], o))
    && (forall b, g, i :: 0 <= b < |h.blocks| && 0 <= g < |h.blocks[b].groups| && 0 <= i < |h.blocks[b].groups[g]| ==>
          var o := h.blocks[b].groups[g][i];
          o < |h.objs| && h.objs[o].home == b && (h.blocks[b].pointerFree ==> h.objs[o].len == 0))
    && (forall b :: 0 <= b < |h.blocks| ==> Total(h.blocks[b].groups) <= MAX_OBJECTS_PER_BLOCK)
    && h.rootLo <= h.rootHi <= |h.words|
  }

  predicate OfObject(h: Heap, o: nat, w: nat)
    requires o < |h.objs|
  {
    h.objs[o].first <= w < h.objs[o].first + h.objs[o].len
  }

  predicate RootWord(h: Heap, w: nat) {
    h.rootLo <= w < h.rootHi
  }

  //
  // Reachability from the persistent roots.
  //

  ghost predicate PointsTo(h: Heap, w: nat, o: nat) {
    w < |h.words| && h.words[w] == Ptr(o)
  }

  ghost predicate RootTarget(h: Heap, o: nat) {
    exists w: nat :: RootWord(h, w) && PointsTo(h, w, o)
  }

  ghost predicate Edge(h: Heap, o: nat, o': nat) {
    o < |h.objs| && exists w: nat :: OfObject(h, o, w) && PointsTo(h, w, o')
  }

  ghost predicate Path(h: Heap, p: seq<nat>) {
    && |p| > 0
    && RootTarget(h, p[0])
    && forall i :: 0 <= i < |p| - 1 ==> Edge(h, p[i], p[i + 1])
  }

  ghost predicate Reachable(h: Heap, o: nat) {
    exists p :: Path(h, p) && p[|p| - 1] == o
  }

  lemma RootReachable(h: Heap, w: nat, o: nat)
    requires RootWord(h, w) && PointsTo(h, w, o)
    ensures Reachable(h, o)
  {
    assert Path(h, [o]);
  }

  lemma EdgeReachable(h: Heap, o: nat, w: nat, o': nat)
    requires o < |h.objs| && Reachable(h, o) && OfObject(h, o, w) && PointsTo(h, w, o')
    ensures Reachable(h, o')
  {
    var p :| Path(h, p) && p[|p| - 1] == o;
    var p' := p + [o'];
    forall i | 0 <= i < |p'| - 1
      ensures Edge(h, p'[i], p'[i + 1])
    {
      if i < |p| - 1 {
        assert Edge(h, p[i], p[i + 1]);
      }
    }
    assert Path(h, p');
  }

  //
  // The marker's invariant.
  //

  ghost predicate IsMarked(m: seq<bool>, o: nat) {
    o < |m| && m[o]
  }

  ghost predicate Stacked(s: seq<Entry>, w: nat) {
    exists i :: 0 <= i < |s| && s[i].start <= w < s[i].start + s[i].len
  }

  // Word w needs no attention: it is no pointer, its target is marked, it is on the stack,
  // or it lies in the range [lo, hi) that is being scanned.
  ghost predicate WordOk(h: Heap, m: seq<bool>, s: seq<Entry>, lo: nat, hi: nat, w: nat) {
    || w >= |h.words|
    || !h.words[w].Ptr?
    || IsMarked(m, h.words[w].obj)
    || Stacked(s, w)
    || lo <= w < hi
  }

  ghost predicate ObjectOk(h: Heap, m: seq<bool>, s: seq<Entry>, lo: nat, hi: nat, o: nat)
    requires o < |h.objs|
  {
    forall w: nat :: OfObject(h, o, w) ==> WordOk(h, m, s, lo, hi, w)
  }

  // Marked objects in the blocks below bound need no attention.
  ghost predicate BelowOk(h: Heap, m: seq<bool>, s: seq<Entry>, lo: nat, hi: nat, bound: nat) {
    forall o: nat :: o < |h.objs| && IsMarked(m, o) && h.objs[o].home < bound ==> ObjectOk(h, m, s, lo, hi, o)
  }

  ghost predicate RootsOk(h: Heap, m: seq<bool>, s: seq<Entry>, lo: nat, hi: nat) {
    forall w: nat :: RootWord(h, w) ==> WordOk(h, m, s, lo, hi, w)
  }

  // Word w belongs to the roots or to a marked object.
  ghost predicate LiveWord(h: Heap, m: seq<bool>, w: nat) {
    w < |h.words| && (RootWord(h, w) || exists o: nat :: o < |h.objs| && IsMarked(m, o) && OfObject(h, o, w))
  }

  // Only words of roots and marked objects are ever scanned.
  ghost predicate EntriesLive(h: Heap, m: seq<bool>, s: seq<Entry>) {
    forall i :: 0 <= i < |s| ==> RangeLive(h, m, s[i].start, s[i].start + s[i].len)
  }

  ghost predicate RangeLive(h: Heap, m: seq<bool>, lo: nat, hi: nat) {
    forall w: nat :: lo <= w < hi ==> LiveWord(h, m, w)
  }

  ghost predicate MarkedReachable(h: Heap, m: seq<bool>) {
    forall o: nat :: IsMarked(m, o) ==> Reachable(h, o)
  }

  lemma LiveTargetReachable(h: Heap, m: seq<bool>, w: nat, o: nat)
    requires MarkedReachable(h, m) && LiveWord(h, m, w) && PointsTo(h, w, o)
    ensures Reachable(h, o)
  {
    if RootWord(h, w) {
      RootReachable(h, w, o);
    } else {
      var o0: nat :| o0 < |h.objs| && IsMarked(m, o0) && OfObject(h, o0, w);
      EdgeReachable(h, o0, w, o);
    }
  }

  // With an empty stack the invariant says that the marked objects are closed, so they include everything reachable.
  lemma ClosedMarksReachable(h: Heap, m: seq<bool>)
    requires WellFormed(h)
    requires BelowOk(h, m, [], 0, 0, |h.blocks|) && RootsOk(h, m, [], 0, 0)
    ensures forall o: nat :: Reachable(h, o) ==> IsMarked(m, o)
  {
    forall o: nat | Reachable(h, o)
      ensures IsMarked(m, o)
    {
      var p :| Path(h, p) && p[|p| - 1] == o;
      PathMarked(h, m, p);
    }
  }

  lemma {:induction false} PathMarked(h: Heap, m: seq<bool>, p: seq<nat>)
    requires WellFormed(h) && Path(h, p)
    requires BelowOk(h, m, [], 0, 0, |h.blocks|) && RootsOk(h, m, [], 0, 0)
    ensures IsMarked(m, p[|p| - 1])
  {
    var o := p[|p| - 1];
    if |p| == 1 {
      var w: nat :| RootWord(h, w) && PointsTo(h, w, o);
      assert WordOk(h, m, [], 0, 0, w);
    } else {
      var q := p[..|p| - 1];
      assert Path(h, q) by {
        forall i | 0 <= i < |q| - 1
          ensures Edge(h, q[i], q[i + 1])
        {
          assert Edge(h, p[i], p[i + 1]);
        }
      }
      PathMarked(h, m, q);
      var o0 := p[|p| - 2];
      assert Edge(h, o0, p[|p| - 2 + 1]);
      var w: nat :| OfObject(h, o0, w) && PointsTo(h, w, o);
      assert ObjectOk(h, m, [], 0, 0, o0);
      assert WordOk(h, m, [], 0, 0, w);
    }
  }

  //
  // Monotonicity.
  //

  ghost predicate MoreMarked(m: seq<bool>, m': seq<bool>) {
    |m'| == |m| && forall o :: 0 <= o < |m| && m[o] ==> m'[o]
  }

  // From (m, s) to (m', s') no word loses its good standing, and every newly marked object is taken care of.
  ghost predicate Advances(h: Heap, m: seq<bool>, s: seq<Entry>, m': seq<bool>, s': seq<Entry>, lo: nat, hi: nat) {
    && MoreMarked(m, m')
    && (forall w: nat :: WordOk(h, m, s, lo, hi, w) ==> WordOk(h, m', s', lo, hi, w))
    && (forall o: nat :: o < |h.objs| && IsMarked(m', o) && !IsMarked(m, o) ==> ObjectOk(h, m', s', lo, hi, o))
  }

  lemma AdvancesObject(h: Heap, m: seq<bool>, s: seq<Entry>, m': seq<bool>, s': seq<Entry>, lo: nat, hi: nat, o: nat)
    requires Advances(h, m, s, m', s', lo, hi) && o < |h.objs|
    requires ObjectOk(h, m, s, lo, hi, o)
    ensures ObjectOk(h, m', s', lo, hi, o)
  {
  }

  lemma AdvancesKeeps(h: Heap, m: seq<bool>, s: seq<Entry>, m': seq<bool>, s': seq<Entry>, lo: nat, hi: nat, bound: nat)
    requires Advances(h, m, s, m', s', lo, hi)
    ensures BelowOk(h, m, s, lo, hi, bound) ==> BelowOk(h, m', s', lo, hi, bound)
    ensures RootsOk(h, m, s, lo, hi) ==> RootsOk(h, m', s', lo, hi)
  {
    if BelowOk(h, m, s, lo, hi, bound) {
      forall o: nat | o < |h.objs| && IsMarked(m', o) && h.objs[o].home < bound
        ensures ObjectOk(h, m', s', lo, hi, o)
      {
        if IsMarked(m, o) {
          AdvancesObject(h, m, s, m', s', lo, hi, o);
        }
      }
    }
  }

  lemma AdvancesTrans(h: Heap, m: seq<bool>, s: seq<Entry>, m1: seq<bool>, s1: seq<Entry>, m2: seq<bool>,
      s2: seq<Entry>,
                      lo: nat, hi: nat)
    requires Advances(h, m, s, m1, s1, lo, hi) && Advances(h, m1, s1, m2, s2, lo, hi)
    ensures Advances(h, m, s, m2, s2, lo, hi)
  {
    forall o: nat | o < |h.objs| && IsMarked(m2, o) && !IsMarked(m, o)
      ensures ObjectOk(h, m2, s2, lo, hi, o)
    {
      if IsMarked(m1, o) {
        AdvancesObject(h, m1, s1, m2, s2, lo, hi, o);
      }
    }
  }

  lemma StackedPrefix(s: seq<Entry>, e: Entry, w: nat)
    ensures Stacked(s + [e], w) <==> Stacked(s, w) || e.start <= w < e.start + e.len
  {
    if Stacked(s, w) {
      var i :| 0 <= i < |s| && s[i].start <= w < s[i].start + s[i].len;
      assert (s + [e])[i] == s[i];
    }
    if e.start <= w < e.start + e.len {
      assert (s + [e])[|s|] == e;
    }
  }

  // Marking an object and pushing its words, if it has any.
  lemma MarkAdvances(h: Heap, m: seq<bool>, s: seq<Entry>, lo: nat, hi: nat, o: nat)
    requires WellFormed(h) && |m| == |h.objs| && o < |m|
    ensures Advances(h, m, s, m[o := true], s + [Entry(h.objs[o].first, h.objs[o].len)], lo, hi)
    ensures h.objs[o].len == 0 ==> Advances(h, m, s, m[o := true], s, lo, hi)
  {
    var m', e := m[o := true], Entry(h.objs[o].first, h.objs[o].len);
    forall w: nat
      ensures WordOk(h, m, s, lo, hi, w) ==> WordOk(h, m', s + [e], lo, hi, w)
      ensures OfObject(h, o, w) ==> WordOk(h, m', s + [e], lo, hi, w)
    {
      StackedPrefix(s, e, w);
    }
  }

  // Pushing the words of an object that is marked already.
  lemma PushAdvances(h: Heap, m: seq<bool>, s: seq<Entry>, lo: nat, hi: nat, o: nat)
    requires o < |h.objs|
    ensures var e := Entry(h.objs[o].first, h.objs[o].len);
            Advances(h, m, s, m, s + [e], lo, hi) && ObjectOk(h, m, s + [e], lo, hi, o)
    ensures h.objs[o].len == 0 ==> ObjectOk(h, m, s, lo, hi, o)
  {
    var e := Entry(h.objs[o].first, h.objs[o].len);
    forall w: nat
      ensures WordOk(h, m, s, lo, hi, w) ==> WordOk(h, m, s + [e], lo, hi, w)
      ensures OfObject(h, o, w) ==> WordOk(h, m, s + [e], lo, hi, w)
    {
      StackedPrefix(s, e, w);
    }
  }

  // Pushing the words of a range.
  lemma RangeAdvances(h: Heap, m: seq<bool>, s: seq<Entry>, e: Entry)
    ensures Advances(h, m, s, m, s + [e], 0, 0)
    ensures forall w: nat :: WordOk(h, m, s, 0, 0, w) || e.start <= w < e.start + e.len ==>
              WordOk(h, m, s + [e], 0, 0, w)
  {
    forall w: nat
      ensures WordOk(h, m, s, 0, 0, w) || e.start <= w < e.start + e.len ==> WordOk(h, m, s + [e], 0, 0, w)
    {
      StackedPrefix(s, e, w);
    }
  }

  // The same marks with another way of remembering the words still to be scanned.
  lemma Reshape(h: Heap, m: seq<bool>, s: seq<Entry>, lo: nat, hi: nat, s': seq<Entry>, lo': nat, hi': nat, bound: nat)
    requires forall w: nat :: WordOk(h, m, s, lo, hi, w) ==> WordOk(h, m, s', lo', hi', w)
    ensures BelowOk(h, m, s, lo, hi, bound) ==> BelowOk(h, m, s', lo', hi', bound)
    ensures RootsOk(h, m, s, lo, hi) ==> RootsOk(h, m, s', lo', hi')
  {
    if BelowOk(h, m, s, lo, hi, bound) {
      forall o: nat | o < |h.objs| && IsMarked(m, o) && h.objs[o].home < bound
        ensures ObjectOk(h, m, s', lo', hi', o)
      {
        assert ObjectOk(h, m, s, lo, hi, o);
      }
    }
  }

  lemma LiveGrows(h: Heap, m: seq<bool>, m': seq<bool>, w: nat)
    requires MoreMarked(m, m') && LiveWord(h, m, w)
    ensures LiveWord(h, m', w)
  {
    if !RootWord(h, w) {
      var o: nat :| o < |h.objs| && IsMarked(m, o) && OfObject(h, o, w);
      assert IsMarked(m', o);
    }
  }

  lemma RangeLiveGrows(h: Heap, m: seq<bool>, m': seq<bool>, lo: nat, hi: nat)
    requires RangeLive(h, m, lo, hi) && MoreMarked(m, m')
    ensures RangeLive(h, m', lo, hi)
  {
    forall w: nat | lo <= w < hi
      ensures LiveWord(h, m', w)
    {
      LiveGrows(h, m, m', w);
    }
  }

  lemma EntriesLiveGrow(h: Heap, m: seq<bool>, s: seq<Entry>, m': seq<bool>)
    requires EntriesLive(h, m, s) && MoreMarked(m, m')
    ensures EntriesLive(h, m', s)
  {
    forall i | 0 <= i < |s|
      ensures RangeLive(h, m', s[i].start, s[i].start + s[i].len)
    {
      RangeLiveGrows(h, m, m', s[i].start, s[i].start + s[i].len);
    }
  }

  lemma ObjectLive(h: Heap, m: seq<bool>, o: nat)
    requires WellFormed(h) && o < |h.objs| && IsMarked(m, o)
    ensures RangeLive(h, m, h.objs[o].first, h.objs[o].first + h.objs[o].len)
  {
    forall w: nat | h.objs[o].first <= w < h.objs[o].first + h.objs[o].len
      ensures LiveWord(h, m, w)
    {
      assert OfObject(h, o, w);
    }
  }

  lemma PushLive(h: Heap, m: seq<bool>, s: seq<Entry>, k: nat, e: Entry)
    requires k <= |s| && EntriesLive(h, m, s) && RangeLive(h, m, e.start, e.start + e.len)
    ensures EntriesLive(h, m, s[..k] + [e])
  {
  }

  // Object o is met before position (g, i) of a walk over the groups of a block.
  ghost predicate Seen(groups: seq<seq<nat>>, g: nat, i: nat, o: nat) {
    || (exists g' :: 0 <= g' < g && g' < |groups| && o in groups[g'])
    || (g < |groups| && exists i' :: 0 <= i' < i && i' < |groups[g]| && groups[g][i'] == o)
  }

  // The marked objects of block b that were met, or that were not marked under m0, are taken care of.
  ghost predicate SeenOk(h: Heap, m0: seq<bool>, m: seq<bool>, s: seq<Entry>, b: nat, g: nat, i: nat)
    requires b < |h.blocks|
  {
    forall o: nat | o < |h.objs| && IsMarked(m, o) && h.objs[o].home == b ::
      Seen(h.blocks[b].groups, g, i, o) || !IsMarked(m0, o) ==> ObjectOk(h, m, s, 0, 0, o)
  }

  lemma SeenOkAdvances(h: Heap, m0: seq<bool>, m: seq<bool>, s: seq<Entry>, m': seq<bool>, s': seq<Entry>, b: nat,
      g: nat, i: nat)
    requires WellFormed(h) && b < |h.blocks| && g < |h.blocks[b].groups| && i < |h.blocks[b].groups[g]|
    requires MoreMarked(m0, m) && SeenOk(h, m0, m, s, b, g, i) && Advances(h, m, s, m', s', 0, 0)
    requires var o := h.blocks[b].groups[g][i];
             IsMarked(m', o) && IsMarked(m0, o) ==> ObjectOk(h, m', s', 0, 0, o)
    ensures SeenOk(h, m0, m', s', b, g, i + 1)
  {
    forall o: nat | o < |h.objs| && IsMarked(m', o) && h.objs[o].home == b
                    && (Seen(h.blocks[b].groups, g, i + 1, o) || !IsMarked(m0, o))
      ensures ObjectOk(h, m', s', 0, 0, o)
    {
      if IsMarked(m, o) && (Seen(h.blocks[b].groups, g, i, o) || !IsMarked(m0, o)) {
        AdvancesObject(h, m, s, m', s', 0, 0, o);
      }
    }
  }

  lemma SeenNextGroup(groups: seq<seq<nat>>, g: nat, o: nat)
    requires g < |groups|
    ensures Seen(groups, g + 1, 0, o) ==> Seen(groups, g, |groups[g]|, o)
  {
  }

  lemma SeenAll(h: Heap, m0: seq<bool>, m: seq<bool>, s: seq<Entry>, b: nat)
    requires WellFormed(h) && b < |h.blocks|
    requires SeenOk(h, m0, m, s, b, |h.blocks[b].groups|, 0) && BelowOk(h, m, s, 0, 0, b)
    ensures BelowOk(h, m, s, 0, 0, b + 1)
  {
    forall o: nat | o < |h.objs| && IsMarked(m, o) && h.objs[o].home == b
      ensures ObjectOk(h, m, s, 0, 0, o)
    {
      assert InBlock(h.blocks[b], o);
      assert Seen(h.blocks[b].groups, |h.blocks[b].groups|, 0, o);
    }
  }

  ghost function Unmarked(m: seq<bool>): nat {
    if m == [] then 0 else Unmarked(m[..|m| - 1]) + (if m[|m| - 1] then 0 else 1)
  }

  lemma {:induction false} UnmarkedDrops(m: seq<bool>, o: nat)
    requires o < |m| && !m[o]
    ensures Unmarked(m[o := true]) == Unmarked(m) - 1
  {
    var k := |m| - 1;
    if o == k {
      assert m[o := true][..k] == m[..k];
    } else {
      assert m[o := true][..k] == m[..k][o := true];
      UnmarkedDrops(m[..k], o);
    }
  }

  // The words of a range, with an allowance for the overlaps when it is shared out.
  function Cost(len: nat): nat {
    len + if len > 129 then len - 129 else 0
  }

  // Scanning work left on a stack.
  ghost function Work(s: seq<Entry>): nat {
    if s == [] then 0 else Work(s[..|s| - 1]) + Cost(s[|s| - 1].len) + 1
  }

  lemma WorkPush(s: seq<Entry>, e: Entry)
    ensures Work(s + [e]) == Work(s) + Cost(e.len) + 1
  {
    assert (s + [e])[..|s|] == s;
  }

  // The words that the ranges span if they lie apart, each with the word behind it.
  ghost function Spread(s: seq<Entry>): nat {
    if s == [] then 0 else Spread(s[..|s| - 1]) + s[|s| - 1].len + 1
  }

  lemma SpreadPush(s: seq<Entry>, e: Entry)
    ensures Spread(s + [e]) == Spread(s) + e.len + 1
  {
    assert (s + [e])[..|s|] == s;
  }

  // Taking the first n words off the topmost range, or all of it.
  function Taken(rest: seq<Entry>, e: Entry, n: nat): seq<Entry>
    requires n <= e.len
  {
    if n < e.len then rest + [Entry(e.start + n, e.len - n)] else rest
  }

  lemma TakenOk(h: Heap, m: seq<bool>, rest: seq<Entry>, e: Entry, n: nat)
    requires n <= e.len && (n < e.len ==> n > 0)
    ensures forall w: nat :: WordOk(h, m, rest + [e], 0, 0, w) ==>
              WordOk(h, m, Taken(rest, e, n), e.start, e.start + n, w)
    ensures Work(Taken(rest, e, n)) < Work(rest + [e])
  {
    var left := Entry(e.start + n, e.len - n);
    WorkPush(rest, e);
    WorkPush(rest, left);
    forall w: nat
      ensures WordOk(h, m, rest + [e], 0, 0, w) ==> WordOk(h, m, Taken(rest, e, n), e.start, e.start + n, w)
    {
      StackedPrefix(rest, e, w);
      StackedPrefix(rest, left, w);
    }
  }

  lemma TakenLive(h: Heap, m: seq<bool>, rest: seq<Entry>, e: Entry, n: nat)
    requires n <= e.len && EntriesLive(h, m, rest + [e])
    ensures EntriesLive(h, m, Taken(rest, e, n)) && RangeLive(h, m, e.start, e.start + n)
  {
    var s, s' := rest + [e], Taken(rest, e, n);
    assert s[|rest|] == e && RangeLive(h, m, e.start, e.start + e.len);
    forall i | 0 <= i < |s'|
      ensures RangeLive(h, m, s'[i].start, s'[i].start + s'[i].len)
    {
      assert i < |rest| ==> s'[i] == s[i];
    }
  }

  // The topmost range is shared out as two overlapping ones.
  function Halved(s: seq<Entry>): seq<Entry>
    requires s != []
  {
    var e, k := s[|s| - 1], |s| - 1;
    s[..k] + [Entry(e.start, e.len / 2 + 1)] + [Entry(e.start + e.len / 2, e.len - e.len / 2)]
  }

  lemma HalvedStacked(s: seq<Entry>, w: nat)
    requires s != [] && Stacked(s, w)
    ensures Stacked(Halved(s), w)
  {
    var e, rest := s[|s| - 1], s[..|s| - 1];
    var a, b := Entry(e.start, e.len / 2 + 1), Entry(e.start + e.len / 2, e.len - e.len / 2);
    assert s == rest + [e];
    StackedPrefix(rest, e, w);
    StackedPrefix(rest, a, w);
    StackedPrefix(rest + [a], b, w);
  }

  lemma HalvedLive(h: Heap, m: seq<bool>, s: seq<Entry>)
    requires s != [] && s[|s| - 1].len > 1 && EntriesLive(h, m, s)
    ensures EntriesLive(h, m, Halved(s))
  {
    var e, s' := s[|s| - 1], Halved(s);
    assert RangeLive(h, m, e.start, e.start + e.len);
    forall i | 0 <= i < |s'|
      ensures RangeLive(h, m, s'[i].start, s'[i].start + s'[i].len)
    {
      assert i < |s| - 1 ==> s'[i] == s[i];
    }
  }

  lemma HalvedOk(h: Heap, m: seq<bool>, s: seq<Entry>)
    requires s != [] && s[|s| - 1].len > SHARE_WORDS
    ensures forall w: nat :: WordOk(h, m, s, 0, 0, w) ==> WordOk(h, m, Halved(s), 0, 0, w)
    ensures Work(Halved(s)) < Work(s)
  {
    var e, rest := s[|s| - 1], s[..|s| - 1];
    var a, b := Entry(e.start, e.len / 2 + 1), Entry(e.start + e.len / 2, e.len - e.len / 2);
    WorkPush(rest, a);
    WorkPush(rest + [a], b);
    forall w: nat | Stacked(s, w)
      ensures Stacked(Halved(s), w)
    {
      HalvedStacked(s, w);
    }
  }
}
