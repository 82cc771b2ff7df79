// Makalu's offline marker, run by one thread: a state machine around a bounded mark stack that
// discards entries when it overflows and then rescans the heap for marked objects.
module Marker {
  import opened MarkTheory

  const INITIAL_STACK := 4096

  datatype Phase = Idle | PushRescuers | PushRoots | RootsPushed | PartiallyInvalid | Invalid

  // What is left to do, in order of importance.
  datatype Measure = Measure(unmarked: nat, rank: nat, blocks: int, work: nat) {
    predicate Below(before: Measure) {
      || unmarked < before.unmarked
      || (&& unmarked == before.unmarked
          && (|| rank < before.rank
              || (&& rank == before.rank
                  && (blocks < before.blocks || (blocks == before.blocks && work < before.work)))))
    }
  }

  class Collector {
    const h: Heap
    const parallel: bool        // whether the roots-pushed step is left to parallel markers
    var marks: array<bool>
    var stack: array<Entry>
    var top: int                // index of the topmost entry, -1 if the stack is empty
    var state: Phase
    var tooSmall: bool
    var objectsAreMarked: bool
    var scan: nat               // number of blocks scanned, 0 for "no scan under way"
    ghost var cleared: bool     // marking began with all marks clear

    ghost function Stack(): seq<Entry>
      requires -1 <= top < stack.Length
      reads this, stack
    {
      stack[..top + 1]
    }

    ghost predicate Base()
      reads this, marks, stack
    {
      && WellFormed(h) && h.rootHi - h.rootLo <= ROOT_WORDS
      && marks.Length == |h.objs|
      && -1 <= top < stack.Length && INITIAL_STACK <= stack.Length
      && scan <= |h.blocks|
      && EntriesLive(h, marks[..], Stack())
      && (cleared ==> MarkedReachable(h, marks[..]))
    }

    // PUSH_OBJ: an overflow discards entries and invalidates the mark state.
    method PushObj(o: nat)
      requires Base() && o < |h.objs| && marks[o]
      modifies `top, `state, `tooSmall, stack
      ensures Base()
      ensures h.objs[o].len == 0 ==> Stack() == old(Stack()) && state == old(state) && tooSmall == old(tooSmall)
      ensures h.objs[o].len > 0 && old(top) + 1 < stack.Length ==>
                && Stack() == old(Stack()) + [Entry(h.objs[o].first, h.objs[o].len)]
                && state == old(state) && tooSmall == old(tooSmall)
      ensures h.objs[o].len > 0 && old(top) + 1 >= stack.Length ==> state == Invalid && tooSmall
    {
      hide WellFormed, EntriesLive, RangeLive, MarkedReachable;
      ghost var s := Stack();
      if h.objs[o].len != 0 {
        top := top + 1;
        if top >= stack.Length {
          state, tooSmall := Invalid, true;
          top := top - DISCARDS;
        }
        ObjectLive(h, marks[..], o);
        PushLive(h, marks[..], s, top, Entry(h.objs[o].first, h.objs[o].len));
        stack[top] := Entry(h.objs[o].first, h.objs[o].len);
        assert Stack() == s[..top] + [Entry(h.objs[o].first, h.objs[o].len)];
      }
    }

    // PUSH_CONTENTS: marks and pushes the target of word w unless it is marked already.
    method PushContents(w: nat, ghost lo: nat, ghost hi: nat)
      requires Base() && w < |h.words| && LiveWord(h, marks[..], w)
      modifies `top, `state, `tooSmall, stack, marks
      ensures Base() && MoreMarked(old(marks[..]), marks[..])
      ensures h.words[w].Ptr? ==> IsMarked(marks[..], h.words[w].obj)
      ensures state != Invalid ==>
                && state == old(state)
                && Advances(h, old(marks[..]), old(Stack()), marks[..], Stack(), lo, hi)
      ensures old(state) == Invalid ==> state == Invalid
      ensures || Unmarked(marks[..]) < Unmarked(old(marks[..]))
              || (marks[..] == old(marks[..]) && Stack() == old(Stack()) && state == old(state) &&
                  tooSmall == old(tooSmall))
    {
      ghost var m, s := marks[..], Stack();
      if h.words[w].Ptr? {
        var o := h.words[w].obj;
        if !marks[o] {
          MarkAdvances(h, m, s, lo, hi, o);
          UnmarkedDrops(m, o);
          if cleared {
            LiveTargetReachable(h, m, w, o);
          }
          marks[o] := true;
          assert marks[..] == m[o := true];
          EntriesLiveGrow(h, m, s, marks[..]);
          PushObj(o);
        }
      }
    }

    // Marked objects in this many blocks are known to be taken care of.
    ghost function Bound(): nat
      reads this
    {
      if state == PushRescuers || state == PartiallyInvalid then scan
      else if state == PushRoots || state == RootsPushed then |h.blocks|
      else 0
    }

    // The marker's invariant while the words in [lo, hi) are being scanned.
    ghost predicate Inv(lo: nat, hi: nat)
      reads this, marks, stack
    {
      && Base()
      && BelowOk(h, marks[..], Stack(), lo, hi, Bound())
      && (state == RootsPushed ==> objectsAreMarked && RootsOk(h, marks[..], Stack(), lo, hi))
      && (!objectsAreMarked ==> top == -1 && forall o :: 0 <= o < marks.Length ==> !marks[o])
    }

    method ScanRange(from: nat, limit: nat)
      requires Inv(from, limit) && objectsAreMarked && from <= limit && RangeLive(h, marks[..], from, limit)
      modifies `top, `state, `tooSmall, stack, marks
      ensures Inv(0, 0) && MoreMarked(old(marks[..]), marks[..]) && state in {old(state), Invalid}
      ensures || Unmarked(marks[..]) < Unmarked(old(marks[..]))
              || (marks[..] == old(marks[..]) && Stack() == old(Stack()) && state == old(state))
    {
      hide WellFormed, EntriesLive, MarkedReachable, RootsOk, ObjectOk, Advances, Unmarked;
      var p := from;
      while p < limit
        invariant from <= p <= limit && state in {old(state), Invalid}
        invariant Inv(p, limit) && RangeLive(h, marks[..], p, limit) && MoreMarked(old(marks[..]), marks[..])
        invariant || Unmarked(marks[..]) < Unmarked(old(marks[..]))
                  || (marks[..] == old(marks[..]) && Stack() == old(Stack()) && state == old(state))
      {
        ghost var m, s, b := marks[..], Stack(), Bound();
        assert LiveWord(h, marks[..], p);
        PushContents(p, p, limit);
        RangeLiveGrows(h, m, marks[..], p, limit);
        if state != Invalid {
          AdvancesKeeps(h, m, s, marks[..], Stack(), p, limit, b);
          Reshape(h, marks[..], Stack(), p, limit, Stack(), p + 1, limit, b);
        }
        p := p + 1;
      }
      Reshape(h, marks[..], Stack(), limit, limit, Stack(), 0, 0, Bound());
    }

    // MAK_mark_from: takes ranges off the stack until it is empty or the credit is used up.
    method MarkFrom()
      requires Inv(0, 0) && top >= 0
      modifies `top, `state, `tooSmall, `objectsAreMarked, stack, marks
      ensures Inv(0, 0) && objectsAreMarked && MoreMarked(old(marks[..]), marks[..]) && state in {old(state), Invalid}
      ensures || Unmarked(marks[..]) < Unmarked(old(marks[..]))
              || (marks[..] == old(marks[..]) && state == old(state) && Work(Stack()) < Work(old(Stack())))
    {
      var credit := CREDIT_WORDS;
      objectsAreMarked := true;
      ghost var first := true;
      while top >= 0 && credit >= 0
        invariant Inv(0, 0) && objectsAreMarked && MoreMarked(old(marks[..]), marks[..])
        invariant state in {old(state), Invalid}
        invariant first ==> credit >= 0 && top == old(top)
        invariant || Unmarked(marks[..]) < Unmarked(old(marks[..]))
                  || (&& marks[..] == old(marks[..]) && state == old(state)
                      && (if first then Stack() == old(Stack()) else Work(Stack()) < Work(old(Stack()))))
        decreases Unmarked(marks[..]), Work(Stack())
      {
        first := false;
        var p, limit := TakeRange();
        credit := credit - (limit - p);
        ScanRange(p, limit);
      }
    }

    // Parallel markers halve a large range while the stack has room.
    method ShareOut()
      requires Inv(0, 0) && top >= 0
      modifies `top, stack
      ensures Inv(0, 0) && top >= 0 && Work(Stack()) <= Work(old(Stack()))
    {
      hide WellFormed, EntriesLive, RangeLive, WordOk, BelowOk, RootsOk, Work, MarkedReachable;
      while parallel && stack[top].len > SHARE_WORDS && top < stack.Length - 1
        invariant top >= 0 && Inv(0, 0) && Work(Stack()) <= Work(old(Stack()))
        decreases stack.Length - top
      {
        ghost var s := Stack();
        var e := stack[top];
        HalvedOk(h, marks[..], s);
        HalvedLive(h, marks[..], s);
        stack[top] := Entry(e.start, e.len / 2 + 1);
        top := top + 1;
        stack[top] := Entry(e.start + e.len / 2, e.len - e.len / 2);
        assert Stack() == Halved(s);
        Reshape(h, marks[..], s, 0, 0, Stack(), 0, 0, Bound());
      }
    }

    // Takes the next range off the stack; of a large one only the first part.
    method TakeRange() returns (p: nat, limit: nat)
      requires Inv(0, 0) && top >= 0
      modifies `top, stack
      ensures p <= limit && Inv(p, limit) && RangeLive(h, marks[..], p, limit)
      ensures Work(Stack()) < Work(old(Stack()))
    {
      hide WellFormed, EntriesLive, RangeLive, WordOk, BelowOk, RootsOk, Work, MarkedReachable;
      ShareOut();
      ghost var s := Stack();
      var e := stack[top];
      p := e.start;
      ghost var rest := s[..top];
      assert s == rest + [e];
      ghost var n := Chunk(e.len);
      TakenOk(h, marks[..], rest, e, n);
      TakenLive(h, marks[..], rest, e, n);
      if e.len >= SPLIT_WORDS {
        limit := p + (SPLIT_WORDS - 1);
        stack[top] := Entry(limit, e.len - (SPLIT_WORDS - 1));
      } else {
        limit := p + e.len;
        top := top - 1;
      }
      assert Stack() == Taken(rest, e, n);
      Reshape(h, marks[..], s, 0, 0, Stack(), p, limit, Bound());
    }

    //
    // Rescanning the heap.
    //

    // The state is one in which blocks are scanned for marked objects.
    ghost predicate Scanning()
      reads this
    {
      state == PushRescuers || state == PartiallyInvalid || state == Invalid
    }

    // Pushes a marked object as a whole.
    method VisitWhole(o: nat)
      requires Base() && o < |h.objs| && top + 1 < stack.Length
      modifies `top, `state, `tooSmall, stack
      ensures Base() && state == old(state) && top <= old(top) + 1
      ensures Advances(h, marks[..], old(Stack()), marks[..], Stack(), 0, 0)
      ensures marks[o] ==> ObjectOk(h, marks[..], Stack(), 0, 0, o)
    {
      if marks[o] {
        PushAdvances(h, marks[..], Stack(), 0, 0, o);
        PushObj(o);
      }
    }

    // Pushes the unmarked targets of all words of a marked object.
    method VisitWords(o: nat)
      requires Base() && o < |h.objs| && marks[o]
      modifies `top, `state, `tooSmall, stack, marks
      ensures Base() && MoreMarked(old(marks[..]), marks[..])
      ensures old(state) == Invalid ==> state == Invalid
      ensures state != Invalid ==>
                && state == old(state)
                && Advances(h, old(marks[..]), old(Stack()), marks[..], Stack(), 0, 0)
                && ObjectOk(h, marks[..], Stack(), 0, 0, o)
      ensures Unmarked(marks[..]) < Unmarked(old(marks[..])) || (marks[..] == old(marks[..]) && state == old(state))
    {
      var w, limit := h.objs[o].first, h.objs[o].first + h.objs[o].len;
      while w < limit
        invariant h.objs[o].first <= w <= limit
        invariant Base() && marks[o] && MoreMarked(old(marks[..]), marks[..])
        invariant old(state) == Invalid ==> state == Invalid
        invariant state != Invalid ==>
                    state == old(state) && Advances(h, old(marks[..]), old(Stack()), marks[..], Stack(), 0, 0)
        invariant forall w': nat :: h.objs[o].first <= w' < w && h.words[w'].Ptr? ==>
                  IsMarked(marks[..], h.words[w'].obj)
        invariant Unmarked(marks[..]) < Unmarked(old(marks[..])) || (marks[..] == old(marks[..]) && state == old(state))
      {
        ghost var m, s := marks[..], Stack();
        ObjectLive(h, m, o);
        assert LiveWord(h, m, w);
        PushContents(w, 0, 0);
        if state != Invalid {
          AdvancesTrans(h, old(marks[..]), old(Stack()), m, s, marks[..], Stack(), 0, 0);
        }
        w := w + 1;
      }
    }

    predicate BlockEmpty(b: nat)
      requires WellFormed(h) && b < |h.blocks| && marks.Length == |h.objs|
      reads this, marks
    {
      forall g, i :: 0 <= g < |h.blocks[b].groups| && 0 <= i < |h.blocks[b].groups[g]| ==>
          !marks[h.blocks[b].groups[g][i]]
    }

    // MAK_push_marked: takes care of all marked objects of block b.
    method PushMarked(b: nat)
      requires Inv(0, 0) && Scanning() && b < |h.blocks| && top + 1 + MAX_OBJECTS_PER_BLOCK <= stack.Length
      requires state != Invalid ==> b == scan
      modifies `top, `state, `tooSmall, `objectsAreMarked, stack, marks
      ensures Inv(0, 0) && MoreMarked(old(marks[..]), marks[..])
      ensures old(state) == Invalid ==> state == Invalid
      ensures state != Invalid ==> state == old(state) && BelowOk(h, marks[..], Stack(), 0, 0, b + 1)
      ensures Unmarked(marks[..]) < Unmarked(old(marks[..])) || (marks[..] == old(marks[..]) && state == old(state))
    {
      if h.blocks[b].pointerFree || BlockEmpty(b) {
        NothingToPush(b);
        return;
      }
      objectsAreMarked := true;
      if h.blocks[b].accel {
        PushMarkedWords(b);
      } else {
        PushMarkedObjects(b);
      }
    }

    lemma NothingToPush(b: nat)
      requires Inv(0, 0) && b < |h.blocks| && (h.blocks[b].pointerFree || BlockEmpty(b))
      ensures BelowOk(h, marks[..], Stack(), 0, 0, b) ==> BelowOk(h, marks[..], Stack(), 0, 0, b + 1)
    {
      forall o: nat | o < |h.objs| && IsMarked(marks[..], o) && h.objs[o].home == b
        ensures ObjectOk(h, marks[..], Stack(), 0, 0, o)
      {
        assert InBlock(h.blocks[b], o);
        var g :| 0 <= g < |h.blocks[b].groups| && o in h.blocks[b].groups[g];
        var i :| 0 <= i < |h.blocks[b].groups[g]| && h.blocks[b].groups[g][i] == o;
        assert h.objs[o].len == 0;
      }
    }

    method PushMarkedObjects(b: nat)
      requires Inv(0, 0) && Scanning() && b < |h.blocks| && top + 1 + MAX_OBJECTS_PER_BLOCK <= stack.Length
      requires objectsAreMarked && (state != Invalid ==> b == scan)
      modifies `top, `state, `tooSmall, stack
      ensures Inv(0, 0) && state == old(state)
      ensures state != Invalid ==> BelowOk(h, marks[..], Stack(), 0, 0, b + 1)
    {
      hide EntriesLive, MarkedReachable, BelowOk, RootsOk, WordOk, ObjectOk;
      ghost var m, s0, top0 := marks[..], Stack(), top;
      AdvancesStart(h, m, s0);
      hide Advances;
      var groups := h.blocks[b].groups;
      var g := 0;
      while g < |groups|
        invariant 0 <= g <= |groups| && Base() && state == old(state)
        invariant top <= top0 + Total(groups[..g])
        invariant Advances(h, m, s0, m, Stack(), 0, 0) && SeenOk(h, m, m, Stack(), b, g, 0)
      {
        var i := 0;
        TotalStep(groups, g);
        while i < |groups[g]|
          invariant 0 <= i <= |groups[g]| && Base() && state == old(state)
          invariant top <= top0 + Total(groups[..g]) + i
          invariant Advances(h, m, s0, m, Stack(), 0, 0) && SeenOk(h, m, m, Stack(), b, g, i)
        {
          ghost var s := Stack();
          VisitWhole(groups[g][i]);
          AdvancesTrans(h, m, s0, m, s, m, Stack(), 0, 0);
          SeenOkAdvances(h, m, m, s, m, Stack(), b, g, i);
          i := i + 1;
        }
        forall o: nat { SeenNextGroup(groups, g, o); }
        g := g + 1;
      }
      AdvancesKeeps(h, m, s0, m, Stack(), 0, 0, Bound());
      if state != Invalid {
        SeenAll(h, m, m, Stack(), b);
      }
    }

    method PushMarkedWords(b: nat)
      requires Inv(0, 0) && Scanning() && b < |h.blocks|
      requires objectsAreMarked && (state != Invalid ==> b == scan)
      modifies `top, `state, `tooSmall, stack, marks
      ensures Inv(0, 0) && MoreMarked(old(marks[..]), marks[..])
      ensures old(state) == Invalid ==> state == Invalid
      ensures state != Invalid ==> state == old(state) && BelowOk(h, marks[..], Stack(), 0, 0, b + 1)
      ensures Unmarked(marks[..]) < Unmarked(old(marks[..])) || (marks[..] == old(marks[..]) && state == old(state))
    {
      ghost var m0, s0 := marks[..], Stack();
      var groups := h.blocks[b].groups;
      var g := 0;
      while g < |groups|
        invariant 0 <= g <= |groups|
        invariant Base() && MoreMarked(m0, marks[..]) && (old(state) == Invalid ==> state == Invalid)
        invariant state != Invalid ==>
                    && state == old(state) && Advances(h, m0, s0, marks[..], Stack(), 0, 0)
                    && SeenOk(h, m0, marks[..], Stack(), b, g, 0)
        invariant Unmarked(marks[..]) < Unmarked(m0) || (marks[..] == m0 && state == old(state))
      {
        VisitGroup(b, g, m0, s0);
        forall o: nat { SeenNextGroup(groups, g, o); }
        g := g + 1;
      }
      if state != Invalid {
        AdvancesKeeps(h, m0, s0, marks[..], Stack(), 0, 0, b);
        SeenAll(h, m0, marks[..], Stack(), b);
      }
    }

    // The objects under one mark word; the word is read once, before the objects are visited.
    method VisitGroup(b: nat, g: nat, ghost m0: seq<bool>, ghost s0: seq<Entry>)
      requires Base() && MoreMarked(m0, marks[..]) && b < |h.blocks| && g < |h.blocks[b].groups|
      requires state != Invalid ==>
                 Advances(h, m0, s0, marks[..], Stack(), 0, 0) && SeenOk(h, m0, marks[..], Stack(), b, g, 0)
      modifies `top, `state, `tooSmall, stack, marks
      ensures Base() && MoreMarked(old(marks[..]), marks[..])
      ensures old(state) == Invalid ==> state == Invalid
      ensures state != Invalid ==>
                && state == old(state) && Advances(h, m0, s0, marks[..], Stack(), 0, 0)
                && SeenOk(h, m0, marks[..], Stack(), b, g, |h.blocks[b].groups[g]|)
      ensures Unmarked(marks[..]) < Unmarked(old(marks[..])) || (marks[..] == old(marks[..]) && state == old(state))
    {
      var group := h.blocks[b].groups[g];
      var word := marks[..];
      var i := 0;
      while i < |group|
        invariant 0 <= i <= |group|
        invariant Base() && MoreMarked(old(marks[..]), marks[..]) && (old(state) == Invalid ==> state == Invalid)
        invariant state != Invalid ==>
                    && state == old(state) && Advances(h, m0, s0, marks[..], Stack(), 0, 0)
                    && SeenOk(h, m0, marks[..], Stack(), b, g, i)
        invariant Unmarked(marks[..]) < Unmarked(old(marks[..])) || (marks[..] == old(marks[..]) && state == old(state))
      {
        ghost var m, s := marks[..], Stack();
        if word[group[i]] {
          VisitWords(group[i]);
        }
        if state != Invalid {
          AdvancesTrans(h, m0, s0, m, s, marks[..], Stack(), 0, 0);
          SeenOkAdvances(h, m0, m, s, marks[..], Stack(), b, g, i);
        }
        i := i + 1;
      }
    }

    // MAK_push_next_marked: the next block, or the end of the scan.
    method PushNextMarked()
      requires Inv(0, 0) && Scanning() && top + 1 + MAX_OBJECTS_PER_BLOCK <= stack.Length
      modifies `top, `state, `tooSmall, `objectsAreMarked, `scan, stack, marks
      ensures Inv(0, 0) && MoreMarked(old(marks[..]), marks[..])
      ensures old(state) == Invalid ==> state == Invalid
      ensures state != Invalid ==> state == old(state)
      ensures scan == if old(scan) < |h.blocks| then old(scan) + 1 else 0
      ensures scan == 0 ==> marks[..] == old(marks[..]) && top == old(top) && state == old(state)
      ensures scan == 0 && state != Invalid ==> BelowOk(h, marks[..], Stack(), 0, 0, |h.blocks|)
      ensures Unmarked(marks[..]) < Unmarked(old(marks[..])) || (marks[..] == old(marks[..]) && state == old(state))
    {
      hide WellFormed, EntriesLive, MarkedReachable, RootsOk, ObjectOk, Unmarked;
      if scan < |h.blocks| {
        PushMarked(scan);
        scan := scan + 1;
      } else {
        scan := 0;
      }
    }

    // push_all: never called when the stack may overflow.
    method PushAll(from: nat, end: nat)
      requires Base() && h.rootLo <= from < end <= h.rootHi && top + 1 < stack.Length
      modifies `top, stack
      ensures Base() && top == old(top) + 1 && Stack() == old(Stack()) + [Entry(from, end - from)]
    {
      ghost var s := Stack();
      top := top + 1;
      stack[top] := Entry(from, end - from);
      assert Stack() == s + [Entry(from, end - from)];
      forall w: nat | from <= w < end
        ensures LiveWord(h, marks[..], w)
      {
        assert RootWord(h, w);
      }
    }

    // MAK_push_persistent_roots: pushes every maximal run of non-zero root words.
    method PushRootRanges()
      requires Base() && top + 1 + INITIAL_STACK / 2 <= stack.Length
      modifies `top, stack
      ensures Base() && Advances(h, marks[..], old(Stack()), marks[..], Stack(), 0, 0)
      ensures RootsOk(h, marks[..], Stack(), 0, 0) && Spread(Stack()) <= Spread(old(Stack())) + ROOT_WORDS + 1
    {
      hide EntriesLive, MarkedReachable, ObjectOk;
      ghost var m, s0 := marks[..], Stack();
      ZeroOk(h, m);
      AdvancesStart(h, m, s0);
      hide WordOk, Advances;
      var from := h.rootLo;
      while from < h.rootHi
        invariant h.rootLo <= from <= h.rootHi && Base() && top <= old(top) + from - h.rootLo
        invariant Stack() == s0 || (from < h.rootHi ==> h.words[from].Zero?)
        invariant Spread(Stack()) <= Spread(s0) + from - h.rootLo + (if Stack() == s0 then 0 else 1)
        invariant Advances(h, m, s0, m, Stack(), 0, 0)
        invariant forall w: nat :: h.rootLo <= w < from ==> WordOk(h, m, Stack(), 0, 0, w)
      {
        ghost var s, from0 := Stack(), from;
        while from < h.rootHi && h.words[from].Zero?
          invariant from0 <= from <= h.rootHi
          invariant forall w: nat :: h.rootLo <= w < from ==> WordOk(h, m, s, 0, 0, w)
        {
          from := from + 1;
        }
        var end := from;
        while end < h.rootHi && !h.words[end].Zero?
          invariant from <= end <= h.rootHi
        {
          end := end + 1;
        }
        if end > from {
          ghost var e := Entry(from, end - from);
          PushAll(from, end);
          SpreadPush(s, e);
          RangeAdvances(h, m, s, e);
          AdvancesTrans(h, m, s0, m, s, m, Stack(), 0, 0);
        }
        from := end;
      }
    }

    // alloc_mark_stack on an empty stack; a failed request keeps the old stack.
    method AllocMarkStack(n: nat)
      requires Inv(0, 0) && top == -1 && n >= INITIAL_STACK
      modifies `stack, `tooSmall, `top
      ensures Inv(0, 0) && top == -1 && (stack == old(stack) || fresh(stack))
    {
      ghost var s := Stack();
      tooSmall := false;
      var available: bool := *;
      if available {
        stack := new Entry[n](_ => Entry(0, 0));
      }
      top := -1;
      assert Stack() == s;
    }

    ghost function Rank(): nat
      reads this
    {
      match state
      case Idle => 0
      case RootsPushed => 1
      case PushRoots => 2
      case PushRescuers => 3
      case PartiallyInvalid => 3
      case Invalid => if scan == 0 then 4 else 5
    }

    ghost function Progress(): Measure
      requires -1 <= top < stack.Length
      reads this, marks, stack
    {
      Measure(Unmarked(marks[..]), Rank(), |h.blocks| - scan, Work(Stack()))
    }

    // The marks are closed: nothing reachable is missing.
    ghost predicate Complete()
      reads this, marks, stack
    {
      && -1 <= top < stack.Length
      && BelowOk(h, marks[..], [], 0, 0, |h.blocks|) && RootsOk(h, marks[..], [], 0, 0)
    }

    // All roots have been pushed after a complete scan.
    method FinishScan()
      requires Inv(0, 0) && BelowOk(h, marks[..], Stack(), 0, 0, |h.blocks|)
      requires state == PushRescuers || state == PartiallyInvalid || state == PushRoots
      requires top + 1 + INITIAL_STACK / 2 <= stack.Length
      modifies `top, `state, `objectsAreMarked, stack
      ensures Inv(0, 0) && state == RootsPushed && objectsAreMarked
      ensures Spread(Stack()) <= Spread(old(Stack())) + ROOT_WORDS + 1
    {
      hide WellFormed, EntriesLive, MarkedReachable, ObjectOk, WordOk, Advances, BelowOk, RootsOk, Spread;
      ghost var s := Stack();
      PushRootRanges();
      AdvancesKeeps(h, marks[..], s, marks[..], Stack(), 0, 0, |h.blocks|);
      objectsAreMarked := true;
      state := RootsPushed;
    }

    // The roots are pushed onto an empty stack only; they are separate ranges.
    ghost predicate Restarted()
      requires -1 <= top < stack.Length
      reads this, stack
    {
      && state != PushRescuers
      && (state == PushRoots ==> top == -1)
      && (state == RootsPushed ==> Spread(Stack()) <= ROOT_WORDS + 1)
    }

    // MAK_mark_some: one step of the mark state machine, unless it is left to parallel markers.
    method MarkSome() returns (finished: bool)
      requires Inv(0, 0) && (parallel ==> state != RootsPushed)
      modifies this, stack, marks
      ensures Inv(0, 0) && cleared == old(cleared) && marks == old(marks) && (stack == old(stack) || fresh(stack))
      ensures finished ==> old(state) == RootsPushed && state == Idle && Complete()
      ensures !finished ==> (state == Idle <==> old(state) == Idle)
      ensures old(state) != Idle ==> Progress().Below(old(Progress()))
      ensures old(Restarted()) && old(state) != RootsPushed ==> Restarted()
    {
      hide WellFormed, EntriesLive, MarkedReachable, ObjectOk, RootsOk, Unmarked, Work, Spread;
      finished := false;
      match state
      case Idle =>
      case PushRescuers =>
        RescueStep();
      case PushRoots =>
        RootsStep();
      case RootsPushed =>
        if top >= 0 {
          MarkFrom();
        } else {
          assert Stack() == [];
          state := Idle;
          if tooSmall {
            AllocMarkStack(2 * stack.Length);
          }
          finished := true;
        }
      case _ =>
        if !objectsAreMarked {
          state := PushRoots;
        } else if top >= 0 {
          MarkFrom();
        } else {
          RescanStep();
        }
    }

    method RescueStep()
      requires Inv(0, 0) && state == PushRescuers
      modifies this, stack, marks
      ensures Inv(0, 0) && cleared == old(cleared) && marks == old(marks) && stack == old(stack)
      ensures state != Idle && Progress().Below(old(Progress()))
    {
      if top >= stack.Length - INITIAL_STACK / 2 {
        tooSmall := true;
        MarkFrom();
      } else {
        PushNextMarked();
        if scan == 0 {
          FinishScan();
        }
      }
    }

    method RootsStep()
      requires Inv(0, 0) && state == PushRoots
      modifies this, stack, marks
      ensures Inv(0, 0) && cleared == old(cleared) && marks == old(marks) && stack == old(stack)
      ensures state != Idle && Progress().Below(old(Progress())) && (old(top) == -1 ==> Restarted())
    {
      hide WellFormed, EntriesLive, MarkedReachable, ObjectOk, RootsOk, Unmarked, Work;
      if top >= stack.Length / 4 {
        tooSmall := tooSmall || parallel;
        MarkFrom();
      } else {
        FinishScan();
      }
    }

    // The stack is empty and some entries have been lost: scan the heap for marked objects.
    method RescanStep()
      requires Inv(0, 0) && top == -1 && (state == Invalid || state == PartiallyInvalid) && objectsAreMarked
      modifies this, stack, marks
      ensures Inv(0, 0) && cleared == old(cleared) && marks == old(marks) && (stack == old(stack) || fresh(stack))
      ensures state != Idle && Progress().Below(old(Progress())) && Restarted()
    {
      hide WellFormed, EntriesLive, MarkedReachable, RootsOk, ObjectOk, Unmarked, Work;
      if scan == 0 && state == Invalid {
        if tooSmall {
          AllocMarkStack(2 * stack.Length);
        }
        state := PartiallyInvalid;
      }
      PushNextMarked();
      if scan == 0 && state == PartiallyInvalid {
        assert Stack() == [];
        FinishScan();
      }
    }

    // MAK_mark_offline: runs the state machine to its end.
    method MarkOffline() returns (ok: bool)
      requires Inv(0, 0) && !parallel
      modifies this, stack, marks
      ensures ok <==> old(state) in {Idle, Invalid}
      ensures ok ==> state == Idle && marks == old(marks) && marks.Length == |h.objs|
      ensures ok ==> forall o: nat :: Reachable(h, o) ==> IsMarked(marks[..], o)
      ensures ok && old(cleared) ==> forall o: nat :: IsMarked(marks[..], o) ==> Reachable(h, o)
    {
      if state == Idle {
        state := PushRescuers;
      } else if state != Invalid {
        return false;
      }
      scan := 0;
      var finished := false;
      while !finished
        invariant Inv(0, 0) && cleared == old(cleared) && marks == old(marks) && (stack == old(stack) || fresh(stack))
        invariant if finished then state == Idle && Complete() else state != Idle
        decreases Unmarked(marks[..]), Rank(), |h.blocks| - scan, Work(Stack())
      {
        finished := MarkSome();
      }
      ClosedMarksReachable(h, marks[..]);
      return true;
    }

    // MAK_invalidate_mark_state and MAK_clear_marks.
    method ClearMarks()
      requires Base()
      modifies this, marks
      ensures Inv(0, 0) && state == Invalid && cleared && marks == old(marks) && stack == old(stack)
    {
      state, top := Invalid, -1;
      forall o | 0 <= o < marks.Length {
        marks[o] := false;
      }
      objectsAreMarked, state, scan := false, Invalid, 0;
      cleared := true;
    }

    // The marking half of MAK_collect_off: afterwards exactly the reachable objects are marked.
    method Collect() returns (ok: bool)
      requires Base() && !parallel
      modifies this, stack, marks
      ensures ok && marks.Length == |h.objs|
      ensures forall o: nat :: o < |h.objs| ==> (marks[o] <==> Reachable(h, o))
    {
      ClearMarks();
      ok := MarkOffline();
      forall o: nat | o < |h.objs|
        ensures marks[o] <==> Reachable(h, o)
      {
        assert IsMarked(marks[..], o) <==> marks[o];
      }
    }
  }

  lemma ZeroOk(h: Heap, m: seq<bool>)
    ensures forall s: seq<Entry>, w: nat :: w < |h.words| && h.words[w].Zero? ==> WordOk(h, m, s, 0, 0, w)
  {
  }

  lemma AdvancesStart(h: Heap, m: seq<bool>, s: seq<Entry>)
    ensures Advances(h, m, s, m, s, 0, 0)
  {
  }

  lemma TotalStep(groups: seq<seq<nat>>, g: nat)
    requires g < |groups|
    ensures Total(groups[..g + 1]) == Total(groups[..g]) + |groups[g]| <= Total(groups)
    decreases |groups|
  {
    assert groups[..g + 1][..g] == groups[..g];
    if g + 1 < |groups| {
      var k := |groups| - 1;
      TotalStep(groups[..k], g);
      assert groups[..k][..g + 1] == groups[..g + 1] && groups[..k][..g] == groups[..g];
    } else {
      assert groups[..g + 1] == groups;
    }
  }
}
