// Theory of Makalu's flush tables: which lines are still owed a flush.
module FlushTable {
  import opened NvmModel
  import opened UndoLog

  datatype Slot = Null | Holds(line: nat)

  ghost function Lines(tab: seq<Slot>): set<nat> {
    set i | 0 <= i < |tab| && tab[i].Holds? :: tab[i].line
  }

  // Word a has the same value in the cache and in every surviving image.
  ghost predicate Settled(init: Image, tr: seq<Op>, a: nat) {
    Fixed(init, tr, Data(a), Value(init, tr, Data(a)))
  }

  // Every word is settled, or its line is owed a flush, or its flush awaits a fence.
  ghost predicate Covered(init: Image, tr: seq<Op>, lines: set<nat>) {
    forall a: nat :: Settled(init, tr, a) || a / LINE in lines || DataLine(a / LINE) in Pending(tr)
  }

  lemma SettledExtends(init: Image, tr: seq<Op>, op: Op, a: nat)
    requires Settled(init, tr, a)
    requires op.Store? ==> op.c != Data(a)
    ensures Settled(init, tr + [op], a)
  {
    Extend(init, tr, op);
    FixedExtends(init, tr, op, Data(a), Value(init, tr, Data(a)));
  }

  // A store owes its line a flush.
  lemma CoverStore(init: Image, tr: seq<Op>, c: Cell, v: int, lines: set<nat>)
    requires Covered(init, tr, lines)
    requires c.Data? ==> c.a / LINE in lines
    requires c == Version ==> forall a: nat :: Settled(init, tr, a)
    ensures Covered(init, tr + [Store(c, v)], lines)
  {
    var op := Store(c, v);
    Extend(init, tr, op);
    forall a: nat | a / LINE !in lines
      ensures Settled(init, tr + [op], a) || DataLine(a / LINE) in Pending(tr + [op])
    {
      if Settled(init, tr, a) {
        SettledExtends(init, tr, op, a);
      }
    }
  }

  // A flush takes over the debt of its line.
  lemma CoverFlush(init: Image, tr: seq<Op>, l: Line, lines: set<nat>, lines': set<nat>)
    requires Covered(init, tr, lines)
    requires forall n :: n in lines && DataLine(n) != l ==> n in lines'
    ensures Covered(init, tr + [Flush(l)], lines')
  {
    var op := Flush(l);
    Extend(init, tr, op);
    forall a: nat | a / LINE !in lines'
      ensures Settled(init, tr + [op], a) || DataLine(a / LINE) in Pending(tr + [op])
    {
      if Settled(init, tr, a) {
        SettledExtends(init, tr, op, a);
      }
    }
  }

  // A fence settles every line whose flush was pending.
  lemma CoverFence(init: Image, tr: seq<Op>, lines: set<nat>)
    requires Covered(init, tr, lines)
    ensures Covered(init, tr + [Fence], lines)
    ensures Pending(tr + [Fence]) == {}
  {
    Extend(init, tr, Fence);
    forall a: nat | a / LINE !in lines
      ensures Settled(init, tr + [Fence], a)
    {
      if Settled(init, tr, a) {
        SettledExtends(init, tr, Fence, a);
      } else {
        FencedIsFixed(init, tr, Data(a));
      }
    }
  }

  // Nothing owed and nothing pending: everything is settled.
  lemma CoveredByNothing(init: Image, tr: seq<Op>)
    requires Covered(init, tr, {}) && Pending(tr) == {}
    ensures forall a: nat :: Settled(init, tr, a)
  {
    forall a: nat
      ensures Settled(init, tr, a)
    {
      assert a / LINE !in {} && DataLine(a / LINE) !in Pending(tr);
    }
  }

  //
  // The operations a table causes.
  //

  ghost predicate Quiet(ops: seq<Op>) {
    forall i :: 0 <= i < |ops| ==> !ops[i].Store?
  }

  // Entering line n flushes the line it displaces, if any.
  ghost function EvictOps(tab: seq<Slot>, n: nat): (ops: seq<Op>)
    requires |tab| > 0
    ensures Quiet(ops)
  {
    var s := tab[n % |tab|];
    if s.Holds? && s.line != n then [Flush(DataLine(s.line))] else []
  }

  ghost function FlushOps(tab: seq<Slot>): (ops: seq<Op>)
    ensures Quiet(ops)
  {
    if tab == [] then []
    else
      var last := tab[|tab| - 1];
      FlushOps(tab[..|tab| - 1]) + (if last.Holds? then [Flush(DataLine(last.line))] else [])
  }

  lemma CoverEnter(init: Image, tr: seq<Op>, tab: seq<Slot>, n: nat)
    requires |tab| > 0 && Covered(init, tr, Lines(tab) + {n})
    ensures Covered(init, tr + EvictOps(tab, n), Lines(tab[n % |tab| := Holds(n)]))
  {
    var k := n % |tab|;
    var tab' := tab[k := Holds(n)];
    assert n in Lines(tab') by {
      assert tab'[k] == Holds(n);
    }
    forall m | m in Lines(tab) && tab[k] != Holds(m)
      ensures m in Lines(tab')
    {
      var i :| 0 <= i < |tab| && tab[i] == Holds(m);
      assert tab'[i] == Holds(m);
    }
    if EvictOps(tab, n) != [] {
      CoverFlush(init, tr, DataLine(tab[k].line), Lines(tab) + {n}, Lines(tab'));
    } else {
      assert tr + [] == tr;
    }
  }

  // A store followed by the registration of its word.
  lemma CoverRegister(init: Image, tr: seq<Op>, tab: seq<Slot>, a: nat, v: int)
    requires |tab| > 0 && Covered(init, tr, Lines(tab) + {a / LINE})
    ensures Covered(init, tr + [Store(Data(a), v)] + EvictOps(tab, a / LINE),
              Lines(tab[a / LINE % |tab| := Holds(a / LINE)]))
  {
    hide Covered, Lines, EvictOps;
    CoverStore(init, tr, Data(a), v, Lines(tab) + {a / LINE});
    CoverEnter(init, tr + [Store(Data(a), v)], tab, a / LINE);
  }

  lemma {:induction false} CoverFlushOps(init: Image, tr: seq<Op>, tab: seq<Slot>, lines: set<nat>)
    requires Covered(init, tr, lines + Lines(tab))
    ensures Covered(init, tr + FlushOps(tab), lines)
  {
    if tab == [] {
      assert tr + [] == tr && lines + Lines(tab) == lines;
    } else {
      var k := |tab| - 1;
      var rest := tab[..k];
      var more := if tab[k].Holds? then lines + {tab[k].line} else lines;
      assert lines + Lines(tab) <= more + Lines(rest) by {
        forall m | m in Lines(tab)
          ensures m in more + Lines(rest)
        {
          var i :| 0 <= i < |tab| && tab[i] == Holds(m);
          assert i < k ==> rest[i] == Holds(m);
        }
      }
      CoverMore(init, tr, lines + Lines(tab), more + Lines(rest));
      CoverFlushOps(init, tr, rest, more);
      if tab[k].Holds? {
        CoverFlush(init, tr + FlushOps(rest), DataLine(tab[k].line), more, lines);
        assert tr + FlushOps(tab) == tr + FlushOps(rest) + [Flush(DataLine(tab[k].line))];
      } else {
        assert FlushOps(tab) == FlushOps(rest);
      }
    }
  }

  lemma CoverMore(init: Image, tr: seq<Op>, lines: set<nat>, lines': set<nat>)
    requires Covered(init, tr, lines) && lines <= lines'
    ensures Covered(init, tr, lines')
  {
  }

  // Flushing the whole table between two fences settles every word.
  lemma FlushAllSettles(init: Image, tr: seq<Op>, tab: seq<Slot>)
    requires Covered(init, tr, Lines(tab))
    ensures forall a: nat :: Settled(init, tr + [Fence] + FlushOps(tab) + [Fence], a)
  {
    CoverFence(init, tr, Lines(tab));
    assert {} + Lines(tab) == Lines(tab);
    CoverFlushOps(init, tr + [Fence], tab, {});
    CoverFence(init, tr + [Fence] + FlushOps(tab), {});
    CoveredByNothing(init, tr + [Fence] + FlushOps(tab) + [Fence]);
  }

  // Flushes and fences change no value.
  lemma {:induction false} QuietValue(init: Image, tr: seq<Op>, ops: seq<Op>, c: Cell)
    requires Quiet(ops)
    ensures Value(init, tr + ops, c) == Value(init, tr, c)
  {
    if ops == [] {
      assert tr + ops == tr;
    } else {
      var op, rest := ops[|ops| - 1], ops[..|ops| - 1];
      QuietValue(init, tr, rest, c);
      Extend(init, tr + rest, op);
      assert tr + ops == tr + rest + [op];
    }
  }

  // Flushes and fences never endanger a section.
  lemma {:induction false} QuietSection(init: Image, tr: seq<Op>, ops: seq<Op>, start: nat, s: Section)
    requires Quiet(ops)
    requires SectionInv(init, tr, s) && SafeSince(init, tr, start, s.ver, s.pre, s.loose)
    ensures SectionInv(init, tr + ops, s) && SafeSince(init, tr + ops, start, s.ver, s.pre, s.loose)
  {
    if ops == [] {
      assert tr + ops == tr;
    } else {
      var op, rest := ops[|ops| - 1], ops[..|ops| - 1];
      QuietSection(init, tr, rest, start, s);
      SectionExtends(init, tr + rest, op, s);
      SafeExtends(init, tr + rest, op, start, s, s.loose);
      assert tr + ops == tr + rest + [op];
    }
  }

  lemma {:induction false} QuietReplay(img: Image, tr: seq<Op>, ops: seq<Op>)
    requires Quiet(ops)
    requires Sane(img) && Replaying(img, tr) && AttemptSince(img, tr)
    ensures Replaying(img, tr + ops) && AttemptSince(img, tr + ops)
  {
    if ops == [] {
      assert tr + ops == tr;
    } else {
      var op, rest := ops[|ops| - 1], ops[..|ops| - 1];
      QuietReplay(img, tr, rest);
      ReplayingExtends(img, tr + rest, op);
      AttemptExtends(img, tr + rest, op);
      assert tr + ops == tr + rest + [op];
    }
  }

  //
  // Registering a range of words.
  //

  ghost function StoreOps(a: nat, vs: seq<int>): seq<Op> {
    seq(|vs|, i requires 0 <= i < |vs| => Store(Data(a + i), vs[i]))
  }

  // The table after a range that starts at word a has been registered.
  ghost function Entered(tab: seq<Slot>, a: nat): seq<Slot>
    requires |tab| > 0
  {
    tab[a / LINE % |tab| := Holds(a / LINE)]
  }

  // The trace after the range at a has been stored, registered in an empty table, and the table flushed.
  ghost function RangeFlushed(tr: seq<Op>, tab: seq<Slot>, a: nat, vs: seq<int>): seq<Op>
    requires |tab| > 0
  {
    tr + StoreOps(a, vs) + [Fence] + FlushOps(Entered(tab, a)) + [Fence]
  }

  ghost predicate RangeSettled(init: Image, tr: seq<Op>, a: nat, size: nat) {
    forall w: nat :: a <= w < a + size ==> Settled(init, tr, w)
  }

  lemma {:induction false} StoreValues(init: Image, tr: seq<Op>, a: nat, vs: seq<int>, w: nat)
    ensures Value(init, tr + StoreOps(a, vs), Data(w)) ==
            if a <= w < a + |vs| then vs[w - a] else Value(init, tr, Data(w))
    ensures Durable(tr + StoreOps(a, vs), DataLine(w / LINE)) == Durable(tr, DataLine(w / LINE))
    ensures a <= w < a + |vs| ==> DataLine(w / LINE) !in Pending(tr + StoreOps(a, vs))
  {
    if vs == [] {
      assert tr + StoreOps(a, vs) == tr;
    } else {
      var k := |vs| - 1;
      StoreValues(init, tr, a, vs[..k], w);
      Extend(init, tr + StoreOps(a, vs[..k]), Store(Data(a + k), vs[k]));
      assert tr + StoreOps(a, vs) == tr + StoreOps(a, vs[..k]) + [Store(Data(a + k), vs[k])];
    }
  }

  // Without a flush, a line that is not pending gets no more durable.
  lemma {:induction false} Unflushed(init: Image, tr: seq<Op>, ops: seq<Op>, l: Line)
    requires Quiet(ops) && Flush(l) !in ops && l !in Pending(tr)
    ensures Durable(tr + ops, l) == Durable(tr, l) && l !in Pending(tr + ops)
  {
    if ops == [] {
      assert tr + ops == tr;
    } else {
      var op, rest := ops[|ops| - 1], ops[..|ops| - 1];
      Unflushed(init, tr, rest, l);
      Extend(init, tr + rest, op);
      assert tr + ops == tr + rest + [op];
    }
  }

  lemma {:induction false} OnlyTable(tab: seq<Slot>, n: nat)
    requires forall i :: 0 <= i < |tab| ==> tab[i] != Holds(n)
    ensures Flush(DataLine(n)) !in FlushOps(tab)
  {
    if tab != [] {
      OnlyTable(tab[..|tab| - 1], n);
    }
  }

  // A word whose line has not been written back since moment t may be found as it was then.
  lemma OldWordSurvives(init: Image, tr: seq<Op>, w: nat, t: nat) returns (img: Image)
    requires Durable(tr, DataLine(w / LINE)) <= t <= |tr|
    ensures Survives(init, tr, img) && img(Data(w)) == Value(init, tr[..t], Data(w))
  {
    var l := DataLine(w / LINE);
    img := c => if LineOf(c) == l then Value(init, tr[..t], c) else Value(init, tr, c);
    assert tr[..|tr|] == tr;
    forall k
      ensures LineSurvives(init, tr, img, k)
    {
      assert LineAt(init, tr, img, k, if k == l then t else |tr|);
    }
  }

  // A word beyond the first line of the range may be lost.
  lemma BeyondIsLost(init: Image, tr: seq<Op>, tab: seq<Slot>, a: nat, vs: seq<int>, w: nat) returns (img: Image)
    requires |tab| > 0 && (forall i :: 0 <= i < |tab| ==> tab[i].Null?) && a <= w < a + |vs| && w / LINE != a / LINE
    ensures Survives(init, RangeFlushed(tr, tab, a, vs), img) && img(Data(w)) == Value(init, tr, Data(w))
    ensures vs[w - a] != Value(init, tr, Data(w)) ==> !Settled(init, RangeFlushed(tr, tab, a, vs), w)
  {
    var tr', ops, l := tr + StoreOps(a, vs), [Fence] + FlushOps(Entered(tab, a)) + [Fence], DataLine(w / LINE);
    var all := RangeFlushed(tr, tab, a, vs);
    assert all == tr' + ops && all[..|tr|] == tr;
    StoreValues(init, tr, a, vs, w);
    OnlyTable(Entered(tab, a), w / LINE);
    Unflushed(init, tr', ops, l);
    QuietValue(init, tr', ops, Data(w));
    img := OldWordSurvives(init, all, w, |tr|);
    if Settled(init, all, w) {
      FixedSurvives(init, all, img, Data(w), Value(init, all, Data(w)));
    }
  }

  lemma {:induction false} CoverStores(init: Image, tr: seq<Op>, a: nat, vs: seq<int>, lines: set<nat>)
    requires Covered(init, tr, lines) && forall w :: a <= w < a + |vs| ==> w / LINE in lines
    ensures Covered(init, tr + StoreOps(a, vs), lines)
  {
    if vs == [] {
      assert tr + StoreOps(a, vs) == tr;
    } else {
      var k := |vs| - 1;
      CoverStores(init, tr, a, vs[..k], lines);
      CoverStore(init, tr + StoreOps(a, vs[..k]), Data(a + k), vs[k], lines);
      assert tr + StoreOps(a, vs) == tr + StoreOps(a, vs[..k]) + [Store(Data(a + k), vs[k])];
    }
  }

  lemma WithinSettles(init: Image, tr: seq<Op>, tab: seq<Slot>, a: nat, vs: seq<int>)
    requires |tab| > 0 && (forall w: nat :: Settled(init, tr, w)) && a % LINE + |vs| <= LINE
    ensures forall w: nat :: Settled(init, RangeFlushed(tr, tab, a, vs), w)
  {
    var lines := {a / LINE};
    CoverStores(init, tr, a, vs, lines);
    assert Entered(tab, a)[a / LINE % |tab|] == Holds(a / LINE);
    CoverMore(init, tr + StoreOps(a, vs), lines, Lines(Entered(tab, a)));
    FlushAllSettles(init, tr + StoreOps(a, vs), Entered(tab, a));
  }

  // Registration enters the first line only.  New values in a range are safe after the flush of the
  // table exactly if the range fits into one line.
  lemma RangeCoveredIff(init: Image, tr: seq<Op>, tab: seq<Slot>, a: nat, vs: seq<int>)
    requires |tab| > 0 && (forall i :: 0 <= i < |tab| ==> tab[i].Null?) && |vs| > 0
    requires forall w: nat :: Settled(init, tr, w)
    requires forall i :: 0 <= i < |vs| ==> vs[i] != Value(init, tr, Data(a + i))
    ensures RangeSettled(init, RangeFlushed(tr, tab, a, vs), a, |vs|) <==> a % LINE + |vs| <= LINE
  {
    if a % LINE + |vs| <= LINE {
      WithinSettles(init, tr, tab, a, vs);
    } else {
      var w := (a / LINE + 1) * LINE;
      assert a <= w < a + |vs| && w / LINE == a / LINE + 1;
      assert vs[w - a] != Value(init, tr, Data(a + (w - a)));
      var img := BeyondIsLost(init, tr, tab, a, vs, w);
    }
  }

  // MAK_init_persistent_logs clears and registers a range of 4096 bytes: all but its first line may be lost.
  lemma LogRangeLost(init: Image, tab: seq<Slot>, a: nat, vs: seq<int>, w: nat) returns (img: Image)
    requires |tab| > 0 && (forall i :: 0 <= i < |tab| ==> tab[i].Null?)
    requires a % LINE == 0 && |vs| == 512 && (forall i :: 0 <= i < |vs| ==> vs[i] == 0) && a + LINE <= w < a + 512
    ensures Survives(init, RangeFlushed([], tab, a, vs), img) && img(Data(w)) == init(Data(w))
    ensures init(Data(w)) != 0 ==> !Settled(init, RangeFlushed([], tab, a, vs), w)
  {
    img := BeyondIsLost(init, [], tab, a, vs, w);
  }
}
