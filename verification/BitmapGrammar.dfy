// Which texts the bitmap parser accepts.
module BitmapGrammar {
  import opened Probing
  import opened Bitmap

  //
  // The grammar: white space, groups of hexadecimal digits with single commas between them, and
  // either a comma, or white space and perhaps a terminator.
  //

  function SpaceRun(t: string): (j: nat)
    ensures j <= |t| && (j < |t| ==> !Space(t[j]))
  {
    if t != "" && Space(t[0]) then 1 + SpaceRun(t[1..]) else 0
  }

  function HexRun(t: string): (k: nat)
    ensures k <= |t| && (k < |t| ==> !Hex(t[k])) && forall i :: 0 <= i < k ==> Hex(t[i])
  {
    if t != "" && Hex(t[0]) then 1 + HexRun(t[1..]) else 0
  }

  // The number that v followed by the digits g writes.
  function Fed(v: nat, g: string): nat
    requires forall i :: 0 <= i < |g| ==> Hex(g[i])
    decreases |g|
  {
    if g == "" then v else Fed(16 * v + Digit(g[0]), g[1..])
  }

  // The rest after the groups.
  predicate Closing(r: string) {
    r == "," || var q := r[SpaceRun(r)..]; q == "" || q[0] == '\0'
  }

  predicate GroupsOk(s: string)
    decreases |s|
  {
    var k := HexRun(s);
    var r := s[k..];
    k > 0 && Fed(0, s[..k]) < Pow2(CHUNK) && (Closing(r) || (|r| > 1 && r[0] == ',' && GroupsOk(r[1..])))
  }

  predicate Accepted(t: string) {
    GroupsOk(t[SpaceRun(t)..])
  }

  //
  // Reading one group.
  //

  lemma {:induction false} FedGrows(v: nat, g: string)
    requires forall i :: 0 <= i < |g| ==> Hex(g[i])
    ensures Fed(v, g) >= v && (g != "" ==> Fed(v, g) >= 16 * v)
    decreases |g|
  {
    if g != "" {
      FedGrows(16 * v + Digit(g[0]), g[1..]);
    }
  }

  lemma TopNibble(v: Bits)
    requires |v| == CHUNK
    ensures v[28..] == Zeros(4) <==> 16 * Value(v) < Pow2(CHUNK)
  {
    FourBits(0);
    hide Value, Pow2;
    var low, high := v[..28], v[28..];
    assert v == low + high;
    ValueJoin(low, high);
    PowSum(28, 4);
    ValueBelow(low);
    NibbleAbove(Value(low), Pow2(28), Value(high));
    if high == Zeros(4) {
      ValueZeros(4);
    } else if Value(high) == 0 {
      NoBits(high);
    }
  }

  lemma NibbleAbove(x: nat, p: nat, h: nat)
    requires x < p
    ensures 16 * (x + p * h) < p * 16 <==> h == 0
  {
    MulBounds(h, p);
  }

  lemma ValueBelow(v: Bits)
    ensures Value(v) < Pow2(|v|)
  {
  }

  // The digits at the start of a text.
  lemma {:induction false} ScanRun(t: string, c: char, total: nat, v: Bits, d: nat) returns (v': Bits)
    requires |v| == CHUNK && (!Space(c) || total == 0)
    ensures |v'| == CHUNK
    ensures var k := HexRun(t);
            if Fed(Value(v), t[..k]) >= Pow2(CHUNK) then k > 0 && Scan(t, c, total, v, d) == Failed(Overflow)
            else Value(v') == Fed(Value(v), t[..k]) &&
                 Scan(t, c, total, v, d) == Scan(t[k..], if k == 0 then c else t[k - 1], total + k, v', d + k)
    decreases |t|
  {
    hide Value, Pow2, Nibble, Digit, Space, Hex;
    v' := v;
    var k := HexRun(t);
    if k == 0 {
      assert t[..0] == "" && t[0..] == t;
      ValueBelow(v);
    } else {
      NoSpaceHex(t[0]);
      TopNibble(v);
      assert t[..k][0] == t[0] && t[..k][1..] == t[1..][..k - 1];
      if v[28..] == Zeros(4) {
        NibbleValue(Digit(t[0]), v);
        var v1 := Nibble(Digit(t[0])) + v[..28];
        v' := ScanRun(t[1..], t[0], total + 1, v1, d + 1);
        assert t[1..][k - 1..] == t[k..];
        assert k > 1 ==> t[1..][k - 2] == t[k - 1];
      } else {
        FedGrows(Value(v), t[..k]);
      }
    }
  }

  lemma NoSpaceHex(c: char)
    requires Hex(c)
    ensures !Space(c) && c != ',' && c != '\0'
  {
  }

  // White space at the start.
  lemma {:induction false} ScanLead(t: string, c: char, v: Bits)
    requires |v| == CHUNK && t[SpaceRun(t)..] != ""
    ensures Scan(t, c, 0, v, 0) == Scan(t[SpaceRun(t)..], '\0', 0, v, 0)
    decreases |t|
  {
    if Space(t[0]) {
      assert t[1..][SpaceRun(t[1..])..] == t[SpaceRun(t)..];
      ScanLead(t[1..], t[0], v);
    } else {
      assert t[0..] == t;
    }
  }

  lemma {:induction false} ScanBlank(t: string, c: char, v: Bits)
    requires |v| == CHUNK && t[SpaceRun(t)..] == ""
    ensures var r := Scan(t, c, 0, v, 0); r.Scanned? && r.digits == 0
    decreases |t|
  {
    if t != "" {
      assert t[1..][SpaceRun(t[1..])..] == t[SpaceRun(t)..];
      ScanBlank(t[1..], t[0], v);
    }
  }

  // White space after the digits.
  lemma {:induction false} ScanTrail(r: string, c: char, total: nat, v: Bits, d: nat)
    requires |v| == CHUNK && total > 0 && Space(c)
    ensures var q, x := r[SpaceRun(r)..], Scan(r, c, total, v, d);
            if q == "" || q[0] == '\0' then x.Scanned? && x.v == v && x.digits == d && !(x.rest != "" && x.c == ',')
            else x.Failed?
    decreases |r|
  {
    if r != "" && Space(r[0]) {
      assert r[1..][SpaceRun(r[1..])..] == r[SpaceRun(r)..];
      ScanTrail(r[1..], r[0], total, v, d);
    } else {
      assert r[0..] == r;
    }
  }

  // What comes after the digits.
  lemma ScanClose(r: string, c: char, total: nat, v: Bits, d: nat)
    requires |v| == CHUNK && total > 0 && !Space(c) && c != ',' && HexRun(r) == 0
    ensures var x := Scan(r, c, total, v, d);
            if Closing(r) then x.Scanned? && x.v == v && x.digits == d && !(x.rest != "" && x.c == ',')
            else if |r| > 1 && r[0] == ',' then x == Scanned(v, d, ',', r[1..])
            else x.Failed?
  {
    if r != "" && Space(r[0]) {
      ScanTrail(r[1..], r[0], total, v, d);
      assert r[1..][SpaceRun(r[1..])..] == r[SpaceRun(r)..];
    } else {
      assert r[0..] == r;
    }
  }

  // One group and what comes after it.
  lemma ScanGroupOf(s: string, c: char, total: nat)
    requires !Space(c) || total == 0
    requires s != "" && !Space(s[0])
    ensures var x := Scan(s, c, total, Zeros(CHUNK), 0);
            if x.Failed? || x.digits == 0 then !GroupsOk(s)
            else if x.rest != "" && x.c == ',' then GroupsOk(s) <==> GroupsOk(x.rest)
            else GroupsOk(s)
  {
    hide Value, Pow2, Digit, Nibble, Fed, Closing, Scan;
    var k := HexRun(s);
    ValueZeros(CHUNK);
    if k > 0 {
      var v := ScanRun(s, c, total, Zeros(CHUNK), 0);
      if Fed(0, s[..k]) < Pow2(CHUNK) {
        NoSpaceHex(s[k - 1]);
        NoMoreHex(s);
        ScanClose(s[k..], s[k - 1], total + k, v, k);
      }
    } else {
      NotAGroup(s, c, total);
    }
  }

  lemma NotAGroup(s: string, c: char, total: nat)
    requires (!Space(c) || total == 0) && s != "" && !Space(s[0]) && HexRun(s) == 0
    ensures var x := Scan(s, c, total, Zeros(CHUNK), 0); x.Failed? || x.digits == 0
  {
  }

  lemma NoMoreHex(s: string)
    ensures HexRun(s[HexRun(s)..]) == 0
  {
  }

  //
  // The number that is read.
  //

  lemma {:induction false} NumberGrows(t: string, high: nat, group: nat)
    ensures Number(t, high, group) >= high * Pow2(CHUNK) + group >= high
    decreases |t|
  {
    hide Pow2, Digit;
    Grows(high, Pow2(CHUNK));
    if t != "" && t[0] != '\0' {
      if t[0] == ',' {
        if t[1..] != "" {
          NumberGrows(t[1..], high * Pow2(CHUNK) + group, 0);
        }
      } else if Hex(t[0]) {
        NumberGrows(t[1..], high, 16 * group + Digit(t[0]));
      } else {
        NumberGrows(t[1..], high, group);
      }
    }
  }

  lemma Grows(x: nat, p: nat)
    requires p > 0
    ensures x * p >= x
  {
    assert x * p == x + x * (p - 1);
  }

  // The highest bit of a number.
  lemma FlsExact(v: Bits)
    requires v != Zeros(|v|)
    ensures Fls(v) > 0 && Pow2(Fls(v) - 1) <= Value(v)
  {
    var k := Fls(v);
    ZeroFls(v);
    hide Value, Fls, Pow2;
    var low, high := v[..k - 1], v[k - 1..];
    assert v == low + high;
    ValueJoin(low, high);
    OddIsPositive(high);
    AtLeast(Value(low), Pow2(k - 1), Value(high));
  }

  lemma ZeroFls(v: Bits)
    ensures Fls(v) == 0 ==> v == Zeros(|v|)
  {
  }

  lemma AtLeast(x: nat, p: nat, h: nat)
    requires p > 0 && h > 0
    ensures x + p * h >= p
  {
    MulBounds(h, p);
  }

  lemma OddIsPositive(v: Bits)
    requires v != [] && v[0]
    ensures Value(v) > 0
  {
  }

  // nbits is the number of bits of m, once it has been started.
  ghost predicate Sized(started: bool, nbits: nat, m: Bits) {
    if started then nbits > 0 && Pow2(nbits - 1) <= Value(m) < Pow2(nbits) else nbits == 0 && Value(m) == 0
  }

  lemma NextSized(started: bool, nbits: nat, m: Bits, v: Bits, n: nat)
    requires |v| == CHUNK <= |m| && nbits <= n <= |m| && Sized(started, nbits, m) && (started || v != Zeros(CHUNK))
    ensures var nbits', x := nbits + (if started then CHUNK else Fls(v)), Value(m) * Pow2(CHUNK) + Value(v);
            && nbits' > 0 && Pow2(nbits' - 1) <= x < Pow2(nbits')
            && (nbits' <= n ==> Value(ShiftIn(m, v, n)) == x)
  {
    hide Value, Fls, ShiftIn, Pow2;
    if started {
      NextBits(m, v, nbits);
      PowSum(nbits - 1, CHUNK);
      Scaled(Pow2(nbits - 1), Value(m), Pow2(CHUNK));
      if nbits + CHUNK <= n {
        ShiftInValue(m, v, n, nbits);
      }
    } else {
      FlsExact(v);
      FlsBounds(v);
      FirstGroupValue(m, v, n);
    }
  }

  lemma Scaled(x: nat, y: nat, p: nat)
    requires x <= y
    ensures x * p <= y * p
  {
    assert y * p == x * p + (y - x) * p;
  }

  // From the start of a group on, the parser accepts exactly the texts of the grammar whose number fits.
  lemma {:induction false} ParseGrammar(s: string, c: char, total: nat, started: bool, nbits: nat, m: Bits, n: nat)
    requires !Space(c) && nbits <= n <= |m| && CHUNK <= |m| && Sized(started, nbits, m)
    requires total > 0 || (s != "" && !Space(s[0]))
    ensures Parse(s, c, total, started, nbits, m, n).Good? <==> GroupsOk(s) && Number(s, Value(m), 0) < Pow2(n)
    decreases |s|
  {
    hide Value, Pow2, Scan, Number, Fls, ShiftIn, Sized, Parse, GroupsOk, Space;
    ParseGroup(s, c, total, started, nbits, m, n);
    if s == "" || Space(s[0]) {
      NoGroup(s, c, total);
    } else {
      var x := Scan(s, c, total, Zeros(CHUNK), 0);
      ScanGroupOf(s, c, total);
      if x.Scanned? && x.digits > 0 {
        ValueZeros(CHUNK);
        ScanMeans(s, c, total, Zeros(CHUNK), 0, Value(m));
        var high := Value(m) * Pow2(CHUNK) + Value(x.v);
        var goes := x.rest != "" && x.c == ',';
        if goes {
          NumberGrows(x.rest, high, 0);
        }
        if !started && x.v == Zeros(CHUNK) {
          NotStarted(nbits, m, n);
          if goes {
            NoSpace();
            ParseGrammar(x.rest, x.c, total + x.digits, started, nbits, m, n);
          }
        } else {
          var m', nbits' := ShiftIn(m, x.v, n), nbits + if started then CHUNK else Fls(x.v);
          NextSized(started, nbits, m, x.v, n);
          if nbits' > n {
            PowOrder(n, nbits' - 1);
          } else {
            PowOrder(nbits', n);
            if goes {
              NoSpace();
              IsSized(nbits', m');
              ParseGrammar(x.rest, x.c, total + x.digits, true, nbits', m', n);
            }
          }
        }
      }
    }
  }

  lemma NotStarted(nbits: nat, m: Bits, n: nat)
    requires Sized(false, nbits, m)
    ensures nbits == 0 && Value(m) == 0 && Value(m) * Pow2(CHUNK) == 0 && 0 < Pow2(n)
  {
  }

  lemma IsSized(nbits: nat, m: Bits)
    requires nbits > 0 && Pow2(nbits - 1) <= Value(m) < Pow2(nbits)
    ensures Sized(true, nbits, m)
  {
  }

  // After a comma there must be a digit.
  lemma NoGroup(s: string, c: char, total: nat)
    requires (s == "" || Space(s[0])) && total > 0 && !Space(c)
    ensures var x := Scan(s, c, total, Zeros(CHUNK), 0); x.Failed? || x.digits == 0
    ensures !GroupsOk(s)
  {
    if s != "" {
      ScanTrail(s[1..], s[0], total, Zeros(CHUNK), 0);
    }
  }

  lemma {:induction false} NumberLead(t: string, high: nat)
    ensures Number(t, high, 0) == Number(t[SpaceRun(t)..], high, 0)
    decreases |t|
  {
    if t != "" && Space(t[0]) {
      assert t[1..][SpaceRun(t[1..])..] == t[SpaceRun(t)..];
      NumberLead(t[1..], high);
    } else {
      assert t[0..] == t;
    }
  }

  // __bitmap_parse succeeds on a text exactly if the grammar accepts it and its number fits.
  lemma ParseAccepts(t: string, n: nat)
    requires n > 0
    ensures Parse(t, '\0', 0, false, 0, Zeros(WORD * Longs(n)), n).Good? <==> Accepted(t) && Number(t, 0, 0) < Pow2(n)
  {
    Enough(n);
    hide Parse, Number, GroupsOk, Longs, Value, Pow2, SpaceRun;
    var m, s := Zeros(WORD * Longs(n)), t[SpaceRun(t)..];
    ValueZeros(WORD * Longs(n));
    Unstarted(m);
    NumberLead(t, 0);
    ParseLead(t, m, n);
    if s == "" {
      NothingOk();
    } else {
      ParseGrammar(s, '\0', 0, false, 0, m, n);
    }
  }

  // White space at the start makes no difference.
  lemma ParseLead(t: string, m: Bits, n: nat)
    ensures var s, p := t[SpaceRun(t)..], Parse(t, '\0', 0, false, 0, m, n);
            if s == "" then p.Bad? else !Space(s[0]) && p == Parse(s, '\0', 0, false, 0, m, n)
  {
    hide Parse, Scan, Fls, ShiftIn;
    var s := t[SpaceRun(t)..];
    ParseGroup(t, '\0', 0, false, 0, m, n);
    if s == "" {
      ScanBlank(t, '\0', Zeros(CHUNK));
    } else {
      ScanLead(t, '\0', Zeros(CHUNK));
      ParseGroup(s, '\0', 0, false, 0, m, n);
    }
  }

  lemma Enough(n: nat)
    requires n > 0
    ensures n <= WORD * Longs(n) && CHUNK <= WORD * Longs(n)
  {
  }

  lemma Unstarted(m: Bits)
    requires Value(m) == 0
    ensures Sized(false, 0, m)
  {
  }

  lemma NothingOk()
    ensures !GroupsOk("")
  {
  }
}
