// The shift, the printer and the parser of ulib's bitmaps.
// ulib-svn/src/base/bitmap.c
module Bitmap {
  import opened Probing

  const WORD: nat := 64        // bits per word
  const CHUNK: nat := 32       // bits per group of digits

  // Bits, the least significant one first. A word has 64 of them.
  type Bits = seq<bool>

  function Zeros(n: nat): (b: Bits)
    ensures |b| == n && forall i :: 0 <= i < n ==> !b[i]
  {
    seq(n, _ => false)
  }

  // The lowest n bits; the rest is cleared.
  function Masked(b: Bits, n: nat): (r: Bits)
    ensures |r| == |b| && forall i :: 0 <= i < |b| ==> r[i] == (i < n && b[i])
  {
    seq(|b|, i requires 0 <= i < |b| => i < n && b[i])
  }

  function Or(x: Bits, y: Bits): (r: Bits)
    requires |x| == |y|
    ensures |r| == |x| && forall i :: 0 <= i < |x| ==> r[i] == (x[i] || y[i])
  {
    seq(|x|, i requires 0 <= i < |x| => x[i] || y[i])
  }

  // x << s and x >> s
  function Shl(x: Bits, s: nat): (r: Bits)
    requires s <= |x|
    ensures |r| == |x| && forall i :: 0 <= i < |x| ==> r[i] == (i >= s && x[i - s])
  {
    Zeros(s) + x[..|x| - s]
  }

  function Shr(x: Bits, s: nat): (r: Bits)
    requires s <= |x|
    ensures |r| == |x| && forall i :: 0 <= i < |x| ==> r[i] == (i + s < |x| && x[i + s])
  {
    x[s..] + Zeros(s)
  }

  //
  // Bitmaps in arrays of words.
  //

  ghost predicate Words(ws: seq<Bits>) {
    forall k :: 0 <= k < |ws| ==> |ws[k]| == WORD
  }

  // All bits of the words.
  ghost function Flat(ws: seq<Bits>): Bits
    requires Words(ws)
  {
    seq(WORD * |ws|, i requires 0 <= i < WORD * |ws| => ws[i / WORD][i % WORD])
  }

  // The number of words for n bits.
  function Longs(n: nat): nat {
    (n + WORD - 1) / WORD
  }

  // The bits b, n of them in use, moved up by s.
  ghost function Shifted(b: Bits, s: nat, n: nat): Bits {
    seq(|b|, i requires 0 <= i < |b| => i < n && i >= s && b[i - s])
  }

  // The word that __bitmap_shift_left stores for word k.
  ghost function ShiftedWord(ws: seq<Bits>, s: nat, n: nat, k: nat): (w: Bits)
    requires Words(ws)
    ensures |w| == WORD
  {
    seq(WORD, j requires 0 <= j < WORD =>
      (var i := WORD * k + j; i < n && s <= i < WORD * |ws| + s && ws[(i - s) / WORD][(i - s) % WORD]))
  }

  lemma AllShifted(ws: seq<Bits>, ws': seq<Bits>, s: nat, n: nat)
    requires Words(ws) && |ws'| == |ws| && forall k :: 0 <= k < |ws| ==> ws'[k] == ShiftedWord(ws, s, n, k)
    ensures Words(ws') && Flat(ws') == Shifted(Flat(ws), s, n)
  {
  }

  // __bitmap_shift_left with the same bitmap as source and destination.
  method ShiftLeft(a: array<Bits>, s: nat, n: nat)
    requires Words(a[..]) && a.Length == Longs(n) && s / WORD <= a.Length
    modifies a
    ensures Words(a[..]) && Flat(a[..]) == Shifted(old(Flat(a[..])), s, n)
  {
    hide ShiftedWord, Longs, Flat, Shifted;
    ghost var ws := a[..];
    var lim, left := a.Length, n % WORD;
    var off, rem := s / WORD, s % WORD;
    var k := lim - off - 1;
    while k >= 0
      invariant -1 <= k < lim - off
      invariant forall j :: 0 <= j <= k + off ==> a[j] == ws[j]
      invariant forall j :: k + off < j < lim ==> a[j] == ShiftedWord(ws, s, n, j)
    {
      var lower := if rem > 0 && k > 0 then a[k - 1] else Zeros(WORD);
      var upper := a[k];
      if left > 0 && k == lim - 1 {
        upper := Masked(upper, left);
      }
      var w := Or(Shr(lower, WORD - rem), Shl(upper, rem));
      if left > 0 && k + off == lim - 1 {
        w := Masked(w, left);
      }
      assert w == Joined(ws, s, n, k);
      StoredWord(ws, s, n, k);
      a[k + off] := w;
      k := k - 1;
    }
    for j := 0 to off
      invariant forall i :: 0 <= i < j ==> a[i] == Zeros(WORD)
      invariant forall i :: off <= i < lim ==> a[i] == ShiftedWord(ws, s, n, i)
    {
      a[j] := Zeros(WORD);
    }
    forall j | 0 <= j < lim
      ensures a[j] == ShiftedWord(ws, s, n, j)
    {
      if j < off {
        LowWord(ws, s, n, j);
      }
    }
    AllShifted(ws, a[..], s, n);
  }

  // The two words that make up word k + off.
  ghost function Joined(ws: seq<Bits>, s: nat, n: nat, k: nat): (w: Bits)
    requires Words(ws) && |ws| == Longs(n) && k + s / WORD < |ws|
    ensures |w| == WORD
  {
    var lower := if s % WORD > 0 && k > 0 then ws[k - 1] else Zeros(WORD);
    var upper := if n % WORD > 0 && k == |ws| - 1 then Masked(ws[k], n % WORD) else ws[k];
    var w := Or(Shr(lower, WORD - s % WORD), Shl(upper, s % WORD));
    if n % WORD > 0 && k + s / WORD == |ws| - 1 then Masked(w, n % WORD) else w
  }

  // Bit i of the source ends up at bit j of word k + off.
  lemma SourceOf(s: nat, k: nat, j: nat)
    requires j < WORD
    ensures var i, rem := WORD * (k + s / WORD) + j, s % WORD;
            && i - s == WORD * k + j - rem
            && (j >= rem ==> (i - s) / WORD == k && (i - s) % WORD == j - rem)
            && (j < rem && k > 0 ==> (i - s) / WORD == k - 1 && (i - s) % WORD == WORD + j - rem)
  {
    var i, rem := WORD * (k + s / WORD) + j, s % WORD;
    assert i - s == WORD * k + j - rem;
    if j < rem {
      assert i - s == WORD * (k - 1) + (WORD + j - rem);
    }
  }

  // Where a bitmap of n bits ends.
  lemma LastWord(n: nat, k: nat, j: nat)
    requires k < Longs(n) && j < WORD
    ensures WORD * k + j < n <==> k < Longs(n) - 1 || n % WORD == 0 || j < n % WORD
  {
  }

  lemma StoredWord(ws: seq<Bits>, s: nat, n: nat, k: nat)
    requires Words(ws) && |ws| == Longs(n) && k + s / WORD < |ws|
    ensures Joined(ws, s, n, k) == ShiftedWord(ws, s, n, k + s / WORD)
  {
    hide Longs;
    var w, v := Joined(ws, s, n, k), ShiftedWord(ws, s, n, k + s / WORD);
    forall j | 0 <= j < WORD
      ensures w[j] == v[j]
    {
      SourceOf(s, k, j);
      LastWord(n, k + s / WORD, j);
      if j >= s % WORD {
        LastWord(n, k, j - s % WORD);
      }
    }
  }

  lemma LowWord(ws: seq<Bits>, s: nat, n: nat, k: nat)
    requires Words(ws) && k < s / WORD
    ensures ShiftedWord(ws, s, n, k) == Zeros(WORD)
  {
  }

  //
  // The number that bits stand for.
  //

  ghost function Value(b: Bits): (v: nat)
    ensures v < Pow2(|b|)
  {
    if b == [] then 0 else (if b[0] then 1 else 0) + 2 * Value(b[1..])
  }

  lemma Twice(u: nat, p: nat, v: nat)
    ensures 2 * (u + p * v) == 2 * u + (2 * p) * v
  {
  }

  lemma {:induction false} ValueJoin(x: Bits, y: Bits)
    ensures Value(x + y) == Value(x) + Pow2(|x|) * Value(y)
  {
    if x == [] {
      assert x + y == y;
    } else {
      ValueJoin(x[1..], y);
      assert (x + y)[1..] == x[1..] + y && (x + y)[0] == x[0];
      Twice(Value(x[1..]), Pow2(|x| - 1), Value(y));
    }
  }

  lemma {:induction false} ValueZeros(n: nat)
    ensures Value(Zeros(n)) == 0
  {
    if n > 0 {
      ValueZeros(n - 1);
      assert Zeros(n)[1..] == Zeros(n - 1);
    }
  }

  lemma DivUnique(v: nat, q: nat, r: nat, m: nat)
    requires m > 0 && v == r + m * q && r < m
    ensures v % m == r
  {
    ModUnique(v, q, r, m);
  }

  lemma ValueLow(b: Bits, n: nat)
    requires n <= |b|
    ensures Value(b[..n]) == Value(b) % Pow2(n)
  {
    assert b == b[..n] + b[n..];
    ValueJoin(b[..n], b[n..]);
    DivUnique(Value(b), Value(b[n..]), Value(b[..n]), Pow2(n));
  }

  lemma ValuePadded(s: nat, b: Bits, k: nat)
    ensures Value(b + Zeros(k)) == Value(b) && Value(Zeros(s) + b) == Pow2(s) * Value(b)
  {
    hide Value, Pow2;
    ValueJoin(b, Zeros(k));
    ValueZeros(k);
    ValueJoin(Zeros(s), b);
    ValueZeros(s);
  }

  lemma ShiftedParts(b: Bits, s: nat, n: nat)
    requires n <= |b|
    ensures Shifted(b, s, n) == (Zeros(s) + b)[..n] + Zeros(|b| - n)
  {
  }

  // Shifting left is multiplying by a power of two, modulo the size of the bitmap.
  lemma ShiftMultiplies(b: Bits, s: nat, n: nat)
    requires n <= |b|
    ensures Value(Shifted(b, s, n)) == Pow2(s) * Value(b) % Pow2(n)
  {
    hide Value, Pow2, Shifted;
    var all := Zeros(s) + b;
    ShiftedParts(b, s, n);
    ValuePadded(0, all[..n], |b| - n);
    ValuePadded(s, b, 0);
    ValueLow(all, n);
  }

  //
  // Hexadecimal digits.
  //

  predicate Hex(c: char) {
    '0' <= c <= '9' || 'a' <= c <= 'f' || 'A' <= c <= 'F'
  }

  predicate Space(c: char) {
    c == ' ' || '\t' <= c <= '\r'
  }

  // hex_to_bin.
  function Digit(c: char): (v: nat)
    requires Hex(c)
    ensures v < 16
  {
    if c <= '9' then c as int - '0' as int
    else if c <= 'F' then c as int - 'A' as int + 10
    else c as int - 'a' as int + 10
  }

  function Nibble(v: nat): (b: Bits)
    requires v < 16
    ensures |b| == 4
  {
    [v % 2 == 1, v / 2 % 2 == 1, v / 4 % 2 == 1, v / 8 == 1]
  }

  function DigitOf(b: Bits): (c: char)
    requires |b| == 4
    ensures Hex(c)
  {
    "0123456789abcdef"[(if b[0] then 1 else 0) + (if b[1] then 2 else 0) +
                       (if b[2] then 4 else 0) + (if b[3] then 8 else 0)]
  }

  lemma DigitRoundTrip(b: Bits)
    requires |b| == 4
    ensures Nibble(Digit(DigitOf(b))) == b && !Space(DigitOf(b)) && DigitOf(b) != ',' && DigitOf(b) != '\0'
  {
  }

  //
  // Printing.
  //

  // Bits lo, lo + 1, .. of the bitmap, in a group.
  function Group(b: Bits, n: nat, j: nat): (v: Bits)
    ensures |v| == CHUNK
  {
    seq(CHUNK, i requires 0 <= i < CHUNK => CHUNK * j + i < n && CHUNK * j + i < |b| && b[CHUNK * j + i])
  }

  // The lowest w digits of a group.
  function Digits(v: Bits, w: nat): string
    requires |v| == CHUNK && w <= 8
  {
    if w == 0 then "" else [DigitOf(v[4 * w - 4..4 * w])] + Digits(v, w - 1)
  }

  function Groups(n: nat): nat {
    (n + CHUNK - 1) / CHUNK
  }

  // The number of digits of group j.
  function Width(n: nat, j: nat): (w: nat)
    ensures w <= 8
  {
    if CHUNK * (j + 1) <= n then 8 else if CHUNK * j < n then (n - CHUNK * j + 3) / 4 else 0
  }

  // The text of the groups below j.
  function TextBelow(b: Bits, n: nat, j: nat): string {
    if j == 0 then "" else
      (if j < Groups(n) then "," else "") + Digits(Group(b, n, j - 1), Width(n, j - 1)) + TextBelow(b, n, j - 1)
  }

  function Text(b: Bits, n: nat): string {
    TextBelow(b, n, Groups(n))
  }

  lemma NoText(b: Bits, n: nat, buf: string)
    ensures buf + TextBelow(b, n, 0) == buf
  {
  }

  lemma TextStep(b: Bits, n: nat, j: nat, buf: string)
    requires j > 0
    ensures buf + TextBelow(b, n, j) ==
            buf + (if j < Groups(n) then "," else "") + Digits(Group(b, n, j - 1), Width(n, j - 1)) +
            TextBelow(b, n, j - 1)
  {
    hide Groups, Digits, Group, Width;
    var sep, rest := if j < Groups(n) then "," else "", TextBelow(b, n, j - 1);
    var digits := Digits(Group(b, n, j - 1), Width(n, j - 1));
    assert buf + (sep + digits + rest) == buf + sep + digits + rest;
  }

  // Where bit i of group j is.
  lemma GroupIndex(n: nat, j: nat, i: nat)
    requires i < CHUNK
    ensures (CHUNK * j + i) / WORD == j / 2 && (CHUNK * j + i) % WORD == CHUNK * (j % 2) + i
    ensures CHUNK * j < n ==> j / 2 < Longs(n)
  {
    assert CHUNK * j + i == WORD * (j / 2) + (CHUNK * (j % 2) + i);
  }

  // Group j as bitmap_snprintf reads it.
  function GroupOf(ws: seq<Bits>, j: nat, size: nat): Bits
    requires Words(ws) && j / 2 < |ws|
  {
    Masked(Shr(ws[j / 2], CHUNK * (j % 2))[..CHUNK], size)
  }

  lemma PrintedGroup(ws: seq<Bits>, n: nat, j: nat, size: nat)
    requires Words(ws) && |ws| == Longs(n) && CHUNK * j < n && j / 2 < |ws|
    requires size == if CHUNK * (j + 1) > n then n - CHUNK * j else CHUNK
    ensures GroupOf(ws, j, size) == Group(Flat(ws), n, j) && (size + 3) / 4 == Width(n, j)
  {
    var val, g := GroupOf(ws, j, size), Group(Flat(ws), n, j);
    forall i | 0 <= i < CHUNK
      ensures val[i] == g[i]
    {
      GroupIndex(n, j, i);
    }
  }

  // The digits of the group at bit i.
  method PrintGroup(a: array<Bits>, n: nat, i: nat, size: nat, ghost j: nat) returns (digits: string)
    requires Words(a[..]) && a.Length == Longs(n) && i == CHUNK * j < n
    requires size == if CHUNK * (j + 1) > n then n - CHUNK * j else CHUNK
    ensures digits == Digits(Group(Flat(a[..]), n, j), Width(n, j))
  {
    hide Longs, Flat, Digits, Width, Group;
    GroupIndex(n, j, 0);
    PrintedGroup(a[..], n, j, size);
    var word, bit := i / WORD, i % WORD;
    var val := Masked(Shr(a[word], bit)[..CHUNK], size);
    digits := Digits(val, (size + 3) / 4);
  }

  lemma TopGroup(n: nat)
    ensures var i, j := (n + CHUNK - 1) / CHUNK * CHUNK - CHUNK, Groups(n);
            && i == CHUNK * (j - 1)
            && (j > 0 ==> i < n)
            && (j > 0 ==> (if n % CHUNK == 0 then CHUNK else n % CHUNK) == if CHUNK * j > n then n - i else CHUNK)
  {
  }

  // bitmap_snprintf, for a buffer that holds the text.
  method Snprintf(a: array<Bits>, n: nat) returns (buf: string)
    requires Words(a[..]) && a.Length == Longs(n)
    ensures buf == Text(Flat(a[..]), n)
  {
    hide Longs, Words, Digits, Flat, Group, Width, Groups, TextBelow;
    var chunksz := if n % CHUNK == 0 then CHUNK else n % CHUNK;
    var i := (n + CHUNK - 1) / CHUNK * CHUNK - CHUNK;
    ghost var b, j := Flat(a[..]), Groups(n);
    TopGroup(n);
    var sep := "";
    buf := "";
    while i >= 0
      invariant j >= 0 && i == CHUNK * (j - 1) && j <= Groups(n)
      invariant buf + TextBelow(b, n, j) == Text(b, n)
      invariant sep == if j < Groups(n) then "," else ""
      invariant j > 0 ==> i < n && chunksz == if CHUNK * j > n then n - i else CHUNK
      decreases i + CHUNK
    {
      var digits := PrintGroup(a, n, i, chunksz, j - 1);
      TextStep(b, n, j, buf);
      buf := buf + sep + digits;
      chunksz, sep, i := CHUNK, ",", i - CHUNK;
      j := j - 1;
    }
    NoText(b, n, buf);
  }

  //
  // Parsing.
  //

  datatype Status = Ok | Invalid | Overflow

  datatype Parsed = Good(mask: Bits) | Bad(why: Status)

  // One group of digits: its bits, the number of its digits, the last character read and the rest.
  datatype Scanned = Scanned(v: Bits, digits: nat, c: char, rest: string) | Failed(why: Status)

  // The group that text starts with, of which some digits have been read before; c is the character
  // before text, and total counts the digits of all groups.
  function Scan(text: string, c: char, total: nat, v: Bits, digits: nat): (r: Scanned)
    requires |v| == CHUNK
    ensures r.Scanned? ==> |r.v| == CHUNK && |r.rest| <= |text| && (text != "" ==> |r.rest| < |text|)
    ensures r.Failed? ==> !r.why.Ok?
  {
    if text == "" then Scanned(v, digits, c, "")
    else if Space(text[0]) then Scan(text[1..], text[0], total, v, digits)
    else if total > 0 && text[0] != '\0' && Space(c) then Failed(Invalid)
    else if text[0] == '\0' || text[0] == ',' then Scanned(v, digits, text[0], text[1..])
    else if !Hex(text[0]) then Failed(Invalid)
    else if v[28..] != Zeros(4) then Failed(Overflow)
    else Scan(text[1..], text[0], total + 1, Nibble(Digit(text[0])) + v[..28], digits + 1)
  }

  // fls32: the number of the highest bit set, counted from 1.
  function Fls(v: Bits): (r: nat)
    ensures r <= |v| && (r > 0 ==> v[r - 1]) && forall i :: r <= i < |v| ==> !v[i]
  {
    if v == [] then 0 else if v[|v| - 1] then |v| else Fls(v[..|v| - 1])
  }

  // The mask with another group below.
  function ShiftIn(m: Bits, v: Bits, n: nat): (r: Bits)
    requires |v| == CHUNK
    ensures |r| == |m|
  {
    seq(|m|, i requires 0 <= i < |m| => if i < CHUNK then v[i] else i < n && m[i - CHUNK])
  }

  // What __bitmap_parse makes of the rest of a text, when the groups so far have given m.
  function Parse(text: string, c: char, total: nat, started: bool, nbits: nat, m: Bits, n: nat): Parsed
    decreases |text|
  {
    var r := Scan(text, c, total, Zeros(CHUNK), 0);
    if r.Failed? then Bad(r.why)
    else if r.digits == 0 then Bad(Invalid)
    else if !started && r.v == Zeros(CHUNK) then
      if r.rest != "" && r.c == ',' then Parse(r.rest, r.c, total + r.digits, started, nbits, m, n) else Good(m)
    else
      var m' := ShiftIn(m, r.v, n);
      var nbits' := nbits + if started then CHUNK else Fls(r.v);
      if nbits' > n then Bad(Overflow)
      else if r.rest != "" && r.c == ',' then Parse(r.rest, r.c, total + r.digits, true, nbits', m', n)
      else Good(m')
  }

  // The inner loop of __bitmap_parse; i is the place in the text.
  method ScanGroup(text: string, i0: nat, c0: char, total0: nat)
    returns (why: Status, v: Bits, digits: nat, i: nat, c: char)
    requires i0 <= |text|
    ensures i0 <= i <= |text|
    ensures var r := Scan(text[i0..], c0, total0, Zeros(CHUNK), 0);
            if r.Failed? then why == r.why else why.Ok? && r == Scanned(v, digits, c, text[i..])
  {
    why, v, digits, i, c := Ok, Zeros(CHUNK), 0, i0, c0;
    while i < |text|
      invariant i0 <= i <= |text| && |v| == CHUNK && why.Ok?
      invariant Scan(text[i0..], c0, total0, Zeros(CHUNK), 0) == Scan(text[i..], c, total0 + digits, v, digits)
      decreases |text| - i
    {
      var was := c;
      assert text[i..][0] == text[i] && text[i..][1..] == text[i + 1..];
      c, i := text[i], i + 1;
      if Space(c) {
        continue;
      }
      if total0 + digits > 0 && c != '\0' && Space(was) {
        why := Invalid;
        return;
      }
      if c == '\0' || c == ',' {
        return;
      }
      if !Hex(c) {
        why := Invalid;
        return;
      }
      if v[28..] != Zeros(4) {
        why := Overflow;
        return;
      }
      v, digits := Nibble(Digit(c)) + v[..28], digits + 1;
    }
  }

  // The group enters the bitmap.
  method PushGroup(a: array<Bits>, v: Bits, n: nat)
    requires Words(a[..]) && a.Length == Longs(n) && n > 0 && |v| == CHUNK
    modifies a
    ensures Words(a[..]) && Flat(a[..]) == ShiftIn(old(Flat(a[..])), v, n)
  {
    ghost var b := Flat(a[..]);
    ShiftLeft(a, CHUNK, n);
    ghost var ws := a[..];
    a[0] := Or(a[0], v + Zeros(WORD - CHUNK));
    OredLow(ws, a[..], v, b, n);
  }

  lemma OredLow(ws: seq<Bits>, ws': seq<Bits>, v: Bits, b: Bits, n: nat)
    requires Words(ws) && |ws| > 0 && |v| == CHUNK && ws' == ws[0 := Or(ws[0], v + Zeros(WORD - CHUNK))]
    requires |b| == WORD * |ws| && Flat(ws) == Shifted(b, CHUNK, n)
    ensures Words(ws') && Flat(ws') == ShiftIn(b, v, n)
  {
    var r, f, f' := ShiftIn(b, v, n), Flat(ws), Flat(ws');
    forall i | 0 <= i < WORD * |ws|
      ensures f'[i] == r[i]
    {
      assert f[i] == Shifted(b, CHUNK, n)[i];
      assert i / WORD == 0 <==> i < WORD;
    }
  }

  // Enters a group, unless it is a leading group of zeros, and counts the bits.
  method TakeGroup(a: array<Bits>, v: Bits, n: nat, started: bool, nbits: nat) returns (started': bool, nbits': nat)
    requires Words(a[..]) && a.Length == Longs(n) && n > 0 && |v| == CHUNK
    modifies a
    ensures Words(a[..]) && started' == (started || v != Zeros(CHUNK))
    ensures nbits' == if !started' then nbits else nbits + if started then CHUNK else Fls(v)
    ensures Flat(a[..]) == if !started' then old(Flat(a[..])) else ShiftIn(old(Flat(a[..])), v, n)
  {
    hide Words, Flat, ShiftIn, Longs;
    started', nbits' := started, nbits;
    if started || v != Zeros(CHUNK) {
      PushGroup(a, v, n);
      nbits', started' := nbits + if started then CHUNK else Fls(v), true;
    }
  }

  // Parsing one group and going on.
  lemma ParseGroup(text: string, c: char, total: nat, started: bool, nbits: nat, m: Bits, n: nat)
    ensures var p, r := Parse(text, c, total, started, nbits, m, n), Scan(text, c, total, Zeros(CHUNK), 0);
            if r.Failed? then p == Bad(r.why)
            else if r.digits == 0 then p == Bad(Invalid)
            else
              var skip := !started && r.v == Zeros(CHUNK);
              var m' := if skip then m else ShiftIn(m, r.v, n);
              var nbits' := if skip then nbits else nbits + if started then CHUNK else Fls(r.v);
              if !skip && nbits' > n then p == Bad(Overflow)
              else if r.rest != "" && r.c == ',' then p == Parse(r.rest, r.c, total + r.digits, !skip, nbits', m', n)
              else p == Good(m')
  {
  }

  // bitmap_zero.
  method Clear(a: array<Bits>, n: nat)
    requires a.Length == Longs(n)
    modifies a
    ensures Words(a[..]) && Flat(a[..]) == Zeros(WORD * Longs(n))
  {
    for k := 0 to a.Length
      invariant forall j :: 0 <= j < k ==> a[j] == Zeros(WORD)
    {
      a[k] := Zeros(WORD);
    }
  }

  // Where __bitmap_parse is: the place in the text, the character before it, and what it counts.
  datatype Place = Place(i: nat, c: char, total: nat, started: bool, nbits: nat)

  // What parsing from here gives.
  ghost function From(text: string, at: Place, m: Bits, n: nat): Parsed
    requires at.i <= |text|
  {
    Parse(text[at.i..], at.c, at.total, at.started, at.nbits, m, n)
  }

  // The loop body of __bitmap_parse.
  method ParseOne(a: array<Bits>, text: string, n: nat, at: Place) returns (done: bool, r: Status, next: Place)
    requires Words(a[..]) && a.Length == Longs(n) && n > 0 && at.i <= |text|
    modifies a
    ensures Words(a[..]) && at.i <= next.i <= |text|
    ensures done ==> From(text, at, old(Flat(a[..])), n) == if r.Ok? then Good(Flat(a[..])) else Bad(r)
    ensures !done ==> at.i < next.i && From(text, at, old(Flat(a[..])), n) == From(text, next, Flat(a[..]), n)
  {
    hide Words, Flat, Fls, ShiftIn, Longs, Parse, Scan;
    ParseGroup(text[at.i..], at.c, at.total, at.started, at.nbits, Flat(a[..]), n);
    var why, v, digits, i, c := ScanGroup(text, at.i, at.c, at.total);
    done, r, next := true, why, at.(i := i, c := c, total := at.total + digits);
    if why.Ok? {
      if digits == 0 {
        return true, Invalid, next;
      }
      var started, nbits := TakeGroup(a, v, n, at.started, at.nbits);
      next := next.(started := started, nbits := nbits);
      if started && nbits > n {
        return true, Overflow, next;
      }
      done := i == |text| || c != ',';
    }
  }

  // __bitmap_parse.
  method ParseInto(a: array<Bits>, text: string, n: nat) returns (r: Status)
    requires a.Length == Longs(n) && n > 0
    modifies a
    ensures Words(a[..])
    ensures Parse(text, '\0', 0, false, 0, Zeros(WORD * Longs(n)), n) == if r.Ok? then Good(Flat(a[..])) else Bad(r)
    ensures r.Ok? ==> Value(Flat(a[..])) == Number(text, 0, 0) < Pow2(n)
  {
    hide Words, Flat, Longs, From, Value, Number, Pow2;
    Clear(a, n);
    var at, done := Place(0, '\0', 0, false, 0), false;
    ghost var goal := From(text, at, Flat(a[..]), n);
    FromStart(text, Flat(a[..]), n);
    r := Ok;
    while !done
      invariant at.i <= |text| && Words(a[..])
      invariant goal == if !done then From(text, at, Flat(a[..]), n) else if r.Ok? then Good(Flat(a[..])) else Bad(r)
      decreases !done, |text| - at.i
    {
      done, r, at := ParseOne(a, text, n, at);
    }
    ParsedNumber(text, n);
  }

  lemma FromStart(text: string, m: Bits, n: nat)
    ensures From(text, Place(0, '\0', 0, false, 0), m, n) == Parse(text, '\0', 0, false, 0, m, n)
  {
    assert text[0..] == text;
  }

  //
  // Parsing what has been printed.
  //

  lemma ScanOne(x: char, rest: string, c: char, total: nat, u: Bits, d: nat)
    requires Hex(x) && !Space(x) && x != ',' && x != '\0' && !Space(c) && |u| == CHUNK && u[28..] == Zeros(4)
    ensures Scan([x] + rest, c, total, u, d) == Scan(rest, x, total + 1, Nibble(Digit(x)) + u[..28], d + 1)
  {
    assert ([x] + rest)[1..] == rest;
  }

  lemma ScanEnd(rest: string, c: char, total: nat, v: Bits, d: nat)
    requires |v| == CHUNK && !Space(c)
    ensures Scan("", c, total, v, d) == Scanned(v, d, c, "")
    ensures Scan("," + rest, c, total, v, d) == Scanned(v, d, ',', rest)
  {
    assert ("," + rest)[1..] == rest;
  }

  lemma ShrStep(v: Bits, w: nat)
    requires |v| == CHUNK && 0 < w <= 8
    ensures Shr(v, 4 * w)[28..] == Zeros(4) && v[4 * w - 4..4 * w] + Shr(v, 4 * w)[..28] == Shr(v, 4 * (w - 1))
  {
  }

  lemma {:induction false} ScanDigits(v: Bits, w: nat, tail: string, c: char, total: nat, d: nat) returns (c': char)
    requires |v| == CHUNK && w <= 8 && !Space(c)
    ensures !Space(c') && (w == 0 ==> c' == c) && (w > 0 ==> c' != ',')
    ensures Scan(Digits(v, w) + tail, c, total, Shr(v, 4 * w), d) == Scan(tail, c', total + w, v, d + w)
  {
    hide Scan, DigitOf, Digit, Nibble, Hex, Space, Shr;
    if w == 0 {
      assert Digits(v, w) + tail == tail && Shr(v, 0) == v;
      c' := c;
    } else {
      var nib := v[4 * w - 4..4 * w];
      var x := DigitOf(nib);
      DigitRoundTrip(nib);
      ShrStep(v, w);
      assert Digits(v, w) + tail == [x] + (Digits(v, w - 1) + tail);
      ScanOne(x, Digits(v, w - 1) + tail, c, total, Shr(v, 4 * w), d);
      c' := ScanDigits(v, w - 1, tail, x, total + 1, d + 1);
    }
  }

  // The bits above group j, moved down.
  ghost function High(b: Bits, n: nat, j: nat): Bits {
    seq(|b|, i requires 0 <= i < |b| => CHUNK * j + i < n && CHUNK * j + i < |b| && b[CHUNK * j + i])
  }

  // The text of the groups below j, without a comma in front.
  function Body(b: Bits, n: nat, j: nat): string
    requires j > 0
  {
    Digits(Group(b, n, j - 1), Width(n, j - 1)) + TextBelow(b, n, j - 1)
  }

  // The first group of the text.
  lemma ScanBody(b: Bits, n: nat, j: nat, c: char, total: nat)
    requires 0 < j <= Groups(n) && !Space(c)
    ensures var r := Scan(Body(b, n, j), c, total, Zeros(CHUNK), 0);
            && r.Scanned? && r.v == Group(b, n, j - 1) && r.digits > 0
            && (r.rest != "" && r.c == ',' <==> j > 1) && (j > 1 ==> r.rest == Body(b, n, j - 1))
  {
    hide Scan, Group, Width, Digits, Groups, Shr, Space, TextBelow;
    var v, w := Group(b, n, j - 1), Width(n, j - 1);
    NarrowGroup(b, n, j - 1);
    var c' := ScanDigits(v, w, TextBelow(b, n, j - 1), c, total, 0);
    if j > 1 {
      BodyStarts(b, n, j - 1);
      hide Body;
      ScanEnd(Body(b, n, j - 1), c', total + w, v, w);
    } else {
      NoText(b, n, "");
      ScanEnd("", c', total + w, v, w);
    }
  }

  // A group has no bits above its digits.
  lemma NarrowGroup(b: Bits, n: nat, j: nat)
    requires j < Groups(n)
    ensures CHUNK * j < n && Width(n, j) > 0 && Shr(Group(b, n, j), 4 * Width(n, j)) == Zeros(CHUNK)
  {
  }

  lemma BodyStarts(b: Bits, n: nat, j: nat)
    requires 0 < j <= Groups(n)
    ensures Body(b, n, j) != "" && (j < Groups(n) ==> TextBelow(b, n, j) == "," + Body(b, n, j))
  {
    NarrowGroup(b, n, j - 1);
    hide Groups, Group, Width;
    var digits, rest := Digits(Group(b, n, j - 1), Width(n, j - 1)), TextBelow(b, n, j - 1);
    assert "," + digits + rest == "," + (digits + rest);
  }

  lemma HighStep(b: Bits, n: nat, j: nat)
    requires j > 0
    ensures ShiftIn(High(b, n, j), Group(b, n, j - 1), n) == High(b, n, j - 1)
    ensures High(b, n, j) == Zeros(|b|) && Group(b, n, j - 1) == Zeros(CHUNK) ==> High(b, n, j - 1) == Zeros(|b|)
    ensures CHUNK * (j - 1) <= n ==> CHUNK * (j - 1) + Fls(Group(b, n, j - 1)) <= n
  {
  }

  lemma NoSpace()
    ensures !Space(',')
  {
  }

  lemma HighIsAll(b: Bits, n: nat)
    ensures High(b, n, 0) == Masked(b, n)
  {
  }

  lemma {:induction false} ParseBody(b: Bits, n: nat, j: nat, c: char, total: nat, started: bool, nbits: nat)
    requires |b| == WORD * Longs(n) && 0 < j <= Groups(n) && !Space(c)
    requires if started then nbits + CHUNK * j <= n else nbits == 0 && High(b, n, j) == Zeros(|b|)
    ensures Parse(Body(b, n, j), c, total, started, nbits, High(b, n, j), n) == Good(Masked(b, n))
    decreases j
  {
    hide Scan, Group, Fls, Body, Groups, High, Longs, Space;
    ScanBody(b, n, j, c, total);
    HighStep(b, n, j);
    NarrowGroup(b, n, j - 1);
    var r := Scan(Body(b, n, j), c, total, Zeros(CHUNK), 0);
    assert j > 1 ==> !Space(r.c) by {
      NoSpace();
    }
    var skip := !started && r.v == Zeros(CHUNK);
    var nbits' := if skip then 0 else nbits + if started then CHUNK else Fls(r.v);
    if j == 1 {
      HighIsAll(b, n);
    } else {
      ParseBody(b, n, j - 1, r.c, total + r.digits, !skip, nbits');
    }
  }

  // Parsing the text of a bitmap gives back exactly its bits.
  lemma ParseText(b: Bits, n: nat)
    requires |b| == WORD * Longs(n) && n > 0
    ensures Parse(Text(b, n), '\0', 0, false, 0, Zeros(|b|), n) == Good(Masked(b, n))
  {
    var j := Groups(n);
    assert Text(b, n) == Body(b, n, j);
    assert High(b, n, j) == Zeros(|b|);
    ParseBody(b, n, j, '\0', 0, false, 0);
  }

  // Printing a bitmap and parsing the text into another one copies it.
  method PrintAndParse(a: array<Bits>, a': array<Bits>, n: nat) returns (r: Status)
    requires Words(a[..]) && a.Length == a'.Length == Longs(n) && n > 0 && a != a'
    modifies a'
    ensures r.Ok? && Words(a'[..]) && Flat(a'[..]) == Masked(Flat(a[..]), n)
  {
    var text := Snprintf(a, n);
    r := ParseInto(a', text, n);
    ParseText(Flat(a[..]), n);
  }

  //
  // The number that a text writes: groups of 32 bits, the most significant one first.
  //

  ghost function Number(text: string, high: nat, group: nat): nat {
    if text == "" || text[0] == '\0' then high * Pow2(CHUNK) + group
    else if text[0] == ',' then
      if text[1..] == "" then high * Pow2(CHUNK) + group else Number(text[1..], high * Pow2(CHUNK) + group, 0)
    else if Hex(text[0]) then Number(text[1..], high, 16 * group + Digit(text[0]))
    else Number(text[1..], high, group)
  }

  lemma NibbleValue(d: nat, v: Bits)
    requires d < 16 && |v| == CHUNK && v[28..] == Zeros(4)
    ensures Value(Nibble(d) + v[..28]) == 16 * Value(v) + d
  {
    FourBits(d);
    hide Value, Pow2, Nibble;
    ValueJoin(Nibble(d), v[..28]);
    assert v == v[..28] + Zeros(4);
    ValuePadded(0, v[..28], 4);
  }

  lemma FourBits(d: nat)
    requires d < 16
    ensures Value(Nibble(d)) == d && Pow2(4) == 16
  {
    var b := Nibble(d);
    assert Value(b) == (if b[0] then 1 else 0) + 2 * Value(b[1..]);
    assert b[1..] == [b[1], b[2], b[3]] && b[1..][1..] == [b[2], b[3]];
    assert [b[2], b[3]][1..] == [b[3]] && [b[3]][1..] == [];
    assert Value([b[3]]) == if b[3] then 1 else 0;
    assert Value([b[2], b[3]]) == (if b[2] then 1 else 0) + 2 * Value([b[3]]);
    assert Pow2(2) == 4;
  }

  // The group r has been read, high has been written before it, and x is what the whole text writes.
  ghost predicate Reads(r: Scanned, high: nat, x: nat)
    requires r.Scanned?
  {
    var y := high * Pow2(CHUNK) + Value(r.v);
    x == if r.rest != "" && r.c == ',' then Number(r.rest, y, 0) else y
  }

  lemma {:induction false} ScanMeans(text: string, c: char, total: nat, v: Bits, d: nat, high: nat)
    requires |v| == CHUNK
    ensures var r := Scan(text, c, total, v, d);
            r.Scanned? ==> Reads(r, high, Number(text, high, Value(v)))
    decreases |text|
  {
    hide Value, Pow2, Nibble, Digit, Space, Hex;
    if text != "" {
      if Space(text[0]) {
        NotHex(text[0]);
        ScanMeans(text[1..], text[0], total, v, d, high);
      } else if Hex(text[0]) && v[28..] == Zeros(4) {
        HexOnly(text[0]);
        NibbleValue(Digit(text[0]), v);
        ScanMeans(text[1..], text[0], total + 1, Nibble(Digit(text[0])) + v[..28], d + 1, high);
      }
    }
  }

  lemma NotHex(c: char)
    requires Space(c)
    ensures !Hex(c) && c != ',' && c != '\0'
  {
  }

  lemma HexOnly(c: char)
    requires Hex(c)
    ensures !Space(c) && c != ',' && c != '\0'
  {
  }

  lemma {:induction false} PowOrder(i: nat, j: nat)
    requires i <= j
    ensures Pow2(i) <= Pow2(j)
  {
    if i < j {
      PowOrder(i, j - 1);
    }
  }

  lemma NoMultiple(x: nat, p: nat, h: nat)
    requires x + p * h < p
    ensures h == 0
  {
    MulBounds(h, p);
  }

  // A number below a power of two has no higher bits.
  lemma HighZero(m: Bits, k: nat)
    requires k <= |m| && Value(m) < Pow2(k)
    ensures m == m[..k] + Zeros(|m| - k)
  {
    hide Value, Pow2;
    var low, high := m[..k], m[k..];
    assert m == low + high;
    ValueJoin(low, high);
    NoMultiple(Value(low), Pow2(k), Value(high));
    NoBits(high);
  }

  lemma {:induction false} NoBits(m: Bits)
    requires Value(m) == 0
    ensures m == Zeros(|m|)
  {
    if m != [] {
      NoBits(m[1..]);
      assert m == [false] + m[1..];
    }
  }

  lemma FlsBounds(v: Bits)
    ensures Value(v) < Pow2(Fls(v))
  {
    var k := Fls(v);
    assert v == v[..k] + Zeros(|v| - k);
    ValuePadded(0, v[..k], |v| - k);
  }

  lemma ShiftInLow(m: Bits, v: Bits, n: nat, nbits: nat)
    requires |v| == CHUNK && n <= |m| && nbits + CHUNK <= n && m == m[..nbits] + Zeros(|m| - nbits)
    ensures ShiftIn(m, v, n) == (v + m[..nbits]) + Zeros(|m| - CHUNK - nbits)
  {
    assert forall i :: nbits <= i < |m| ==> !m[i];
  }

  lemma FirstGroupValue(m: Bits, v: Bits, n: nat)
    requires |v| == CHUNK <= |m| && Value(m) == 0
    ensures Value(ShiftIn(m, v, n)) == Value(v)
  {
    NoBits(m);
    hide Value;
    assert ShiftIn(m, v, n) == v + Zeros(|m| - CHUNK);
    ValuePadded(0, v, |m| - CHUNK);
  }

  lemma NextGroupValue(m: Bits, v: Bits, n: nat, nbits: nat)
    requires |v| == CHUNK && n <= |m| && Value(m) < Pow2(nbits) && nbits + CHUNK <= n
    ensures Value(ShiftIn(m, v, n)) == Value(v) + Pow2(CHUNK) * Value(m)
  {
    hide Value, Pow2, ShiftIn;
    var low := m[..nbits];
    HighZero(m, nbits);
    ShiftInLow(m, v, n, nbits);
    ValuePadded(0, v + low, |m| - CHUNK - nbits);
    ValueJoin(v, low);
    ValuePadded(0, low, |m| - nbits);
  }

  // No bit is lost as long as the bits fit.
  lemma ShiftInValue(m: Bits, v: Bits, n: nat, nbits: nat)
    requires |v| == CHUNK && n <= |m| && CHUNK <= |m| && Value(m) < Pow2(nbits)
    requires Value(m) == 0 || nbits + CHUNK <= n
    ensures Value(ShiftIn(m, v, n)) == Value(m) * Pow2(CHUNK) + Value(v)
  {
    hide Value, Pow2, ShiftIn;
    if Value(m) == 0 {
      FirstGroupValue(m, v, n);
    } else {
      NextGroupValue(m, v, n, nbits);
    }
  }

  lemma NextBits(m: Bits, v: Bits, nbits: nat)
    requires |v| == CHUNK && Value(m) < Pow2(nbits)
    ensures Value(m) * Pow2(CHUNK) + Value(v) < Pow2(nbits + CHUNK)
  {
    PowSum(nbits, CHUNK);
    Below(Value(m), Pow2(nbits), Pow2(CHUNK));
  }

  lemma Below(x: nat, p: nat, q: nat)
    requires x < p
    ensures x * q + q <= p * q
  {
    assert p * q == x * q + (p - x) * q && (p - x - 1) * q >= 0;
    assert (p - x) * q == (p - x - 1) * q + q;
  }

  lemma {:induction false} PowSum(i: nat, j: nat)
    ensures Pow2(i + j) == Pow2(i) * Pow2(j)
  {
    if i > 0 {
      PowSum(i - 1, j);
      Twice(0, Pow2(i - 1), Pow2(j));
    }
  }

  // A bitmap with at most nbits bits; nothing has been read into it before it was started.
  ghost predicate Fits(started: bool, nbits: nat, m: Bits) {
    Value(m) < Pow2(nbits) && (!started ==> Value(m) == 0 && nbits == 0)
  }

  // The group v enters a bitmap of n bits.
  lemma GroupEnters(started: bool, nbits: nat, m: Bits, v: Bits, n: nat)
    requires |v| == CHUNK <= |m| && nbits <= n <= |m| && Fits(started, nbits, m)
    requires nbits + (if started then CHUNK else Fls(v)) <= n
    ensures var m', nbits' := ShiftIn(m, v, n), nbits + if started then CHUNK else Fls(v);
            Fits(true, nbits', m') && Value(m') == Value(m) * Pow2(CHUNK) + Value(v) < Pow2(n)
  {
    hide Value, Pow2, Fls, ShiftIn;
    ShiftInValue(m, v, n, nbits);
    NextBits(m, v, nbits);
    FlsBounds(v);
    PowOrder(nbits + if started then CHUNK else Fls(v), n);
  }

  lemma NothingEntered(nbits: nat, m: Bits, n: nat)
    requires nbits <= n && Fits(false, nbits, m)
    ensures Value(m) * Pow2(CHUNK) + 0 == Value(m) == 0 < Pow2(n)
  {
  }

  // If parsing succeeds, the bitmap holds the number that the text writes.
  lemma {:induction false} ParseMeans(text: string, c: char, total: nat, started: bool, nbits: nat, m: Bits, n: nat)
    requires nbits <= n <= |m| && CHUNK <= |m| && Fits(started, nbits, m)
    ensures var p := Parse(text, c, total, started, nbits, m, n);
            p.Good? ==> |p.mask| == |m| && Value(p.mask) == Number(text, Value(m), 0) < Pow2(n)
    decreases |text|
  {
    hide Scan, Number, Value, Pow2, Fls, ShiftIn, Parse, Fits;
    ParseGroup(text, c, total, started, nbits, m, n);
    var r := Scan(text, c, total, Zeros(CHUNK), 0);
    ScanMeans(text, c, total, Zeros(CHUNK), 0, Value(m));
    ValueZeros(CHUNK);
    if r.Scanned? && r.digits > 0 {
      var goes := r.rest != "" && r.c == ',';
      if !started && r.v == Zeros(CHUNK) {
        NothingEntered(nbits, m, n);
        if goes {
          ParseMeans(r.rest, r.c, total + r.digits, started, nbits, m, n);
        }
      } else {
        var nbits' := nbits + if started then CHUNK else Fls(r.v);
        if nbits' <= n {
          GroupEnters(started, nbits, m, r.v, n);
          if goes {
            ParseMeans(r.rest, r.c, total + r.digits, true, nbits', ShiftIn(m, r.v, n), n);
          }
        }
      }
    }
  }

  lemma ParsedNumber(text: string, n: nat)
    requires n > 0
    ensures var p := Parse(text, '\0', 0, false, 0, Zeros(WORD * Longs(n)), n);
            p.Good? ==> Value(p.mask) == Number(text, 0, 0) < Pow2(n)
  {
    hide Number, Parse;
    ValueZeros(WORD * Longs(n));
    ParseMeans(text, '\0', 0, false, 0, Zeros(WORD * Longs(n)), n);
  }
}
