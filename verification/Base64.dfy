/**
 The Base64 gate of the lyric service against section 4 of RFC 4648: what the decoder
 computes with 32-bit arithmetic, and exactly which texts the validator lets through.
 */
module Base64 {
  import opened Counting

  type Byte = x: int | 0 <= x < 256
  type Sextet = x: int | 0 <= x < 64

  const PAD: Byte := 61  // '='

  // ------------------------------------------------------------- alphabet

  /** The code's Base64Value: -1 for a character outside the alphabet. */
  function Value(c: Byte): (v: int)
    ensures -1 <= v < 64
  {
    if 65 <= c <= 90 then c - 65
    else if 97 <= c <= 122 then c - 97 + 26
    else if 48 <= c <= 57 then c - 48 + 52
    else if c == 43 then 62
    else if c == 47 then 63
    else -1
  }

  /** Table 1 of RFC 4648. */
  function Letter(v: Sextet): Byte {
    if v < 26 then 65 + v
    else if v < 52 then 97 + (v - 26)
    else if v < 62 then 48 + (v - 52)
    else if v == 62 then 43
    else 47
  }

  predicate IsSpace(c: Byte) { c == 32 || 9 <= c <= 13 }

  lemma LetterValue(v: Sextet)
    ensures Value(Letter(v)) == v && Letter(v) != PAD && !IsSpace(Letter(v))
  {
  }

  lemma ValueLetter(c: Byte)
    requires Value(c) >= 0
    ensures Letter(Value(c)) == c && c != PAD && !IsSpace(c)
  {
  }

  // ------------------------------------------------- groups (section 4)

  // Three bytes are four 6-bit groups; these are the ways a bit string is cut up and joined.

  function Cut0(a: int): Sextet requires 0 <= a < 256 { a / 4 }

  function Cut1(a: int, b: int): Sextet requires 0 <= a < 256 && 0 <= b < 256 { a % 4 * 16 + b / 16 }

  function Cut2(b: int, c: int): Sextet requires 0 <= b < 256 && 0 <= c < 256 { b % 16 * 4 + c / 64 }

  function Cut3(c: int): Sextet requires 0 <= c < 256 { c % 64 }

  function Join0(p: int, q: int): Byte requires 0 <= p < 64 && 0 <= q < 64 { p * 4 + q / 16 }

  function Join1(q: int, r: int): Byte requires 0 <= q < 64 && 0 <= r < 64 { q % 16 * 16 + r / 4 }

  function Join2(r: int, t: int): Byte requires 0 <= r < 64 && 0 <= t < 64 { r % 4 * 64 + t }

  /** The 6-bit groups of a byte string, the last one filled up with zero bits. */
  function Sextets(b: seq<Byte>): seq<Sextet> {
    if |b| == 0 then []
    else if |b| == 1 then [Cut0(b[0]), Cut1(b[0], 0)]
    else if |b| == 2 then [Cut0(b[0]), Cut1(b[0], b[1]), Cut2(b[1], 0)]
    else [Cut0(b[0]), Cut1(b[0], b[1]), Cut2(b[1], b[2]), Cut3(b[2])] + Sextets(b[3..])
  }

  /** The whole bytes that 6-bit groups spell; left-over bits are dropped. */
  function Bytes(d: seq<Sextet>): seq<Byte> {
    if |d| < 2 then []
    else if |d| == 2 then [Join0(d[0], d[1])]
    else if |d| == 3 then [Join0(d[0], d[1]), Join1(d[1], d[2])]
    else [Join0(d[0], d[1]), Join1(d[1], d[2]), Join2(d[2], d[3])] + Bytes(d[4..])
  }

  lemma Parts4(h: int, l: int)
    requires 0 <= l < 4
    ensures (h * 4 + l) / 4 == h && (h * 4 + l) % 4 == l
  {
  }

  lemma Parts16(h: int, l: int)
    requires 0 <= l < 16
    ensures (h * 16 + l) / 16 == h && (h * 16 + l) % 16 == l
  {
  }

  lemma Parts64(h: int, l: int)
    requires 0 <= l < 64
    ensures (h * 64 + l) / 64 == h && (h * 64 + l) % 64 == l
  {
  }

  lemma CutJoin(a: Byte, b: Byte, c: Byte)
    ensures Join0(Cut0(a), Cut1(a, b)) == a
    ensures Join1(Cut1(a, b), Cut2(b, c)) == b
    ensures Join2(Cut2(b, c), Cut3(c)) == c
    ensures Cut1(a, 0) % 16 == 0 && Cut2(b, 0) % 4 == 0
  {
    Parts16(a % 4, b / 16);
    Parts16(a % 4, 0);
    Parts4(b % 16, c / 64);
    Parts4(b % 16, 0);
  }

  lemma JoinCut(p: Sextet, q: Sextet, r: Sextet, t: Sextet)
    ensures Cut0(Join0(p, q)) == p
    ensures Cut1(Join0(p, q), Join1(q, r)) == q && (q % 16 == 0 ==> Cut1(Join0(p, q), 0) == q)
    ensures Cut2(Join1(q, r), Join2(r, t)) == r && (r % 4 == 0 ==> Cut2(Join1(q, r), 0) == r)
    ensures Cut3(Join2(r, t)) == t
  {
    Parts4(p, q / 16);
    Parts16(q % 16, r / 4);
    Parts64(r % 4, t);
  }

  function Spell(d: seq<Sextet>): seq<Byte> {
    seq(|d|, i requires 0 <= i < |d| => Letter(d[i]))
  }

  function Pads(n: nat): seq<Byte> { seq(n, i => PAD) }

  function EncodeUnpadded(b: seq<Byte>): seq<Byte> { Spell(Sextets(b)) }

  function PadCount(b: seq<Byte>): nat { (3 - |b| % 3) % 3 }

  function EncodePadded(b: seq<Byte>): seq<Byte> { EncodeUnpadded(b) + Pads(PadCount(b)) }

  /** No bit of the last group is left over: section 3.5 of RFC 4648. */
  predicate Canonical(d: seq<Sextet>) {
    && |d| % 4 != 1
    && (|d| % 4 == 2 ==> d[|d| - 1] % 16 == 0)
    && (|d| % 4 == 3 ==> d[|d| - 1] % 4 == 0)
  }

  lemma {:induction false} BytesOfSextets(b: seq<Byte>)
    ensures Bytes(Sextets(b)) == b
  {
    hide Cut0, Cut1, Cut2, Cut3, Join0, Join1, Join2;
    if |b| == 1 {
      CutJoin(b[0], 0, 0);
    } else if |b| == 2 {
      CutJoin(b[0], b[1], 0);
    } else if |b| >= 3 {
      CutJoin(b[0], b[1], b[2]);
      BytesOfSextets(b[3..]);
      assert Sextets(b)[4..] == Sextets(b[3..]);
      assert b == [b[0], b[1], b[2]] + b[3..];
    }
  }

  lemma CanonicalStep(d: seq<Sextet>)
    requires |d| >= 4
    ensures Canonical(d) <==> Canonical(d[4..])
  {
    SamePhase(|d|);
    assert |d[4..]| == |d| - 4;
    if |d| > 4 { assert d[4..][|d| - 5] == d[|d| - 1]; }
  }

  lemma {:induction false} SextetsCanonical(b: seq<Byte>)
    ensures Canonical(Sextets(b))
  {
    hide Cut0, Cut1, Cut2, Cut3, Join0, Join1, Join2;
    if |b| == 1 {
      CutJoin(b[0], 0, 0);
    } else if |b| == 2 {
      CutJoin(b[0], b[1], 0);
    } else if |b| >= 3 {
      SextetsCanonical(b[3..]);
      assert Sextets(b)[4..] == Sextets(b[3..]);
      CanonicalStep(Sextets(b));
    }
  }

  /** Groups and padding together fill whole blocks of four characters. */
  lemma {:induction false} BlocksOfFour(b: seq<Byte>)
    ensures (|Sextets(b)| + PadCount(b)) % 4 == 0
    ensures b != [] ==> Sextets(b) != []
  {
    hide Cut0, Cut1, Cut2, Cut3, PadCount;
    if |b| >= 3 {
      BlocksOfFour(b[3..]);
      PadCountLater(b);
      FourMore(|Sextets(b[3..])| + PadCount(b[3..]));
    } else {
      PadCountFew(b);
    }
  }

  lemma PadCountLater(b: seq<Byte>)
    requires |b| >= 3
    ensures PadCount(b[3..]) == PadCount(b)
  {
  }

  lemma PadCountFew(b: seq<Byte>)
    requires |b| < 3
    ensures PadCount(b) == if |b| == 0 then 0 else 3 - |b|
  {
  }

  lemma FourMore(n: nat)
    requires n % 4 == 0
    ensures (n + 4) % 4 == 0
  {
  }

  lemma {:induction false} SextetsOfBytes(d: seq<Sextet>)
    requires Canonical(d)
    ensures Sextets(Bytes(d)) == d
  {
    if |d| == 2 {
      JoinCut(d[0], d[1], 0, 0);
    } else if |d| == 3 {
      JoinCut(d[0], d[1], d[2], 0);
    } else if |d| >= 4 {
      JoinCut(d[0], d[1], d[2], d[3]);
      CanonicalStep(d);
      SextetsOfBytes(d[4..]);
      var b := Bytes(d);
      assert b[3..] == Bytes(d[4..]);
      assert d == [d[0], d[1], d[2], d[3]] + d[4..];
    }
  }

  // -------------------------------------------------------------- decoding

  /** The groups a decoder sees: alphabet characters up to the first '='. */
  function Digits(s: seq<Byte>): seq<Sextet> {
    if s == [] || s[0] == PAD then []
    else if Value(s[0]) < 0 then Digits(s[1..])
    else [Value(s[0])] + Digits(s[1..])
  }

  /** The byte that digit `g` completes when `d` came before it, if it completes one. */
  function Completed(d: seq<Sextet>, g: Sextet): seq<Byte> {
    if |d| % 4 == 0 then []
    else if |d| % 4 == 1 then [Join0(d[|d| - 1], g)]
    else if |d| % 4 == 2 then [Join1(d[|d| - 1], g)]
    else [Join2(d[|d| - 1], g)]
  }

  function Block(d: seq<Sextet>): seq<Byte>
    requires |d| >= 4
  {
    [Join0(d[0], d[1]), Join1(d[1], d[2]), Join2(d[2], d[3])]
  }

  lemma BytesBlock(d: seq<Sextet>)
    requires |d| >= 4
    ensures Bytes(d) == Block(d) + Bytes(d[4..])
  {
    hide Join0, Join1, Join2;
  }

  /** What a digit completes depends on its place in the last block. */
  lemma CompletedLater(d: seq<Sextet>, g: Sextet)
    requires |d| >= 4
    ensures Completed(d[4..], g) == Completed(d, g)
  {
    hide Join0, Join1, Join2;
    SamePhase(|d|);
    if |d| > 4 { assert d[4..][|d| - 5] == d[|d| - 1]; }
  }

  lemma SamePhase(n: nat)
    requires n >= 4
    ensures (n - 4) % 4 == n % 4
  {
  }

  lemma BytesOfFew(d: seq<Sextet>)
    requires |d| <= 4
    ensures Bytes(d) == if |d| < 2 then []
                        else if |d| == 2 then [Join0(d[0], d[1])]
                        else if |d| == 3 then [Join0(d[0], d[1]), Join1(d[1], d[2])]
                        else [Join0(d[0], d[1]), Join1(d[1], d[2]), Join2(d[2], d[3])]
  {
    hide Join0, Join1, Join2;
    if |d| == 4 {
      BytesBlock(d);
      assert d[4..] == [];
      BytesOfNothing();
      ConcatEmpty(Block(d));
    }
  }

  lemma CompletedFew(d: seq<Sextet>, g: Sextet)
    requires |d| < 4
    ensures Completed(d, g) == if |d| == 0 then [] else if |d| == 1 then [Join0(d[0], g)]
                               else if |d| == 2 then [Join1(d[1], g)] else [Join2(d[2], g)]
  {
    hide Join0, Join1, Join2;
  }

  lemma BytesSnocShort(d: seq<Sextet>, g: Sextet)
    requires |d| < 4
    ensures Bytes(d + [g]) == Bytes(d) + Completed(d, g)
  {
    hide *;
    BytesOfFew(d);
    BytesOfFew(d + [g]);
    CompletedFew(d, g);
  }

  lemma {:induction false} BytesSnoc(d: seq<Sextet>, g: Sextet)
    ensures Bytes(d + [g]) == Bytes(d) + Completed(d, g)
  {
    hide Bytes, Completed, Block;
    if |d| >= 4 {
      var e := d + [g];
      BytesSnoc(d[4..], g);
      assert e[4..] == d[4..] + [g];
      CompletedLater(d, g);
      BytesBlock(d);
      BytesBlock(e);
      BlockSnoc(d, g);
      ConcatAssoc(Block(d), Bytes(d[4..]), Completed(d, g));
    } else {
      BytesSnocShort(d, g);
    }
  }

  lemma BlockSnoc(d: seq<Sextet>, g: Sextet)
    requires |d| >= 4
    ensures Block(d + [g]) == Block(d)
  {
  }

  const WORD: int := 0x1_0000_0000

  /** One step of the accumulator, in unsigned 32-bit arithmetic. */
  function Shift(value: int, digit: Sextet): (r: int)
    ensures 0 <= r < WORD
  {
    (value * 64 % WORD + digit) % WORD
  }

  /** However much has been shifted out at the top, the low 12 bits are what was shifted in. */
  lemma ShiftLow(value: int, digit: Sextet)
    requires 0 <= value < WORD
    ensures Shift(value, digit) % 4096 == value % 64 * 64 + digit
  {
    var q, a := value / 64, value % 64;
    WordParts(value * 64);
    var m := value * 64 / WORD;
    var x := value * 64 % WORD + digit;
    WordParts(x);
    var n := x / WORD;
    assert Shift(value, digit) == x % WORD;
    Rem4096(q - 0x10_0000 * m - 0x10_0000 * n, a * 64 + digit);
  }

  lemma WordParts(x: int)
    ensures x == WORD * (x / WORD) + x % WORD
  {
  }

  lemma Rem4096(k: int, r: int)
    requires 0 <= r < 4096
    ensures (4096 * k + r) % 4096 == r
  {
  }

  lemma Rem256(x: int, q: int, r: int)
    requires x == 256 * q + r && 0 <= r < 256
    ensures x % 256 == r
  {
  }

  lemma Rem64(x: int, q: int, r: int)
    requires x == 64 * q + r && 0 <= r < 64
    ensures x % 64 == r
  {
  }

  lemma Quot4(x: int, q: int, r: int)
    requires x == 4 * q + r && 0 <= r < 4
    ensures x / 4 == q
  {
  }

  lemma Quot16(x: int, q: int, r: int)
    requires x == 16 * q + r && 0 <= r < 16
    ensures x / 16 == q
  {
  }

  // `(value >> bits) & 0xFF` reads the byte that lies `bits` above the bottom.

  lemma ByteAt0(m: nat, low: int)
    requires 0 <= low < 4096
    ensures (4096 * m + low) % 256 == low % 256 && (4096 * m + low) % 64 == low % 64
  {
    Rem256(4096 * m + low, 16 * m + low / 256, low % 256);
    Rem64(4096 * m + low, 64 * m + low / 64, low % 64);
  }

  lemma ByteAt2(m: nat, low: int)
    requires 0 <= low < 4096
    ensures (4096 * m + low) / 4 % 256 == low / 4 % 256
  {
    Quot4(4096 * m + low, 1024 * m + low / 4, low % 4);
    Rem256(1024 * m + low / 4, 4 * m + low / 4 / 256, low / 4 % 256);
  }

  lemma ByteAt4(m: nat, low: int)
    requires 0 <= low < 4096
    ensures (4096 * m + low) / 16 % 256 == low / 16
  {
    Quot16(4096 * m + low, 256 * m + low / 16, low % 16);
    Rem256(256 * m + low / 16, m, low / 16);
  }

  /** What the accumulator remembers after the digits `d`. */
  predicate Tracks(value: int, bits: int, d: seq<Sextet>) {
    && 0 <= value < WORD
    && bits == (if |d| % 4 == 0 then -8 else if |d| % 4 == 1 then -2 else if |d| % 4 == 2 then -4 else -6)
    && (d != [] ==> value % 64 == d[|d| - 1])
  }

  /** How far the shift by `bits` divides. */
  function Scale(bits: int): int { if bits == 4 then 16 else if bits == 2 then 4 else 1 }

  lemma LowJoins(last: Sextet, g: Sextet)
    ensures var low := last * 64 + g;
            && low / 16 == Join0(last, g) && low / 4 % 256 == Join1(last, g)
            && low % 256 == Join2(last, g) && low % 64 == g
  {
    var low := last * 64 + g;
    Quot16(low, last * 4 + g / 16, g % 16);
    Quot4(low, last * 16 + g / 4, g % 4);
    Rem256(last * 16 + g / 4, last / 16, last % 16 * 16 + g / 4);
    Rem256(low, last / 4, last % 4 * 64 + g);
    Rem64(low, last, g);
  }

  /** The three bytes that can be read off after one more digit. */
  lemma ShiftReads(value: int, g: Sextet)
    requires 0 <= value < WORD
    ensures var v, last := Shift(value, g), value % 64;
            && v / 16 % 256 == Join0(last, g) && v / 4 % 256 == Join1(last, g) && v / 1 % 256 == Join2(last, g)
            && v % 64 == g
  {
    hide Join0, Join1, Join2, Shift;
    var v := Shift(value, g);
    ShiftLow(value, g);
    LowJoins(value % 64, g);
    assert v == 4096 * (v / 4096) + v % 4096;
    ByteAt0(v / 4096, v % 4096);
    ByteAt2(v / 4096, v % 4096);
    ByteAt4(v / 4096, v % 4096);
  }

  lemma TrackStep(value: int, bits: int, d: seq<Sextet>, g: Sextet)
    requires Tracks(value, bits, d)
    ensures Tracks(Shift(value, g), if bits + 6 >= 0 then bits - 2 else bits + 6, d + [g])
    ensures bits + 6 < 0 ==> Completed(d, g) == []
    ensures bits + 6 >= 0 ==> Completed(d, g) == [Shift(value, g) / Scale(bits + 6) % 256]
  {
    hide Join0, Join1, Join2, Shift;
    ShiftReads(value, g);
    var e := d + [g];
    assert |e| == |d| + 1 && e[|e| - 1] == g;
    NextPhase(|d|);
  }

  lemma NextPhase(n: nat)
    ensures (n + 1) % 4 == if n % 4 == 3 then 0 else n % 4 + 1
  {
  }

  /** What the decoder sees from position `i` on. */
  lemma DigitsFrom(s: seq<Byte>, i: nat)
    requires i < |s|
    ensures Digits(s[i..]) == if s[i] == PAD then []
                              else (if Value(s[i]) < 0 then [] else [Value(s[i])]) + Digits(s[i + 1..])
  {
    assert s[i..][0] == s[i] && s[i..][1..] == s[i + 1..];
  }

  /** The decoder's loop, wrap-around included, computes the bytes its digits spell. */
  method DecodeBase64(encoded: seq<Byte>) returns (output: seq<Byte>)
    ensures output == Bytes(Digits(encoded))
  {
    hide Join0, Join1, Join2, Shift, Value, Digits, Completed, Bytes;
    output := [];
    var value: int := 0;
    var bits := -8;
    ghost var d: seq<Sextet> := [];
    var i := 0;
    assert encoded[0..] == encoded;
    BytesOfNothing();
    ConcatEmpty(Digits(encoded));
    while i < |encoded|
      invariant i <= |encoded|
      invariant Tracks(value, bits, d) && output == Bytes(d)
      invariant Digits(encoded) == d + Digits(encoded[i..])
    {
      var ch := encoded[i];
      DigitsFrom(encoded, i);
      if ch == PAD {
        ConcatEmpty(d);
        return;
      }
      var digit := Value(ch);
      i := i + 1;
      ConcatEmpty(Digits(encoded[i..]));
      if digit >= 0 {
        TrackStep(value, bits, d, digit);
        BytesSnoc(d, digit);
        ConcatEmpty(output);
        ConcatAssoc(d, [digit], Digits(encoded[i..]));
        d := d + [digit];
        value := Shift(value, digit);
        bits := bits + 6;
        if bits >= 0 {
          output := output + [value / Scale(bits) % 256];
          bits := bits - 8;
        }
      }
    }
    DigitsEnd(encoded, i);
    ConcatEmpty(d);
  }

  lemma BytesOfNothing()
    ensures Bytes([]) == []
  {
  }

  lemma DigitsEnd(s: seq<Byte>, i: nat)
    requires i == |s|
    ensures Digits(s[i..]) == []
  {
  }

  // ------------------------------------------------------------ validating

  /** What a text is to the validator: its groups and how many '=' follow, or malformed. */
  datatype Reading = Malformed | Reading(groups: seq<Sextet>, padding: nat)

  function ReadOne(r: Reading, c: Byte): Reading {
    if r.Malformed? || IsSpace(c) then r
    else if c == PAD then (if r.padding >= 2 then Malformed else r.(padding := r.padding + 1))
    else if r.padding > 0 || Value(c) < 0 then Malformed
    else r.(groups := r.groups + [Value(c)])
  }

  function Read(s: seq<Byte>): Reading {
    if s == [] then Reading([], 0) else ReadOne(Read(s[..|s| - 1]), s[|s| - 1])
  }

  predicate Accepts(r: Reading) {
    && r.Reading? && r.groups != [] && Canonical(r.groups)
    && (r.padding == 0 || (|r.groups| + r.padding) % 4 == 0)
    && r.padding <= 2
  }

  lemma {:induction false} ReadMalformed(s: seq<Byte>, i: nat)
    requires i <= |s| && Read(s[..i]).Malformed?
    ensures Read(s).Malformed? && !Accepts(Read(s))
    decreases |s| - i
  {
    if i < |s| {
      assert s[..i + 1][..i] == s[..i];
      ReadMalformed(s, i + 1);
    } else {
      assert s[..i] == s;
    }
  }

  lemma {:induction false} ReadPadding(s: seq<Byte>)
    ensures Read(s).Reading? ==> Read(s).padding <= 2
  {
    if s != [] { ReadPadding(s[..|s| - 1]); }
  }

  method ValidBase64(encoded: seq<Byte>) returns (ok: bool)
    ensures ok == Accepts(Read(encoded))
  {
    hide Value, IsSpace, FinalTest, Accepts;
    var digits, padding, lastDigit := 0, 0, 0;
    var i := 0;
    while i < |encoded|
      invariant i <= |encoded|
      invariant var r := Read(encoded[..i]);
                && r.Reading? && |r.groups| == digits && r.padding == padding
                && (digits > 0 ==> r.groups[digits - 1] == lastDigit)
    {
      var ch := encoded[i];
      assert encoded[..i + 1][..i] == encoded[..i];
      i := i + 1;
      if IsSpace(ch) { continue; }
      if ch == PAD {
        padding := padding + 1;
        if padding > 2 { ReadMalformed(encoded, i); return false; }
      } else {
        if padding > 0 || Value(ch) < 0 { ReadMalformed(encoded, i); return false; }
        lastDigit := Value(ch);
        digits := digits + 1;
      }
    }
    assert encoded[..i] == encoded;
    ReadPadding(encoded);
    ok := FinalTest(digits, padding, lastDigit);
    FinalTestIsAccepts(Read(encoded), lastDigit);
  }

  /** The tests after the loop. */
  predicate FinalTest(digits: nat, padding: nat, lastDigit: int) {
    if digits == 0 then false
    else if (digits % 4 == 2 && lastDigit % 16 != 0) || (digits % 4 == 3 && lastDigit % 4 != 0) then false
    else if padding == 0 then digits % 4 != 1
    else (digits + padding) % 4 == 0 && (if padding == 1 then digits % 4 == 3 else digits % 4 == 2)
  }

  lemma FinalTestIsAccepts(r: Reading, lastDigit: int)
    requires r.Reading? && r.padding <= 2 && (r.groups != [] ==> r.groups[|r.groups| - 1] == lastDigit)
    ensures FinalTest(|r.groups|, r.padding, lastDigit) == Accepts(r)
  {
  }

  // ------------------------------------------------------------- the gate

  function Strip(s: seq<Byte>): seq<Byte> {
    if s == [] then [] else Strip(s[..|s| - 1]) + if IsSpace(s[|s| - 1]) then [] else [s[|s| - 1]]
  }

  lemma SpellSnoc(d: seq<Sextet>, g: Sextet)
    ensures Spell(d + [g]) == Spell(d) + [Letter(g)]
  {
  }

  /** A text that can be read is, without its white space, its groups spelt out and padded. */
  lemma {:induction false} ReadSpells(s: seq<Byte>)
    requires Read(s).Reading?
    ensures Strip(s) == Spell(Read(s).groups) + Pads(Read(s).padding)
  {
    if s != [] {
      var init, c := s[..|s| - 1], s[|s| - 1];
      ReadSpells(init);
      var r := Read(init);
      if !IsSpace(c) && c != PAD {
        ValueLetter(c);
        SpellSnoc(r.groups, Value(c));
        assert Strip(s) == Spell(r.groups) + [c];
      }
    }
  }

  /** Reading depends on the text without white space only. */
  lemma {:induction false} ReadStrip(s: seq<Byte>)
    ensures Read(Strip(s)) == Read(s)
  {
    if s != [] {
      var init, c := s[..|s| - 1], s[|s| - 1];
      ReadStrip(init);
      if !IsSpace(c) {
        assert (Strip(init) + [c])[..|Strip(init)|] == Strip(init);
      } else {
        assert Strip(s) == Strip(init);
      }
    }
  }

  lemma ReadSnoc(s: seq<Byte>, c: Byte)
    ensures Read(s + [c]) == ReadOne(Read(s), c)
  {
    assert (s + [c])[..|s|] == s;
  }

  lemma {:induction false} ReadLetters(d: seq<Sextet>)
    ensures Read(Spell(d)) == Reading(d, 0)
  {
    hide Letter;
    if d != [] {
      var e, g := d[..|d| - 1], d[|d| - 1];
      ReadLetters(e);
      LetterValue(g);
      assert d == e + [g];
      SpellSnoc(e, g);
      ReadSnoc(Spell(e), Letter(g));
    }
  }

  lemma PadsSnoc(n: nat)
    requires n > 0
    ensures Pads(n) == Pads(n - 1) + [PAD]
  {
  }

  lemma PadsNone()
    ensures Pads(0) == []
  {
  }

  lemma {:induction false} ReadSpelt(d: seq<Sextet>, n: nat)
    requires n <= 2
    ensures Read(Spell(d) + Pads(n)) == Reading(d, n)
  {
    hide Spell, Pads, Letter, Value;
    if n > 0 {
      ReadSpelt(d, n - 1);
      PadsSnoc(n);
      ConcatAssoc(Spell(d), Pads(n - 1), [PAD]);
      ReadSnoc(Spell(d) + Pads(n - 1), PAD);
    } else {
      ReadLetters(d);
      PadsNone();
      ConcatEmpty(Spell(d));
    }
  }

  /** What the decoder picks out of a text that can be read are its groups. */
  lemma {:induction false} DigitsOfRead(s: seq<Byte>, d: seq<Sextet>, n: nat)
    requires Strip(s) == Spell(d) + Pads(n)
    ensures Digits(s) == d
  {
    DigitsStrip(s);
    DigitsSpelt(d, n);
  }

  lemma {:induction false} DigitsSpelt(d: seq<Sextet>, n: nat)
    ensures Digits(Spell(d) + Pads(n)) == d
  {
    var s := Spell(d) + Pads(n);
    if d != [] {
      LetterValue(d[0]);
      assert s[0] == Letter(d[0]);
      assert s[1..] == Spell(d[1..]) + Pads(n);
      DigitsSpelt(d[1..], n);
    } else if n > 0 {
      assert s[0] == PAD;
    }
  }

  lemma {:induction false} DigitsSnoc(s: seq<Byte>, c: Byte)
    ensures Digits(s + [c]) == if PAD in s || c == PAD || Value(c) < 0 then Digits(s) else Digits(s) + [Value(c)]
  {
    if s != [] {
      DigitsSnoc(s[1..], c);
      assert (s + [c])[1..] == s[1..] + [c];
      assert PAD in s <==> s[0] == PAD || PAD in s[1..];
    } else {
      assert (s + [c])[1..] == [];
    }
  }

  lemma {:induction false} DigitsStrip(s: seq<Byte>)
    ensures Digits(Strip(s)) == Digits(s) && (PAD in Strip(s) <==> PAD in s)
  {
    if s != [] {
      var init, c := s[..|s| - 1], s[|s| - 1];
      DigitsStrip(init);
      assert s == init + [c];
      DigitsSnoc(init, c);
      DigitsSnoc(Strip(init), c);
      if IsSpace(c) { assert Strip(s) == Strip(init); }
    }
  }

  /** The two forms in which a text may carry `b`: padded, or with the padding left off. */
  predicate Encodes(s: seq<Byte>, b: seq<Byte>) {
    Strip(s) == EncodePadded(b) || Strip(s) == EncodeUnpadded(b)
  }

  /** Every padded or unpadded encoding of a non-empty byte string passes and decodes to it. */
  lemma EncodingPasses(s: seq<Byte>, b: seq<Byte>)
    requires b != [] && Encodes(s, b)
    ensures Accepts(Read(s)) && Bytes(Digits(s)) == b
  {
    hide Bytes, Sextets, Spell, Read, Digits, Canonical, Strip;
    var d := Sextets(b);
    var n := if Strip(s) == EncodeUnpadded(b) then 0 else PadCount(b);
    assert Strip(s) == Spell(d) + Pads(n) by { assert Pads(0) == []; }
    BytesOfSextets(b);
    SextetsCanonical(b);
    BlocksOfFour(b);
    ReadStrip(s);
    ReadSpelt(d, n);
    DigitsOfRead(s, d, n);
  }

  /** A padding that completes the last block is the one the encoder would write. */
  lemma PaddingIsForced(b: seq<Byte>, n: nat)
    requires n <= 2 && (|Sextets(b)| + n) % 4 == 0
    ensures n == PadCount(b)
  {
    hide Sextets;
    BlocksOfFour(b);
    SameRemainder(|Sextets(b)|, n, PadCount(b));
  }

  lemma SameRemainder(x: nat, n: nat, m: nat)
    requires n <= 2 && m <= 2 && (x + n) % 4 == 0 && (x + m) % 4 == 0
    ensures n == m
  {
  }

  /** Whatever passes is an encoding of what it decodes to: it re-encodes to itself. */
  lemma PassingIsEncoding(s: seq<Byte>)
    requires Accepts(Read(s))
    ensures Bytes(Digits(s)) != [] && Encodes(s, Bytes(Digits(s)))
  {
    var d, n := Read(s).groups, Read(s).padding;
    ReadSpells(s);
    DigitsOfRead(s, d, n);
    SextetsOfBytes(d);
    if n == 0 {
      assert Strip(s) == Spell(d) by { assert Pads(0) == []; }
    } else {
      PaddingIsForced(Bytes(d), n);
    }
  }

  /** The gate, both ways: a text passes exactly when it encodes some non-empty byte string. */
  lemma PassesExactlyEncodings(s: seq<Byte>)
    ensures Accepts(Read(s)) <==> exists b: seq<Byte> :: b != [] && Encodes(s, b)
  {
    if Accepts(Read(s)) {
      PassingIsEncoding(s);
    }
    if b: seq<Byte> :| b != [] && Encodes(s, b) {
      EncodingPasses(s, b);
    }
  }
}
