/**
 The UTF-8 gate of the lyric service against RFC 3629: the validator accepts exactly the
 encodings of Unicode scalar values without control characters other than tab, LF and CR.
 */
module Utf8 {
  type Byte = x: int | 0 <= x < 256

  /** Section 3 of RFC 3629: code points up to U+10FFFF without the surrogates. */
  predicate IsScalar(v: int) { 0 <= v <= 0x10FFFF && !(0xD800 <= v <= 0xDFFF) }

  type Scalar = v: int | 0 <= v <= 0x10FFFF && !(0xD800 <= v <= 0xDFFF)

  predicate Allowed(v: Scalar) {
    (v >= 0x20 || v == 9 || v == 10 || v == 13) && v != 0x7F
  }

  function ToByte(x: int): Byte
    requires 0 <= x < 256
  {
    x
  }

  /** A continuation byte with the low six bits of `x`. */
  function Tailing(x: int): Byte { 0x80 + x % 64 }

  /** The table in section 3 of RFC 3629. */
  function Encode(v: Scalar): (s: seq<Byte>)
    ensures 1 <= |s| <= 4
  {
    if v < 0x80 then [ToByte(v)]
    else if v < 0x800 then [ToByte(0xC0 + v / 64), Tailing(v)]
    else if v < 0x10000 then [ToByte(0xE0 + v / 4096), Tailing(v / 64), Tailing(v)]
    else [ToByte(0xF0 + v / 262144), Tailing(v / 4096), Tailing(v / 64), Tailing(v)]
  }

  function EncodeAll(vs: seq<Scalar>): seq<Byte> {
    if vs == [] then [] else Encode(vs[0]) + EncodeAll(vs[1..])
  }

  ghost predicate IsText(s: seq<Byte>) {
    exists vs: seq<Scalar> :: EncodeAll(vs) == s && forall i :: 0 <= i < |vs| ==> Allowed(vs[i])
  }

  /** The low bits of a byte, its mark removed. */
  function Bits(b: int, mark: int): int { b - mark }

  /** The bits of an encoding, marks removed, are the code point, in the fewest bytes that hold it. */
  lemma EncodingHoldsBits(v: Scalar)
    ensures var s := Encode(v);
            && |s| == (if v < 128 then 1 else if v < 2048 then 2 else if v < 65536 then 3 else 4)
            && (|s| == 1 ==> s[0] as int == v)
            && (|s| == 2 ==> v == 64 * Bits(s[0], 192) + Bits(s[1], 128))
            && (|s| == 3 ==> v == 4096 * Bits(s[0], 224) + 64 * Bits(s[1], 128) + Bits(s[2], 128))
            && (|s| == 4 ==>
                  v == 262144 * Bits(s[0], 240) + 4096 * Bits(s[1], 128) + 64 * Bits(s[2], 128) + Bits(s[3], 128))
            && forall i :: 1 <= i < |s| ==> 128 <= s[i] < 192
  {
    var n: int := v;
    assert n == 64 * (n / 64) + n % 64;
    assert n / 64 == 64 * (n / 4096) + n / 64 % 64;
    assert n / 4096 == 64 * (n / 262144) + n / 4096 % 64;
  }

  // -------------------------------------------- section 4: byte sequences

  predicate Tail(b: Byte) { 0x80 <= b <= 0xBF }

  predicate TwoBytes(s: seq<Byte>) { |s| >= 2 && 0xC2 <= s[0] <= 0xDF && Tail(s[1]) }

  predicate ThreeBytes(s: seq<Byte>) {
    && |s| >= 3 && Tail(s[2])
    && (|| (s[0] == 0xE0 && 0xA0 <= s[1] <= 0xBF)
        || (0xE1 <= s[0] <= 0xEC && Tail(s[1]))
        || (s[0] == 0xED && 0x80 <= s[1] <= 0x9F)
        || (0xEE <= s[0] <= 0xEF && Tail(s[1])))
  }

  predicate FourBytes(s: seq<Byte>) {
    && |s| >= 4 && Tail(s[2]) && Tail(s[3])
    && (|| (s[0] == 0xF0 && 0x90 <= s[1] <= 0xBF)
        || (0xF1 <= s[0] <= 0xF3 && Tail(s[1]))
        || (s[0] == 0xF4 && 0x80 <= s[1] <= 0x8F))
  }

  /** The length of the character the bytes begin with, or 0 if they begin with none. */
  function First(s: seq<Byte>): (n: nat)
    ensures n <= 4 && n <= |s|
  {
    if |s| >= 1 && s[0] < 0x80 && Allowed(s[0]) then 1
    else if TwoBytes(s) then 2
    else if ThreeBytes(s) then 3
    else if FourBytes(s) then 4
    else 0
  }

  predicate Accepts(s: seq<Byte>) {
    s == [] || (First(s) > 0 && Accepts(s[First(s)..]))
  }

  // ------------------------------------------------------------ one character

  lemma EncodeOne(v: Scalar, rest: seq<Byte>)
    requires Allowed(v)
    ensures First(Encode(v) + rest) == |Encode(v)|
  {
    var s := Encode(v) + rest;
    assert forall i :: 0 <= i < |Encode(v)| ==> s[i] == Encode(v)[i];
    if 0x800 <= v < 0x10000 {
      ThreeRanges(v);
    } else if v >= 0x10000 {
      FourRanges(v);
    }
  }

  lemma ThreeRanges(v: Scalar)
    requires 0x800 <= v < 0x10000
    ensures v / 4096 == 0 ==> v / 64 % 64 >= 0x20
    ensures v / 4096 == 13 ==> v / 64 % 64 < 0x20
    ensures v / 4096 < 16
  {
    assert v / 64 == 64 * (v / 4096) + v / 64 % 64;
    assert v / 4096 == 13 ==> v < 0xE000;
    assert v < 0xD800 ==> v / 64 < 0x360;
  }

  lemma FourRanges(v: Scalar)
    requires v >= 0x10000
    ensures v / 262144 == 0 ==> v / 4096 % 64 >= 0x10
    ensures v / 262144 == 4 ==> v / 4096 % 64 < 0x10
    ensures v / 262144 <= 4
  {
    assert v / 4096 == 64 * (v / 262144) + v / 4096 % 64;
    assert v / 4096 <= 0x10F;
  }

  /** The scalar value that a well-formed first character encodes. */
  function Decode(s: seq<Byte>): int
    requires First(s) > 0
  {
    if First(s) == 1 then s[0]
    else if First(s) == 2 then Join2(s[0] - 0xC0, s[1] - 0x80)
    else if First(s) == 3 then Join3(s[0] - 0xE0, s[1] - 0x80, s[2] - 0x80)
    else Join4(s[0] - 0xF0, s[1] - 0x80, s[2] - 0x80, s[3] - 0x80)
  }

  function Join2(a: int, b: int): int { a * 64 + b }

  function Join3(a: int, b: int, c: int): int { a * 4096 + b * 64 + c }

  function Join4(a: int, b: int, c: int, d: int): int { a * 262144 + b * 4096 + c * 64 + d }

  lemma DecodeTwo(a: int, b: int)
    requires 2 <= a < 32 && 0 <= b < 64
    ensures Join2(a, b) / 64 == a && Join2(a, b) % 64 == b
  {
  }

  lemma DecodeThree(a: int, b: int, c: int)
    requires 0 <= a < 16 && 0 <= b < 64 && 0 <= c < 64
    ensures var v := Join3(a, b, c); v / 4096 == a && v / 64 % 64 == b && v % 64 == c
  {
    var v := Join3(a, b, c);
    assert v / 64 == a * 64 + b;
  }

  lemma DecodeFour(a: int, b: int, c: int, d: int)
    requires 0 <= a < 8 && 0 <= b < 64 && 0 <= c < 64 && 0 <= d < 64
    ensures var v := Join4(a, b, c, d);
            v / 262144 == a && v / 4096 % 64 == b && v / 64 % 64 == c && v % 64 == d
  {
    var v := Join4(a, b, c, d);
    assert v / 64 == a * 4096 + b * 64 + c;
    assert v / 4096 == a * 64 + b;
  }

  lemma DecodeOne(s: seq<Byte>)
    requires First(s) > 0
    ensures IsScalar(Decode(s)) && Allowed(Decode(s)) && Encode(Decode(s)) == s[..First(s)]
  {
    if First(s) == 2 {
      DecodeTwoBytes(s);
    } else if First(s) == 3 {
      DecodeThreeBytes(s);
    } else if First(s) == 4 {
      DecodeFourBytes(s);
    } else {
      assert s[..1] == [s[0]];
    }
  }

  lemma DecodeTwoBytes(s: seq<Byte>)
    requires First(s) == 2
    ensures IsScalar(Decode(s)) && Allowed(Decode(s)) && Encode(Decode(s)) == s[..2]
  {
    var a, b := s[0] - 0xC0, s[1] - 0x80;
    assert TwoBytes(s);
    hide First, ThreeBytes, FourBytes;
    assert Decode(s) == Join2(a, b);
    assert s[..2] == [s[0], s[1]];
    DecodeTwo(a, b);
    TwoRanges(a, b);
    hide Join2, Decode;
    EncodeTwo(Decode(s), s[0], s[1]);
  }

  lemma TwoRanges(a: int, b: int)
    requires 2 <= a < 32 && 0 <= b < 64
    ensures 0x80 <= Join2(a, b) < 0x800
  {
  }

  lemma EncodeTwo(v: Scalar, x: Byte, y: Byte)
    requires 0x80 <= v < 0x800 && v / 64 == x - 0xC0 && v % 64 == y - 0x80
    ensures Encode(v) == [x, y]
  {
  }

  lemma DecodeThreeBytes(s: seq<Byte>)
    requires First(s) == 3
    ensures IsScalar(Decode(s)) && Allowed(Decode(s)) && Encode(Decode(s)) == s[..3]
  {
    var a, b, c := s[0] - 0xE0, s[1] - 0x80, s[2] - 0x80;
    assert ThreeBytes(s);
    hide First, TwoBytes, FourBytes;
    assert Decode(s) == Join3(a, b, c);
    assert s[..3] == [s[0], s[1], s[2]];
    DecodeThree(a, b, c);
    JoinThree(a, b, c);
    hide Join3, Decode;
    EncodeThree(Decode(s), s[0], s[1], s[2]);
  }

  /** Three bytes that are neither an overlong form nor a surrogate. */
  lemma JoinThree(a: int, b: int, c: int)
    requires 0 <= a < 16 && 0 <= b < 64 && 0 <= c < 64
    requires (a == 0 ==> b >= 0x20) && (a == 13 ==> b < 0x20)
    ensures 0x800 <= Join3(a, b, c) < 0x10000 && IsScalar(Join3(a, b, c))
  {
  }

  lemma EncodeThree(v: Scalar, x: Byte, y: Byte, z: Byte)
    requires 0x800 <= v < 0x10000 && v / 4096 == x - 0xE0 && v / 64 % 64 == y - 0x80 && v % 64 == z - 0x80
    ensures Encode(v) == [x, y, z]
  {
  }

  lemma DecodeFourBytes(s: seq<Byte>)
    requires First(s) == 4
    ensures IsScalar(Decode(s)) && Allowed(Decode(s)) && Encode(Decode(s)) == s[..4]
  {
    var a, b, c, d := s[0] - 0xF0, s[1] - 0x80, s[2] - 0x80, s[3] - 0x80;
    assert FourBytes(s);
    hide First, TwoBytes, ThreeBytes;
    assert Decode(s) == Join4(a, b, c, d);
    assert s[..4] == [s[0], s[1], s[2], s[3]];
    DecodeFour(a, b, c, d);
    JoinFour(a, b, c, d);
    hide Join4, Decode;
    EncodeFour(Decode(s), s[0], s[1], s[2], s[3]);
  }

  /** Four bytes that are not an overlong form and stay below U+110000. */
  lemma JoinFour(a: int, b: int, c: int, d: int)
    requires 0 <= a <= 4 && 0 <= b < 64 && 0 <= c < 64 && 0 <= d < 64
    requires (a == 0 ==> b >= 0x10) && (a == 4 ==> b < 0x10)
    ensures 0x10000 <= Join4(a, b, c, d) <= 0x10FFFF
  {
  }

  lemma EncodeFour(v: Scalar, w: Byte, x: Byte, y: Byte, z: Byte)
    requires 0x10000 <= v && v / 262144 == w - 0xF0 && v / 4096 % 64 == x - 0x80
    requires v / 64 % 64 == y - 0x80 && v % 64 == z - 0x80
    ensures Encode(v) == [w, x, y, z]
  {
  }

  // ----------------------------------------------------------- whole texts

  lemma {:induction false} EncodedAccepted(vs: seq<Scalar>)
    requires forall i :: 0 <= i < |vs| ==> Allowed(vs[i])
    ensures Accepts(EncodeAll(vs))
  {
    hide Encode, First, Allowed;
    if vs != [] {
      EncodeOne(vs[0], EncodeAll(vs[1..]));
      EncodedAccepted(vs[1..]);
      assert EncodeAll(vs)[|Encode(vs[0])|..] == EncodeAll(vs[1..]);
    }
  }

  lemma {:induction false} AcceptedEncoded(s: seq<Byte>) returns (vs: seq<Scalar>)
    requires Accepts(s)
    ensures EncodeAll(vs) == s && forall i :: 0 <= i < |vs| ==> Allowed(vs[i])
  {
    hide Encode, First, Allowed, Decode;
    if s == [] {
      vs := [];
    } else {
      DecodeOne(s);
      var rest := AcceptedEncoded(s[First(s)..]);
      vs := [Decode(s)] + rest;
      assert vs[1..] == rest;
      assert s == s[..First(s)] + s[First(s)..];
    }
  }

  /** Accepting is being the encoding of some allowed text. */
  lemma AcceptsExactlyTexts(s: seq<Byte>)
    ensures Accepts(s) <==> IsText(s)
  {
    if Accepts(s) {
      var vs := AcceptedEncoded(s);
    }
    if IsText(s) {
      var vs: seq<Scalar> :| EncodeAll(vs) == s && forall i :: 0 <= i < |vs| ==> Allowed(vs[i]);
      EncodedAccepted(vs);
    }
  }

  // -------------------------------------------------------- the validator

  lemma AcceptsFrom(text: seq<Byte>, i: nat, n: nat)
    requires i + n <= |text| && n == First(text[i..]) && n > 0
    ensures Accepts(text[i..]) == Accepts(text[i + n..])
  {
    assert text[i..][n..] == text[i + n..];
  }

  /** The number of continuation bytes the lead byte announces, -1 for none. */
  function Count(lead: Byte): int {
    if 0xC2 <= lead <= 0xDF then 1 else if 0xE0 <= lead <= 0xEF then 2 else if 0xF0 <= lead <= 0xF4 then 3 else -1
  }

  /** The four narrowed ranges of the second byte. */
  predicate Excluded(lead: Byte, next: Byte) {
    || (lead == 0xE0 && next < 0xA0) || (lead == 0xED && next >= 0xA0)
    || (lead == 0xF0 && next < 0x90) || (lead == 0xF4 && next >= 0x90)
  }

  /** For a lead byte above ASCII the code's tests are those of section 4. */
  lemma TestsMatch(s: seq<Byte>)
    requires s != [] && s[0] >= 0x80
    ensures First(s) > 0 <==>
              && Count(s[0]) > 0 && |s| > Count(s[0]) && !Excluded(s[0], s[1])
              && forall j :: 1 <= j <= Count(s[0]) ==> Tail(s[j])
    ensures First(s) > 0 ==> First(s) == Count(s[0]) + 1
  {
  }

  method ValidUtf8(text: seq<Byte>) returns (ok: bool)
    ensures ok <==> IsText(text)
  {
    hide First, IsText, Count, Excluded;
    var i := 0;
    AcceptsExactlyTexts(text);
    assert text[0..] == text;
    while i < |text|
      invariant i <= |text|
      invariant Accepts(text) == Accepts(text[i..])
    {
      ghost var start := i;
      ghost var s := text[i..];
      var lead := text[i];
      i := i + 1;
      if lead < 0x80 {
        AsciiCase(s);
        if (lead < 0x20 && lead != 10 && lead != 13 && lead != 9) || lead == 0x7F { return false; }
        AcceptsFrom(text, start, 1);
        continue;
      }
      TestsMatch(s);
      var count := Count(lead);
      if count < 0 || |text| - i < count { CountPositive(lead); return false; }
      CountPositive(lead);
      if Excluded(lead, text[i]) { return false; }
      var j := 0;
      while j < count
        invariant 0 <= j <= count && i == start + 1 + j
        invariant forall k :: 1 <= k <= j ==> Tail(s[k])
      {
        if text[i] / 64 != 2 { assert !Tail(s[j + 1]); return false; }
        assert s[j + 1] == text[i];
        i := i + 1;
        j := j + 1;
      }
      AcceptsFrom(text, start, count + 1);
    }
    assert text[i..] == [];
    return true;
  }

  lemma CountPositive(lead: Byte)
    ensures Count(lead) == -1 || 1 <= Count(lead) <= 3
  {
  }

  lemma AsciiCase(s: seq<Byte>)
    requires s != [] && s[0] < 0x80
    ensures First(s) == if (s[0] < 0x20 && s[0] != 10 && s[0] != 13 && s[0] != 9) || s[0] == 0x7F then 0 else 1
  {
  }
}
