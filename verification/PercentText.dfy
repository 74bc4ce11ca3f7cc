/**
 Percent-coding measured against its alphabets: which characters are left alone, how an
 escape is spelt and read in either case, and what the C library makes of any other one.
 */
module PercentText {
  import opened Alphabets
  import opened Counting
  import opened PercentCoding

  const MARKS: string := "-._~"

  /** A byte that spells the hex digit `v`, in either case. */
  predicate Spells(b: Byte, v: nat) {
    v < 16 && (b as char == LOWER[v] || b as char == UPPER[v])
  }

  // --------------------------------------------------------------------- the alphabets

  /** The characters that section 2.3 of RFC 3986 leaves alone. */
  predicate LeftAlone(c: char) { c in CAPITALS || c in SMALL || c in FIGURES || c in MARKS }

  lemma CapitalAt(i: nat)
    requires i < 26
    ensures CAPITALS[i] as int == 65 + i
  {
  }

  lemma SmallAt(i: nat)
    requires i < 26
    ensures SMALL[i] as int == 97 + i
  {
  }

  lemma CapitalsAre(b: Byte)
    ensures IsUpper(b) <==> b as char in CAPITALS
  {
    forall i | 0 <= i < 26 ensures CAPITALS[i] as int == 65 + i { CapitalAt(i); }
    if IsUpper(b) { CapitalAt(b - 65); }
  }

  lemma SmallAre(b: Byte)
    ensures IsLower(b) <==> b as char in SMALL
  {
    forall i | 0 <= i < 26 ensures SMALL[i] as int == 97 + i { SmallAt(i); }
    if IsLower(b) { SmallAt(b - 97); }
  }

  lemma FiguresAre(b: Byte)
    ensures IsDigit(b) <==> b as char in FIGURES
  {
    if IsDigit(b) { assert FIGURES[b - 48] == b as char; }
  }

  lemma MarksAre(b: Byte)
    ensures b == MINUS || b == 95 || b == 46 || b == 126 <==> b as char in MARKS
  {
    assert MARKS[0] == '-' && MARKS[1] == '.' && MARKS[2] == '_' && MARKS[3] == '~';
  }

  lemma UnreservedIs(b: Byte)
    ensures Unreserved(b) <==> LeftAlone(b as char)
  {
    hide IsUpper, IsLower, IsDigit;
    CapitalsAre(b);
    SmallAre(b);
    FiguresAre(b);
    MarksAre(b);
  }

  lemma HexDigitIs(v: nat)
    requires v < 16
    ensures HexDigit(v) as char == UPPER[v]
  {
  }

  /** Any other byte becomes a percent sign and its two hex digits, high one first, in capitals. */
  lemma EncodesByte(b: Byte)
    ensures if LeftAlone(b as char) then Encoded([b]) == [b]
            else |Encoded([b])| == 3 && Encoded([b])[0] as char == '%'
                 && Encoded([b])[1] as char == UPPER[b / 16] && Encoded([b])[2] as char == UPPER[b % 16]
  {
    UnreservedIs(b);
    HexDigitIs(b / 16);
    HexDigitIs(b % 16);
    hide Unreserved, HexDigit, LeftAlone;
    assert [b][1..] == [];
    assert Encoded([b]) == EncodeByte(b) + Encoded([]);
  }

  lemma FirstAndRest(a: Text, b: Text)
    requires a != []
    ensures (a + b)[0] == a[0] && (a + b)[1..] == a[1..] + b
  {
  }

  /** Encoding works byte by byte, wherever the text is cut. */
  lemma {:induction false} EncodesPieces(a: Text, b: Text)
    ensures Encoded(a + b) == Encoded(a) + Encoded(b)
  {
    hide EncodeByte;
    if a == [] {
      ConcatEmpty(b);
      ConcatEmpty(Encoded(b));
    } else {
      EncodesPieces(a[1..], b);
      FirstAndRest(a, b);
      ConcatAssoc(EncodeByte(a[0]), Encoded(a[1..]), Encoded(b));
    }
  }

  // ------------------------------------------------------------------- any escape

  /** Hex digits are read in both cases, and nothing else is. */
  lemma HexValueIs(b: Byte, v: nat)
    requires v < 16
    ensures Spells(b, v) <==> HexValue(b) == v
  {
  }

  /**
   `text` stands for `bytes`: each byte is an escape in either case, or itself, or a plus
   sign for a space; a percent sign with fewer than two bytes behind it stands for itself.
   */
  predicate StandsFor(text: Text, bytes: Text)
    decreases |bytes|
  {
    if text == [] || bytes == [] then text == bytes
    else if text[0] as char == '%' && |text| > 2 then
      Spells(text[1], bytes[0] / 16) && Spells(text[2], bytes[0] % 16) && StandsFor(text[3..], bytes[1..])
    else
      bytes[0] as char == (if text[0] as char == '+' then ' ' else text[0] as char) && StandsFor(text[1..], bytes[1..])
  }

  lemma EscapeDecodes(a: Byte, b: Byte, v: Byte)
    requires Spells(a, v / 16) && Spells(b, v % 16)
    ensures ToByte(TwoByteStrtol(a, b)) == v
  {
    HexValueIs(a, v / 16);
    HexValueIs(b, v % 16);
    hide Spells, HexValue;
    assert v == 16 * (v / 16) + v % 16;
  }

  /** Whatever way a text was escaped, decoding gives the bytes it stands for. */
  lemma {:induction false} EveryEscapeDecodes(text: Text, bytes: Text)
    requires StandsFor(text, bytes)
    ensures Decoded(text) == bytes
    decreases |bytes|
  {
    hide Spells, TwoByteStrtol, ToByte;
    if text != [] && bytes != [] {
      if text[0] == PERCENT && |text| > 2 {
        EscapeDecodes(text[1], text[2], bytes[0]);
        EveryEscapeDecodes(text[3..], bytes[1..]);
      } else {
        EveryEscapeDecodes(text[1..], bytes[1..]);
        assert text[0] == PLUS ==> bytes[0] == SPACE;
        assert text[0] != PLUS ==> bytes[0] == text[0];
      }
      assert bytes == [bytes[0]] + bytes[1..];
    }
  }

  // ------------------------------------------------------------- the C library's reading

  predicate IsHexDigit(b: Byte) { b as char in LOWER || b as char in UPPER }

  /** The digit a byte spells. */
  ghost function DigitOf(b: Byte): (v: nat)
    requires IsHexDigit(b)
    ensures Spells(b, v)
  {
    if b as char in LOWER then
      var v :| 0 <= v < 16 && LOWER[v] == b as char;
      v
    else
      var v :| 0 <= v < 16 && UPPER[v] == b as char;
      v
  }

  ghost function ReadDigits(s: Text, sum: nat): nat {
    if s == [] || !IsHexDigit(s[0]) then sum else ReadDigits(s[1..], 16 * sum + DigitOf(s[0]))
  }

  /** A number in base 16 may begin with 0x. */
  ghost function ReadNumber(s: Text): nat {
    if |s| > 2 && s[0] as char == '0' && (s[1] as char == 'x' || s[1] as char == 'X') && IsHexDigit(s[2])
    then ReadDigits(s[2..], 0) else ReadDigits(s, 0)
  }

  /** `strtol` in base 16 on a string of any length: white space, a sign, then as many digits as there are. */
  ghost function Strtol(s: Text): int {
    if s == [] then 0
    else if s[0] as char == ' ' || 9 <= s[0] <= 13 then Strtol(s[1..])
    else if s[0] as char == '-' then 0 - ReadNumber(s[1..])
    else if s[0] as char == '+' then ReadNumber(s[1..])
    else ReadNumber(s)
  }

  lemma HexDigitIff(b: Byte)
    ensures IsHexDigit(b) <==> HexValue(b) >= 0
    ensures IsHexDigit(b) ==> DigitOf(b) == HexValue(b)
  {
    if HexValue(b) >= 0 {
      HexValueIs(b, HexValue(b));
    }
    if IsHexDigit(b) { HexValueIs(b, DigitOf(b)); }
  }

  lemma ReadNone(sum: nat)
    ensures ReadDigits([], sum) == sum
  {
  }

  lemma ReadOne(b: Byte, sum: nat)
    ensures ReadDigits([b], sum) == if HexValue(b) >= 0 then 16 * sum + HexValue(b) else sum
  {
    HexDigitIff(b);
    hide IsHexDigit, DigitOf, HexValue;
    assert [b][1..] == [];
    if HexValue(b) >= 0 { ReadNone(16 * sum + HexValue(b)); }
  }

  lemma ReadTwo(a: Byte, b: Byte)
    ensures ReadNumber([a, b]) ==
            if HexValue(a) < 0 then 0 else if HexValue(b) < 0 then HexValue(a) else 16 * HexValue(a) + HexValue(b)
  {
    HexDigitIff(a);
    hide IsHexDigit, DigitOf, HexValue;
    assert [a, b][1..] == [b];
    if HexValue(a) >= 0 { ReadOne(b, HexValue(a)); }
  }

  /** White space and signs are no digits. */
  lemma NoDigits(b: Byte)
    ensures b == SPACE || 9 <= b <= 13 || b == PLUS || b == MINUS ==> HexValue(b) == -1
  {
  }

  lemma ReadShort(b: Byte)
    ensures ReadNumber([b]) == (if HexValue(b) >= 0 then HexValue(b) else 0) && ReadNumber([]) == 0
  {
    ReadOne(b, 0);
  }

  /** A string of one byte: a digit or nothing. */
  lemma StrtolOne(b: Byte)
    ensures Strtol([b]) == if HexValue(b) >= 0 then HexValue(b) else 0
  {
    ReadShort(b);
    NoDigits(b);
    hide ReadNumber, HexValue;
    assert [b][1..] == [];
  }

  /** The two bytes after a percent sign are read as the C library reads them, digits or not. */
  lemma ReadsAsStrtol(a: Byte, b: Byte)
    ensures TwoByteStrtol(a, b) == Strtol([a, b])
  {
    assert [a, b][1..] == [b];
    ReadTwo(a, b);
    ReadShort(b);
    StrtolOne(b);
    NoDigits(a);
    hide ReadNumber, HexValue;
  }

  // --------------------------------------------------------------------- query strings

  predicate Free(s: Text, c: char) {
    forall i :: 0 <= i < |s| ==> s[i] as char != c
  }

  /** A part with an equals sign sets what is before the first one to what is behind it. */
  lemma ParsesPair(query: Query, key: Text, value: Text)
    requires Free(key, '=') && Free(key, '&') && Free(value, '&')
    ensures Parsed(query, key + [EQUALS] + value) == query[Decoded(key) := Decoded(value)]
  {
    hide Decoded, FirstIndex;
    var part := key + [EQUALS] + value;
    assert part[|key|] == EQUALS && part[..|key|] == key && part[|key| + 1..] == value;
    forall i | 0 <= i < |part| ensures !IsAmpersand(part[i]) && (i < |key| ==> !IsEquals(part[i])) {
      if i < |key| { assert part[i] == key[i]; }
      if i > |key| { assert part[i] == value[i - |key| - 1]; }
    }
    FirstIndexIs(part, IsEquals, |key|);
    OnePart(query, part);
  }

  /** A part without one is a key with nothing behind it. */
  lemma ParsesBareKey(query: Query, key: Text)
    requires key != [] && Free(key, '=') && Free(key, '&')
    ensures Parsed(query, key) == query[Decoded(key) := []]
  {
    hide Decoded, FirstIndex;
    assert forall i :: 0 <= i < |key| ==> !IsEquals(key[i]) && !IsAmpersand(key[i]);
    FirstIndexIs(key, IsEquals, |key|);
    OnePart(query, key);
  }

  lemma EmptyPart(query: Query)
    ensures Assigned(query, []) == query
  {
  }

  /** Empty parts, and an empty query, set nothing. */
  lemma SkipsEmptyPart(query: Query, rest: Text)
    ensures Parsed(query, []) == query && Parsed(query, [AMPERSAND] + rest) == Parsed(query, rest)
  {
    hide Decoded, FirstIndex;
    assert [] + [AMPERSAND] + rest == [AMPERSAND] + rest;
    FirstPart(query, [], rest);
    EmptyPart(query);
  }

  /** Parts are taken from left to right, so that the last one of a key stands. */
  lemma {:induction false} ParsesLeftToRight(query: Query, a: Text, b: Text)
    ensures Parsed(query, a + [AMPERSAND] + b) == Parsed(Parsed(query, a), b)
    decreases |a|
  {
    hide Decoded, FirstIndex, Assigned;
    var amp := FirstIndex(a, IsAmpersand);
    if amp == |a| {
      FirstPart(query, a, b);
      if a == [] { EmptyPart(query); } else { OnePart(query, a); }
    } else {
      var part, rest := a[..amp], a[amp + 1..];
      assert a == part + [AMPERSAND] + rest;
      FirstPart(query, part, rest);
      assert a + [AMPERSAND] + b == part + [AMPERSAND] + (rest + [AMPERSAND] + b);
      FirstPart(query, part, rest + [AMPERSAND] + b);
      ParsesLeftToRight(Assigned(query, part), rest, b);
    }
  }
}
