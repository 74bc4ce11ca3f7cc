/**
 Percent-coding (sections 2.1 and 2.3 of RFC 3986) and the query strings built on it.
 Text is a sequence of bytes.
 */
module PercentCoding {
  import opened Counting

  type Byte = b: int | 0 <= b < 256
  type Text = seq<Byte>

  const PERCENT: Byte := 37
  const PLUS: Byte := 43
  const MINUS: Byte := 45
  const SPACE: Byte := 32
  const AMPERSAND: Byte := 38
  const EQUALS: Byte := 61

  predicate IsDigit(b: Byte) { 48 <= b <= 57 }
  predicate IsUpper(b: Byte) { 65 <= b <= 90 }
  predicate IsLower(b: Byte) { 97 <= b <= 122 }

  /** Letters, digits, '-', '_', '.' and '~'. */
  predicate Unreserved(b: Byte) {
    IsDigit(b) || IsUpper(b) || IsLower(b) || b == MINUS || b == 95 || b == 46 || b == 126
  }

  // ------------------------------------------------------------------------ encoding

  function HexDigit(v: int): (b: Byte)
    requires 0 <= v < 16
    ensures Unreserved(b)
  {
    if v < 10 then 48 + v else 55 + v
  }

  function EncodeByte(b: Byte): Text {
    if Unreserved(b) then [b] else [PERCENT, HexDigit(b / 16), HexDigit(b % 16)]
  }

  function Encoded(s: Text): Text {
    if s == [] then [] else EncodeByte(s[0]) + Encoded(s[1..])
  }

  method UrlEncode(value: Text) returns (stream: Text)
    ensures stream == Encoded(value)
  {
    hide EncodeByte;
    stream := [];
    var i := 0;
    ConcatEmpty(Encoded(value));
    assert value[0..] == value;
    while i < |value|
      invariant i <= |value| && stream + Encoded(value[i..]) == Encoded(value)
    {
      var ch := value[i];
      var unit: Text;
      if Unreserved(ch) { unit := [ch]; } else { unit := [PERCENT, HexDigit(ch / 16), HexDigit(ch % 16)]; }
      UnitIs(ch, unit);
      EncodedStep(value, i);
      ConcatAssoc(stream, unit, Encoded(value[i + 1..]));
      stream := stream + unit;
      i := i + 1;
    }
    EncodedEnd(value);
    ConcatEmpty(stream);
  }

  lemma UnitIs(b: Byte, unit: Text)
    requires unit == if Unreserved(b) then [b] else [PERCENT, HexDigit(b / 16), HexDigit(b % 16)]
    ensures unit == EncodeByte(b)
  {
  }

  lemma EncodedStep(value: Text, i: nat)
    requires i < |value|
    ensures Encoded(value[i..]) == EncodeByte(value[i]) + Encoded(value[i + 1..])
  {
    assert value[i..][1..] == value[i + 1..];
  }

  lemma EncodedEnd(value: Text)
    ensures Encoded(value[|value|..]) == []
  {
    assert value[|value|..] == [];
  }

  // ------------------------------------------------------------------------ decoding

  /** The value of a hex digit, or -1. */
  function HexValue(b: Byte): (v: int)
    ensures -1 <= v < 16
  {
    if IsDigit(b) then b - 48
    else if 65 <= b <= 70 then b - 55
    else if 97 <= b <= 102 then b - 87
    else -1
  }

  predicate IsSpace(b: Byte) { b == SPACE || 9 <= b <= 13 }

  /** `strtol` in base 16 on a two-byte string: white space, a sign and a short number are taken. */
  function TwoByteStrtol(a: Byte, b: Byte): (v: int)
    ensures -16 < v < 256
  {
    var first, second := HexValue(a), HexValue(b);
    if first >= 0 then (if second >= 0 then 16 * first + second else first)
    else if second >= 0 && (IsSpace(a) || a == PLUS) then second
    else if second >= 0 && a == MINUS then -second
    else 0
  }

  function ToByte(v: int): Byte { v % 256 }

  function Decoded(s: Text): Text
    decreases |s|
  {
    if s == [] then []
    else if s[0] == PERCENT && |s| > 2 then [ToByte(TwoByteStrtol(s[1], s[2]))] + Decoded(s[3..])
    else if s[0] == PLUS then [SPACE] + Decoded(s[1..])
    else [s[0]] + Decoded(s[1..])
  }

  method UrlDecode(value: Text) returns (decoded: Text)
    ensures decoded == Decoded(value)
  {
    hide TwoByteStrtol, ToByte;
    decoded := [];
    var i := 0;
    assert value[0..] == value;
    ConcatEmpty(Decoded(value));
    while i < |value|
      invariant i <= |value| && decoded + Decoded(value[i..]) == Decoded(value)
    {
      DecodedStep(value, i);
      var next: Byte;
      var from := i;
      if value[i] == PERCENT && i + 2 < |value| {
        next := ToByte(TwoByteStrtol(value[i + 1], value[i + 2]));
        i := i + 2;
      } else if value[i] == PLUS {
        next := SPACE;
      } else {
        next := value[i];
      }
      ConcatAssoc(decoded, [next], Decoded(value[i + 1..]));
      decoded := decoded + [next];
      i := i + 1;
    }
    assert value[i..] == [];
    DecodedEnd();
    ConcatEmpty(decoded);
  }

  lemma DecodedEnd()
    ensures Decoded([]) == []
  {
  }

  lemma DecodedStep(value: Text, i: nat)
    requires i < |value|
    ensures Decoded(value[i..]) ==
            if value[i] == PERCENT && i + 2 < |value|
            then [ToByte(TwoByteStrtol(value[i + 1], value[i + 2]))] + Decoded(value[i + 3..])
            else if value[i] == PLUS then [SPACE] + Decoded(value[i + 1..])
            else [value[i]] + Decoded(value[i + 1..])
  {
    var s := value[i..];
    assert s[1..] == value[i + 1..];
    if |s| > 2 { assert s[3..] == value[i + 3..]; }
  }

  // ---------------------------------------------------------------------- round trip

  lemma HexRoundTrip(b: Byte)
    ensures ToByte(TwoByteStrtol(HexDigit(b / 16), HexDigit(b % 16))) == b
  {
    var high, low := b / 16, b % 16;
    HexDigitValue(high);
    HexDigitValue(low);
    assert b == 16 * high + low;
  }

  lemma HexDigitValue(v: int)
    requires 0 <= v < 16
    ensures HexValue(HexDigit(v)) == v
  {
  }

  lemma DecodeUnit(b: Byte, rest: Text)
    ensures Decoded(EncodeByte(b) + rest) == [b] + Decoded(rest)
  {
    hide HexDigit, TwoByteStrtol, ToByte;
    HexRoundTrip(b);
    var s := EncodeByte(b) + rest;
    if Unreserved(b) {
      assert s[1..] == rest;
    } else {
      assert s[3..] == rest;
    }
  }

  /** Decoding undoes encoding on every byte string. */
  lemma {:induction false} DecodeUndoesEncode(s: Text)
    ensures Decoded(Encoded(s)) == s
  {
    if s != [] {
      DecodeUndoesEncode(s[1..]);
      DecodeUnit(s[0], Encoded(s[1..]));
    }
  }

  /** Encoded text is made of unreserved characters and percent signs. */
  lemma {:induction false} EncodedAlphabet(s: Text)
    ensures forall i :: 0 <= i < |Encoded(s)| ==> Unreserved(Encoded(s)[i]) || Encoded(s)[i] == PERCENT
  {
    if s != [] {
      EncodedAlphabet(s[1..]);
      var unit, rest := EncodeByte(s[0]), Encoded(s[1..]);
      assert forall i :: 0 <= i < |unit| ==> Unreserved(unit[i]) || unit[i] == PERCENT;
      assert forall i :: |unit| <= i < |unit + rest| ==> (unit + rest)[i] == rest[i - |unit|];
    }
  }

  // ------------------------------------------------------------------- query strings

  type Query = map<Text, Text>

  predicate IsAmpersand(b: Byte) { b == AMPERSAND }
  predicate IsEquals(b: Byte) { b == EQUALS }

  /** What one `&`-separated part sets. */
  function Assigned(query: Query, part: Text): Query {
    var eq := FirstIndex(part, IsEquals);
    if eq < |part| then query[Decoded(part[..eq]) := Decoded(part[eq + 1..])]
    else if part != [] then query[Decoded(part) := []]
    else query
  }

  function Parsed(query: Query, s: Text): Query
    decreases |s|
  {
    if s == [] then query
    else
      var amp := FirstIndex(s, IsAmpersand);
      if amp == |s| then Assigned(query, s)
      else Parsed(Assigned(query, s[..amp]), s[amp + 1..])
  }

  method ParseQuery(queryString: Text, initial: Query) returns (query: Query)
    ensures query == Parsed(initial, queryString)
  {
    hide Decoded;
    query := initial;
    var rest := queryString;
    while rest != []
      invariant Parsed(query, rest) == Parsed(initial, queryString)
      decreases |rest|
    {
      var amp := FirstIndex(rest, IsAmpersand);
      var part := rest[..amp];
      assert amp == |rest| ==> part == rest;
      var eq := FirstIndex(part, IsEquals);
      if eq < |part| {
        var key := UrlDecode(part[..eq]);
        var value := UrlDecode(part[eq + 1..]);
        query := query[key := value];
      } else if part != [] {
        var key := UrlDecode(part);
        query := query[key := []];
      }
      if amp == |rest| { break; }
      rest := rest[amp + 1..];
    }
  }

  datatype Field = Field(key: Text, value: Text)

  function PrintField(f: Field): Text { Encoded(f.key) + [EQUALS] + Encoded(f.value) }

  /** Encoded `key=value` pairs joined by `&`. */
  function PrintQuery(fields: seq<Field>): Text {
    if fields == [] then []
    else if |fields| == 1 then PrintField(fields[0])
    else PrintField(fields[0]) + [AMPERSAND] + PrintQuery(fields[1..])
  }

  function SetAll(query: Query, fields: seq<Field>): Query
    decreases |fields|
  {
    if fields == [] then query else SetAll(query[fields[0].key := fields[0].value], fields[1..])
  }

  /** A printed field assigns its value to its key and holds no ampersand. */
  lemma FieldParses(query: Query, f: Field)
    ensures Assigned(query, PrintField(f)) == query[f.key := f.value]
    ensures forall i :: 0 <= i < |PrintField(f)| ==> !IsAmpersand(PrintField(f)[i])
    ensures PrintField(f) != []
  {
    hide Encoded, Decoded, FirstIndex;
    var k, v, part := Encoded(f.key), Encoded(f.value), PrintField(f);
    EncodedAlphabet(f.key);
    EncodedAlphabet(f.value);
    NoSeparators(k);
    NoSeparators(v);
    assert part[|k|] == EQUALS && part[..|k|] == k && part[|k| + 1..] == v;
    forall i | 0 <= i < |part| ensures !IsAmpersand(part[i]) && (i < |k| ==> !IsEquals(part[i]))
    {
      if i < |k| { assert part[i] == k[i]; }
      if i > |k| { assert part[i] == v[i - |k| - 1]; }
    }
    FirstIndexIs(part, IsEquals, |k|);
    DecodeUndoesEncode(f.key);
    DecodeUndoesEncode(f.value);
  }

  lemma NoSeparators(s: Text)
    requires forall i :: 0 <= i < |s| ==> Unreserved(s[i]) || s[i] == PERCENT
    ensures forall i :: 0 <= i < |s| ==> !IsAmpersand(s[i]) && !IsEquals(s[i])
  {
  }

  lemma {:induction false} PrintedFieldsParse(query: Query, fields: seq<Field>)
    ensures Parsed(query, PrintQuery(fields)) == SetAll(query, fields)
    decreases |fields|
  {
    if fields != [] {
      var f, rest := fields[0], fields[1..];
      var s := PrintQuery(fields);
      FieldParses(query, f);
      PrintedFieldsParse(query[f.key := f.value], rest);
      if |fields| == 1 {
        assert rest == [];
        OnePart(query, s);
      } else {
        hide Assigned, PrintField, FirstIndex, Parsed;
        FirstPart(query, PrintField(f), PrintQuery(rest));
      }
    }
  }

  lemma OnePart(query: Query, part: Text)
    requires part != [] && forall i :: 0 <= i < |part| ==> !IsAmpersand(part[i])
    ensures Parsed(query, part) == Assigned(query, part)
  {
    hide Assigned;
    FirstIndexIs(part, IsAmpersand, |part|);
  }

  lemma FirstPart(query: Query, part: Text, rest: Text)
    requires forall i :: 0 <= i < |part| ==> !IsAmpersand(part[i])
    ensures Parsed(query, part + [AMPERSAND] + rest) == Parsed(Assigned(query, part), rest)
  {
    hide Assigned, FirstIndex;
    var s := part + [AMPERSAND] + rest;
    assert s[|part|] == AMPERSAND && s[..|part|] == part && s[|part| + 1..] == rest;
    FirstIndexIs(s, IsAmpersand, |part|);
  }

  ghost predicate Sets(fields: seq<Field>, key: Text) {
    exists i :: 0 <= i < |fields| && fields[i].key == key
  }

  /** Every listed pair is in `m`. */
  ghost predicate Among(fields: seq<Field>, m: Query) {
    forall i :: 0 <= i < |fields| ==> fields[i].key in m && m[fields[i].key] == fields[i].value
  }

  lemma SetsTail(fields: seq<Field>, key: Text)
    requires fields != []
    ensures Sets(fields, key) <==> fields[0].key == key || Sets(fields[1..], key)
  {
    if Sets(fields[1..], key) {
      var i :| 0 <= i < |fields| - 1 && fields[1..][i].key == key;
      assert fields[i + 1].key == key;
    }
    if Sets(fields, key) {
      var i :| 0 <= i < |fields| && fields[i].key == key;
      if i > 0 { assert fields[1..][i - 1].key == key; }
    }
  }

  lemma {:induction false} SetAllIs(query: Query, fields: seq<Field>, m: Query, key: Text)
    requires Among(fields, m)
    ensures key in SetAll(query, fields) <==> key in query || Sets(fields, key)
    ensures key in SetAll(query, fields) ==>
              SetAll(query, fields)[key] == if Sets(fields, key) then m[key] else query[key]
    decreases |fields|
  {
    if fields != [] {
      hide Sets;
      var f, rest := fields[0], fields[1..];
      assert forall i :: 0 <= i < |rest| ==> rest[i] == fields[i + 1];
      SetAllIs(query[f.key := f.value], rest, m, key);
      SetsTail(fields, key);
    }
  }

  /** Parsing a printed map, its pairs in whatever order, adds exactly that map. */
  lemma ParsePrintedMap(query: Query, fields: seq<Field>, m: Query)
    requires Among(fields, m) && forall k :: k in m ==> Sets(fields, k)
    ensures Parsed(query, PrintQuery(fields)) == query + m
  {
    hide SetAll, Parsed, PrintQuery;
    PrintedFieldsParse(query, fields);
    var r := SetAll(query, fields);
    forall k ensures (k in r <==> k in query || k in m) && (k in r ==> r[k] == if k in m then m[k] else query[k])
    {
      SetAllIs(query, fields, m, k);
    }
  }
}
