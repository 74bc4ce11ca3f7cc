/**
 The encoding side of the Base64 gate against section 4 of RFC 4648: the alphabet in table
 order, the number that each group spells, and the padding.
 */
module Base64Table {
  import opened Alphabets
  import opened Base64

  /** Table 1, in order. */
  const ALPHABET: string := CAPITALS + SMALL + FIGURES + "+/"

  lemma CapitalAt(v: nat)
    requires v < 26
    ensures Letter(v) as char == CAPITALS[v]
  {
  }

  lemma SmallAt(v: nat)
    requires v < 26
    ensures Letter(v + 26) as char == SMALL[v]
  {
  }

  lemma FigureAt(v: nat)
    requires v < 10
    ensures Letter(v + 52) as char == FIGURES[v]
  {
  }

  /** Every group is spelt by the character in its place of the table. */
  lemma LetterIsTable(v: Sextet)
    ensures |ALPHABET| == 64 && Letter(v) as char == ALPHABET[v]
  {
    if v < 26 {
      CapitalAt(v);
    } else if v < 52 {
      SmallAt(v - 26);
    } else if v < 62 {
      FigureAt(v - 52);
    } else {
      assert ALPHABET[v] == "+/"[v - 62];
    }
  }

  /** A decoder reads exactly the table's characters, each as its place. */
  lemma ValueIsPlace(c: Byte)
    ensures Value(c) >= 0 <==> exists v: nat :: v < 64 && c as char == ALPHABET[v]
    ensures forall v: nat :: v < 64 && c as char == ALPHABET[v] ==> Value(c) == v
  {
    if Value(c) >= 0 {
      ValueLetter(c);
      LetterIsTable(Value(c));
    }
    forall v: nat | v < 64 && c as char == ALPHABET[v] ensures Value(c) == v {
      LetterIsTable(v);
      LetterValue(v);
      hide Letter, Value;
    }
  }

  /** The numbers that two, three or four digits spell. */
  function Two(base: int, a: int, b: int): int { base * a + b }

  function Three(base: int, a: int, b: int, c: int): int { base * (base * a + b) + c }

  function Four(base: int, a: int, b: int, c: int, d: int): int { base * (base * (base * a + b) + c) + d }

  lemma GroupNumber(a: Byte, b: Byte, c: Byte)
    ensures Three(256, a, b, c) == Four(64, Cut0(a), Cut1(a, b), Cut2(b, c), Cut3(c))
    ensures 4 * Two(256, a, b) == Three(64, Cut0(a), Cut1(a, b), Cut2(b, 0))
    ensures 16 * a as int == Two(64, Cut0(a), Cut1(a, 0))
  {
    var x: int, y: int, z: int := a, b, c;
    assert x == 4 * (x / 4) + x % 4 && y == 16 * (y / 16) + y % 16 && z == 64 * (z / 64) + z % 64;
  }

  /** Three bytes and their four groups are the same 24-bit number; shorter ends are shifted up to whole groups. */
  lemma GroupsSpellBytes(b: seq<Byte>)
    ensures var d := Sextets(b);
            if |b| == 0 then d == []
            else if |b| == 1 then |d| == 2 && 16 * (b[0] as int) == Two(64, d[0], d[1])
            else if |b| == 2 then |d| == 3 && 4 * Two(256, b[0], b[1]) == Three(64, d[0], d[1], d[2])
            else |d| == 4 + |Sextets(b[3..])| && d[4..] == Sextets(b[3..])
                 && Three(256, b[0], b[1], b[2]) == Four(64, d[0], d[1], d[2], d[3])
  {
    hide Two, Three, Four, Cut0, Cut1, Cut2, Cut3;
    if |b| >= 3 {
      GroupNumber(b[0], b[1], b[2]);
      assert Sextets(b)[4..] == Sextets(b[3..]);
    } else if |b| == 2 {
      GroupNumber(b[0], b[1], 0);
    } else if |b| == 1 {
      GroupNumber(b[0], 0, 0);
    }
  }

  lemma PadsAre(b: seq<Byte>)
    ensures PadCount(b) == if |b| % 3 == 1 then 2 else if |b| % 3 == 2 then 1 else 0
  {
  }

  /** An encoded text is the table's characters for its groups, filled up to whole blocks with '='. */
  lemma EncodingIs(b: seq<Byte>)
    ensures var text, d := EncodePadded(b), Sextets(b);
            && |text| == |d| + (if |b| % 3 == 1 then 2 else if |b| % 3 == 2 then 1 else 0)
            && |ALPHABET| == 64 && (forall i :: 0 <= i < |d| ==> text[i] as char == ALPHABET[d[i]])
            && (forall i :: |d| <= i < |text| ==> text[i] as char == '=')
            && EncodeUnpadded(b) == text[..|d|]
  {
    hide Sextets, Letter, PadCount;
    PadsAre(b);
    var d := Sextets(b);
    LetterIsTable(0);
    assert EncodeUnpadded(b) == Spell(d) && EncodePadded(b) == Spell(d) + Pads(PadCount(b));
    forall i | 0 <= i < |d| ensures EncodePadded(b)[i] as char == ALPHABET[d[i]] {
      LetterIsTable(d[i]);
    }
  }

  /** The white space of the C locale. */
  const SPACES: string := " \t\n\U{B}\U{C}\r"

  lemma SpaceIs(c: Byte)
    ensures IsSpace(c) <==> c as char in SPACES
  {
    assert SPACES[0] == ' ' && SPACES[1] == '\t' && SPACES[2] == '\n';
    assert SPACES[3] == '\U{B}' && SPACES[4] == '\U{C}' && SPACES[5] == '\r';
  }

  /** What the gate ignores: white space, wherever it stands, and nothing else. */
  lemma StripsSpaces(s: seq<Byte>, c: Byte)
    ensures Strip([]) == [] && Strip(s + [c]) == if c as char in SPACES then Strip(s) else Strip(s) + [c]
  {
    SpaceIs(c);
    hide IsSpace;
    assert (s + [c])[..|s|] == s;
  }
}
