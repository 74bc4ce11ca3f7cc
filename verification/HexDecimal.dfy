/**
 The conversion of a hexadecimal digest to the decimal device id, by schoolbook
 arithmetic on a vector of decimal digits.
 */
module HexDecimal {
  import opened Alphabets
  import opened Counting
  import opened Decimal

  /** The value of a hex digit, or -1 for a character the conversion skips. */
  function Nibble(c: char): (v: int)
    ensures -1 <= v < 16
  {
    if '0' <= c <= '9' then c as int - '0' as int
    else if 'a' <= c <= 'f' then c as int - 'a' as int + 10
    else if 'A' <= c <= 'F' then c as int - 'A' as int + 10
    else -1
  }

  /** The number spelt by the hex digits of `hex`, everything else skipped. */
  function HexValue(hex: string): nat {
    if hex == "" then 0
    else
      var init := HexValue(hex[..|hex| - 1]);
      var v := Nibble(hex[|hex| - 1]);
      if v < 0 then init else init * 16 + v
  }

  // ---------------------------------------------------- digit vectors

  function Pow10(n: nat): nat { if n == 0 then 1 else 10 * Pow10(n - 1) }

  /** Splitting the value of a digit vector at position `|a|`. */
  lemma {:induction false} ValSplit(a: seq<Digit>, b: seq<Digit>)
    ensures Val(a + b) == Val(a) + Pow10(|a|) * Val(b)
  {
    if a == [] {
      ConcatEmpty(b);
    } else {
      ValSplit(a[1..], b);
      assert (a + b)[1..] == a[1..] + b;
      Distribute(Val(a[1..]), Pow10(|a| - 1), Val(b));
    }
  }

  lemma Distribute(x: nat, p: nat, y: nat)
    ensures 10 * (x + p * y) == 10 * x + 10 * p * y
  {
  }

  lemma ValSingle(d: Digit)
    ensures Val([d]) == d
  {
    assert [d][1..] == [];
  }

  lemma ValSnoc(a: seq<Digit>, d: Digit)
    ensures Val(a + [d]) == Val(a) + Pow10(|a|) * d
  {
    hide Pow10;
    ValSplit(a, [d]);
    ValSingle(d);
  }

  /** A digit vector with a nonzero highest place is at least that place's power of ten. */
  lemma ValAtLeast(a: seq<Digit>)
    requires a != [] && a[|a| - 1] != 0
    ensures Val(a) >= Pow10(|a| - 1)
  {
    hide Pow10, Val;
    var i, d := a[..|a| - 1], a[|a| - 1];
    assert a == i + [d];
    ValSnoc(i, d);
    Times(Pow10(|a| - 1), d);
  }

  lemma Times(p: nat, d: int)
    requires d >= 1
    ensures p * d >= p
  {
  }

  lemma {:induction false} ValBelow(a: seq<Digit>)
    ensures Val(a) < Pow10(|a|)
  {
    if a != [] { ValBelow(a[1..]); }
  }

  /** A vector that stands for at least its highest power of ten has no leading zero. */
  lemma NoLeadingZero(a: seq<Digit>)
    requires |a| > 1 && Val(a) >= Pow10(|a| - 1)
    ensures a[|a| - 1] != 0
  {
    hide Pow10, Val;
    var i, d := a[..|a| - 1], a[|a| - 1];
    assert a == i + [d];
    ValSnoc(i, d);
    ValBelow(i);
    TimesZero(Pow10(|i|));
  }

  lemma TimesZero(p: nat)
    ensures p * 0 == 0 && 0 * p == 0
  {
  }

  // ------------------------------------------------------- the carry loops

  function Low(x: nat): Digit { x % 10 }

  /** One place of a carry loop: the digits before it are done, `x` goes into it. */
  lemma CarryStep(done: seq<Digit>, x: nat)
    ensures Val(done + [Low(x)]) + Pow10(|done| + 1) * (x / 10) == Val(done) + Pow10(|done|) * x
  {
    var p := Pow10(|done|);
    assert Pow10(|done| + 1) == 10 * p;
    hide Pow10, Val;
    ValSnoc(done, Low(x));
    SplitTen(p, x);
  }

  lemma SplitTen(p: nat, x: nat)
    ensures p * Low(x) + 10 * p * (x / 10) == p * x
  {
    var q, r: nat := x / 10, x % 10;
    assert x == 10 * q + r;
    MulAdd(p, 10 * q, r);
    MulSwap(p, q);
  }

  lemma MulAdd(p: nat, a: nat, b: nat)
    ensures p * (a + b) == p * a + p * b
  {
  }

  lemma MulSwap(p: nat, q: nat)
    ensures p * (10 * q) == 10 * p * q
  {
  }

  lemma MulSixteen(p: nat, d: nat)
    ensures p * (d * 16) == 16 * (p * d)
  {
  }

  /** Pushing the rest of a carry as new digits adds exactly the carry. */
  method PushCarry(digits: seq<Digit>, carry0: nat) returns (r: seq<Digit>)
    ensures Val(r) == Val(digits) + Pow10(|digits|) * carry0
    ensures |r| >= |digits| && (carry0 == 0 ==> r == digits)
    ensures |r| > |digits| ==> r[|r| - 1] != 0
  {
    hide Pow10, Val;
    r := digits;
    var carry := carry0;
    while carry > 0
      invariant Val(r) + Pow10(|r|) * carry == Val(digits) + Pow10(|digits|) * carry0
      invariant |r| >= |digits| && (carry0 == 0 ==> r == digits)
      invariant carry == 0 && |r| > |digits| ==> r[|r| - 1] != 0
      decreases carry
    {
      CarryStep(r, carry);
      r := r + [Low(carry)];
      carry := carry / 10;
    }
    TimesZero(Pow10(|r|));
  }

  /** A result that has grown no shorter, and not smaller in value, has no leading zero. */
  lemma StaysCanonical(before: seq<Digit>, after: seq<Digit>)
    requires Canonical(before) && |after| >= |before| && Val(after) >= Val(before)
    requires |after| > |before| ==> after[|after| - 1] != 0
    ensures Canonical(after)
  {
    hide Pow10, Val;
    if |after| == |before| && |after| > 1 {
      ValAtLeast(before);
      NoLeadingZero(after);
    }
  }

  lemma TimesStep(digits: seq<Digit>, i: nat, done: seq<Digit>, carry: nat)
    requires i < |digits| && |done| == i
    requires Val(done) + Pow10(i) * carry == 16 * Val(digits[..i])
    ensures Val(done + [Low(digits[i] * 16 + carry)]) + Pow10(i + 1) * ((digits[i] * 16 + carry) / 10)
         == 16 * Val(digits[..i + 1])
  {
    hide Pow10, Val;
    var p, d := Pow10(i), digits[i];
    CarryStep(done, d * 16 + carry);
    assert digits[..i + 1] == digits[..i] + [d];
    ValSnoc(digits[..i], d);
    MulAdd(p, d * 16, carry);
    MulSixteen(p, d);
  }

  /** `digits * 16`, place by place, every stored place a digit and every carry below 16. */
  method TimesSixteen(digits: seq<Digit>) returns (r: seq<Digit>)
    requires Canonical(digits)
    ensures Val(r) == 16 * Val(digits) && Canonical(r)
  {
    hide Pow10, Val;
    r := [];
    var carry, i := 0, 0;
    TimesZero(Pow10(0));
    ValEmpty();
    while i < |digits|
      invariant i <= |digits| && |r| == i && 0 <= carry < 16
      invariant Val(r) + Pow10(i) * carry == 16 * Val(digits[..i])
    {
      TimesStep(digits, i, r, carry);
      var x: nat := digits[i] * 16 + carry;
      r := r + [Low(x)];
      carry := x / 10;
      i := i + 1;
    }
    assert digits[..i] == digits;
    r := PushCarry(r, carry);
    StaysCanonical(digits, r);
  }

  lemma ValEmpty()
    ensures Val([]) == 0
  {
  }

  lemma AddStep(digits: seq<Digit>, i: nat, done: seq<Digit>, carry: nat, v: nat)
    requires i < |digits| && |done| == i
    requires Val(done) + Pow10(i) * carry == Val(digits[..i]) + v
    ensures Val(done + [Low(digits[i] + carry)]) + Pow10(i + 1) * ((digits[i] + carry) / 10)
         == Val(digits[..i + 1]) + v
  {
    hide Pow10, Val;
    var p, d := Pow10(i), digits[i];
    CarryStep(done, d + carry);
    assert digits[..i + 1] == digits[..i] + [d];
    ValSnoc(digits[..i], d);
    MulAdd(p, d, carry);
  }

  /** The rest of the digits stays as it is once the carry is spent. */
  lemma SpentCarry(digits: seq<Digit>, i: nat, done: seq<Digit>, v: nat)
    requires i <= |digits| && |done| == i && Val(done) == Val(digits[..i]) + v
    ensures Val(done + digits[i..]) == Val(digits) + v
  {
    hide Pow10, Val;
    assert digits == digits[..i] + digits[i..];
    ValSplit(done, digits[i..]);
    ValSplit(digits[..i], digits[i..]);
  }

  /** `digits + v`, stopping as soon as nothing is carried. */
  method AddNibble(digits: seq<Digit>, v: nat) returns (r: seq<Digit>)
    requires Canonical(digits) && v < 16
    ensures Val(r) == Val(digits) + v && Canonical(r)
  {
    hide Pow10, Val;
    r := [];
    var carry, i := v, 0;
    ValEmpty();
    PowZero(v);
    while i < |digits| && carry != 0
      invariant i <= |digits| && |r| == i && 0 <= carry < 16
      invariant Val(r) + Pow10(i) * carry == Val(digits[..i]) + v
    {
      AddStep(digits, i, r, carry, v);
      var x: nat := digits[i] + carry;
      r := r + [Low(x)];
      carry := x / 10;
      i := i + 1;
    }
    if carry == 0 {
      TimesZero(Pow10(i));
      SpentCarry(digits, i, r, v);
    } else {
      assert digits[..i] == digits && digits[i..] == [];
      ConcatEmpty(r);
    }
    r := PushCarry(r + digits[i..], carry);
    TimesZero(Pow10(|digits|));
    StaysCanonical(digits, r);
  }

  lemma PowZero(v: nat)
    ensures Pow10(0) * v == v
  {
  }

  lemma HexStep(hex: string, i: nat)
    requires i < |hex|
    ensures HexValue(hex[..i + 1]) ==
            if Nibble(hex[i]) < 0 then HexValue(hex[..i]) else HexValue(hex[..i]) * 16 + Nibble(hex[i])
  {
    assert hex[..i + 1][..i] == hex[..i];
  }

  /** Whatever the text, the result is the canonical numeral of the number its hex digits spell. */
  method HexStringToDecimalString(hex: string) returns (result: string)
    ensures result == Numeral(HexValue(hex))
  {
    hide Val, HexValue, Print;
    var digits: seq<Digit> := [0];
    ZeroIsZero();
    var k := 0;
    while k < |hex|
      invariant k <= |hex| && Canonical(digits) && Val(digits) == HexValue(hex[..k])
    {
      HexStep(hex, k);
      var v := Nibble(hex[k]);
      if v >= 0 {
        digits := TimesSixteen(digits);
        digits := AddNibble(digits, v);
      }
      k := k + 1;
    }
    assert hex[..k] == hex;
    ValInjective(digits, DigitsOf(HexValue(hex)));

    result := "";
    var left := |digits|;
    assert digits[..left] == digits;
    ConcatEmpty(Print(digits));
    while left > 0
      invariant left <= |digits| && result + Print(digits[..left]) == Print(digits)
    {
      left := left - 1;
      PrintLast(digits[..left + 1]);
      assert digits[..left + 1][..left] == digits[..left];
      ConcatAssoc(result, [DigitChar(digits[left])], Print(digits[..left]));
      result := result + [DigitChar(digits[left])];
    }
    assert digits[..0] == [];
    PrintEmpty();
    ConcatEmpty(result);
    PrintLength(digits);
    result := if result == "" then "0" else result;
  }

  lemma ZeroIsZero()
    ensures Val([0]) == 0 && HexValue("") == 0
  {
    ValSingle(0);
  }

  lemma PrintEmpty()
    ensures Print([]) == ""
  {
  }

  /** Printing puts the highest place first. */
  lemma {:induction false} PrintLast(a: seq<Digit>)
    requires a != []
    ensures Print(a) == [DigitChar(a[|a| - 1])] + Print(a[..|a| - 1])
  {
    if |a| == 1 {
      assert a[1..] == [] && a[..0] == [];
    } else {
      var t := a[1..];
      PrintLast(t);
      assert t[..|t| - 1] == a[1..|a| - 1];
      var i := a[..|a| - 1];
      assert i[1..] == a[1..|a| - 1];
      ConcatAssoc([DigitChar(a[|a| - 1])], Print(i[1..]), [DigitChar(a[0])]);
    }
  }

  // ------------------------------------------------------------- hex notation

  /** Hexadecimal notation in sixteen given digits, by division. */
  function ToHex(n: nat, digits: string): string
    requires |digits| == 16
  {
    if n < 16 then [digits[n]] else ToHex(n / 16, digits) + [digits[n % 16]]
  }

  /** A further hex digit of either case shifts the number by one place. */
  lemma ReadsDigit(hex: string, v: nat)
    requires v < 16
    ensures HexValue(hex + [LOWER[v]]) == HexValue(hex + [UPPER[v]]) == 16 * HexValue(hex) + v
  {
    NibbleOfDigit(v);
    hide Nibble;
    assert (hex + [LOWER[v]])[..|hex|] == hex && (hex + [UPPER[v]])[..|hex|] == hex;
  }

  lemma NibbleOfDigit(v: nat)
    requires v < 16
    ensures Nibble(LOWER[v]) == Nibble(UPPER[v]) == v
  {
  }

  /** Any other character counts for nothing. */
  lemma SkipsOthers(hex: string, c: char)
    requires c !in LOWER && c !in UPPER
    ensures HexValue(hex + [c]) == HexValue(hex)
  {
    assert (hex + [c])[..|hex|] == hex;
    if Nibble(c) >= 0 { NibbleIsDigit(c); }
  }

  lemma NibbleIsDigit(c: char)
    requires Nibble(c) >= 0
    ensures c in LOWER || c in UPPER
  {
    assert c == LOWER[Nibble(c)] || c == UPPER[Nibble(c)];
  }

  /** Reading undoes writing, in either case. */
  lemma {:induction false} HexRoundTrip(n: nat)
    ensures HexValue(ToHex(n, LOWER)) == n && HexValue(ToHex(n, UPPER)) == n
  {
    hide HexValue;
    if n < 16 {
      ReadsDigit("", n);
      NothingIsZero();
      ConcatEmpty([LOWER[n]]);
      ConcatEmpty([UPPER[n]]);
    } else {
      HexRoundTrip(n / 16);
      ReadsDigit(ToHex(n / 16, LOWER), n % 16);
      ReadsDigit(ToHex(n / 16, UPPER), n % 16);
    }
  }

  lemma NothingIsZero()
    ensures HexValue("") == 0
  {
  }

  /** The text without the characters that are no hex digits. */
  function HexDigits(text: string): string {
    if text == "" then ""
    else
      var c := text[|text| - 1];
      HexDigits(text[..|text| - 1]) + if IsHexDigit(c) then [c] else ""
  }

  predicate IsHexDigit(c: char) { c in LOWER || c in UPPER }

  lemma HexDigitsSnoc(text: string, c: char)
    ensures HexDigits(text + [c]) == if IsHexDigit(c) then HexDigits(text) + [c] else HexDigits(text)
  {
    assert (text + [c])[..|text|] == text;
    hide HexDigits;
    ConcatEmpty(HexDigits(text));
  }

  /** The same digit behind two texts of one value. */
  lemma ReadsSame(a: string, b: string, c: char)
    requires IsHexDigit(c) && HexValue(a) == HexValue(b)
    ensures HexValue(a + [c]) == HexValue(b + [c])
  {
    hide HexValue;
    var v :| 0 <= v < 16 && (LOWER[v] == c || UPPER[v] == c);
    ReadsDigit(a, v);
    ReadsDigit(b, v);
  }

  /** Only the hex digits of a text matter. */
  lemma {:induction false} OnlyDigitsMatter(text: string)
    ensures HexValue(text) == HexValue(HexDigits(text))
  {
    if text != "" {
      var init, c := text[..|text| - 1], text[|text| - 1];
      OnlyDigitsMatter(init);
      assert text == init + [c];
      HexDigitsSnoc(init, c);
      hide HexValue, HexDigits;
      if IsHexDigit(c) {
        ReadsSame(init, HexDigits(init), c);
      } else {
        SkipsOthers(init, c);
      }
    }
  }

  lemma {:induction false} ZerosAreZero(zeros: nat)
    ensures HexValue(seq(zeros, _ => '0')) == 0
  {
    if zeros > 0 {
      ZerosAreZero(zeros - 1);
      assert seq(zeros, _ => '0')[..zeros - 1] == seq(zeros - 1, _ => '0');
    }
  }

  /** Zeros in front do not count. */
  lemma {:induction false} LeadingZeros(zeros: nat, hex: string)
    ensures HexValue(seq(zeros, _ => '0') + hex) == HexValue(hex)
  {
    var z := seq(zeros, _ => '0');
    if hex == "" {
      ZerosAreZero(zeros);
      ConcatEmpty(z);
    } else {
      LeadingZeros(zeros, hex[..|hex| - 1]);
      assert (z + hex)[..|z| + |hex| - 1] == z + hex[..|hex| - 1];
    }
  }

  /** The device id of a digest of any width that spells `n` is `n` in decimal notation. */
  method DecimalOfDigest(n: nat, zeros: nat) returns (id: string)
    ensures id == ToDecimal(n)
  {
    hide HexValue, Numeral;
    HexRoundTrip(n);
    LeadingZeros(zeros, ToHex(n, LOWER));
    NumeralIsDecimal(n);
    id := HexStringToDecimalString(seq(zeros, _ => '0') + ToHex(n, LOWER));
  }
}
