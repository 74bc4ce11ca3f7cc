/** Decimal numerals of natural numbers, as std::to_string and the device id print them. */
module Decimal {
  import opened Alphabets

  type Digit = d: int | 0 <= d < 10

  /** The value of little-endian digits. */
  function Val(digits: seq<Digit>): nat {
    if digits == [] then 0 else digits[0] + 10 * Val(digits[1..])
  }

  function DigitChar(d: Digit): char { '0' + d as char }

  /** Little-endian digits printed with the highest place first. */
  function Print(digits: seq<Digit>): string {
    if digits == [] then "" else Print(digits[1..]) + [DigitChar(digits[0])]
  }

  /** One or more digits, with a leading zero only in "0" itself. */
  predicate Canonical(digits: seq<Digit>) {
    digits != [] && (|digits| > 1 ==> digits[|digits| - 1] != 0)
  }

  function DigitsOf(n: nat): (digits: seq<Digit>)
    ensures Canonical(digits) && Val(digits) == n
  {
    if n < 10 then [n] else
      var rest := DigitsOf(n / 10);
      assert ([n % 10] + rest)[1..] == rest;
      assert n >= 10 ==> Val(rest) > 0;
      ValZero(rest);
      [n % 10] + rest
  }

  function Numeral(n: nat): string { Print(DigitsOf(n)) }

  lemma {:induction false} ValZero(digits: seq<Digit>)
    requires Canonical(digits)
    ensures Val(digits) == 0 ==> digits == [0]
    ensures digits[|digits| - 1] != 0 ==> Val(digits) > 0
  {
    if |digits| > 1 {
      ValZero(digits[1..]);
      assert digits[1..][|digits| - 2] == digits[|digits| - 1];
    }
  }

  /** A number has one canonical digit string. */
  lemma {:induction false} ValInjective(a: seq<Digit>, b: seq<Digit>)
    requires Canonical(a) && Canonical(b) && Val(a) == Val(b)
    ensures a == b
  {
    ValZero(a);
    ValZero(b);
    if |a| == 1 && |b| == 1 {
    } else if |a| == 1 {
      CanonicalTail(b);
    } else if |b| == 1 {
      CanonicalTail(a);
    } else {
      CanonicalTail(a);
      CanonicalTail(b);
      ValInjective(a[1..], b[1..]);
      assert a == [a[0]] + a[1..] && b == [b[0]] + b[1..];
    }
  }

  lemma CanonicalTail(a: seq<Digit>)
    requires Canonical(a) && |a| > 1
    ensures Canonical(a[1..]) && Val(a[1..]) > 0 && Val(a) >= 10
  {
    ValZero(a[1..]);
  }

  lemma {:induction false} PrintLength(a: seq<Digit>)
    ensures |Print(a)| == |a|
  {
    if a != [] { PrintLength(a[1..]); }
  }

  /** The lowest digit is printed last, behind the others. */
  lemma PrintEnds(a: seq<Digit>)
    requires a != []
    ensures |Print(a)| == |a|
    ensures Print(a)[|a| - 1] == DigitChar(a[0]) && Print(a)[..|a| - 1] == Print(a[1..])
  {
    PrintLength(a[1..]);
    var p := Print(a[1..]);
    assert Print(a) == p + [DigitChar(a[0])];
    assert (p + [DigitChar(a[0])])[..|p|] == p;
  }

  lemma DigitCharInjective(d: Digit, e: Digit)
    requires DigitChar(d) == DigitChar(e)
    ensures d == e
  {
  }

  lemma {:induction false} PrintInjective(a: seq<Digit>, b: seq<Digit>)
    requires Print(a) == Print(b)
    ensures a == b
  {
    hide Print, DigitChar;
    PrintLength(a);
    PrintLength(b);
    if a != [] {
      PrintEnds(a);
      PrintEnds(b);
      DigitCharInjective(a[0], b[0]);
      PrintInjective(a[1..], b[1..]);
      assert a == [a[0]] + a[1..] && b == [b[0]] + b[1..];
    }
  }

  predicate IsDigitChar(c: char) { '0' <= c <= '9' }

  lemma {:induction false} PrintDigits(a: seq<Digit>)
    ensures forall i :: 0 <= i < |Print(a)| ==> IsDigitChar(Print(a)[i])
  {
    if a != [] { PrintDigits(a[1..]); }
  }

  /** Different numbers have different numerals, and a numeral is made of digits only. */
  lemma NumeralInjective(m: nat, n: nat)
    ensures Numeral(m) == Numeral(n) ==> m == n
    ensures Numeral(m) != "" && forall i :: 0 <= i < |Numeral(m)| ==> IsDigitChar(Numeral(m)[i])
  {
    if Numeral(m) == Numeral(n) { PrintInjective(DigitsOf(m), DigitsOf(n)); }
    PrintDigits(DigitsOf(m));
    PrintLength(DigitsOf(m));
  }

  /** The usual notation, by division. */
  function ToDecimal(n: nat): string {
    if n < 10 then [FIGURES[n]] else ToDecimal(n / 10) + [FIGURES[n % 10]]
  }

  lemma DigitCharIs(d: Digit)
    ensures DigitChar(d) == FIGURES[d]
  {
  }

  /** A numeral is the number in decimal notation. */
  lemma {:induction false} NumeralIsDecimal(n: nat)
    ensures Numeral(n) == ToDecimal(n)
  {
    DigitCharIs(n % 10);
    var digits := DigitsOf(n);
    if n < 10 {
      assert digits == [n] && digits[1..] == [];
    } else {
      NumeralIsDecimal(n / 10);
      assert digits == [n % 10] + DigitsOf(n / 10);
      assert digits[1..] == DigitsOf(n / 10);
    }
  }
}
