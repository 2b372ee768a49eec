/** Positional numerals: what printing an integer means, independently of how it is printed. */
module Numerals {

  const DIGITS: string := "0123456789ABCDEF"

  /** The canonical numeral of `n`: most significant digit first, no leading zero. */
  function Numeral(n: nat, base: nat): (text: string)
    requires 2 <= base <= 16
    ensures |text| > 0
  {
    DivideBase(n, base);
    if n < base then [DIGITS[n]] else Numeral(n / base, base) + [DIGITS[n % base]]
  }

  /** The canonical text of an integer. */
  function Decimal(v: int): string {
    if v < 0 then "-" + Numeral(-v, 10) else Numeral(v, 10)
  }

  /** The value of a digit; characters that are not digits read as 0. */
  function DigitValue(c: char): nat {
    if '0' <= c <= '9' then c as int - '0' as int
    else if 'A' <= c <= 'F' then c as int - 'A' as int + 10
    else 0
  }

  /** Reads a numeral. */
  function Parse(text: string, base: nat): nat {
    if text == [] then 0
    else Parse(text[..|text| - 1], base) * base + DigitValue(text[|text| - 1])
  }

  /** Reads an optional sign and a decimal numeral. */
  function ParseDecimal(text: string): int {
    if text != [] && text[0] == '-' then -(Parse(text[1..], 10) as int) else Parse(text, 10)
  }

  function Pow(base: nat, e: nat): nat {
    if e == 0 then 1 else base * Pow(base, e - 1)
  }

  lemma DigitRoundTrip(d: nat)
    requires d < 16
    ensures DigitValue(DIGITS[d]) == d && DIGITS[d] != '-' && (DIGITS[d] == '0' <==> d == 0)
  {
    assert DIGITS == ['0', '1', '2', '3', '4', '5', '6', '7', '8', '9', 'A', 'B', 'C', 'D', 'E', 'F'];
  }

  /** Reading a canonical numeral gives the number back, and only zero starts with the digit 0. */
  lemma {:induction false} NumeralRoundTrip(n: nat, base: nat)
    requires 2 <= base <= 16
    ensures Parse(Numeral(n, base), base) == n
    ensures Numeral(n, base)[0] == '0' <==> n == 0
    ensures Numeral(n, base)[0] != '-'
  {
    if n < base {
      DigitRoundTrip(n);
      SingleDigit(DIGITS[n], base);
    } else {
      var q, d := n / base, n % base;
      DivideBase(n, base);
      NumeralRoundTrip(q, base);
      DigitRoundTrip(d);
      AppendDigit(Numeral(q, base), DIGITS[d], base);
    }
  }

  lemma SingleDigit(c: char, base: nat)
    ensures Parse([c], base) == DigitValue(c)
  {
    assert [c][..0] == [];
    assert Parse([], base) * base == 0;
  }

  lemma AppendDigit(text: string, c: char, base: nat)
    ensures Parse(text + [c], base) == Parse(text, base) * base + DigitValue(c)
  {
    assert (text + [c])[..|text|] == text;
  }

  lemma DivideBase(n: nat, base: nat)
    requires base >= 2
    ensures n == n / base * base + n % base && n % base < base
    ensures n >= base ==> 0 < n / base < n
  {
  }

  lemma QuotientOfDigit(n: nat, base: nat)
    requires base >= 2
    ensures n / base == 0 <==> n < base
    ensures n < base ==> n % base == n
  {
    DivideBase(n, base);
  }

  /** A numeral is the numeral of the quotient, if there is one, and the digit of the remainder. */
  lemma NumeralSplits(n: nat, base: nat)
    requires 2 <= base <= 16
    ensures Numeral(n, base) == (if n / base == 0 then "" else Numeral(n / base, base)) + [DIGITS[n % base]]
  {
    QuotientOfDigit(n, base);
    if n < base {
      assert "" + [DIGITS[n]] == [DIGITS[n]];
    }
  }

  /** Division undoes multiplication below a bound. */
  lemma DivideBelow(n: nat, base: nat, p: nat)
    requires base >= 2 && n < base * p
    ensures n / base < p
  {
    DivideBase(n, base);
    if n / base >= p {
      MulMonotone(base, p, n / base);
    }
  }

  lemma PowStep(base: nat, e: nat)
    requires 0 < e
    ensures Pow(base, e) == base * Pow(base, e - 1)
    ensures e == 1 ==> Pow(base, e) == base
  {
  }

  /** A number below base^e has at most e digits. */
  lemma {:induction false} NumeralLength(n: nat, base: nat, e: nat)
    requires 2 <= base <= 16 && 0 < e && n < Pow(base, e)
    ensures |Numeral(n, base)| <= e
  {
    if n < base {
    } else {
      PowStep(base, e);
      DivideBelow(n, base, Pow(base, e - 1));
      NumeralSplits(n, base);
      DivideBase(n, base);
      NumeralLength(n / base, base, e - 1);
    }
  }

  lemma MulMonotone(b: nat, x: nat, y: nat)
    requires x <= y
    ensures b * x <= b * y
  {
  }

  /** Reading the canonical text of any integer gives the integer back. */
  lemma DecimalRoundTrip(v: int)
    ensures ParseDecimal(Decimal(v)) == v
  {
    var text := if v < 0 then Numeral(-v, 10) else Numeral(v, 10);
    NumeralRoundTrip(if v < 0 then -v else v, 10);
    assert ("-" + text)[1..] == text;
  }

  // ---- Canonical texts ----

  predicate IsDigit(c: char, base: nat) {
    ('0' <= c <= '9' || 'A' <= c <= 'F') && DigitValue(c) < base
  }

  /** Digits of the base, at least one, and no leading zero. */
  ghost predicate IsNumeral(text: string, base: nat) {
    && text != [] && (forall i :: 0 <= i < |text| ==> IsDigit(text[i], base))
    && (text[0] == '0' ==> |text| == 1)
  }

  /** A decimal numeral, behind a minus sign if it is not zero. */
  ghost predicate IsDecimal(text: string) {
    if text != [] && text[0] == '-' then IsNumeral(text[1..], 10) && text[1] != '0' else IsNumeral(text, 10)
  }

  lemma DigitIsCanonical(d: nat, base: nat)
    requires d < base <= 16
    ensures IsDigit(DIGITS[d], base)
  {
    DigitRoundTrip(d);
    assert DIGITS == ['0', '1', '2', '3', '4', '5', '6', '7', '8', '9', 'A', 'B', 'C', 'D', 'E', 'F'];
  }

  lemma OnlyDigit(c: char, base: nat)
    requires base <= 16 && IsDigit(c, base)
    ensures DIGITS[DigitValue(c)] == c
  {
    assert DIGITS == ['0', '1', '2', '3', '4', '5', '6', '7', '8', '9', 'A', 'B', 'C', 'D', 'E', 'F'];
  }

  lemma {:induction false} NumeralIsCanonical(n: nat, base: nat)
    requires 2 <= base <= 16
    ensures IsNumeral(Numeral(n, base), base)
  {
    NumeralRoundTrip(n, base);
    if n < base {
      DigitIsCanonical(n, base);
      DigitRoundTrip(n);
    } else {
      DivideBase(n, base);
      NumeralIsCanonical(n / base, base);
      DigitIsCanonical(n % base, base);
    }
  }

  lemma Undivide(high: nat, base: nat, d: nat)
    requires 0 < high && d < base && 2 <= base
    ensures (high * base + d) / base == high && (high * base + d) % base == d && high * base + d >= base
  {
    var n := high * base + d;
    DivideBase(n, base);
    OneQuotient(n / base, n % base, high, d, base);
    MulMonotone(base, 1, high);
  }

  lemma OneQuotient(q: nat, r: nat, high: nat, d: nat, base: nat)
    requires q * base + r == high * base + d && r < base && d < base
    ensures q == high && r == d
  {
    if q > high {
      MulMonotone(base, high + 1, q);
    } else if q < high {
      MulMonotone(base, q + 1, high);
    }
  }

  /** One more digit behind a numeral. */
  lemma NumeralExtends(high: nat, base: nat, d: nat)
    requires 0 < high && d < base && 2 <= base <= 16
    ensures Numeral(high * base + d, base) == Numeral(high, base) + [DIGITS[d]]
  {
    Undivide(high, base, d);
  }

  lemma DigitsExtend(front: string, c: char, base: nat)
    requires 2 <= base <= 16 && Numeral(Parse(front, base), base) == front && Parse(front, base) > 0 && IsDigit(c, base)
    ensures Numeral(Parse(front + [c], base), base) == front + [c]
  {
    OnlyDigit(c, base);
    AppendDigit(front, c, base);
    NumeralExtends(Parse(front, base), base, DigitValue(c));
  }

  lemma OnlyDigits(c: char, base: nat)
    requires 2 <= base <= 16 && IsDigit(c, base)
    ensures Numeral(Parse([c], base), base) == [c]
  {
    OnlyDigit(c, base);
    SingleDigit(c, base);
  }

  lemma {:induction false} OnlyNumeral(text: string, base: nat)
    requires 2 <= base <= 16 && IsNumeral(text, base)
    ensures Numeral(Parse(text, base), base) == text
  {
    var n := |text| - 1;
    assert text == text[..n] + [text[n]];
    if n == 0 {
      OnlyDigits(text[0], base);
    } else {
      OnlyNumeral(text[..n], base);
      NumeralRoundTrip(Parse(text[..n], base), base);
      DigitsExtend(text[..n], text[n], base);
    }
  }

  /** A text is the numeral of a number if and only if it is canonical and reads as that number. */
  lemma NumeralIsTheOnlyOne(n: nat, base: nat, text: string)
    requires 2 <= base <= 16
    ensures text == Numeral(n, base) <==> IsNumeral(text, base) && Parse(text, base) == n
  {
    NumeralRoundTrip(n, base);
    NumeralIsCanonical(n, base);
    if IsNumeral(text, base) {
      OnlyNumeral(text, base);
    }
  }

  /** The same for integers and their decimal texts. */
  lemma DecimalIsTheOnlyOne(v: int, text: string)
    ensures text == Decimal(v) <==> IsDecimal(text) && ParseDecimal(text) == v
  {
    DecimalRoundTrip(v);
    DecimalIsCanonical(v);
    if IsDecimal(text) {
      OnlyDecimal(text);
    }
  }

  lemma DecimalIsCanonical(v: int)
    ensures IsDecimal(Decimal(v))
  {
    var n := if v < 0 then -v else v;
    NumeralIsCanonical(n, 10);
    NumeralRoundTrip(n, 10);
    assert ("-" + Numeral(n, 10))[1..] == Numeral(n, 10);
  }

  lemma NegativeText(rest: string)
    requires IsNumeral(rest, 10) && rest[0] != '0'
    ensures Parse(rest, 10) > 0 && Decimal(-(Parse(rest, 10) as int)) == "-" + rest
  {
    OnlyNumeral(rest, 10);
    NumeralRoundTrip(Parse(rest, 10), 10);
  }

  lemma OnlyDecimal(text: string)
    requires IsDecimal(text)
    ensures Decimal(ParseDecimal(text)) == text
  {
    if text[0] == '-' {
      NegativeText(text[1..]);
      assert text == "-" + text[1..];
    } else {
      OnlyNumeral(text, 10);
    }
  }

  const MIN_INT64: int := -0x8000_0000_0000_0000
  const MAX_UINT64: int := 0xFFFF_FFFF_FFFF_FFFF

  /** A value of any of the integer types that a stream prints. */
  predicate Printable(v: int) {
    MIN_INT64 <= v <= MAX_UINT64
  }

  /** The text of every 64-bit integer has at most 20 characters, and every numeral inside it at most that. */
  lemma DecimalLength(v: int)
    requires Printable(v)
    ensures |Decimal(v)| <= 20
  {
    assert Pow(10, 5) == 100_000;
    assert Pow(10, 10) == 10_000_000_000;
    assert Pow(10, 15) == 1_000_000_000_000_000;
    assert Pow(10, 19) == 10_000_000_000_000_000_000;
    assert Pow(10, 20) == 100_000_000_000_000_000_000;
    if v < 0 {
      NumeralLength(-v, 10, 19);
    } else {
      NumeralLength(v, 10, 20);
    }
  }

  /** A 64-bit address has at most 16 hexadecimal digits. */
  lemma AddressLength(p: nat)
    requires p <= MAX_UINT64
    ensures |Numeral(p, 16)| <= 16
  {
    assert Pow(16, 4) == 0x1_0000;
    assert Pow(16, 8) == 0x1_0000_0000;
    assert Pow(16, 12) == 0x1_0000_0000_0000;
    assert Pow(16, 16) == 0x1_0000_0000_0000_0000;
    NumeralLength(p, 16, 16);
  }
}
