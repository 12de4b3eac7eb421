/** Decimal text: `std::to_string` and the base-ten `std::from_chars` on 64-bit integers. */
module Decimal {
  import opened Wrappers

  const INT64_MIN := -0x8000_0000_0000_0000
  const INT64_MAX := 0x7fff_ffff_ffff_ffff

  predicate IsInt64(i: int) {
    INT64_MIN <= i <= INT64_MAX
  }

  predicate IsDigit(c: char) {
    '0' <= c <= '9'
  }

  predicate AllDigits(s: string) {
    forall i :: 0 <= i < |s| ==> IsDigit(s[i])
  }

  function DigitChar(d: nat): char
    requires d < 10
  {
    ('0' as int + d) as char
  }

  function DigitValue(c: char): nat
    requires IsDigit(c)
  {
    c as int - '0' as int
  }

  /** The shortest decimal text of a natural number. */
  function Digits(n: nat): (s: string)
    ensures |s| >= 1 && AllDigits(s)
  {
    if n < 10 then [DigitChar(n)] else Digits(n / 10) + [DigitChar(n % 10)]
  }

  function Magnitude(s: string): nat
    requires AllDigits(s)
  {
    if s == "" then 0 else 10 * Magnitude(s[..|s| - 1]) + DigitValue(s[|s| - 1])
  }

  /** `std::to_string`. */
  function ToString(i: int): string {
    if i < 0 then "-" + Digits(-i) else Digits(i)
  }

  /** `std::from_chars` in base ten, accepted only when it consumes the whole text without
      leaving the 64-bit range: an optional minus sign, then at least one digit. */
  function FromChars(text: string): (r: Option<int>)
    ensures r.Some? ==> IsInt64(r.value)
  {
    var negative := text != "" && text[0] == '-';
    var digits := if negative then text[1..] else text;
    if digits == "" || !AllDigits(digits) then None
    else
      var magnitude: int := Magnitude(digits);
      var value := if negative then -magnitude else magnitude;
      if IsInt64(value) then Some(value) else None
  }

  lemma {:induction false} MagnitudeOfDigits(n: nat)
    ensures Magnitude(Digits(n)) == n
  {
    if n >= 10 {
      MagnitudeOfDigits(n / 10);
      assert Digits(n)[..|Digits(n)| - 1] == Digits(n / 10);
    }
  }

  /** Reading back the decimal text of any 64-bit integer gives that integer. */
  lemma RoundTrip(i: int)
    ensures FromChars(ToString(i)) == if IsInt64(i) then Some(i) else None
  {
    var n := if i < 0 then -i else i;
    MagnitudeOfDigits(n);
    assert AllDigits(Digits(n));
    if i < 0 {
      assert ToString(i)[1..] == Digits(n);
    } else {
      assert IsDigit(Digits(n)[0]);
    }
  }

  // ---------------------------------------------------------------- which texts are read as a number

  function Zeros(z: nat): (s: string)
    ensures |s| == z && AllDigits(s)
  {
    seq(z, _ => '0')
  }

  /** A decimal text of `i`: its shortest one, with zeros after the sign; zero may have a sign too. */
  ghost predicate Numeral(text: string, i: int) {
    exists z: nat ::
      if i < 0 then text == "-" + Zeros(z) + Digits(-i)
      else text == Zeros(z) + Digits(i) || (i == 0 && text == "-" + Zeros(z) + Digits(0))
  }

  lemma {:induction false} MagnitudePadded(z: nat, s: string)
    requires AllDigits(s)
    ensures AllDigits(Zeros(z) + s) && Magnitude(Zeros(z) + s) == Magnitude(s)
  {
    var padded := Zeros(z) + s;
    if s != "" {
      var n := |s| - 1;
      MagnitudePadded(z, s[..n]);
      assert padded[..|padded| - 1] == Zeros(z) + s[..n];
    } else if z > 0 {
      MagnitudePadded(z - 1, s);
      assert padded[..|padded| - 1] == Zeros(z - 1) + s;
    }
  }

  /** One more digit at the end. */
  lemma DigitsSnoc(m: nat, c: char)
    requires IsDigit(c)
    ensures Digits(10 * m + DigitValue(c)) == if m == 0 then [c] else Digits(m) + [c]
  {
    var n := 10 * m + DigitValue(c);
    assert n / 10 == m && n % 10 == DigitValue(c);
    assert DigitChar(DigitValue(c)) == c;
  }

  lemma MagnitudeSnoc(s: string)
    requires AllDigits(s) && s != ""
    ensures AllDigits(s[..|s| - 1]) && IsDigit(s[|s| - 1])
    ensures Magnitude(s) == 10 * Magnitude(s[..|s| - 1]) + DigitValue(s[|s| - 1])
  {
  }

  lemma {:induction false} DigitsPadded(s: string) returns (z: nat)
    requires s != "" && AllDigits(s)
    ensures s == Zeros(z) + Digits(Magnitude(s))
  {
    var init, c := s[..|s| - 1], s[|s| - 1];
    MagnitudeSnoc(s);
    DigitsSnoc(Magnitude(init), c);
    assert s == init + [c];
    if init == "" {
      z := 0;
    } else {
      z := DigitsPadded(init);
      DigitsSnoc(0, '0');
      hide Digits, Magnitude;
      if Magnitude(init) == 0 { z := z + 1; }
    }
  }

  lemma PaddedReads(z: nat, n: nat, negative: bool)
    ensures var text := (if negative then "-" else "") + (Zeros(z) + Digits(n));
            var value: int := if negative then 0 - n else n;
            FromChars(text) == if IsInt64(value) then Some(value) else None
  {
    var digits := Zeros(z) + Digits(n);
    MagnitudePadded(z, Digits(n));
    MagnitudeOfDigits(n);
    hide Digits, Magnitude;
    assert IsDigit(digits[0]);
    if negative { assert ("-" + digits)[1..] == digits; } else { assert "" + digits == digits; }
  }

  lemma NumeralIsRead(text: string, i: int)
    requires IsInt64(i) && Numeral(text, i)
    ensures FromChars(text) == Some(i)
  {
    hide Digits, FromChars, Zeros;
    var z: nat :| if i < 0 then text == "-" + Zeros(z) + Digits(-i)
                  else text == Zeros(z) + Digits(i) || (i == 0 && text == "-" + Zeros(z) + Digits(0));
    var digits := Zeros(z) + Digits(if i < 0 then -i else i);
    assert text == "-" + digits || text == "" + digits;
    PaddedReads(z, if i < 0 then -i else i, i < 0);
    PaddedReads(z, 0, true);
  }

  lemma ReadIsNumeral(text: string, i: int)
    requires FromChars(text) == Some(i)
    ensures Numeral(text, i)
  {
    hide Digits, Magnitude, Zeros;
    var negative := text[0] == '-';
    var digits := if negative then text[1..] else text;
    var z := DigitsPadded(digits);
    if negative { assert text == "-" + Zeros(z) + Digits(Magnitude(digits)); }
  }

  /** The texts that are read as `i` are exactly its numerals, for 64-bit numbers and no others. */
  lemma ReadsNumerals(text: string, i: int)
    ensures FromChars(text) == Some(i) <==> IsInt64(i) && Numeral(text, i)
  {
    hide Numeral;
    if FromChars(text) == Some(i) { ReadIsNumeral(text, i); }
    if IsInt64(i) && Numeral(text, i) { NumeralIsRead(text, i); }
  }

  /** Decimal text never contains a line terminator. */
  lemma NoLineBreak(i: int)
    ensures '\r' !in ToString(i) && '\n' !in ToString(i)
  {
    var n := if i < 0 then -i else i;
    assert AllDigits(Digits(n));
  }
}
