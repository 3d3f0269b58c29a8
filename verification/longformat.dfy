/**
 * Kotlin's fixed-width integers and the decimal text `Long.toString()` gives them:
 * an optional minus sign followed by the digits of the magnitude, without leading zeros.
 */
module LongFormat {
  import opened Wrappers

  /** Kotlin's `Int`: a signed 32-bit integer. */
  newtype int32 = x: int | -0x8000_0000 <= x < 0x8000_0000

  /** Kotlin's `Long`: a signed 64-bit integer. */
  newtype int64 = x: int | -0x8000_0000_0000_0000 <= x < 0x8000_0000_0000_0000

  /** `Int.toLong()`: sign-extending widening, which keeps the value. */
  function ToLong(i: int32): (l: int64)
    ensures l as int == i as int
  {
    i as int as int64
  }

  predicate IsDigit(c: char) {
    '0' <= c <= '9'
  }

  function DigitChar(d: nat): (c: char)
    requires d < 10
    ensures IsDigit(c) && c as int - '0' as int == d
  {
    ('0' as int + d) as char
  }

  /** The decimal digits of `n`, most significant first. */
  function NatToDecimal(n: nat): (s: string)
    ensures |s| >= 1
    ensures forall i :: 0 <= i < |s| ==> IsDigit(s[i])
    ensures s[0] == '0' <==> n == 0
    ensures n == 0 ==> s == "0"
  {
    if n < 10 then [DigitChar(n)] else NatToDecimal(n / 10) + [DigitChar(n % 10)]
  }

  /** `Long.toString()` in base 10. */
  function LongToString(n: int64): (s: string)
    ensures n < 0 <==> (|s| > 0 && s[0] == '-')
  {
    if n < 0 then "-" + NatToDecimal(-(n as int)) else NatToDecimal(n as int)
  }

  /** The value of a string of decimal digits. */
  function DecimalValue(s: string): nat
    requires forall i :: 0 <= i < |s| ==> IsDigit(s[i])
  {
    if s == [] then 0
    else
      assert IsDigit(s[|s| - 1]);
      10 * DecimalValue(s[..|s| - 1]) + (s[|s| - 1] as int - '0' as int)
  }

  predicate IsDigits(s: string) {
    |s| > 0 && forall i :: 0 <= i < |s| ==> IsDigit(s[i])
  }

  /** Reads a decimal numeral with an optional leading minus sign. */
  function ParseDecimal(s: string): Option<int> {
    if |s| > 0 && s[0] == '-' then
      if IsDigits(s[1..]) then Some(-(DecimalValue(s[1..]) as int)) else None
    else if IsDigits(s) then Some(DecimalValue(s))
    else None
  }

  lemma {:induction false} NatToDecimalValue(n: nat)
    ensures DecimalValue(NatToDecimal(n)) == n
  {
    if n >= 10 {
      var s := NatToDecimal(n);
      assert s[..|s| - 1] == NatToDecimal(n / 10);
      NatToDecimalValue(n / 10);
    }
  }

  /** The text of a `Long` reads back as the same number. */
  lemma LongToStringRoundTrip(n: int64)
    ensures ParseDecimal(LongToString(n)) == Some(n as int)
  {
    if n < 0 {
      var digits := NatToDecimal(-(n as int));
      assert LongToString(n) == "-" + digits;
      assert ("-" + digits)[1..] == digits;
      assert IsDigits(digits);
      NatToDecimalValue(-(n as int));
    } else {
      var digits := NatToDecimal(n as int);
      assert digits[0] != '-';
      assert IsDigits(digits);
      NatToDecimalValue(n as int);
    }
  }

  /** Distinct `Long` values have distinct texts. */
  lemma LongToStringInjective(m: int64, n: int64)
    requires LongToString(m) == LongToString(n)
    ensures m == n
  {
    LongToStringRoundTrip(m);
    LongToStringRoundTrip(n);
  }

  lemma LongToStringExamples()
    ensures LongToString(0) == "0"
    ensures LongToString(2024) == "2024"
    ensures LongToString(-7) == "-7"
  {
  }
}
