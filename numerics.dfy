/** The two pieces of C# integer semantics the ruler's drawing code relies on:
    `int.ToString()` (decimal text, leading minus for negatives) and `/ 2`,
    which truncates toward zero rather than rounding down. */
module Numerics {

  predicate IsDigit(c: char) {
    '0' <= c <= '9'
  }

  function DigitChar(d: nat): (c: char)
    requires d < 10
    ensures IsDigit(c) && c as int - '0' as int == d
  {
    (d + '0' as int) as char
  }

  function DigitValue(c: char): (d: nat)
    requires IsDigit(c)
    ensures d < 10
  {
    c as int - '0' as int
  }

  /** Decimal digits of n, most significant first, as `ToString` writes them. */
  function NatToDecimal(n: nat): (s: string)
    decreases n
  {
    if n < 10 then [DigitChar(n)] else NatToDecimal(n / 10) + [DigitChar(n % 10)]
  }

  /** C# `int.ToString()` under an invariant culture. */
  function IntToDecimal(i: int): (s: string) {
    if i < 0 then "-" + NatToDecimal(-i) else NatToDecimal(i)
  }

  predicate AllDigits(s: string) {
    forall k :: 0 <= k < |s| ==> IsDigit(s[k])
  }

  /** The canonical form `ToString` produces: digits only, no leading zero except "0". */
  predicate IsCanonicalNat(s: string) {
    |s| > 0 && AllDigits(s) && (s[0] == '0' ==> |s| == 1)
  }

  /** Reads a string of decimal digits back as a number. */
  function ParseNat(s: string): (n: nat)
    requires AllDigits(s)
    decreases |s|
  {
    if s == [] then 0 else ParseNat(s[..|s| - 1]) * 10 + DigitValue(s[|s| - 1])
  }

  /** Reads an optional leading minus sign followed by decimal digits. */
  function ParseInt(s: string): (i: int)
    requires AllDigits(s) || (|s| > 0 && s[0] == '-' && AllDigits(s[1..]))
  {
    if |s| > 0 && s[0] == '-' then 0 - ParseNat(s[1..]) else ParseNat(s)
  }

  lemma {:induction false} NatToDecimalIsCanonical(n: nat)
    ensures IsCanonicalNat(NatToDecimal(n))
    ensures n >= 10 ==> NatToDecimal(n)[0] != '0'
    decreases n
  {
    if n >= 10 {
      NatToDecimalIsCanonical(n / 10);
      var s := NatToDecimal(n / 10);
      assert NatToDecimal(n) == s + [DigitChar(n % 10)];
      assert (s + [DigitChar(n % 10)])[0] == s[0];
    }
  }

  /** Parsing undoes `NatToDecimal`. */
  lemma {:induction false} ParseNatToDecimal(n: nat)
    ensures AllDigits(NatToDecimal(n)) && ParseNat(NatToDecimal(n)) == n
    decreases n
  {
    NatToDecimalIsCanonical(n);
    if n >= 10 {
      var s := NatToDecimal(n / 10);
      var t := s + [DigitChar(n % 10)];
      assert t == NatToDecimal(n);
      assert t[..|t| - 1] == s;
      ParseNatToDecimal(n / 10);
    }
  }

  /** Parsing undoes `IntToDecimal`: the label text of a ruler names its width exactly. */
  lemma ParseIntToDecimal(i: int)
    ensures var s := IntToDecimal(i);
            (AllDigits(s) || (|s| > 0 && s[0] == '-' && AllDigits(s[1..]))) && ParseInt(s) == i
  {
    if i < 0 {
      ParseNatToDecimal(-i);
      assert IntToDecimal(i)[1..] == NatToDecimal(-i);
    } else {
      ParseNatToDecimal(i);
      NatToDecimalIsCanonical(i);
    }
  }

  /** `IntToDecimal` is injective: different numbers are labelled differently. */
  lemma IntToDecimalInjective(i: int, j: int)
    requires IntToDecimal(i) == IntToDecimal(j)
    ensures i == j
  {
    ParseIntToDecimal(i);
    ParseIntToDecimal(j);
  }

  /** C# `a / 2` on `int`: the quotient rounded toward zero. */
  function HalfTowardZero(a: int): (q: int)
    ensures -1 <= a - 2 * q <= 1
    ensures 0 <= a ==> 0 <= q && 0 <= a - 2 * q
    ensures a <= 0 ==> q <= 0 && a - 2 * q <= 0
  {
    if a < 0 then -((-a) / 2) else a / 2
  }
}
