/** Python's `str()` on an integer: its decimal digits, with a leading '-'
    for a negative number, and the parse that reads the string back. */
module Decimal {
  import opened Wrappers

  predicate IsDigit(c: char) {
    '0' <= c <= '9'
  }

  predicate AllDigits(s: string) {
    forall k :: 0 <= k < |s| ==> IsDigit(s[k])
  }

  function DigitChar(d: nat): (c: char)
    requires d < 10
  {
    (48 + d) as char
  }

  /** The decimal digits of `n`, without leading zeros. */
  function FromNat(n: nat): (s: string)
    ensures |s| > 0 && AllDigits(s)
    ensures s[0] == '0' ==> n == 0
  {
    if n < 10 then [DigitChar(n)] else FromNat(n / 10) + [DigitChar(n % 10)]
  }

  /** `str(i)`. */
  function FromInt(i: int): (s: string)
    ensures |s| > 0
    ensures s[0] == '-' <==> i < 0
  {
    if i < 0 then "-" + FromNat(-i) else FromNat(i)
  }

  /** The number a string of decimal digits denotes. */
  function ValueOf(s: string): nat
    requires AllDigits(s)
  {
    if s == [] then 0 else ValueOf(s[..|s| - 1]) * 10 + (s[|s| - 1] as int - 48)
  }

  /** Reads back what `FromInt` writes: optional '-' then at least one digit. */
  function Parse(s: string): Option<int> {
    if |s| > 1 && s[0] == '-' && AllDigits(s[1..]) then Some(-(ValueOf(s[1..]) as int))
    else if |s| > 0 && AllDigits(s) then Some(ValueOf(s))
    else None
  }

  lemma {:induction false} NatRoundTrip(n: nat)
    ensures ValueOf(FromNat(n)) == n
  {
    if n >= 10 {
      var s := FromNat(n);
      assert s[..|s| - 1] == FromNat(n / 10);
      NatRoundTrip(n / 10);
    }
  }

  /** Parsing the decimal form of an integer gives the integer back. */
  lemma RoundTrip(i: int)
    ensures Parse(FromInt(i)) == Some(i)
  {
    if i < 0 {
      var s := FromInt(i);
      assert s[1..] == FromNat(-i);
      NatRoundTrip(-i);
    } else {
      NatRoundTrip(i);
    }
  }

  /** Distinct integers have distinct decimal forms. */
  lemma Injective(i: int, j: int)
    requires FromInt(i) == FromInt(j)
    ensures i == j
  {
    RoundTrip(i);
    RoundTrip(j);
  }
}
