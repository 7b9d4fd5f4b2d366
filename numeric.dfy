// Fixed-width integers and decimal formatting, as the Go code uses them.
module Numeric {
  import opened Wrappers

  newtype byte = x: int | 0 <= x < 256

  const INT64_MIN: int := -0x8000_0000_0000_0000
  const INT64_MAX: int := 0x7FFF_FFFF_FFFF_FFFF
  const TWO_TO_THE_64: int := 0x1_0000_0000_0000_0000

  /** Go's int64 (and int on 64-bit targets). */
  type Int64 = x: int | INT64_MIN <= x <= INT64_MAX

  /** Two's-complement wrap-around of an unbounded result into 64 bits. */
  function WrapInt64(x: int): (r: Int64)
    ensures r % TWO_TO_THE_64 == x % TWO_TO_THE_64
    ensures INT64_MIN <= x <= INT64_MAX ==> r == x
  {
    var m := x % TWO_TO_THE_64;
    if m > INT64_MAX then m - TWO_TO_THE_64 else m
  }

  /** The int64 product `a * b`, which wraps around on overflow. */
  function MulInt64(a: Int64, b: Int64): (r: Int64)
    ensures r % TWO_TO_THE_64 == (a * b) % TWO_TO_THE_64
    ensures INT64_MIN <= a * b <= INT64_MAX ==> r == a * b
  {
    WrapInt64(a * b)
  }

  predicate IsDigit(c: char) { '0' <= c <= '9' }

  predicate AllDigits(s: string) { forall k :: 0 <= k < |s| ==> IsDigit(s[k]) }

  function DigitChar(d: int): (c: char)
    requires 0 <= d < 10
    ensures IsDigit(c) && c as int - '0' as int == d
  {
    ('0' as int + d) as char
  }

  /** Decimal digits of a natural number, without leading zeros. */
  function NatToString(n: nat): string
    decreases n
  {
    if n < 10 then [DigitChar(n)] else NatToString(n / 10) + [DigitChar(n % 10)]
  }

  /** strconv.Itoa */
  function Itoa(i: int): string
  {
    if i < 0 then "-" + NatToString(-(i as int)) else NatToString(i)
  }

  /** The value of a run of decimal digits. */
  function DigitsValue(s: string): nat
    requires AllDigits(s)
  {
    if |s| == 0 then 0 else DigitsValue(s[..|s| - 1]) * 10 + (s[|s| - 1] as int - '0' as int)
  }

  /** strconv.Atoi: an optional sign, at least one digit, and the value in range. */
  function Atoi(s: string): Option<Int64>
  {
    var neg := |s| > 0 && s[0] == '-';
    var digits := if |s| > 0 && (s[0] == '-' || s[0] == '+') then s[1..] else s;
    if |digits| == 0 || !AllDigits(digits) then None
    else
      var v: int := if neg then 0 - DigitsValue(digits) as int else DigitsValue(digits);
      if INT64_MIN <= v <= INT64_MAX then Some(v) else None
  }

  lemma {:induction false} NatToStringDigits(n: nat)
    ensures |NatToString(n)| > 0 && AllDigits(NatToString(n))
    ensures DigitsValue(NatToString(n)) == n
    decreases n
  {
    if n >= 10 {
      NatToStringDigits(n / 10);
      var s := NatToString(n / 10) + [DigitChar(n % 10)];
      assert s[..|s| - 1] == NatToString(n / 10);
    }
  }

  /** Atoi reads back every int64 that Itoa writes. */
  lemma ItoaRoundTrip(i: Int64)
    ensures Atoi(Itoa(i)) == Some(i)
  {
    if i < 0 {
      NatToStringDigits(-(i as int));
      assert ("-" + NatToString(-(i as int)))[1..] == NatToString(-(i as int));
    } else {
      NatToStringDigits(i);
    }
  }
}
