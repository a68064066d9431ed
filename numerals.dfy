/**
 * Fixed-width unsigned integers and their decimal text, as Rust's `Display`
 * writes them and as `str::parse::<u16>` reads them.
 */
module Numerals {
  import opened Wrappers

  type u8 = x: int | 0 <= x < 0x100
  type u16 = x: int | 0 <= x < 0x1_0000
  type u32 = x: int | 0 <= x < 0x1_0000_0000
  type u64 = x: int | 0 <= x < 0x1_0000_0000_0000_0000

  const U16_MAX: u16 := 0xFFFF
  const U32_MAX: u32 := 0xFFFF_FFFF

  predicate IsDigit(c: char) {
    '0' <= c <= '9'
  }

  predicate AllDigits(s: string) {
    forall i :: 0 <= i < |s| ==> IsDigit(s[i])
  }

  function DigitChar(d: nat): (c: char)
    requires d < 10
    ensures IsDigit(c)
  {
    ['0', '1', '2', '3', '4', '5', '6', '7', '8', '9'][d]
  }

  function DigitValue(c: char): (d: nat)
    requires IsDigit(c)
    ensures d < 10
  {
    (c as int) - ('0' as int)
  }

  /** The number a string of decimal digits denotes (most significant digit first). */
  function DigitsValue(s: string): nat
    requires AllDigits(s)
  {
    if s == [] then 0 else DigitsValue(s[..|s| - 1]) * 10 + DigitValue(s[|s| - 1])
  }

  /** Decimal text of a natural number, without sign or leading zeros. */
  function NatToString(n: nat): (s: string)
    ensures s != [] && AllDigits(s)
    ensures |s| > 1 ==> s[0] != '0'
    decreases n
  {
    if n < 10 then [DigitChar(n)] else NatToString(n / 10) + [DigitChar(n % 10)]
  }

  /** Reading back the decimal text of `n` gives `n`. */
  lemma {:induction false} NatToStringRoundTrip(n: nat)
    ensures DigitsValue(NatToString(n)) == n
    decreases n
  {
    var s := NatToString(n);
    if n >= 10 {
      NatToStringRoundTrip(n / 10);
      assert s[..|s| - 1] == NatToString(n / 10);
    }
  }

  /**
   * `s.parse::<u16>()`: an optional leading '+' (a lone sign is refused), then
   * one or more ASCII digits whose value fits in 16 bits. A '-' is a digit error
   * for an unsigned type, and leading zeros are accepted.
   */
  function ParseU16(s: string): (r: Option<u16>)
    ensures r.Some? <==>
      var digits := if |s| > 1 && s[0] == '+' then s[1..] else s;
      digits != [] && AllDigits(digits) && DigitsValue(digits) <= U16_MAX
    ensures r.Some? ==> r.value == DigitsValue(if s[0] == '+' then s[1..] else s)
  {
    if s == [] then None
    else
      var digits := if s[0] == '+' && |s| > 1 then s[1..] else s;
      if AllDigits(digits) && DigitsValue(digits) <= U16_MAX then Some(DigitsValue(digits)) else None
  }

  /** Parsing the text `Display` writes for a u16 gives the number back. */
  lemma ParseU16OfNatToString(n: u16)
    ensures ParseU16(NatToString(n)) == Some(n)
  {
    NatToStringRoundTrip(n);
  }
}
