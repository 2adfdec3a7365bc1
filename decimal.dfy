/** Decimal digits: rendering a natural number the way `%d` and `%02d` do,
    and reading a run of digits back. */
module Decimal {
  import opened Wrappers

  predicate IsDigit(c: char) {
    '0' <= c <= '9'
  }

  predicate AllDigits(s: string) {
    forall i :: 0 <= i < |s| ==> IsDigit(s[i])
  }

  function DigitChar(d: nat): (c: char)
    requires d < 10
    ensures IsDigit(c) && c as int - '0' as int == d
  {
    ('0' as int + d) as char
  }

  function DigitValue(c: char): (d: nat)
    requires IsDigit(c)
    ensures d < 10 && DigitChar(d) == c
  {
    c as int - '0' as int
  }

  /** The number a run of decimal digits denotes (the empty run denotes 0). */
  function DigitsValue(s: string): nat
    requires AllDigits(s)
  {
    if s == [] then 0 else DigitsValue(s[..|s| - 1]) * 10 + DigitValue(s[|s| - 1])
  }

  /** `%d` of a natural number: its digits, without leading zeros. */
  function DecimalString(n: nat): (r: string)
    ensures |r| >= 1 && AllDigits(r)
    ensures |r| > 1 ==> r[0] != '0'
    ensures DigitsValue(r) == n
    ensures |r| == 1 <==> n < 10
    ensures n < 100 ==> |r| <= 2
  {
    if n < 10 then [DigitChar(n)]
    else
      var front := DecimalString(n / 10);
      var r := front + [DigitChar(n % 10)];
      assert r[..|r| - 1] == front;
      r
  }

  /** Past one digit, the decimal text is that of the number without its last digit,
      followed by that digit. */
  lemma DecimalStep(n: nat)
    requires n >= 10
    ensures DecimalString(n) == DecimalString(n / 10) + [DigitChar(n % 10)]
  {
  }

  /** `%02d` of a number below 100: exactly two digits. */
  function Pad2(n: nat): (r: string)
    requires n < 100
    ensures |r| == 2 && AllDigits(r)
    ensures DigitsValue(r) == n
  {
    if n < 10 then
      var r := [DigitChar(0), DigitChar(n)];
      assert r[..1] == [DigitChar(0)];
      assert [DigitChar(0)][..0] == [];
      r
    else DecimalString(n)
  }

  /** No character outside '0'..'9' ever appears in a run of digits. */
  lemma NotInDigits(s: string, c: char)
    requires AllDigits(s) && !IsDigit(c)
    ensures c !in s
  {
  }

  /** The range of Kotlin's 32-bit `Int`. */
  const INT_MIN: int := -0x8000_0000
  const INT_MAX: int := 0x7FFF_FFFF

  predicate IsInt32(x: int) {
    INT_MIN <= x <= INT_MAX
  }

  /** A non-empty run of decimal digits, read as a count; anything else is None. */
  function ParseDigits(s: string): (r: Option<nat>)
    ensures r.Some? <==> s != [] && AllDigits(s)
    ensures r.Some? ==> r.value == DigitsValue(s)
  {
    if s != [] && AllDigits(s) then Some(DigitsValue(s)) else None
  }

  /** Kotlin's `String.toInt()` on ASCII text: an optional '+' or '-', then at least
      one digit, within the `Int` range; anything else is a `NumberFormatException`. */
  function ParseInt(s: string): (r: Option<int>)
    ensures r.Some? ==> IsInt32(r.value)
  {
    if s == [] then None
    else
      var negative := s[0] == '-';
      var digits := if s[0] == '-' || s[0] == '+' then s[1..] else s;
      if digits == [] || !AllDigits(digits) then None
      else
        var magnitude: int := DigitsValue(digits);
        var v := if negative then 0 - magnitude else magnitude;
        if IsInt32(v) then Some(v) else None
  }

  /** `toInt` reads back what `%d` writes. */
  lemma ParseIntOfDecimal(n: nat)
    requires n <= INT_MAX
    ensures ParseInt(DecimalString(n)) == Some(n)
  {
  }

  /** Only text made of an optional sign and digits parses. */
  lemma {:induction false} ParseIntShape(s: string)
    requires ParseInt(s).Some?
    ensures s != []
    ensures forall i :: 0 < i < |s| ==> IsDigit(s[i])
    ensures IsDigit(s[0]) || s[0] == '-' || s[0] == '+'
  {
  }
}
