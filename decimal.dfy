/**
 * `str::parse::<i32>()` and the decimal rendering of an `i32`
 * (`i32::to_string`), as the `kill` built-in uses them.
 */
module Decimal {
  import opened Wrappers

  const I32Min: int := -0x8000_0000
  const I32Max: int := 0x7FFF_FFFF

  predicate IsDigit(c: char) {
    '0' <= c <= '9'
  }

  predicate AllDigits(s: string) {
    forall k :: 0 <= k < |s| ==> IsDigit(s[k])
  }

  function DigitValue(c: char): nat
    requires IsDigit(c)
  {
    c as int - '0' as int
  }

  function DigitChar(d: nat): (c: char)
    requires d < 10
    ensures IsDigit(c) && DigitValue(c) == d
  {
    ('0' as int + d) as char
  }

  /** The value of a string of decimal digits, most significant first. */
  function DigitsValue(s: string): nat
    requires AllDigits(s)
  {
    if s == [] then 0 else DigitsValue(s[..|s| - 1]) * 10 + DigitValue(s[|s| - 1])
  }

  /**
   * `i32::from_str`: an optional `+` or `-`, then at least one ASCII digit
   * and nothing else, whose value lies in the `i32` range; anything else is
   * an error.
   */
  function ParseI32(s: string): (r: Option<int>)
    ensures r.Some? ==> I32Min <= r.value <= I32Max
    ensures r.Some? ==>
      (s != [] && var d := if s[0] == '+' || s[0] == '-' then s[1..] else s; d != [] && AllDigits(d))
    ensures r.Some? && r.value < 0 ==> s[0] == '-'
  {
    if s == [] then None
    else
      var digits := if s[0] == '+' || s[0] == '-' then s[1..] else s;
      if digits == [] || !AllDigits(digits) then None
      else
        var v: int := if s[0] == '-' then -(DigitsValue(digits) as int) else DigitsValue(digits);
        if I32Min <= v <= I32Max then Some(v) else None
  }

  /** The value of `digits` after an optional `sign`, as `from_str` reads it. */
  function SignedValue(sign: string, digits: string): int
    requires AllDigits(digits)
  {
    if sign == "-" then -(DigitsValue(digits) as int) else DigitsValue(digits)
  }

  /**
   * Every sign-and-digits string parses, leading zeros and `-0` included,
   * to its signed value when that is an `i32`, and fails otherwise.
   */
  lemma ParseSigned(sign: string, digits: string)
    requires sign == "" || sign == "+" || sign == "-"
    requires digits != [] && AllDigits(digits)
    ensures var v := SignedValue(sign, digits);
      ParseI32(sign + digits) == (if I32Min <= v <= I32Max then Some(v) else None)
  {
    var s := sign + digits;
    if sign == "" {
      assert s == digits;
      assert IsDigit(s[0]);
    } else {
      assert s[0] == sign[0];
      assert s[1..] == digits;
    }
  }

  /** The decimal digits of `n` without leading zeros. */
  function NatDigits(n: nat): (s: string)
    ensures s != [] && AllDigits(s)
    ensures s[0] == '0' ==> n == 0 && s == "0"
  {
    if n < 10 then [DigitChar(n)] else NatDigits(n / 10) + [DigitChar(n % 10)]
  }

  /**
   * `i32::to_string`: a `-` for negative values, then the digits of the
   * magnitude with no leading zero; never a `+`.
   */
  function Render(n: int): (s: string)
    ensures s != []
    ensures n < 0 <==> s[0] == '-'
    ensures var d := if n < 0 then s[1..] else s;
      d != [] && AllDigits(d) && DigitsValue(d) == (if n < 0 then -n else n) &&
      (d[0] == '0' ==> d == "0")
  {
    if n < 0 then
      NatDigitsValue(-n);
      var s := "-" + NatDigits(-n);
      assert s[1..] == NatDigits(-n);
      s
    else
      NatDigitsValue(n);
      NatDigits(n)
  }

  /** Reading back the digits of `n` gives `n`. */
  lemma {:induction false} NatDigitsValue(n: nat)
    ensures DigitsValue(NatDigits(n)) == n
  {
    if n >= 10 {
      NatDigitsValue(n / 10);
      var s := NatDigits(n);
      assert s[..|s| - 1] == NatDigits(n / 10);
    }
  }

  /** Parsing the rendering of an `i32` gives the same value back. */
  lemma ParseRender(n: int)
    requires I32Min <= n <= I32Max
    ensures ParseI32(Render(n)) == Some(n)
  {
    var s := Render(n);
    if n >= 0 {
      assert IsDigit(s[0]);
    }
  }
}
