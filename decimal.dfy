/**
 * Decimal text for integers, as JavaScript writes a number into a template
 * string (`${id}`) and reads it back with `Number(...)`.
 */
module Decimal {
  import opened Wrappers

  predicate IsDigit(c: char) {
    '0' <= c <= '9'
  }

  predicate AllDigits(s: string) {
    forall i :: 0 <= i < |s| ==> IsDigit(s[i])
  }

  function DigitChar(d: nat): (c: char)
    requires d < 10
    ensures IsDigit(c) && c as int - '0' as int == d
  {
    ('0' as int + d) as char
  }

  /** The shortest decimal numeral of `n`: non-empty, digits only. */
  function NatToString(n: nat): (s: string)
    ensures s != [] && AllDigits(s)
    decreases n
  {
    if n < 10 then [DigitChar(n)] else NatToString(n / 10) + [DigitChar(n % 10)]
  }

  /** The value of a string of digits, most significant first. */
  function DigitsValue(s: string): nat
    requires AllDigits(s)
  {
    if s == [] then 0 else DigitsValue(s[..|s| - 1]) * 10 + (s[|s| - 1] as int - '0' as int)
  }

  /** `String(i)` for an integer: an optional minus sign, then the digits of `|i|`. */
  function IntToString(i: int): (s: string)
    ensures s != [] && (AllDigits(s) || (s[0] == '-' && AllDigits(s[1..])))
    ensures forall k :: 0 <= k < |s| ==> s[k] == '-' || IsDigit(s[k])
  {
    if i < 0 then "-" + NatToString(-i) else NatToString(i)
  }

  /** Reads an optionally signed string of digits; `None` for anything else. */
  function ParseInt(s: string): (r: Option<int>)
    ensures s == [] ==> r.None?
  {
    if s != [] && s[0] == '-' then
      if |s| > 1 && AllDigits(s[1..]) then Some(-(DigitsValue(s[1..]) as int)) else None
    else if s != [] && AllDigits(s) then Some(DigitsValue(s))
    else None
  }

  lemma {:induction false} NatRoundTrip(n: nat)
    ensures DigitsValue(NatToString(n)) == n
    decreases n
  {
    if n >= 10 {
      var s := NatToString(n);
      assert s[..|s| - 1] == NatToString(n / 10);
      NatRoundTrip(n / 10);
    }
  }

  /** Reading back what `IntToString` wrote gives the same integer. */
  lemma IntRoundTrip(i: int)
    ensures ParseInt(IntToString(i)) == Some(i)
  {
    if i < 0 {
      var t := NatToString(-i);
      var s := "-" + t;
      assert s[0] == '-' && s[1..] == t && |s| > 1;
      NatRoundTrip(-i);
      assert ParseInt(s) == Some(-(DigitsValue(t) as int));
    } else {
      var s := NatToString(i);
      assert s[0] != '-' by { assert IsDigit(s[0]); }
      NatRoundTrip(i);
    }
  }

  /** `IntToString` is injective: two distinct ids never share a URL segment. */
  lemma IntToStringInjective(i: int, j: int)
    requires IntToString(i) == IntToString(j)
    ensures i == j
  {
    IntRoundTrip(i);
    IntRoundTrip(j);
  }
}
