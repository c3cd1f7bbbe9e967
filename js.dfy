/**
 * The few JavaScript runtime behaviours the client's decisions depend on:
 * truthiness of strings and numbers, `String.prototype.trim`, `Number(s)`
 * on a query-string value, `parseInt` on a number input, and the shape of
 * an awaited backend call.
 */
module Js {
  import opened Wrappers
  import Decimal

  /** `if (s)` on a `string | null`: only a present, non-empty string is truthy. */
  predicate TruthyString(s: Option<string>) {
    s.Some? && s.value != ""
  }

  /** A JavaScript number as the client meets it: an integer, or `NaN` from a failed `Number(...)`. */
  datatype Number = Int(value: int) | NaN

  /** `if (n)` on a `number | null`: `null`, `0` and `NaN` are falsy. */
  predicate TruthyNumber(n: Option<Number>) {
    n.Some? && n.value.Int? && n.value.value != 0
  }

  /** `Number(s)` for the decimal strings the client produces; anything else is `NaN`. */
  function ToNumber(s: string): (r: Number)
    ensures r.Int? <==> Decimal.ParseInt(s).Some?
  {
    match Decimal.ParseInt(s)
    case Some(i) => Int(i)
    case None => NaN
  }

  /** `Number(String(i))` gives back `i`: a number survives a trip through a URL. */
  lemma ToNumberOfString(i: int)
    ensures ToNumber(Decimal.IntToString(i)) == Int(i)
  {
    Decimal.IntRoundTrip(i);
  }

  /**
   * The characters `trim()` removes: ECMAScript's white space (tab, vertical
   * tab, form feed, the byte order mark and every space separator of Unicode
   * category Zs) and its line terminators (LF, CR, U+2028, U+2029).
   */
  predicate IsWhitespace(c: char) {
    || c == '\t' || c == '\U{000B}' || c == '\U{000C}' || c == '\U{FEFF}'
    || c == ' ' || c == '\U{00A0}' || c == '\U{1680}' || '\U{2000}' <= c <= '\U{200A}'
    || c == '\U{202F}' || c == '\U{205F}' || c == '\U{3000}'
    || c == '\n' || c == '\r' || c == '\U{2028}' || c == '\U{2029}'
  }

  predicate AllWhitespace(s: string) {
    forall i :: 0 <= i < |s| ==> IsWhitespace(s[i])
  }

  /** The length of the longest all-whitespace prefix of `s`. */
  function LeadingBlanks(s: string): (n: nat)
    ensures n <= |s|
    ensures forall k :: 0 <= k < n ==> IsWhitespace(s[k])
    ensures n == |s| || !IsWhitespace(s[n])
  {
    if s != [] && IsWhitespace(s[0]) then 1 + LeadingBlanks(s[1..]) else 0
  }

  /** The length of the longest all-whitespace suffix of `s`. */
  function TrailingBlanks(s: string): (n: nat)
    ensures n <= |s|
    ensures forall k :: |s| - n <= k < |s| ==> IsWhitespace(s[k])
    ensures n == |s| || !IsWhitespace(s[|s| - 1 - n])
  {
    if s != [] && IsWhitespace(s[|s| - 1]) then 1 + TrailingBlanks(s[..|s| - 1]) else 0
  }

  /** `s.trim()`: `s` without its leading and trailing whitespace. */
  function Trim(s: string): string {
    var t := s[LeadingBlanks(s)..];
    t[..|t| - TrailingBlanks(t)]
  }

  /** `!s.trim()` holds exactly when `s` is empty or made only of whitespace. */
  lemma TrimEmptyIffBlank(s: string)
    ensures Trim(s) == "" <==> AllWhitespace(s)
  {
    var n := LeadingBlanks(s);
    var t := s[n..];
    if Trim(s) == "" {
      assert AllWhitespace(t);
    }
  }

  /** The number of decimal digits `s` starts with. */
  function DigitRun(s: string): (n: nat)
    ensures n <= |s| && Decimal.AllDigits(s[..n])
    ensures n == |s| || !Decimal.IsDigit(s[n])
  {
    if s != [] && Decimal.IsDigit(s[0]) then 1 + DigitRun(s[1..]) else 0
  }

  /** The value of the run of decimal digits `s` starts with; `NaN` when it starts with none. */
  function LeadingDigitsValue(s: string): (r: Number)
    ensures r.NaN? <==> s == [] || !Decimal.IsDigit(s[0])
    ensures r.Int? ==> r.value >= 0
  {
    var n := DigitRun(s);
    if n == 0 then NaN else Int(Decimal.DigitsValue(s[..n]))
  }

  /**
   * `parseInt(s, 10)`: after leading white space and an optional sign, the
   * value of the longest run of decimal digits; `NaN` when there is none.
   */
  function ParseIntPrefix(s: string): (r: Number)
    ensures (forall k :: 0 <= k < |s| ==> !Decimal.IsDigit(s[k])) ==> r.NaN?
  {
    var t := s[LeadingBlanks(s)..];
    if t != [] && t[0] == '-' then
      match LeadingDigitsValue(t[1..])
      case Int(v) => assert t[1] in s; Int(-v)
      case NaN => NaN
    else if t != [] && t[0] == '+' then
      var r := LeadingDigitsValue(t[1..]);
      assert r.Int? ==> t[1] in s;
      r
    else
      assert t != [] ==> t[0] in s;
      LeadingDigitsValue(t)
  }

  /** A run of digits followed by a non-digit or the end is read in full. */
  lemma {:induction false} DigitRunOfDigits(d: string, rest: string)
    requires Decimal.AllDigits(d)
    requires rest == [] || !Decimal.IsDigit(rest[0])
    ensures DigitRun(d + rest) == |d|
  {
    if d != [] {
      assert (d + rest)[1..] == d[1..] + rest;
      DigitRunOfDigits(d[1..], rest);
    }
  }

  /** The digits of a run followed by a non-digit or the end give the run's value. */
  lemma LeadingDigitsValueOf(d: string, rest: string)
    requires d != [] && Decimal.AllDigits(d)
    requires rest == [] || !Decimal.IsDigit(rest[0])
    ensures LeadingDigitsValue(d + rest) == Int(Decimal.DigitsValue(d))
  {
    DigitRunOfDigits(d, rest);
    assert (d + rest)[..|d|] == d;
  }

  /** `parseInt` of the digits of `n` followed by a non-digit or the end is `n`. */
  lemma ParseIntPrefixOfNat(n: nat, rest: string)
    requires rest == [] || !Decimal.IsDigit(rest[0])
    ensures ParseIntPrefix(Decimal.NatToString(n) + rest) == Int(n)
  {
    var d := Decimal.NatToString(n);
    var s := d + rest;
    assert Decimal.IsDigit(s[0]);
    assert LeadingBlanks(s) == 0;
    LeadingDigitsValueOf(d, rest);
    Decimal.NatRoundTrip(n);
  }

  /** `parseInt` of a minus, the digits of `n`, then a non-digit or the end is `-n`. */
  lemma ParseIntPrefixOfNegated(n: nat, rest: string)
    requires rest == [] || !Decimal.IsDigit(rest[0])
    ensures ParseIntPrefix("-" + Decimal.NatToString(n) + rest) == Int(-(n as int))
  {
    var d := Decimal.NatToString(n);
    var s := "-" + d + rest;
    assert LeadingBlanks(s) == 0;
    assert s[1..] == d + rest;
    LeadingDigitsValueOf(d, rest);
    Decimal.NatRoundTrip(n);
  }

  /** `parseInt` reads back a printed integer, and stops at the first character after it that is not a digit. */
  lemma ParseIntPrefixOfString(i: int, rest: string)
    requires rest == [] || !Decimal.IsDigit(rest[0])
    ensures ParseIntPrefix(Decimal.IntToString(i) + rest) == Int(i)
  {
    if i < 0 {
      assert Decimal.IntToString(i) + rest == "-" + Decimal.NatToString(-i) + rest;
      ParseIntPrefixOfNegated(-i, rest);
    } else {
      assert Decimal.IntToString(i) == Decimal.NatToString(i);
      ParseIntPrefixOfNat(i, rest);
    }
  }

  /** The outcome of an awaited backend call: the response data, or the value it was rejected with. */
  datatype Reply<+T> = Ok(data: T) | Err(cause: Thrown)

  /** What a `catch` clause receives: an `Error` with a message, or some other thrown value. */
  datatype Thrown = ErrorObject(message: string) | OtherValue

  /** A `toast.success(...)` or `toast.error(...)` notification. */
  datatype Toast = Success(message: string) | Error(message: string)
}
