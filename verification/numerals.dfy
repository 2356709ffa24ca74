/** Decimal text for integers: `parseInt(text) || 0` as the rankings view
    reads its percentile inputs, and the rendering of a natural number
    inside a template string. */
module Numerals {

  predicate IsDigit(c: char)
  {
    '0' <= c <= '9'
  }

  predicate AllDigits(s: string)
  {
    forall i :: 0 <= i < |s| ==> IsDigit(s[i])
  }

  /** The characters `parseInt` skips before the number. */
  predicate IsSpace(c: char)
  {
    c == ' ' || c == '\t' || c == '\n' || c == '\r' || c == '\U{B}' || c == '\U{C}'
  }

  function DigitValue(c: char): nat
    requires IsDigit(c)
  {
    (c as int - '0' as int) as nat
  }

  function DigitChar(d: nat): (c: char)
    requires d < 10
    ensures IsDigit(c) && DigitValue(c) == d
  {
    ('0' as int + d) as char
  }

  /** The value of a string of decimal digits, most significant first. */
  function DigitsValue(s: string): nat
    requires AllDigits(s)
  {
    if s == [] then 0 else DigitsValue(s[..|s| - 1]) * 10 + DigitValue(s[|s| - 1])
  }

  /** The decimal text of a natural number, without leading zeros. */
  function Decimal(n: nat): (s: string)
    ensures s != [] && AllDigits(s)
    ensures s[0] == '0' ==> n == 0
  {
    if n < 10 then [DigitChar(n)] else Decimal(n / 10) + [DigitChar(n % 10)]
  }

  function SkipSpaces(s: string): (t: string)
    ensures |t| <= |s| && t == s[|s| - |t|..]
    ensures forall i :: 0 <= i < |s| - |t| ==> IsSpace(s[i])
    ensures t != [] ==> !IsSpace(t[0])
  {
    if s != [] && IsSpace(s[0]) then
      var t := SkipSpaces(s[1..]);
      assert forall i :: 1 <= i < |s| ==> s[i] == s[1..][i - 1];
      t
    else s
  }

  /** The longest run of digits at the front of a string. */
  function LeadingDigits(s: string): (d: string)
    ensures AllDigits(d) && |d| <= |s| && d == s[..|d|]
    ensures |d| < |s| ==> !IsDigit(s[|d|])
  {
    if s != [] && IsDigit(s[0]) then [s[0]] + LeadingDigits(s[1..]) else []
  }

  /** `parseInt(text) || 0`: after leading white space an optional sign and
      the longest run of digits; when there are no digits `parseInt` gives
      NaN and `|| 0` turns it into 0. */
  function ParseIntOrZero(text: string): (n: int)
    ensures n < 0 ==> SkipSpaces(text) != [] && SkipSpaces(text)[0] == '-'
    ensures SkipSpaces(text) == [] || (SkipSpaces(text)[0] != '-' && SkipSpaces(text)[0] != '+' && !IsDigit(SkipSpaces(text)[0])) ==> n == 0
  {
    var t := SkipSpaces(text);
    var negative := t != [] && t[0] == '-';
    var body := if t != [] && (t[0] == '-' || t[0] == '+') then t[1..] else t;
    var digits := LeadingDigits(body);
    if digits == [] then 0
    else if negative then -(DigitsValue(digits) as int)
    else DigitsValue(digits)
  }

  lemma {:induction false} DecimalValue(n: nat)
    ensures DigitsValue(Decimal(n)) == n
  {
    if n >= 10 {
      DecimalValue(n / 10);
      var s := Decimal(n);
      assert s[..|s| - 1] == Decimal(n / 10);
    }
  }

  lemma {:induction false} LeadingDigitsOfDigits(d: string, rest: string)
    requires AllDigits(d)
    requires rest == [] || !IsDigit(rest[0])
    ensures LeadingDigits(d + rest) == d
  {
    if d != [] {
      assert (d + rest)[1..] == d[1..] + rest;
      LeadingDigitsOfDigits(d[1..], rest);
    }
  }

  /** Reading back a rendered number, even with trailing text that does not
      start with a digit (a decimal point, an exponent), gives the number. */
  lemma ParseDecimal(n: nat, rest: string)
    requires rest == [] || !IsDigit(rest[0])
    ensures ParseIntOrZero(Decimal(n) + rest) == n
  {
    var d := Decimal(n);
    assert (d + rest)[0] == d[0];
    ParseUnsigned(d + rest);
    DecimalValue(n);
    LeadingDigitsOfDigits(d, rest);
  }

  /** Text that starts with a digit reads as its leading run of digits. */
  lemma ParseUnsigned(t: string)
    requires t != [] && IsDigit(t[0])
    ensures LeadingDigits(t) != [] && ParseIntOrZero(t) == DigitsValue(LeadingDigits(t))
  {
    assert !IsSpace(t[0]) && t[0] != '-' && t[0] != '+';
    assert SkipSpaces(t) == t;
    assert LeadingDigits(t) == [t[0]] + LeadingDigits(t[1..]);
  }

  /** With a minus sign in front it reads as the negation. */
  lemma ParseNegativeDecimal(n: nat, rest: string)
    requires rest == [] || !IsDigit(rest[0])
    ensures ParseIntOrZero("-" + Decimal(n) + rest) == -(n as int)
  {
    var d := Decimal(n);
    var t := "-" + d + rest;
    assert t[1..] == d + rest;
    LeadingDigitsOfDigits(d, rest);
    DecimalValue(n);
    ParseMinus(t);
  }

  lemma ParseMinus(t: string)
    requires t != [] && t[0] == '-'
    ensures ParseIntOrZero(t) == if LeadingDigits(t[1..]) == [] then 0 else -(DigitsValue(LeadingDigits(t[1..])) as int)
  {
    assert !IsSpace(t[0]);
    assert SkipSpaces(t) == t;
  }

  /** Text with no digit after the white space and sign reads as 0. */
  lemma ParseNoDigits(text: string)
    requires forall i :: 0 <= i < |text| ==> !IsDigit(text[i])
    ensures ParseIntOrZero(text) == 0
  {
    NoDigitsAfterSpaces(text);
  }

  lemma {:induction false} NoDigitsAfterSpaces(s: string)
    requires forall i :: 0 <= i < |s| ==> !IsDigit(s[i])
    ensures forall i :: 0 <= i < |SkipSpaces(s)| ==> !IsDigit(SkipSpaces(s)[i])
  {
    if s != [] && IsSpace(s[0]) {
      NoDigitsAfterSpaces(s[1..]);
    }
  }
}
