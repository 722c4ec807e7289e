/**
 * Decimal rendering and parsing of integers, as Swift's `String(n)` /
 * `"\(n)"` and its failable `Int(text)` initialiser do them.
 */
module Decimal {
  import opened Wrappers

  /** Smallest and largest value of Swift's 64-bit `Int`. */
  const IntMin: int := -0x8000_0000_0000_0000
  const IntMax: int := 0x7FFF_FFFF_FFFF_FFFF

  predicate InIntRange(n: int) {
    IntMin <= n <= IntMax
  }

  predicate IsDigit(c: char) {
    '0' <= c <= '9'
  }

  function DigitChar(d: nat): (c: char)
    requires d < 10
    ensures IsDigit(c) && c as int - '0' as int == d
  {
    (('0' as int) + d) as char
  }

  /** The decimal digits of `n`, most significant first, without leading zeros. */
  function NatToString(n: nat): (s: string)
    ensures |s| >= 1 && IsDigit(s[0]) && IsDigit(s[|s| - 1])
    ensures s[0] == '0' <==> n == 0
    ensures n < 10 <==> |s| == 1
  {
    if n < 10 then [DigitChar(n)] else NatToString(n / 10) + [DigitChar(n % 10)]
  }

  /** Swift's `String(n)` for a signed integer: a minus sign for negatives. */
  function IntToString(n: int): (s: string)
    ensures |s| >= 1 && IsDigit(s[|s| - 1])
    ensures s[0] == '-' <==> n < 0
  {
    if n < 0 then "-" + NatToString(-n) else NatToString(n)
  }

  /** The value of `s` read as base-ten digits, or `None` when a character is not a digit. */
  function DigitsValue(s: string): Option<nat> {
    if s == [] then Some(0)
    else
      var last := s[|s| - 1];
      match DigitsValue(s[..|s| - 1])
      case None => None
      case Some(v) => if IsDigit(last) then Some(v * 10 + (last as int - '0' as int)) else None
  }

  /**
   * The text rule of `Int(text)`: an optional `+` or `-`, then one or more
   * ASCII digits and nothing else; the 64-bit range check is in `ParseInt`.
   */
  function ParseInteger(s: string): Option<int> {
    if |s| > 0 && (s[0] == '-' || s[0] == '+') then
      if |s| > 1 then
        match DigitsValue(s[1..])
        case None => None
        case Some(m) => Some(if s[0] == '-' then -(m as int) else m as int)
      else None
    else if |s| > 0 then
      match DigitsValue(s)
      case None => None
      case Some(m) => Some(m)
    else None
  }

  /** Swift's `Int(text)`: nil for malformed text and for values outside 64 bits. */
  function ParseInt(s: string): (r: Option<int>)
    ensures r.Some? ==> InIntRange(r.value)
  {
    match ParseInteger(s)
    case Some(n) => if InIntRange(n) then Some(n) else None
    case None => None
  }

  /** The digits of `n` read back as `n`. */
  lemma {:induction false} DigitsValueOfNatToString(n: nat)
    ensures DigitsValue(NatToString(n)) == Some(n)
  {
    var s := NatToString(n);
    if n < 10 {
      assert s[..|s| - 1] == [];
    } else {
      assert s[..|s| - 1] == NatToString(n / 10);
      DigitsValueOfNatToString(n / 10);
    }
  }

  /** Reading back what `IntToString` wrote gives the same integer. */
  lemma ParseIntegerRoundTrip(n: int)
    ensures ParseInteger(IntToString(n)) == Some(n)
  {
    var m: nat := if n < 0 then -n else n;
    DigitsValueOfNatToString(m);
    if n < 0 {
      ParseSignedDigits(NatToString(m), m);
    } else {
      ParseUnsignedDigits(NatToString(m), m);
    }
  }

  /** A minus sign followed by the digits of `m` reads as `-m`. */
  lemma ParseSignedDigits(digits: string, m: nat)
    requires |digits| >= 1 && DigitsValue(digits) == Some(m)
    ensures ParseInteger("-" + digits) == Some(-(m as int))
  {
    assert ("-" + digits)[1..] == digits;
  }

  /** Digits starting with a digit read as their value. */
  lemma ParseUnsignedDigits(digits: string, m: nat)
    requires |digits| >= 1 && IsDigit(digits[0]) && DigitsValue(digits) == Some(m)
    ensures ParseInteger(digits) == Some(m)
  {
  }

  /** `Int(String(n)) == n` for every 64-bit `n`. */
  lemma ParseIntRoundTrip(n: int)
    requires InIntRange(n)
    ensures ParseInt(IntToString(n)) == Some(n)
  {
    ParseIntegerRoundTrip(n);
  }

  /** Distinct integers render as distinct strings. */
  lemma IntToStringInjective(a: int, b: int)
    ensures IntToString(a) == IntToString(b) <==> a == b
  {
    ParseIntegerRoundTrip(a);
    ParseIntegerRoundTrip(b);
  }

  /** `String(n)` holds no space: the text around a rendered number can be split at spaces. */
  lemma {:induction false} NatToStringHasNoSpace(n: nat)
    ensures ' ' !in NatToString(n)
  {
    if n >= 10 {
      NatToStringHasNoSpace(n / 10);
    }
  }

  lemma IntToStringHasNoSpace(n: int)
    ensures ' ' !in IntToString(n)
  {
    NatToStringHasNoSpace(if n < 0 then -n else n);
  }
}
