/** Decimal spelling of a natural number and the reading back that `Number.parseInt(_, 10)` does. */
module Decimal {
  import opened Options

  predicate IsDigit(c: char) { '0' <= c <= '9' }

  function DigitChar(d: nat): (c: char)
    requires d < 10
    ensures IsDigit(c) && DigitValue(c) == d
  {
    '0' + d as char
  }

  function DigitValue(c: char): (d: nat)
    requires IsDigit(c)
    ensures d < 10
  {
    (c - '0') as nat
  }

  /** `String(n)` of a non-negative integer. */
  function Spelled(n: nat): (s: string)
    ensures s != [] && forall i :: 0 <= i < |s| ==> IsDigit(s[i])
  {
    if n < 10 then [DigitChar(n)] else Spelled(n / 10) + [DigitChar(n % 10)]
  }

  /** The longest prefix of digits, whatever follows it. */
  function DigitPrefix(s: string): (p: string)
    ensures p <= s && forall i :: 0 <= i < |p| ==> IsDigit(p[i])
  {
    if s == [] || !IsDigit(s[0]) then [] else [s[0]] + DigitPrefix(s[1..])
  }

  function ValueOf(digits: string): nat
    requires forall i :: 0 <= i < |digits| ==> IsDigit(digits[i])
  {
    if digits == [] then 0
    else 10 * ValueOf(digits[..|digits| - 1]) + DigitValue(digits[|digits| - 1])
  }

  predicate IsSpace(c: char) { c == ' ' || c == '\t' || c == '\n' || c == '\r' }

  function WithoutLeadingSpace(s: string): string {
    if s != [] && IsSpace(s[0]) then WithoutLeadingSpace(s[1..]) else s
  }

  /** The number the leading digits spell; `None`, for NaN, when there are none. */
  function ParseDigits(s: string): Option<int> {
    var digits := DigitPrefix(s);
    if digits == [] then None else Some(ValueOf(digits))
  }

  function ParseSigned(s: string): Option<int> {
    if s != [] && s[0] == '-' then
      match ParseDigits(s[1..]) case None => None case Some(n) => Some(-n)
    else
      match ParseDigits(if s != [] && s[0] == '+' then s[1..] else s) case None => None case Some(n) => Some(n)
  }

  /** `Number.parseInt(s, 10)`: leading space, one sign, the digits. */
  function ParseInt(s: string): Option<int> { ParseSigned(WithoutLeadingSpace(s)) }

  lemma {:induction false} DigitPrefixOfDigits(s: string)
    requires forall i :: 0 <= i < |s| ==> IsDigit(s[i])
    ensures DigitPrefix(s) == s
  {
    if s != [] {
      DigitPrefixOfDigits(s[1..]);
    }
  }

  lemma {:induction false} ValueOfSpelled(n: nat)
    ensures ValueOf(Spelled(n)) == n
  {
    var s := Spelled(n);
    if n >= 10 {
      ValueOfSpelled(n / 10);
      assert s[..|s| - 1] == Spelled(n / 10);
    } else {
      assert s[..|s| - 1] == [];
    }
  }

  lemma ParseDigitsOfDigits(s: string)
    requires s != [] && forall i :: 0 <= i < |s| ==> IsDigit(s[i])
    ensures ParseDigits(s) == Some(ValueOf(s))
  {
    DigitPrefixOfDigits(s);
  }

  lemma {:induction false} DigitPrefixUpTo(digits: string, rest: string)
    requires (forall i :: 0 <= i < |digits| ==> IsDigit(digits[i])) && (rest == [] || !IsDigit(rest[0]))
    ensures DigitPrefix(digits + rest) == digits
  {
    var s := digits + rest;
    if digits != [] {
      assert s[1..] == digits[1..] + rest && s[0] == digits[0];
      DigitPrefixUpTo(digits[1..], rest);
    } else {
      assert s == rest;
    }
  }

  /** What follows the digits is not read. */
  lemma ParseIntOfSpelledThen(n: nat, rest: string)
    requires rest == [] || !IsDigit(rest[0])
    ensures ParseInt(Spelled(n) + rest) == Some(n)
  {
    var s := Spelled(n) + rest;
    assert s[0] == Spelled(n)[0] && IsDigit(s[0]);
    assert WithoutLeadingSpace(s) == s;
    DigitPrefixUpTo(Spelled(n), rest);
    ValueOfSpelled(n);
  }

  lemma ParseIntOfNegated(n: nat)
    ensures ParseInt("-" + Spelled(n)).Some? && ParseInt("-" + Spelled(n)).value + n == 0
  {
    var s := "-" + Spelled(n);
    assert WithoutLeadingSpace(s) == s && s[1..] == Spelled(n);
    ParseDigitsOfDigits(Spelled(n));
    ValueOfSpelled(n);
  }

  /** Reading a spelled number gives the number back. */
  lemma ParseIntOfSpelled(n: nat)
    ensures ParseInt(Spelled(n)) == Some(n)
  {
    var s := Spelled(n);
    assert IsDigit(s[0]);
    assert WithoutLeadingSpace(s) == s;
    ParseDigitsOfDigits(s);
    ValueOfSpelled(n);
  }
}
