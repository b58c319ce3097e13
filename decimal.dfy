/**
 * Decimal spellings of integers, as the three programs exchange them:
 * Python's str() and int() on the sending side and C's atoi() on the
 * receiving side. Only ASCII digits are modelled.
 */
module Decimal {

  /** An ASCII decimal digit. */
  predicate IsDigit(c: char) {
    '0' <= c <= '9'
  }

  predicate AllDigits(s: string) {
    forall i :: 0 <= i < |s| ==> IsDigit(s[i])
  }

  function DigitValue(c: char): (d: nat)
    requires IsDigit(c)
    ensures d < 10
  {
    c as int - '0' as int
  }

  function DigitChar(d: nat): (c: char)
    requires d < 10
    ensures IsDigit(c) && DigitValue(c) == d
  {
    ('0' as int + d) as char
  }

  /** Python's str(n) for n >= 0: the shortest spelling, most significant digit first. */
  function NatToString(n: nat): (s: string)
    ensures |s| >= 1 && AllDigits(s)
    ensures s[0] == '0' ==> n == 0
    decreases n
  {
    if n < 10 then [DigitChar(n)] else NatToString(n / 10) + [DigitChar(n % 10)]
  }

  /** Python's str(n) for any int: a minus sign before the magnitude when negative. */
  function IntToString(n: int): (s: string)
    ensures |s| >= 1 && (IsDigit(s[0]) || s[0] == '-')
    ensures n >= 0 <==> IsDigit(s[0])
    ensures forall i :: 0 < i < |s| ==> IsDigit(s[i])
  {
    if n < 0 then "-" + NatToString(-n) else NatToString(n)
  }

  /** Python's int(s) for a string of ASCII digits (leading zeros allowed). */
  function DigitsValue(s: string): (v: nat)
    requires AllDigits(s)
    ensures v == 0 <==> forall i :: 0 <= i < |s| ==> s[i] == '0'
    decreases |s|
  {
    if s == [] then 0 else DigitsValue(s[..|s| - 1]) * 10 + DigitValue(s[|s| - 1])
  }

  /** int(str(n)) == n. */
  lemma {:induction false} DigitsValueOfNatToString(n: nat)
    ensures DigitsValue(NatToString(n)) == n
    decreases n
  {
    if n >= 10 {
      var p := NatToString(n / 10);
      DigitsValueOfNatToString(n / 10);
      var s := p + [DigitChar(n % 10)];
      assert NatToString(n) == s;
      assert s[..|s| - 1] == p;
    }
  }

  /** A leading zero does not change the value int() reads. */
  lemma {:induction false} LeadingZeroIgnored(s: string)
    requires AllDigits(s)
    ensures AllDigits("0" + s) && DigitsValue("0" + s) == DigitsValue(s)
    decreases |s|
  {
    if s != [] {
      var t := "0" + s;
      assert t[..|t| - 1] == "0" + s[..|s| - 1];
      LeadingZeroIgnored(s[..|s| - 1]);
    }
  }

  /** The longest prefix of `s` made of digits. */
  function LeadingDigits(s: string): (p: string)
    ensures p <= s && AllDigits(p)
    ensures |p| == |s| || !IsDigit(s[|p|])
    decreases |s|
  {
    if s != [] && IsDigit(s[0]) then [s[0]] + LeadingDigits(s[1..]) else []
  }

  /** isspace() in the C locale: blank, tab, newline, vertical tab, form feed, carriage return. */
  predicate IsCSpace(c: char) {
    c == ' ' || '\t' <= c <= '\r'
  }

  /** `s` with its leading white space removed. */
  function SkipSpace(s: string): (t: string)
    ensures |t| <= |s|
    ensures t == [] || !IsCSpace(t[0])
    ensures s == [] || !IsCSpace(s[0]) ==> t == s
    ensures forall i :: 0 <= i < |s| - |t| ==> IsCSpace(s[i])
    decreases |s|
  {
    if s != [] && IsCSpace(s[0]) then SkipSpace(s[1..]) else s
  }

  /** What is left after the white space is the rest of the text, unchanged. */
  lemma {:induction false} SkipSpaceIsSuffix(s: string)
    ensures var t := SkipSpace(s); t == s[|s| - |t|..]
    decreases |s|
  {
    if s != [] && IsCSpace(s[0]) {
      SkipSpaceIsSuffix(s[1..]);
      var t := SkipSpace(s[1..]);
      assert s[1..][|s| - 1 - |t|..] == s[|s| - |t|..];
    }
  }

  /**
   * C's atoi(): skip white space, read an optional sign and then the leading
   * digits; the value of no digits is 0. Overflow (undefined in C) is not
   * modelled: the integers are unbounded.
   */
  function Atoi(s: string): (r: int)
    ensures (forall i :: 0 <= i < |s| ==> !IsDigit(s[i])) ==> r == 0
  {
    SkipSpaceIsSuffix(s);
    var t := SkipSpace(s);
    if t != [] && (t[0] == '-' || t[0] == '+') then
      var m: int := DigitsValue(LeadingDigits(t[1..]));
      if t[0] == '-' then -m else m
    else
      DigitsValue(LeadingDigits(t))
  }

  /** Digits followed by something that is not a digit: the digits are what is read. */
  lemma {:induction false} LeadingDigitsOfNumeral(d: string, rest: string)
    requires AllDigits(d)
    requires rest == [] || !IsDigit(rest[0])
    ensures LeadingDigits(d + rest) == d
    decreases |d|
  {
    if d == [] {
      assert d + rest == rest;
    } else {
      assert (d + rest)[1..] == d[1..] + rest;
      LeadingDigitsOfNumeral(d[1..], rest);
    }
  }

  /** atoi() of text that starts with a digit reads the leading digits. */
  lemma AtoiOfDigitsFirst(s: string)
    requires s != [] && IsDigit(s[0])
    ensures Atoi(s) == DigitsValue(LeadingDigits(s))
  {
    assert !IsCSpace(s[0]) && s[0] != '-' && s[0] != '+';
    assert SkipSpace(s) == s;
  }

  /** atoi() of text that starts with a minus sign negates the digits after it. */
  lemma AtoiOfMinusFirst(s: string)
    requires s != [] && s[0] == '-'
    ensures Atoi(s) == 0 - DigitsValue(LeadingDigits(s[1..]))
  {
    assert !IsCSpace(s[0]);
    assert SkipSpace(s) == s;
  }

  /** atoi() reads back what str() wrote, whatever non-digit text follows it. */
  lemma AtoiOfIntToString(n: int, rest: string)
    requires rest == [] || !IsDigit(rest[0])
    ensures Atoi(IntToString(n) + rest) == n
  {
    if n < 0 {
      var d := NatToString(-n);
      var s := "-" + d + rest;
      assert IntToString(n) + rest == s;
      assert s[1..] == d + rest;
      AtoiOfMinusFirst(s);
      LeadingDigitsOfNumeral(d, rest);
      DigitsValueOfNatToString(-n);
    } else {
      var d := NatToString(n);
      var s := d + rest;
      assert IntToString(n) + rest == s;
      assert s[0] == d[0];
      AtoiOfDigitsFirst(s);
      LeadingDigitsOfNumeral(d, rest);
      DigitsValueOfNatToString(n);
    }
  }
}
