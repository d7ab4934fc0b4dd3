/**
  Python's `str(n)` for integers, as used by the f-string that builds the
  "not found" message: decimal digits, most significant first, no leading
  zeros, and a `-` sign for negative numbers. `Parse` is its inverse and
  accepts exactly the strings `Format` produces.
 */
module Decimal {
  import opened Wrappers

  predicate IsDigit(c: char) {
    '0' <= c <= '9'
  }

  predicate AllDigits(s: string) {
    forall k :: 0 <= k < |s| ==> IsDigit(s[k])
  }

  function DigitChar(d: nat): (c: char)
    requires d < 10
    ensures IsDigit(c)
    ensures c == '0' <==> d == 0
  {
    ('0' as int + d) as char
  }

  function DigitValue(c: char): (d: nat)
    requires IsDigit(c)
    ensures d < 10
    ensures DigitChar(d) == c
  {
    c as int - '0' as int
  }

  /** The digits of `n` with no leading zero (zero itself is "0"). */
  function NatDigits(n: nat): (s: string)
    ensures 1 <= |s|
    ensures AllDigits(s)
    ensures |s| == 1 <==> n < 10
    ensures s[0] == '0' <==> n == 0
    decreases n
  {
    if n < 10 then [DigitChar(n)] else NatDigits(n / 10) + [DigitChar(n % 10)]
  }

  /** The number a string of digits denotes, read most significant first. */
  function DigitsValue(s: string): nat
    requires AllDigits(s)
  {
    if |s| == 0 then 0 else DigitsValue(s[..|s| - 1]) * 10 + DigitValue(s[|s| - 1])
  }

  /** A digit string as `str` prints it: non-empty, and "0" is the only one starting with '0'. */
  predicate Canonical(s: string) {
    1 <= |s| && AllDigits(s) && (s[0] == '0' ==> |s| == 1)
  }

  function ParseNat(s: string): (r: Option<nat>)
    ensures r.Some? <==> Canonical(s)
  {
    if Canonical(s) then Some(DigitsValue(s)) else None
  }

  /**
    `str(i)` for a Python int: a `-` exactly for negative numbers, then the
    digits of the magnitude; parsing the result gives `i` back.
   */
  function Format(i: int): (s: string)
    ensures 1 <= |s|
    ensures s[0] == '-' <==> i < 0
    ensures Parse(s) == Some(i)
  {
    var n: nat := if i < 0 then -i else i;
    var d := NatDigits(n);
    NatDigitsValue(n);
    assert ParseNat(d) == Some(n);
    if i < 0 then
      var s := "-" + d;
      assert s[1..] == d;
      s
    else
      d
  }

  /** `int(s)` restricted to the strings `str` can print (no "+", "-0", spaces or leading zeros). */
  function Parse(s: string): (r: Option<int>)
  {
    if 1 <= |s| && s[0] == '-' then
      match ParseNat(s[1..])
      case Some(n) => if n == 0 then None else Some(-(n as int))
      case None => None
    else
      ParseNat(s)
  }

  lemma {:induction false} NatDigitsValue(n: nat)
    ensures DigitsValue(NatDigits(n)) == n
    decreases n
  {
    if n >= 10 {
      var p := NatDigits(n / 10);
      var s := p + [DigitChar(n % 10)];
      assert s[..|s| - 1] == p;
      NatDigitsValue(n / 10);
    }
  }

  lemma {:induction false} CanonicalValuePositive(s: string)
    requires Canonical(s) && s[0] != '0'
    ensures DigitsValue(s) >= 1
    decreases |s|
  {
    if |s| > 1 {
      var p := s[..|s| - 1];
      assert p[0] == s[0];
      CanonicalValuePositive(p);
    }
  }

  lemma {:induction false} CanonicalDigits(s: string)
    requires Canonical(s)
    ensures NatDigits(DigitsValue(s)) == s
    decreases |s|
  {
    if |s| > 1 {
      var p := s[..|s| - 1];
      var c := s[|s| - 1];
      assert p[0] == s[0];
      CanonicalValuePositive(p);
      CanonicalDigits(p);
      var n := DigitsValue(s);
      assert n / 10 == DigitsValue(p) && n % 10 == DigitValue(c);
      assert s == p + [c];
    }
  }

  /** `Parse` accepts only what `Format` prints: every accepted string is the printing of its value. */
  lemma FormatParse(s: string, i: int)
    requires Parse(s) == Some(i)
    ensures Format(i) == s
  {
    if 1 <= |s| && s[0] == '-' {
      var t := s[1..];
      CanonicalDigits(t);
      assert s == "-" + t;
    } else {
      CanonicalDigits(s);
    }
  }

  /** Distinct integers print differently. */
  lemma FormatInjective(i: int, j: int)
    requires Format(i) == Format(j)
    ensures i == j
  {
  }
}
