/** Python's decimal conversions between `int` and `str`: `str(i)` and `int(s)`.
    They are how `PortID` renders its fields and how a JSON Graph edge stores
    and reads back its node ids. */
module Decimal {
  import opened Wrappers

  predicate IsDigit(c: char) {
    '0' <= c <= '9'
  }

  predicate AllDigits(s: string) {
    forall i :: 0 <= i < |s| ==> IsDigit(s[i])
  }

  /** The whitespace `str.strip()` removes, restricted to ASCII. */
  predicate IsSpace(c: char) {
    c == ' ' || c == '\t' || c == '\n' || c == '\r' || c == '\U{0b}' || c == '\U{0c}'
  }

  function DigitChar(d: nat): (c: char)
    requires d < 10
    ensures IsDigit(c)
  {
    (('0' as int) + d) as char
  }

  function DigitValue(c: char): (d: nat)
    requires IsDigit(c)
    ensures d < 10 && DigitChar(d) == c
  {
    (c as int) - ('0' as int)
  }

  /** `str(n)` for a non-negative `n`: its digits, most significant first,
      without leading zeros. */
  function NatStr(n: nat): (s: string)
    ensures |s| >= 1 && AllDigits(s)
    ensures s[0] == '0' ==> n == 0
  {
    if n < 10 then [DigitChar(n)] else NatStr(n / 10) + [DigitChar(n % 10)]
  }

  /** `str(i)`: a minus sign before the digits of a negative number. */
  function IntStr(i: int): (s: string)
    ensures |s| >= 1
    ensures s[0] == '-' <==> i < 0
    ensures forall k :: 0 <= k < |s| ==> IsDigit(s[k]) || (k == 0 && s[k] == '-')
  {
    if i < 0 then "-" + NatStr(-i) else NatStr(i)
  }

  /** The value of a string of decimal digits. */
  function DigitsValue(s: string): nat
    requires AllDigits(s)
  {
    if s == [] then 0 else DigitsValue(s[..|s| - 1]) * 10 + DigitValue(s[|s| - 1])
  }

  function StripLeft(s: string): (r: string)
    ensures |r| <= |s|
  {
    if s != [] && IsSpace(s[0]) then StripLeft(s[1..]) else s
  }

  function StripRight(s: string): (r: string)
    ensures |r| <= |s|
  {
    if s != [] && IsSpace(s[|s| - 1]) then StripRight(s[..|s| - 1]) else s
  }

  /** `int(s)` on ASCII text: surrounding whitespace is ignored, then an
      optional sign and at least one digit; anything else is a `ValueError`. */
  function ParseInt(s: string): (r: Result<int>)
    ensures r.Err? ==> r.error == ValueError
  {
    var t := StripRight(StripLeft(s));
    if |t| >= 2 && (t[0] == '-' || t[0] == '+') && AllDigits(t[1..]) then
      var v: int := DigitsValue(t[1..]);
      Ok(if t[0] == '-' then -v else v)
    else if |t| >= 1 && AllDigits(t) then
      Ok(DigitsValue(t))
    else
      Err(ValueError)
  }

  lemma {:induction false} DigitsValueNatStr(n: nat)
    ensures DigitsValue(NatStr(n)) == n
  {
    if n >= 10 {
      DigitsValueNatStr(n / 10);
      var s := NatStr(n / 10) + [DigitChar(n % 10)];
      assert s[..|s| - 1] == NatStr(n / 10);
    }
  }

  lemma StripUnpadded(s: string)
    requires |s| >= 1 && !IsSpace(s[0]) && !IsSpace(s[|s| - 1])
    ensures StripRight(StripLeft(s)) == s
  {
  }

  /** `int(str(n)) == n` for a non-negative `n`. */
  lemma ParseNatStr(n: nat)
    ensures ParseInt(NatStr(n)) == Ok(n)
  {
    var s := NatStr(n);
    assert IsDigit(s[0]) && IsDigit(s[|s| - 1]);
    StripUnpadded(s);
    DigitsValueNatStr(n);
  }

  /** `int(str(-n)) == -n` for a positive `n`. */
  lemma ParseNegStr(n: nat)
    requires n > 0
    ensures ParseInt("-" + NatStr(n)) == Ok(-(n as int))
  {
    var s := "-" + NatStr(n);
    assert s[1..] == NatStr(n);
    assert IsDigit(s[|s| - 1]);
    StripUnpadded(s);
    DigitsValueNatStr(n);
  }

  /** `int(str(i)) == i` for every integer. */
  lemma ParseIntStr(i: int)
    ensures ParseInt(IntStr(i)) == Ok(i)
  {
    if i < 0 {
      ParseNegStr(-i);
    } else {
      ParseNatStr(i);
    }
  }

  /** `str` is injective on integers. */
  lemma IntStrInjective(i: int, j: int)
    requires IntStr(i) == IntStr(j)
    ensures i == j
  {
    ParseIntStr(i);
    ParseIntStr(j);
  }
}
