/** Integers as text: `String(n)` for an integer-valued number and the
    global `parseInt(s)` with no radix argument (`NaN` is `None`). */
module Decimal {

  import opened Common
  import Strings

  predicate IsDigit(c: char) {
    '0' <= c <= '9'
  }

  function DigitChar(d: int): (c: char)
    requires 0 <= d < 10
    ensures IsDigit(c)
  {
    ('0' as int + d) as char
  }

  function DigitValue(c: char): (d: nat)
    requires IsDigit(c)
    ensures d < 10 && DigitChar(d) == c
  {
    c as int - '0' as int
  }

  predicate AllDigits(s: string) {
    forall i :: 0 <= i < |s| ==> IsDigit(s[i])
  }

  /** The decimal digits of `n`, most significant first, without leading zeros. */
  function NatToString(n: nat): (s: string)
    ensures |s| >= 1 && AllDigits(s)
    ensures s[0] == '0' ==> n == 0 && s == "0"
    decreases n
  {
    if n < 10 then [DigitChar(n)] else NatToString(n / 10) + [DigitChar(n % 10)]
  }

  /** The number a string of decimal digits denotes. */
  function DigitsValue(s: string): nat
    requires AllDigits(s)
    decreases |s|
  {
    if s == [] then 0 else DigitsValue(s[..|s| - 1]) * 10 + DigitValue(s[|s| - 1])
  }

  /** Reading back the digits of `n` gives `n`. */
  lemma {:induction false} NatToStringValue(n: nat)
    ensures DigitsValue(NatToString(n)) == n
    decreases n
  {
    if n >= 10 {
      NatToStringValue(n / 10);
      var s := NatToString(n);
      assert s[..|s| - 1] == NatToString(n / 10);
    }
  }

  /** Leading zeros do not change the value (`padStart(2, '0')`). */
  lemma {:induction false} LeadingZeroValue(s: string)
    requires AllDigits(s)
    ensures AllDigits(['0'] + s) && DigitsValue(['0'] + s) == DigitsValue(s)
    decreases |s|
  {
    if s != [] {
      LeadingZeroValue(s[..|s| - 1]);
      assert (['0'] + s)[..|s|] == ['0'] + s[..|s| - 1];
    }
  }

  /** `String(n)` for an integer `n`. */
  function IntToString(n: int): string {
    if n < 0 then "-" + NatToString(-n) else NatToString(n)
  }

  function HexDigitValue(c: char): (d: nat)
    requires IsHexDigit(c)
    ensures d < 16
  {
    if '0' <= c <= '9' then c as int - '0' as int
    else if 'a' <= c <= 'f' then c as int - 'a' as int + 10
    else c as int - 'A' as int + 10
  }

  predicate IsHexDigit(c: char) {
    '0' <= c <= '9' || 'a' <= c <= 'f' || 'A' <= c <= 'F'
  }

  /** The longest prefix of `s` whose characters satisfy `ok`. */
  function PrefixWhile(s: string, ok: char -> bool): (r: string)
    ensures Strings.StartsWith(s, r)
    ensures forall i :: 0 <= i < |r| ==> ok(r[i])
    ensures |r| == |s| || !ok(s[|r|])
    decreases |s|
  {
    if |s| > 0 && ok(s[0]) then [s[0]] + PrefixWhile(s[1..], ok) else []
  }

  function HexValue(s: string): nat
    requires forall i :: 0 <= i < |s| ==> IsHexDigit(s[i])
    decreases |s|
  {
    if s == [] then 0 else HexValue(s[..|s| - 1]) * 16 + HexDigitValue(s[|s| - 1])
  }

  /** `parseInt(s)`: leading whitespace is skipped, then an optional sign; a `0x`
      or `0X` prefix switches to radix 16; the longest run of digits is read and
      the rest ignored; no digit at all gives `NaN`. */
  function ParseInt(s: string): Option<int> {
    var t := Strings.TrimStart(s);
    var negative := |t| > 0 && t[0] == '-';
    var u := if |t| > 0 && (t[0] == '-' || t[0] == '+') then t[1..] else t;
    match ReadMagnitude(u)
    case None => None
    case Some(m) => Some(if negative then -m else m)
  }

  /** The unsigned part of `parseInt`, after the sign. */
  function ReadMagnitude(u: string): Option<int> {
    if Strings.StartsWith(u, "0x") || Strings.StartsWith(u, "0X") then
      var hs := PrefixWhile(u[2..], IsHexDigit);
      if hs == [] then None else Some(HexValue(hs))
    else
      var ds := PrefixWhile(u, IsDigit);
      if ds == [] then None else Some(DigitsValue(ds))
  }

  /** A digit string is read whole, as its own value. */
  lemma DigitsAreReadWhole(ds: string)
    requires AllDigits(ds)
    ensures PrefixWhile(ds, IsDigit) == ds
  {
    var r := PrefixWhile(ds, IsDigit);
    assert ds[..|r|] == r;
  }

  /** The digits of `n` read back as `n`. */
  lemma ReadMagnitudeOfDigits(n: nat)
    ensures ReadMagnitude(NatToString(n)) == Some(n)
  {
    var digits := NatToString(n);
    assert !Strings.StartsWith(digits, "0x") && !Strings.StartsWith(digits, "0X") by {
      if |digits| >= 2 {
        assert digits[0] != '0';
      }
    }
    DigitsAreReadWhole(digits);
    NatToStringValue(n);
  }

  /** `parseInt(String(n)) === n`: a timestamp stored as text reads back exactly. */
  lemma ParseIntToString(n: int)
    ensures ParseInt(IntToString(n)) == Some(n)
  {
    var m: nat := if n < 0 then -n else n;
    var s := IntToString(n);
    ReadMagnitudeOfDigits(m);
    assert !Strings.IsJsWhitespace(s[0]);
    assert Strings.TrimStart(s) == s;
    if n < 0 {
      assert s[1..] == NatToString(m);
    } else {
      assert s[0] != '-' && s[0] != '+';
    }
  }
}
