/** The browser's `btoa`/`atob` pair and the URL-safe post-processing the
    application applies to it.

    `btoa` is the base 64 encoding of section 4 of RFC 4648 over the Latin-1 code
    units of its argument, with `=` padding, and throws when a character is above
    U+00FF. `atob` is the WHATWG "forgiving-base64 decode": it drops ASCII
    whitespace, removes one or two final `=` when the length is a multiple of
    four, and fails on a length of the form 4k+1 or on any character outside the
    alphabet. The URL-safe form is the alphabet of section 5 of RFC 4648 with the
    padding removed. */
module Base64 {

  import opened Common
  import Strings

  type Byte = b: int | 0 <= b < 256

  /** A 6-bit group: the index of one alphabet character. */
  type Sextet = v: int | 0 <= v < 64

  predicate IsAlphabetChar(c: char) {
    'A' <= c <= 'Z' || 'a' <= c <= 'z' || '0' <= c <= '9' || c == '+' || c == '/'
  }

  predicate AllAlphabet(s: string) {
    forall i :: 0 <= i < |s| ==> IsAlphabetChar(s[i])
  }

  /** Table 1 of RFC 4648: value to character. */
  function SextetChar(v: Sextet): (c: char)
    ensures IsAlphabetChar(c)
  {
    if v < 26 then ('A' as int + v) as char
    else if v < 52 then ('a' as int + (v - 26)) as char
    else if v < 62 then ('0' as int + (v - 52)) as char
    else if v == 62 then '+'
    else '/'
  }

  /** Table 1 of RFC 4648: character to value. */
  function CharSextet(c: char): (v: Sextet)
    requires IsAlphabetChar(c)
    ensures SextetChar(v) == c
  {
    if 'A' <= c <= 'Z' then c as int - 'A' as int
    else if 'a' <= c <= 'z' then c as int - 'a' as int + 26
    else if '0' <= c <= '9' then c as int - '0' as int + 52
    else if c == '+' then 62
    else 63
  }

  lemma SextetRoundTrip(v: Sextet)
    ensures CharSextet(SextetChar(v)) == v
  {
  }

  /** Number of characters the final partial group of `n` bytes yields. */
  function TailLength(n: nat): nat {
    if n % 3 == 0 then 0 else n % 3 + 1
  }

  /** One to three bytes as two to four characters (section 4 of RFC 4648):
      each character carries six bits, the last one zero-filled on the right. */
  function EncodeGroup(g: seq<Byte>): (s: string)
    requires 1 <= |g| <= 3
    ensures |s| == |g| + 1 && AllAlphabet(s)
  {
    if |g| == 1 then
      [SextetChar(g[0] / 4), SextetChar(g[0] % 4 * 16)]
    else if |g| == 2 then
      [SextetChar(g[0] / 4), SextetChar(g[0] % 4 * 16 + g[1] / 16), SextetChar(g[1] % 16 * 4)]
    else
      [SextetChar(g[0] / 4), SextetChar(g[0] % 4 * 16 + g[1] / 16),
       SextetChar(g[1] % 16 * 4 + g[2] / 64), SextetChar(g[2] % 64)]
  }

  /** The encoded characters before the padding: four for each full group of
      three bytes, then two or three for a final group of one or two bytes. */
  function EncodeBody(bs: seq<Byte>): (s: string)
    ensures |s| == 4 * (|bs| / 3) + TailLength(|bs|)
    ensures AllAlphabet(s)
    decreases |bs|
  {
    if |bs| == 0 then ""
    else if |bs| < 3 then EncodeGroup(bs)
    else EncodeGroup(bs[..3]) + EncodeBody(bs[3..])
  }

  /** The `=` characters that complete the last quantum (section 4 of RFC 4648). */
  function Padding(n: nat): string {
    if n % 3 == 1 then "==" else if n % 3 == 2 then "=" else ""
  }

  /** Base 64 with padding, over bytes. */
  function Encode(bs: seq<Byte>): (s: string)
    ensures |s| % 4 == 0
    ensures forall i :: 0 <= i < |s| ==> IsAlphabetChar(s[i]) || s[i] == '='
  {
    EncodeBody(bs) + Padding(|bs|)
  }

  predicate IsLatin1(s: string) {
    forall i :: 0 <= i < |s| ==> s[i] as int < 256
  }

  function Latin1Bytes(s: string): (bs: seq<Byte>)
    requires IsLatin1(s)
    ensures |bs| == |s|
  {
    seq(|s|, i requires 0 <= i < |s| => s[i] as int)
  }

  /** `String.fromCharCode(...bytes)` */
  function Latin1String(bs: seq<Byte>): (s: string)
    ensures |s| == |bs| && IsLatin1(s)
  {
    seq(|bs|, i requires 0 <= i < |bs| => bs[i] as char)
  }

  lemma Latin1RoundTrip(s: string)
    requires IsLatin1(s)
    ensures Latin1String(Latin1Bytes(s)) == s
  {
  }

  /** `btoa(s)`; `None` is the `InvalidCharacterError` it throws. */
  function Btoa(s: string): (r: Option<string>)
    ensures r.Some? <==> IsLatin1(s)
  {
    if IsLatin1(s) then Some(Encode(Latin1Bytes(s))) else None
  }

  /** The characters forgiving-base64 decoding discards: ASCII whitespace. */
  predicate IsAsciiWhitespace(c: char) {
    c == '\t' || c == '\n' || c == '\U{000C}' || c == '\r' || c == ' '
  }

  function RemoveWhitespace(s: string): (r: string)
    ensures forall i :: 0 <= i < |r| ==> !IsAsciiWhitespace(r[i])
    decreases |s|
  {
    if s == [] then []
    else if IsAsciiWhitespace(s[0]) then RemoveWhitespace(s[1..])
    else [s[0]] + RemoveWhitespace(s[1..])
  }

  /** Step 2 of forgiving-base64 decode: one or two final `=` go. */
  function StripPadding(t: string): string {
    if |t| >= 2 && t[|t| - 2] == '=' && t[|t| - 1] == '=' then t[..|t| - 2]
    else if |t| >= 1 && t[|t| - 1] == '=' then t[..|t| - 1]
    else t
  }

  /** Two to four characters back to one to three bytes; the spare low bits of
      the last character are dropped. */
  function DecodeGroup(q: string): (g: seq<Byte>)
    requires 2 <= |q| <= 4 && AllAlphabet(q)
    ensures |g| == |q| - 1
  {
    var b0 := CharSextet(q[0]) * 4 + CharSextet(q[1]) / 16;
    if |q| == 2 then [b0]
    else
      var b1 := CharSextet(q[1]) % 16 * 16 + CharSextet(q[2]) / 4;
      if |q| == 3 then [b0, b1]
      else [b0, b1, CharSextet(q[2]) % 4 * 64 + CharSextet(q[3])]
  }

  /** Turns each four characters back into three bytes, and a final two or
      three characters into one or two. */
  function DecodeBody(s: string): (bs: seq<Byte>)
    requires AllAlphabet(s) && |s| % 4 != 1
    decreases |s|
  {
    if |s| == 0 then []
    else if |s| < 4 then DecodeGroup(s)
    else DecodeGroup(s[..4]) + DecodeBody(s[4..])
  }

  /** `atob(s)`; `None` is the `InvalidCharacterError` it throws. */
  function Atob(s: string): (r: Option<string>)
    ensures r.Some? ==> IsLatin1(r.value)
  {
    var t := RemoveWhitespace(s);
    var u := if |t| % 4 == 0 then StripPadding(t) else t;
    if |u| % 4 == 1 || !AllAlphabet(u) then None
    else Some(Latin1String(DecodeBody(u)))
  }

  /** The bit arithmetic of one group is undone by decoding. */
  lemma GroupArithmetic(b0: Byte, b1: Byte, b2: Byte)
    ensures (b0 % 4 * 16 + b1 / 16) / 16 == b0 % 4
    ensures (b0 % 4 * 16 + b1 / 16) % 16 == b1 / 16
    ensures (b1 % 16 * 4 + b2 / 64) / 4 == b1 % 16
    ensures (b1 % 16 * 4 + b2 / 64) % 4 == b2 / 64
  {
  }

  /** One group survives encoding and decoding. */
  lemma GroupRoundTrip(g: seq<Byte>)
    requires 1 <= |g| <= 3
    ensures DecodeGroup(EncodeGroup(g)) == g
  {
    var b1: Byte := if |g| >= 2 then g[1] else 0;
    var b2: Byte := if |g| == 3 then g[2] else 0;
    GroupArithmetic(g[0], b1, b2);
    var q := EncodeGroup(g);
    SextetRoundTrip(g[0] / 4);
    SextetRoundTrip(g[0] % 4 * 16 + b1 / 16);
    assert CharSextet(q[0]) == g[0] / 4;
    assert CharSextet(q[1]) == g[0] % 4 * 16 + b1 / 16;
    if |g| >= 2 {
      SextetRoundTrip(g[1] % 16 * 4 + b2 / 64);
      assert CharSextet(q[2]) == g[1] % 16 * 4 + b2 / 64;
    }
    if |g| == 3 {
      SextetRoundTrip(g[2] % 64);
      assert CharSextet(q[3]) == g[2] % 64;
    }
  }

  /** Decoding the unpadded encoding gives the bytes back. */
  lemma {:induction false} DecodeEncodeBody(bs: seq<Byte>)
    ensures DecodeBody(EncodeBody(bs)) == bs
    decreases |bs|
  {
    if 0 < |bs| < 3 {
      GroupRoundTrip(bs);
    } else if |bs| >= 3 {
      var s := EncodeBody(bs);
      GroupRoundTrip(bs[..3]);
      DecodeEncodeBody(bs[3..]);
      assert s[..4] == EncodeGroup(bs[..3]);
      assert s[4..] == EncodeBody(bs[3..]);
      assert bs == bs[..3] + bs[3..];
    }
  }

  /** Nothing in an encoding is whitespace, so `atob` discards nothing. */
  lemma {:induction false} NoWhitespaceKept(s: string)
    requires forall i :: 0 <= i < |s| ==> !IsAsciiWhitespace(s[i])
    ensures RemoveWhitespace(s) == s
    decreases |s|
  {
    if s != [] {
      NoWhitespaceKept(s[1..]);
      assert [s[0]] + s[1..] == s;
    }
  }

  /** The body never ends in `=`, so `atob` strips exactly the padding. */
  lemma StripPaddingOfEncode(bs: seq<Byte>)
    ensures StripPadding(Encode(bs)) == EncodeBody(bs)
  {
    var body := EncodeBody(bs);
    var s := Encode(bs);
    assert body == [] || body[|body| - 1] != '=';
    if |bs| % 3 == 1 {
      assert s[..|s| - 2] == body;
    } else if |bs| % 3 == 2 {
      assert s[..|s| - 1] == body;
    } else {
      assert s == body;
    }
  }

  /** The unpadded body of `n` bytes leaves the remainder `TailLength(n)`
      modulo 4, never 1, so it always decodes; a helper of `PaddingRestored`
      and of the decoding round trip. */
  lemma BodyLength(n: nat)
    ensures (4 * (n / 3) + TailLength(n)) % 4 == TailLength(n)
  {
    MultipleOfFourPlus(n / 3, TailLength(n));
  }

  /** `4k + t` leaves `t` modulo 4; the step `BodyLength` rests on. */
  lemma {:induction false} MultipleOfFourPlus(k: nat, t: nat)
    requires t < 4
    ensures (4 * k + t) % 4 == t
    decreases k
  {
    if k > 0 {
      MultipleOfFourPlus(k - 1, t);
      assert 4 * k + t == (4 * (k - 1) + t) + 4;
    }
  }

  /** `atob(btoa(s)) === s` for every Latin-1 string, stated over its bytes. */
  lemma AtobEncode(bs: seq<Byte>)
    ensures Atob(Encode(bs)) == Some(Latin1String(bs))
  {
    var s := Encode(bs);
    var body := EncodeBody(bs);
    NoWhitespaceKept(s);
    assert RemoveWhitespace(s) == s;
    StripPaddingOfEncode(bs);
    BodyLength(|bs|);
    assert |body| % 4 != 1 && AllAlphabet(body);
    DecodeEncodeBody(bs);
    assert DecodeBody(body) == bs;
  }

  /** `atob(btoa(s)) === s` for every string `btoa` accepts. */
  lemma AtobBtoa(s: string)
    requires IsLatin1(s)
    ensures Btoa(s).Some? && Atob(Btoa(s).value) == Some(s)
  {
    AtobEncode(Latin1Bytes(s));
    Latin1RoundTrip(s);
  }

  /** `.replace(/\+/g, '-').replace(/\//g, '_')`: the alphabet of section 5 of RFC 4648. */
  function ToUrlAlphabet(s: string): string {
    Strings.ReplaceChar(Strings.ReplaceChar(s, '+', '-'), '/', '_')
  }

  /** The whole post-processing chain applied to `btoa` output:
      URL-safe alphabet, then `.replace(/=+$/, '')`. */
  function UrlSafeNoPad(b64: string): (r: string)
    ensures forall i :: 0 <= i < |r| ==> r[i] != '+' && r[i] != '/'
    ensures r == [] || r[|r| - 1] != '='
  {
    Strings.TrimTrailing(ToUrlAlphabet(b64), '=')
  }

  /** `.replace(/-/g, '+').replace(/_/g, '/')` */
  function FromUrlAlphabet(s: string): string {
    Strings.ReplaceChar(Strings.ReplaceChar(s, '-', '+'), '_', '/')
  }

  /** `s + '==='.slice(0, (4 - s.length % 4) % 4)` */
  function RestorePadding(s: string): (r: string)
    ensures |r| % 4 == 0
    ensures Strings.StartsWith(r, s)
  {
    s + "==="[..(4 - |s| % 4) % 4]
  }

  /** Standard base 64 from the URL-safe unpadded form, ready for `atob`. */
  function RestoreStandard(s: string): string {
    RestorePadding(FromUrlAlphabet(s))
  }

  /** The characters of section 5 of RFC 4648. */
  predicate IsUrlSafeChar(c: char) {
    'A' <= c <= 'Z' || 'a' <= c <= 'z' || '0' <= c <= '9' || c == '-' || c == '_'
  }

  /** The URL-safe form of an encoding is its body in the URL alphabet. */
  lemma UrlSafeOfEncode(bs: seq<Byte>)
    ensures UrlSafeNoPad(Encode(bs)) == ToUrlAlphabet(EncodeBody(bs))
  {
    var ub := ToUrlAlphabet(EncodeBody(bs));
    assert ToUrlAlphabet(Encode(bs)) == ub + Padding(|bs|);
    assert ub == [] || ub[|ub| - 1] != '=';
    Strings.TrimTrailingAppended(ub, Padding(|bs|), '=');
  }

  /** Over the standard alphabet the two character swaps undo each other. */
  lemma UrlAlphabetRoundTrip(s: string)
    requires AllAlphabet(s)
    ensures FromUrlAlphabet(ToUrlAlphabet(s)) == s
  {
    var r := FromUrlAlphabet(ToUrlAlphabet(s));
    forall i | 0 <= i < |s| ensures r[i] == s[i] {
      assert IsAlphabetChar(s[i]);
    }
  }

  /** The padding `decodeQueue` adds back is the padding `btoa` produced. */
  lemma PaddingRestored(bs: seq<Byte>)
    ensures RestorePadding(EncodeBody(bs)) == Encode(bs)
  {
    var body := EncodeBody(bs);
    BodyLength(|bs|);
    assert |body| % 4 == TailLength(|bs|);
    var pad := (4 - |body| % 4) % 4;
    if |bs| % 3 == 0 {
      assert pad == 0;
    } else if |bs| % 3 == 1 {
      assert pad == 2;
    } else {
      assert pad == 1;
    }
    assert "==="[..pad] == Padding(|bs|);
  }

  /** Undoing the URL-safe post-processing restores the padded encoding. */
  lemma RestoreUrlSafe(bs: seq<Byte>)
    ensures RestoreStandard(UrlSafeNoPad(Encode(bs))) == Encode(bs)
  {
    var body := EncodeBody(bs);
    UrlSafeOfEncode(bs);
    UrlAlphabetRoundTrip(body);
    assert RestoreStandard(UrlSafeNoPad(Encode(bs))) == RestorePadding(body);
    PaddingRestored(bs);
  }

  /** Decoding the URL-safe, unpadded encoding gives the bytes back. */
  lemma UrlSafeRoundTrip(bs: seq<Byte>)
    ensures Atob(RestoreStandard(UrlSafeNoPad(Encode(bs)))) == Some(Latin1String(bs))
  {
    RestoreUrlSafe(bs);
    AtobEncode(bs);
  }
  /** The URL-safe form uses only the alphabet of section 5 of RFC 4648:
      no `+`, `/` or `=` anywhere. */
  lemma UrlSafeAlphabet(bs: seq<Byte>)
    ensures forall i :: 0 <= i < |UrlSafeNoPad(Encode(bs))| ==> IsUrlSafeChar(UrlSafeNoPad(Encode(bs))[i])
  {
    UrlSafeOfEncode(bs);
    var body := EncodeBody(bs);
    forall i | 0 <= i < |body| ensures IsUrlSafeChar(ToUrlAlphabet(body)[i]) {
      assert IsAlphabetChar(body[i]);
    }
  }

  /** Text through `btoa` and the URL-safe post-processing comes back out of
      `atob` after the alphabet and padding are restored. */
  lemma UrlSafeBtoaRoundTrip(s: string)
    requires IsLatin1(s)
    ensures Btoa(s).Some?
    ensures Atob(RestoreStandard(UrlSafeNoPad(Btoa(s).value))) == Some(s)
  {
    UrlSafeRoundTrip(Latin1Bytes(s));
    Latin1RoundTrip(s);
  }
}
