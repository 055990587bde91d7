/** Base64 as Node's `Buffer.toString("base64")` produces it (the alphabet of
    table 1 of RFC 4648, with `=` padding), and the URL-safe rewriting that the
    token manager applies to it for PKCE values. */
module Base64 {

  type Byte = x: int | 0 <= x < 256
  type Sextet = x: int | 0 <= x < 64

  /** Table 1 of RFC 4648: A-Z, a-z, 0-9, '+', '/'. */
  function StdChar(i: Sextet): char {
    if i < 26 then ('A' as int + i) as char
    else if i < 52 then ('a' as int + (i - 26)) as char
    else if i < 62 then ('0' as int + (i - 52)) as char
    else if i == 62 then '+'
    else '/'
  }

  /** Table 2 of RFC 4648 (the "URL and filename safe" alphabet): '-' and '_' for 62 and 63. */
  function UrlChar(i: Sextet): char {
    if i < 26 then ('A' as int + i) as char
    else if i < 52 then ('a' as int + (i - 26)) as char
    else if i < 62 then ('0' as int + (i - 52)) as char
    else if i == 62 then '-'
    else '_'
  }

  predicate IsUrlChar(c: char) {
    ('A' <= c <= 'Z') || ('a' <= c <= 'z') || ('0' <= c <= '9') || c == '-' || c == '_'
  }

  /** The 6-bit groups of a byte string, most significant bits first; a final
      group of one or two bytes is zero-filled on the right. */
  function Sextets(b: seq<Byte>): seq<Sextet>
    decreases |b|
  {
    if |b| == 0 then []
    else if |b| == 1 then [b[0] / 4, b[0] % 4 * 16]
    else if |b| == 2 then [b[0] / 4, b[0] % 4 * 16 + b[1] / 16, b[1] % 16 * 4]
    else [b[0] / 4, b[0] % 4 * 16 + b[1] / 16, b[1] % 16 * 4 + b[2] / 64, b[2] % 64] + Sextets(b[3..])
  }

  function StdChars(xs: seq<Sextet>): seq<char> {
    if xs == [] then [] else [StdChar(xs[0])] + StdChars(xs[1..])
  }

  function UrlChars(xs: seq<Sextet>): seq<char> {
    if xs == [] then [] else [UrlChar(xs[0])] + UrlChars(xs[1..])
  }

  function Padding(n: nat): string {
    if n % 3 == 1 then "==" else if n % 3 == 2 then "=" else ""
  }

  /** `buffer.toString("base64")` */
  function Encode(b: seq<Byte>): string {
    StdChars(Sextets(b)) + Padding(|b|)
  }

  /** `s.replace(/x/g, y)` for a one-character pattern and replacement. */
  function ReplaceAll(s: string, from: char, to: char): string {
    if s == [] then [] else [if s[0] == from then to else s[0]] + ReplaceAll(s[1..], from, to)
  }

  /** `s.replace(/x/g, "")` */
  function RemoveAll(s: string, c: char): string {
    if s == [] then [] else (if s[0] == c then [] else [s[0]]) + RemoveAll(s[1..], c)
  }

  /** The three rewrites of `base64URLEncode`, in the order the code applies them. */
  function ToUrlSafe(s: string): string {
    RemoveAll(ReplaceAll(ReplaceAll(s, '+', '-'), '/', '_'), '=')
  }

  /** `base64URLEncode(buffer)` */
  function Base64UrlEncode(b: seq<Byte>): string {
    ToUrlSafe(Encode(b))
  }

  lemma {:induction false} ToUrlSafeCons(c: char, t: string)
    ensures ToUrlSafe([c] + t) ==
      (if c == '=' then [] else [if c == '+' then '-' else if c == '/' then '_' else c]) + ToUrlSafe(t)
  {
    assert ([c] + t)[1..] == t;
    var r1 := ReplaceAll([c] + t, '+', '-');
    var c1 := if c == '+' then '-' else c;
    assert r1 == [c1] + ReplaceAll(t, '+', '-');
    assert r1[1..] == ReplaceAll(t, '+', '-');
    var r2 := ReplaceAll(r1, '/', '_');
    var c2 := if c1 == '/' then '_' else c1;
    assert r2 == [c2] + ReplaceAll(ReplaceAll(t, '+', '-'), '/', '_');
    assert r2[1..] == ReplaceAll(ReplaceAll(t, '+', '-'), '/', '_');
  }

  lemma {:induction false} ToUrlSafeRewritesAlphabet(xs: seq<Sextet>, pad: string)
    requires forall k :: 0 <= k < |pad| ==> pad[k] == '='
    ensures ToUrlSafe(StdChars(xs) + pad) == UrlChars(xs)
    decreases |xs| + |pad|
  {
    if xs != [] {
      assert StdChars(xs) + pad == [StdChar(xs[0])] + (StdChars(xs[1..]) + pad);
      ToUrlSafeCons(StdChar(xs[0]), StdChars(xs[1..]) + pad);
      ToUrlSafeRewritesAlphabet(xs[1..], pad);
    } else if pad != [] {
      assert StdChars(xs) == [] && UrlChars(xs) == [];
      assert StdChars(xs) + pad == [pad[0]] + pad[1..];
      assert StdChars(xs) + pad[1..] == pad[1..];
      ToUrlSafeCons(pad[0], pad[1..]);
      ToUrlSafeRewritesAlphabet(xs, pad[1..]);
    }
  }

  /** The rewriting turns the padded standard encoding into the unpadded
      URL-safe encoding of section 5 of RFC 4648. */
  lemma Base64UrlEncodeIsUnpaddedUrlAlphabet(b: seq<Byte>)
    ensures Base64UrlEncode(b) == UrlChars(Sextets(b))
  {
    ToUrlSafeRewritesAlphabet(Sextets(b), Padding(|b|));
  }

  lemma {:induction false} UrlCharsAreUrlSafe(xs: seq<Sextet>)
    ensures |UrlChars(xs)| == |xs|
    ensures forall k :: 0 <= k < |xs| ==> IsUrlChar(UrlChars(xs)[k])
  {
    if xs != [] {
      UrlCharsAreUrlSafe(xs[1..]);
      assert forall k :: 1 <= k < |xs| ==> UrlChars(xs)[k] == UrlChars(xs[1..])[k - 1];
    }
  }

  lemma {:induction false} SextetsLength(b: seq<Byte>)
    ensures |Sextets(b)| == (4 * |b| + 2) / 3
    decreases |b|
  {
    if |b| >= 3 {
      SextetsLength(b[3..]);
    }
  }

  /** Every character of `base64URLEncode` output is in the URL-safe alphabet, so
      none is '+', '/' or '=', and 32 random bytes give a 43-character verifier. */
  lemma Base64UrlEncodeIsUrlSafe(b: seq<Byte>)
    ensures |Base64UrlEncode(b)| == (4 * |b| + 2) / 3
    ensures forall k :: 0 <= k < |Base64UrlEncode(b)| ==> IsUrlChar(Base64UrlEncode(b)[k])
    ensures '+' !in Base64UrlEncode(b) && '/' !in Base64UrlEncode(b) && '=' !in Base64UrlEncode(b)
  {
    Base64UrlEncodeIsUnpaddedUrlAlphabet(b);
    UrlCharsAreUrlSafe(Sextets(b));
    SextetsLength(b);
  }

  // Decoding, the inverse used to show that the rewriting loses nothing.

  function UrlValue(c: char): Sextet
    requires IsUrlChar(c)
  {
    if 'A' <= c <= 'Z' then c as int - 'A' as int
    else if 'a' <= c <= 'z' then c as int - 'a' as int + 26
    else if '0' <= c <= '9' then c as int - '0' as int + 52
    else if c == '-' then 62
    else 63
  }

  function UrlValues(s: string): (r: seq<Sextet>)
    requires forall k :: 0 <= k < |s| ==> IsUrlChar(s[k])
    ensures |r| == |s|
  {
    if s == [] then [] else [UrlValue(s[0])] + UrlValues(s[1..])
  }

  function Byte0(x0: Sextet, x1: Sextet): Byte { x0 as int * 4 + x1 as int / 16 }
  function Byte1(x1: Sextet, x2: Sextet): Byte { x1 as int % 16 * 16 + x2 as int / 4 }
  function Byte2(x2: Sextet, x3: Sextet): Byte { x2 as int % 4 * 64 + x3 as int }

  function Unsextets(xs: seq<Sextet>): seq<Byte>
    requires |xs| % 4 != 1
    decreases |xs|
  {
    if |xs| == 0 then []
    else if |xs| == 2 then [Byte0(xs[0], xs[1])]
    else if |xs| == 3 then [Byte0(xs[0], xs[1]), Byte1(xs[1], xs[2])]
    else [Byte0(xs[0], xs[1]), Byte1(xs[1], xs[2]), Byte2(xs[2], xs[3])] + Unsextets(xs[4..])
  }

  /** Unpadded URL-safe base64 decoding of a string over the URL-safe alphabet
      whose length is not 1 modulo 4 (the lengths an encoding can have). */
  function Base64UrlDecode(s: string): seq<Byte>
    requires forall k :: 0 <= k < |s| ==> IsUrlChar(s[k])
    requires |s| % 4 != 1
  {
    Unsextets(UrlValues(s))
  }

  lemma {:induction false} UrlValuesOfUrlChars(xs: seq<Sextet>)
    ensures forall k :: 0 <= k < |UrlChars(xs)| ==> IsUrlChar(UrlChars(xs)[k])
    ensures UrlValues(UrlChars(xs)) == xs
  {
    UrlCharsAreUrlSafe(xs);
    if xs != [] {
      UrlValuesOfUrlChars(xs[1..]);
      assert UrlChars(xs)[1..] == UrlChars(xs[1..]);
    }
  }

  lemma DecodeSingle(b0: Byte)
    ensures Byte0(b0 / 4, b0 % 4 * 16) == b0
  {
  }

  lemma DecodePair(b0: Byte, b1: Byte)
    ensures b0 % 4 * 16 + b1 / 16 < 64
    ensures Byte0(b0 / 4, b0 % 4 * 16 + b1 / 16) == b0
    ensures Byte1(b0 % 4 * 16 + b1 / 16, b1 % 16 * 4) == b1
  {
    assert (b0 % 4 * 16 + b1 / 16) % 16 == b1 / 16;
  }

  lemma DecodeGroup(b0: Byte, b1: Byte, b2: Byte)
    ensures b0 % 4 * 16 + b1 / 16 < 64 && b1 % 16 * 4 + b2 / 64 < 64
    ensures Byte0(b0 / 4, b0 % 4 * 16 + b1 / 16) == b0
    ensures Byte1(b0 % 4 * 16 + b1 / 16, b1 % 16 * 4 + b2 / 64) == b1
    ensures Byte2(b1 % 16 * 4 + b2 / 64, b2 % 64) == b2
  {
    assert (b0 % 4 * 16 + b1 / 16) % 16 == b1 / 16;
    assert (b1 % 16 * 4 + b2 / 64) / 4 == b1 % 16;
    assert (b1 % 16 * 4 + b2 / 64) % 4 == b2 / 64;
  }

  /** The first four sextets of three or more bytes decode to the first three bytes. */
  lemma DecodeLeadingGroup(b: seq<Byte>)
    requires |b| >= 3
    ensures var s := Sextets(b);
      && |s| == 4 + |Sextets(b[3..])| && s[4..] == Sextets(b[3..])
      && Byte0(s[0], s[1]) == b[0] && Byte1(s[1], s[2]) == b[1] && Byte2(s[2], s[3]) == b[2]
  {
    DecodeGroup(b[0], b[1], b[2]);
  }

  lemma {:induction false} UnsextetsOfSextets(b: seq<Byte>)
    ensures |Sextets(b)| % 4 != 1
    ensures Unsextets(Sextets(b)) == b
    decreases |b|
  {
    if |b| == 1 {
      DecodeSingle(b[0]);
    } else if |b| == 2 {
      DecodePair(b[0], b[1]);
    } else if |b| >= 3 {
      var s := Sextets(b);
      UnsextetsOfSextets(b[3..]);
      DecodeLeadingGroup(b);
      assert Unsextets(s) == [Byte0(s[0], s[1]), Byte1(s[1], s[2]), Byte2(s[2], s[3])] + Unsextets(s[4..]);
      assert b == [b[0], b[1], b[2]] + b[3..];
    }
  }

  /** URL-safe decoding recovers the bytes: the rewriting of `base64URLEncode` is lossless. */
  lemma Base64UrlRoundTrip(b: seq<Byte>)
    ensures forall k :: 0 <= k < |Base64UrlEncode(b)| ==> IsUrlChar(Base64UrlEncode(b)[k])
    ensures |Base64UrlEncode(b)| % 4 != 1
    ensures Base64UrlDecode(Base64UrlEncode(b)) == b
  {
    Base64UrlEncodeIsUnpaddedUrlAlphabet(b);
    UrlValuesOfUrlChars(Sextets(b));
    UrlCharsAreUrlSafe(Sextets(b));
    UnsextetsOfSextets(b);
  }
}
