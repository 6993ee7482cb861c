/**
 * Base64 as GmailService::base64UrlDecode uses it: the URL-safe alphabet of
 * section 5 of RFC 4648 is translated to the standard alphabet of section 4
 * (`strtr($data, '-_', '+/')`) and then decoded the way PHP's non-strict
 * `base64_decode` does: characters outside the alphabet, padding included,
 * are skipped, and a lone trailing sextet yields no byte. The encoder is the
 * reference partner the decoder is proved against.
 */
module Base64 {

  type Byte = b: int | 0 <= b < 256
  type Sextet = v: int | 0 <= v < 64

  /** The character of the standard alphabet for a sextet. */
  function SextetChar(v: Sextet): (c: char)
    ensures SextetOf(c) == Value(v)
    ensures c != '-' && c != '_' && c != '='
  {
    if v < 26 then (('A' as int) + v) as char
    else if v < 52 then (('a' as int) + v - 26) as char
    else if v < 62 then (('0' as int) + v - 52) as char
    else if v == 62 then '+'
    else '/'
  }

  /** The sextet of a standard-alphabet character; None for anything else. */
  function SextetOf(c: char): (r: Option)
  {
    if 'A' <= c <= 'Z' then Value(c as int - 'A' as int)
    else if 'a' <= c <= 'z' then Value(c as int - 'a' as int + 26)
    else if '0' <= c <= '9' then Value(c as int - '0' as int + 52)
    else if c == '+' then Value(62)
    else if c == '/' then Value(63)
    else Skip
  }

  datatype Option = Skip | Value(v: Sextet)

  /**
   * PHP `strtr($s, "ab", "xy")` with two-character lists: every `a` becomes
   * `x`, every `b` becomes `y`, and every other character is kept.
   */
  function Translate(s: string, a: char, b: char, x: char, y: char): (r: string)
    ensures |r| == |s|
    ensures forall i :: 0 <= i < |s| ==>
      r[i] == (if s[i] == a then x else if s[i] == b then y else s[i])
  {
    if s == [] then []
    else [if s[0] == a then x else if s[0] == b then y else s[0]] + Translate(s[1..], a, b, x, y)
  }

  /** `strtr($data, '-_', '+/')`: the URL-safe alphabet to the standard one. */
  function UrlToStd(s: string): string {
    Translate(s, '-', '_', '+', '/')
  }

  /** The URL-safe encoding: standard Base64 with '+' and '/' replaced by '-' and '_'. */
  function UrlEncode(bs: seq<Byte>): string {
    Translate(Encode(bs), '+', '/', '-', '_')
  }

  /** The alphabet characters of the input, as sextets, in order. */
  function Sextets(s: string): seq<Sextet> {
    if s == [] then []
    else SextetList(s[0]) + Sextets(s[1..])
  }

  lemma {:induction false} SextetsAppend(a: string, b: string)
    ensures Sextets(a + b) == Sextets(a) + Sextets(b)
    decreases |a|
  {
    if a == [] {
      assert a + b == b;
    } else {
      SextetsAppend(a[1..], b);
      assert (a + b)[0] == a[0];
      assert (a + b)[1..] == a[1..] + b;
    }
  }

  function SextetList(c: char): seq<Sextet> {
    match SextetOf(c) case Value(v) => [v] case Skip => []
  }

  lemma SextetsOfFour(s: string)
    requires |s| == 4
    ensures Sextets(s) == SextetList(s[0]) + SextetList(s[1]) + SextetList(s[2]) + SextetList(s[3])
  {
    assert Sextets(s[3..]) == SextetList(s[3]) + Sextets(s[3..][1..]);
    assert s[3..][1..] == [];
    assert Sextets(s[2..]) == SextetList(s[2]) + Sextets(s[2..][1..]);
    assert s[2..][1..] == s[3..];
    assert Sextets(s[1..]) == SextetList(s[1]) + Sextets(s[1..][1..]);
    assert s[1..][1..] == s[2..];
  }

  function Byte0(a: Sextet, b: Sextet): Byte { a * 4 + b / 16 }
  function Byte1(b: Sextet, c: Sextet): Byte { (b % 16) * 16 + c / 4 }
  function Byte2(c: Sextet, d: Sextet): Byte { (c % 4) * 64 + d }

  /** Four sextets make three bytes; a trailing 3 make two, 2 make one, 1 makes none. */
  function DecodeSextets(v: seq<Sextet>): (r: seq<Byte>)
  {
    if |v| >= 4 then [Byte0(v[0], v[1]), Byte1(v[1], v[2]), Byte2(v[2], v[3])] + DecodeSextets(v[4..])
    else if |v| == 3 then [Byte0(v[0], v[1]), Byte1(v[1], v[2])]
    else if |v| == 2 then [Byte0(v[0], v[1])]
    else []
  }

  /** PHP's non-strict `base64_decode`. */
  function Decode(s: string): seq<Byte> {
    DecodeSextets(Sextets(s))
  }

  /** GmailService::base64UrlDecode, on bytes. */
  function UrlDecode(s: string): seq<Byte> {
    Decode(UrlToStd(s))
  }

  /** Bytes as a PHP (byte) string: one character per byte. */
  function BytesToString(bs: seq<Byte>): (r: string)
    ensures |r| == |bs|
    ensures forall i :: 0 <= i < |bs| ==> r[i] as int == bs[i]
  {
    if bs == [] then [] else [bs[0] as char] + BytesToString(bs[1..])
  }

  // The four sextets of a three-byte group.
  function Hi6(a: Byte): Sextet { a / 4 }
  function Mid6(a: Byte, b: Byte): Sextet { (a % 4) * 16 + b / 16 }
  function Low6(b: Byte, c: Byte): Sextet { (b % 16) * 4 + c / 64 }
  function Last6(c: Byte): Sextet { c % 64 }

  lemma GroupRoundTrip(a: Byte, b: Byte, c: Byte)
    ensures Byte0(Hi6(a), Mid6(a, b)) == a
    ensures Byte1(Mid6(a, b), Low6(b, c)) == b
    ensures Byte2(Low6(b, c), Last6(c)) == c
  {
  }

  /** The encoding of one (possibly short) group: 4 characters, '='-padded. */
  function EncodeGroup(g: seq<Byte>): (r: string)
    requires 1 <= |g| <= 3
    ensures |r| == 4 && '-' !in r && '_' !in r
  {
    if |g| == 3 then [SextetChar(Hi6(g[0])), SextetChar(Mid6(g[0], g[1])), SextetChar(Low6(g[1], g[2])), SextetChar(Last6(g[2]))]
    else if |g| == 2 then [SextetChar(Hi6(g[0])), SextetChar(Mid6(g[0], g[1])), SextetChar(Low6(g[1], 0)), '=']
    else [SextetChar(Hi6(g[0])), SextetChar(Mid6(g[0], 0)), '=', '=']
  }

  /** Standard Base64 with '=' padding: the reference encoder. */
  function Encode(bs: seq<Byte>): (r: string)
    ensures '-' !in r && '_' !in r
  {
    if |bs| >= 3 then EncodeGroup(bs[..3]) + Encode(bs[3..])
    else if |bs| >= 1 then EncodeGroup(bs)
    else []
  }

  /** Decoding what the encoder produced gives back the bytes. */
  lemma {:induction false} DecodeEncode(bs: seq<Byte>)
    ensures Decode(Encode(bs)) == bs
    decreases |bs|
  {
    if |bs| >= 3 {
      var g := bs[..3];
      var head, tail := EncodeGroup(g), Encode(bs[3..]);
      assert Encode(bs) == head + tail;
      SextetsAppend(head, tail);
      SextetsOfFour(head);
      var quad: seq<Sextet> := [Hi6(g[0]), Mid6(g[0], g[1]), Low6(g[1], g[2]), Last6(g[2])];
      assert Sextets(head) == quad;
      var w := Sextets(tail);
      var v := quad + w;
      assert Sextets(Encode(bs)) == v;
      assert v[..4] == quad && v[4..] == w;
      GroupRoundTrip(g[0], g[1], g[2]);
      assert [Byte0(quad[0], quad[1]), Byte1(quad[1], quad[2]), Byte2(quad[2], quad[3])] == g;
      DecodeEncode(bs[3..]);
      assert DecodeSextets(v) == g + DecodeSextets(w);
      assert bs == g + bs[3..];
    } else if |bs| >= 1 {
      DecodeShortGroup(bs);
    }
  }

  /** A final group of one or two bytes decodes back from its padded encoding. */
  lemma DecodeShortGroup(g: seq<Byte>)
    requires 1 <= |g| <= 2
    ensures Decode(EncodeGroup(g)) == g
  {
    var e := EncodeGroup(g);
    SextetsOfFour(e);
    if |g| == 2 {
      var v: seq<Sextet> := [Hi6(g[0]), Mid6(g[0], g[1]), Low6(g[1], 0)];
      assert Sextets(e) == v;
      DecodeTwo(g[0], g[1]);
      assert [g[0], g[1]] == g;
    } else {
      var v: seq<Sextet> := [Hi6(g[0]), Mid6(g[0], 0)];
      assert Sextets(e) == v;
      DecodeOne(g[0]);
      assert [g[0]] == g;
    }
  }

  lemma DecodeTwo(a: Byte, b: Byte)
    ensures DecodeSextets([Hi6(a), Mid6(a, b), Low6(b, 0)]) == [a, b]
  {
    GroupRoundTrip(a, b, 0);
  }

  lemma DecodeOne(a: Byte)
    ensures DecodeSextets([Hi6(a), Mid6(a, 0)]) == [a]
  {
    var v: seq<Sextet> := [Hi6(a), Mid6(a, 0)];
    assert DecodeSextets(v) == [Byte0(v[0], v[1])];
    assert Byte0(Hi6(a), Mid6(a, 0)) == a;
  }

  /**
   * Translating back with the lists swapped restores the text, provided the
   * target characters are distinct and absent from it.
   */
  lemma {:induction false} TranslateRoundTrip(s: string, a: char, b: char, x: char, y: char)
    requires x != y && x !in s && y !in s
    ensures Translate(Translate(s, a, b, x, y), x, y, a, b) == s
  {
    var t := Translate(s, a, b, x, y);
    var u := Translate(t, x, y, a, b);
    forall i | 0 <= i < |s|
      ensures u[i] == s[i]
    {
      assert s[i] != x && s[i] != y;
    }
  }

  /** base64url round trip: decoding the URL-safe encoding gives back the bytes. */
  lemma UrlDecodeEncode(bs: seq<Byte>)
    ensures UrlDecode(UrlEncode(bs)) == bs
  {
    var e := Encode(bs);
    TranslateRoundTrip(e, '+', '/', '-', '_');
    DecodeEncode(bs);
  }

  /** Text without '-' or '_' is its own translation to the standard alphabet. */
  lemma UrlToStdKeeps(s: string)
    requires '-' !in s && '_' !in s
    ensures UrlToStd(s) == s
  {
  }

  lemma QuadSextets(s: string, a: Sextet, b: Sextet, c: Sextet, d: Sextet)
    requires |s| == 4
    requires SextetOf(s[0]) == Value(a) && SextetOf(s[1]) == Value(b)
    requires SextetOf(s[2]) == Value(c) && SextetOf(s[3]) == Value(d)
    ensures Sextets(s) == [a, b, c, d]
  {
    SextetsOfFour(s);
  }

  lemma HelloSextets(q1: string, q2: string, q3: string, q4: string)
    requires q1 == "SGVs" && q2 == "bG8g" && q3 == "V29y" && q4 == "bGQh"
    ensures Sextets(q1 + q2 + q3 + q4) == [18, 6, 21, 44, 27, 6, 60, 32, 21, 54, 61, 50, 27, 6, 16, 33]
  {
    assert q1 + q2 + q3 + q4 == q1 + (q2 + (q3 + q4));
    SextetsAppend(q1, q2 + (q3 + q4));
    SextetsAppend(q2, q3 + q4);
    SextetsAppend(q3, q4);
    QuadSextets(q1, 18, 6, 21, 44);
    QuadSextets(q2, 27, 6, 60, 32);
    QuadSextets(q3, 21, 54, 61, 50);
    QuadSextets(q4, 27, 6, 16, 33);
  }

  lemma HelloDecode(v: seq<Sextet>)
    requires v == [18, 6, 21, 44, 27, 6, 60, 32, 21, 54, 61, 50, 27, 6, 16, 33]
    ensures DecodeSextets(v) == HelloBytes
  {
    var v1, v2, v3 := v[4..], v[8..], v[12..];
    assert v1[4..] == v2 && v2[4..] == v3 && v3[4..] == [];
    assert DecodeSextets(v3) == [108, 100, 33];
    assert DecodeSextets(v2) == [87, 111, 114] + [108, 100, 33];
    assert DecodeSextets(v1) == [108, 111, 32] + [87, 111, 114, 108, 100, 33];
    assert DecodeSextets(v) == [72, 101, 108] + [108, 111, 32, 87, 111, 114, 108, 100, 33];
  }

  /** The character codes of "Hello World!". */
  const HelloBytes: seq<Byte> := [72, 101, 108, 108, 111, 32, 87, 111, 114, 108, 100, 33]

  lemma HelloUnchangedByTranslation(e: string)
    requires e == "SGVsbG8gV29ybGQh"
    ensures UrlToStd(e) == e
  {
    UrlToStdKeeps(e);
  }

  lemma HelloSextetsOf(e: string)
    requires e == "SGVsbG8gV29ybGQh"
    ensures Sextets(e) == [18, 6, 21, 44, 27, 6, 60, 32, 21, 54, 61, 50, 27, 6, 16, 33]
  {
    assert e == "SGVs" + "bG8g" + "V29y" + "bGQh";
    HelloSextets("SGVs", "bG8g", "V29y", "bGQh");
  }

  /** "SGVsbG8gV29ybGQh" decodes to the bytes of "Hello World!" (HelloBytes). */
  lemma HelloWorld(e: string)
    requires e == "SGVsbG8gV29ybGQh"
    ensures UrlDecode(e) == HelloBytes
  {
    HelloUnchangedByTranslation(e);
    HelloSextetsOf(e);
    HelloDecode(Sextets(e));
  }
}
