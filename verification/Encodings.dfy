/** Bytes and their text forms: UTF-8, and the base64 alphabet that is safe in URLs (RFC 4648, section 5). */
module Encodings {
  import opened Wrappers

  type Byte = n: int | 0 <= n < 256
  type Bytes = seq<Byte>

  // ---------------------------------------------------------------- base64url

  type Sextet = n: int | 0 <= n < 64

  function Digit(v: Sextet): char {
    if v < 26 then 'A' + v as char
    else if v < 52 then 'a' + (v - 26) as char
    else if v < 62 then '0' + (v - 52) as char
    else if v == 62 then '-' else '_'
  }

  /** Both alphabets are read: the decoder rewrites `-` and `_` before it looks at the text. */
  function SextetOf(c: char): Option<Sextet> {
    if 'A' <= c <= 'Z' then Some((c - 'A') as int)
    else if 'a' <= c <= 'z' then Some((c - 'a') as int + 26)
    else if '0' <= c <= '9' then Some((c - '0') as int + 52)
    else if c == '-' || c == '+' then Some(62)
    else if c == '_' || c == '/' then Some(63)
    else None
  }

  function Letters(v: seq<Sextet>): string {
    if v == [] then "" else [Digit(v[0])] + Letters(v[1..])
  }

  function SextetsOf(text: string): Option<seq<Sextet>> {
    if text == "" then Some([])
    else
      var first, rest := SextetOf(text[0]), SextetsOf(text[1..]);
      if first.Some? && rest.Some? then Some([first.value] + rest.value) else None
  }

  function Lead(b0: Byte): Sextet { b0 / 4 }
  function Cross(b0: Byte, b1: Byte): Sextet { b0 % 4 * 16 + b1 / 16 }
  function Span(b1: Byte, b2: Byte): Sextet { b1 % 16 * 4 + b2 / 64 }
  function Tail(b2: Byte): Sextet { b2 % 64 }

  /** Three bytes make four groups of six bits; missing bits of the last group are zero. */
  function Sextets(b: Bytes): seq<Sextet> {
    if |b| == 0 then []
    else if |b| == 1 then [Lead(b[0]), Cross(b[0], 0)]
    else if |b| == 2 then [Lead(b[0]), Cross(b[0], b[1]), Span(b[1], 0)]
    else [Lead(b[0]), Cross(b[0], b[1]), Span(b[1], b[2]), Tail(b[2])] + Sextets(b[3..])
  }

  function First(v0: Sextet, v1: Sextet): Byte { v0 * 4 + v1 / 16 }
  function Second(v1: Sextet, v2: Sextet): Byte { v1 % 16 * 16 + v2 / 4 }
  function Third(v2: Sextet, v3: Sextet): Byte { v2 % 4 * 64 + v3 }

  /** Bits left over after the last whole byte are dropped. */
  function FromSextets(v: seq<Sextet>): Bytes {
    if |v| < 2 then []
    else if |v| == 2 then [First(v[0], v[1])]
    else if |v| == 3 then [First(v[0], v[1]), Second(v[1], v[2])]
    else [First(v[0], v[1]), Second(v[1], v[2]), Third(v[2], v[3])] + FromSextets(v[4..])
  }

  function Repeat(c: char, n: nat): string {
    if n == 0 then "" else [c] + Repeat(c, n - 1)
  }

  /** What is missing to whole groups of four. */
  function Missing(length: nat): nat {
    (4 - length % 4) % 4
  }

  function EncodeBase64(b: Bytes): string {
    var letters := Letters(Sextets(b));
    letters + Repeat('=', Missing(|letters|))
  }

  function StripPadding(text: string): string {
    if |text| > 0 && text[|text| - 1] == '=' then StripPadding(text[..|text| - 1]) else text
  }

  function EncodeBase64Url(b: Bytes): string {
    StripPadding(EncodeBase64(b))
  }

  /** Strict decoding: letters only, then exactly the padding that completes the last group. */
  function DecodeBase64(text: string): Option<Bytes> {
    var body := StripPadding(text);
    match SextetsOf(body)
    case Some(v) =>
      if |v| % 4 != 1 && text == body + Repeat('=', Missing(|body|)) then Some(FromSextets(v)) else None
    case None => None
  }

  function DecodeBase64Url(text: string): Option<Bytes> {
    DecodeBase64(text + Repeat('=', Missing(|text|)))
  }

  /** A group of three bytes and its four letters are one number of 24 bits, the first byte on top. */
  lemma GroupIsOneNumber(b0: Byte, b1: Byte, b2: Byte)
    ensures Lead(b0) * 262144 + Cross(b0, b1) * 4096 + Span(b1, b2) * 64 + Tail(b2) == b0 * 65536 + b1 * 256 + b2
  {
  }

  lemma DigitRoundTrip(v: Sextet)
    ensures SextetOf(Digit(v)) == Some(v) && Digit(v) != '='
  {
  }

  lemma {:induction false} LettersRoundTrip(v: seq<Sextet>)
    ensures SextetsOf(Letters(v)) == Some(v) && |Letters(v)| == |v|
    ensures v != [] ==> Letters(v)[|v| - 1] != '='
  {
    if v != [] {
      DigitRoundTrip(v[0]);
      LettersRoundTrip(v[1..]);
      assert Letters(v)[1..] == Letters(v[1..]);
      assert v == [v[0]] + v[1..];
    }
  }

  lemma GroupRoundTrip(b0: Byte, b1: Byte, b2: Byte)
    ensures First(Lead(b0), Cross(b0, b1)) == b0
    ensures Second(Cross(b0, b1), Span(b1, b2)) == b1
    ensures Third(Span(b1, b2), Tail(b2)) == b2
  {
    assert Cross(b0, b1) / 16 == b0 % 4 && Cross(b0, b1) % 16 == b1 / 16;
    assert Span(b1, b2) / 4 == b1 % 16 && Span(b1, b2) % 4 == b2 / 64;
  }

  lemma GroupComesFirst(v0: Sextet, v1: Sextet, v2: Sextet, v3: Sextet, rest: seq<Sextet>)
    ensures FromSextets([v0, v1, v2, v3] + rest) == [First(v0, v1), Second(v1, v2), Third(v2, v3)] + FromSextets(rest)
  {
    assert ([v0, v1, v2, v3] + rest)[4..] == rest;
  }

  lemma LastOne(b0: Byte)
    ensures FromSextets(Sextets([b0])) == [b0]
  {
    var v0, v1 := Lead(b0), Cross(b0, 0);
    assert First(v0, v1) == b0 by { GroupRoundTrip(b0, 0, 0); }
    assert Sextets([b0]) == [v0, v1];
    assert FromSextets([v0, v1]) == [First(v0, v1)];
  }

  lemma LastTwo(b0: Byte, b1: Byte)
    ensures FromSextets(Sextets([b0, b1])) == [b0, b1]
  {
    GroupRoundTrip(b0, b1, 0);
  }

  lemma NextThree(b0: Byte, b1: Byte, b2: Byte, rest: Bytes)
    ensures FromSextets(Sextets([b0, b1, b2] + rest)) == [b0, b1, b2] + FromSextets(Sextets(rest))
  {
    var b := [b0, b1, b2] + rest;
    assert b[3..] == rest;
    GroupComesFirst(Lead(b0), Cross(b0, b1), Span(b1, b2), Tail(b2), Sextets(rest));
    GroupRoundTrip(b0, b1, b2);
  }

  lemma {:induction false} SextetsRoundTrip(b: Bytes)
    ensures FromSextets(Sextets(b)) == b
  {
    if |b| == 1 {
      LastOne(b[0]);
      assert b == [b[0]];
    } else if |b| == 2 {
      LastTwo(b[0], b[1]);
      assert b == [b[0], b[1]];
    } else if |b| > 2 {
      SextetsRoundTrip(b[3..]);
      NextThree(b[0], b[1], b[2], b[3..]);
      assert b == [b[0], b[1], b[2]] + b[3..];
    }
  }

  /** No whole number of bytes leaves a single letter over. */
  lemma {:induction false} SextetsLength(b: Bytes)
    ensures |Sextets(b)| == (4 * |b| + 2) / 3 && |Sextets(b)| % 4 != 1
  {
    if |b| > 2 {
      SextetsLength(b[3..]);
    }
  }

  lemma {:induction false} StrippingStops(text: string, pad: nat)
    requires text == "" || text[|text| - 1] != '='
    ensures StripPadding(text + Repeat('=', pad)) == text
  {
    if pad == 0 {
      assert text + "" == text;
    } else {
      RepeatEnds('=', pad);
      var t := text + Repeat('=', pad);
      assert t[..|t| - 1] == text + Repeat('=', pad - 1);
      StrippingStops(text, pad - 1);
    }
  }

  lemma {:induction false} RepeatEnds(c: char, n: nat)
    ensures |Repeat(c, n)| == n
    ensures n > 0 ==> Repeat(c, n) == Repeat(c, n - 1) + [c]
  {
    if n > 0 {
      RepeatEnds(c, n - 1);
    }
  }

  /** Sections 3.2 and 5 of RFC 4648: leaving the padding out loses nothing. */
  lemma Base64UrlRoundTrip(b: Bytes)
    ensures DecodeBase64Url(EncodeBase64Url(b)) == Some(b)
    ensures |EncodeBase64Url(b)| == (4 * |b| + 2) / 3
  {
    var v := Sextets(b);
    var letters := Letters(v);
    SextetsRoundTrip(b);
    SextetsLength(b);
    LettersRoundTrip(v);
    StrippingStops(letters, Missing(|letters|));
    assert EncodeBase64Url(b) == letters;
  }

  // ---------------------------------------------------------------- UTF-8

  /** Section 3 of RFC 3629. */
  function CharBytes(c: char): Bytes {
    var n := c as int;
    if n < 0x80 then [n]
    else if n < 0x800 then [0xC0 + n / 64, 0x80 + n % 64]
    else if n < 0x10000 then [0xE0 + n / 4096, 0x80 + n / 64 % 64, 0x80 + n % 64]
    else [0xF0 + n / 262144, 0x80 + n / 4096 % 64, 0x80 + n / 64 % 64, 0x80 + n % 64]
  }

  function Utf8(s: string): Bytes {
    if s == "" then [] else CharBytes(s[0]) + Utf8(s[1..])
  }

  predicate Continues(b: Bytes, i: nat) {
    i < |b| && 0x80 <= b[i] < 0xC0
  }

  function AsChar(n: int): Option<char> {
    if 0 <= n < 0xD800 || 0xE000 <= n < 0x110000 then Some(n as char) else None
  }

  /** The first character and how many bytes it takes; overlong forms and surrogates are refused. */
  function FirstChar(b: Bytes): Option<(char, nat)>
    ensures FirstChar(b).Some? ==> 0 < FirstChar(b).value.1 <= |b|
  {
    if b == [] then None
    else if b[0] < 0x80 then Some((b[0] as char, 1))
    else if 0xC2 <= b[0] < 0xE0 && Continues(b, 1) then
      Sized(AsChar((b[0] as int - 0xC0) * 64 + (b[1] as int - 0x80)), 2)
    else if 0xE0 <= b[0] < 0xF0 && Continues(b, 1) && Continues(b, 2) then
      var n := (b[0] as int - 0xE0) * 4096 + (b[1] as int - 0x80) * 64 + (b[2] as int - 0x80);
      if n < 0x800 then None else Sized(AsChar(n), 3)
    else if 0xF0 <= b[0] < 0xF5 && Continues(b, 1) && Continues(b, 2) && Continues(b, 3) then
      var n := (b[0] as int - 0xF0) * 262144 + (b[1] as int - 0x80) * 4096 + (b[2] as int - 0x80) * 64
        + (b[3] as int - 0x80);
      if n < 0x10000 then None else Sized(AsChar(n), 4)
    else None
  }

  function Sized(c: Option<char>, size: nat): (r: Option<(char, nat)>)
    ensures r.Some? <==> c.Some?
    ensures r.Some? ==> r.value == (c.value, size)
  {
    if c.None? then None else Some((c.value, size))
  }

  function DecodeUtf8(b: Bytes): Option<string>
    decreases |b|
  {
    if b == [] then Some("")
    else
      match FirstChar(b)
      case None => None
      case Some((c, size)) =>
        match DecodeUtf8(b[size..])
        case None => None
        case Some(rest) => Some([c] + rest)
  }

  function Payload(b: Byte, mark: int): int {
    b - mark
  }

  /** The code point is spread over a lead byte, which tells how many follow, and bytes of six bits each. */
  lemma CharBytesAreBits(c: char)
    ensures var n, b := c as int, CharBytes(c);
            && |b| == (if n < 0x80 then 1 else if n < 0x800 then 2 else if n < 0x10000 then 3 else 4)
            && (forall i :: 1 <= i < |b| ==> 0x80 <= b[i] <= 0xBF)
            && (|b| == 1 ==> n == b[0])
            && (|b| == 2 ==> 0xC2 <= b[0] <= 0xDF && n == Payload(b[0], 0xC0) * 64 + Payload(b[1], 0x80))
            && (|b| == 3 ==>
                  && 0xE0 <= b[0] <= 0xEF
                  && n == Payload(b[0], 0xE0) * 4096 + Payload(b[1], 0x80) * 64 + Payload(b[2], 0x80))
            && (|b| == 4 ==>
                  && 0xF0 <= b[0] <= 0xF4
                  && n == Payload(b[0], 0xF0) * 262144 + Payload(b[1], 0x80) * 4096 + Payload(b[2], 0x80) * 64
                          + Payload(b[3], 0x80))
  {
    ThreeDigits(c as int);
    FourDigits(c as int);
  }

  lemma Base64Digits(n: nat)
    ensures n == n / 64 * 64 + n % 64
    ensures n / 4096 == n / 64 / 64 && n / 262144 == n / 4096 / 64
  {
  }

  lemma CharRoundTrip(c: char, rest: Bytes)
    ensures FirstChar(CharBytes(c) + rest) == Some((c, |CharBytes(c)|))
  {
    var n := c as int;
    if n < 0x80 {
    } else if n < 0x800 {
      ReadTwo(n / 64, n % 64, rest);
    } else if n < 0x10000 {
      assert n == n / 4096 * 4096 + n / 64 % 64 * 64 + n % 64 by { ThreeDigits(n); }
      ReadThree(n / 4096, n / 64 % 64, n % 64, rest);
    } else {
      assert n == n / 262144 * 262144 + n / 4096 % 64 * 4096 + n / 64 % 64 * 64 + n % 64 by { FourDigits(n); }
      ReadFour(n / 262144, n / 4096 % 64, n / 64 % 64, n % 64, rest);
    }
  }

  lemma ThreeDigits(n: nat)
    ensures n == n / 4096 * 4096 + n / 64 % 64 * 64 + n % 64
  {
    Base64Digits(n);
    Base64Digits(n / 64);
  }

  lemma FourDigits(n: nat)
    ensures n == n / 262144 * 262144 + n / 4096 % 64 * 4096 + n / 64 % 64 * 64 + n % 64
  {
    ThreeDigits(n);
    Base64Digits(n);
    Base64Digits(n / 4096);
  }

  lemma ReadTwo(h: nat, l: Sextet, rest: Bytes)
    requires 2 <= h < 32
    ensures FirstChar([0xC0 + h, 0x80 + l] + rest) == Sized(AsChar(h * 64 + l), 2)
  {
  }

  lemma ReadThree(h: nat, m: Sextet, l: Sextet, rest: Bytes)
    requires h < 16 && h * 4096 + m * 64 + l >= 0x800
    ensures FirstChar([0xE0 + h, 0x80 + m, 0x80 + l] + rest) == Sized(AsChar(h * 4096 + m * 64 + l), 3)
  {
  }

  lemma ReadFour(h: nat, m: Sextet, k: Sextet, l: Sextet, rest: Bytes)
    requires h < 5 && h * 262144 + m * 4096 + k * 64 + l >= 0x10000
    ensures FirstChar([0xF0 + h, 0x80 + m, 0x80 + k, 0x80 + l] + rest)
            == Sized(AsChar(h * 262144 + m * 4096 + k * 64 + l), 4)
  {
  }

  lemma {:induction false} Utf8RoundTrip(s: string)
    ensures DecodeUtf8(Utf8(s)) == Some(s)
  {
    if s != "" {
      var head, rest := CharBytes(s[0]), Utf8(s[1..]);
      CharRoundTrip(s[0], rest);
      assert (head + rest)[|head|..] == rest;
      Utf8RoundTrip(s[1..]);
      assert s == [s[0]] + s[1..];
    }
  }

  predicate Ascii(s: string) {
    forall i :: 0 <= i < |s| ==> s[i] as int < 0x80
  }

  lemma {:induction false} Utf8Length(s: string)
    ensures |s| <= |Utf8(s)| <= 4 * |s|
    ensures Ascii(s) <==> |Utf8(s)| == |s|
  {
    if s != "" {
      Utf8Length(s[1..]);
      assert Ascii(s) <==> s[0] as int < 0x80 && Ascii(s[1..]) by {
        assert forall i :: 0 < i < |s| ==> s[i] == s[1..][i - 1];
      }
    }
  }

  lemma {:induction false} Utf8Concat(a: string, b: string)
    ensures Utf8(a + b) == Utf8(a) + Utf8(b)
  {
    if a == "" {
      assert a + b == b;
    } else {
      var head := CharBytes(a[0]);
      assert (a + b)[1..] == a[1..] + b;
      assert Utf8(a) == head + Utf8(a[1..]) && Utf8(a + b) == head + Utf8(a[1..] + b);
      Utf8Concat(a[1..], b);
      assert head + (Utf8(a[1..]) + Utf8(b)) == head + Utf8(a[1..]) + Utf8(b);
    }
  }
}
