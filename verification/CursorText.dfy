/** Catalogue cursors: a validated payload, its JSON text, and the opaque form handed to clients. */
module CursorText {
  import opened Wrappers
  import opened Encodings

  /** The ordering key of one ranked row. */
  datatype Key = Key(rank: int, editorial: int, slug: string)

  datatype Cursor = Cursor(v: int, context: string, key: Key)

  const CURSOR_VERSION := 2
  const MAX_CURSOR_LENGTH := 512
  const INT_LIMIT := 0x8000_0000

  predicate WellFormed(c: Cursor) {
    && -INT_LIMIT <= c.key.rank < INT_LIMIT
    && 0 <= c.key.editorial < INT_LIMIT
    && 1 <= |c.key.slug| <= 120
  }

  // ---------------------------------------------------------------- numbers

  predicate IsDigit(c: char) {
    '0' <= c <= '9'
  }

  function Digits(n: nat): string {
    if n < 10 then ['0' + n as char] else Digits(n / 10) + ['0' + (n % 10) as char]
  }

  function Decimal(n: int): string {
    if n < 0 then "-" + Digits(-n) else Digits(n)
  }

  function LeadingDigits(text: string): (k: nat)
    ensures k <= |text| && forall i :: 0 <= i < k ==> IsDigit(text[i])
  {
    if text != "" && IsDigit(text[0]) then 1 + LeadingDigits(text[1..]) else 0
  }

  function ValueOf(digits: string): nat
    requires forall i :: 0 <= i < |digits| ==> IsDigit(digits[i])
  {
    if digits == "" then 0
    else
      assert IsDigit(digits[|digits| - 1]);
      ValueOf(digits[..|digits| - 1]) * 10 + (digits[|digits| - 1] - '0') as nat
  }

  /** A JSON number without fraction; leading zeros are not allowed. */
  function ParseNat(text: string): Option<(nat, string)> {
    var k := LeadingDigits(text);
    if k == 0 || (k > 1 && text[0] == '0') then None else Some((ValueOf(text[..k]), text[k..]))
  }

  function ParseInt(text: string): Option<(int, string)> {
    if text != "" && text[0] == '-' then
      var n :- ParseNat(text[1..]);
      Some((-(n.0 as int), n.1))
    else
      var n :- ParseNat(text);
      Some((n.0, n.1))
  }

  lemma {:induction false} DigitsAreTheNumber(n: nat)
    ensures |Digits(n)| > 0 && forall i :: 0 <= i < |Digits(n)| ==> IsDigit(Digits(n)[i])
    ensures ValueOf(Digits(n)) == n
    ensures Digits(n)[0] == '0' <==> n == 0
    ensures |Digits(n)| > 1 ==> n >= 10
  {
    if n >= 10 {
      DigitsAreTheNumber(n / 10);
      var d := Digits(n);
      assert d[..|d| - 1] == Digits(n / 10);
    } else {
      assert Digits(n)[..0] == "";
    }
  }

  lemma {:induction false} DigitsLeadThenStop(digits: string, rest: string)
    requires forall i :: 0 <= i < |digits| ==> IsDigit(digits[i])
    requires rest == "" || !IsDigit(rest[0])
    ensures LeadingDigits(digits + rest) == |digits|
  {
    if digits == "" {
      assert digits + rest == rest;
    } else {
      assert (digits + rest)[1..] == digits[1..] + rest;
      DigitsLeadThenStop(digits[1..], rest);
    }
  }

  lemma NatRoundTrip(n: nat, rest: string)
    requires rest == "" || !IsDigit(rest[0])
    ensures ParseNat(Digits(n) + rest) == Some((n, rest))
  {
    DigitsAreTheNumber(n);
    DigitsLeadThenStop(Digits(n), rest);
    assert (Digits(n) + rest)[..|Digits(n)|] == Digits(n);
    assert (Digits(n) + rest)[|Digits(n)|..] == rest;
  }

  lemma IntRoundTrip(n: int, rest: string)
    requires rest == "" || !IsDigit(rest[0])
    ensures ParseInt(Decimal(n) + rest) == Some((n, rest))
  {
    var m: nat := if n < 0 then -n else n;
    NatRoundTrip(m, rest);
    DigitsAreTheNumber(m);
    assert IsDigit(Digits(m)[0]);
    SignIsRead(Digits(m), m, rest);
  }

  lemma SignIsRead(digits: string, m: nat, rest: string)
    requires digits != "" && digits[0] != '-' && ParseNat(digits + rest) == Some((m, rest))
    ensures ParseInt(digits + rest) == Some((m as int, rest))
    ensures ParseInt("-" + digits + rest) == Some((-(m as int), rest))
  {
    assert ("-" + digits + rest)[1..] == digits + rest;
  }

  function Power10(k: nat): nat {
    if k == 0 then 1 else 10 * Power10(k - 1)
  }

  lemma {:induction false} DigitsLength(n: nat, k: nat)
    requires k > 0 && n < Power10(k)
    ensures |Digits(n)| <= k
  {
    if n >= 10 {
      DigitsLength(n / 10, k - 1);
    }
  }

  // ---------------------------------------------------------------- strings

  function HexDigit(v: int): char
    requires 0 <= v < 16
  {
    if v < 10 then '0' + v as char else 'a' + (v - 10) as char
  }

  function HexValue(c: char): Option<int> {
    if '0' <= c <= '9' then Some((c - '0') as int)
    else if 'a' <= c <= 'f' then Some((c - 'a') as int + 10)
    else if 'A' <= c <= 'F' then Some((c - 'A') as int + 10)
    else None
  }

  /** The two-character escapes of section 7 of RFC 8259. */
  function ShortEscape(c: char): Option<char> {
    match c
    case '\"' => Some('\"')
    case '\\' => Some('\\')
    case '\U{08}' => Some('b')
    case '\t' => Some('t')
    case '\n' => Some('n')
    case '\U{0C}' => Some('f')
    case '\r' => Some('r')
    case _ => None
  }

  function ShortUnescape(c: char): Option<char> {
    match c
    case '\"' => Some('\"')
    case '\\' => Some('\\')
    case '/' => Some('/')
    case 'b' => Some('\U{08}')
    case 't' => Some('\t')
    case 'n' => Some('\n')
    case 'f' => Some('\U{0C}')
    case 'r' => Some('\r')
    case _ => None
  }

  function EscapeChar(c: char): string {
    if ShortEscape(c).Some? then ['\\', ShortEscape(c).value]
    else if c < ' ' then ['\\', 'u', '0', '0', HexDigit(c as int / 16), HexDigit(c as int % 16)]
    else [c]
  }

  function Escape(s: string): string {
    if s == "" then "" else EscapeChar(s[0]) + Escape(s[1..])
  }

  function Quoted(s: string): string {
    "\"" + Escape(s) + "\""
  }

  function UnescapeHex(text: string): Option<(char, string)>
    requires |text| >= 4
  {
    var a :- HexValue(text[0]);
    var b :- HexValue(text[1]);
    var c :- HexValue(text[2]);
    var d :- HexValue(text[3]);
    var decoded :- AsChar(a * 4096 + b * 256 + c * 16 + d);
    Some((decoded, text[4..]))
  }

  /** One character of a string body, and the text after it. */
  function UnescapeChar(text: string): (r: Option<(char, string)>)
    ensures r.Some? ==> |r.value.1| < |text|
  {
    if text == "" || text[0] < ' ' then None
    else if text[0] != '\\' then Some((text[0], text[1..]))
    else if |text| < 2 then None
    else if text[1] == 'u' then
      if |text| < 6 then None else UnescapeHex(text[2..])
    else
      var c :- ShortUnescape(text[1]);
      Some((c, text[2..]))
  }

  function ParseBody(text: string): Option<(string, string)>
    decreases |text|
  {
    if text != "" && text[0] == '\"' then Some(("", text[1..]))
    else
      var c :- UnescapeChar(text);
      var s :- ParseBody(c.1);
      Some(([c.0] + s.0, s.1))
  }

  function ParseString(text: string): Option<(string, string)> {
    if text != "" && text[0] == '\"' then ParseBody(text[1..]) else None
  }

  lemma ShortEscapeRoundTrip(c: char)
    ensures ShortEscape(c).Some? ==> ShortUnescape(ShortEscape(c).value) == Some(c) && ShortEscape(c).value != 'u'
  {
  }

  lemma HexRoundTrip(v: int)
    requires 0 <= v < 16
    ensures HexValue(HexDigit(v)) == Some(v)
  {
  }

  lemma EscapeRoundTrip(c: char, rest: string)
    ensures EscapeChar(c)[0] != '\"'
    ensures UnescapeChar(EscapeChar(c) + rest) == Some((c, rest))
  {
    var text := EscapeChar(c) + rest;
    ShortEscapeRoundTrip(c);
    if ShortEscape(c).Some? {
      assert text[2..] == rest;
    } else if c < ' ' {
      HexRoundTrip(c as int / 16);
      HexRoundTrip(c as int % 16);
      assert text[2..][4..] == rest;
    } else {
      assert c != '\\' && text[1..] == rest;
    }
  }

  lemma {:induction false} BodyRoundTrip(s: string, rest: string)
    ensures ParseBody(Escape(s) + "\"" + rest) == Some((s, rest))
  {
    var text := Escape(s) + "\"" + rest;
    if s == "" {
      assert text[1..] == rest;
    } else {
      var after := Escape(s[1..]) + "\"" + rest;
      assert text == EscapeChar(s[0]) + after;
      EscapeRoundTrip(s[0], after);
      BodyRoundTrip(s[1..], rest);
      assert s == [s[0]] + s[1..];
    }
  }

  lemma StringRoundTrip(s: string, rest: string)
    ensures ParseString(Quoted(s) + rest) == Some((s, rest))
  {
    assert (Quoted(s) + rest)[1..] == Escape(s) + "\"" + rest;
    BodyRoundTrip(s, rest);
  }

  /** Text that is written as it is. */
  predicate Plain(s: string) {
    forall i :: 0 <= i < |s| ==> ' ' <= s[i] < '\U{80}' && s[i] != '\"' && s[i] != '\\'
  }

  lemma {:induction false} PlainIsItself(s: string)
    requires Plain(s)
    ensures Escape(s) == s
  {
    if s != "" {
      assert s == [s[0]] + s[1..];
      PlainIsItself(s[1..]);
    }
  }

  lemma {:induction false} EscapeNeverShortens(s: string)
    ensures |Escape(s)| >= |s|
  {
    if s != "" {
      EscapeNeverShortens(s[1..]);
    }
  }

  // ---------------------------------------------------------------- the payload

  function KeyText(k: Key, rest: string): string {
    Decimal(k.rank) + ("," + (Decimal(k.editorial) + ("," + (Quoted(k.slug) + rest))))
  }

  function Json(c: Cursor): string {
    "{\"v\":" + (Decimal(c.v) + (",\"context\":" + (Quoted(c.context) + (",\"key\":[" + KeyText(c.key, "]}")))))
  }

  function Skip(text: string, word: string): Option<string> {
    if |word| <= |text| && text[..|word|] == word then Some(text[|word|..]) else None
  }

  function ParseJson(text: string): Option<Cursor> {
    var t0 :- Skip(text, "{\"v\":");
    var v :- ParseInt(t0);
    var t1 :- Skip(v.1, ",\"context\":");
    var context :- ParseString(t1);
    var t2 :- Skip(context.1, ",\"key\":[");
    var key :- ParseKey(t2);
    if key.1 == "]}" then Some(Cursor(v.0, context.0, key.0)) else None
  }

  function ParseKey(text: string): Option<(Key, string)> {
    var rank :- ParseInt(text);
    var t1 :- Skip(rank.1, ",");
    var editorial :- ParseInt(t1);
    var t2 :- Skip(editorial.1, ",");
    var slug :- ParseString(t2);
    Some((Key(rank.0, editorial.0, slug.0), slug.1))
  }

  lemma SkipRoundTrip(word: string, rest: string)
    ensures Skip(word + rest, word) == Some(rest)
  {
    assert (word + rest)[..|word|] == word && (word + rest)[|word|..] == rest;
  }

  lemma KeyRoundTrip(k: Key, rest: string)
    ensures ParseKey(KeyText(k, rest)) == Some((k, rest))
  {
    var t2 := Quoted(k.slug) + rest;
    var t1 := Decimal(k.editorial) + ("," + t2);
    IntRoundTrip(k.rank, "," + t1);
    SkipRoundTrip(",", t1);
    IntRoundTrip(k.editorial, "," + t2);
    SkipRoundTrip(",", t2);
    StringRoundTrip(k.slug, rest);
  }

  /** Whatever the context and slug contain, the text reads back as the same payload. */
  lemma JsonRoundTrip(c: Cursor)
    ensures ParseJson(Json(c)) == Some(c)
  {
    var keyText := KeyText(c.key, "]}");
    var t2 := ",\"key\":[" + keyText;
    var t1 := Quoted(c.context) + t2;
    var u1 := ",\"context\":" + t1;
    var t0 := Decimal(c.v) + u1;
    SkipRoundTrip("{\"v\":", t0);
    assert ParseInt(t0) == Some((c.v, u1)) by { IntRoundTrip(c.v, u1); }
    SkipRoundTrip(",\"context\":", t1);
    StringRoundTrip(c.context, t2);
    SkipRoundTrip(",\"key\":[", keyText);
    KeyRoundTrip(c.key, "]}");
  }

  // ---------------------------------------------------------------- the opaque form

  /** None where payload validation raises. */
  function Encode(context: string, key: Key): Option<string> {
    var c := Cursor(CURSOR_VERSION, context, key);
    if WellFormed(c) then Some(EncodeBase64Url(Utf8(Json(c)))) else None
  }

  /** None where the cursor is reported as invalid. */
  function Decode(cursor: string): Option<Cursor> {
    if cursor == "" || |cursor| > MAX_CURSOR_LENGTH then None
    else
      var bytes :- DecodeBase64Url(cursor);
      var text :- DecodeUtf8(bytes);
      var c :- ParseJson(text);
      if WellFormed(c) && c.v == CURSOR_VERSION then Some(c) else None
  }

  function PayloadBytes(context: string, key: Key): nat {
    |Utf8(Json(Cursor(CURSOR_VERSION, context, key)))|
  }

  /** The longest payload whose opaque form stays within `MAX_CURSOR_LENGTH`. */
  const MAX_PAYLOAD_BYTES := 384

  /** An issued cursor decodes to the payload it was made from exactly when that payload is at most 384 bytes. */
  lemma IssuedCursorDecodes(context: string, key: Key)
    requires Encode(context, key).Some?
    ensures Decode(Encode(context, key).value)
            == if PayloadBytes(context, key) <= MAX_PAYLOAD_BYTES then Some(Cursor(CURSOR_VERSION, context, key))
              else None
  {
    var c := Cursor(CURSOR_VERSION, context, key);
    Base64UrlRoundTrip(Utf8(Json(c)));
    Utf8RoundTrip(Json(c));
    JsonRoundTrip(c);
    Utf8Length(Json(c));
  }

  /** Nothing else is ever decoded: a short text, this version, and a position within the bounds of the payload. */
  lemma DecodedIsWithinBounds(cursor: string)
    ensures match Decode(cursor)
            case None => true
            case Some(c) =>
              && 1 <= |cursor| <= 512 && c.v == 2
              && -0x8000_0000 <= c.key.rank <= 0x7FFF_FFFF && 0 <= c.key.editorial <= 0x7FFF_FFFF
              && 1 <= |c.key.slug| <= 120
  {
  }

  /** A position within those bounds can always be encoded, and no other can. */
  lemma EncodesIff(context: string, key: Key)
    ensures Encode(context, key).Some? <==>
            && -0x8000_0000 <= key.rank <= 0x7FFF_FFFF && 0 <= key.editorial <= 0x7FFF_FFFF
            && 1 <= |key.slug| <= 120
  {
  }

  lemma DecimalLength(n: int)
    requires -INT_LIMIT <= n < INT_LIMIT
    ensures |Decimal(n)| <= if n < 0 then 11 else 10
  {
    assert Power10(10) == 10_000_000_000 by {
      assert Power10(5) == 100_000;
      assert Power10(10) == 100_000 * Power10(5);
    }
    DigitsLength(if n < 0 then -n else n, 10);
  }

  lemma JoinedSize(a: string, b: string)
    ensures |Utf8(a + b)| == |Utf8(a)| + |Utf8(b)|
    ensures Ascii(a) ==> |Utf8(a + b)| == |a| + |Utf8(b)|
  {
    Utf8Concat(a, b);
    Utf8Length(a);
  }

  lemma DecimalIsAscii(n: int)
    ensures Ascii(Decimal(n))
  {
    var m: nat := if n < 0 then -n else n;
    DigitsAreTheNumber(m);
    assert forall i :: 0 <= i < |Digits(m)| ==> IsDigit(Digits(m)[i]);
  }

  lemma QuotedSize(s: string, rest: string)
    ensures |Utf8(Quoted(s) + rest)| == 2 + |Utf8(Escape(s))| + |Utf8(rest)|
  {
    assert Quoted(s) + rest == "\"" + (Escape(s) + ("\"" + rest));
    JoinedSize("\"", Escape(s) + ("\"" + rest));
    JoinedSize(Escape(s), "\"" + rest);
    JoinedSize("\"", rest);
  }

  lemma KeyTextSize(k: Key, rest: string)
    ensures |Utf8(KeyText(k, rest))|
            == 4 + |Decimal(k.rank)| + |Decimal(k.editorial)| + |Utf8(Escape(k.slug))| + |Utf8(rest)|
  {
    var t2 := Quoted(k.slug) + rest;
    var t1 := Decimal(k.editorial) + ("," + t2);
    DecimalIsAscii(k.rank);
    DecimalIsAscii(k.editorial);
    JoinedSize(Decimal(k.rank), "," + t1);
    JoinedSize(",", t1);
    JoinedSize(Decimal(k.editorial), "," + t2);
    JoinedSize(",", t2);
    QuotedSize(k.slug, rest);
  }

  /** What a payload costs: only the escaped texts and the two ranks vary. */
  lemma PayloadSize(context: string, key: Key)
    ensures PayloadBytes(context, key)
            == 33 + |Utf8(Escape(context))| + |Decimal(key.rank)| + |Decimal(key.editorial)| + |Utf8(Escape(key.slug))|
  {
    var keyText := KeyText(key, "]}");
    var t2 := ",\"key\":[" + keyText;
    var t1 := Quoted(context) + t2;
    var u1 := ",\"context\":" + t1;
    assert Decimal(CURSOR_VERSION) == "2";
    JoinedSize("{\"v\":", "2" + u1);
    JoinedSize("2", u1);
    JoinedSize(",\"context\":", t1);
    QuotedSize(context, t2);
    JoinedSize(",\"key\":[", keyText);
    KeyTextSize(key, "]}");
    Utf8Length("]}");
  }

  /** Plain slugs always fit: at most 275 bytes when the context is at most 101 characters. */
  lemma PlainCursorFits(context: string, key: Key)
    requires Encode(context, key).Some?
    requires Plain(context) && |context| <= 101 && Plain(key.slug)
    ensures PayloadBytes(context, key) <= 275 && |Encode(context, key).value| <= 367
    ensures Decode(Encode(context, key).value) == Some(Cursor(CURSOR_VERSION, context, key))
  {
    PayloadSize(context, key);
    PlainIsItself(context);
    PlainIsItself(key.slug);
    Utf8Length(context);
    Utf8Length(key.slug);
    DecimalLength(key.rank);
    DecimalLength(key.editorial);
    Base64UrlRoundTrip(Utf8(Json(Cursor(CURSOR_VERSION, context, key))));
    IssuedCursorDecodes(context, key);
  }

  /** A slug of 120 characters of three bytes each never fits. */
  lemma WideSlugDoesNotFit(context: string, rank: int, editorial: int, wide: char)
    requires |context| >= 26
    requires 0x800 <= wide as int < 0x10000
    requires Encode(context, Key(rank, editorial, Repeat(wide, 120))).Some?
    ensures PayloadBytes(context, Key(rank, editorial, Repeat(wide, 120))) > MAX_PAYLOAD_BYTES
    ensures Decode(Encode(context, Key(rank, editorial, Repeat(wide, 120))).value).None?
  {
    var key := Key(rank, editorial, Repeat(wide, 120));
    PayloadSize(context, key);
    EscapeNeverShortens(context);
    Utf8Length(Escape(context));
    WideLength(wide, 120);
    IssuedCursorDecodes(context, key);
  }

  lemma {:induction false} WideLength(wide: char, n: nat)
    requires 0x800 <= wide as int < 0x10000
    ensures Escape(Repeat(wide, n)) == Repeat(wide, n)
    ensures |Utf8(Repeat(wide, n))| == 3 * n
  {
    if n > 0 {
      WideLength(wide, n - 1);
      assert Repeat(wide, n)[1..] == Repeat(wide, n - 1);
    }
  }
}
