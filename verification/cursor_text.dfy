/** The opaque paging cursor: two strings as JSON, as UTF-8, as base64, and back. */
module CursorText {
  import opened Wrappers
  import opened Utf8Text
  import opened JsonReader
  import opened JsonText

  datatype Key = Key(startedAt: string, sessionId: string)

  // ---- Base64 ----

  type sextet = x: int | 0 <= x < 64

  /** The six-bit digits of some bytes; a last one or two bytes give two or three digits. */
  function Sextets(bs: seq<byte>): seq<sextet> {
    if |bs| == 0 then []
    else if |bs| == 1 then [bs[0] / 4, bs[0] % 4 * 16]
    else if |bs| == 2 then [bs[0] / 4, bs[0] % 4 * 16 + bs[1] / 16, bs[1] % 16 * 4]
    else [bs[0] / 4, bs[0] % 4 * 16 + bs[1] / 16, bs[1] % 16 * 4 + bs[2] / 64, bs[2] % 64] + Sextets(bs[3..])
  }

  function Byte1(a: sextet, b: sextet): byte { (a as int) * 4 + (b as int) / 16 }

  function Byte2(a: sextet, b: sextet): byte { (a as int) % 16 * 16 + (b as int) / 4 }

  function Byte3(a: sextet, b: sextet): byte { (a as int) % 4 * 64 + b as int }

  /** The bytes of some digits; bits left over are dropped, as is a single last digit. */
  function Bytes(v: seq<sextet>): seq<byte> {
    if |v| < 2 then []
    else if |v| == 2 then [Byte1(v[0], v[1])]
    else if |v| == 3 then [Byte1(v[0], v[1]), Byte2(v[1], v[2])]
    else [Byte1(v[0], v[1]), Byte2(v[1], v[2]), Byte3(v[2], v[3])] + Bytes(v[4..])
  }

  lemma FirstByte(x: byte, low: int)
    requires 0 <= low < 16
    ensures Byte1(x / 4, x % 4 * 16 + low) == x
  {
  }

  lemma SecondByte(y: byte, high: int, low: int)
    requires 0 <= high < 4 && 0 <= low < 4
    ensures Byte2(high * 16 + y / 16, y % 16 * 4 + low) == y
  {
  }

  lemma ThirdByte(z: byte, high: int)
    requires 0 <= high < 16
    ensures Byte3(high * 4 + z / 64, z % 64) == z
  {
  }

  lemma BytesCons(a: sextet, b: sextet, c: sextet, d: sextet, rest: seq<sextet>)
    ensures Bytes([a, b, c, d] + rest) == [Byte1(a, b), Byte2(b, c), Byte3(c, d)] + Bytes(rest)
  {
    assert ([a, b, c, d] + rest)[4..] == rest;
  }

  lemma OneByte(x: byte)
    ensures Bytes([x / 4, x % 4 * 16]) == [x]
  {
    FirstByte(x, 0);
  }

  lemma TwoBytes(x: byte, y: byte)
    ensures Bytes([x / 4, x % 4 * 16 + y / 16, y % 16 * 4]) == [x, y]
  {
    FirstByte(x, y / 16);
    SecondByte(y, x % 4, 0);
  }

  lemma ThreeBytes(x: byte, y: byte, z: byte, rest: seq<sextet>)
    ensures Bytes([x / 4, x % 4 * 16 + y / 16, y % 16 * 4 + z / 64, z % 64] + rest) == [x, y, z] + Bytes(rest)
  {
    BytesCons(x / 4, x % 4 * 16 + y / 16, y % 16 * 4 + z / 64, z % 64, rest);
    FirstByte(x, y / 16);
    SecondByte(y, x % 4, z / 64);
    ThirdByte(z, y % 16);
  }

  lemma {:induction false} BytesOfSextets(bs: seq<byte>)
    ensures Bytes(Sextets(bs)) == bs
  {
    if |bs| == 0 {
    } else if |bs| == 1 {
      OneByte(bs[0]);
    } else if |bs| == 2 {
      TwoBytes(bs[0], bs[1]);
    } else {
      ThreeBytes(bs[0], bs[1], bs[2], Sextets(bs[3..]));
      BytesOfSextets(bs[3..]);
      assert bs == [bs[0], bs[1], bs[2]] + bs[3..];
    }
  }

  /** No group of letters holds a single one. */
  lemma {:induction false} SextetGroups(bs: seq<byte>)
    ensures |Sextets(bs)| % 4 != 1
  {
    if |bs| >= 3 { SextetGroups(bs[3..]); }
  }

  function Letter(v: sextet): char {
    if v < 26 then ('A' as int + v) as char
    else if v < 52 then ('a' as int + v - 26) as char
    else if v < 62 then ('0' as int + v - 52) as char
    else if v == 62 then '+' else '/'
  }

  function LetterValue(c: char): Option<sextet> {
    if 'A' <= c <= 'Z' then Some(c as int - 'A' as int)
    else if 'a' <= c <= 'z' then Some(c as int - 'a' as int + 26)
    else if '0' <= c <= '9' then Some(c as int - '0' as int + 52)
    else if c == '+' then Some(62) else if c == '/' then Some(63) else None
  }

  function Letters(v: seq<sextet>): string {
    if v == [] then [] else [Letter(v[0])] + Letters(v[1..])
  }

  function LetterValues(t: string): Option<seq<sextet>> {
    if t == [] then Some([])
    else
      var rest := LetterValues(t[1..]);
      if LetterValue(t[0]).None? || rest.None? then None else Some([LetterValue(t[0]).value] + rest.value)
  }

  function Padding(n: nat): string {
    if n % 4 == 2 then ['=', '='] else if n % 4 == 3 then ['='] else []
  }

  function Btoa(bs: seq<byte>): string { Letters(Sextets(bs)) + Padding(|Sextets(bs)|) }

  predicate Space(c: char) { c as int == 9 || c as int == 10 || c as int == 12 || c as int == 13 || c as int == 32 }

  function WithoutSpaces(t: string): string {
    if t == [] then [] else (if Space(t[0]) then [] else [t[0]]) + WithoutSpaces(t[1..])
  }

  /** Up to two closing padding signs, when the length is a multiple of four. */
  function WithoutPadding(t: string): string {
    if |t| % 4 != 0 || t == [] || t[|t| - 1] != '=' then t
    else if t[|t| - 2] != '=' then t[..|t| - 1] else t[..|t| - 2]
  }

  function Atob(t: string): Option<seq<byte>> {
    var s := WithoutPadding(WithoutSpaces(t));
    var v := LetterValues(s);
    if |s| % 4 == 1 || v.None? then None else Some(Bytes(v.value))
  }

  /** A letter outside the alphabet makes the text no Base64. */
  lemma {:induction false} StrangeLetterRejected(t: string, i: nat)
    requires i < |t| && t[i] !in {'+', '/'}
    requires !('A' <= t[i] <= 'Z') && !('a' <= t[i] <= 'z') && !('0' <= t[i] <= '9')
    ensures LetterValues(t) == None
  {
    if i > 0 { StrangeLetterRejected(t[1..], i - 1); }
  }

  lemma {:induction false} SpaceSkipped(a: string, space: char, b: string)
    requires Space(space)
    ensures WithoutSpaces(a + ([space] + b)) == WithoutSpaces(a + b)
  {
    if a == [] {
      assert a + ([space] + b) == [space] + b && a + b == b;
    } else {
      SpaceSkipped(a[1..], space, b);
      assert (a + ([space] + b))[1..] == a[1..] + ([space] + b) && (a + b)[1..] == a[1..] + b;
    }
  }

  /** Blanks and line breaks anywhere in the letters are ignored. */
  lemma SpacesIgnored(a: string, space: char, b: string)
    requires space in {' ', '\t', '\n', '\r', 12 as char}
    ensures Atob(a + ([space] + b)) == Atob(a + b)
  {
    SpaceSkipped(a, space, b);
  }

  predicate Spaceless(t: string) { forall i | 0 <= i < |t| :: !Space(t[i]) }

  lemma {:induction false} NothingToSkip(t: string)
    requires Spaceless(t)
    ensures WithoutSpaces(t) == t
  {
    if t != [] {
      NothingToSkip(t[1..]);
      assert t == [t[0]] + t[1..];
    }
  }

  lemma LetterIsPlain(v: sextet)
    ensures LetterValue(Letter(v)) == Some(v) && !Space(Letter(v)) && Letter(v) != '='
  {
  }

  lemma {:induction false} ValuesOfLetters(v: seq<sextet>)
    ensures LetterValues(Letters(v)) == Some(v) && |Letters(v)| == |v|
    ensures Spaceless(Letters(v)) && (v != [] ==> Letters(v)[|v| - 1] != '=')
  {
    if v != [] {
      LetterIsPlain(v[0]);
      ValuesOfLetters(v[1..]);
      assert Letters(v)[1..] == Letters(v[1..]);
      assert v == [v[0]] + v[1..];
    }
  }

  lemma OnePadStripped(t: string)
    requires |t| % 4 == 3 && t[|t| - 1] != '='
    ensures WithoutPadding(t + ['=']) == t
  {
    var whole := t + ['='];
    assert |whole| % 4 == 0 && whole[|whole| - 1] == '=';
    assert whole[|whole| - 2] == t[|t| - 1];
    assert whole[..|t|] == t;
  }

  lemma TwoPadsStripped(t: string)
    requires |t| % 4 == 2
    ensures WithoutPadding(t + ['=', '=']) == t
  {
    var whole := t + ['=', '='];
    assert whole[..|t|] == t;
  }

  lemma PaddingStripped(t: string)
    requires |t| % 4 != 1 && (t != [] ==> t[|t| - 1] != '=')
    ensures WithoutPadding(t + Padding(|t|)) == t
  {
    if |t| % 4 == 0 {
      assert t + Padding(|t|) == t;
    } else if |t| % 4 == 3 {
      OnePadStripped(t);
    } else {
      TwoPadsStripped(t);
    }
  }

  lemma PaddedUnwrapped(t: string)
    requires |t| % 4 != 1 && Spaceless(t) && (t != [] ==> t[|t| - 1] != '=')
    ensures WithoutPadding(WithoutSpaces(t + Padding(|t|))) == t
  {
    assert Spaceless(Padding(|t|));
    NothingToSkip(t + Padding(|t|));
    PaddingStripped(t);
  }

  lemma AtobOfPadded(v: seq<sextet>)
    requires |v| % 4 != 1
    ensures Atob(Letters(v) + Padding(|v|)) == Some(Bytes(v))
  {
    ValuesOfLetters(v);
    PaddedUnwrapped(Letters(v));
  }

  lemma AtobOfBtoa(bs: seq<byte>)
    ensures Atob(Btoa(bs)) == Some(bs)
  {
    BytesOfSextets(bs);
    SextetGroups(bs);
    AtobOfPadded(Sextets(bs));
  }

  lemma {:induction false} SextetCount(bs: seq<byte>)
    ensures |Sextets(bs)| == 4 * (|bs| / 3) + if |bs| % 3 == 0 then 0 else |bs| % 3 + 1
  {
    if |bs| >= 3 { SextetCount(bs[3..]); }
  }

  lemma PaddingFills(n: nat, q: nat, r: nat)
    requires r < 3 && n == 4 * q + if r == 0 then 0 else r + 1
    ensures Padding(n) == if r == 1 then "==" else if r == 2 then "=" else ""
  {
    assert n % 4 == if r == 0 then 0 else r + 1;
  }

  /** Base64 is padded to whole groups of four letters, one for every three bytes. */
  lemma BtoaIsPadded(bs: seq<byte>)
    ensures |bs| % 3 == 0 ==> |Btoa(bs)| == 4 * (|bs| / 3)
    ensures |bs| % 3 != 0 ==> |Btoa(bs)| == 4 * (|bs| / 3) + 4
    ensures |bs| % 3 == 1 ==> Btoa(bs)[|Btoa(bs)| - 2..] == "=="
    ensures |bs| % 3 == 2 ==> Btoa(bs)[|Btoa(bs)| - 1..] == "="
  {
    var n := |Sextets(bs)|;
    SextetCount(bs);
    PaddingFills(n, |bs| / 3, |bs| % 3);
    ValuesOfLetters(Sextets(bs));
    assert Btoa(bs) == Letters(Sextets(bs)) + Padding(n);
  }

  lemma BtoaIsNotEmpty(bs: seq<byte>)
    requires bs != []
    ensures Btoa(bs) != ""
  {
    assert Sextets(bs) != [];
  }

  // ---- JSON strings ----

  /** JSON.stringify escapes quotes, backslashes and control characters; all else stands for itself. */
  function EscapeJs(c: char): string {
    var n := c as int;
    if Short(n) then ['\\', ShortEscape(n)] else if n < 32 then UnicodeEscape(n) else [c]
  }

  /** JSON.stringify by example: only quotes, backslashes and what is below the blank are escaped. */
  lemma JsEscapes()
    ensures EscapeJs('"') == "\\\"" && EscapeJs('\\') == "\\\\"
    ensures EscapeJs('\n') == "\\n" && EscapeJs(8 as char) == "\\b"
    ensures EscapeJs(31 as char) == "\\u001f" && EscapeJs(' ') == " " && EscapeJs(127 as char) == [127 as char]
  {
  }

  function EscapeAll(s: string): string {
    if s == [] then [] else EscapeJs(s[0]) + EscapeAll(s[1..])
  }

  function Stringify(k: Key): string {
    ['[', '"'] + EscapeAll(k.startedAt) + ['"', ',', '"'] + EscapeAll(k.sessionId) + ['"', ']']
  }

  /** An array of exactly two strings; any other text is no cursor. */
  function ParsePair(t: string): Option<Key> {
    var first := ReadQuoted(t, '[');
    var second := if first.None? then None else ReadQuoted(first.value.1, ',');
    var end := if second.None? then None else After(second.value.1, ']');
    if end.None? || SkipSpaces(end.value) != [] then None else Some(Key(first.value.0, second.value.0))
  }

  lemma ReadEscapedChar(c: char, rest: string)
    ensures EscapeJs(c)[0] != '"' && ReadChar(EscapeJs(c) + rest) == Some((c, |EscapeJs(c)|))
  {
    var n, t := c as int, EscapeJs(c) + rest;
    if !Short(n) && n < 32 {
      assert t[2] == '0' && t[3] == '0' && t[4] == Digit(n / 16) && t[5] == Digit(n % 16);
      assert HexValue(t[4]) == Some(n / 16) && HexValue(t[5]) == Some(n % 16);
    }
  }

  /** Reading a quoted string gives it back, and stops at its quote. */
  lemma {:induction false} ReadEscaped(s: string, rest: string)
    ensures ReadString(EscapeAll(s) + ['"'] + rest) == Some((s, rest))
  {
    var t := EscapeAll(s) + ['"'] + rest;
    if s == [] {
      assert t == ['"'] + rest;
    } else {
      var e, more := EscapeJs(s[0]), EscapeAll(s[1..]) + ['"'] + rest;
      assert t == e + more;
      ReadEscapedChar(s[0], more);
      assert t[|e|..] == more;
      ReadEscaped(s[1..], rest);
      assert s == [s[0]] + s[1..];
    }
  }

  function Quoted(sign: char, s: string, rest: string): string { [sign] + (['"'] + (EscapeAll(s) + ['"'] + rest)) }

  lemma ReadQuotedBack(sign: char, s: string, rest: string)
    requires !JsonSpace(sign)
    ensures ReadQuoted(Quoted(sign, s, rest), sign) == Some((s, rest))
  {
    AfterSign(sign, ['"'] + (EscapeAll(s) + ['"'] + rest));
    AfterSign('"', EscapeAll(s) + ['"'] + rest);
    ReadEscaped(s, rest);
  }

  lemma StringifyIsQuoted(k: Key)
    ensures Stringify(k) == Quoted('[', k.startedAt, Quoted(',', k.sessionId, [']']))
  {
  }

  lemma ParseStringified(k: Key)
    ensures ParsePair(Stringify(k)) == Some(k)
  {
    StringifyIsQuoted(k);
    ReadQuotedBack('[', k.startedAt, Quoted(',', k.sessionId, [']']));
    ReadQuotedBack(',', k.sessionId, [']']);
    assert SkipSpaces([']']) == [']'] && [']'][1..] == [];
  }

  // ---- The cursor ----

  function EncodeCursor(k: Key): string { Btoa(Utf8(Stringify(k))) }

  function KeyOfBytes(bytes: seq<byte>): Option<Key> {
    var text := DecodeUtf8(bytes);
    if text.None? then None else ParsePair(StripBom(text.value))
  }

  /** No cursor, or one that is not ours: the first page. */
  function DecodeCursor(cursor: Option<string>): Option<Key> {
    if cursor.None? || cursor.value == "" || Atob(cursor.value).None? then None
    else KeyOfBytes(Atob(cursor.value).value)
  }

  lemma KeyOfText(text: string, k: Key)
    requires text != [] && text[0] != BOM && ParsePair(text) == Some(k)
    ensures KeyOfBytes(Utf8(text)) == Some(k) && Utf8(text) != []
  {
    DecodeEncoded(text);
  }

  /** Every key survives the trip through its cursor, whatever characters its session id has. */
  lemma CursorRoundTrip(k: Key)
    ensures DecodeCursor(Some(EncodeCursor(k))) == Some(k)
  {
    ParseStringified(k);
    KeyOfText(Stringify(k), k);
    AtobOfBtoa(Utf8(Stringify(k)));
    BtoaIsNotEmpty(Utf8(Stringify(k)));
  }
}
