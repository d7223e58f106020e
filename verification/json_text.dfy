/** The text json.dumps writes with its default settings: ASCII only, ", " and ": " as separators. */
module JsonText {
  import opened Utf8Text

  function Digit(n: nat): char
    requires n < 16
  {
    (if n < 10 then '0' as int + n else 'a' as int + n - 10) as char
  }

  function UnicodeEscape(n: nat): string
    requires n < 0x10000
  {
    ['\\', 'u', Digit(n / 0x1000), Digit(n / 0x100 % 16), Digit(n / 16 % 16), Digit(n % 16)]
  }

  /** A character beyond the 16-bit range is written as its two surrogates. */
  function SurrogateEscape(n: nat): string
    requires 0x10000 <= n < 0x110000
  {
    UnicodeEscape(0xd800 + (n - 0x10000) / 0x400) + UnicodeEscape(0xdc00 + (n - 0x10000) % 0x400)
  }

  predicate Short(n: int) { n == 34 || n == 92 || n == 10 || n == 13 || n == 9 || n == 12 || n == 8 }

  function ShortEscape(n: int): char
    requires Short(n)
  {
    if n == 10 then 'n' else if n == 13 then 'r' else if n == 9 then 't' else if n == 12 then 'f'
    else if n == 8 then 'b'
    else n as char
  }

  function EscapeChar(c: char): string {
    var n := c as int;
    if Short(n) then ['\\', ShortEscape(n)]
    else if 32 <= n <= 126 then [c]
    else if n < 0x10000 then UnicodeEscape(n)
    else SurrogateEscape(n)
  }

  function Escape(s: string): string {
    if s == [] then [] else EscapeChar(s[0]) + Escape(s[1..])
  }

  function Quote(s: string): string { ['"'] + Escape(s) + ['"'] }

  function Digits(n: nat): string {
    if n < 10 then [Digit(n)] else Digits(n / 10) + [Digit(n % 10)]
  }

  function Decimal(n: int): string {
    if n < 0 then ['-'] + Digits(-n) else Digits(n)
  }

  predicate Ascii(s: string) {
    forall i | 0 <= i < |s| :: s[i] as int < 128
  }

  lemma AsciiJoin(a: string, b: string)
    requires Ascii(a) && Ascii(b)
    ensures Ascii(a + b)
  {
  }

  lemma EscapeCharIsAscii(c: char)
    ensures Ascii(EscapeChar(c))
  {
    var n := c as int;
    if n >= 0x10000 {
      SurrogatesFit(n);
    }
  }

  lemma SurrogatesFit(n: nat)
    requires 0x10000 <= n < 0x110000
    ensures Ascii(SurrogateEscape(n))
  {
    var a, b := UnicodeEscape(0xd800 + (n - 0x10000) / 0x400), UnicodeEscape(0xdc00 + (n - 0x10000) % 0x400);
    assert Ascii(a) && Ascii(b);
    forall i | 0 <= i < |a + b| ensures (a + b)[i] as int < 128 {}
  }

  /** Escaped text is ASCII, so its encoded length in bytes is its length in characters. */
  lemma {:induction false} EscapeIsAscii(s: string)
    ensures Ascii(Escape(s))
  {
    if s != [] {
      EscapeCharIsAscii(s[0]);
      EscapeIsAscii(s[1..]);
    }
  }

  lemma QuoteIsAscii(s: string)
    ensures Ascii(Quote(s))
  {
    EscapeIsAscii(s);
  }

  /** ASCII text takes one byte a character. */
  lemma {:induction false} AsciiBytes(s: string)
    requires Ascii(s)
    ensures |Utf8(s)| == |s|
  {
    if s != [] {
      assert Ascii(s[1..]);
      AsciiBytes(s[1..]);
      assert s[0] as int < 128;
    }
  }

  lemma {:induction false} DigitsAreAscii(n: nat)
    ensures Ascii(Digits(n))
  {
    if n >= 10 { DigitsAreAscii(n / 10); }
  }

  lemma DecimalIsAscii(n: int)
    ensures Ascii(Decimal(n))
  {
    DigitsAreAscii(if n < 0 then -n else n);
  }

  lemma {:induction false} DigitsGrow(a: nat, b: nat)
    requires a <= b
    ensures |Digits(a)| <= |Digits(b)|
  {
    if a >= 10 { DigitsGrow(a / 10, b / 10); }
  }

  /** Reserving room for the negative of a bound leaves room for every number within the bound. */
  lemma ReservedDecimal(n: int, bound: int)
    requires -bound <= n <= bound
    ensures |Decimal(n)| <= |Decimal(-bound)|
  {
    DigitsGrow(if n < 0 then -n else n, bound);
  }
}
