/** Facet text order: comparing UTF-16 strings by code point, which is the byte order of their UTF-8 columns. */
module CompareTexts {
  import opened TextOrder
  import opened Utf8Text

  type unit = x: int | 0 <= x < 0x10000

  predicate High(u: unit) { 0xd800 <= u < 0xdc00 }

  predicate Low16(u: unit) { 0xdc00 <= u < 0xe000 }

  /** codePointAt: a surrogate pair is one point; a lone surrogate stands for itself. */
  function CodePointAt(s: seq<unit>, i: nat): (n: int)
    requires i < |s|
    ensures 0 <= n < 0x110000
    ensures n > 0xffff ==> i + 1 < |s| && High(s[i]) && Low16(s[i + 1])
  {
    if i + 1 < |s| && High(s[i]) && Low16(s[i + 1]) then
      0x10000 + ((s[i] as int) - 0xd800) * 0x400 + ((s[i + 1] as int) - 0xdc00)
    else s[i] as int
  }

  function Width(n: int): nat { if n > 0xffff then 2 else 1 }

  /** The comparison, point by point. */
  function Compared(a: seq<unit>, b: seq<unit>): int
    decreases |a|
  {
    if a == [] || b == [] then |a| - |b|
    else if CodePointAt(a, 0) != CodePointAt(b, 0) then CodePointAt(a, 0) - CodePointAt(b, 0)
    else Compared(a[Width(CodePointAt(a, 0))..], b[Width(CodePointAt(b, 0))..])
  }

  lemma PointOfSuffix(s: seq<unit>, i: nat)
    requires i < |s|
    ensures CodePointAt(s[i..], 0) == CodePointAt(s, i)
    ensures i + Width(CodePointAt(s, i)) <= |s|
    ensures s[i..][Width(CodePointAt(s, i))..] == s[i + Width(CodePointAt(s, i))..]
  {
  }

  method CompareText(a: seq<unit>, b: seq<unit>) returns (r: int)
    ensures r == Compared(a, b)
  {
    var i, j := 0, 0;
    assert a[0..] == a && b[0..] == b;
    while i < |a| && j < |b|
      invariant i == j && i <= |a| && j <= |b|
      invariant Compared(a, b) == Compared(a[i..], b[j..])
    {
      var ac, bc := CodePointAt(a, i), CodePointAt(b, j);
      PointOfSuffix(a, i);
      PointOfSuffix(b, j);
      if ac != bc { return ac - bc; }
      i, j := i + (if ac > 0xffff then 2 else 1), j + (if bc > 0xffff then 2 else 1);
    }
    r := |a| - |b|;
  }

  /** UTF-16 as JavaScript holds text. */
  function Units(c: char): seq<unit> {
    var n := c as int;
    if n < 0x10000 then [n] else [0xd800 + (n - 0x10000) / 0x400, 0xdc00 + (n - 0x10000) % 0x400]
  }

  function Utf16(s: string): seq<unit> {
    if s == [] then [] else Units(s[0]) + Utf16(s[1..])
  }

  lemma PointOfUnits(c: char, rest: seq<unit>)
    ensures CodePointAt(Units(c) + rest, 0) == c as int && |Units(c)| == Width(c as int)
    ensures (Units(c) + rest)[Width(c as int)..] == rest
  {
  }

  /** On text, the sign of the comparison is code point order. */
  lemma {:induction false} ComparedIsTextOrder(s: string, t: string)
    ensures Compared(Utf16(s), Utf16(t)) < 0 <==> Less(s, t)
    ensures Compared(Utf16(s), Utf16(t)) == 0 <==> s == t
  {
    if s != [] && t != [] {
      PointOfUnits(s[0], Utf16(s[1..]));
      PointOfUnits(t[0], Utf16(t[1..]));
      ComparedIsTextOrder(s[1..], t[1..]);
      assert s == [s[0]] + s[1..] && t == [t[0]] + t[1..];
    }
  }

  // ---- The byte order of UTF-8 ----

  /** memcmp, a proper prefix first: how SQLite's BINARY collation compares two text columns. */
  predicate BytesLess(a: seq<byte>, b: seq<byte>) {
    if b == [] then false
    else if a == [] then true
    else if a[0] != b[0] then a[0] < b[0]
    else BytesLess(a[1..], b[1..])
  }

  lemma {:induction false} FirstDifference(a: seq<byte>, b: seq<byte>, i: nat)
    requires i < |a| && i < |b| && a[..i] == b[..i] && a[i] < b[i]
    ensures BytesLess(a, b) && !BytesLess(b, a)
    decreases i
  {
    if i > 0 {
      assert a[0] == a[..i][0] && b[0] == b[..i][0];
      assert a[1..][..i - 1] == a[..i][1..] && b[1..][..i - 1] == b[..i][1..];
      FirstDifference(a[1..], b[1..], i - 1);
    }
  }

  lemma {:induction false} SameStart(e: seq<byte>, x: seq<byte>, y: seq<byte>)
    ensures BytesLess(e + x, e + y) <==> BytesLess(x, y)
  {
    if e == [] {
      assert e + x == x && e + y == y;
    } else {
      assert (e + x)[1..] == e[1..] + x && (e + y)[1..] == e[1..] + y;
      SameStart(e[1..], x, y);
    }
  }

  /** Where the encodings of two characters first differ. */
  function DifferAt(c: char, d: char): nat {
    var m, n := c as int, d as int;
    if |EncodeChar(c)| != |EncodeChar(d)| || |EncodeChar(c)| == 1 then 0
    else if |EncodeChar(c)| == 2 then if m / 64 != n / 64 then 0 else 1
    else if |EncodeChar(c)| == 3 then if m / 4096 != n / 4096 then 0 else if m / 64 != n / 64 then 1 else 2
    else if m / 262144 != n / 262144 then 0 else if m / 4096 != n / 4096 then 1 else if m / 64 != n / 64 then 2 else 3
  }

  ghost predicate DiffersAt(a: seq<byte>, b: seq<byte>, i: nat) {
    i < |a| && i < |b| && a[..i] == b[..i] && a[i] < b[i]
  }

  /** Two numbers in order, digit by digit. */
  lemma DigitsInOrder(m: nat, n: nat)
    requires m < n
    ensures m / 64 < n / 64 || (m / 64 == n / 64 && m % 64 < n % 64)
  {
  }

  lemma SizesInOrder(c: char, d: char)
    requires c < d && |EncodeChar(c)| != |EncodeChar(d)|
    ensures DiffersAt(EncodeChar(c), EncodeChar(d), 0)
  {
  }

  lemma PairsInOrder(c: char, d: char)
    requires c < d && |EncodeChar(c)| == |EncodeChar(d)| <= 2
    ensures DiffersAt(EncodeChar(c), EncodeChar(d), DifferAt(c, d))
  {
    DigitsInOrder(c as int, d as int);
  }

  lemma ThreeDigits(m: nat, n: nat)
    requires m < n
    ensures m / 4096 != n / 4096 ==> m / 4096 < n / 4096
    ensures m / 4096 == n / 4096 && m / 64 != n / 64 ==> m / 64 % 64 < n / 64 % 64
    ensures m / 64 == n / 64 ==> m / 4096 == n / 4096 && m % 64 < n % 64
  {
    assert m / 4096 == m / 64 / 64 && n / 4096 == n / 64 / 64;
    DigitsInOrder(m, n);
    if m / 64 < n / 64 { DigitsInOrder(m / 64, n / 64); }
  }

  lemma FourDigits(m: nat, n: nat)
    requires m < n
    ensures m / 262144 != n / 262144 ==> m / 262144 < n / 262144
    ensures m / 262144 == n / 262144 && m / 4096 != n / 4096 ==> m / 4096 % 64 < n / 4096 % 64
    ensures m / 4096 == n / 4096 ==> m / 262144 == n / 262144
  {
    assert m / 262144 == m / 4096 / 64 && n / 262144 == n / 4096 / 64;
    if m / 4096 < n / 4096 { DigitsInOrder(m / 4096, n / 4096); }
  }

  lemma TriplesInOrder(c: char, d: char)
    requires c < d && |EncodeChar(c)| == |EncodeChar(d)| == 3
    ensures DiffersAt(EncodeChar(c), EncodeChar(d), DifferAt(c, d))
  {
    var m, n := c as int, d as int;
    ThreeDigits(m, n);
    assert EncodeChar(c) == [0xE0 + m / 4096, 0x80 + m / 64 % 64, 0x80 + m % 64];
    assert EncodeChar(d) == [0xE0 + n / 4096, 0x80 + n / 64 % 64, 0x80 + n % 64];
  }

  lemma QuadsInOrder(c: char, d: char)
    requires c < d && |EncodeChar(c)| == |EncodeChar(d)| == 4
    ensures DiffersAt(EncodeChar(c), EncodeChar(d), DifferAt(c, d))
  {
    var m, n := c as int, d as int;
    ThreeDigits(m, n);
    FourDigits(m, n);
    var a: seq<byte> := [0xF0 + m / 262144, 0x80 + m / 4096 % 64, 0x80 + m / 64 % 64, 0x80 + m % 64];
    var b: seq<byte> := [0xF0 + n / 262144, 0x80 + n / 4096 % 64, 0x80 + n / 64 % 64, 0x80 + n % 64];
    assert EncodeChar(c) == a && EncodeChar(d) == b;
  }

  lemma EncodingsDiffer(c: char, d: char)
    requires c < d
    ensures DiffersAt(EncodeChar(c), EncodeChar(d), DifferAt(c, d))
  {
    var k := |EncodeChar(c)|;
    if k != |EncodeChar(d)| {
      SizesInOrder(c, d);
    } else if k <= 2 {
      PairsInOrder(c, d);
    } else if k == 3 {
      TriplesInOrder(c, d);
    } else {
      QuadsInOrder(c, d);
    }
  }

  lemma CharsInOrder(c: char, d: char, x: seq<byte>, y: seq<byte>)
    requires c < d
    ensures BytesLess(EncodeChar(c) + x, EncodeChar(d) + y) && !BytesLess(EncodeChar(d) + y, EncodeChar(c) + x)
  {
    var i, a, b := DifferAt(c, d), EncodeChar(c), EncodeChar(d);
    EncodingsDiffer(c, d);
    assert (a + x)[..i] == a[..i] && (b + y)[..i] == b[..i];
    FirstDifference(a + x, b + y, i);
  }

  /** Code point order is the byte order of UTF-8, so every shard sorts its text columns the way the hub compares them.
      */
  lemma {:induction false} TextOrderIsByteOrder(s: string, t: string)
    ensures Less(s, t) <==> BytesLess(Utf8(s), Utf8(t))
  {
    if s != [] && t != [] {
      if s[0] < t[0] {
        CharsInOrder(s[0], t[0], Utf8(s[1..]), Utf8(t[1..]));
      } else if t[0] < s[0] {
        CharsInOrder(t[0], s[0], Utf8(t[1..]), Utf8(s[1..]));
      } else {
        SameStart(EncodeChar(s[0]), Utf8(s[1..]), Utf8(t[1..]));
        TextOrderIsByteOrder(s[1..], t[1..]);
      }
    }
  }

  /** compareText orders exactly as BINARY collation does. */
  lemma CompareTextIsBinaryOrder(s: string, t: string)
    ensures Compared(Utf16(s), Utf16(t)) < 0 <==> BytesLess(Utf8(s), Utf8(t))
    ensures Compared(Utf16(s), Utf16(t)) == 0 <==> Utf8(s) == Utf8(t)
  {
    ComparedIsTextOrder(s, t);
    TextOrderIsByteOrder(s, t);
    DecodeEncoded(s);
    DecodeEncoded(t);
  }
}
