/** UTF-8 as TextEncoder writes it and TextDecoder reads it. */
module Utf8Text {
  import opened Wrappers

  type byte = x: int | 0 <= x < 256

  function EncodeChar(c: char): seq<byte> {
    var n := c as int;
    if n < 0x80 then [n]
    else if n < 0x800 then [0xC0 + n / 64, 0x80 + n % 64]
    else if n < 0x10000 then [0xE0 + n / 4096, 0x80 + n / 64 % 64, 0x80 + n % 64]
    else [0xF0 + n / 262144, 0x80 + n / 4096 % 64, 0x80 + n / 64 % 64, 0x80 + n % 64]
  }

  function Utf8(s: string): seq<byte> {
    if s == [] then [] else EncodeChar(s[0]) + Utf8(s[1..])
  }

  predicate Continuation(b: byte) { 0x80 <= b < 0xC0 }

  predicate ScalarValue(n: int) { 0 <= n < 0xD800 || 0xE000 <= n < 0x110000 }

  /** The character at the start of the bytes, and how many bytes it takes. */
  function DecodeChar(bs: seq<byte>): Option<(char, nat)>
    requires bs != []
  {
    var b: int := bs[0];
    if b < 0x80 then Some((b as char, 1))
    else if b < 0xC2 then None
    else if b < 0xE0 then if Tail(bs, 2) then Scalar((b - 0xC0) * 64 + Low(bs, 1), 0x80, 2) else None
    else if b < 0xF0 then
      if Tail(bs, 3) then Scalar((b - 0xE0) * 4096 + Low(bs, 1) * 64 + Low(bs, 2), 0x800, 3) else None
    else if b < 0xF5 then
      if Tail(bs, 4) then
        Scalar((b - 0xF0) * 262144 + Low(bs, 1) * 4096 + Low(bs, 2) * 64 + Low(bs, 3), 0x10000, 4)
      else None
    else None
  }

  /** The low six bits of a continuation byte. */
  function Low(bs: seq<byte>, i: nat): int
    requires i < |bs|
  {
    (bs[i] as int) - 0x80
  }

  predicate Tail(bs: seq<byte>, n: nat) {
    n <= |bs| && forall i | 1 <= i < n :: Continuation(bs[i])
  }

  /** Overlong forms and surrogates are no characters. */
  function Scalar(n: int, least: int, size: nat): Option<(char, nat)> {
    if n >= least && ScalarValue(n) then Some((n as char, size)) else None
  }

  lemma DecodeEncodedChar(c: char, rest: seq<byte>)
    ensures DecodeChar(EncodeChar(c) + rest) == Some((c, |EncodeChar(c)|))
  {
    var n := c as int;
    var bs := EncodeChar(c) + rest;
    if n < 0x80 {
    } else if n < 0x800 {
      assert Tail(bs, 2);
    } else if n < 0x10000 {
      assert Tail(bs, 3);
      Digits3(n);
    } else {
      assert Tail(bs, 4);
      Digits4(n);
    }
  }

  lemma Digits3(n: int)
    ensures n / 4096 * 4096 + n / 64 % 64 * 64 + n % 64 == n
  {
    assert n / 4096 == n / 64 / 64;
  }

  lemma Digits4(n: int)
    ensures n / 262144 * 262144 + n / 4096 % 64 * 4096 + n / 64 % 64 * 64 + n % 64 == n
  {
    Digits3(n);
    assert n / 262144 == n / 4096 / 64;
  }

  function DecodeUtf8(bs: seq<byte>): Option<string>
    decreases |bs|
  {
    if bs == [] then Some([])
    else
      var first := DecodeChar(bs);
      if first.None? || first.value.1 == 0 || first.value.1 > |bs| then None
      else
        var rest := DecodeUtf8(bs[first.value.1..]);
        if rest.None? then None else Some([first.value.0] + rest.value)
  }

  lemma {:induction false} Utf8Concat(a: string, b: string)
    ensures Utf8(a + b) == Utf8(a) + Utf8(b)
  {
    if a == [] {
      assert a + b == b;
    } else {
      assert (a + b)[1..] == a[1..] + b;
      Utf8Concat(a[1..], b);
    }
  }

  /** Decoding gives the text back. */
  lemma {:induction false} DecodeEncoded(s: string)
    ensures DecodeUtf8(Utf8(s)) == Some(s)
  {
    if s != [] {
      DecodeEncodedChar(s[0], Utf8(s[1..]));
      DecodeEncoded(s[1..]);
      assert Utf8(s)[|EncodeChar(s[0])|..] == Utf8(s[1..]);
      assert s == [s[0]] + s[1..];
    }
  }

  // ---- Truncation ----

  const BOM: char := 0xFEFF as char

  /** How many whole characters fit. */
  function FitLen(s: string, maxBytes: nat): (k: nat)
    ensures k <= |s|
  {
    if s == [] || |EncodeChar(s[0])| > maxBytes then 0 else 1 + FitLen(s[1..], maxBytes - |EncodeChar(s[0])|)
  }

  /** The longest prefix whose encoding fits. */
  lemma {:induction false} FitLenIsLongest(s: string, maxBytes: nat, k: nat)
    requires k <= |s|
    ensures k <= FitLen(s, maxBytes) <==> |Utf8(s[..k])| <= maxBytes
  {
    if k > 0 {
      assert s[..k][1..] == s[1..][..k - 1] && s[..k][0] == s[0];
      if |EncodeChar(s[0])| <= maxBytes {
        FitLenIsLongest(s[1..], maxBytes - |EncodeChar(s[0])|, k - 1);
      }
    }
  }

  lemma CharBytes(c: char)
    ensures !Continuation(EncodeChar(c)[0])
    ensures forall i | 1 <= i < |EncodeChar(c)| :: Continuation(EncodeChar(c)[i])
  {
  }

  /** The bytes around the cut: the next character starts where the fitting prefix ends and runs past the limit. */
  lemma AroundCut(s: string, maxBytes: nat)
    requires |Utf8(s)| > maxBytes
    ensures var k := FitLen(s, maxBytes); var start := |Utf8(s[..k])|;
            && k < |s| && start <= maxBytes < start + |EncodeChar(s[k])| <= |Utf8(s)|
            && Utf8(s)[..start] == Utf8(s[..k])
            && !Continuation(Utf8(s)[start])
            && forall i | start < i < start + |EncodeChar(s[k])| :: Continuation(Utf8(s)[i])
  {
    var k := FitLen(s, maxBytes);
    FitLenIsLongest(s, maxBytes, k);
    FitLenIsLongest(s, maxBytes, |s|);
    assert s[..|s|] == s;
    FitLenIsLongest(s, maxBytes, k + 1);
    CutBytes(s, k);
  }

  lemma CutBytes(s: string, k: nat)
    requires k < |s|
    ensures var start := |Utf8(s[..k])|;
            && |Utf8(s[..k + 1])| == start + |EncodeChar(s[k])| <= |Utf8(s)|
            && Utf8(s)[..start] == Utf8(s[..k])
            && !Continuation(Utf8(s)[start])
            && forall i | start < i < start + |EncodeChar(s[k])| :: Continuation(Utf8(s)[i])
  {
    var a, c, b := Utf8(s[..k]), EncodeChar(s[k]), Utf8(s[k + 1..]);
    assert s == s[..k] + s[k..] && s[k..][1..] == s[k + 1..];
    Utf8Concat(s[..k], s[k..]);
    assert s[..k + 1] == s[..k] + [s[k]];
    Utf8Concat(s[..k], [s[k]]);
    assert Utf8([s[k]]) == c + Utf8([]);
    CharBytes(s[k]);
    assert Utf8(s) == a + (c + b);
    assert Utf8(s)[|a|] == c[0];
    forall i | |a| < i < |a| + |c| ensures Continuation(Utf8(s)[i]) {
      assert Utf8(s)[i] == c[i - |a|];
    }
  }

  /** TextDecoder drops a leading byte order mark. */
  function StripBom(s: string): string {
    if s != [] && s[0] == BOM then s[1..] else s
  }

  /** What the truncation returns. */
  function Truncated(s: string, maxBytes: nat): string {
    if |Utf8(s)| <= maxBytes then s else StripBom(s[..FitLen(s, maxBytes)])
  }

  method TruncateUtf8(s: string, maxBytes: nat) returns (r: string)
    ensures r == Truncated(s, maxBytes)
  {
    var enc := Utf8(s);
    if |enc| <= maxBytes { return s; }
    AroundCut(s, maxBytes);
    ghost var k := FitLen(s, maxBytes);
    ghost var start := |Utf8(s[..k])|;
    var end := maxBytes;
    while end > 0 && Continuation(enc[end])
      invariant start <= end <= maxBytes
    {
      end := end - 1;
    }
    assert end == start;
    DecodeEncoded(s[..k]);
    r := StripBom(DecodeUtf8(enc[..end]).value);
  }

  /** The result never exceeds the limit. It is the longest whole-character prefix that fits, unless the text
      starts with a byte order mark and is cut after it: then the mark is lost. */
  lemma TruncatedIsLongestPrefix(s: string, maxBytes: nat)
    ensures |Utf8(Truncated(s, maxBytes))| <= maxBytes
    ensures Truncated(s, maxBytes) == s[..FitLen(s, maxBytes)]
       <==> |Utf8(s)| <= maxBytes || s[0] != BOM || maxBytes < 3
  {
    var k := FitLen(s, maxBytes);
    FitLenIsLongest(s, maxBytes, k);
    FitLenIsLongest(s, maxBytes, |s|);
    assert s[..|s|] == s;
    if |Utf8(s)| > maxBytes && s[0] == BOM {
      assert |EncodeChar(BOM)| == 3;
      if k > 0 {
        assert s[..k] == [s[0]] + s[..k][1..];
      }
    }
  }

  /** A text that starts with a byte order mark is cut to something that is no prefix of it. */
  lemma CutLosesTheMark()
    ensures var s := [BOM, 'a', 'b'];
            |Utf8(s)| == 5 && Truncated(s, 4) == "a" && !(Truncated(s, 4) <= s)
  {
    var s := [BOM, 'a', 'b'];
    assert s[1..] == ['a', 'b'] && s[1..][1..] == ['b'] && ['b'][1..] == [];
    assert |Utf8(['b'])| == 1 && |Utf8(['a', 'b'])| == 2;
    assert FitLen(['b'], 0) == 0 && FitLen(['a', 'b'], 1) == 1;
    assert FitLen(s, 4) == 2;
    assert s[..2][1..] == ['a'];
  }
}
