/** The protobuf wire format: varints, fixed-width and length-delimited fields, and a reference reader. */
module OtlpWire {
  import opened Wrappers
  import opened Utf8Text

  const TWO32: int := 0x1_0000_0000
  const TWO63: int := 0x8000_0000_0000_0000
  const TWO64: int := 0x1_0000_0000_0000_0000

  const WIRE_VARINT: nat := 0
  const WIRE_FIXED64: nat := 1
  const WIRE_LEN: nat := 2
  const WIRE_FIXED32: nat := 5

  // ---- What is written ----

  /** Base 128: seven bits at a time, least significant first, the high bit set on all but the last byte. */
  function Varint(v: nat): seq<byte> {
    if v < 128 then [v] else [v % 128 + 128] + Varint(v / 128)
  }

  /** Little-endian, the low n bytes. */
  function Fixed(v: int, n: nat): seq<byte>
    decreases n
  {
    if n == 0 then [] else [v % 256] + Fixed(v / 256, n - 1)
  }

  /** An int64 as its 64-bit two's complement. */
  function Unsigned64(v: int): int {
    if v < 0 then v + TWO64 else v
  }

  function Tag(field: nat, wire: nat): seq<byte> { Varint(field * 8 + wire) }

  function LenField(field: nat, bytes: seq<byte>): seq<byte> {
    Tag(field, WIRE_LEN) + Varint(|bytes|) + bytes
  }

  lemma Unreduced(v: nat)
    requires v < TWO32
    ensures v % TWO32 == v
  {
  }

  const TWO53: int := 0x20_0000_0000_0000

  /** Rounded to a multiple of the unit, half to even. */
  function RoundTo(n: nat, unit: nat): nat
    requires unit > 0
  {
    var q, r := n / unit, n % unit;
    if 2 * r < unit || (2 * r == unit && q % 2 == 0) then q * unit else (q + 1) * unit
  }

  /** The nearest number with 53 significant bits. */
  function Nearest(n: nat, unit: nat): nat
    requires unit > 0
    decreases if unit <= n then n - unit else 0
  {
    if n < TWO53 * unit then RoundTo(n, unit) else Nearest(n, 2 * unit)
  }

  /** A negative BigInt pushed as a number: the nearest double, of which the final byte array keeps the low byte. */
  function NumberByte(n: int): byte
    requires n < 0
  {
    (0 - Nearest(-n, 1)) % 256
  }

  function Power256(n: nat): nat { if n == 0 then 1 else 256 * Power256(n - 1) }

  lemma {:induction false} LowBytes(v: int, w: int, k: int, n: nat)
    requires v == w + k * Power256(n)
    ensures Fixed(v, n) == Fixed(w, n)
    decreases n
  {
    if n > 0 {
      var d := k * Power256(n - 1);
      assert k * Power256(n) == 256 * d;
      NextByte(v, w, d);
      LowBytes(v / 256, w / 256, k, n - 1);
    }
  }

  lemma NextByte(v: int, w: int, d: int)
    requires v == w + 256 * d
    ensures v % 256 == w % 256 && v / 256 == w / 256 + d
  {
  }

  lemma LowEightBytes(v: int, w: int)
    requires v % TWO64 == w % TWO64
    ensures Fixed(v, 8) == Fixed(w, 8)
  {
    assert Power256(1) == 256 && Power256(2) == 65536;
    assert Power256(3) == 256 * Power256(2) && Power256(4) == 256 * Power256(3);
    assert Power256(5) == 256 * Power256(4) && Power256(6) == 256 * Power256(5) && Power256(7) == 256 * Power256(6);
    assert Power256(8) == TWO64;
    LowBytes(v, w, v / TWO64 - w / TWO64, 8);
  }

  // ---- The encoder's output buffer ----

  /** The byte list every encoder function pushes onto. */
  class Out {
    var bytes: seq<byte>

    constructor ()
      ensures bytes == []
    {
      bytes := [];
    }

    /** The value is first reduced to 32 bits. */
    method PushVarint(value: int)
      modifies this
      ensures bytes == old(bytes) + Varint(value % TWO32)
    {
      var v: int := value % TWO32;
      ghost var total := Varint(v);
      while v > 0x7f
        invariant 0 <= v && old(bytes) + total == bytes + Varint(v)
        decreases v
      {
        bytes := bytes + [v % 128 + 128];
        v := v / 128;
      }
      bytes := bytes + [v];
    }

    /** A negative value is raised by 2^64; one that is still negative goes out as a single number. */
    method PushVarintBig(value: int)
      modifies this
      ensures bytes == old(bytes) + if value < -TWO64 then [NumberByte(value + TWO64)] else Varint(Unsigned64(value))
    {
      var v := Unsigned64(value);
      if v < 0 {
        bytes := bytes + [NumberByte(v)];
        return;
      }
      ghost var total := Varint(v);
      while v > 0x7f
        invariant 0 <= v && old(bytes) + total == bytes + Varint(v)
        decreases v
      {
        bytes := bytes + [v % 128 + 128];
        v := v / 128;
      }
      bytes := bytes + [v];
    }

    method PushFixed64(value: int)
      modifies this
      ensures bytes == old(bytes) + Fixed(value % TWO64, 8)
    {
      LowEightBytes(Unsigned64(value), value % TWO64);
      PushBytes(Unsigned64(value), 8);
    }

    /** The loop of the eight bytes. */
    method PushBytes(value: int, count: nat)
      modifies this
      ensures bytes == old(bytes) + Fixed(value, count)
    {
      var v := value;
      ghost var total := Fixed(v, count);
      for i := 0 to count
        invariant old(bytes) + total == bytes + Fixed(v, count - i)
      {
        bytes := bytes + [v % 256];
        v := v / 256;
      }
    }

    method PushTag(field: nat, wire: nat)
      requires wire < 8 && field * 8 + wire < TWO32
      modifies this
      ensures bytes == old(bytes) + Tag(field, wire)
    {
      Unreduced(field * 8 + wire);
      PushVarint(field * 8 + wire);
    }

    /** A JavaScript array has fewer than 2^32 elements, so the length is never reduced. */
    method PushLenField(field: nat, content: seq<byte>)
      requires 0 < field < 16 && |content| < TWO32
      modifies this
      ensures bytes == old(bytes) + LenField(field, content)
    {
      PushTag(field, WIRE_LEN);
      Unreduced(|content|);
      PushVarint(|content|);
      for i := 0 to |content|
        invariant bytes == old(bytes) + Tag(field, WIRE_LEN) + Varint(|content|) + content[..i]
      {
        bytes := bytes + [content[i]];
        assert content[..i + 1] == content[..i] + [content[i]];
      }
      assert content[..|content|] == content;
    }
  }

  // ---- The reference reader ----

  /** A varint at the start of the bytes: its value and its length, at most `max` bytes. */
  function ReadVarint(bs: seq<byte>, max: nat): Option<(nat, nat)>
    decreases |bs|
  {
    if bs == [] || max == 0 then None
    else if bs[0] < 128 then Some(((bs[0] as int), 1))
    else
      var rest := ReadVarint(bs[1..], max - 1);
      if rest.None? then None else Some(((bs[0] as int) - 128 + 128 * rest.value.0, rest.value.1 + 1))
  }

  const VARINT_BYTES: nat := 10

  function Power128(n: nat): nat { if n == 0 then 1 else 128 * Power128(n - 1) }

  /** Reading gives back the written value and finds the end of its bytes. */
  lemma {:induction false} VarintRoundTrip(v: nat, rest: seq<byte>, max: nat)
    requires max > 0 && v < Power128(max)
    ensures ReadVarint(Varint(v) + rest, max) == Some((v, |Varint(v)|))
    ensures 1 <= |Varint(v)| <= max
  {
    if v >= 128 {
      assert Power128(0) == 1 && Power128(1) == 128;
      VarintRoundTrip(v / 128, rest, max - 1);
      assert (Varint(v) + rest)[1..] == Varint(v / 128) + rest;
    }
  }

  lemma Power128Ten()
    ensures Power128(10) >= TWO64 && Power128(5) >= TWO32
  {
    assert Power128(1) == 128 && Power128(2) == 16384 && Power128(3) == 2097152;
    assert Power128(4) == 128 * Power128(3) && Power128(5) == 128 * Power128(4) && Power128(6) == 128 * Power128(5);
    assert Power128(7) == 128 * Power128(6) && Power128(8) == 128 * Power128(7);
    assert Power128(9) == 128 * Power128(8) && Power128(10) == 128 * Power128(9);
  }

  /** A 64-bit number read as a signed one. */
  function Signed64(v: nat): int {
    if v % TWO64 >= TWO63 then v % TWO64 - TWO64 else v % TWO64
  }

  /** The two's complement gives the number back exactly when it is an int64. */
  lemma SignedOfUnsigned(v: int)
    requires -TWO64 <= v < TWO64
    ensures Signed64(Unsigned64(v)) == v <==> -TWO63 <= v < TWO63
  {
  }

  datatype Field =
    | VarintField(number: nat, value: nat)
    | Fixed64Field(number: nat, bytes: seq<byte>)
    | LenDelimited(number: nat, bytes: seq<byte>)
    | Fixed32Field(number: nat, bytes: seq<byte>)

  function SizeOf(f: Field): nat { if f.VarintField? then 0 else |f.bytes| }

  /** The field at the start of the bytes, and its encoded length. */
  function ReadField(bs: seq<byte>): (r: Option<(Field, nat)>)
    ensures r.Some? ==> 0 < r.value.1 <= |bs| && SizeOf(r.value.0) < r.value.1
  {
    var tag := ReadVarint(bs, VARINT_BYTES);
    if tag.None? || tag.value.1 > |bs| || tag.value.1 == 0 then None
    else
      var content := ReadContent(tag.value.0 / 8, tag.value.0 % 8, bs[tag.value.1..]);
      if content.None? then None else Some((content.value.0, tag.value.1 + content.value.1))
  }

  /** What follows a tag, and its length. */
  function ReadContent(number: nat, wire: nat, bs: seq<byte>): (r: Option<(Field, nat)>)
    ensures r.Some? ==> SizeOf(r.value.0) <= r.value.1 <= |bs|
  {
    if wire == WIRE_VARINT then
      var v := ReadVarint(bs, VARINT_BYTES);
      if v.None? || v.value.1 > |bs| then None else Some((VarintField(number, v.value.0), v.value.1))
    else if wire == WIRE_FIXED64 then
      if 8 > |bs| then None else Some((Fixed64Field(number, bs[..8]), 8))
    else if wire == WIRE_LEN then
      var n := ReadVarint(bs, VARINT_BYTES);
      if n.None? || n.value.1 + n.value.0 > |bs| then None
      else Some((LenDelimited(number, bs[n.value.1..][..n.value.0]), n.value.1 + n.value.0))
    else if wire == WIRE_FIXED32 then
      if 4 > |bs| then None else Some((Fixed32Field(number, bs[..4]), 4))
    else None
  }

  /** All fields of a message, in order. */
  function ReadFields(bs: seq<byte>): (fs: Option<seq<Field>>)
    ensures fs.Some? ==> forall f | f in fs.value :: SizeOf(f) < |bs|
    decreases |bs|
  {
    if bs == [] then Some([])
    else
      var first := ReadField(bs);
      if first.None? then None
      else
        var rest := ReadFields(bs[first.value.1..]);
        if rest.None? then None else Some([first.value.0] + rest.value)
  }

  lemma ReadTag(field: nat, wire: nat, rest: seq<byte>)
    requires 0 < field < 16 && wire < 8
    ensures Tag(field, wire) == [field * 8 + wire]
    ensures ReadVarint(Tag(field, wire) + rest, VARINT_BYTES) == Some((field * 8 + wire, 1))
  {
  }

  lemma AfterTag(field: nat, wire: nat, content: seq<byte>)
    requires 0 < field < 16 && wire < 8
    ensures var r := ReadContent(field, wire, content);
            ReadField(Tag(field, wire) + content) == if r.None? then None else Some((r.value.0, r.value.1 + 1))
  {
    ReadTag(field, wire, content);
    assert (Tag(field, wire) + content)[1..] == content;
    assert (field * 8 + wire) / 8 == field && (field * 8 + wire) % 8 == wire;
  }

  lemma LenContent(field: nat, bytes: seq<byte>, rest: seq<byte>)
    requires |bytes| < TWO32
    ensures ReadContent(field, WIRE_LEN, Varint(|bytes|) + (bytes + rest))
         == Some((LenDelimited(field, bytes), |Varint(|bytes|)| + |bytes|))
  {
    var size := Varint(|bytes|);
    Power128Ten();
    VarintRoundTrip(|bytes|, bytes + rest, VARINT_BYTES);
    assert (size + (bytes + rest))[|size|..] == bytes + rest;
    assert (bytes + rest)[..|bytes|] == bytes;
  }

  lemma ReadLenField(field: nat, bytes: seq<byte>, rest: seq<byte>)
    requires 0 < field < 16 && |bytes| < TWO32
    ensures ReadField(LenField(field, bytes) + rest) == Some((LenDelimited(field, bytes), |LenField(field, bytes)|))
  {
    AfterTag(field, WIRE_LEN, Varint(|bytes|) + (bytes + rest));
    LenContent(field, bytes, rest);
    LenFieldParts(field, bytes, rest);
  }

  lemma LenFieldParts(field: nat, bytes: seq<byte>, rest: seq<byte>)
    requires 0 < field < 16
    ensures LenField(field, bytes) + rest == Tag(field, WIRE_LEN) + (Varint(|bytes|) + (bytes + rest))
    ensures |LenField(field, bytes)| == 1 + |Varint(|bytes|)| + |bytes|
  {
  }

  lemma ReadVarintField(field: nat, v: nat, rest: seq<byte>)
    requires 0 < field < 16 && v < TWO64
    ensures ReadField(Tag(field, WIRE_VARINT) + Varint(v) + rest)
         == Some((VarintField(field, v), |Tag(field, WIRE_VARINT) + Varint(v)|))
  {
    ReadTag(field, WIRE_VARINT, []);
    AfterTag(field, WIRE_VARINT, Varint(v) + rest);
    VarintContent(field, v, rest);
    assert Tag(field, WIRE_VARINT) + Varint(v) + rest == Tag(field, WIRE_VARINT) + (Varint(v) + rest);
  }

  lemma VarintContent(field: nat, v: nat, rest: seq<byte>)
    requires v < TWO64
    ensures ReadContent(field, WIRE_VARINT, Varint(v) + rest) == Some((VarintField(field, v), |Varint(v)|))
  {
    Power128Ten();
    VarintRoundTrip(v, rest, VARINT_BYTES);
  }

  lemma ReadFixed64Field(field: nat, bytes: seq<byte>, rest: seq<byte>)
    requires 0 < field < 16 && |bytes| == 8
    ensures ReadField(Tag(field, WIRE_FIXED64) + bytes + rest) == Some((Fixed64Field(field, bytes), 9))
  {
    AfterTag(field, WIRE_FIXED64, bytes + rest);
    assert (bytes + rest)[..8] == bytes;
    assert Tag(field, WIRE_FIXED64) + bytes + rest == Tag(field, WIRE_FIXED64) + (bytes + rest);
  }

  /** The wire format by example: tag bytes of each wire type, a varint of two bytes, and little-endian order. */
  lemma WireFormat(x: byte)
    ensures Tag(1, WIRE_VARINT) == [8] && Tag(4, WIRE_FIXED64) == [33] && Tag(5, WIRE_LEN) == [42]
    ensures LenField(1, [x]) == [10, 1, x] && Varint(300) == [172, 2] && Fixed(0x102, 8) == [2, 1, 0, 0, 0, 0, 0, 0]
  {
    assert Varint(300) == [172] + Varint(2);
    FixedOne(0x102, 8);
    FixedOne(1, 7);
    FixedZeros(6);
  }

  lemma FixedOne(v: int, n: nat)
    requires n > 0
    ensures Fixed(v, n) == [v % 256] + Fixed(v / 256, n - 1)
  {
  }

  lemma FixedZeros(n: nat)
    requires n == 6
    ensures Fixed(0, n) == [0, 0, 0, 0, 0, 0]
  {
    FixedOne(0, 6);
    FixedOne(0, 5);
    FixedOne(0, 4);
    FixedOne(0, 3);
    FixedOne(0, 2);
    FixedOne(0, 1);
  }

  /** A message that starts with a field: that field, then the rest. */
  lemma FieldsStep(first: seq<byte>, f: Field, rest: seq<byte>)
    requires ReadField(first + rest) == Some((f, |first|))
    ensures ReadFields(rest).Some? ==> ReadFields(first + rest) == Some([f] + ReadFields(rest).value)
    ensures ReadFields(rest).None? ==> ReadFields(first + rest).None?
  {
    assert (first + rest)[|first|..] == rest;
  }

  lemma NoFields()
    ensures ReadFields([]) == Some([])
  {
  }

  lemma OneField(first: seq<byte>, f: Field)
    requires ReadField(first + []) == Some((f, |first|))
    ensures ReadFields(first) == Some([f])
  {
    var none: seq<Field>, all := [], first + [];
    NoFields();
    FieldsStep(first, f, []);
    assert all == first;
    assert [f] + none == [f];
  }
}
