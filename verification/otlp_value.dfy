/** Encoding of AnyValue trees, and the reference decoder that reads them back. */
module OtlpValue {
  import opened Wrappers
  import opened Utf8Text
  import opened OtlpWire

  /** Integers whose varint, raised by 2^64 when negative, is one of 64 bits. */
  type Integer = x: int | -TWO64 <= x < TWO64

  /** A double as its eight little-endian bytes. */
  type Double = bits: seq<byte> | |bits| == 8 witness [0, 0, 0, 0, 0, 0, 0, 0]

  /** The oneof of opentelemetry.proto.common.v1.AnyValue; an object with no known member is NoValue. */
  datatype AnyValue =
    | NoValue
    | StringValue(text: string)
    | BoolValue(truth: bool)
    | IntValue(n: Integer)
    | DoubleValue(bits: Double)
    | ArrayValue(values: seq<AnyValue>)
    | KvListValue(pairs: seq<KeyValue>)
    | BytesValue(bytes: seq<byte>)

  datatype KeyValue = KeyValue(key: Option<string>, value: Option<AnyValue>)

  // ---- The encoding ----

  function Encoded(v: AnyValue): seq<byte> {
    match v
    case NoValue => []
    case StringValue(text) => LenField(1, Utf8(text))
    case BoolValue(truth) => Tag(2, WIRE_VARINT) + Varint(if truth then 1 else 0)
    case IntValue(n) => Tag(3, WIRE_VARINT) + Varint(Unsigned64(n))
    case DoubleValue(bits) => Tag(4, WIRE_FIXED64) + bits
    case ArrayValue(values) => LenField(5, EncodedArray(values))
    case KvListValue(pairs) => LenField(6, EncodedPairs(pairs))
    case BytesValue(bytes) => LenField(7, bytes)
  }

  function EncodedArray(values: seq<AnyValue>): seq<byte> {
    if values == [] then [] else LenField(1, Encoded(values[0])) + EncodedArray(values[1..])
  }

  function EncodedPairs(pairs: seq<KeyValue>): seq<byte> {
    if pairs == [] then [] else LenField(1, EncodedPair(pairs[0])) + EncodedPairs(pairs[1..])
  }

  function EncodedPair(kv: KeyValue): seq<byte> {
    (if kv.key.Some? then LenField(1, Utf8(kv.key.value)) else [])
    + (if kv.value.Some? then LenField(2, Encoded(kv.value.value)) else [])
  }

  // ---- The encoder functions ----

  method EncodeAnyValue(v: AnyValue) returns (bytes: seq<byte>)
    requires |Encoded(v)| < TWO32
    ensures bytes == Encoded(v)
    decreases v
  {
    var out := new Out();
    match v {
      case NoValue =>
      case StringValue(text) => out.PushLenField(1, Utf8(text));
      case BoolValue(truth) =>
        out.PushTag(2, WIRE_VARINT);
        out.PushVarint(if truth then 1 else 0);
      case IntValue(n) =>
        out.PushTag(3, WIRE_VARINT);
        out.PushVarintBig(n);
      case DoubleValue(bits) =>
        out.PushTag(4, WIRE_FIXED64);
        out.bytes := out.bytes + bits;
      case ArrayValue(values) =>
        var items := EncodeArrayValue(values);
        out.PushLenField(5, items);
      case KvListValue(pairs) =>
        var list := EncodeKvList(pairs);
        out.PushLenField(6, list);
      case BytesValue(bytes) => out.PushLenField(7, bytes);
    }
    bytes := out.bytes;
  }

  method EncodeArrayValue(values: seq<AnyValue>) returns (bytes: seq<byte>)
    requires |EncodedArray(values)| < TWO32
    ensures bytes == EncodedArray(values)
    decreases values
  {
    var out := new Out();
    for i := 0 to |values|
      invariant out.bytes + EncodedArray(values[i..]) == EncodedArray(values)
    {
      ArrayStep(out.bytes, values, i);
      var item := EncodeAnyValue(values[i]);
      out.PushLenField(1, item);
    }
    bytes := out.bytes;
  }

  lemma ArrayStep(before: seq<byte>, values: seq<AnyValue>, i: nat)
    requires i < |values|
    ensures before + EncodedArray(values[i..])
         == before + LenField(1, Encoded(values[i])) + EncodedArray(values[i + 1..])
    ensures |Encoded(values[i])| < |EncodedArray(values[i..])|
  {
    assert values[i..][1..] == values[i + 1..];
    FieldSmaller(1, Encoded(values[i]));
  }

  lemma PairsStep(before: seq<byte>, pairs: seq<KeyValue>, i: nat)
    requires i < |pairs|
    ensures before + EncodedPairs(pairs[i..])
         == before + LenField(1, EncodedPair(pairs[i])) + EncodedPairs(pairs[i + 1..])
    ensures |EncodedPair(pairs[i])| < |EncodedPairs(pairs[i..])|
  {
    assert pairs[i..][1..] == pairs[i + 1..];
    FieldSmaller(1, EncodedPair(pairs[i]));
  }

  method EncodeKvList(pairs: seq<KeyValue>) returns (bytes: seq<byte>)
    requires |EncodedPairs(pairs)| < TWO32
    ensures bytes == EncodedPairs(pairs)
    decreases pairs
  {
    var out := new Out();
    for i := 0 to |pairs|
      invariant out.bytes + EncodedPairs(pairs[i..]) == EncodedPairs(pairs)
    {
      PairsStep(out.bytes, pairs, i);
      var item := EncodeKeyValue(pairs[i]);
      out.PushLenField(1, item);
    }
    bytes := out.bytes;
  }

  method EncodeKeyValue(kv: KeyValue) returns (bytes: seq<byte>)
    requires |EncodedPair(kv)| < TWO32
    ensures bytes == EncodedPair(kv)
    decreases kv
  {
    var out := new Out();
    if kv.key.Some? { out.PushLenField(1, Utf8(kv.key.value)); }
    if kv.value.Some? {
      var value := EncodeAnyValue(kv.value.value);
      out.PushLenField(2, value);
    }
    bytes := out.bytes;
  }

  // ---- The reference decoder ----

  lemma MemberSmaller(fields: seq<Field>, f: Field, size: nat)
    requires f in fields && forall g | g in fields :: SizeOf(g) < size
    ensures SizeOf(f) < size && (f.LenDelimited? ==> |f.bytes| < size)
  {
  }

  /** A later member of the oneof replaces an earlier one. */
  function DecodeAny(bs: seq<byte>): Option<AnyValue>
    decreases |bs|, 3
  {
    var fields := ReadFields(bs);
    if fields.None? then None
    else if fields.value == [] then Some(NoValue)
    else
      assert fields.value[|fields.value| - 1] in fields.value;
      DecodeMember(fields.value[|fields.value| - 1], |bs|)
  }

  function DecodeMember(f: Field, size: nat): Option<AnyValue>
    requires SizeOf(f) < size
    decreases size, 2
  {
    match f
    case VarintField(2, v) => Some(BoolValue(v != 0))
    case VarintField(3, v) => Some(IntValue(Signed64(v)))
    case Fixed64Field(4, bits) => if |bits| == 8 then Some(DoubleValue(bits)) else None
    case LenDelimited(1, text) =>
      var t := DecodeUtf8(text);
      if t.None? then None else Some(StringValue(t.value))
    case LenDelimited(5, items) =>
      var vs := DecodeArray(items);
      if vs.None? then None else Some(ArrayValue(vs.value))
    case LenDelimited(6, list) =>
      var ps := DecodePairs(list);
      if ps.None? then None else Some(KvListValue(ps.value))
    case LenDelimited(7, bytes) => Some(BytesValue(bytes))
    case _ => None
  }

  function DecodeArray(bs: seq<byte>): Option<seq<AnyValue>>
    decreases |bs|, 2
  {
    var fields := ReadFields(bs);
    if fields.None? then None else DecodeItems(fields.value, |bs|)
  }

  function DecodeItems(fields: seq<Field>, size: nat): Option<seq<AnyValue>>
    requires forall f | f in fields :: SizeOf(f) < size
    decreases size, 1, |fields|
  {
    if fields == [] then Some([])
    else if !(fields[0].LenDelimited? && fields[0].number == 1) then None
    else
      MemberSmaller(fields, fields[0], size);
      var v, rest := DecodeAny(fields[0].bytes), DecodeItems(fields[1..], size);
      if v.None? || rest.None? then None else Some([v.value] + rest.value)
  }

  function DecodePairs(bs: seq<byte>): Option<seq<KeyValue>>
    decreases |bs|, 2
  {
    var fields := ReadFields(bs);
    if fields.None? then None else DecodePairItems(fields.value, |bs|)
  }

  function DecodePairItems(fields: seq<Field>, size: nat): Option<seq<KeyValue>>
    requires forall f | f in fields :: SizeOf(f) < size
    decreases size, 1, |fields|
  {
    if fields == [] then Some([])
    else if !(fields[0].LenDelimited? && fields[0].number == 1) then None
    else
      MemberSmaller(fields, fields[0], size);
      var kv, rest := DecodePair(fields[0].bytes), DecodePairItems(fields[1..], size);
      if kv.None? || rest.None? then None else Some([kv.value] + rest.value)
  }

  function DecodePair(bs: seq<byte>): Option<KeyValue>
    decreases |bs|, 2
  {
    var fields := ReadFields(bs);
    if fields.None? then None else DecodePairFields(fields.value, |bs|)
  }

  function DecodePairFields(fields: seq<Field>, size: nat): Option<KeyValue>
    requires forall f | f in fields :: SizeOf(f) < size
    decreases size, 1, |fields|
  {
    if fields == [] then Some(KeyValue(None, None))
    else
      var init, last := DecodePairFields(fields[..|fields| - 1], size), fields[|fields| - 1];
      MemberSmaller(fields, last, size);
      if init.None? then None
      else
        match last
        case LenDelimited(1, text) =>
          var t := DecodeUtf8(text);
          if t.None? then None else Some(init.value.(key := t))
        case LenDelimited(2, value) =>
          var v := DecodeAny(value);
          if v.None? then None else Some(init.value.(value := v))
        case _ => None
  }

  // ---- The round trip ----

  /** Every integer reduced to 64 bits and read as signed. */
  function Wrapped(v: AnyValue): AnyValue {
    match v
    case IntValue(n) => IntValue(Signed64(Unsigned64(n)))
    case ArrayValue(values) => ArrayValue(WrappedAll(values))
    case KvListValue(pairs) => KvListValue(WrappedPairs(pairs))
    case _ => v
  }

  function WrappedAll(values: seq<AnyValue>): seq<AnyValue> {
    if values == [] then [] else [Wrapped(values[0])] + WrappedAll(values[1..])
  }

  function WrappedPairs(pairs: seq<KeyValue>): seq<KeyValue> {
    if pairs == [] then [] else [WrappedPair(pairs[0])] + WrappedPairs(pairs[1..])
  }

  function WrappedPair(kv: KeyValue): KeyValue {
    KeyValue(kv.key, if kv.value.Some? then Some(Wrapped(kv.value.value)) else None)
  }

  function ItemFields(values: seq<AnyValue>): seq<Field> {
    if values == [] then [] else [LenDelimited(1, Encoded(values[0]))] + ItemFields(values[1..])
  }

  function PairFields(pairs: seq<KeyValue>): seq<Field> {
    if pairs == [] then [] else [LenDelimited(1, EncodedPair(pairs[0]))] + PairFields(pairs[1..])
  }

  lemma {:induction false} ReadItems(values: seq<AnyValue>)
    requires |EncodedArray(values)| < TWO32
    ensures ReadFields(EncodedArray(values)) == Some(ItemFields(values))
  {
    if values != [] {
      var rest := EncodedArray(values[1..]);
      ReadItems(values[1..]);
      ReadLenField(1, Encoded(values[0]), rest);
      FieldsStep(LenField(1, Encoded(values[0])), LenDelimited(1, Encoded(values[0])), rest);
    }
  }

  lemma {:induction false} ReadPairs(pairs: seq<KeyValue>)
    requires |EncodedPairs(pairs)| < TWO32
    ensures ReadFields(EncodedPairs(pairs)) == Some(PairFields(pairs))
  {
    if pairs != [] {
      var rest := EncodedPairs(pairs[1..]);
      ReadPairs(pairs[1..]);
      ReadLenField(1, EncodedPair(pairs[0]), rest);
      FieldsStep(LenField(1, EncodedPair(pairs[0])), LenDelimited(1, EncodedPair(pairs[0])), rest);
    }
  }

  lemma OneMember(bs: seq<byte>, f: Field)
    requires ReadFields(bs) == Some([f])
    ensures SizeOf(f) < |bs| && DecodeAny(bs) == DecodeMember(f, |bs|)
  {
    assert [f][|[f]| - 1] in [f];
  }

  lemma ReadLen(field: nat, content: seq<byte>)
    requires 0 < field < 16 && |content| < TWO32
    ensures ReadFields(LenField(field, content)) == Some([LenDelimited(field, content)])
    ensures DecodeAny(LenField(field, content))
         == DecodeMember(LenDelimited(field, content), |LenField(field, content)|)
  {
    ReadLenField(field, content, []);
    OneField(LenField(field, content), LenDelimited(field, content));
    OneMember(LenField(field, content), LenDelimited(field, content));
  }

  lemma ReadNumber(field: nat, v: nat)
    requires 0 < field < 16 && v < TWO64
    ensures var bs := Tag(field, WIRE_VARINT) + Varint(v);
            |bs| > 0 && DecodeAny(bs) == DecodeMember(VarintField(field, v), |bs|)
  {
    ReadVarintField(field, v, []);
    OneField(Tag(field, WIRE_VARINT) + Varint(v), VarintField(field, v));
    OneMember(Tag(field, WIRE_VARINT) + Varint(v), VarintField(field, v));
  }

  lemma ReadDouble(field: nat, bits: Double)
    requires 0 < field < 16
    ensures var bs := Tag(field, WIRE_FIXED64) + bits;
            |bs| == 9 && DecodeAny(bs) == DecodeMember(Fixed64Field(field, bits), |bs|)
  {
    ReadFixed64Field(field, bits, []);
    ReadTag(field, WIRE_FIXED64, []);
    OneField(Tag(field, WIRE_FIXED64) + bits, Fixed64Field(field, bits));
    OneMember(Tag(field, WIRE_FIXED64) + bits, Fixed64Field(field, bits));
  }

  lemma FieldSmaller(field: nat, content: seq<byte>)
    ensures |content| < |LenField(field, content)|
  {
  }

  lemma LeafRoundTrip(v: AnyValue)
    requires |Encoded(v)| < TWO32 && !v.ArrayValue? && !v.KvListValue?
    ensures DecodeAny(Encoded(v)) == Some(Wrapped(v))
  {
    match v
    case NoValue => NoFields();
    case StringValue(text) => TextRoundTrip(text);
    case BoolValue(truth) => ReadNumber(2, if truth then 1 else 0);
    case IntValue(n) => ReadNumber(3, Unsigned64(n));
    case DoubleValue(bits) => ReadDouble(4, bits);
    case BytesValue(bytes) => BytesRoundTrip(bytes);
  }

  lemma TextRoundTrip(text: string)
    requires |LenField(1, Utf8(text))| < TWO32
    ensures DecodeAny(LenField(1, Utf8(text))) == Some(StringValue(text))
  {
    FieldSmaller(1, Utf8(text));
    ReadLen(1, Utf8(text));
    DecodeEncoded(text);
  }

  lemma BytesRoundTrip(bytes: seq<byte>)
    requires |LenField(7, bytes)| < TWO32
    ensures DecodeAny(LenField(7, bytes)) == Some(BytesValue(bytes))
  {
    FieldSmaller(7, bytes);
    ReadLen(7, bytes);
  }

  lemma ArrayMember(items: seq<byte>, size: nat)
    requires |items| < size && DecodeArray(items).Some?
    ensures DecodeMember(LenDelimited(5, items), size) == Some(ArrayValue(DecodeArray(items).value))
  {
  }

  lemma KvListMember(list: seq<byte>, size: nat)
    requires |list| < size && DecodePairs(list).Some?
    ensures DecodeMember(LenDelimited(6, list), size) == Some(KvListValue(DecodePairs(list).value))
  {
  }

  lemma ArrayRoundTrip(content: seq<byte>, values: seq<AnyValue>)
    requires |content| < TWO32 && DecodeArray(content) == Some(values)
    ensures DecodeAny(LenField(5, content)) == Some(ArrayValue(values))
  {
    FieldSmaller(5, content);
    ArrayMember(content, |LenField(5, content)|);
    ReadLen(5, content);
  }

  lemma KvListRoundTrip(content: seq<byte>, pairs: seq<KeyValue>)
    requires |content| < TWO32 && DecodePairs(content) == Some(pairs)
    ensures DecodeAny(LenField(6, content)) == Some(KvListValue(pairs))
  {
    FieldSmaller(6, content);
    KvListMember(content, |LenField(6, content)|);
    ReadLen(6, content);
  }

  /** Decoding an encoded tree gives the tree back, with every integer reduced to an int64. */
  lemma {:induction false} DecodeEncodedValue(v: AnyValue)
    requires |Encoded(v)| < TWO32
    ensures DecodeAny(Encoded(v)) == Some(Wrapped(v))
    decreases v
  {
    match v
    case ArrayValue(values) =>
      FieldSmaller(5, EncodedArray(values));
      DecodeEncodedArray(values);
      ArrayRoundTrip(EncodedArray(values), WrappedAll(values));
    case KvListValue(pairs) =>
      FieldSmaller(6, EncodedPairs(pairs));
      DecodeEncodedPairs(pairs);
      KvListRoundTrip(EncodedPairs(pairs), WrappedPairs(pairs));
    case _ => LeafRoundTrip(v);
  }

  lemma {:induction false} DecodeEncodedArray(values: seq<AnyValue>)
    requires |EncodedArray(values)| < TWO32
    ensures DecodeArray(EncodedArray(values)) == Some(WrappedAll(values))
    decreases values, 1
  {
    ReadItems(values);
    DecodeEncodedItems(values, |EncodedArray(values)|);
  }

  lemma {:induction false} DecodeEncodedItems(values: seq<AnyValue>, size: nat)
    requires |EncodedArray(values)| < TWO32 && forall f | f in ItemFields(values) :: SizeOf(f) < size
    ensures DecodeItems(ItemFields(values), size) == Some(WrappedAll(values))
    decreases values, 0
  {
    if values != [] {
      FieldSmaller(1, Encoded(values[0]));
      DecodeEncodedValue(values[0]);
      DecodeEncodedItems(values[1..], size);
      assert ItemFields(values)[1..] == ItemFields(values[1..]);
    }
  }

  lemma {:induction false} DecodeEncodedPairs(pairs: seq<KeyValue>)
    requires |EncodedPairs(pairs)| < TWO32
    ensures DecodePairs(EncodedPairs(pairs)) == Some(WrappedPairs(pairs))
    decreases pairs, 1
  {
    ReadPairs(pairs);
    DecodeEncodedPairItems(pairs, |EncodedPairs(pairs)|);
  }

  lemma {:induction false} DecodeEncodedPairItems(pairs: seq<KeyValue>, size: nat)
    requires |EncodedPairs(pairs)| < TWO32 && forall f | f in PairFields(pairs) :: SizeOf(f) < size
    ensures DecodePairItems(PairFields(pairs), size) == Some(WrappedPairs(pairs))
    decreases pairs, 0
  {
    if pairs != [] {
      FieldSmaller(1, EncodedPair(pairs[0]));
      DecodeEncodedPair(pairs[0]);
      DecodeEncodedPairItems(pairs[1..], size);
      assert PairFields(pairs)[1..] == PairFields(pairs[1..]);
    }
  }

  lemma {:induction false} DecodeEncodedPair(kv: KeyValue)
    requires |EncodedPair(kv)| < TWO32
    ensures DecodePair(EncodedPair(kv)) == Some(WrappedPair(kv))
    decreases kv
  {
    if kv.value.Some? { DecodeEncodedValue(kv.value.value); }
    PairSizes(kv);
    ReadPair(kv);
    PairFieldsDecode(kv, |EncodedPair(kv)|);
  }

  lemma PairSizes(kv: KeyValue)
    ensures kv.key.Some? ==> |Utf8(kv.key.value)| < |EncodedPair(kv)|
    ensures kv.value.Some? ==> |Encoded(kv.value.value)| < |EncodedPair(kv)|
  {
    if kv.key.Some? { FieldSmaller(1, Utf8(kv.key.value)); }
    if kv.value.Some? { FieldSmaller(2, Encoded(kv.value.value)); }
  }

  function KeyFields(kv: KeyValue): seq<Field> {
    if kv.key.Some? then [LenDelimited(1, Utf8(kv.key.value))] else []
  }

  function ValueFields(kv: KeyValue): seq<Field> {
    if kv.value.Some? then [LenDelimited(2, Encoded(kv.value.value))] else []
  }

  lemma ReadPair(kv: KeyValue)
    requires |EncodedPair(kv)| < TWO32
    ensures ReadFields(EncodedPair(kv)) == Some(KeyFields(kv) + ValueFields(kv))
  {
    PairSizes(kv);
    var value := if kv.value.Some? then LenField(2, Encoded(kv.value.value)) else [];
    NoFields();
    if kv.value.Some? { ReadLen(2, Encoded(kv.value.value)); }
    assert ReadFields(value) == Some(ValueFields(kv));
    if kv.key.Some? {
      var text := Utf8(kv.key.value);
      ReadLenField(1, text, value);
      FieldsStep(LenField(1, text), LenDelimited(1, text), value);
    } else {
      assert EncodedPair(kv) == value && KeyFields(kv) + ValueFields(kv) == ValueFields(kv);
    }
  }

  lemma PairFieldsDecode(kv: KeyValue, size: nat)
    requires kv.key.Some? ==> |Utf8(kv.key.value)| < size
    requires kv.value.Some? ==>
      |Encoded(kv.value.value)| < size && DecodeAny(Encoded(kv.value.value)) == Some(Wrapped(kv.value.value))
    ensures DecodePairFields(KeyFields(kv) + ValueFields(kv), size) == Some(WrappedPair(kv))
  {
    var a, b := KeyFields(kv), ValueFields(kv);
    KeyFieldsDecode(kv, size);
    if kv.value.Some? {
      assert (a + b)[..|a + b| - 1] == a;
    } else {
      assert a + b == a;
    }
  }

  lemma KeyFieldsDecode(kv: KeyValue, size: nat)
    requires kv.key.Some? ==> |Utf8(kv.key.value)| < size
    ensures DecodePairFields(KeyFields(kv), size) == Some(KeyValue(kv.key, None))
  {
    var a := KeyFields(kv);
    if kv.key.Some? {
      assert a[..|a| - 1] == [];
      assert DecodePairFields(a[..|a| - 1], size) == Some(KeyValue(None, None));
      DecodeEncoded(kv.key.value);
    }
  }

  // ---- Exactly which trees come back unchanged ----

  predicate AllInt64(v: AnyValue) {
    match v
    case IntValue(n) => -TWO63 <= n < TWO63
    case ArrayValue(values) => forall i | 0 <= i < |values| :: AllInt64(values[i])
    case KvListValue(pairs) => forall i | 0 <= i < |pairs| :: pairs[i].value.Some? ==> AllInt64(pairs[i].value.value)
    case _ => true
  }

  /** The round trip is exact for exactly the trees whose integers are int64 values. */
  lemma RoundTrip(v: AnyValue)
    requires |Encoded(v)| < TWO32
    ensures DecodeAny(Encoded(v)) == Some(v) <==> AllInt64(v)
  {
    DecodeEncodedValue(v);
    WrappedIsSame(v);
  }

  lemma {:induction false} WrappedIsSame(v: AnyValue)
    ensures Wrapped(v) == v <==> AllInt64(v)
    decreases v
  {
    match v
    case IntValue(n) => SignedOfUnsigned(n);
    case ArrayValue(values) =>
      WrappedAllAt(values);
      forall i | 0 <= i < |values| ensures Wrapped(values[i]) == values[i] <==> AllInt64(values[i]) {
        WrappedIsSame(values[i]);
      }
      SameSeq(WrappedAll(values), values);
    case KvListValue(pairs) =>
      WrappedPairsAt(pairs);
      forall i | 0 <= i < |pairs|
        ensures WrappedPair(pairs[i]) == pairs[i] <==> (pairs[i].value.Some? ==> AllInt64(pairs[i].value.value))
      {
        if pairs[i].value.Some? { WrappedIsSame(pairs[i].value.value); }
      }
      SameSeq(WrappedPairs(pairs), pairs);
    case _ =>
  }

  lemma SameSeq<T>(a: seq<T>, b: seq<T>)
    requires |a| == |b|
    ensures a == b <==> forall i | 0 <= i < |a| :: a[i] == b[i]
  {
  }

  lemma {:induction false} WrappedAllAt(values: seq<AnyValue>)
    ensures |WrappedAll(values)| == |values|
    ensures forall i | 0 <= i < |values| :: WrappedAll(values)[i] == Wrapped(values[i])
  {
    if values != [] { WrappedAllAt(values[1..]); }
  }

  lemma {:induction false} WrappedPairsAt(pairs: seq<KeyValue>)
    ensures |WrappedPairs(pairs)| == |pairs|
    ensures forall i | 0 <= i < |pairs| :: WrappedPairs(pairs)[i] == WrappedPair(pairs[i])
  {
    if pairs != [] { WrappedPairsAt(pairs[1..]); }
  }
}
