/** Splitting a batch of records into size-bounded export requests. */
module OtlpChunks {
  import opened Wrappers
  import opened Utf8Text
  import opened OtlpWire
  import opened GreedyPartition

  const RECORD_FIELD: nat := 2

  // ---- Sizes ----

  method VarintSize(value: int) returns (size: nat)
    ensures size == |Varint(value % TWO32)|
  {
    var v: int := value % TWO32;
    ghost var total := |Varint(v)|;
    size := 1;
    while v > 0x7f
      invariant 0 <= v && total + 1 == size + |Varint(v)|
      decreases v
    {
      size := size + 1;
      v := v / 128;
    }
  }

  /** What a record adds to its scope: one tag byte, the length and the record. */
  function FieldSize(record: seq<byte>): nat {
    1 + |Varint(|record|)| + |record|
  }

  method RecordFieldSize(contentLength: nat) returns (size: nat)
    requires contentLength < TWO32
    ensures forall record: seq<byte> | |record| == contentLength :: size == FieldSize(record)
    ensures forall record: seq<byte> | |record| == contentLength :: size == |LenField(RECORD_FIELD, record)|
  {
    Unreduced(contentLength);
    var n := VarintSize(contentLength);
    size := 1 + n + contentLength;
  }

  /** Longer content needs no shorter length prefix. */
  lemma {:induction false} VarintGrows(a: nat, b: nat)
    requires a <= b
    ensures 1 <= |Varint(a)| <= |Varint(b)|
  {
    if a >= 128 { VarintGrows(a / 128, b / 128); }
  }

  lemma VarintSizes()
    ensures |Varint(0x1f_ffff)| == 3 && |Varint(0xffff_ffff)| == 5
  {
    assert |Varint(0x1f_ffff / 128)| == 1 + |Varint(0x1f_ffff / 128 / 128)|;
    var a := 0xffff_ffff / 128;
    assert |Varint(a)| == 1 + |Varint(a / 128)| && |Varint(a / 128)| == 1 + |Varint(a / 128 / 128)|;
    assert |Varint(a / 128 / 128)| == 1 + |Varint(a / 128 / 128 / 128)|;
  }

  // ---- One request: one resource, one scope, the records ----

  datatype Frame = Frame(resource: Option<seq<byte>>, scope: Option<seq<byte>>,
                         resourceSchema: Option<string>, scopeSchema: Option<string>)

  function OptField(field: nat, content: Option<seq<byte>>): seq<byte> {
    if content.Some? then LenField(field, content.value) else []
  }

  /** An absent or empty schema URL is not written. */
  function SchemaBytes(schema: Option<string>): Option<seq<byte>> {
    if schema.Some? && schema.value != "" then Some(Utf8(schema.value)) else None
  }

  function Records(records: seq<seq<byte>>): seq<byte> {
    if records == [] then [] else Records(records[..|records| - 1]) + LenField(RECORD_FIELD, records[|records| - 1])
  }

  function ScopeMessage(f: Frame, records: seq<seq<byte>>): seq<byte> {
    OptField(1, f.scope) + Records(records) + OptField(3, SchemaBytes(f.scopeSchema))
  }

  function ResourceMessage(f: Frame, records: seq<seq<byte>>): seq<byte> {
    OptField(1, f.resource) + LenField(2, ScopeMessage(f, records)) + OptField(3, SchemaBytes(f.resourceSchema))
  }

  function Request(f: Frame, records: seq<seq<byte>>): seq<byte> {
    LenField(1, ResourceMessage(f, records))
  }

  function Base(f: Frame): nat { |Request(f, [])| }

  lemma RequestParts(f: Frame, records: seq<seq<byte>>)
    requires |Request(f, records)| < TWO32
    ensures |ResourceMessage(f, records)| < TWO32 && |ScopeMessage(f, records)| < TWO32
    ensures f.scope.Some? ==> |f.scope.value| < TWO32
    ensures f.resource.Some? ==> |f.resource.value| < TWO32
    ensures SchemaBytes(f.scopeSchema).Some? ==> |SchemaBytes(f.scopeSchema).value| < TWO32
    ensures SchemaBytes(f.resourceSchema).Some? ==> |SchemaBytes(f.resourceSchema).value| < TWO32
    ensures |Records(records)| < TWO32
  {
  }

  lemma RecordsStep(records: seq<seq<byte>>, i: nat)
    requires i < |records|
    ensures Records(records[..i + 1]) == Records(records[..i]) + LenField(RECORD_FIELD, records[i])
  {
    assert records[..i + 1][..i] == records[..i];
  }

  lemma {:induction false} RecordWithin(records: seq<seq<byte>>, i: nat)
    requires i < |records|
    ensures |records[i]| <= |Records(records)|
  {
    if i < |records| - 1 { RecordWithin(records[..|records| - 1], i); }
  }

  method PushOptional(out: Out, field: nat, content: Option<seq<byte>>)
    requires 0 < field < 16 && (content.Some? ==> |content.value| < TWO32)
    modifies out
    ensures out.bytes == old(out.bytes) + OptField(field, content)
  {
    if content.Some? { out.PushLenField(field, content.value); }
  }

  method PushRecords(out: Out, records: seq<seq<byte>>)
    requires |Records(records)| < TWO32
    modifies out
    ensures out.bytes == old(out.bytes) + Records(records)
  {
    for i := 0 to |records|
      invariant out.bytes == old(out.bytes) + Records(records[..i])
    {
      RecordsStep(records, i);
      RecordWithin(records, i);
      out.PushLenField(RECORD_FIELD, records[i]);
    }
    assert records[..|records|] == records;
  }

  /** The parts of a scope message are JavaScript arrays. */
  predicate ScopeParts(f: Frame, records: seq<seq<byte>>) {
    && |Records(records)| < TWO32 && (f.scope.Some? ==> |f.scope.value| < TWO32)
    && (SchemaBytes(f.scopeSchema).Some? ==> |SchemaBytes(f.scopeSchema).value| < TWO32)
  }

  /** So are those of a resource message around it. */
  predicate ResourceParts(f: Frame, scope: seq<byte>) {
    && |scope| < TWO32 && (f.resource.Some? ==> |f.resource.value| < TWO32)
    && (SchemaBytes(f.resourceSchema).Some? ==> |SchemaBytes(f.resourceSchema).value| < TWO32)
  }

  method BuildScope(f: Frame, records: seq<seq<byte>>) returns (bytes: seq<byte>)
    requires ScopeParts(f, records)
    ensures bytes == ScopeMessage(f, records)
  {
    var scope := new Out();
    PushOptional(scope, 1, f.scope);
    PushRecords(scope, records);
    PushOptional(scope, 3, SchemaBytes(f.scopeSchema));
    bytes := scope.bytes;
  }

  method BuildResource(f: Frame, scope: seq<byte>) returns (bytes: seq<byte>)
    requires ResourceParts(f, scope)
    ensures bytes == OptField(1, f.resource) + LenField(2, scope) + OptField(3, SchemaBytes(f.resourceSchema))
  {
    var resource := new Out();
    PushOptional(resource, 1, f.resource);
    resource.PushLenField(2, scope);
    PushOptional(resource, 3, SchemaBytes(f.resourceSchema));
    bytes := resource.bytes;
  }

  method BuildRequest(f: Frame, records: seq<seq<byte>>) returns (bytes: seq<byte>)
    requires |Request(f, records)| < TWO32
    ensures bytes == Request(f, records)
  {
    RequestParts(f, records);
    var scope := BuildScope(f, records);
    var resource := BuildResource(f, scope);
    var request := new Out();
    request.PushLenField(1, resource);
    bytes := request.bytes;
  }

  // ---- How far a request can exceed its accounted size ----

  lemma LenFieldSize(field: nat, content: seq<byte>)
    requires 0 < field < 16
    ensures |LenField(field, content)| == 1 + |Varint(|content|)| + |content|
  {
  }

  lemma {:induction false} RecordsSize(records: seq<seq<byte>>)
    ensures |Records(records)| == Cost(records, FieldSize)
  {
    if records != [] {
      RecordsSize(records[..|records| - 1]);
      LenFieldSize(RECORD_FIELD, records[|records| - 1]);
    }
  }

  lemma ScopeSize(f: Frame, records: seq<seq<byte>>)
    ensures |ScopeMessage(f, records)| == |ScopeMessage(f, [])| + Cost(records, FieldSize)
  {
    RecordsSize(records);
  }

  lemma ResourceSize(f: Frame, records: seq<seq<byte>>)
    ensures |ResourceMessage(f, records)| == |ResourceMessage(f, [])| + Cost(records, FieldSize)
         + (|Varint(|ScopeMessage(f, records)|)| - |Varint(|ScopeMessage(f, [])|)|)
    ensures |ResourceMessage(f, [])| >= |ScopeMessage(f, [])| + 2
  {
    ScopeSize(f, records);
    LenFieldSize(2, ScopeMessage(f, records));
    LenFieldSize(2, ScopeMessage(f, []));
    VarintGrows(0, |ScopeMessage(f, [])|);
  }

  /** Only the two outer length prefixes can grow as records are added. */
  lemma RequestSize(f: Frame, records: seq<seq<byte>>)
    ensures |Request(f, records)| == Base(f) + Cost(records, FieldSize)
         + (|Varint(|ScopeMessage(f, records)|)| - |Varint(|ScopeMessage(f, [])|)|)
         + (|Varint(|ResourceMessage(f, records)|)| - |Varint(|ResourceMessage(f, [])|)|)
    ensures Base(f) >= |ResourceMessage(f, [])| + 2
  {
    ResourceSize(f, records);
    LenFieldSize(1, ResourceMessage(f, records));
    LenFieldSize(1, ResourceMessage(f, []));
    VarintGrows(0, |ResourceMessage(f, [])|);
  }

  /** Each prefix grows by at most what a length of `limit` needs beyond one byte. */
  lemma PrefixGrowth(f: Frame, records: seq<seq<byte>>, maxBytes: int, limit: nat)
    requires Base(f) + Cost(records, FieldSize) <= maxBytes && maxBytes + |Varint(limit)| <= limit
    ensures |Request(f, records)| <= maxBytes + 2 * (|Varint(limit)| - 1)
  {
    ScopeSize(f, records);
    ResourceSize(f, records);
    RequestSize(f, records);
    VarintGrows(0, |ScopeMessage(f, [])|);
    VarintGrows(0, |ResourceMessage(f, [])|);
    VarintGrows(|ScopeMessage(f, records)|, limit);
    VarintGrows(|ResourceMessage(f, records)|, limit);
  }

  /** A group that fits its accounted size gives a request at most 8 bytes over it; at most 4 when the
      limit is below 2 MiB, as the gateway's 900000 bytes are. */
  lemma ChunkBound(f: Frame, records: seq<seq<byte>>, maxBytes: int)
    requires maxBytes + 8 < TWO32 && Base(f) + Cost(records, FieldSize) <= maxBytes
    ensures |Request(f, records)| <= maxBytes + 8
    ensures maxBytes + 3 <= 0x1f_ffff ==> |Request(f, records)| <= maxBytes + 4
  {
    VarintSizes();
    PrefixGrowth(f, records, maxBytes, 0xffff_ffff);
    if maxBytes + 3 <= 0x1f_ffff { PrefixGrowth(f, records, maxBytes, 0x1f_ffff); }
  }

  // ---- Reading a chunk back ----

  function Optional(number: nat, content: Option<seq<byte>>): seq<Field> {
    if content.Some? then [LenDelimited(number, content.value)] else []
  }

  function RecordFields(records: seq<seq<byte>>): seq<Field> {
    if records == [] then []
    else RecordFields(records[..|records| - 1]) + [LenDelimited(RECORD_FIELD, records[|records| - 1])]
  }

  /** The reference reading of a request: its resource, scope, schemas and records. */
  function DecodeChunk(bs: seq<byte>): Option<(seq<Field>, seq<Field>)> {
    var request := ReadFields(bs);
    if request.None? || |request.value| != 1 then None
    else if !request.value[0].LenDelimited? || request.value[0].number != 1 then None
    else
      var resource := ReadFields(request.value[0].bytes);
      if resource.None? then None
      else
        var at := ScopeAt(resource.value);
        if at == |resource.value| then None
        else
          var scope := ReadFields(resource.value[at].bytes);
          if scope.None? then None else Some((resource.value[..at] + resource.value[at + 1..], scope.value))
  }

  /** Where the scope message is among a resource's fields. */
  function ScopeAt(fields: seq<Field>): (at: nat)
    ensures at <= |fields| && (at < |fields| ==> fields[at].LenDelimited? && fields[at].number == 2)
  {
    if fields == [] then 0
    else if fields[0].LenDelimited? && fields[0].number == 2 then 0
    else 1 + ScopeAt(fields[1..])
  }

  /** Whatever readable bytes follow, these bytes read as these fields before them. */
  ghost predicate Reads(bytes: seq<byte>, fields: seq<Field>) {
    forall rest :: ReadsBefore(bytes, fields, rest)
  }

  ghost predicate ReadsBefore(bytes: seq<byte>, fields: seq<Field>, rest: seq<byte>) {
    ReadFields(rest).Some? ==> ReadFields(bytes + rest) == Some(fields + ReadFields(rest).value)
  }

  lemma ReadsNothing()
    ensures Reads([], [])
  {
    forall rest ensures ReadsBefore([], [], rest) {
      assert [] + rest == rest;
      if ReadFields(rest).Some? {
        var fields := ReadFields(rest).value;
        assert [] + fields == fields;
      }
    }
  }

  lemma ReadsOne(number: nat, content: seq<byte>)
    requires 0 < number < 16 && |content| < TWO32
    ensures Reads(LenField(number, content), [LenDelimited(number, content)])
  {
    forall rest ensures ReadsBefore(LenField(number, content), [LenDelimited(number, content)], rest) {
      ReadLenField(number, content, rest);
      FieldsStep(LenField(number, content), LenDelimited(number, content), rest);
    }
  }

  lemma Associative<T>(a: seq<T>, b: seq<T>, c: seq<T>)
    ensures (a + b) + c == a + (b + c)
  {
  }

  lemma ReadsInTurn(a: seq<byte>, fa: seq<Field>, b: seq<byte>, fb: seq<Field>, rest: seq<byte>, after: seq<byte>,
                    fields: seq<Field>)
    requires ReadsBefore(b, fb, rest) && ReadsBefore(a, fa, after) && after == b + rest
    requires ReadFields(rest) == Some(fields)
    ensures ReadFields(a + after) == Some(fa + (fb + fields))
  {
  }

  lemma ReadsBoth(a: seq<byte>, fa: seq<Field>, b: seq<byte>, fb: seq<Field>)
    requires Reads(a, fa) && Reads(b, fb)
    ensures Reads(a + b, fa + fb)
  {
    forall rest ensures ReadsBefore(a + b, fa + fb, rest) {
      if ReadFields(rest).Some? {
        var after, fields := b + rest, ReadFields(rest).value;
        assert ReadsBefore(b, fb, rest) && ReadsBefore(a, fa, after);
        ReadsInTurn(a, fa, b, fb, rest, after, fields);
        Associative(a, b, rest);
        Associative(fa, fb, fields);
      }
    }
  }

  lemma ReadsAll(bytes: seq<byte>, fields: seq<Field>)
    requires Reads(bytes, fields)
    ensures ReadFields(bytes) == Some(fields)
  {
    NoFields();
    assert ReadsBefore(bytes, fields, []);
    assert bytes + [] == bytes && fields + [] == fields;
  }

  lemma ReadsOptional(number: nat, content: Option<seq<byte>>)
    requires 0 < number < 16 && (content.Some? ==> |content.value| < TWO32)
    ensures Reads(OptField(number, content), Optional(number, content))
  {
    if content.Some? { ReadsOne(number, content.value); } else { ReadsNothing(); }
  }

  lemma {:induction false} ReadsRecords(records: seq<seq<byte>>)
    requires |Records(records)| < TWO32
    ensures Reads(Records(records), RecordFields(records))
  {
    if records == [] {
      ReadsNothing();
    } else {
      var init, last := records[..|records| - 1], records[|records| - 1];
      ReadsRecords(init);
      ReadsOne(RECORD_FIELD, last);
      ReadsBoth(Records(init), RecordFields(init), LenField(RECORD_FIELD, last), [LenDelimited(RECORD_FIELD, last)]);
    }
  }

  function ScopeFields(f: Frame, records: seq<seq<byte>>): seq<Field> {
    Optional(1, f.scope) + RecordFields(records) + Optional(3, SchemaBytes(f.scopeSchema))
  }

  lemma ReadsThree(a: seq<byte>, fa: seq<Field>, b: seq<byte>, fb: seq<Field>, c: seq<byte>, fc: seq<Field>)
    requires Reads(a, fa) && Reads(b, fb) && Reads(c, fc)
    ensures ReadFields(a + b + c) == Some(fa + fb + fc)
  {
    ReadsBoth(a, fa, b, fb);
    ReadsBoth(a + b, fa + fb, c, fc);
    ReadsAll(a + b + c, fa + fb + fc);
  }

  lemma ReadsScope(f: Frame, records: seq<seq<byte>>)
    requires |Request(f, records)| < TWO32
    ensures ReadFields(ScopeMessage(f, records)) == Some(ScopeFields(f, records))
  {
    RequestParts(f, records);
    var schema := SchemaBytes(f.scopeSchema);
    ReadsOptional(1, f.scope);
    ReadsRecords(records);
    ReadsOptional(3, schema);
    ReadsThree(OptField(1, f.scope), Optional(1, f.scope), Records(records), RecordFields(records),
               OptField(3, schema), Optional(3, schema));
  }

  lemma ReadsResource(f: Frame, records: seq<seq<byte>>)
    requires |Request(f, records)| < TWO32
    ensures ReadFields(ResourceMessage(f, records))
         == Some(Optional(1, f.resource) + [LenDelimited(2, ScopeMessage(f, records))]
                 + Optional(3, SchemaBytes(f.resourceSchema)))
  {
    RequestParts(f, records);
    var m, schema := ScopeMessage(f, records), SchemaBytes(f.resourceSchema);
    ReadsOptional(1, f.resource);
    ReadsOne(2, m);
    ReadsOptional(3, schema);
    ReadsThree(OptField(1, f.resource), Optional(1, f.resource), LenField(2, m), [LenDelimited(2, m)],
               OptField(3, schema), Optional(3, schema));
  }

  /** Decoding a request gives back its resource and schema, and its scope, records and schema in order. */
  lemma DecodesBack(f: Frame, records: seq<seq<byte>>)
    requires |Request(f, records)| < TWO32
    ensures DecodeChunk(Request(f, records))
         == Some((Optional(1, f.resource) + Optional(3, SchemaBytes(f.resourceSchema)), ScopeFields(f, records)))
  {
    RequestParts(f, records);
    ReadLenField(1, ResourceMessage(f, records), []);
    OneField(Request(f, records), LenDelimited(1, ResourceMessage(f, records)));
    ReadsResource(f, records);
    ReadsScope(f, records);
    var fa, fc := Optional(1, f.resource), Optional(3, SchemaBytes(f.resourceSchema));
    var m := LenDelimited(2, ScopeMessage(f, records));
    ScopeAfter(fa, m, fc);
  }

  lemma ScopeAfter(fa: seq<Field>, m: Field, fc: seq<Field>)
    requires |fa| <= 1 && (forall i | 0 <= i < |fa| :: fa[i].number == 1) && m.LenDelimited? && m.number == 2
    ensures ScopeAt(fa + [m] + fc) == |fa|
    ensures (fa + [m] + fc)[|fa|] == m
    ensures (fa + [m] + fc)[..|fa|] + (fa + [m] + fc)[|fa| + 1..] == fa + fc
  {
    if |fa| == 1 { assert (fa + [m] + fc)[1..] == [m] + fc; }
  }

  // ---- Which records are sent ----

  /** How records are encoded, and how an oversized one is shrunk to a budget. */
  datatype Signal<!R(!new)> = Signal(encode: R -> seq<byte>, degrade: (R, int) -> Option<R>)

  /** The encoding a record is sent with, if it can be made to fit a chunk of its own. */
  function Sent<R(!new)>(r: R, sig: Signal<R>, base: nat, maxBytes: int): Option<seq<byte>> {
    if base + FieldSize(sig.encode(r)) <= maxBytes then Some(sig.encode(r))
    else
      var d := sig.degrade(r, maxBytes - base - 64);
      if d.Some? && base + FieldSize(sig.encode(d.value)) <= maxBytes then Some(sig.encode(d.value)) else None
  }

  function AllSent<R(!new)>(rs: seq<R>, sig: Signal<R>, base: nat, maxBytes: int): seq<seq<byte>> {
    if rs == [] then []
    else
      AllSent(rs[..|rs| - 1], sig, base, maxBytes)
      + match Sent(rs[|rs| - 1], sig, base, maxBytes)
        case None => []
        case Some(enc) => [enc]
  }

  function DroppedOf<R(!new)>(rs: seq<R>, sig: Signal<R>, base: nat, maxBytes: int): nat {
    if rs == [] then 0
    else DroppedOf(rs[..|rs| - 1], sig, base, maxBytes) + if Sent(rs[|rs| - 1], sig, base, maxBytes).None? then 1 else 0
  }

  lemma {:induction false} NothingLost<R(!new)>(rs: seq<R>, sig: Signal<R>, base: nat, maxBytes: int)
    ensures |AllSent(rs, sig, base, maxBytes)| + DroppedOf(rs, sig, base, maxBytes) == |rs|
  {
    if rs != [] { NothingLost(rs[..|rs| - 1], sig, base, maxBytes); }
  }

  /** Every encoding is a JavaScript array, shorter than 2^32; so is every request within the limit. */
  ghost predicate Encodable<R(!new)>(sig: Signal<R>, maxBytes: int) {
    maxBytes + 8 < TWO32 && forall r :: |sig.encode(r)| < TWO32
  }

  // ---- One scope ----

  function Requests(f: Frame, groups: seq<seq<seq<byte>>>): seq<seq<byte>> {
    if groups == [] then [] else Requests(f, groups[..|groups| - 1]) + [Request(f, groups[|groups| - 1])]
  }

  /** Where the greedy loop stands: closed groups, the open group, and what was sent so far. */
  ghost predicate Chunking(groups: seq<seq<seq<byte>>>, recs: seq<seq<byte>>, sent: seq<seq<byte>>, room: int) {
    && Flat(groups) + recs == sent && Fits(groups, FieldSize, room) && Greedy(groups, FieldSize, room)
    && Cost(recs, FieldSize) <= (if recs == [] then 0 else room)
    && (groups != [] ==> recs != [] && Full(groups[|groups| - 1], recs, FieldSize, room))
  }

  lemma CostAppend(recs: seq<seq<byte>>, r: seq<byte>)
    ensures Cost(recs + [r], FieldSize) == Cost(recs, FieldSize) + FieldSize(r)
  {
    assert (recs + [r])[..|recs|] == recs;
  }

  /** The record joins the open group. */
  lemma Joined(groups: seq<seq<seq<byte>>>, recs: seq<seq<byte>>, sent: seq<seq<byte>>, room: int, r: seq<byte>)
    requires Chunking(groups, recs, sent, room) && Cost(recs, FieldSize) + FieldSize(r) <= room
    ensures Chunking(groups, recs + [r], sent + [r], room)
  {
    CostAppend(recs, r);
    Associative(Flat(groups), recs, [r]);
    if groups != [] { assert (recs + [r])[0] == recs[0]; }
  }

  /** The open group is closed and the record opens the next one. */
  lemma Flushed(groups: seq<seq<seq<byte>>>, recs: seq<seq<byte>>, sent: seq<seq<byte>>, room: int, r: seq<byte>)
    requires Chunking(groups, recs, sent, room) && recs != [] && Cost(recs, FieldSize) + FieldSize(r) > room
    requires FieldSize(r) <= room
    ensures Chunking(groups + [recs], [r], sent + [r], room)
  {
    var groups' := groups + [recs];
    assert groups'[..|groups|] == groups;
    assert [r][..0] == [];
    forall i | 0 <= i < |groups'| - 1 ensures Full(groups'[i], groups'[i + 1], FieldSize, room) {
      if i < |groups| - 1 { assert Full(groups[i], groups[i + 1], FieldSize, room); }
    }
  }

  lemma Closed(groups: seq<seq<seq<byte>>>, recs: seq<seq<byte>>, sent: seq<seq<byte>>, room: int)
    requires Chunking(groups, recs, sent, room)
    ensures var all := if recs == [] then groups else groups + [recs];
            Flat(all) == sent && Fits(all, FieldSize, room) && Greedy(all, FieldSize, room)
  {
    if recs != [] {
      var all := groups + [recs];
      assert all[..|groups|] == groups;
      forall i | 0 <= i < |all| - 1 ensures Full(all[i], all[i + 1], FieldSize, room) {
        if i < |groups| - 1 { assert Full(groups[i], groups[i + 1], FieldSize, room); }
      }
    }
  }

  /** Emits the open group as one request. */
  method Flush(f: Frame, chunks0: seq<seq<byte>>, recs: seq<seq<byte>>, maxBytes: int)
    returns (chunks: seq<seq<byte>>)
    requires maxBytes + 8 < TWO32 && Base(f) + Cost(recs, FieldSize) <= maxBytes
    ensures chunks == if recs == [] then chunks0 else chunks0 + [Request(f, recs)]
  {
    chunks := chunks0;
    if recs == [] { return; }
    ChunkBound(f, recs, maxBytes);
    var request := BuildRequest(f, recs);
    chunks := chunks0 + [request];
  }

  /** The encoding a record is sent with: as it is, shrunk, or not at all. */
  method Prepare<R(!new)>(r: R, sig: Signal<R>, base: nat, maxBytes: int) returns (sent: Option<seq<byte>>, field: nat)
    requires Encodable(sig, maxBytes)
    ensures sent == Sent(r, sig, base, maxBytes)
    ensures sent.Some? ==> field == FieldSize(sent.value) && base + field <= maxBytes
  {
    var enc := sig.encode(r);
    field := RecordFieldSize(|enc|);
    if base + field > maxBytes {
      var degraded := sig.degrade(r, maxBytes - base - 64);
      if degraded.Some? {
        enc := sig.encode(degraded.value);
        field := RecordFieldSize(|enc|);
      }
      if degraded.None? || base + field > maxBytes { return None, field; }
    }
    sent := Some(enc);
  }

  predicate BaseIs(f: Frame, base: nat) { base == Base(f) }

  /** The loop's variables: the open group, its accounted size, and the chunks of the closed groups. */
  ghost predicate ScopeInv(f: Frame, groups: seq<seq<seq<byte>>>, recs: seq<seq<byte>>, sent: seq<seq<byte>>, base: nat,
                           maxBytes: int, size: nat, chunks0: seq<seq<byte>>, chunks: seq<seq<byte>>) {
    && BaseIs(f, base) && Chunking(groups, recs, sent, maxBytes - base)
    && size == base + Cost(recs, FieldSize) && chunks == chunks0 + Requests(f, groups)
  }

  /** Adds one record to the open group, after flushing it when the record would overflow it. */
  method AddRecord(f: Frame, recs0: seq<seq<byte>>, size0: nat, base: nat, maxBytes: int, chunks0: seq<seq<byte>>,
                   enc: seq<byte>, field: nat, ghost groups0: seq<seq<seq<byte>>>, ghost sent: seq<seq<byte>>,
                   ghost start: seq<seq<byte>>)
    returns (recs: seq<seq<byte>>, size: nat, chunks: seq<seq<byte>>, ghost groups: seq<seq<seq<byte>>>)
    requires maxBytes + 8 < TWO32 && field == FieldSize(enc) && base + field <= maxBytes
    requires ScopeInv(f, groups0, recs0, sent, base, maxBytes, size0, start, chunks0)
    ensures ScopeInv(f, groups, recs, sent + [enc], base, maxBytes, size, start, chunks)
  {
    recs, size, chunks, groups := recs0, size0, chunks0, groups0;
    if |recs| > 0 && size + field > maxBytes {
      chunks := Flush(f, chunks, recs, maxBytes);
      AddedFlushed(f, groups, recs, sent, base, maxBytes, size, start, chunks0, enc);
      groups := groups + [recs];
      recs, size := [], base;
      assert [] + [enc] == [enc];
    } else {
      AddedJoined(f, groups, recs, sent, base, maxBytes, size, start, chunks, enc);
    }
    recs, size := recs + [enc], size + field;
  }

  lemma AddedJoined(f: Frame, groups: seq<seq<seq<byte>>>, recs: seq<seq<byte>>, sent: seq<seq<byte>>, base: nat,
                    maxBytes: int,
                    size: nat, start: seq<seq<byte>>, chunks: seq<seq<byte>>, enc: seq<byte>)
    requires ScopeInv(f, groups, recs, sent, base, maxBytes, size, start, chunks) && size + FieldSize(enc) <= maxBytes
    ensures ScopeInv(f, groups, recs + [enc], sent + [enc], base, maxBytes, size + FieldSize(enc), start, chunks)
  {
    Joined(groups, recs, sent, maxBytes - base, enc);
    CostAppend(recs, enc);
  }

  lemma AddedFlushed(f: Frame, groups: seq<seq<seq<byte>>>, recs: seq<seq<byte>>, sent: seq<seq<byte>>, base: nat,
                     maxBytes: int,
                     size: nat, start: seq<seq<byte>>, chunks: seq<seq<byte>>, enc: seq<byte>)
    requires ScopeInv(f, groups, recs, sent, base, maxBytes, size, start, chunks) && recs != []
    requires size + FieldSize(enc) > maxBytes && base + FieldSize(enc) <= maxBytes
    ensures ScopeInv(f, groups + [recs], [enc], sent + [enc], base, maxBytes, base + FieldSize(enc), start,
                     chunks + [Request(f, recs)])
  {
    Flushed(groups, recs, sent, maxBytes - base, enc);
    RequestsAppend(f, groups, recs, start);
    CostOne(enc);
  }

  lemma CostOne(r: seq<byte>)
    ensures Cost([r], FieldSize) == FieldSize(r)
  {
    CostAppend([], r);
    assert [] + [r] == [r];
  }

  /** The chunks of one scope. `groups` is how its sent records were divided. */
  method ChunkScope<R(!new)>(f: Frame, rs: seq<R>, sig: Signal<R>, maxBytes: int, chunks0: seq<seq<byte>>,
                             dropped0: nat)
    returns (chunks: seq<seq<byte>>, dropped: nat, base: nat, ghost groups: seq<seq<seq<byte>>>)
    requires Encodable(sig, maxBytes) && Base(f) < TWO32
    ensures base == Base(f) && Flat(groups) == AllSent(rs, sig, base, maxBytes)
    ensures Fits(groups, FieldSize, maxBytes - base) && Greedy(groups, FieldSize, maxBytes - base)
    ensures chunks == chunks0 + Requests(f, groups)
    ensures dropped == dropped0 + DroppedOf(rs, sig, base, maxBytes)
  {
    var empty := BuildRequest(f, []);
    base := |empty|;
    chunks, dropped := chunks0, dropped0;
    var recs: seq<seq<byte>>, size: nat := [], base;
    groups := [];
    StartScope(f, base, maxBytes, chunks0);
    for i := 0 to |rs|
      invariant ScopeInv(f, groups, recs, AllSent(rs[..i], sig, base, maxBytes), base, maxBytes, size, chunks0, chunks)
      invariant dropped == dropped0 + DroppedOf(rs[..i], sig, base, maxBytes)
    {
      assert rs[..i + 1][..i] == rs[..i];
      var sent, field := Prepare(rs[i], sig, base, maxBytes);
      if sent.None? {
        dropped := dropped + 1;
        continue;
      }
      recs, size, chunks, groups := AddRecord(f, recs, size, base, maxBytes, chunks, sent.value, field, groups,
                                              AllSent(rs[..i], sig, base, maxBytes), chunks0);
    }
    assert rs[..|rs|] == rs;
    chunks, groups := EndScope(f, recs, chunks, base, maxBytes, size, groups, AllSent(rs, sig, base, maxBytes),
                               chunks0);
  }

  lemma StartScope(f: Frame, base: nat, maxBytes: int, chunks0: seq<seq<byte>>)
    requires base == Base(f)
    ensures ScopeInv(f, [], [], [], base, maxBytes, base, chunks0, chunks0)
  {
    assert chunks0 + [] == chunks0;
  }

  /** The last flush. */
  method EndScope(f: Frame, recs: seq<seq<byte>>, chunks0: seq<seq<byte>>, base: nat, maxBytes: int, ghost size: nat,
                  ghost groups0: seq<seq<seq<byte>>>, ghost sent: seq<seq<byte>>, ghost start: seq<seq<byte>>)
    returns (chunks: seq<seq<byte>>, ghost groups: seq<seq<seq<byte>>>)
    requires maxBytes + 8 < TWO32 && ScopeInv(f, groups0, recs, sent, base, maxBytes, size, start, chunks0)
    ensures Flat(groups) == sent && Fits(groups, FieldSize, maxBytes - base)
    ensures Greedy(groups, FieldSize, maxBytes - base)
    ensures chunks == start + Requests(f, groups)
  {
    chunks, groups := chunks0, groups0;
    Closed(groups, recs, sent, maxBytes - base);
    if recs != [] {
      RequestsAppend(f, groups, recs, start);
      chunks := Flush(f, chunks, recs, maxBytes);
      groups := groups + [recs];
    }
  }

  lemma RequestsAppend(f: Frame, groups: seq<seq<seq<byte>>>, recs: seq<seq<byte>>, chunks0: seq<seq<byte>>)
    ensures chunks0 + Requests(f, groups + [recs]) == (chunks0 + Requests(f, groups)) + [Request(f, recs)]
  {
    assert (groups + [recs])[..|groups|] == groups;
  }

  // ---- The whole batch ----

  datatype Scope<R(!new)> = Scope(scope: Option<seq<byte>>, schemaUrl: Option<string>, records: seq<R>)

  datatype Resource<R(!new)> = Resource(resource: Option<seq<byte>>, schemaUrl: Option<string>, scopes: seq<Scope<R>>)

  function FrameOf<R(!new)>(ri: Resource<R>, sc: Scope<R>): Frame {
    Frame(ri.resource, sc.scope, ri.schemaUrl, sc.schemaUrl)
  }

  /** One scope of the batch and how its sent records were divided. */
  datatype Part<R(!new)> = Part(frame: Frame, base: nat, records: seq<R>, groups: seq<seq<seq<byte>>>)

  ghost predicate PartOk<R(!new)>(p: Part<R>, sig: Signal<R>, maxBytes: int) {
    && Flat(p.groups) == AllSent(p.records, sig, p.base, maxBytes)
    && Fits(p.groups, FieldSize, maxBytes - p.base) && Greedy(p.groups, FieldSize, maxBytes - p.base)
  }

  function ChunksOf<R(!new)>(parts: seq<Part<R>>): seq<seq<byte>> {
    if parts == [] then []
    else ChunksOf(parts[..|parts| - 1]) + Requests(parts[|parts| - 1].frame, parts[|parts| - 1].groups)
  }

  function DroppedIn<R(!new)>(parts: seq<Part<R>>, sig: Signal<R>, maxBytes: int): nat {
    if parts == [] then 0
    else DroppedIn(parts[..|parts| - 1], sig, maxBytes)
         + DroppedOf(parts[|parts| - 1].records, sig, parts[|parts| - 1].base, maxBytes)
  }

  /** The scopes of a batch, in order, with their frames. */
  function ScopesOf<R(!new)>(items: seq<Resource<R>>): seq<(Frame, seq<R>)> {
    if items == [] then []
    else ScopesOf(items[..|items| - 1]) + ScopesIn(items[|items| - 1], |items[|items| - 1].scopes|)
  }

  function ScopesIn<R(!new)>(ri: Resource<R>, n: nat): seq<(Frame, seq<R>)>
    requires n <= |ri.scopes|
  {
    if n == 0 then [] else ScopesIn(ri, n - 1) + [(FrameOf(ri, ri.scopes[n - 1]), ri.scopes[n - 1].records)]
  }

  function Plan<R(!new)>(parts: seq<Part<R>>): seq<(Frame, seq<R>)> {
    if parts == [] then [] else Plan(parts[..|parts| - 1]) + [(parts[|parts| - 1].frame, parts[|parts| - 1].records)]
  }

  ghost predicate Chunked<R(!new)>(parts: seq<Part<R>>, sig: Signal<R>, maxBytes: int, chunks: seq<seq<byte>>,
                                   dropped: nat)
  {
    && (forall i | 0 <= i < |parts| :: PartOk(parts[i], sig, maxBytes) && BaseIs(parts[i].frame, parts[i].base))
    && chunks == ChunksOf(parts) && dropped == DroppedIn(parts, sig, maxBytes)
  }

  lemma ChunkedStep<R(!new)>(parts: seq<Part<R>>, sig: Signal<R>, maxBytes: int, chunks: seq<seq<byte>>, dropped: nat,
                             p: Part<R>)
    requires Chunked(parts, sig, maxBytes, chunks, dropped) && PartOk(p, sig, maxBytes) && BaseIs(p.frame, p.base)
    ensures Chunked(parts + [p], sig, maxBytes, chunks + Requests(p.frame, p.groups),
                    dropped + DroppedOf(p.records, sig, p.base, maxBytes))
    ensures Plan(parts + [p]) == Plan(parts) + [(p.frame, p.records)]
  {
    assert (parts + [p])[..|parts|] == parts;
  }

  ghost predicate SmallFrames<R(!new)>(ri: Resource<R>) {
    forall j | 0 <= j < |ri.scopes| :: SmallFrame(FrameOf(ri, ri.scopes[j]))
  }

  /** The empty request is a JavaScript array too. */
  predicate SmallFrame(f: Frame) { Base(f) < TWO32 }

  /** The scopes of one resource, in order. */
  method ChunkResource<R(!new)>(ri: Resource<R>, sig: Signal<R>, maxBytes: int, chunks0: seq<seq<byte>>, dropped0: nat,
                                ghost parts0: seq<Part<R>>)
    returns (chunks: seq<seq<byte>>, dropped: nat, ghost parts: seq<Part<R>>)
    requires Encodable(sig, maxBytes) && SmallFrames(ri) && Chunked(parts0, sig, maxBytes, chunks0, dropped0)
    ensures Plan(parts) == Plan(parts0) + ScopesIn(ri, |ri.scopes|)
    ensures Chunked(parts, sig, maxBytes, chunks, dropped)
  {
    chunks, dropped, parts := chunks0, dropped0, parts0;
    for j := 0 to |ri.scopes|
      invariant Plan(parts) == Plan(parts0) + ScopesIn(ri, j)
      invariant Chunked(parts, sig, maxBytes, chunks, dropped)
    {
      var f, rs := FrameOf(ri, ri.scopes[j]), ri.scopes[j].records;
      Associative(Plan(parts0), ScopesIn(ri, j), [(f, rs)]);
      chunks, dropped, parts := ChunkOne(f, rs, sig, maxBytes, chunks, dropped, parts);
    }
  }

  method ChunkOne<R(!new)>(f: Frame, rs: seq<R>, sig: Signal<R>, maxBytes: int, chunks0: seq<seq<byte>>, dropped0: nat,
                           ghost parts0: seq<Part<R>>)
    returns (chunks: seq<seq<byte>>, dropped: nat, ghost parts: seq<Part<R>>)
    requires Encodable(sig, maxBytes) && SmallFrame(f) && Chunked(parts0, sig, maxBytes, chunks0, dropped0)
    ensures Plan(parts) == Plan(parts0) + [(f, rs)]
    ensures Chunked(parts, sig, maxBytes, chunks, dropped)
  {
    var base;
    ghost var groups;
    chunks, dropped, base, groups := ChunkScope(f, rs, sig, maxBytes, chunks0, dropped0);
    ghost var p := Part(f, base, rs, groups);
    ChunkedStep(parts0, sig, maxBytes, chunks0, dropped0, p);
    parts := parts0 + [p];
  }

  /** Every scope of every resource in order, each divided into its own chunks. */
  method ChunkSignal<R(!new)>(items: seq<Resource<R>>, sig: Signal<R>, maxBytes: int)
    returns (chunks: seq<seq<byte>>, dropped: nat, ghost parts: seq<Part<R>>)
    requires Encodable(sig, maxBytes) && forall ri | ri in items :: SmallFrames(ri)
    ensures Plan(parts) == ScopesOf(items)
    ensures Chunked(parts, sig, maxBytes, chunks, dropped)
  {
    chunks, dropped, parts := [], 0, [];
    for i := 0 to |items|
      invariant Plan(parts) == ScopesOf(items[..i])
      invariant Chunked(parts, sig, maxBytes, chunks, dropped)
    {
      assert items[..i + 1][..i] == items[..i];
      chunks, dropped, parts := ChunkResource(items[i], sig, maxBytes, chunks, dropped, parts);
    }
    assert items[..|items|] == items;
  }

  // ---- What a batch's chunks amount to ----

  /** Every chunk is a request of one scope's records, within the size bound, and reads back as them. */
  lemma {:induction false} ChunksAreBounded<R(!new)>(f: Frame, groups: seq<seq<seq<byte>>>, maxBytes: int, k: nat)
    requires maxBytes + 8 < TWO32 && Fits(groups, FieldSize, maxBytes - Base(f)) && k < |groups|
    ensures |Requests(f, groups)| == |groups| && Requests(f, groups)[k] == Request(f, groups[k])
    ensures |Request(f, groups[k])| <= maxBytes + 8
    ensures maxBytes == 900_000 ==> |Request(f, groups[k])| <= 900_004
    ensures DecodeChunk(Request(f, groups[k]))
         == Some((Optional(1, f.resource) + Optional(3, SchemaBytes(f.resourceSchema)), ScopeFields(f, groups[k])))
  {
    RequestsAt(f, groups, k);
    ChunkBound(f, groups[k], maxBytes);
    DecodesBack(f, groups[k]);
  }

  lemma {:induction false} RequestsAt(f: Frame, groups: seq<seq<seq<byte>>>, k: nat)
    requires k < |groups|
    ensures |Requests(f, groups)| == |groups| && Requests(f, groups)[k] == Request(f, groups[k])
  {
    RequestsCount(f, groups[..|groups| - 1]);
    if k < |groups| - 1 { RequestsAt(f, groups[..|groups| - 1], k); }
  }

  lemma {:induction false} RequestsCount(f: Frame, groups: seq<seq<seq<byte>>>)
    ensures |Requests(f, groups)| == |groups|
  {
    if groups != [] { RequestsCount(f, groups[..|groups| - 1]); }
  }

  /** Records sent plus records dropped are the records of the scope; and no other in-order division of the
      sent records into fitting groups has fewer chunks. */
  lemma ScopeIsOptimal<R(!new)>(p: Part<R>, sig: Signal<R>, maxBytes: int, other: seq<seq<seq<byte>>>)
    requires PartOk(p, sig, maxBytes)
    ensures |Flat(p.groups)| + DroppedOf(p.records, sig, p.base, maxBytes) == |p.records|
    ensures Flat(other) == Flat(p.groups) && Fits(other, FieldSize, maxBytes - p.base) ==> |p.groups| <= |other|
  {
    NothingLost(p.records, sig, p.base, maxBytes);
    if Flat(other) == Flat(p.groups) && Fits(other, FieldSize, maxBytes - p.base) {
      GreedyIsMinimal(p.groups, other, FieldSize, maxBytes - p.base);
    }
  }
}
