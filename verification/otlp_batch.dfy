/** What a collector reads from the chunks of a batch, in terms of the batch. */
module OtlpBatch {
  import opened Wrappers
  import opened Utf8Text
  import opened OtlpWire
  import opened GreedyPartition
  import opened OtlpChunks

  // ---- What is sent of a scope ----

  /** The record fits a chunk of its own. */
  predicate FitsAlone(base: nat, encoded: seq<byte>, maxBytes: int) { base + |LenField(2, encoded)| <= maxBytes }

  /** A record that fits alone is sent as it is encoded, one that does not is sent shrunk to the room less 64 bytes,
      and one is dropped exactly when neither fits. */
  lemma SentWhen<R(!new)>(r: R, sig: Signal<R>, base: nat, maxBytes: int)
    ensures var whole, shrunk := sig.encode(r), sig.degrade(r, maxBytes - base - 64);
            var smaller := shrunk.Some? && FitsAlone(base, sig.encode(shrunk.value), maxBytes);
            && (FitsAlone(base, whole, maxBytes) ==> Sent(r, sig, base, maxBytes) == Some(whole))
            && (!FitsAlone(base, whole, maxBytes) && smaller ==>
                  Sent(r, sig, base, maxBytes) == Some(sig.encode(shrunk.value)))
            && (Sent(r, sig, base, maxBytes).None? <==> !FitsAlone(base, whole, maxBytes) && !smaller)
  {
    LenFieldSize(2, sig.encode(r));
    var shrunk := sig.degrade(r, maxBytes - base - 64);
    if shrunk.Some? { LenFieldSize(2, sig.encode(shrunk.value)); }
  }

  /** The numbers of the records that are sent. */
  function Kept<R(!new)>(rs: seq<R>, sig: Signal<R>, base: nat, maxBytes: int): seq<nat> {
    if rs == [] then []
    else
      var n := |rs| - 1;
      Kept(rs[..n], sig, base, maxBytes) + if Sent(rs[n], sig, base, maxBytes).Some? then [n] else []
  }

  /** These are the numbers of the records that are sent, ascending, and their encodings. */
  ghost predicate InOrder<R(!new)>(rs: seq<R>, sig: Signal<R>, base: nat, maxBytes: int, kept: seq<nat>,
                                   sent: seq<seq<byte>>) {
    && (forall n | 0 <= n < |rs| :: n in kept <==> Sent(rs[n], sig, base, maxBytes).Some?)
    && (forall a, b | 0 <= a < b < |kept| :: kept[a] < kept[b])
    && |sent| == |kept|
    && forall k | 0 <= k < |kept| :: kept[k] < |rs| && Some(sent[k]) == Sent(rs[kept[k]], sig, base, maxBytes)
  }

  lemma OneMoreSent<R(!new)>(rs: seq<R>, r: R, sig: Signal<R>, base: nat, maxBytes: int, kept: seq<nat>,
                             sent: seq<seq<byte>>)
    requires InOrder(rs, sig, base, maxBytes, kept, sent)
    ensures match Sent(r, sig, base, maxBytes)
            case None => InOrder(rs + [r], sig, base, maxBytes, kept, sent)
            case Some(enc) => InOrder(rs + [r], sig, base, maxBytes, kept + [|rs|], sent + [enc])
  {
    assert forall k | 0 <= k < |kept| :: kept[k] != |rs|;
    assert |rs| !in kept;
  }

  /** The records that are not dropped are sent in order, each once. */
  lemma {:induction false} SentInOrder<R(!new)>(rs: seq<R>, sig: Signal<R>, base: nat, maxBytes: int)
    ensures InOrder(rs, sig, base, maxBytes, Kept(rs, sig, base, maxBytes), AllSent(rs, sig, base, maxBytes))
  {
    if rs != [] {
      var init, last := rs[..|rs| - 1], rs[|rs| - 1];
      SentInOrder(init, sig, base, maxBytes);
      OneMoreSent(init, last, sig, base, maxBytes, Kept(init, sig, base, maxBytes), AllSent(init, sig, base, maxBytes));
      assert rs == init + [last];
    }
  }

  // ---- What one chunk reads as ----

  /** A schema URL that is there and not empty. */
  predicate HasUrl(url: Option<string>) { url.Some? && |url.value| > 0 }

  /** The resource's own fields: the resource, and its schema URL. */
  function ResourceSide<R(!new)>(ri: Resource<R>): seq<Field> {
    (match ri.resource case Some(bytes) => [LenDelimited(1, bytes)] case None => [])
    + if HasUrl(ri.schemaUrl) then [LenDelimited(3, Utf8(ri.schemaUrl.value))] else []
  }

  /** The scope's fields: the scope, the records in order, and its schema URL. */
  function ScopeSide<R(!new)>(sc: Scope<R>, records: seq<seq<byte>>): seq<Field> {
    (match sc.scope case Some(bytes) => [LenDelimited(1, bytes)] case None => [])
    + seq(|records|, k requires 0 <= k < |records| => LenDelimited(2, records[k]))
    + if HasUrl(sc.schemaUrl) then [LenDelimited(3, Utf8(sc.schemaUrl.value))] else []
  }

  ghost predicate ReadsAs<R(!new)>(chunk: seq<byte>, ri: Resource<R>, sc: Scope<R>, records: seq<seq<byte>>) {
    DecodeChunk(chunk) == Some((ResourceSide(ri), ScopeSide(sc, records)))
  }

  lemma {:induction false} RecordFieldsAre(records: seq<seq<byte>>)
    ensures RecordFields(records) == seq(|records|, k requires 0 <= k < |records| => LenDelimited(2, records[k]))
  {
    if records != [] { RecordFieldsAre(records[..|records| - 1]); }
  }

  lemma RequestReadsAs<R(!new)>(ri: Resource<R>, sc: Scope<R>, records: seq<seq<byte>>)
    requires |Request(FrameOf(ri, sc), records)| < TWO32
    ensures ReadsAs(Request(FrameOf(ri, sc), records), ri, sc, records)
  {
    DecodesBack(FrameOf(ri, sc), records);
    RecordFieldsAre(records);
  }

  // ---- The scopes of a batch ----

  /** Resource i's scope j. */
  datatype At = At(i: nat, j: nat)

  predicate Within<R(!new)>(items: seq<Resource<R>>, at: At) { at.i < |items| && at.j < |items[at.i].scopes| }

  function ResourceOf<R(!new)>(items: seq<Resource<R>>, at: At): Resource<R>
    requires Within(items, at)
  {
    items[at.i]
  }

  function ScopeOf<R(!new)>(items: seq<Resource<R>>, at: At): Scope<R>
    requires Within(items, at)
  {
    items[at.i].scopes[at.j]
  }

  /** The first n scopes of resource i. */
  function Row(i: nat, n: nat): seq<At> { seq(n, j requires 0 <= j < n => At(i, j)) }

  /** All scopes, resource by resource. */
  function Places<R(!new)>(items: seq<Resource<R>>): seq<At> {
    if items == [] then [] else Places(items[..|items| - 1]) + Row(|items| - 1, |items[|items| - 1].scopes|)
  }

  predicate Ascend(ps: seq<At>) {
    forall a, b | 0 <= a < b < |ps| :: ps[a].i < ps[b].i || (ps[a].i == ps[b].i && ps[a].j < ps[b].j)
  }

  lemma PlacesAscend(ps: seq<At>, i: nat, n: nat)
    requires Ascend(ps) && forall a | 0 <= a < |ps| :: ps[a].i < i
    ensures Ascend(ps + Row(i, n))
  {
  }

  /** Every scope has exactly one place, and places ascend. */
  lemma {:induction false} PlacesAreAll<R(!new)>(items: seq<Resource<R>>)
    ensures forall at :: at in Places(items) <==> Within(items, at)
    ensures Ascend(Places(items))
  {
    if items != [] {
      var init, n := items[..|items| - 1], |items| - 1;
      PlacesAreAll(init);
      forall at ensures at in Places(items) <==> Within(items, at) {
        if at.i == n && Within(items, at) { assert Row(n, |items[n].scopes|)[at.j] == at; }
        if at.i < n { assert Within(items, at) <==> Within(init, at); }
      }
      var ps := Places(init);
      forall a | 0 <= a < |ps| ensures ps[a].i < n {
        assert ps[a] in ps;
        assert Within(init, ps[a]);
      }
      PlacesAscend(ps, n, |items[n].scopes|);
    }
  }

  lemma ScopesInRow<R(!new)>(ri: Resource<R>, n: nat)
    requires n <= |ri.scopes|
    ensures |ScopesIn(ri, n)| == n
    ensures forall j | 0 <= j < n :: ScopesIn(ri, n)[j] == (FrameOf(ri, ri.scopes[j]), ri.scopes[j].records)
  {
    if n > 0 { ScopesInRow(ri, n - 1); }
  }

  /** The scopes are chunked in this order. */
  lemma {:induction false} ScopesAtPlaces<R(!new)>(items: seq<Resource<R>>, q: nat)
    ensures |ScopesOf(items)| == |Places(items)|
    ensures q < |Places(items)| ==>
      Within(items, Places(items)[q])
      && var ri, sc := ResourceOf(items, Places(items)[q]), ScopeOf(items, Places(items)[q]);
         ScopesOf(items)[q] == (FrameOf(ri, sc), sc.records)
  {
    if items != [] {
      var init, ri := items[..|items| - 1], items[|items| - 1];
      ScopesAtPlaces(init, q);
      ScopesInRow(ri, |ri.scopes|);
      if q < |Places(init)| { assert Within(init, Places(init)[q]); }
    }
  }

  // ---- The chunks of a batch ----

  /** How many chunks come before those of part q. */
  function First<R(!new)>(parts: seq<Part<R>>, q: nat): nat
    requires q <= |parts|
  {
    |ChunksOf(parts[..q])|
  }

  lemma FirstStep<R(!new)>(parts: seq<Part<R>>, q: nat)
    requires q < |parts|
    ensures First(parts, q + 1) == First(parts, q) + |parts[q].groups|
    ensures ChunksOf(parts[..q + 1]) == ChunksOf(parts[..q]) + Requests(parts[q].frame, parts[q].groups)
  {
    assert parts[..q + 1][..q] == parts[..q];
    RequestsCount(parts[q].frame, parts[q].groups);
  }

  lemma {:induction false} ChunksPrefix<R(!new)>(parts: seq<Part<R>>, q: nat)
    requires q <= |parts|
    ensures ChunksOf(parts[..q]) <= ChunksOf(parts)
    decreases |parts| - q
  {
    if q == |parts| {
      assert parts[..q] == parts;
    } else {
      FirstStep(parts, q);
      ChunksPrefix(parts, q + 1);
    }
  }

  lemma ChunkOfPart<R(!new)>(parts: seq<Part<R>>, q: nat, k: nat)
    requires q < |parts| && k < |parts[q].groups|
    ensures First(parts, q) + k < |ChunksOf(parts)|
    ensures ChunksOf(parts)[First(parts, q) + k] == Request(parts[q].frame, parts[q].groups[k])
  {
    var before, own := ChunksOf(parts[..q]), Requests(parts[q].frame, parts[q].groups);
    FirstStep(parts, q);
    ChunksPrefix(parts, q + 1);
    RequestsAt(parts[q].frame, parts[q].groups, k);
    InPrefix(before, own, ChunksOf(parts), k);
  }

  lemma InPrefix<T>(a: seq<T>, b: seq<T>, all: seq<T>, k: nat)
    requires a + b <= all && k < |b|
    ensures |a| + k < |all| && all[|a| + k] == b[k]
  {
    assert all[|a| + k] == (a + b)[|a| + k];
  }

  /** Every chunk is one of some part's. */
  lemma {:induction false} ChunkHasPart<R(!new)>(parts: seq<Part<R>>, n: nat, c: nat) returns (q: nat, k: nat)
    requires n <= |parts| && c < First(parts, n)
    ensures q < n && k < |parts[q].groups| && c == First(parts, q) + k
  {
    assert First(parts, 0) == 0 by { assert parts[..0] == []; }
    var m := n - 1;
    FirstStep(parts, m);
    if c < First(parts, m) {
      q, k := ChunkHasPart(parts, m, c);
    } else {
      q, k := m, c - First(parts, m);
    }
  }

  lemma {:induction false} PlanAt<R(!new)>(parts: seq<Part<R>>, q: nat)
    ensures |Plan(parts)| == |parts|
    ensures q < |parts| ==> Plan(parts)[q] == (parts[q].frame, parts[q].records)
  {
    if parts != [] { PlanAt(parts[..|parts| - 1], q); }
  }

  /** Part q is the q-th scope of the batch: its sent records divided in order, each group a chunk that reads as that
      resource and that scope with those records. */
  lemma PartReadsBack<R(!new)>(items: seq<Resource<R>>, sig: Signal<R>, maxBytes: int, chunks: seq<seq<byte>>,
                               dropped: nat, parts: seq<Part<R>>, q: nat)
    requires maxBytes + 8 < TWO32 && Plan(parts) == ScopesOf(items) && Chunked(parts, sig, maxBytes, chunks, dropped)
    ensures |parts| == |Places(items)|
    ensures q < |parts| ==>
      && Within(items, Places(items)[q])
      && var ri, sc, p := ResourceOf(items, Places(items)[q]), ScopeOf(items, Places(items)[q]), parts[q];
         && Flat(p.groups) == AllSent(sc.records, sig, p.base, maxBytes)
         && forall k | 0 <= k < |p.groups| ::
              First(parts, q) + k < |chunks| && ReadsAs(chunks[First(parts, q) + k], ri, sc, p.groups[k])
  {
    PlanAt(parts, q);
    ScopesAtPlaces(items, q);
    if q < |parts| {
      var ri, sc, p := ResourceOf(items, Places(items)[q]), ScopeOf(items, Places(items)[q]), parts[q];
      assert PartOk(p, sig, maxBytes) && BaseIs(p.frame, p.base);
      forall k | 0 <= k < |p.groups|
        ensures First(parts, q) + k < |chunks| && ReadsAs(chunks[First(parts, q) + k], ri, sc, p.groups[k])
      {
        ChunkOfPart(parts, q, k);
        ChunkBound(p.frame, p.groups[k], maxBytes);
        RequestReadsAs(ri, sc, p.groups[k]);
      }
    }
  }

  /** Every chunk of a batch reads as one resource and one of its scopes with a group of that scope's records. */
  lemma EveryChunkReadsBack<R(!new)>(items: seq<Resource<R>>, sig: Signal<R>, maxBytes: int, chunks: seq<seq<byte>>,
                                     dropped: nat, parts: seq<Part<R>>, c: nat)
    requires maxBytes + 8 < TWO32 && Plan(parts) == ScopesOf(items) && Chunked(parts, sig, maxBytes, chunks, dropped)
    requires c < |chunks|
    ensures exists at, records ::
      Within(items, at) && ReadsAs(chunks[c], ResourceOf(items, at), ScopeOf(items, at), records)
  {
    assert parts[..|parts|] == parts;
    var q, k := ChunkHasPart(parts, |parts|, c);
    PartReadsBack(items, sig, maxBytes, chunks, dropped, parts, q);
    var at := Places(items)[q];
    assert ReadsAs(chunks[c], ResourceOf(items, at), ScopeOf(items, at), parts[q].groups[k]);
  }

  function RecordsIn<R(!new)>(parts: seq<Part<R>>): nat {
    if parts == [] then 0 else RecordsIn(parts[..|parts| - 1]) + |parts[|parts| - 1].records|
  }

  function SentIn<R(!new)>(parts: seq<Part<R>>): nat {
    if parts == [] then 0 else SentIn(parts[..|parts| - 1]) + |Flat(parts[|parts| - 1].groups)|
  }

  lemma {:induction false} PartsLoseNothing<R(!new)>(sig: Signal<R>, maxBytes: int, parts: seq<Part<R>>)
    requires forall i | 0 <= i < |parts| :: PartOk(parts[i], sig, maxBytes)
    ensures SentIn(parts) + DroppedIn(parts, sig, maxBytes) == RecordsIn(parts)
  {
    if parts != [] {
      PartsLoseNothing(sig, maxBytes, parts[..|parts| - 1]);
      PartLosesNothing(sig, maxBytes, parts[|parts| - 1]);
    }
  }

  lemma PartLosesNothing<R(!new)>(sig: Signal<R>, maxBytes: int, p: Part<R>)
    requires PartOk(p, sig, maxBytes)
    ensures |Flat(p.groups)| + DroppedOf(p.records, sig, p.base, maxBytes) == |p.records|
  {
    NothingLost(p.records, sig, p.base, maxBytes);
  }

  /** Over the whole batch, every record is sent or counted as dropped. */
  lemma NothingLostInBatch<R(!new)>(sig: Signal<R>, maxBytes: int, chunks: seq<seq<byte>>, dropped: nat,
                                    parts: seq<Part<R>>)
    requires Chunked(parts, sig, maxBytes, chunks, dropped)
    ensures SentIn(parts) + dropped == RecordsIn(parts)
  {
    PartsLoseNothing(sig, maxBytes, parts);
  }
}
