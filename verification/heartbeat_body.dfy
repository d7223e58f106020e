/** Packing a page of events into one bounded heartbeat body. */
module HeartbeatBody {
  import opened Wrappers
  import opened JsonText
  import opened Utf8Text
  import opened EventRows
  import opened EventQueue

  const HEARTBEAT_MAX_BYTES: nat := 256 * 1024

  // ---- Encoding ----

  /** An event as json.dumps writes it: the fields in order, `store` only when there is one. */
  function Dumps(k: Key, count: int): string {
    BeforeCount(k) + Decimal(count) + AfterCount(k)
  }

  function BeforeCount(k: Key): string {
    "{\"level\": " + Quote(k.level) + ", \"code\": " + Quote(k.code) + ", \"message\": " + Quote(k.message)
    + ", \"count\": "
  }

  function AfterCount(k: Key): string {
    (if k.store.Some? then ", \"store\": " + Quote(k.store.value) else "") + "}"
  }

  const SEPARATOR: string := [',', ' ']

  function Join(es: seq<Row>): string {
    if es == [] then []
    else
      var e := es[|es| - 1];
      Join(es[..|es| - 1]) + (if |es| > 1 then SEPARATOR else []) + Dumps(e.key, e.count)
  }

  /** The request body: the envelope up to the events, and the events. */
  function Body(envelope: string, es: seq<Row>): string {
    envelope + ['['] + Join(es) + [']', '}']
  }

  lemma LabelsAreAscii()
    ensures Ascii("{\"level\": ") && Ascii(", \"code\": ") && Ascii(", \"message\": ") && Ascii(", \"count\": ")
    ensures Ascii(", \"store\": ") && Ascii("}") && Ascii("")
  {
  }

  lemma FourFields(a: string, q: string, b: string, r: string, c: string, s: string, d: string)
    requires Ascii(a) && Ascii(q) && Ascii(b) && Ascii(r) && Ascii(c) && Ascii(s) && Ascii(d)
    ensures Ascii(a + q + b + r + c + s + d)
  {
    AsciiJoin(a, q);
    AsciiJoin(a + q, b);
    AsciiJoin(a + q + b, r);
    AsciiJoin(a + q + b + r, c);
    AsciiJoin(a + q + b + r + c, s);
    AsciiJoin(a + q + b + r + c + s, d);
  }

  lemma BeforeCountIsAscii(k: Key)
    ensures Ascii(BeforeCount(k))
  {
    LabelsAreAscii();
    QuoteIsAscii(k.level);
    QuoteIsAscii(k.code);
    QuoteIsAscii(k.message);
    FourFields("{\"level\": ", Quote(k.level), ", \"code\": ", Quote(k.code), ", \"message\": ", Quote(k.message),
               ", \"count\": ");
  }

  lemma AfterCountIsAscii(k: Key)
    ensures Ascii(AfterCount(k))
  {
    LabelsAreAscii();
    if k.store.Some? {
      QuoteIsAscii(k.store.value);
      AsciiJoin(", \"store\": ", Quote(k.store.value));
      AsciiJoin(", \"store\": " + Quote(k.store.value), "}");
    }
  }

  lemma DumpsIsAscii(k: Key, count: int)
    ensures Ascii(Dumps(k, count))
  {
    BeforeCountIsAscii(k);
    AfterCountIsAscii(k);
    DecimalIsAscii(count);
    AsciiJoin(BeforeCount(k), Decimal(count));
    AsciiJoin(BeforeCount(k) + Decimal(count), AfterCount(k));
  }

  lemma {:induction false} JoinIsAscii(es: seq<Row>)
    ensures Ascii(Join(es))
  {
    if es != [] {
      var init, e := Join(es[..|es| - 1]), es[|es| - 1];
      var separator := if |es| > 1 then SEPARATOR else [];
      JoinIsAscii(es[..|es| - 1]);
      DumpsIsAscii(e.key, e.count);
      AsciiJoin(init, separator);
      AsciiJoin(init + separator, Dumps(e.key, e.count));
    }
  }

  /** What is posted: within the limit, and with an ASCII envelope the limit is one on bytes. */
  ghost predicate Bounded(envelope: string, body: string) {
    |body| <= 262_144 && (Ascii(envelope) ==> Ascii(body) && |Utf8(body)| <= 262_144)
  }

  lemma BodyIsBounded(envelope: string, es: seq<Row>)
    requires |Body(envelope, es)| <= HEARTBEAT_MAX_BYTES
    ensures Bounded(envelope, Body(envelope, es))
  {
    JoinIsAscii(es);
    if Ascii(envelope) {
      AsciiJoin(envelope, ['[']);
      AsciiJoin(envelope + ['['], Join(es));
      AsciiJoin(envelope + ['['] + Join(es), [']', '}']);
      AsciiBytes(Body(envelope, es));
    }
  }

  lemma BodySize(envelope: string, es: seq<Row>)
    ensures |Body(envelope, es)| == |Body(envelope, [])| + |Join(es)|
  {
  }

  /** The room kept for an event whatever its group's count becomes. */
  function Reserve(k: Key, bound: int): nat { |Dumps(k, -bound)| }

  function Reserver(bound: int): Key -> nat {
    k => Reserve(k, bound)
  }

  function Reserved(es: seq<Row>, reserve: Key -> nat): nat {
    if es == [] then 0
    else Reserved(es[..|es| - 1], reserve) + (if |es| > 1 then 2 else 0) + reserve(es[|es| - 1].key)
  }

  lemma ReserveCovers(k: Key, count: int, bound: nat)
    requires Abs(count) <= bound
    ensures |Dumps(k, count)| <= Reserve(k, bound)
  {
    ReservedDecimal(count, bound);
  }

  lemma ReserveGrows(k: Key, a: int, b: int)
    requires 0 <= a <= b
    ensures Reserve(k, a) <= Reserve(k, b)
  {
    ReserveCovers(k, -a, b);
  }

  lemma {:induction false} ReservedCovers(es: seq<Row>, bound: nat)
    requires forall i | 0 <= i < |es| :: Abs(es[i].count) <= bound
    ensures |Join(es)| <= Reserved(es, Reserver(bound))
  {
    if es != [] {
      ReservedCovers(es[..|es| - 1], bound);
      ReserveCovers(es[|es| - 1].key, es[|es| - 1].count, bound);
      assert |SEPARATOR| == 2;
    }
  }

  // ---- Grouping ----

  predicate HasKey(es: seq<Row>, k: Key) {
    exists i :: 0 <= i < |es| && es[i].key == k
  }

  /** grouped[key]["count"] += count. */
  function AddCount(es: seq<Row>, k: Key, count: int): seq<Row> {
    if es == [] then []
    else
      var e := es[|es| - 1];
      AddCount(es[..|es| - 1], k, count) + [if e.key == k then e.(count := e.count + count) else e]
  }

  lemma {:induction false} AddCountKeys(es: seq<Row>, k: Key, count: int)
    ensures |AddCount(es, k, count)| == |es|
    ensures forall i | 0 <= i < |es| :: AddCount(es, k, count)[i].key == es[i].key
  {
    if es != [] { AddCountKeys(es[..|es| - 1], k, count); }
  }

  lemma {:induction false} AddCountReserves(es: seq<Row>, k: Key, count: int, reserve: Key -> nat)
    ensures Reserved(AddCount(es, k, count), reserve) == Reserved(es, reserve)
  {
    if es != [] {
      var init := AddCount(es[..|es| - 1], k, count);
      AddCountReserves(es[..|es| - 1], k, count, reserve);
      AddCountKeys(es, k, count);
      assert AddCount(es, k, count)[..|es| - 1] == init by { AddCountKeys(es[..|es| - 1], k, count); }
    }
  }

  lemma {:induction false} AddCountAbsent(es: seq<Row>, k: Key, count: int)
    requires !HasKey(es, k)
    ensures AddCount(es, k, count) == es
  {
    if es != [] {
      assert !HasKey(es[..|es| - 1], k);
      AddCountAbsent(es[..|es| - 1], k, count);
    }
  }

  lemma {:induction false} AddCountSums(es: seq<Row>, k: Key, count: int, key: Key)
    requires DistinctKeys(es) && HasKey(es, k)
    ensures SumOf(AddCount(es, k, count), key) == SumOf(es, key) + if key == k then count else 0
  {
    var init, last := es[..|es| - 1], es[|es| - 1];
    var added := AddCount(init, k, count);
    var last' := if last.key == k then last.(count := last.count + count) else last;
    assert AddCount(es, k, count) == added + [last'];
    assert (added + [last'])[..|added|] == added;
    if last.key == k {
      assert !HasKey(init, k);
      AddCountAbsent(init, k, count);
    } else {
      var i :| 0 <= i < |es| && es[i].key == k;
      assert init[i].key == k;
      AddCountSums(init, k, count, key);
    }
  }

  /** The groups carry exactly what the acknowledged rows carry. */
  ghost predicate Grouped(groups: seq<Row>, acked: seq<Row>) {
    DistinctKeys(groups) && forall key :: SumOf(groups, key) == SumOf(acked, key)
  }

  lemma GroupedAdd(groups: seq<Row>, acked: seq<Row>, r: Row)
    requires Grouped(groups, acked) && HasKey(groups, r.key)
    ensures Grouped(AddCount(groups, r.key, r.count), acked + [r])
  {
    AddCountKeys(groups, r.key, r.count);
    forall key ensures SumOf(AddCount(groups, r.key, r.count), key) == SumOf(acked + [r], key) {
      AddCountSums(groups, r.key, r.count, key);
      assert (acked + [r])[..|acked|] == acked;
      assert SumOf(groups, key) == SumOf(acked, key);
    }
  }

  lemma GroupedNew(groups: seq<Row>, acked: seq<Row>, r: Row)
    requires Grouped(groups, acked) && !HasKey(groups, r.key)
    ensures Grouped(groups + [r], acked + [r])
  {
    forall key ensures SumOf(groups + [r], key) == SumOf(acked + [r], key) {
      assert (acked + [r])[..|acked|] == acked && (groups + [r])[..|groups|] == groups;
      assert SumOf(groups, key) == SumOf(acked, key);
    }
  }

  /** Every group's count stays within the absolute total of the page. */
  lemma GroupsBounded(groups: seq<Row>, acked: seq<Row>, bound: nat)
    requires Grouped(groups, acked) && TotalAbs(acked) <= bound
    ensures forall i | 0 <= i < |groups| :: Abs(groups[i].count) <= bound
  {
    forall i | 0 <= i < |groups| ensures Abs(groups[i].count) <= bound {
      SumOfOne(groups, i);
      SumWithinAbs(acked, groups[i].key);
    }
  }

  // ---- Packing ----

  predicate Oversized(r: Row, reserve: Key -> nat, baseSize: nat) {
    baseSize + reserve(r.key) > HEARTBEAT_MAX_BYTES
  }

  /** The rows of a page that are not oversized. */
  function Sendable(page: seq<Row>, reserve: Key -> nat, baseSize: nat): seq<Row> {
    if page == [] then []
    else
      Sendable(page[..|page| - 1], reserve, baseSize)
      + if Oversized(page[|page| - 1], reserve, baseSize) then [] else [page[|page| - 1]]
  }

  predicate AnyOversized(page: seq<Row>, reserve: Key -> nat, baseSize: nat) {
    && page != []
    && (AnyOversized(page[..|page| - 1], reserve, baseSize) || Oversized(page[|page| - 1], reserve, baseSize))
  }

  function IdsOf(rows: seq<Row>): seq<int> {
    seq(|rows|, i requires 0 <= i < |rows| => rows[i].id)
  }

  lemma IdsAppend(rows: seq<Row>, r: Row)
    ensures IdsOf(rows + [r]) == IdsOf(rows) + [r.id]
  {
  }

  /** Where packing stands after n rows of the page. */
  ghost predicate Packing(page: seq<Row>, n: nat, reserve: Key -> nat, baseSize: nat, groups: seq<Row>, acked: seq<Row>,
                          size: nat)
  {
    && n <= |page| && |groups| <= n && acked == Sendable(page[..n], reserve, baseSize)
    && Grouped(groups, acked) && TotalAbs(acked) <= TotalAbs(page[..n])
    && (forall k :: HasKey(groups, k) ==> baseSize + reserve(k) <= HEARTBEAT_MAX_BYTES)
    && size == baseSize + Reserved(groups, reserve) <= HEARTBEAT_MAX_BYTES
  }

  lemma SendableStep(page: seq<Row>, n: nat, reserve: Key -> nat, baseSize: nat)
    requires n < |page|
    ensures Sendable(page[..n + 1], reserve, baseSize)
         == Sendable(page[..n], reserve, baseSize) + if Oversized(page[n], reserve, baseSize) then [] else [page[n]]
    ensures TotalAbs(page[..n + 1]) == TotalAbs(page[..n]) + Abs(page[n].count)
  {
    assert page[..n + 1][..n] == page[..n];
  }

  lemma TotalAbsAppend(rows: seq<Row>, r: Row)
    ensures TotalAbs(rows + [r]) == TotalAbs(rows) + Abs(r.count)
  {
    assert (rows + [r])[..|rows|] == rows;
  }

  lemma ReservedAppend(groups: seq<Row>, r: Row, reserve: Key -> nat)
    ensures Reserved(groups + [r], reserve)
         == Reserved(groups, reserve) + (if groups != [] then 2 else 0) + reserve(r.key)
  {
    assert (groups + [r])[..|groups|] == groups;
  }

  lemma HasKeyAppend(groups: seq<Row>, r: Row, k: Key)
    ensures HasKey(groups + [r], k) <==> HasKey(groups, k) || k == r.key
  {
    if HasKey(groups, k) {
      var i :| 0 <= i < |groups| && groups[i].key == k;
      assert (groups + [r])[i].key == k;
    }
    assert (groups + [r])[|groups|].key == r.key;
  }

  lemma PackedAgain(page: seq<Row>, n: nat, reserve: Key -> nat, baseSize: nat, groups: seq<Row>, acked: seq<Row>,
                    size: nat)
    requires Packing(page, n, reserve, baseSize, groups, acked, size) && n < |page| && HasKey(groups, page[n].key)
    ensures Packing(page, n + 1, reserve, baseSize, AddCount(groups, page[n].key, page[n].count), acked + [page[n]],
                    size)
  {
    var r := page[n];
    SendableStep(page, n, reserve, baseSize);
    GroupedAdd(groups, acked, r);
    TotalAbsAppend(acked, r);
    AddCountReserves(groups, r.key, r.count, reserve);
    AddCountKeys(groups, r.key, r.count);
    forall k | HasKey(AddCount(groups, r.key, r.count), k) ensures HasKey(groups, k) {
      var i :| 0 <= i < |groups| && AddCount(groups, r.key, r.count)[i].key == k;
      assert groups[i].key == k;
    }
  }

  lemma PackedNew(page: seq<Row>, n: nat, reserve: Key -> nat, baseSize: nat, groups: seq<Row>, acked: seq<Row>,
                  size: nat)
    requires Packing(page, n, reserve, baseSize, groups, acked, size) && n < |page| && !HasKey(groups, page[n].key)
    requires !Oversized(page[n], reserve, baseSize)
    requires size + reserve(page[n].key) + (if groups != [] then 2 else 0) <= HEARTBEAT_MAX_BYTES
    ensures Packing(page, n + 1, reserve, baseSize, groups + [page[n]], acked + [page[n]],
                    size + reserve(page[n].key) + if groups != [] then 2 else 0)
  {
    var r := page[n];
    SendableStep(page, n, reserve, baseSize);
    GroupedNew(groups, acked, r);
    TotalAbsAppend(acked, r);
    ReservedAppend(groups, r, reserve);
    forall k | HasKey(groups + [r], k) ensures baseSize + reserve(k) <= HEARTBEAT_MAX_BYTES {
      HasKeyAppend(groups, r, k);
    }
  }

  lemma PackedSkip(page: seq<Row>, n: nat, reserve: Key -> nat, baseSize: nat, groups: seq<Row>, acked: seq<Row>,
                   size: nat)
    requires Packing(page, n, reserve, baseSize, groups, acked, size) && n < |page|
    requires Oversized(page[n], reserve, baseSize)
    ensures Packing(page, n + 1, reserve, baseSize, groups, acked, size)
  {
    SendableStep(page, n, reserve, baseSize);
  }

  /** One row of the page: joined to its group, passed over, added, or left for the next body. */
  method PackRow(page: seq<Row>, n: nat, reserve: Key -> nat, baseSize: nat, groups0: seq<Row>, ackIds0: seq<int>,
                 size0: nat, ghost acked0: seq<Row>)
    returns (groups: seq<Row>, ackIds: seq<int>, size: nat, full: bool, skipped: bool, ghost acked: seq<Row>)
    requires n < |page| && Packing(page, n, reserve, baseSize, groups0, acked0, size0) && ackIds0 == IdsOf(acked0)
    ensures full ==> n > 0 && groups == groups0 && ackIds == ackIds0 && acked == acked0 && size == size0
    ensures !full ==> Packing(page, n + 1, reserve, baseSize, groups, acked, size) && ackIds == IdsOf(acked)
    ensures !full ==> (skipped <==> Oversized(page[n], reserve, baseSize))
  {
    groups, ackIds, size, full, skipped, acked := groups0, ackIds0, size0, false, false, acked0;
    var r := page[n];
    if HasKey(groups, r.key) {
      PackedAgain(page, n, reserve, baseSize, groups, acked, size);
      GroupedFits(groups, r, reserve, baseSize);
      groups := AddCount(groups, r.key, r.count);
      IdsAppend(acked, r);
      ackIds, acked := ackIds + [r.id], acked + [r];
      return;
    }
    var added := reserve(r.key);
    if baseSize + added > HEARTBEAT_MAX_BYTES {
      PackedSkip(page, n, reserve, baseSize, groups, acked, size);
      skipped := true;
      return;
    }
    added := added + if groups != [] then 2 else 0;
    if size + added > HEARTBEAT_MAX_BYTES {
      full := true;
      FullIsLater(page, n, reserve, baseSize, groups, acked, size);
      return;
    }
    PackedNew(page, n, reserve, baseSize, groups, acked, size);
    groups := groups + [r];
    size := size + added;
    IdsAppend(acked, r);
    ackIds, acked := ackIds + [r.id], acked + [r];
  }

  lemma FullIsLater(page: seq<Row>, n: nat, reserve: Key -> nat, baseSize: nat, groups: seq<Row>, acked: seq<Row>,
                    size: nat)
    requires n < |page| && Packing(page, n, reserve, baseSize, groups, acked, size)
    requires baseSize + reserve(page[n].key) <= HEARTBEAT_MAX_BYTES
    requires size + reserve(page[n].key) + (if groups != [] then 2 else 0) > HEARTBEAT_MAX_BYTES
    ensures n > 0
  {
  }

  /** The loop over a page, for any way of reserving room. */
  method PackRows(page: seq<Row>, reserve: Key -> nat, baseSize: nat, after0: int)
    returns (ackIds: seq<int>, groups: seq<Row>, size: nat, after: int, oversized: bool, ghost sent: nat)
    requires baseSize <= HEARTBEAT_MAX_BYTES
    ensures sent <= |page| && (page != [] ==> sent > 0) && after == if sent == 0 then after0 else page[sent - 1].id
    ensures oversized <==> AnyOversized(page[..sent], reserve, baseSize)
    ensures ackIds == IdsOf(Sendable(page[..sent], reserve, baseSize))
    ensures Packing(page, sent, reserve, baseSize, groups, Sendable(page[..sent], reserve, baseSize), size)
  {
    ackIds, groups, after, oversized, sent := [], [], after0, false, 0;
    size := baseSize;
    var i := 0;
    ghost var acked: seq<Row> := [];
    while i < |page|
      invariant i == sent <= |page| && after == if i == 0 then after0 else page[i - 1].id
      invariant Packing(page, i, reserve, baseSize, groups, acked, size) && ackIds == IdsOf(acked)
      invariant oversized <==> AnyOversized(page[..i], reserve, baseSize)
    {
      var full, skipped;
      groups, ackIds, size, full, skipped, acked := PackRow(page, i, reserve, baseSize, groups, ackIds, size, acked);
      if full { break; }
      AnyOversizedStep(page, i, reserve, baseSize);
      oversized := oversized || skipped;
      after := page[i].id;
      i, sent := i + 1, sent + 1;
    }
  }

  /** Packs a prefix of the page: oversized rows are passed over and kept, the others are grouped while
      they fit. `sent` is how many rows of the page were decided. */
  method PackPage(page: seq<Row>, baseSize: nat, after0: int)
    returns (ackIds: seq<int>, groups: seq<Row>, after: int, oversized: bool, ghost sent: nat)
    requires baseSize <= HEARTBEAT_MAX_BYTES
    ensures sent <= |page| && (page != [] ==> sent > 0) && after == if sent == 0 then after0 else page[sent - 1].id
    ensures oversized <==> AnyOversized(page[..sent], Reserver(TotalAbs(page)), baseSize)
    ensures ackIds == IdsOf(Sendable(page[..sent], Reserver(TotalAbs(page)), baseSize))
    ensures Grouped(groups, Sendable(page[..sent], Reserver(TotalAbs(page)), baseSize))
    ensures baseSize + |Join(groups)| <= HEARTBEAT_MAX_BYTES
  {
    var reserve, size := Reserver(TotalAbs(page)), 0;
    ackIds, groups, size, after, oversized, sent := PackRows(page, reserve, baseSize, after0);
    PackedWithin(page, sent, reserve, baseSize, groups, Sendable(page[..sent], reserve, baseSize), size);
  }

  lemma AnyOversizedStep(page: seq<Row>, n: nat, reserve: Key -> nat, baseSize: nat)
    requires n < |page|
    ensures AnyOversized(page[..n + 1], reserve, baseSize)
       <==> AnyOversized(page[..n], reserve, baseSize) || Oversized(page[n], reserve, baseSize)
  {
    assert page[..n + 1][..n] == page[..n];
  }

  lemma GroupedFits(groups: seq<Row>, r: Row, reserve: Key -> nat, baseSize: nat)
    requires forall k :: HasKey(groups, k) ==> baseSize + reserve(k) <= HEARTBEAT_MAX_BYTES
    requires HasKey(groups, r.key)
    ensures !Oversized(r, reserve, baseSize)
  {
  }

  lemma {:induction false} PrefixTotal(page: seq<Row>, n: nat)
    requires n <= |page|
    ensures TotalAbs(page[..n]) <= TotalAbs(page)
  {
    assert page == page[..n] + page[n..];
    TotalAbsConcat(page[..n], page[n..]);
  }

  lemma PackedWithin(page: seq<Row>, n: nat, reserve: Key -> nat, baseSize: nat, groups: seq<Row>, acked: seq<Row>,
                     size: nat)
    requires Packing(page, n, reserve, baseSize, groups, acked, size) && reserve == Reserver(TotalAbs(page))
    ensures baseSize + |Join(groups)| <= HEARTBEAT_MAX_BYTES
  {
    PrefixTotal(page, n);
    GroupsBounded(groups, acked, TotalAbs(page));
    ReservedCovers(groups, TotalAbs(page));
  }
}
