/** What a usage row costs, on the columns of the row and of the rate snapshot. */
module PricingCharge {
  import opened Wrappers
  import opened TextOrder
  import Sorting
  import opened PricingCost
  import opened PricingGroups
  import opened PricingSelect
  import opened PricingPass

  // ---- One row at one snapshot ----

  /** The first of the columns that is not NULL. */
  function FirstOf(rates: seq<Option<real>>): Option<real> {
    if rates == [] then None else if rates[0].Some? then rates[0] else FirstOf(rates[1..])
  }

  /** So many tokens at so many dollars per million; corrupt counts below zero cost nothing. */
  predicate Charged(amount: real, tokens: int, rates: seq<Option<real>>) {
    if tokens <= 0 then amount == 0.0
    else FirstOf(rates).Some? && amount * 1000000.0 == (tokens as real) * FirstOf(rates).value
  }

  function Positive(n: int): int { if n < 0 then 0 else n }

  /** Input tokens outside the cached prefix: under subset accounting the prefix is part of the input. */
  function FreshColumn(u: Usage): int {
    match u.basis
    case Subset => u.freshInput.GetOr(Positive(u.input.GetOr(0)) - Positive(u.cacheRead.GetOr(0)))
    case _ => u.input.GetOr(0)
  }

  /** Cached tokens: under subset accounting never more than the input. */
  function ReadColumn(u: Usage): int {
    match u.basis
    case Subset =>
      var input, read := u.input.GetOr(0), u.cacheRead.GetOr(0);
      u.billableRead.GetOr(if input < read then input else read)
    case _ => u.cacheRead.GetOr(0)
  }

  function InputRates(p: Price, batch: bool): seq<Option<real>> { if batch then [p.inputBatch, p.input] else [p.input] }

  function OutputRates(p: Price, batch: bool): seq<Option<real>> {
    if batch then [p.outputBatch, p.output] else [p.output]
  }

  /** The standard input rate stands in for a missing cache read rate, with and without batch. */
  function ReadRates(p: Price): seq<Option<real>> { [p.cacheRead, p.input] }

  lemma FirstOfTwo(a: Option<real>, b: Option<real>)
    ensures FirstOf([a, b]) == (if a.Some? then a else b) && FirstOf([a]) == a
  {
    assert [a][1..] == [] && [b][1..] == [] && [a, b][1..] == [b];
    assert FirstOf([]) == None && FirstOf([b]) == b;
  }

  /** The tokens of a class and the columns that may price them. */
  function ColumnOf(u: Usage, c: Class): int {
    match c
    case Input => FreshColumn(u)
    case Output => u.output.GetOr(0)
    case CacheRead => ReadColumn(u)
    case Write5m => u.write5m.GetOr(0)
    case Write1h => u.write1h.GetOr(0)
  }

  function RatesOf(p: Price, batch: bool, c: Class): seq<Option<real>> {
    match c
    case Input => InputRates(p, batch)
    case Output => OutputRates(p, batch)
    case CacheRead => ReadRates(p)
    case Write5m => [p.write5m]
    case Write1h => [p.write1h]
  }

  lemma RateIsFirst(p: Price, batch: bool, c: Class)
    ensures RateOf(p, batch, c) == FirstOf(RatesOf(p, batch, c))
  {
    match c
    case Input =>
      FirstOfTwo(p.inputBatch, p.input);
      FirstOfTwo(p.input, None);
    case Output =>
      FirstOfTwo(p.outputBatch, p.output);
      FirstOfTwo(p.output, None);
    case CacheRead => FirstOfTwo(p.cacheRead, p.input);
    case Write5m => FirstOfTwo(p.write5m, None);
    case Write1h => FirstOfTwo(p.write1h, None);
  }

  lemma TokensAreColumn(u: Usage, c: Class)
    ensures Tokens(u, c) == Positive(ColumnOf(u, c))
  {
  }

  lemma DollarsAreCharged(tokens: nat, rates: seq<Option<real>>)
    requires tokens > 0 ==> FirstOf(rates).Some?
    ensures Charged(Dollars(tokens, FirstOf(rates)), tokens, rates)
  {
  }

  lemma ClassIsCharged(u: Usage, p: Price, batch: bool, c: Class)
    requires CostOfUsage(u, Some(p), batch).Priced?
    ensures Charged(CostOfUsage(u, Some(p), batch).Amount(c), ColumnOf(u, c), RatesOf(p, batch, c))
  {
    AmountIs(u, Some(p), batch, c);
    PricedWhen(u, Some(p), batch);
    TokensAreColumn(u, c);
    RateIsFirst(p, batch, c);
    DollarsAreCharged(Tokens(u, c), RatesOf(p, batch, c));
  }

  /** Every class of a priced row is charged by its own column, whose rate must be there when there are tokens; the
      total is the sum of the classes. */
  lemma ChargedByColumn(u: Usage, p: Price, batch: bool)
    requires CostOfUsage(u, Some(p), batch).Priced?
    ensures var c := CostOfUsage(u, Some(p), batch);
            && Charged(c.input, FreshColumn(u), if batch then [p.inputBatch, p.input] else [p.input])
            && Charged(c.output, u.output.GetOr(0), if batch then [p.outputBatch, p.output] else [p.output])
            && Charged(c.cacheRead, ReadColumn(u), [p.cacheRead, p.input])
            && Charged(c.write5m, u.write5m.GetOr(0), [p.write5m])
            && Charged(c.write1h, u.write1h.GetOr(0), [p.write1h])
            && c.Usd() == c.input + c.output + c.cacheRead + c.write5m + c.write1h
  {
    ClassIsCharged(u, p, batch, Input);
    ClassIsCharged(u, p, batch, Output);
    ClassIsCharged(u, p, batch, CacheRead);
    ClassIsCharged(u, p, batch, Write5m);
    ClassIsCharged(u, p, batch, Write1h);
  }

  /** The class has tokens, and no column prices them. */
  predicate Lacks(tokens: int, rates: seq<Option<real>>) { tokens > 0 && FirstOf(rates).None? }

  lemma LackIsMissing(u: Usage, p: Price, batch: bool, c: Class)
    ensures Lacks(ColumnOf(u, c), RatesOf(p, batch, c)) <==> Missing(u, p, batch, c)
  {
    TokensAreColumn(u, c);
    RateIsFirst(p, batch, c);
  }

  /** With a snapshot a row is unpriced exactly when its basis is unknown or some class lacks a rate. */
  lemma UnpricedByColumn(u: Usage, p: Price, batch: bool)
    ensures CostOfUsage(u, Some(p), batch).Unpriced?
       <==> || u.basis.Unknown?
            || Lacks(FreshColumn(u), if batch then [p.inputBatch, p.input] else [p.input])
            || Lacks(u.output.GetOr(0), if batch then [p.outputBatch, p.output] else [p.output])
            || Lacks(ReadColumn(u), [p.cacheRead, p.input])
            || Lacks(u.write5m.GetOr(0), [p.write5m])
            || Lacks(u.write1h.GetOr(0), [p.write1h])
  {
    if !u.basis.Unknown? { Classified(u, p, batch); }
    LackIsMissing(u, p, batch, Input);
    LackIsMissing(u, p, batch, Output);
    LackIsMissing(u, p, batch, CacheRead);
    LackIsMissing(u, p, batch, Write5m);
    LackIsMissing(u, p, batch, Write1h);
  }

  /** Nothing in any class. */
  predicate NoTokens(u: Usage) {
    && FreshColumn(u) <= 0 && u.output.GetOr(0) <= 0 && ReadColumn(u) <= 0
    && u.write5m.GetOr(0) <= 0 && u.write1h.GetOr(0) <= 0
  }

  /** A row costs nothing at all exactly when its basis is known and it has no tokens, whatever the snapshot; any
      other row without a snapshot is unpriced. */
  lemma FreeByColumn(u: Usage, price: Option<Price>, batch: bool)
    ensures CostOfUsage(u, price, batch).Free? <==> !u.basis.Unknown? && NoTokens(u)
    ensures price.None? ==> (CostOfUsage(u, price, batch).Unpriced? <==> u.basis.Unknown? || !NoTokens(u))
    ensures !CostOfUsage(u, price, batch).Priced? ==> CostOfUsage(u, price, batch).Usd() == 0.0
  {
  }

  // ---- Which rates were applied ----

  /** The rate of a class the row has, and nothing for a class it has not. */
  function RateUsed(tokens: int, rates: seq<Option<real>>): Option<real> {
    if tokens > 0 then FirstOf(rates) else None
  }

  /** The signature records the rate of each class the row has, and the basis. */
  lemma SignatureByColumn(u: Usage, p: Price, batch: bool)
    requires CostOfUsage(u, Some(p), batch).Priced?
    ensures var s := CostOfUsage(u, Some(p), batch).signature;
            && s.RateSignature? && s.basis == u.basis
            && s.input == RateUsed(FreshColumn(u), if batch then [p.inputBatch, p.input] else [p.input])
            && s.output == RateUsed(u.output.GetOr(0), if batch then [p.outputBatch, p.output] else [p.output])
            && s.cacheRead == RateUsed(ReadColumn(u), [p.cacheRead, p.input])
            && s.write5m == RateUsed(u.write5m.GetOr(0), [p.write5m])
            && s.write1h == RateUsed(u.write1h.GetOr(0), [p.write1h])
  {
    RateIsFirst(p, batch, Input);
    RateIsFirst(p, batch, Output);
    RateIsFirst(p, batch, CacheRead);
    RateIsFirst(p, batch, Write5m);
    RateIsFirst(p, batch, Write1h);
  }

  /** Some class of the row was charged at a batch rate. */
  predicate UsesBatch(u: Usage, p: Price) {
    (FreshColumn(u) > 0 && p.inputBatch.Some?) || (u.output.GetOr(0) > 0 && p.outputBatch.Some?)
  }

  /** Some class of the row was charged at a standard rate when batch rates were asked for. */
  predicate UsesStandard(u: Usage, p: Price) {
    || (FreshColumn(u) > 0 && p.inputBatch.None?) || (u.output.GetOr(0) > 0 && p.outputBatch.None?)
    || ReadColumn(u) > 0 || u.write5m.GetOr(0) > 0 || u.write1h.GetOr(0) > 0
  }

  /** The reported rate set is what was applied to the classes the row has; cache classes are always standard. */
  lemma RateSetByColumn(u: Usage, p: Price, batch: bool)
    ensures var c := CostOfUsage(u, Some(p), batch);
            && (c.Set() == NoRates <==> !c.Priced?)
            && (c.Set() == Batch <==> c.Priced? && batch && UsesBatch(u, p) && !UsesStandard(u, p))
            && (c.Set() == Mixed <==> c.Priced? && batch && UsesBatch(u, p) && UsesStandard(u, p))
            && (c.Set() == Standard <==> c.Priced? && !(batch && UsesBatch(u, p)))
  {
  }

  // ---- Which snapshot ----

  /** Among several snapshots the first not after the timestamp is chosen; the last if all are after it. */
  lemma {:induction false} SnapshotAtTime(history: seq<Price>, ts: string)
    requires history != [] && ts != ""
    ensures exists k :: 0 <= k < |history| && PriceAt(history, Some(ts)) == Some(history[k])
                     && (forall j | 0 <= j < k :: !AtMost(history[j].effectiveFrom, ts))
                     && (k < |history| - 1 ==> AtMost(history[k].effectiveFrom, ts))
  {
    var k := 0;
    while k < |history| - 1 && !AtMost(history[k].effectiveFrom, ts)
      invariant 0 <= k < |history| && FirstUpTo(history, ts) == FirstUpTo(history[k..], ts)
      invariant forall j | 0 <= j < k :: !AtMost(history[j].effectiveFrom, ts)
    {
      assert history[k..][1..] == history[k + 1..];
      k := k + 1;
    }
    assert history[k..][0] == history[k];
  }

  /** No snapshot, no rate; without a timestamp the newest. */
  lemma SnapshotWithoutTime(history: seq<Price>, ts: Option<string>)
    ensures history == [] ==> PriceAt(history, ts) == None
    ensures history != [] && (ts.None? || ts.value == "") ==> PriceAt(history, ts) == Some(history[0])
  {
  }

  // ---- The pooled epoch ----

  /** Some model has a snapshot from this date on, and the date has the shape of one. */
  ghost predicate SnapshotDate(histories: seq<seq<Price>>, d: string) {
    DateShaped(d) && exists h, p :: h in histories && p in h && p.effectiveFrom == d
  }

  lemma {:induction false} AddedDates(history: seq<Price>, dates: seq<string>, d: string)
    requires d in AddDates(history, dates)
    ensures d in dates || (DateShaped(d) && exists p :: p in history && p.effectiveFrom == d)
  {
    if history != [] && d !in dates {
      if d == history[0].effectiveFrom && d !in AddDates(history[1..], dates) {
        assert history[0] in history;
      } else {
        AddedDates(history[1..], dates, d);
        var p :| p in history[1..] && p.effectiveFrom == d;
        assert p in history;
      }
    }
  }

  lemma {:induction false} DatesAreSnapshots(histories: seq<seq<Price>>, d: string)
    requires d in Dates(histories)
    ensures SnapshotDate(histories, d)
  {
    if histories != [] {
      AddedDates(histories[0], Dates(histories[1..]), d);
      if d in Dates(histories[1..]) {
        DatesAreSnapshots(histories[1..], d);
        var h, p :| h in histories[1..] && p in h && p.effectiveFrom == d;
        assert h in histories;
      } else {
        assert histories[0] in histories;
      }
    }
  }

  lemma BoundariesAreSnapshotDates(histories: seq<seq<Price>>, d: string)
    ensures d in Boundaries(histories) <==> SnapshotDate(histories, d)
  {
    Sorting.SortPermutes(Newer(), Dates(histories));
    if d in Boundaries(histories) {
      assert d in multiset(Dates(histories));
      DatesAreSnapshots(histories, d);
    }
    if SnapshotDate(histories, d) {
      var h, p :| h in histories && p in h && p.effectiveFrom == d;
      var k :| 0 <= k < |histories| && histories[k] == h;
      BoundariesDescend(histories, k);
    }
  }

  /** An offset, an hour of 24 and a bare date are not canonical. */
  lemma WhatIsCanonical()
    ensures Canonical("2026-06-30T23:30:00.000Z") && !Canonical("2026-06-30T23:30:00-05:00")
    ensures !Canonical("2026-03-15T24:00:00Z") && !Canonical("2026-03-15") && !Canonical("2026-3-15T12:00:00Z")
    ensures !Canonical("2026-03-15 12:00:00Z")
  {
    var ts, late, short := "2026-06-30T23:30:00.000Z", "2026-03-15T24:00:00Z", "2026-3-15T12:00:00Z";
    assert ts[..10] == "2026-06-30" && ts[11..13] == "23" && late[11..13] == "24" && short[..10] == "2026-3-15T";
    assert "23"[1..] == "3" && "24"[1..] == "4" && "4"[1..] == "";
  }

  /** The epoch of a canonical timestamp is the latest snapshot date of any model not after it, or the epoch before
      them all; any other timestamp's epoch is the unknown one. */
  lemma EpochIsLatest(histories: seq<seq<Price>>, ts: Option<string>)
    ensures var e := Epoch(Boundaries(histories), ts);
            if ts.None? || !Canonical(ts.value) then e == "unknown"
            else if exists d :: SnapshotDate(histories, d) && AtMost(d, ts.value) then
              && SnapshotDate(histories, e) && AtMost(e, ts.value)
              && forall d | SnapshotDate(histories, d) && AtMost(d, ts.value) :: AtMost(d, e)
            else e == "0000-00-00"
  {
    if ts.Some? && Canonical(ts.value) {
      if histories != [] { BoundariesDescend(histories, 0); }
      LatestIsBound(Boundaries(histories), ts.value, EPOCH_BEFORE_ANY_PRICE);
      forall d ensures d in Boundaries(histories) <==> SnapshotDate(histories, d) {
        BoundariesAreSnapshotDates(histories, d);
      }
    }
  }

  // ---- The cost stored for a row ----

  /** The columns of the usage table; the pre-aggregated ones exist only on groups. */
  function TableColumns(u: Usage): Usage { u.(freshInput := None, billableRead := None) }

  predicate SameColumns(t: Usage, u: Usage) {
    && t.basis == u.basis && forall c: Class :: Positive(ColumnOf(t, c)) == Positive(ColumnOf(u, c))
  }

  lemma OneRowTotals(u: Usage)
    ensures Totals(u.basis, [u])
         == Usage(u.basis, Some(InputSum()(u)), Some(OutputSum()(u)), Some(ReadSum()(u)), Some(Write5mSum()(u)),
                  Some(Write1hSum()(u)), Some(FreshSum()(u)), Some(BillableReadSum()(u)))
  {
    OneRowSum(u, InputSum());
    OneRowSum(u, OutputSum());
    OneRowSum(u, ReadSum());
    OneRowSum(u, Write5mSum());
    OneRowSum(u, Write1hSum());
    OneRowSum(u, FreshSum());
    OneRowSum(u, BillableReadSum());
  }

  lemma TotalsAreColumns(u: Usage)
    ensures SameColumns(Totals(u.basis, [u]), TableColumns(u))
  {
    OneRowTotals(u);
  }

  predicate IsSentinel(model: Option<string>) { model.Some? && model.value != "" && model.value[0] == '<' }

  function Column(p: Option<Price>, rate: Price -> Option<real>): Option<real> {
    if p.None? then None else rate(p.value)
  }

  /** The standard rates of a snapshot charge the money to the row's columns. */
  predicate ChargesRow(m: Money, u: Usage, p: Option<Price>) {
    && Charged(m.input, FreshColumn(u), [Column(p, (q: Price) => q.input)])
    && Charged(m.output, u.output.GetOr(0), [Column(p, (q: Price) => q.output)])
    && Charged(m.cacheRead, ReadColumn(u), [Column(p, (q: Price) => q.cacheRead), Column(p, (q: Price) => q.input)])
    && Charged(m.write5m, u.write5m.GetOr(0), [Column(p, (q: Price) => q.write5m)])
    && Charged(m.write1h, u.write1h.GetOr(0), [Column(p, (q: Price) => q.write1h)])
  }

  /** Every class the row has is priced by the snapshot's standard rates. */
  predicate FullyRated(u: Usage, p: Option<Price>) {
    && !Lacks(FreshColumn(u), [Column(p, (q: Price) => q.input)])
    && !Lacks(u.output.GetOr(0), [Column(p, (q: Price) => q.output)])
    && !Lacks(ReadColumn(u), [Column(p, (q: Price) => q.cacheRead), Column(p, (q: Price) => q.input)])
    && !Lacks(u.write5m.GetOr(0), [Column(p, (q: Price) => q.write5m)])
    && !Lacks(u.write1h.GetOr(0), [Column(p, (q: Price) => q.write1h)])
  }

  function RatesAt(p: Option<Price>, c: Class): seq<Option<real>> {
    match c
    case Input => [Column(p, (q: Price) => q.input)]
    case Output => [Column(p, (q: Price) => q.output)]
    case CacheRead => [Column(p, (q: Price) => q.cacheRead), Column(p, (q: Price) => q.input)]
    case Write5m => [Column(p, (q: Price) => q.write5m)]
    case Write1h => [Column(p, (q: Price) => q.write1h)]
  }

  lemma RateAtIsFirst(p: Option<Price>, c: Class)
    ensures FirstOf(RatesAt(p, c)) == ClassRate(p, c)
  {
    if p.Some? {
      RateIsFirst(p.value, false, c);
    } else {
      NothingRated();
    }
  }

  lemma ClassRated(t: Usage, u: Usage, p: Option<Price>, c: Class)
    requires SameColumns(t, u)
    ensures Lacks(ColumnOf(u, c), RatesAt(p, c)) <==> Tokens(t, c) > 0 && ClassRate(p, c).None?
  {
    TokensAreColumn(t, c);
    RateAtIsFirst(p, c);
  }

  lemma ClassCharge(t: Usage, u: Usage, p: Option<Price>, c: Class)
    requires SameColumns(t, u) && !CostOfUsage(t, p, false).Unpriced?
    ensures Charged(CostOfUsage(t, p, false).Amount(c), ColumnOf(u, c), RatesAt(p, c))
  {
    AmountAt(t, p, c);
    TokensAreColumn(t, c);
    RateAtIsFirst(p, c);
    DollarsAreCharged(Tokens(t, c), RatesAt(p, c));
  }

  lemma RatedRow(t: Usage, u: Usage, p: Option<Price>)
    requires SameColumns(t, u) && !u.basis.Unknown?
    ensures CostOfUsage(t, p, false).Unpriced? <==> !FullyRated(u, p)
  {
    PricedWhen(t, p, false);
    forall c ensures Lacks(ColumnOf(u, c), RatesAt(p, c)) <==> Tokens(t, c) > 0 && ClassRate(p, c).None? {
      ClassRated(t, u, p, c);
    }
    AllClasses(u, p);
  }

  lemma AllClasses(u: Usage, p: Option<Price>)
    ensures FullyRated(u, p) <==> forall c: Class :: !Lacks(ColumnOf(u, c), RatesAt(p, c))
  {
    if FullyRated(u, p) {
      forall c: Class ensures !Lacks(ColumnOf(u, c), RatesAt(p, c)) {
        match c
        case Input =>
        case Output =>
        case CacheRead =>
        case Write5m =>
        case Write1h =>
      }
    } else {
      assert Lacks(ColumnOf(u, Input), RatesAt(p, Input)) || Lacks(ColumnOf(u, Output), RatesAt(p, Output))
          || Lacks(ColumnOf(u, CacheRead), RatesAt(p, CacheRead)) || Lacks(ColumnOf(u, Write5m), RatesAt(p, Write5m))
          || Lacks(ColumnOf(u, Write1h), RatesAt(p, Write1h));
    }
  }

  lemma ChargedRow(t: Usage, u: Usage, p: Option<Price>)
    requires SameColumns(t, u) && !CostOfUsage(t, p, false).Unpriced?
    ensures ChargesRow(MoneyOf(CostOfUsage(t, p, false)), u, p)
  {
    ClassCharge(t, u, p, Input);
    ClassCharge(t, u, p, Output);
    ClassCharge(t, u, p, CacheRead);
    ClassCharge(t, u, p, Write5m);
    ClassCharge(t, u, p, Write1h);
  }

  /** A row without a known basis or a model has no cost; a sentinel model costs nothing; any other row has a cost
      exactly when the snapshot of its timestamp prices every class it has, and then each class of its own columns
      at that snapshot's standard rates. */
  lemma StoredByColumn(r: Row, cat: Catalog)
    ensures var u, p, stored := TableColumns(r.usage), SnapshotAt(r, cat, r.ts), Proper(r, cat);
            if r.usage.basis.Unknown? || r.model.None? || r.model == Some("") then stored == None
            else if IsSentinel(r.model) then stored == Some(Money(0.0, 0.0, 0.0, 0.0, 0.0))
            else (stored.Some? <==> FullyRated(u, p)) && (stored.Some? ==> ChargesRow(stored.value, u, p))
  {
    var u, p := TableColumns(r.usage), SnapshotAt(r, cat, r.ts);
    if !r.usage.basis.Unknown? && r.model.Some? && r.model != Some("") && !IsSentinel(r.model) {
      TotalsAreColumns(r.usage);
      RatedRow(TotalsOf(r), u, p);
      if FullyRated(u, p) { ChargedRow(TotalsOf(r), u, p); }
    }
  }

  /** In a table kept honest, a row stamped as priced holds what its own columns cost at the snapshot of its timestamp,
      and the epoch of that timestamp. */
  lemma PricedRowsAreCharged(rows: seq<Row>, r: Row, cat: Catalog)
    requires AllHonest(rows, cat) && r in rows && r.version >= 3
    ensures r.stored.Some? && r.epoch == Some(Epoch(cat.boundaries, r.ts))
    ensures if IsSentinel(r.model) then r.stored == Some(Money(0.0, 0.0, 0.0, 0.0, 0.0))
            else ChargesRow(r.stored.value, TableColumns(r.usage), SnapshotAt(r, cat, r.ts))
  {
    StoredByColumn(r, cat);
    assert Honest(r, cat);
  }

  /** The row the write looks for: same id, model and basis, and the same counters with NULL for zero. */
  predicate Unchanged(r: Row, read: Row) {
    && r.id == read.id && r.model == read.model && r.usage.basis == read.usage.basis
    && r.usage.input.GetOr(0) == read.usage.input.GetOr(0) && r.usage.output.GetOr(0) == read.usage.output.GetOr(0)
    && r.usage.cacheRead.GetOr(0) == read.usage.cacheRead.GetOr(0)
    && r.usage.write5m.GetOr(0) == read.usage.write5m.GetOr(0)
    && r.usage.write1h.GetOr(0) == read.usage.write1h.GetOr(0)
  }

  /** A write stamps the rows it finds with the cost and epoch of what was read and the pass's start, at version 3
      when there is a cost and 0 when there is none; their inputs and all other rows stay. */
  lemma WriteStamps(rows: seq<Row>, read: Row, cat: Catalog, startedAt: string, i: nat)
    requires i < |rows|
    ensures |Cas(rows, read, cat, startedAt)| == |rows|
    ensures var r, r' := rows[i], Cas(rows, read, cat, startedAt)[i];
            if !Unchanged(r, read) then r' == r
            else
              && r' == r.(stored := Proper(read, cat), epoch := Some(Epoch(cat.boundaries, read.ts)),
                          pricedAt := Some(startedAt), version := r'.version)
              && r'.version == if Proper(read, cat).Some? then 3 else 0
  {
    CasMembers(rows, read, cat, startedAt);
  }

  lemma NothingRated()
    ensures FirstOf([None]) == None && FirstOf([None, None]) == None
  {
    FirstOfTwo(None, None);
  }
}
