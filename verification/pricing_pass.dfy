/** The pricing pass: reads due rows, prices them, and writes each price back by compare-and-set, beside re-parses. */
module PricingPass {
  import opened Wrappers
  import opened TextOrder
  import opened Sorting
  import opened TopMerge
  import opened PricingCost
  import opened PricingGroups
  import opened PricingSelect

  const PRICING_WRITE_BATCH: nat := 100

  /** The loaded price table and its pooled boundaries. */
  datatype Catalog = Catalog(prices: map<string, seq<Price>>, boundaries: seq<string>)

  function MoneyOf(c: Cost): Money {
    Money(c.Amount(Input), c.Amount(Output), c.Amount(CacheRead), c.Amount(Write5m), c.Amount(Write1h))
  }

  function History(cat: Catalog, model: string): seq<Price> {
    if model in cat.prices then cat.prices[model] else []
  }

  /** The dollar figure to store: none when the basis, the model or a rate is unknown; a sentinel model never
      reached an API and costs nothing. */
  function PriceOf(r: Row, cat: Catalog, epoch: string): Option<Money> {
    if r.usage.basis.Unknown? then None
    else if r.model.None? || r.model.value == "" then None
    else if r.model.value[0] == '<' then Some(MoneyOf(Free))
    else
      var totals := Totals(r.usage.basis, [r.usage]);
      var cost := CostOfUsage(totals, PriceForGroup(History(cat, r.model.value), epoch, totals, false), false);
      if cost.Unpriced? then None else Some(MoneyOf(cost))
  }

  function EpochOf(r: Row, cat: Catalog): string { Epoch(cat.boundaries, r.ts) }

  /** What a row's present inputs cost. */
  function Proper(r: Row, cat: Catalog): Option<Money> { PriceOf(r, cat, EpochOf(r, cat)) }

  // ---- The compare-and-set ----

  /** The columns the write compares: not the timestamp. */
  predicate CasMatches(r: Row, read: Row) {
    && r.id == read.id && r.model == read.model && r.usage.basis == read.usage.basis
    && Coalesce(r.usage.input) == Coalesce(read.usage.input)
    && Coalesce(r.usage.output) == Coalesce(read.usage.output)
    && Coalesce(r.usage.cacheRead) == Coalesce(read.usage.cacheRead)
    && Coalesce(r.usage.write5m) == Coalesce(read.usage.write5m)
    && Coalesce(r.usage.write1h) == Coalesce(read.usage.write1h)
  }

  /** The written row: the price and epoch of what was read. */
  function Stamped(r: Row, read: Row, cat: Catalog, startedAt: string): Row {
    r.(stored := Proper(read, cat), epoch := Some(EpochOf(read, cat)), pricedAt := Some(startedAt),
       version := if Proper(read, cat).Some? then PRICING_VERSION else 0)
  }

  /** A row stamped as priced holds the cost and the epoch of its present inputs. */
  predicate Honest(r: Row, cat: Catalog) {
    r.version >= PRICING_VERSION ==> r.stored.Some? && r.stored == Proper(r, cat) && r.epoch == Some(EpochOf(r, cat))
  }

  lemma {:induction false} OneRowSum(u: Usage, f: Usage -> nat)
    ensures Sum([u], f) == f(u)
  {
    assert [u][..0] == [];
  }

  /** The price depends on the compared columns and the epoch only. */
  lemma PriceIgnoresTheRest(r: Row, read: Row, cat: Catalog, epoch: string)
    requires CasMatches(r, read)
    ensures PriceOf(r, cat, epoch) == PriceOf(read, cat, epoch)
  {
    SameTotals(r.usage, read.usage);
  }

  lemma SameTotals(u: Usage, v: Usage)
    requires u.basis == v.basis && Coalesce(u.input) == Coalesce(v.input) && Coalesce(u.output) == Coalesce(v.output)
    requires Coalesce(u.cacheRead) == Coalesce(v.cacheRead) && Coalesce(u.write5m) == Coalesce(v.write5m)
    requires Coalesce(u.write1h) == Coalesce(v.write1h)
    ensures Totals(u.basis, [u]) == Totals(v.basis, [v])
  {
    OneRowSum(u, InputSum());
    OneRowSum(v, InputSum());
    OneRowSum(u, OutputSum());
    OneRowSum(v, OutputSum());
    OneRowSum(u, ReadSum());
    OneRowSum(v, ReadSum());
    OneRowSum(u, Write5mSum());
    OneRowSum(v, Write5mSum());
    OneRowSum(u, Write1hSum());
    OneRowSum(v, Write1hSum());
    OneRowSum(u, FreshSum());
    OneRowSum(v, FreshSum());
    OneRowSum(u, BillableReadSum());
    OneRowSum(v, BillableReadSum());
  }

  // ---- The price a matching write stores ----

  predicate Sentinel(r: Row) { r.model.Some? && r.model.value != "" && r.model.value[0] == '<' }

  function TotalsOf(r: Row): Usage { Totals(r.usage.basis, [r.usage]) }

  /** The rates the row's model has at a timestamp. */
  function SnapshotAt(r: Row, cat: Catalog, ts: Option<string>): Option<Price> {
    if r.model.None? then None
    else PriceForGroup(History(cat, r.model.value), Epoch(cat.boundaries, ts), TotalsOf(r), false)
  }

  function ClassRate(p: Option<Price>, c: Class): Option<real> {
    if p.None? then None else RateOf(p.value, false, c)
  }

  /** Two snapshots have the same rate for every class with billable tokens. */
  ghost predicate SameRates(u: Usage, p: Option<Price>, q: Option<Price>) {
    forall c | Tokens(u, c) > 0 :: ClassRate(p, c) == ClassRate(q, c)
  }

  lemma AmountAt(u: Usage, p: Option<Price>, c: Class)
    requires !CostOfUsage(u, p, false).Unpriced?
    ensures CostOfUsage(u, p, false).Amount(c) == Dollars(Tokens(u, c), ClassRate(p, c))
    ensures Tokens(u, c) > 0 ==> ClassRate(p, c).Some?
  {
    PricedWhen(u, p, false);
    AmountIs(u, p, false, c);
    if CostOfUsage(u, p, false).Free? { assert Tokens(u, c) == 0; }
  }

  lemma DollarsTellRates(tokens: nat, r: real, s: real)
    requires tokens > 0 && Dollars(tokens, Some(r)) == Dollars(tokens, Some(s))
    ensures r == s
  {
    var t := tokens as real;
    assert t * r == t * s;
    assert t * (r - s) == 0.0;
  }

  /** Both rates price the tokens, with the same money in every class. */
  predicate PricedAlike(u: Usage, p: Option<Price>, q: Option<Price>) {
    !CostOfUsage(u, q, false).Unpriced? && MoneyOf(CostOfUsage(u, p, false)) == MoneyOf(CostOfUsage(u, q, false))
  }

  /** Class by class, the stored money is that of other rates exactly when those are the same rates. */
  lemma SameMoneyIffSameRates(u: Usage, p: Option<Price>, q: Option<Price>)
    requires !CostOfUsage(u, p, false).Unpriced?
    ensures PricedAlike(u, p, q) <==> SameRates(u, p, q)
  {
    PricedWhen(u, p, false);
    PricedWhen(u, q, false);
    forall c | Tokens(u, c) > 0 ensures ClassRate(p, c).Some? { AmountAt(u, p, c); }
    if !CostOfUsage(u, q, false).Unpriced? {
      forall c
        ensures CostOfUsage(u, p, false).Amount(c) == CostOfUsage(u, q, false).Amount(c)
           <==> (Tokens(u, c) > 0 ==> ClassRate(p, c) == ClassRate(q, c))
      {
        SameAmountIffSameRate(u, p, q, c);
      }
      SameMoney(CostOfUsage(u, p, false), CostOfUsage(u, q, false));
    }
  }

  lemma SameAmountIffSameRate(u: Usage, p: Option<Price>, q: Option<Price>, c: Class)
    requires !CostOfUsage(u, p, false).Unpriced? && !CostOfUsage(u, q, false).Unpriced?
    ensures CostOfUsage(u, p, false).Amount(c) == CostOfUsage(u, q, false).Amount(c)
       <==> (Tokens(u, c) > 0 ==> ClassRate(p, c) == ClassRate(q, c))
  {
    AmountAt(u, p, c);
    AmountAt(u, q, c);
    AmountsTellRates(Tokens(u, c), ClassRate(p, c), ClassRate(q, c));
  }

  lemma AmountsTellRates(tokens: nat, r: Option<real>, s: Option<real>)
    requires tokens > 0 ==> r.Some? && s.Some?
    ensures Dollars(tokens, r) == Dollars(tokens, s) <==> (tokens > 0 ==> r == s)
  {
    if tokens > 0 && Dollars(tokens, r) == Dollars(tokens, s) { DollarsTellRates(tokens, r.value, s.value); }
  }

  lemma SameMoney(a: Cost, b: Cost)
    ensures MoneyOf(a) == MoneyOf(b) <==> forall c: Class :: a.Amount(c) == b.Amount(c)
  {
    if MoneyOf(a) == MoneyOf(b) {
      forall c: Class ensures a.Amount(c) == b.Amount(c) {
        match c
        case Input =>
        case Output =>
        case CacheRead =>
        case Write5m =>
        case Write1h =>
      }
    }
  }

  /** What a matching write stores is the price of the row's present inputs exactly when the model costs nothing or
      the snapshots at the two timestamps have the same rate for every class the row has tokens in: the compared
      columns do not include the timestamp. */
  lemma StoredIsRightIffSameRates(r: Row, read: Row, cat: Catalog, startedAt: string)
    requires CasMatches(r, read) && Proper(read, cat).Some?
    ensures Stamped(r, read, cat, startedAt).stored == Proper(Stamped(r, read, cat, startedAt), cat)
       <==> Sentinel(read) || SameRates(TotalsOf(read), SnapshotAt(read, cat, read.ts), SnapshotAt(read, cat, r.ts))
  {
    var w := Stamped(r, read, cat, startedAt);
    assert CasMatches(w, read);
    PriceIgnoresTheRest(w, read, cat, EpochOf(r, cat));
    if !Sentinel(read) {
      SameMoneyIffSameRates(TotalsOf(read), SnapshotAt(read, cat, read.ts), SnapshotAt(read, cat, r.ts));
    }
  }

  /** Price and epoch column are both right exactly when the timestamp still selects the epoch that was read. */
  lemma CasIsHonestIffSameEpoch(r: Row, read: Row, cat: Catalog, startedAt: string)
    requires CasMatches(r, read) && Proper(read, cat).Some?
    ensures Honest(Stamped(r, read, cat, startedAt), cat) <==> EpochOf(r, cat) == EpochOf(read, cat)
  {
    var w := Stamped(r, read, cat, startedAt);
    assert CasMatches(w, r);
    PriceIgnoresTheRest(w, r, cat, EpochOf(r, cat));
    PriceIgnoresTheRest(r, read, cat, EpochOf(r, cat));
  }

  // ---- A re-parse that only moves the timestamp ----

  function Rate(from: string, rate: real): Price {
    Price(from, Some(rate), None, None, None, None, None, None)
  }

  function OneInput(id: int, ts: string, tokens: int): Row {
    Row(id, "s", Some("m"), Some(ts), Usage(Disjoint, Some(tokens), None, None, None, None, None, None),
        None, None, None, 0)
  }

  const OLD_TS: string := "1000-01-01T00:00:00Z"
  const NEW_TS: string := "3000-01-01T00:00:00Z"

  const OLD_RATE_FROM: string := "0999-01-01"
  const NEW_RATE_FROM: string := "2000-01-01"

  function TwoRates(): Catalog {
    Catalog(map["m" := [Rate(NEW_RATE_FROM, 3.0), Rate(OLD_RATE_FROM, 1.0)]], [NEW_RATE_FROM, OLD_RATE_FROM])
  }

  lemma TwoEpochs()
    ensures Epoch([NEW_RATE_FROM, OLD_RATE_FROM], Some(OLD_TS)) == OLD_RATE_FROM
    ensures Epoch([NEW_RATE_FROM, OLD_RATE_FROM], Some(NEW_TS)) == NEW_RATE_FROM
  {
    assert [NEW_RATE_FROM, OLD_RATE_FROM][1..] == [OLD_RATE_FROM];
    assert !AtMost(NEW_RATE_FROM, OLD_TS) && AtMost(OLD_RATE_FROM, OLD_TS) && AtMost(NEW_RATE_FROM, NEW_TS);
    BothCanonical();
    assert LatestUpTo([OLD_RATE_FROM], OLD_TS, EPOCH_BEFORE_ANY_PRICE) == OLD_RATE_FROM;
  }

  lemma BothCanonical()
    ensures Canonical(OLD_TS) && Canonical(NEW_TS)
  {
    assert OLD_TS[..10] == "1000-01-01" && NEW_TS[..10] == "3000-01-01";
    assert OLD_TS[11..13] == "00" && NEW_TS[11..13] == "00";
  }

  lemma RateByEpoch(row: Usage)
    ensures var h := [Rate(NEW_RATE_FROM, 3.0), Rate(OLD_RATE_FROM, 1.0)];
            && PriceForGroup(h, OLD_RATE_FROM, row, false) == Some(Rate(OLD_RATE_FROM, 1.0))
            && PriceForGroup(h, NEW_RATE_FROM, row, false) == Some(Rate(NEW_RATE_FROM, 3.0))
  {
    var h := [Rate(NEW_RATE_FROM, 3.0), Rate(OLD_RATE_FROM, 1.0)];
    assert h[1..] == [Rate(OLD_RATE_FROM, 1.0)];
    assert OLD_RATE_FROM[0] == '0' && NEW_RATE_FROM[0] == '2' && EPOCH_UNKNOWN_TIME[0] == 'u';
    assert !AtMost(NEW_RATE_FROM, OLD_RATE_FROM);
    assert FirstUpTo(h[1..], OLD_RATE_FROM) == Rate(OLD_RATE_FROM, 1.0);
    assert FirstUpTo(h, OLD_RATE_FROM) == Rate(OLD_RATE_FROM, 1.0);
    assert FirstUpTo(h, NEW_RATE_FROM) == Rate(NEW_RATE_FROM, 3.0);
  }

  lemma InputDollars(u: Usage, from: string, rate: real)
    requires u.basis == Disjoint && NonNegative(u.input) > 0
    requires NonNegative(u.output) == NonNegative(u.cacheRead) == NonNegative(u.write5m) == NonNegative(u.write1h) == 0
    ensures CostOfUsage(u, Some(Rate(from, rate)), false).Priced?
    ensures CostOfUsage(u, Some(Rate(from, rate)), false).Amount(Input) == Dollars(NonNegative(u.input), Some(rate))
  {
  }

  lemma OneInputTotals(tokens: int)
    requires tokens > 0
    ensures var u := OneInput(0, OLD_TS, tokens).usage;
            Totals(Disjoint, [u])
            == Usage(Disjoint, Some(tokens), Some(0), Some(0), Some(0), Some(0), Some(tokens), Some(0))
  {
    var u := OneInput(0, OLD_TS, tokens).usage;
    OneRowSum(u, InputSum());
    OneRowSum(u, OutputSum());
    OneRowSum(u, ReadSum());
    OneRowSum(u, Write5mSum());
    OneRowSum(u, Write1hSum());
    OneRowSum(u, FreshSum());
    OneRowSum(u, BillableReadSum());
  }

  lemma OneInputPrice(id: int, ts: string, tokens: int, from: string, rate: real)
    requires tokens > 0
    requires PriceForGroup(History(TwoRates(), "m"), from, Totals(Disjoint, [OneInput(id, ts, tokens).usage]), false)
         == Some(Rate(from, rate))
    ensures PriceOf(OneInput(id, ts, tokens), TwoRates(), from).Some?
    ensures PriceOf(OneInput(id, ts, tokens), TwoRates(), from).value.input == Dollars(tokens, Some(rate))
  {
    OneInputTotals(tokens);
    InputDollars(Totals(Disjoint, [OneInput(id, ts, tokens).usage]), from, rate);
  }

  lemma DollarsDiffer(tokens: int)
    requires tokens > 0
    ensures Dollars(tokens, Some(1.0)) != Dollars(tokens, Some(3.0))
  {
  }

  /** Rates 1 and 3 from two dates on. A row read before the second date and re-parsed to after it, with nothing
      else changed, is stamped as priced with the old rate's cost. */
  lemma TimestampOnlyReparseGoesStale(id: int, startedAt: string, tokens: int)
    requires tokens > 0
    ensures var read, now := OneInput(id, OLD_TS, tokens), OneInput(id, NEW_TS, tokens);
            && CasMatches(now, read)
            && Stamped(now, read, TwoRates(), startedAt).version == PRICING_VERSION
            && Stamped(now, read, TwoRates(), startedAt).stored != Proper(now, TwoRates())
  {
    TwoEpochs();
    RateByEpoch(Totals(Disjoint, [OneInput(id, OLD_TS, tokens).usage]));
    OneInputPrice(id, OLD_TS, tokens, OLD_RATE_FROM, 1.0);
    OneInputPrice(id, NEW_TS, tokens, NEW_RATE_FROM, 3.0);
    DollarsDiffer(tokens);
  }

  // ---- A timestamp that moves the epoch but not the rate ----

  /** Boundaries are pooled over all models: the second date is another model's. */
  function OtherModelsDate(): Catalog {
    Catalog(map["m" := [Rate(OLD_RATE_FROM, 1.0)], "n" := [Rate(NEW_RATE_FROM, 2.0)]], [NEW_RATE_FROM, OLD_RATE_FROM])
  }

  /** The epoch changes with the timestamp, and what is stored is right all the same. */
  lemma OtherModelsDateIsHarmless(id: int, startedAt: string, tokens: int)
    requires tokens > 0
    ensures var read, now := OneInput(id, OLD_TS, tokens), OneInput(id, NEW_TS, tokens);
            var w := Stamped(now, read, OtherModelsDate(), startedAt);
            && CasMatches(now, read) && w.version == PRICING_VERSION && w.stored == Proper(w, OtherModelsDate())
            && EpochOf(now, OtherModelsDate()) != EpochOf(read, OtherModelsDate())
  {
    var cat, h := OtherModelsDate(), [Rate(OLD_RATE_FROM, 1.0)];
    var read, now := OneInput(id, OLD_TS, tokens), OneInput(id, NEW_TS, tokens);
    TwoEpochs();
    assert OLD_RATE_FROM[0] == '0' && NEW_RATE_FROM[0] == '2' && EPOCH_UNKNOWN_TIME[0] == 'u';
    assert SnapshotAt(read, cat, read.ts) == Some(h[0]) && SnapshotAt(read, cat, now.ts) == Some(h[0]);
    OneInputTotals(tokens);
    InputDollars(TotalsOf(read), OLD_RATE_FROM, 1.0);
    assert Proper(read, cat).Some?;
    StoredIsRightIffSameRates(now, read, cat, startedAt);
  }

  // ---- The table beside re-parses ----

  /** What a re-parse leaves: the pricing state is cleared. */
  predicate Cleared(r: Row) { r.version == 0 && r.stored.None? && r.pricedAt.None? }

  /** What another pass leaves: the row is stamped with the price of its inputs, or as unpriceable. */
  predicate PricedElsewhere(r: Row, cat: Catalog) { r.pricedAt.Some? && r == Stamped(r, r, cat, r.pricedAt.value) }

  /** Others re-parse, insert, delete and price: every row is as it was, cleared, or stamped by another pass. */
  ghost predicate OthersStep(rows: seq<Row>, rows': seq<Row>, cat: Catalog) {
    DistinctRows(rows') && forall r | r in rows' :: r in rows || Cleared(r) || PricedElsewhere(r, cat)
  }

  /** Every row's timestamp is the one its id always had. */
  ghost predicate FixedTimes(rows: seq<Row>, times: map<int, Option<string>>) {
    forall r | r in rows :: r.id in times && times[r.id] == r.ts
  }

  ghost predicate AllHonest(rows: seq<Row>, cat: Catalog) {
    forall r | r in rows :: Honest(r, cat)
  }

  /** One UPDATE: the rows it matches are stamped. */
  function Cas(rows: seq<Row>, read: Row, cat: Catalog, startedAt: string): seq<Row> {
    if rows == [] then []
    else
      Cas(rows[..|rows| - 1], read, cat, startedAt)
      + [if CasMatches(rows[|rows| - 1], read) then Stamped(rows[|rows| - 1], read, cat, startedAt)
         else rows[|rows| - 1]]
  }

  predicate Matched(rows: seq<Row>, read: Row) {
    exists i :: 0 <= i < |rows| && CasMatches(rows[i], read)
  }

  lemma {:induction false} CasMembers(rows: seq<Row>, read: Row, cat: Catalog, startedAt: string)
    ensures |Cas(rows, read, cat, startedAt)| == |rows|
    ensures forall i | 0 <= i < |rows| ::
      Cas(rows, read, cat, startedAt)[i]
      == if CasMatches(rows[i], read) then Stamped(rows[i], read, cat, startedAt) else rows[i]
  {
    if rows != [] { CasMembers(rows[..|rows| - 1], read, cat, startedAt); }
  }

  lemma CasKeepsHonest(rows: seq<Row>, read: Row, cat: Catalog, startedAt: string, times: map<int, Option<string>>)
    requires DistinctRows(rows) && AllHonest(rows, cat) && FixedTimes(rows, times) && FixedTimes([read], times)
    ensures DistinctRows(Cas(rows, read, cat, startedAt)) && AllHonest(Cas(rows, read, cat, startedAt), cat)
    ensures FixedTimes(Cas(rows, read, cat, startedAt), times)
  {
    var rows' := Cas(rows, read, cat, startedAt);
    CasMembers(rows, read, cat, startedAt);
    assert read in [read];
    forall w | w in rows' ensures Honest(w, cat) && w.id in times && times[w.id] == w.ts {
      var i :| 0 <= i < |rows'| && rows'[i] == w;
      assert rows[i] in rows;
      if CasMatches(rows[i], read) && Proper(read, cat).Some? {
        CasIsHonestIffSameEpoch(rows[i], read, cat, startedAt);
      }
    }
    forall i, j | 0 <= i < j < |rows'| ensures rows'[i].id != rows'[j].id {
      assert rows[i].id != rows[j].id;
    }
  }

  class UsageTable {
    var rows: seq<Row>
    /** The timestamp of every id ever seen; re-parses are taken to keep it. */
    ghost var times: map<int, Option<string>>

    ghost predicate Valid(cat: Catalog)
      reads this
    {
      DistinctRows(rows) && AllHonest(rows, cat) && FixedTimes(rows, times)
    }

    constructor ()
      ensures forall cat :: Valid(cat)
    {
      rows, times := [], map[];
    }

    /** Any re-parses, inserts, deletes and passes of others; none when `quiet`. */
    method Interleave(cat: Catalog, ghost quiet: bool)
      requires Valid(cat)
      modifies this
      ensures Valid(cat) && OthersStep(old(rows), rows, cat)
      ensures forall id | id in old(times) :: id in times && times[id] == old(times)[id]
      ensures quiet ==> rows == old(rows) && times == old(times)
    {
    }

    /** The compare-and-set of one row, inside a batch: whether it changed anything. */
    method Write(read: Row, cat: Catalog, startedAt: string) returns (changed: bool)
      requires Valid(cat) && FixedTimes([read], times)
      modifies `rows
      ensures Valid(cat) && rows == Cas(old(rows), read, cat, startedAt) && changed == Matched(old(rows), read)
    {
      CasKeepsHonest(rows, read, cat, startedAt, times);
      changed := Matched(rows, read);
      rows := Cas(rows, read, cat, startedAt);
    }
  }

  // ---- Counters ----

  datatype PassResult = PassResult(examined: nat, priced: nat, unpriceable: nat, superseded: nat, more: bool)

  ghost predicate Adds(r: PassResult) { r.priced + r.unpriceable + r.superseded == r.examined }

  /** Optimistic counts: every row examined is counted as priced or unpriceable. */
  method CountAll(read: seq<Row>, cat: Catalog, result0: PassResult) returns (result: PassResult)
    ensures result == result0.(examined := result0.examined + |read|,
                               priced := result0.priced + PricedIn(read, cat),
                               unpriceable := result0.unpriceable + (|read| - PricedIn(read, cat)))
  {
    result := result0;
    for i := 0 to |read|
      invariant PricedIn(read[..i], cat) <= i
      invariant result
           == result0.(examined := result0.examined + i, priced := result0.priced + PricedIn(read[..i], cat),
                                   unpriceable := result0.unpriceable + (i - PricedIn(read[..i], cat)))
    {
      assert read[..i + 1][..i] == read[..i];
      result := result.(examined := result.examined + 1);
      if Proper(read[i], cat).None? {
        result := result.(unpriceable := result.unpriceable + 1);
      } else {
        result := result.(priced := result.priced + 1);
      }
    }
    assert read[..|read|] == read;
  }

  function PricedIn(read: seq<Row>, cat: Catalog): (n: nat)
    ensures n <= |read|
  {
    if read == [] then 0 else PricedIn(read[..|read| - 1], cat) + if Proper(read[|read| - 1], cat).Some? then 1 else 0
  }

  lemma PricedStep(read: seq<Row>, cat: Catalog, k: nat)
    requires k < |read|
    ensures PricedIn(read[..k + 1], cat) == PricedIn(read[..k], cat) + if Proper(read[k], cat).Some? then 1 else 0
  {
    assert read[..k + 1][..k] == read[..k];
  }

  lemma {:induction false} PricedPrefix(read: seq<Row>, cat: Catalog, k: nat)
    requires k <= |read|
    ensures 0 <= PricedIn(read, cat) - PricedIn(read[..k], cat) <= |read| - k
  {
    if k == |read| {
      assert read[..k] == read;
    } else {
      PricedPrefix(read[..|read| - 1], cat, k);
      assert read[..|read| - 1][..k] == read[..k];
    }
  }

  /** Enough is counted in each bucket for the rows not yet settled. */
  ghost predicate Covering(r: PassResult, read: seq<Row>, cat: Catalog, k: nat)
    requires k <= |read|
  {
    && Adds(r) && r.priced >= PricedIn(read, cat) - PricedIn(read[..k], cat)
    && r.unpriceable >= (|read| - k) - (PricedIn(read, cat) - PricedIn(read[..k], cat))
  }

  /** A lost write takes back the count its own row was given. */
  method Settle(read: seq<Row>, k: nat, changed: bool, cat: Catalog, result0: PassResult) returns (result: PassResult)
    requires k < |read| && Covering(result0, read, cat, k)
    ensures Covering(result, read, cat, k + 1) && result.examined == result0.examined && result.more == result0.more
    ensures changed ==> result == result0
    ensures !changed ==> result.superseded == result0.superseded + 1
    ensures !changed && Proper(read[k], cat).Some? ==>
      result.priced == result0.priced - 1 && result.unpriceable == result0.unpriceable
    ensures !changed && Proper(read[k], cat).None? ==>
      result.priced == result0.priced && result.unpriceable == result0.unpriceable - 1
  {
    result := result0;
    PricedStep(read, cat, k);
    PricedPrefix(read, cat, k + 1);
    if changed { return; }
    result := result.(superseded := result.superseded + 1);
    if Proper(read[k], cat).Some? {
      result := result.(priced := Max0(result.priced - 1));
    } else {
      result := result.(unpriceable := Max0(result.unpriceable - 1));
    }
  }

  // ---- What holds when nobody else writes ----

  /** The row is one of these, stamped with its own price. */
  ghost predicate IsStamped(start: seq<Row>, w: Row, startedAt: string, cat: Catalog) {
    exists r :: r in start && w == Stamped(r, r, cat, startedAt)
  }

  /** Attempted rows are stamped with the price of what they held, and no other row changed since the pass started. */
  ghost predicate OnlyAttempted(start: seq<Row>, rows: seq<Row>, ids: seq<int>, startedAt: string, cat: Catalog) {
    && (forall w | w in rows :: if w.id in ids then IsStamped(start, w, startedAt, cat) else w in start)
    && (forall r | r in start :: r.id in ids || r in rows)
  }

  /** A stamped row is not due again in this pass. */
  lemma StampedIsAttempted(start: seq<Row>, w: Row, startedAt: string, cat: Catalog)
    requires IsStamped(start, w, startedAt, cat)
    ensures !Unattempted(w, startedAt)
  {
    LessIsIrreflexive(startedAt);
  }

  lemma SameRow(rows: seq<Row>, a: Row, b: Row)
    requires DistinctRows(rows) && a in rows && b in rows && a.id == b.id
    ensures a == b
  {
    var i :| 0 <= i < |rows| && rows[i] == a;
    var j :| 0 <= j < |rows| && rows[j] == b;
  }

  lemma QuietWrite(start: seq<Row>, rows: seq<Row>, ids: seq<int>, read: Row, cat: Catalog, startedAt: string)
    requires DistinctRows(rows) && OnlyAttempted(start, rows, ids, startedAt, cat) && read in rows && read.id !in ids
    ensures Matched(rows, read)
    ensures OnlyAttempted(start, Cas(rows, read, cat, startedAt), ids + [read.id], startedAt, cat)
  {
    var rows' := Cas(rows, read, cat, startedAt);
    CasMembers(rows, read, cat, startedAt);
    var k :| 0 <= k < |rows| && rows[k] == read;
    assert CasMatches(rows[k], read);
    forall w | w in rows' ensures if w.id in ids + [read.id] then IsStamped(start, w, startedAt, cat) else w in start {
      var i :| 0 <= i < |rows'| && rows'[i] == w;
      assert rows[i] in rows;
      if w.id == read.id {
        SameRow(rows, rows[i], read);
        assert read in start && w == Stamped(read, read, cat, startedAt);
      }
    }
    forall r | r in start && r.id !in ids + [read.id] ensures r in rows' {
      var i :| 0 <= i < |rows| && rows[i] == r;
      assert rows'[i] == r;
    }
  }

  // ---- One read and its writes ----

  ghost predicate ReadFrom(rows: seq<Row>, read: seq<Row>) {
    && (forall r | r in read :: r in rows)
    && forall i, j | 0 <= i < j < |read| :: read[i].id != read[j].id
  }

  method LookUp(rows: seq<Row>, id: int) returns (r: Row)
    requires DistinctRows(rows) && exists q :: q in rows && q.id == id
    ensures r in rows && r.id == id
  {
    var i := 0;
    while i < |rows| && rows[i].id != id
      invariant 0 <= i <= |rows| && forall k | 0 <= k < i :: rows[k].id != id
    {
      i := i + 1;
    }
    r := rows[i];
  }

  lemma TopMembers(due: seq<Candidate>, limit: nat)
    requires DistinctIds(due)
    ensures DistinctIds(Top(Order(), due, limit))
    ensures forall c | c in Top(Order(), due, limit) :: c in due
    ensures |Top(Order(), due, limit)| < limit ==> forall c | c in due :: c in Top(Order(), due, limit)
    ensures |Top(Order(), due, limit)| <= limit
  {
    SortPermutes(Order(), due);
    DistinctPermuted(due, Sort(Order(), due));
    var top := Top(Order(), due, limit);
    forall c | c in top ensures c in due { assert c in multiset(Sort(Order(), due)); }
    forall c | c in due && |top| < limit ensures c in top { assert c in multiset(Sort(Order(), due)); }
  }

  /** The rows of one read: due, each once, at most `take`; all due rows when fewer come back. */
  method SelectUnpriced(rows: seq<Row>, startedAt: string, scope: Option<seq<string>>, take: nat)
    returns (read: seq<Row>)
    requires DistinctRows(rows)
    ensures ReadFrom(rows, read) && |read| <= take
    ensures forall r | r in read :: IsDue(r, startedAt, scope, PRICING_VERSION)
    ensures |read| < take ==> forall r | r in rows && IsDue(r, startedAt, scope, PRICING_VERSION) :: r in read
    ensures |read| == |Top(Order(), Due(rows, startedAt, scope, PRICING_VERSION), take)|
    ensures forall i | 0 <= i < |read| ::
      CandidateOf(read[i]) == Top(Order(), Due(rows, startedAt, scope, PRICING_VERSION), take)[i]
  {
    var candidates := SelectCandidates(rows, startedAt, scope, take, PRICING_VERSION);
    DueDistinct(rows, startedAt, scope, PRICING_VERSION);
    TopMembers(Due(rows, startedAt, scope, PRICING_VERSION), take);
    read := [];
    for i := 0 to |candidates|
      invariant |read| == i && forall k | 0 <= k < i :: Fetched(rows, read[k], candidates[k], startedAt, scope)
    {
      assert candidates[i] in candidates;
      DueMembers(rows, startedAt, scope, PRICING_VERSION, candidates[i]);
      var r := LookUp(rows, candidates[i].id);
      FetchedRow(rows, r, candidates[i], startedAt, scope);
      read := read + [r];
    }
    FetchedAll(rows, read, candidates, startedAt, scope, take);
  }

  ghost predicate Fetched(rows: seq<Row>, r: Row, c: Candidate, startedAt: string, scope: Option<seq<string>>) {
    r in rows && CandidateOf(r) == c && IsDue(r, startedAt, scope, PRICING_VERSION)
  }

  lemma FetchedRow(rows: seq<Row>, r: Row, c: Candidate, startedAt: string, scope: Option<seq<string>>)
    requires DistinctRows(rows) && r in rows && r.id == c.id && c in Due(rows, startedAt, scope, PRICING_VERSION)
    ensures Fetched(rows, r, c, startedAt, scope)
  {
    DueMembers(rows, startedAt, scope, PRICING_VERSION, c);
    var q :| q in rows && IsDue(q, startedAt, scope, PRICING_VERSION) && CandidateOf(q) == c;
    SameRow(rows, q, r);
  }

  lemma FetchedAll(rows: seq<Row>, read: seq<Row>, candidates: seq<Candidate>, startedAt: string,
                   scope: Option<seq<string>>, take: nat)
    requires DistinctRows(rows) && |read| == |candidates|
    requires forall k | 0 <= k < |read| :: Fetched(rows, read[k], candidates[k], startedAt, scope)
    requires DistinctIds(candidates)
    requires |candidates| < take ==> forall c | c in Due(rows, startedAt, scope, PRICING_VERSION) :: c in candidates
    ensures ReadFrom(rows, read) && forall r | r in read :: IsDue(r, startedAt, scope, PRICING_VERSION)
    ensures |read| < take ==> forall r | r in rows && IsDue(r, startedAt, scope, PRICING_VERSION) :: r in read
  {
    forall i, j | 0 <= i < j < |read| ensures read[i].id != read[j].id {
      assert Fetched(rows, read[i], candidates[i], startedAt, scope) && Fetched(rows, read[j], candidates[j], startedAt,
                                                                                scope);
      assert candidates[i].id != candidates[j].id;
    }
    forall r | r in read ensures r in rows && IsDue(r, startedAt, scope, PRICING_VERSION) {
      var k :| 0 <= k < |read| && read[k] == r;
      assert Fetched(rows, read[k], candidates[k], startedAt, scope);
    }
    forall r | |read| < take && r in rows && IsDue(r, startedAt, scope, PRICING_VERSION) ensures r in read {
      DueMembers(rows, startedAt, scope, PRICING_VERSION, CandidateOf(r));
      var k :| 0 <= k < |candidates| && candidates[k] == CandidateOf(r);
      assert Fetched(rows, read[k], candidates[k], startedAt, scope);
      SameRow(rows, read[k], r);
    }
  }

  function ReadIds(read: seq<Row>): seq<int> {
    seq(|read|, i requires 0 <= i < |read| => read[i].id)
  }

  /** Without interference the rows read from k on are still there, unattempted by this pass. */
  ghost predicate Waiting(rows: seq<Row>, read: seq<Row>, k: nat, ids: seq<int>)
    requires k <= |read|
  {
    forall i | k <= i < |read| :: read[i] in rows && read[i].id !in ids
  }

  /** One slice of writes, as one transaction. */
  method ApplySlice(t: UsageTable, read: seq<Row>, from: nat, to: nat, cat: Catalog, startedAt: string,
                    ghost quiet: bool, ghost start: seq<Row>, ghost ids0: seq<int>)
    returns (changes: seq<bool>, ghost ids: seq<int>)
    requires t.Valid(cat) && from <= to <= |read| && FixedTimes(read, t.times)
    requires forall i, j | 0 <= i < j < |read| :: read[i].id != read[j].id
    requires quiet ==> OnlyAttempted(start, t.rows, ids0, startedAt, cat) && Waiting(t.rows, read, from, ids0)
    modifies t
    ensures t.Valid(cat) && FixedTimes(read, t.times) && |changes| == to - from
    ensures quiet ==> forall j | 0 <= j < |changes| :: changes[j]
    ensures ids == ids0 + ReadIds(read[from..to])
    ensures quiet ==> OnlyAttempted(start, t.rows, ids, startedAt, cat) && Waiting(t.rows, read, to, ids)
  {
    ids, changes := ids0, [];
    t.Interleave(cat, quiet);
    for k := from to to
      invariant t.Valid(cat) && FixedTimes(read, t.times) && |changes| == k - from
      invariant quiet ==> forall j | 0 <= j < |changes| :: changes[j]
      invariant ids == ids0 + ReadIds(read[from..k])
      invariant quiet ==> OnlyAttempted(start, t.rows, ids, startedAt, cat) && Waiting(t.rows, read, k, ids)
    {
      var changed := WriteOne(t, read, k, cat, startedAt, quiet, start, ids);
      NextId(read, from, k);
      changes := changes + [changed];
      ids := ids + [read[k].id];
    }
  }

  method WriteOne(t: UsageTable, read: seq<Row>, k: nat, cat: Catalog, startedAt: string,
                  ghost quiet: bool, ghost start: seq<Row>, ghost ids: seq<int>) returns (changed: bool)
    requires t.Valid(cat) && k < |read| && FixedTimes(read, t.times)
    requires forall i, j | 0 <= i < j < |read| :: read[i].id != read[j].id
    requires quiet ==> OnlyAttempted(start, t.rows, ids, startedAt, cat) && Waiting(t.rows, read, k, ids)
    modifies t`rows
    ensures t.Valid(cat) && (quiet ==> changed)
    ensures t.rows == Cas(old(t.rows), read[k], cat, startedAt) && changed == Matched(old(t.rows), read[k])
    ensures quiet ==>
      OnlyAttempted(start, t.rows, ids + [read[k].id], startedAt, cat)
      && Waiting(t.rows, read, k + 1, ids + [read[k].id])
  {
    assert read[k] in read;
    if quiet {
      QuietStep(start, t.rows, ids, read, k, cat, startedAt);
      QuietWrite(start, t.rows, ids, read[k], cat, startedAt);
    }
    changed := t.Write(read[k], cat, startedAt);
  }

  /** The counts of one slice, row by row. */
  method SettleSlice(read: seq<Row>, from: nat, changes: seq<bool>, cat: Catalog, result0: PassResult)
    returns (result: PassResult)
    requires from + |changes| <= |read| && Covering(result0, read, cat, from)
    ensures Covering(result, read, cat, from + |changes|)
    ensures result.examined == result0.examined && result.more == result0.more
    ensures (forall j | 0 <= j < |changes| :: changes[j]) ==> result == result0
  {
    result := result0;
    var k := from;
    while k < from + |changes|
      invariant from <= k <= from + |changes| && Covering(result, read, cat, k)
      invariant result.examined == result0.examined && result.more == result0.more
      invariant (forall j | 0 <= j < k - from :: changes[j]) ==> result == result0
    {
      result := Settle(read, k, changes[k - from], cat, result);
      k := k + 1;
    }
  }

  lemma NextId(read: seq<Row>, from: nat, k: nat)
    requires from <= k < |read|
    ensures ReadIds(read[from..k + 1]) == ReadIds(read[from..k]) + [read[k].id]
  {
  }

  lemma QuietStep(start: seq<Row>, rows: seq<Row>, ids: seq<int>, read: seq<Row>, k: nat, cat: Catalog,
                  startedAt: string)
    requires DistinctRows(rows) && OnlyAttempted(start, rows, ids, startedAt, cat) && k < |read|
    requires Waiting(rows, read, k, ids)
    requires forall i, j | 0 <= i < j < |read| :: read[i].id != read[j].id
    ensures OnlyAttempted(start, Cas(rows, read[k], cat, startedAt), ids + [read[k].id], startedAt, cat)
    ensures Waiting(Cas(rows, read[k], cat, startedAt), read, k + 1, ids + [read[k].id])
  {
    QuietWrite(start, rows, ids, read[k], cat, startedAt);
    CasMembers(rows, read[k], cat, startedAt);
    forall i | k + 1 <= i < |read| ensures read[i] in Cas(rows, read[k], cat, startedAt) {
      var j :| 0 <= j < |rows| && rows[j] == read[i];
      assert Cas(rows, read[k], cat, startedAt)[j] == read[i];
    }
  }

  /** One batch of writes and its counts. */
  method WriteBatch(t: UsageTable, read: seq<Row>, from: nat, cat: Catalog, startedAt: string, result0: PassResult,
                    ghost quiet: bool, ghost start: seq<Row>, ghost ids0: seq<int>)
    returns (to: nat, result: PassResult, ghost ids: seq<int>)
    requires t.Valid(cat) && from < |read| && FixedTimes(read, t.times) && Covering(result0, read, cat, from)
    requires forall i, j | 0 <= i < j < |read| :: read[i].id != read[j].id
    requires quiet ==> OnlyAttempted(start, t.rows, ids0, startedAt, cat) && Waiting(t.rows, read, from, ids0)
    modifies t
    ensures from < to <= |read| && t.Valid(cat) && FixedTimes(read, t.times) && Covering(result, read, cat, to)
    ensures result.examined == result0.examined && result.more == result0.more && (quiet ==> result == result0)
    ensures ids == ids0 + ReadIds(read[from..to])
    ensures quiet ==> OnlyAttempted(start, t.rows, ids, startedAt, cat) && Waiting(t.rows, read, to, ids)
  {
    to := if from + PRICING_WRITE_BATCH < |read| then from + PRICING_WRITE_BATCH else |read|;
    var changes;
    changes, ids := ApplySlice(t, read, from, to, cat, startedAt, quiet, start, ids0);
    result := SettleSlice(read, from, changes, cat, result0);
  }

  /** All writes of one read, slice by slice. */
  method WriteAll(t: UsageTable, read: seq<Row>, cat: Catalog, startedAt: string, result0: PassResult,
                  ghost quiet: bool, ghost start: seq<Row>, ghost ids0: seq<int>)
    returns (result: PassResult, ghost ids: seq<int>)
    requires t.Valid(cat) && FixedTimes(read, t.times) && Covering(result0, read, cat, 0)
    requires forall i, j | 0 <= i < j < |read| :: read[i].id != read[j].id
    requires quiet ==> OnlyAttempted(start, t.rows, ids0, startedAt, cat) && Waiting(t.rows, read, 0, ids0)
    modifies t
    ensures t.Valid(cat) && Adds(result)
    ensures result.examined == result0.examined && result.more == result0.more && (quiet ==> result == result0)
    ensures ids == ids0 + ReadIds(read)
    ensures quiet ==> OnlyAttempted(start, t.rows, ids, startedAt, cat)
  {
    ids, result := ids0, result0;
    var i := 0;
    assert ids0 + ReadIds(read[..0]) == ids0;
    while i < |read|
      invariant 0 <= i <= |read| && t.Valid(cat) && FixedTimes(read, t.times) && Covering(result, read, cat, i)
      invariant result.examined == result0.examined && result.more == result0.more && (quiet ==> result == result0)
      invariant ids == ids0 + ReadIds(read[..i])
      invariant quiet ==> OnlyAttempted(start, t.rows, ids, startedAt, cat) && Waiting(t.rows, read, i, ids)
    {
      var end;
      end, result, ids := WriteBatch(t, read, i, cat, startedAt, result, quiet, start, ids);
      IdsJoin(ids0, read, i, end);
      i := end;
    }
    assert read[..|read|] == read;
  }

  lemma IdsJoin(ids0: seq<int>, read: seq<Row>, i: nat, end: nat)
    requires i <= end <= |read|
    ensures (ids0 + ReadIds(read[..i])) + ReadIds(read[i..end]) == ids0 + ReadIds(read[..end])
  {
    assert read[..end] == read[..i] + read[i..end];
  }

  // ---- The pass ----

  /** The rows just read are not among those already attempted. */
  lemma ReadIsNew(start: seq<Row>, rows: seq<Row>, read: seq<Row>, ids: seq<int>, startedAt: string,
                  scope: Option<seq<string>>, cat: Catalog)
    requires OnlyAttempted(start, rows, ids, startedAt, cat) && ReadFrom(rows, read)
    requires forall r | r in read :: IsDue(r, startedAt, scope, PRICING_VERSION)
    ensures Waiting(rows, read, 0, ids)
  {
    forall i | 0 <= i < |read| ensures read[i] in rows && read[i].id !in ids {
      assert read[i] in read;
      if read[i].id in ids { StampedIsAttempted(start, read[i], startedAt, cat); }
    }
  }

  ghost predicate Distinct(ids: seq<int>) {
    forall i, j | 0 <= i < j < |ids| :: ids[i] != ids[j]
  }

  lemma StillDistinct(ids: seq<int>, read: seq<Row>, rows: seq<Row>)
    requires Distinct(ids) && Waiting(rows, read, 0, ids) && ReadFrom(rows, read)
    ensures Distinct(ids + ReadIds(read)) && |ids + ReadIds(read)| == |ids| + |read|
  {
    var all := ids + ReadIds(read);
    forall i, j | 0 <= i < j < |all| ensures all[i] != all[j] {
      if i < |ids| <= j {
        assert read[j - |ids|] in rows && ids[i] in ids;
      } else if |ids| <= i {
        assert read[i - |ids|].id != read[j - |ids|].id;
      }
    }
  }

  lemma ReadIsAttempted(read: seq<Row>, ids: seq<int>)
    ensures forall r | r in read :: r.id in ids + ReadIds(read)
  {
    forall r | r in read ensures r.id in ids + ReadIds(read) {
      var i :| 0 <= i < |read| && read[i] == r;
      assert ReadIds(read)[i] == r.id;
    }
  }

  /** A short read had every due row, and all its rows were attempted. */
  lemma NothingLeft(start: seq<Row>, rows: seq<Row>, rows': seq<Row>, read: seq<Row>, ids: seq<int>, ids': seq<int>,
                    startedAt: string, scope: Option<seq<string>>, cat: Catalog)
    requires OnlyAttempted(start, rows, ids, startedAt, cat) && OnlyAttempted(start, rows', ids', startedAt, cat)
    requires ids' == ids + ReadIds(read)
    requires forall r | r in rows && IsDue(r, startedAt, scope, PRICING_VERSION) :: r in read
    ensures forall w | w in rows' :: !IsDue(w, startedAt, scope, PRICING_VERSION)
  {
    ReadIsAttempted(read, ids);
    forall w | w in rows' ensures !IsDue(w, startedAt, scope, PRICING_VERSION) {
      if w.id in ids' {
        StampedIsAttempted(start, w, startedAt, cat);
      } else {
        assert w in start && w.id !in ids && w in rows;
      }
    }
  }

  lemma {:induction false} PricedJoin(a: seq<Row>, b: seq<Row>, cat: Catalog)
    ensures PricedIn(a + b, cat) == PricedIn(a, cat) + PricedIn(b, cat)
    decreases |b|
  {
    if b == [] {
      assert a + b == a;
    } else {
      assert (a + b)[..|a + b| - 1] == a + b[..|b| - 1];
      PricedJoin(a, b[..|b| - 1], cat);
    }
  }

  lemma ReadIdsJoin(a: seq<Row>, b: seq<Row>)
    ensures ReadIds(a + b) == ReadIds(a) + ReadIds(b)
  {
  }

  /** Where an undisturbed pass stands: these rows of the start were attempted, each once, and each is counted. */
  ghost predicate QuietPass(start: seq<Row>, rows: seq<Row>, attempted: seq<Row>, startedAt: string, cat: Catalog,
                            result: PassResult)
  {
    && OnlyAttempted(start, rows, ReadIds(attempted), startedAt, cat) && Distinct(ReadIds(attempted))
    && (forall r | r in attempted :: r in start)
    && result.superseded == 0 && result.priced == PricedIn(attempted, cat)
  }

  lemma QuietStart(start: seq<Row>, startedAt: string, cat: Catalog)
    ensures QuietPass(start, start, [], startedAt, cat, PassResult(0, 0, 0, 0, false))
  {
  }

  lemma QuietRead(start: seq<Row>, rows: seq<Row>, read: seq<Row>, attempted: seq<Row>, startedAt: string, cat: Catalog)
    requires OnlyAttempted(start, rows, ReadIds(attempted), startedAt, cat)
    requires Waiting(rows, read, 0, ReadIds(attempted))
    ensures forall r | r in read :: r in start
  {
    forall r | r in read ensures r in start {
      var i :| 0 <= i < |read| && read[i] == r;
      assert read[i] in rows && read[i].id !in ReadIds(attempted);
    }
  }

  /** One read and its writes. */
  method PassRound(t: UsageTable, cat: Catalog, startedAt: string, scope: Option<seq<string>>, take: nat,
                   result0: PassResult, ghost quiet: bool, ghost start: seq<Row>, ghost attempted0: seq<Row>)
    returns (result: PassResult, count: nat, ghost attempted: seq<Row>)
    requires t.Valid(cat) && Adds(result0)
    requires quiet ==> QuietPass(start, t.rows, attempted0, startedAt, cat, result0)
    modifies t
    ensures t.Valid(cat) && Adds(result) && count <= take
    ensures result.examined == result0.examined + count && result.more == result0.more
    ensures |attempted| == |attempted0| + count
    ensures quiet ==> QuietPass(start, t.rows, attempted, startedAt, cat, result)
    ensures quiet && count < take ==> forall w | w in t.rows :: !IsDue(w, startedAt, scope, PRICING_VERSION)
  {
    t.Interleave(cat, quiet);
    ghost var rows1 := t.rows;
    ghost var ids0 := ReadIds(attempted0);
    var read := SelectUnpriced(t.rows, startedAt, scope, take);
    count := |read|;
    attempted := attempted0 + read;
    ReadIdsJoin(attempted0, read);
    PricedJoin(attempted0, read, cat);
    forall r | r in read ensures r.id in t.times && t.times[r.id] == r.ts {}
    result := CountAll(read, cat, result0);
    assert read[..0] == [];
    PricedPrefix(read, cat, 0);
    if quiet {
      ReadIsNew(start, rows1, read, ids0, startedAt, scope, cat);
      QuietRead(start, rows1, read, attempted0, startedAt, cat);
      StillDistinct(ids0, read, rows1);
    }
    ghost var ids;
    result, ids := WriteAll(t, read, cat, startedAt, result, quiet, start, ids0);
    if quiet && count < take { NothingLeft(start, rows1, t.rows, read, ids0, ids, startedAt, scope, cat); }
  }

  /** Prices due rows until the budget is spent or a read comes back short. With `quiet` nobody else writes;
      `attempted` are the rows examined, as they were read, in order. */
  method PriceUsage(t: UsageTable, cat: Catalog, startedAt: string, sessionIds: Option<seq<string>>, maxRows: nat,
                    readBatch: nat,
                    ghost quiet: bool)
    returns (result: PassResult, ghost attempted: seq<Row>)
    requires t.Valid(cat)
    modifies t
    ensures t.Valid(cat)
    ensures result.priced + result.unpriceable + result.superseded == result.examined <= maxRows
    ensures |attempted| == result.examined
    ensures result.more && readBatch >= 1 ==> result.examined == maxRows
    ensures quiet ==> QuietPass(old(t.rows), t.rows, attempted, startedAt, cat, result)
    ensures quiet && !result.more ==> forall r | r in t.rows :: !IsDue(r, startedAt, sessionIds, PRICING_VERSION)
  {
    result, attempted := PassResult(0, 0, 0, 0, false), [];
    ghost var start := t.rows;
    QuietStart(start, startedAt, cat);
    if sessionIds == Some([]) { return; }
    var ranDry := false;
    while !ranDry && result.examined < maxRows
      invariant t.Valid(cat) && Adds(result) && result.examined == |attempted| <= maxRows
      invariant quiet ==> QuietPass(start, t.rows, attempted, startedAt, cat, result)
      invariant quiet && ranDry ==> forall r | r in t.rows :: !IsDue(r, startedAt, sessionIds, PRICING_VERSION)
      decreases !ranDry, maxRows - result.examined
    {
      var take := if readBatch < maxRows - result.examined then readBatch else maxRows - result.examined;
      var count;
      result, count, attempted := PassRound(t, cat, startedAt, sessionIds, take, result, quiet, start, attempted);
      ranDry := count < take;
      if count == 0 { break; }
    }
    result := result.(more := !ranDry);
  }
}
