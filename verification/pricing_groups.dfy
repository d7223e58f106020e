/** Pricing a group of rows at once, and choosing the rate snapshot of a group. */
module PricingGroups {
  import opened Wrappers
  import opened TextOrder
  import opened Sorting
  import opened PricingCost

  // ---- Shapes and sums ----

  /** The GROUP BY columns: the basis and which token classes are present. */
  datatype Shape = Shape(basis: Basis, hasInput: bool, hasFreshInput: bool, hasOutput: bool, hasRead: bool,
                         has5m: bool, has1h: bool)

  function Coalesce(v: Option<int>): int { v.GetOr(0) }

  function ShapeOf(u: Usage): Shape {
    Shape(u.basis, Coalesce(u.input) > 0,
          Max0(Max0(Coalesce(u.input)) - Max0(Coalesce(u.cacheRead))) > 0,
          Coalesce(u.output) > 0, Coalesce(u.cacheRead) > 0, Coalesce(u.write5m) > 0, Coalesce(u.write1h) > 0)
  }

  /** A stored row: nothing is pre-aggregated. */
  predicate Raw(u: Usage) { u.freshInput.None? && u.billableRead.None? }

  function Sum(rows: seq<Usage>, f: Usage -> nat): nat {
    if rows == [] then 0 else Sum(rows[..|rows| - 1], f) + f(rows[|rows| - 1])
  }

  function InputSum(): Usage -> nat { (u: Usage) => Max0(Coalesce(u.input)) }
  function OutputSum(): Usage -> nat { (u: Usage) => Max0(Coalesce(u.output)) }
  function ReadSum(): Usage -> nat { (u: Usage) => Max0(Coalesce(u.cacheRead)) }
  function Write5mSum(): Usage -> nat { (u: Usage) => Max0(Coalesce(u.write5m)) }
  function Write1hSum(): Usage -> nat { (u: Usage) => Max0(Coalesce(u.write1h)) }
  function FreshSum(): Usage -> nat { (u: Usage) => Max0(Max0(Coalesce(u.input)) - Max0(Coalesce(u.cacheRead))) }
  function BillableReadSum(): Usage -> nat {
    (u: Usage) => Max0(Min(Max0(Coalesce(u.cacheRead)), Max0(Coalesce(u.input))))
  }

  /** The group's token sums, with both clamps applied row by row. */
  function Totals(basis: Basis, rows: seq<Usage>): Usage {
    Usage(basis, Some(Sum(rows, InputSum())), Some(Sum(rows, OutputSum())), Some(Sum(rows, ReadSum())),
          Some(Sum(rows, Write5mSum())), Some(Sum(rows, Write1hSum())),
          Some(Sum(rows, FreshSum())), Some(Sum(rows, BillableReadSum())))
  }

  /** The query's sum for a class. */
  function SumFor(basis: Basis, c: Class): Usage -> nat {
    match c
    case Input => if basis.Subset? then FreshSum() else InputSum()
    case Output => OutputSum()
    case CacheRead => if basis.Subset? then BillableReadSum() else ReadSum()
    case Write5m => Write5mSum()
    case Write1h => Write1hSum()
  }

  lemma RowTokens(u: Usage, c: Class)
    requires Raw(u)
    ensures Tokens(u, c) == SumFor(u.basis, c)(u)
  {
  }

  lemma TotalTokens(basis: Basis, rows: seq<Usage>, c: Class)
    ensures Tokens(Totals(basis, rows), c) == Sum(rows, SumFor(basis, c))
  {
  }

  ghost predicate SameShape(rows: seq<Usage>, shape: Shape) {
    forall i | 0 <= i < |rows| :: Raw(rows[i]) && ShapeOf(rows[i]) == shape
  }

  /** The shape decides which classes a row has billable tokens in. */
  lemma ShapeDecidesPresence(u: Usage, v: Usage, c: Class)
    requires Raw(u) && Raw(v) && ShapeOf(u) == ShapeOf(v)
    ensures Tokens(u, c) > 0 <==> Tokens(v, c) > 0
  {
  }

  lemma {:induction false} SumPresence(rows: seq<Usage>, f: Usage -> nat, present: bool)
    requires rows != [] && forall i | 0 <= i < |rows| :: f(rows[i]) > 0 <==> present
    ensures Sum(rows, f) > 0 <==> present
  {
    if |rows| > 1 {
      SumPresence(rows[..|rows| - 1], f, present);
    } else {
      assert rows[..0] == [];
    }
  }

  lemma GroupPresence(rows: seq<Usage>, shape: Shape, c: Class, i: nat)
    requires rows != [] && SameShape(rows, shape) && i < |rows|
    ensures Tokens(Totals(shape.basis, rows), c) > 0 <==> Tokens(rows[i], c) > 0
  {
    TotalTokens(shape.basis, rows, c);
    forall j | 0 <= j < |rows| ensures SumFor(shape.basis, c)(rows[j]) > 0 <==> Tokens(rows[i], c) > 0 {
      RowTokens(rows[j], c);
      ShapeDecidesPresence(rows[j], rows[i], c);
    }
    SumPresence(rows, SumFor(shape.basis, c), Tokens(rows[i], c) > 0);
  }

  /** Rows with the same basis and the same classes present are priced alike: both or neither, at the same rates. */
  lemma PresenceDecidesRates(u: Usage, v: Usage, price: Option<Price>, batch: bool)
    requires u.basis == v.basis && forall c :: Tokens(u, c) > 0 <==> Tokens(v, c) > 0
    ensures CostOfUsage(u, price, batch).Unpriced? <==> CostOfUsage(v, price, batch).Unpriced?
    ensures CostOfUsage(u, price, batch).Rates() == CostOfUsage(v, price, batch).Rates()
    ensures CostOfUsage(u, price, batch).Set() == CostOfUsage(v, price, batch).Set()
  {
    assert Tokens(u, Input) > 0 <==> Tokens(v, Input) > 0;
    assert Tokens(u, Output) > 0 <==> Tokens(v, Output) > 0;
    assert Tokens(u, CacheRead) > 0 <==> Tokens(v, CacheRead) > 0;
    assert Tokens(u, Write5m) > 0 <==> Tokens(v, Write5m) > 0;
    assert Tokens(u, Write1h) > 0 <==> Tokens(v, Write1h) > 0;
  }

  // ---- Amounts ----

  function SumAmounts(rows: seq<Usage>, price: Option<Price>, batch: bool, c: Class): real {
    if rows == [] then 0.0
    else SumAmounts(rows[..|rows| - 1], price, batch, c) + CostOfUsage(rows[|rows| - 1], price, batch).Amount(c)
  }

  function SumUsd(rows: seq<Usage>, price: Option<Price>, batch: bool): real {
    if rows == [] then 0.0
    else SumUsd(rows[..|rows| - 1], price, batch) + CostOfUsage(rows[|rows| - 1], price, batch).Usd()
  }

  lemma DollarsAdd(a: nat, b: nat, rate: Option<real>)
    ensures Dollars(a + b, rate) == Dollars(a, rate) + Dollars(b, rate)
  {
    var r := rate.GetOr(0.0);
    assert ((a + b) as real) * r == (a as real) * r + (b as real) * r;
  }

  function SumDollars(rows: seq<Usage>, f: Usage -> nat, rate: Option<real>): real {
    if rows == [] then 0.0 else SumDollars(rows[..|rows| - 1], f, rate) + Dollars(f(rows[|rows| - 1]), rate)
  }

  lemma {:induction false} DollarsOfSum(rows: seq<Usage>, f: Usage -> nat, rate: Option<real>)
    ensures Dollars(Sum(rows, f), rate) == SumDollars(rows, f, rate)
  {
    if rows != [] {
      DollarsOfSum(rows[..|rows| - 1], f, rate);
      DollarsAdd(Sum(rows[..|rows| - 1], f), f(rows[|rows| - 1]), rate);
    }
  }

  lemma RowAmount(u: Usage, shape: Shape, price: Price, batch: bool, c: Class)
    requires Raw(u) && ShapeOf(u) == shape && CostOfUsage(u, Some(price), batch).Priced?
    ensures CostOfUsage(u, Some(price), batch).Amount(c) == Dollars(SumFor(shape.basis, c)(u), RateOf(price, batch, c))
  {
    RowTokens(u, c);
    AmountIs(u, Some(price), batch, c);
  }

  lemma {:induction false} AmountsAreDollars(rows: seq<Usage>, shape: Shape, price: Price, batch: bool, c: Class)
    requires SameShape(rows, shape)
    requires forall i | 0 <= i < |rows| :: CostOfUsage(rows[i], Some(price), batch).Priced?
    ensures SumAmounts(rows, Some(price), batch, c) == SumDollars(rows, SumFor(shape.basis, c), RateOf(price, batch, c))
  {
    if rows != [] {
      AmountsAreDollars(rows[..|rows| - 1], shape, price, batch, c);
      RowAmount(rows[|rows| - 1], shape, price, batch, c);
    }
  }

  lemma {:induction false} NoAmounts(rows: seq<Usage>, price: Option<Price>, batch: bool, c: Class)
    requires forall i | 0 <= i < |rows| :: !CostOfUsage(rows[i], price, batch).Priced?
    ensures SumAmounts(rows, price, batch, c) == 0.0
  {
    if rows != [] { NoAmounts(rows[..|rows| - 1], price, batch, c); }
  }

  lemma {:induction false} UsdIsAmounts(rows: seq<Usage>, price: Option<Price>, batch: bool)
    ensures SumUsd(rows, price, batch)
         == SumAmounts(rows, price, batch, Input) + SumAmounts(rows, price, batch, Output)
            + SumAmounts(rows, price, batch, CacheRead)
            + SumAmounts(rows, price, batch, Write5m) + SumAmounts(rows, price, batch, Write1h)
  {
    if rows != [] { UsdIsAmounts(rows[..|rows| - 1], price, batch); }
  }

  /** Rows of one shape are priced at once as they are one by one: unpriced together, at the same rates. */
  lemma GroupAgrees(rows: seq<Usage>, shape: Shape, price: Option<Price>, batch: bool, i: nat)
    requires rows != [] && SameShape(rows, shape) && i < |rows|
    ensures var g, r := CostOfUsage(Totals(shape.basis, rows), price, batch), CostOfUsage(rows[i], price, batch);
            (g.Unpriced? <==> r.Unpriced?) && g.Rates() == r.Rates() && g.Set() == r.Set()
  {
    forall c ensures Tokens(Totals(shape.basis, rows), c) > 0 <==> Tokens(rows[i], c) > 0 {
      GroupPresence(rows, shape, c, i);
    }
    PresenceDecidesRates(Totals(shape.basis, rows), rows[i], price, batch);
  }

  /** The group's dollars, in each class, are the sum of its rows' dollars. */
  lemma GroupAmountIsSum(rows: seq<Usage>, shape: Shape, price: Option<Price>, batch: bool, c: Class)
    requires rows != [] && SameShape(rows, shape)
    ensures CostOfUsage(Totals(shape.basis, rows), price, batch).Amount(c) == SumAmounts(rows, price, batch, c)
  {
    var g := CostOfUsage(Totals(shape.basis, rows), price, batch);
    forall i | 0 <= i < |rows|
      ensures CostOfUsage(rows[i], price, batch).Priced? <==> g.Priced?
    {
      GroupAgrees(rows, shape, price, batch, i);
    }
    if g.Priced? {
      AmountIs(Totals(shape.basis, rows), price, batch, c);
      TotalTokens(shape.basis, rows, c);
      DollarsOfSum(rows, SumFor(shape.basis, c), RateOf(price.value, batch, c));
      AmountsAreDollars(rows, shape, price.value, batch, c);
    } else {
      NoAmounts(rows, price, batch, c);
    }
  }

  /** And so is the group's total. */
  lemma GroupTotalIsSum(rows: seq<Usage>, shape: Shape, price: Option<Price>, batch: bool)
    requires rows != [] && SameShape(rows, shape)
    ensures CostOfUsage(Totals(shape.basis, rows), price, batch).Usd() == SumUsd(rows, price, batch)
  {
    forall c
      ensures CostOfUsage(Totals(shape.basis, rows), price, batch).Amount(c) == SumAmounts(rows, price, batch, c)
    {
      GroupAmountIsSum(rows, shape, price, batch, c);
    }
    UsdIsAmounts(rows, price, batch);
  }

  // ---- Which snapshot applies ----

  /** The first snapshot not after `ts`; the newest without a timestamp, the oldest when all are later. */
  function PriceAt(history: seq<Price>, ts: Option<string>): Option<Price> {
    if history == [] then None
    else if ts.None? || ts.value == "" then Some(history[0])
    else Some(FirstUpTo(history, ts.value))
  }

  function FirstUpTo(history: seq<Price>, ts: string): Price
    requires history != []
  {
    if AtMost(history[0].effectiveFrom, ts) || |history| == 1 then history[0] else FirstUpTo(history[1..], ts)
  }

  const EPOCH_BEFORE_ANY_PRICE := "0000-00-00"
  const EPOCH_UNKNOWN_TIME := "unknown"

  predicate Digits(s: string, from: nat, to: nat)
    requires from <= to <= |s|
  {
    forall i | from <= i < to :: '0' <= s[i] <= '9'
  }

  /** dddd-dd-dd */
  predicate DateShaped(s: string) {
    |s| == 10 && Digits(s, 0, 4) && s[4] == '-' && Digits(s, 5, 7) && s[7] == '-' && Digits(s, 8, 10)
  }

  /** A canonical UTC timestamp: a date, `T`, an hour below 24, and `Z` at the end. That the date exists in the
      calendar and the rest of the time is well formed are facts this model takes as given. */
  predicate Canonical(ts: string) {
    |ts| >= 13 && DateShaped(ts[..10]) && ts[10] == 'T' && ts[|ts| - 1] == 'Z' && Less(ts[11..13], "24")
  }

  /** The latest of the boundaries that is not after ts; `none` when there is none. */
  function LatestUpTo(boundaries: seq<string>, ts: string, none: string): string {
    if boundaries == [] then none
    else if AtMost(boundaries[0], ts) then boundaries[0]
    else LatestUpTo(boundaries[1..], ts, none)
  }

  /** The CASE expression: canonical timestamps go to the first boundary not after them. */
  function Epoch(boundaries: seq<string>, ts: Option<string>): string {
    if ts.None? || !Canonical(ts.value) then EPOCH_UNKNOWN_TIME
    else LatestUpTo(boundaries, ts.value, EPOCH_BEFORE_ANY_PRICE)
  }

  /** Newer dates first. */
  function Newer(): (string, string) -> bool { (a, b) => Less(b, a) }

  /** The date-shaped snapshot dates of all models, each once, newest first. */
  function Boundaries(histories: seq<seq<Price>>): seq<string> {
    Sort(Newer(), Dates(histories))
  }

  function Dates(histories: seq<seq<Price>>): seq<string> {
    if histories == [] then [] else AddDates(histories[0], Dates(histories[1..]))
  }

  function AddDates(history: seq<Price>, dates: seq<string>): seq<string> {
    if history == [] then dates
    else
      var rest := AddDates(history[1..], dates);
      var e := history[0].effectiveFrom;
      if DateShaped(e) && e !in rest then [e] + rest else rest
  }

  /** Distinct dates. */
  ghost predicate DistinctDates(dates: seq<string>) {
    (forall i, j | 0 <= i < j < |dates| :: dates[i] != dates[j]) && forall d | d in dates :: DateShaped(d)
  }

  lemma {:induction false} AddDatesAdds(history: seq<Price>, dates: seq<string>)
    requires DistinctDates(dates)
    ensures DistinctDates(AddDates(history, dates))
    ensures forall d | d in dates :: d in AddDates(history, dates)
    ensures forall p | p in history && DateShaped(p.effectiveFrom) :: p.effectiveFrom in AddDates(history, dates)
  {
    if history != [] { AddDatesAdds(history[1..], dates); }
  }

  lemma {:induction false} DatesHold(histories: seq<seq<Price>>, k: nat)
    requires k <= |histories|
    ensures DistinctDates(Dates(histories))
    ensures k < |histories| ==>
      forall p | p in histories[k] && DateShaped(p.effectiveFrom) :: p.effectiveFrom in Dates(histories)
  {
    if histories != [] {
      DatesHold(histories[1..], if k > 0 then k - 1 else 0);
      AddDatesAdds(histories[0], Dates(histories[1..]));
    }
  }

  lemma NewerIsStrict()
    ensures Strict(Newer())
  {
    forall a ensures !Newer()(a, a) { LessIsIrreflexive(a); }
    forall a, b, c | Newer()(a, b) && Newer()(b, c) ensures Newer()(a, c) { LessIsTransitive(c, b, a); }
  }

  lemma BoundariesDescend(histories: seq<seq<Price>>, k: nat)
    requires k < |histories|
    ensures Sorted(Newer(), Boundaries(histories))
    ensures forall p | p in histories[k] && DateShaped(p.effectiveFrom) :: p.effectiveFrom in Boundaries(histories)
  {
    var dates := Dates(histories);
    DatesHold(histories, k);
    NewerIsStrict();
    forall i, j | 0 <= i < |dates| && 0 <= j < |dates| && i != j
      ensures Newer()(dates[i], dates[j]) || Newer()(dates[j], dates[i])
    {
      LessIsTotal(dates[i], dates[j]);
      assert i < j ==> dates[i] != dates[j];
      assert j < i ==> dates[j] != dates[i];
    }
    SortSorts(Newer(), dates);
    SortPermutes(Newer(), dates);
    forall p | p in histories[k] && DateShaped(p.effectiveFrom) ensures p.effectiveFrom in Boundaries(histories) {
      assert p.effectiveFrom in multiset(dates);
    }
  }

  // ---- The epoch stands for the timestamp ----

  /** Character by character not larger means not after. */
  lemma {:induction false} PointwiseAtMost(z: string, s: string)
    requires |z| <= |s| && forall i | 0 <= i < |z| :: z[i] <= s[i]
    ensures AtMost(z, s)
  {
    if z != "" && z[0] == s[0] {
      PointwiseAtMost(z[1..], s[1..]);
      if z[1..] == s[1..] { assert z == [z[0]] + z[1..] && s == [s[0]] + s[1..]; }
    }
  }

  lemma NothingBeforeZero(s: string)
    requires |s| >= 10 && DateShaped(s[..10])
    ensures AtMost(EPOCH_BEFORE_ANY_PRICE, s)
  {
    forall i | 0 <= i < 10 ensures EPOCH_BEFORE_ANY_PRICE[i] <= s[i] {
      assert s[..10][i] == s[i];
    }
    PointwiseAtMost(EPOCH_BEFORE_ANY_PRICE, s);
  }

  lemma {:induction false} LatestIsBound(boundaries: seq<string>, ts: string, none: string)
    requires Sorted(Newer(), boundaries)
    ensures var e := LatestUpTo(boundaries, ts, none);
            (e in boundaries && AtMost(e, ts) && forall b | b in boundaries && AtMost(b, ts) :: AtMost(b, e))
            || (e == none && forall b | b in boundaries :: !AtMost(b, ts))
  {
    if boundaries != [] {
      if AtMost(boundaries[0], ts) {
        forall b | b in boundaries ensures AtMost(b, boundaries[0]) {
          var i :| 0 <= i < |boundaries| && boundaries[i] == b;
          if i > 0 { assert Newer()(boundaries[0], boundaries[i]); }
        }
      } else {
        LatestIsBound(boundaries[1..], ts, none);
        forall b | b in boundaries && b != boundaries[0] ensures b in boundaries[1..] {}
      }
    }
  }

  lemma {:induction false} SameFirstUpTo(history: seq<Price>, a: string, b: string)
    requires history != [] && forall p | p in history :: AtMost(p.effectiveFrom, a) <==> AtMost(p.effectiveFrom, b)
    ensures FirstUpTo(history, a) == FirstUpTo(history, b)
  {
    assert history[0] in history;
    if |history| > 1 && !AtMost(history[0].effectiveFrom, a) {
      forall p | p in history[1..] ensures p in history {}
      SameFirstUpTo(history[1..], a, b);
    }
  }

  lemma EpochBounds(boundaries: seq<string>, ts: string, d: string)
    requires Sorted(Newer(), boundaries) && Canonical(ts) && d in boundaries && DateShaped(d)
    ensures AtMost(d, Epoch(boundaries, Some(ts))) <==> AtMost(d, ts)
  {
    var e := Epoch(boundaries, Some(ts));
    LatestIsBound(boundaries, ts, EPOCH_BEFORE_ANY_PRICE);
    NothingBeforeZero(ts);
    if AtMost(d, e) { AtMostIsTransitive(d, e, ts); }
  }

  /** For a catalog whose snapshot dates are date-shaped, looking a model's rate up by the pooled epoch of a
      canonical timestamp finds the snapshot the timestamp itself finds. */
  lemma EpochRefinesTimestamp(histories: seq<seq<Price>>, k: nat, ts: string)
    requires k < |histories| && Canonical(ts) && forall p | p in histories[k] :: DateShaped(p.effectiveFrom)
    ensures PriceAt(histories[k], Some(Epoch(Boundaries(histories), Some(ts)))) == PriceAt(histories[k], Some(ts))
  {
    var h, e := histories[k], Epoch(Boundaries(histories), Some(ts));
    BoundariesDescend(histories, k);
    LatestIsBound(Boundaries(histories), ts, EPOCH_BEFORE_ANY_PRICE);
    DatesAreNotEmpty(histories, ts);
    forall p | p in h ensures AtMost(p.effectiveFrom, e) <==> AtMost(p.effectiveFrom, ts) {
      EpochBounds(Boundaries(histories), ts, p.effectiveFrom);
    }
    if h != [] { SameFirstUpTo(h, e, ts); }
  }

  lemma DatesAreNotEmpty(histories: seq<seq<Price>>, ts: string)
    requires Canonical(ts) && Sorted(Newer(), Boundaries(histories))
    ensures Epoch(Boundaries(histories), Some(ts)) != ""
  {
    LatestIsBound(Boundaries(histories), ts, EPOCH_BEFORE_ANY_PRICE);
    BoundariesAreDates(histories);
  }

  lemma BoundariesAreDates(histories: seq<seq<Price>>)
    ensures forall b | b in Boundaries(histories) :: DateShaped(b)
  {
    var dates := Dates(histories);
    DatesHold(histories, 0);
    SortPermutes(Newer(), dates);
    forall b | b in Sort(Newer(), dates) ensures DateShaped(b) {
      assert b in multiset(dates);
    }
  }

  // ---- Groups without a timestamp ----

  ghost predicate Interchangeable(history: seq<Price>, row: Usage, batch: bool) {
    forall i | 0 <= i < |history| ::
      CostOfUsage(row, Some(history[i]), batch).Rates() == CostOfUsage(row, Some(history[0]), batch).Rates()
  }

  function EverySignature(history: seq<Price>, row: Usage, batch: bool, baseline: Signature): bool {
    || history == []
    || (CostOfUsage(row, Some(history[0]), batch).Rates() == baseline
        && EverySignature(history[1..], row, batch, baseline))
  }

  function PriceForGroup(history: seq<Price>, epoch: string, row: Usage, batch: bool): Option<Price> {
    if epoch != EPOCH_UNKNOWN_TIME then PriceAt(history, Some(epoch))
    else if history == [] then None
    else if |history| == 1 then Some(history[0])
    else if EverySignature(history, row, batch, CostOfUsage(row, Some(history[0]), batch).Rates()) then Some(history[0])
    else None
  }

  lemma {:induction false} EverySignatureIs(history: seq<Price>, row: Usage, batch: bool, baseline: Signature)
    ensures EverySignature(history, row, batch, baseline)
       <==> forall i | 0 <= i < |history| :: CostOfUsage(row, Some(history[i]), batch).Rates() == baseline
  {
    if history != [] {
      EverySignatureIs(history[1..], row, batch, baseline);
      assert forall i | 1 <= i < |history| :: history[i] == history[1..][i - 1];
    }
  }

  /** Without a timestamp a rate is chosen exactly when every snapshot would charge the group the same in every
      class; otherwise there is none. */
  lemma UnknownTimeIsUnambiguous(history: seq<Price>, row: Usage, batch: bool)
    ensures PriceForGroup(history, EPOCH_UNKNOWN_TIME, row, batch).Some?
       <==> history != [] && Interchangeable(history, row, batch)
    ensures var p := PriceForGroup(history, EPOCH_UNKNOWN_TIME, row, batch);
            p.Some? ==>
              forall i | 0 <= i < |history| :: CostOfUsage(row, Some(history[i]), batch) == CostOfUsage(row, p, batch)
  {
    if history != [] {
      EverySignatureIs(history, row, batch, CostOfUsage(row, Some(history[0]), batch).Rates());
      forall i | 0 <= i < |history| && Interchangeable(history, row, batch)
        ensures CostOfUsage(row, Some(history[i]), batch) == CostOfUsage(row, Some(history[0]), batch)
      {
        SameSignatureSameCost(row, Some(history[i]), Some(history[0]), batch);
      }
    }
  }
}
