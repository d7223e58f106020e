/** What one usage row, or one group of rows, costs at one set of rates. */
module PricingCost {
  import opened Wrappers

  /** The accounting convention of a row's transcript; anything else leaves the equation unknown. */
  datatype Basis = Disjoint | Subset | Unknown(name: Option<string>)

  /** A usage row. The last two are present only on a pre-aggregated group. */
  datatype Usage = Usage(basis: Basis, input: Option<int>, output: Option<int>, cacheRead: Option<int>,
                         write5m: Option<int>, write1h: Option<int>, freshInput: Option<int>, billableRead: Option<int>)

  /** Dollars per million tokens, where the catalog publishes them. */
  datatype Price = Price(effectiveFrom: string, input: Option<real>, output: Option<real>, cacheRead: Option<real>,
                         write5m: Option<real>, write1h: Option<real>, inputBatch: Option<real>,
                         outputBatch: Option<real>)

  datatype Class = Input | Output | CacheRead | Write5m | Write1h

  datatype RateSet = Standard | Batch | Mixed | NoRates

  datatype Signature =
    | UnpricedSignature
    | ZeroSignature
    | RateSignature(input: Option<real>, output: Option<real>, cacheRead: Option<real>, write5m: Option<real>,
                    write1h: Option<real>, basis: Basis, rateSet: RateSet)

  /** Unpriced: no rate could be determined. Free: nothing billable. */
  datatype Cost =
    | Unpriced
    | Free
    | Priced(input: real, output: real, cacheRead: real, write5m: real, write1h: real, signature: Signature)
  {
    function Amount(c: Class): real {
      if !Priced? then 0.0
      else
        match c
        case Input => input
        case Output => output
        case CacheRead => cacheRead
        case Write5m => write5m
        case Write1h => write1h
    }

    function Usd(): real {
      Amount(Input) + Amount(Output) + Amount(CacheRead) + Amount(Write5m) + Amount(Write1h)
    }

    function Rates(): Signature {
      if Unpriced? then UnpricedSignature else if Free? then ZeroSignature else signature
    }

    function Set(): RateSet {
      if Priced? && signature.RateSignature? then signature.rateSet else NoRates
    }
  }

  const MILLION: real := 1000000.0

  function NonNegative(v: Option<int>): nat {
    if v.Some? && v.value > 0 then v.value else 0
  }

  function Max0(n: int): nat { if n > 0 then n else 0 }

  function Min(a: int, b: int): int { if a <= b then a else b }

  /** Fresh input billed at the input rate: under subset accounting, what exceeds the cached prefix. */
  function BillableInput(u: Usage): nat {
    if !u.basis.Subset? then NonNegative(u.input)
    else if u.freshInput.Some? then NonNegative(u.freshInput)
    else Max0(NonNegative(u.input) - NonNegative(u.cacheRead))
  }

  /** Cached tokens billed: under subset accounting, no more than the input they are part of. */
  function BillableRead(u: Usage): nat {
    if !u.basis.Subset? then NonNegative(u.cacheRead)
    else if u.billableRead.Some? then NonNegative(u.billableRead)
    else Max0(Min(NonNegative(u.cacheRead), NonNegative(u.input)))
  }

  /** The billable tokens of a class. */
  function Tokens(u: Usage, c: Class): nat {
    match c
    case Input => BillableInput(u)
    case Output => NonNegative(u.output)
    case CacheRead => BillableRead(u)
    case Write5m => NonNegative(u.write5m)
    case Write1h => NonNegative(u.write1h)
  }

  function BatchInput(p: Price, batch: bool): bool { batch && p.inputBatch.Some? }

  function BatchOutput(p: Price, batch: bool): bool { batch && p.outputBatch.Some? }

  /** Batch rates are chosen per class; a missing cache read rate falls back to the standard input rate. */
  function RateOf(p: Price, batch: bool, c: Class): Option<real> {
    match c
    case Input => if BatchInput(p, batch) then p.inputBatch else p.input
    case Output => if BatchOutput(p, batch) then p.outputBatch else p.output
    case CacheRead => if p.cacheRead.Some? then p.cacheRead else p.input
    case Write5m => p.write5m
    case Write1h => p.write1h
  }

  function Dollars(tokens: nat, rate: Option<real>): real {
    (tokens as real) * rate.GetOr(0.0) / MILLION
  }

  function Used(present: bool, rate: Option<real>): Option<real> {
    if present then rate else None
  }

  function RateSetOf(batchClasses: bool, standardClasses: bool): RateSet {
    if batchClasses && standardClasses then Mixed
    else if batchClasses then Batch
    else if standardClasses then Standard
    else NoRates
  }

  function CostOfUsage(u: Usage, price: Option<Price>, batch: bool): Cost {
    var input, output, read := BillableInput(u), NonNegative(u.output), BillableRead(u);
    var w5, w1h := NonNegative(u.write5m), NonNegative(u.write1h);
    if u.basis.Unknown? then Unpriced
    else if !(input > 0 || output > 0 || read > 0 || w5 > 0 || w1h > 0) then Free
    else if price.None? then Unpriced
    else
      var p := price.value;
      var inRate, outRate := RateOf(p, batch, Input), RateOf(p, batch, Output);
      var readRate := RateOf(p, batch, CacheRead);
      if input > 0 && inRate.None? then Unpriced
      else if output > 0 && outRate.None? then Unpriced
      else if read > 0 && readRate.None? then Unpriced
      else if w5 > 0 && p.write5m.None? then Unpriced
      else if w1h > 0 && p.write1h.None? then Unpriced
      else
        var batchClasses := (input > 0 && BatchInput(p, batch)) || (output > 0 && BatchOutput(p, batch));
        var standardClasses := (input > 0 && !BatchInput(p, batch)) || (output > 0 && !BatchOutput(p, batch))
                               || read > 0 || w5 > 0 || w1h > 0;
        Priced(Dollars(input, inRate), Dollars(output, outRate), Dollars(read, readRate),
               Dollars(w5, p.write5m), Dollars(w1h, p.write1h),
               RateSignature(Used(input > 0, inRate), Used(output > 0, outRate), Used(read > 0, readRate),
                             Used(w5 > 0, p.write5m), Used(w1h > 0, p.write1h),
                             u.basis, RateSetOf(batchClasses, standardClasses)))
  }

  // ---- What the cost is, class by class ----

  lemma AmountIs(u: Usage, price: Option<Price>, batch: bool, c: Class)
    ensures CostOfUsage(u, price, batch).Priced? ==> price.Some?
    ensures CostOfUsage(u, price, batch).Priced? ==>
      CostOfUsage(u, price, batch).Amount(c) == Dollars(Tokens(u, c), RateOf(price.value, batch, c))
  {
  }

  /** A row is priced exactly when its basis is known and every class it has tokens in has a rate. */
  lemma PricedWhen(u: Usage, price: Option<Price>, batch: bool)
    ensures CostOfUsage(u, price, batch).Unpriced?
       <==> u.basis.Unknown? || exists c :: Tokens(u, c) > 0 && (price.None? || RateOf(price.value, batch, c).None?)
  {
    if price.Some? && !u.basis.Unknown? {
      Classified(u, price.value, batch);
    } else if !u.basis.Unknown? {
      assert Tokens(u, Input) == BillableInput(u) && Tokens(u, Output) == NonNegative(u.output);
      assert Tokens(u, CacheRead) == BillableRead(u) && Tokens(u, Write5m) == NonNegative(u.write5m);
      assert Tokens(u, Write1h) == NonNegative(u.write1h);
    }
  }

  predicate Missing(u: Usage, p: Price, batch: bool, c: Class) {
    Tokens(u, c) > 0 && RateOf(p, batch, c).None?
  }

  lemma Classified(u: Usage, p: Price, batch: bool)
    requires !u.basis.Unknown?
    ensures CostOfUsage(u, Some(p), batch).Unpriced? <==>
      Missing(u, p, batch, Input) || Missing(u, p, batch, Output) || Missing(u, p, batch, CacheRead)
      || Missing(u, p, batch, Write5m) || Missing(u, p, batch, Write1h)
  {
  }

  /** Under subset accounting, fresh plus billable cached tokens are exactly the input. */
  lemma SubsetSplitsInput(u: Usage)
    requires u.basis.Subset? && u.freshInput.None? && u.billableRead.None?
    ensures BillableInput(u) + BillableRead(u) == NonNegative(u.input)
  {
  }

  // ---- Signatures ----

  /** Two rate snapshots with the same signature for a row charge it the same, class by class. */
  lemma SameSignatureSameCost(u: Usage, p: Option<Price>, q: Option<Price>, batch: bool)
    requires CostOfUsage(u, p, batch).Rates() == CostOfUsage(u, q, batch).Rates()
    ensures CostOfUsage(u, p, batch) == CostOfUsage(u, q, batch)
  {
    var a, b := CostOfUsage(u, p, batch), CostOfUsage(u, q, batch);
    if a.Priced? && b.Priced? {
      SameDollars(BillableInput(u), RateOf(p.value, batch, Input), RateOf(q.value, batch, Input));
      SameDollars(NonNegative(u.output), RateOf(p.value, batch, Output), RateOf(q.value, batch, Output));
      SameDollars(BillableRead(u), RateOf(p.value, batch, CacheRead), RateOf(q.value, batch, CacheRead));
      SameDollars(NonNegative(u.write5m), p.value.write5m, q.value.write5m);
      SameDollars(NonNegative(u.write1h), p.value.write1h, q.value.write1h);
    }
  }

  lemma SameDollars(tokens: nat, r: Option<real>, s: Option<real>)
    requires Used(tokens > 0, r) == Used(tokens > 0, s)
    ensures Dollars(tokens, r) == Dollars(tokens, s)
  {
  }
}
