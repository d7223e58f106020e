/** What a published bucket says, in terms of the stored blocks and usage rows only. */
module RollupFigures {
  import opened Wrappers
  import opened RollupBuckets
  import opened RollupReference

  /** The model of a turn: what its usage row says, and "(unknown)" for no row or a NULL model. */
  predicate HasModel(models: map<int, Option<string>>, turn: int, model: string) {
    || (turn in models && models[turn] == Some(model))
    || ((turn !in models || models[turn].None?) && model == "(unknown)")
  }

  /** Block j is the first block of block i's turn. */
  ghost predicate Opens(bs: seq<Block>, j: int, i: int) {
    0 <= j <= i < |bs| && bs[j].turn == bs[i].turn && forall k | 0 <= k < j :: bs[k].turn != bs[i].turn
  }

  /** Block i counts for a day and a model: the day of its turn's first block, and its turn's model. */
  ghost predicate CountsFor(src: Source, i: int, day: string, model: string) {
    && 0 <= i < |src.blocks| && HasModel(src.models, src.blocks[i].turn, model)
    && exists j :: Opens(src.blocks, j, i) && src.blocks[j].day == day
  }

  lemma CountsForItsKey(src: Source, i: nat, day: string, model: string)
    requires i < |src.blocks|
    ensures CountsFor(src, i, day, model) <==> KeyAt(src, i) == BucketKey(day, model)
  {
    var first := FirstOfTurn(src.blocks, i);
    assert Opens(src.blocks, first, i);
    forall j | Opens(src.blocks, j, i) ensures j == first {}
  }

  predicate ToolCall(b: Block) { b.role == Some("assistant") && b.btype == "tool_use" }

  /** An assistant tool call whose exact text is known. */
  predicate KnownCall(b: Block) { ToolCall(b) && !b.truncated && b.toolName.Some? && b.text.Some? }

  predicate SameCall(a: Block, b: Block) {
    KnownCall(a) && KnownCall(b) && a.toolName == b.toolName && a.text == b.text
  }

  ghost function AssistantTurnsFor(src: Source, n: nat, day: string, model: string): set<int>
    requires n <= |src.blocks|
  {
    set i | 0 <= i < n && CountsFor(src, i, day, model) && src.blocks[i].role == Some("assistant") :: src.blocks[i].turn
  }

  ghost function RewoundTurnsFor(src: Source, n: nat, day: string, model: string): set<int>
    requires n <= |src.blocks|
  {
    set i | 0 <= i < n && CountsFor(src, i, day, model) && src.blocks[i].role == Some("assistant")
            && !src.blocks[i].onMainPath :: src.blocks[i].turn
  }

  /** The numbers below n with a property. */
  ghost function Where(n: nat, p: int -> bool): set<int> {
    set i | 0 <= i < n && p(i)
  }

  lemma WhereStep(n: nat, p: int -> bool)
    ensures |Where(n + 1, p)| == |Where(n, p)| + Bit(p(n))
  {
    assert Where(n + 1, p) == Where(n, p) + if p(n) then {n as int} else {};
  }

  ghost function ToolCallFor(src: Source, day: string, model: string): int -> bool {
    i => CountsFor(src, i, day, model) && ToolCall(src.blocks[i])
  }

  ghost function KnownCallFor(src: Source, day: string, model: string): int -> bool {
    i => CountsFor(src, i, day, model) && KnownCall(src.blocks[i])
  }

  /** The block repeats an earlier call of the session, whatever its bucket. */
  ghost predicate Repeats(bs: seq<Block>, i: int) {
    0 <= i < |bs| && exists j :: 0 <= j < i && SameCall(bs[j], bs[i])
  }

  ghost function RepeatFor(src: Source, day: string, model: string): int -> bool {
    i => CountsFor(src, i, day, model) && Repeats(src.blocks, i)
  }

  /** The bytes of the tool results of a day and model. */
  ghost function ResultBytesFor(src: Source, n: nat, day: string, model: string): int
    requires n <= |src.blocks|
  {
    if n == 0 then 0
    else
      ResultBytesFor(src, n - 1, day, model)
      + if CountsFor(src, n - 1, day, model) then ResultBytesOf(src.blocks[n - 1]) else 0
  }

  function ResultBytesOf(b: Block): int {
    match b.byteLen
    case Some(size) => if b.btype == "tool_result" && size >= 0 then size else 0
    case None => 0
  }

  /** The figures that count calls and bytes. */
  ghost predicate CallFigures(b: Bucket, src: Source, n: nat, day: string, model: string)
    requires n <= |src.blocks|
  {
    && b.toolCalls == |Where(n, ToolCallFor(src, day, model))|
    && b.resultBytes == ResultBytesFor(src, n, day, model)
    && b.comparable == |Where(n, KnownCallFor(src, day, model))|
    && b.repeated == |Where(n, RepeatFor(src, day, model))|
  }

  /** The six figures of a bucket. */
  ghost predicate Figures(b: Bucket, src: Source, n: nat, day: string, model: string)
    requires n <= |src.blocks|
  {
    && b.assistantTurns == |AssistantTurnsFor(src, n, day, model)|
    && b.rewoundTurns == |RewoundTurnsFor(src, n, day, model)|
    && CallFigures(b, src, n, day, model)
  }

  lemma TurnsAre(src: Source, n: nat, day: string, model: string)
    requires n <= |src.blocks|
    ensures TurnsWith(src, n, BucketKey(day, model), Assistant) == AssistantTurnsFor(src, n, day, model)
    ensures TurnsWith(src, n, BucketKey(day, model), Rewound) == RewoundTurnsFor(src, n, day, model)
  {
    forall i | 0 <= i < n ensures CountsFor(src, i, day, model) <==> KeyAt(src, i) == BucketKey(day, model) {
      CountsForItsKey(src, i, day, model);
    }
  }

  lemma RepeatsAre(src: Source, i: nat)
    requires i < |src.blocks|
    ensures Contribution(src, i).repeated <==> Repeats(src.blocks, i)
  {
    var b := src.blocks[i];
    if Contribution(src, i).repeated {
      var j :| 0 <= j < i && IsComparable(src.blocks[j]) && CallOf(src.blocks[j]) == CallOf(b);
      assert SameCall(src.blocks[j], b);
    }
  }

  lemma EntriesGrow(src: Source, n: nat)
    requires n < |src.blocks|
    ensures Entries(src, 0, n + 1) == Entries(src, 0, n) + [Entry(KeyAt(src, n), Contribution(src, n))]
  {
  }

  lemma TotalGrows(es: seq<Entry>, e: Entry, k: BucketKey)
    ensures Total(es + [e], k) == if e.key == k then Total(es, k).Count(e.counts) else Total(es, k)
  {
    assert (es + [e])[..|es|] == es;
  }

  lemma TotalStep(src: Source, n: nat, day: string, model: string)
    requires n < |src.blocks|
    ensures var k := BucketKey(day, model);
            Total(Entries(src, 0, n + 1), k)
            == if CountsFor(src, n, day, model) then Total(Entries(src, 0, n), k).Count(Contribution(src, n))
               else Total(Entries(src, 0, n), k)
  {
    EntriesGrow(src, n);
    TotalGrows(Entries(src, 0, n), Entry(KeyAt(src, n), Contribution(src, n)), BucketKey(day, model));
    CountsForItsKey(src, n, day, model);
  }

  lemma CallFiguresStep(b: Bucket, b': Bucket, src: Source, n: nat, day: string, model: string)
    requires n < |src.blocks| && CallFigures(b, src, n, day, model)
    requires b' == if CountsFor(src, n, day, model) then b.Count(Contribution(src, n)) else b
    ensures CallFigures(b', src, n + 1, day, model)
  {
    WhereStep(n, ToolCallFor(src, day, model));
    WhereStep(n, KnownCallFor(src, day, model));
    WhereStep(n, RepeatFor(src, day, model));
    RepeatsAre(src, n);
  }

  ghost predicate CallsHold(src: Source, n: nat, day: string, model: string)
    requires n <= |src.blocks|
  {
    CallFigures(Total(Entries(src, 0, n), BucketKey(day, model)), src, n, day, model)
  }

  lemma {:induction false} CallsAre(src: Source, n: nat, day: string, model: string)
    requires n <= |src.blocks|
    ensures CallsHold(src, n, day, model)
  {
    if n == 0 {
      NoCalls(src, day, model);
    } else {
      CallsAre(src, n - 1, day, model);
      CallsOneMore(src, n - 1, n, day, model);
    }
  }

  lemma NoCalls(src: Source, day: string, model: string)
    ensures CallsHold(src, 0, day, model)
  {
  }

  lemma CallsOneMore(src: Source, m: nat, n: nat, day: string, model: string)
    requires n == m + 1 <= |src.blocks|
    requires CallsHold(src, m, day, model)
    ensures CallsHold(src, n, day, model)
  {
    var k := BucketKey(day, model);
    TotalStep(src, m, day, model);
    CallFiguresStep(Total(Entries(src, 0, m), k), Total(Entries(src, 0, m + 1), k), src, m, day, model);
  }

  lemma KeysGrow(es: seq<Entry>, e: Entry)
    ensures KeysOf(es + [e]) == KeysOf(es) + {e.key}
  {
  }

  lemma {:induction false} KeysAre(src: Source, n: nat, day: string, model: string)
    requires n <= |src.blocks|
    ensures BucketKey(day, model) in KeysOf(Entries(src, 0, n))
       <==> exists i :: 0 <= i < n && CountsFor(src, i, day, model)
  {
    if n > 0 {
      KeysAre(src, n - 1, day, model);
      CountsForItsKey(src, n - 1, day, model);
      EntriesGrow(src, n - 1);
      KeysGrow(Entries(src, 0, n - 1), Entry(KeyAt(src, n - 1), Contribution(src, n - 1)));
    }
  }

  /** A rollup has a bucket for a day and model exactly when some block counts for them, and its figures are the
      numbers of those blocks' turns and calls and the bytes of their results. */
  lemma BucketsSayWhatTheyCount(src: Source, n: nat, day: string, model: string)
    requires n <= |src.blocks|
    ensures var k := BucketKey(day, model);
            && (k in RollupTo(src, n) <==> exists i :: 0 <= i < n && CountsFor(src, i, day, model))
            && (k in RollupTo(src, n) ==>
                  RollupTo(src, n)[k].key == k && Figures(RollupTo(src, n)[k], src, n, day, model))
  {
    var k := BucketKey(day, model);
    KeysAre(src, n, day, model);
    TotalKeepsKey(Entries(src, 0, n), k);
    TurnsCountOnce(src, n, k);
    TurnsAre(src, n, day, model);
    CallsAre(src, n, day, model);
  }

  // ---- Sums over the days of a model ----

  ghost function BucketsOfModel(b: Buckets, model: string): set<BucketKey> {
    set k | k in b && k.model == model
  }

  /** One metric over the entries of one model. */
  function ModelTotal(es: seq<Entry>, model: string, m: Metric): int {
    if es == [] then 0
    else
      var e := es[|es| - 1];
      ModelTotal(es[..|es| - 1], model, m) + if e.key.model == model then m.In(e.counts) else 0
  }

  lemma {:induction false} SumWithinModel(es: seq<Entry>, keys: set<BucketKey>, model: string, m: Metric)
    requires KeysOf(es) <= keys
    ensures SumOver(TotalsFor(es, keys), BucketsOfModel(TotalsFor(es, keys), model), m) == ModelTotal(es, model, m)
  {
    var chosen := set k | k in keys && k.model == model;
    assert TotalsFor(es, keys).Keys == keys && BucketsOfModel(TotalsFor(es, keys), model) == chosen;
    if es == [] {
      SumOfEmpties(TotalsFor(es, keys), chosen, m);
    } else {
      var init, last := es[..|es| - 1], es[|es| - 1];
      forall e | e in init ensures e in es {}
      assert last.key in KeysOf(es);
      SumWithinModel(init, keys, model, m);
      assert TotalsFor(init, keys).Keys == keys && BucketsOfModel(TotalsFor(init, keys), model) == chosen;
      SumOfChange(TotalsFor(init, keys), TotalsFor(es, keys), chosen, last.key, m, m.In(last.counts));
    }
  }

  ghost function ToolCallOf(src: Source, model: string): int -> bool {
    i => 0 <= i < |src.blocks| && ToolCall(src.blocks[i]) && HasModel(src.models, src.blocks[i].turn, model)
  }

  lemma ItsModel(src: Source, i: nat, model: string)
    requires i < |src.blocks|
    ensures KeyAt(src, i).model == model <==> HasModel(src.models, src.blocks[i].turn, model)
  {
  }

  lemma ModelTotalGrows(es: seq<Entry>, e: Entry, model: string, m: Metric)
    ensures ModelTotal(es + [e], model, m)
         == ModelTotal(es, model, m) + if e.key.model == model then m.In(e.counts) else 0
  {
    assert (es + [e])[..|es|] == es;
  }

  lemma {:induction false} ModelToolCalls(src: Source, n: nat, model: string)
    requires n <= |src.blocks|
    ensures ModelTotal(Entries(src, 0, n), model, ToolCalls) == |Where(n, ToolCallOf(src, model))|
  {
    if n > 0 {
      ModelToolCalls(src, n - 1, model);
      ItsModel(src, n - 1, model);
      WhereStep(n - 1, ToolCallOf(src, model));
      EntriesGrow(src, n - 1);
      ModelTotalGrows(Entries(src, 0, n - 1), Entry(KeyAt(src, n - 1), Contribution(src, n - 1)), model, ToolCalls);
    }
  }

  /** Over all days, a model's tool calls are the assistant tool_use blocks of the turns with that model. */
  lemma ToolCallsByModel(src: Source, model: string)
    ensures SumOver(Rollup(src), BucketsOfModel(Rollup(src), model), ToolCalls)
         == |Where(|src.blocks|, ToolCallOf(src, model))|
  {
    var es := Entries(src, 0, |src.blocks|);
    SumWithinModel(es, KeysOf(es), model, ToolCalls);
    ModelToolCalls(src, |src.blocks|, model);
  }

  /** The bytes of all tool results of the first n blocks. */
  function ResultBytesIn(bs: seq<Block>): int {
    if bs == [] then 0 else ResultBytesIn(bs[..|bs| - 1]) + ResultBytesOf(bs[|bs| - 1])
  }

  lemma {:induction false} EntryBytes(src: Source, n: nat)
    requires n <= |src.blocks|
    ensures GrandTotal(Entries(src, 0, n), ResultBytes) == ResultBytesIn(src.blocks[..n])
  {
    if n > 0 {
      EntryBytes(src, n - 1);
      assert src.blocks[..n][..n - 1] == src.blocks[..n - 1];
      assert Entries(src, 0, n)[..n - 1] == Entries(src, 0, n - 1);
    }
  }

  /** Over all buckets, the result bytes are those of all tool results. */
  lemma ResultBytesAreAll(src: Source)
    ensures SumOf(Rollup(src), ResultBytes) == ResultBytesIn(src.blocks)
  {
    SumOfGroup(Entries(src, 0, |src.blocks|), ResultBytes);
    EntryBytes(src, |src.blocks|);
    assert src.blocks[..|src.blocks|] == src.blocks;
  }
}
