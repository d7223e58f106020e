/** Bucketed sums: how additive per-page upserts relate to one pass over everything. */
module RollupBuckets {
  datatype BucketKey = BucketKey(day: string, model: string)

  /** What one block counts for. */
  datatype Counts = Counts(assistantTurn: bool, rewoundTurn: bool, toolCall: bool, resultBytes: nat,
                           comparable: bool, repeated: bool)

  function Bit(b: bool): int { if b then 1 else 0 }

  /** A bucket with its counters. */
  datatype Bucket = Bucket(key: BucketKey, assistantTurns: int, rewoundTurns: int, toolCalls: int,
                           resultBytes: int, comparable: int, repeated: int) {
    function Plus(m: Bucket): Bucket {
      Bucket(key, assistantTurns + m.assistantTurns, rewoundTurns + m.rewoundTurns, toolCalls + m.toolCalls,
             resultBytes + m.resultBytes, comparable + m.comparable, repeated + m.repeated)
    }

    function Count(c: Counts): Bucket {
      Bucket(key, assistantTurns + Bit(c.assistantTurn), rewoundTurns + Bit(c.rewoundTurn),
             toolCalls + Bit(c.toolCall), resultBytes + c.resultBytes,
             comparable + Bit(c.comparable), repeated + Bit(c.repeated))
    }
  }

  function Empty(k: BucketKey): Bucket { Bucket(k, 0, 0, 0, 0, 0, 0) }

  type Buckets = map<BucketKey, Bucket>

  /** What one block adds, and to which bucket. */
  datatype Entry = Entry(key: BucketKey, counts: Counts)

  /** The bucket of key k after all entries. */
  function Total(es: seq<Entry>, k: BucketKey): Bucket {
    if es == [] then Empty(k)
    else if es[|es| - 1].key == k then Total(es[..|es| - 1], k).Count(es[|es| - 1].counts)
    else Total(es[..|es| - 1], k)
  }

  function KeysOf(es: seq<Entry>): set<BucketKey> {
    set e | e in es :: e.key
  }

  function TotalsFor(es: seq<Entry>, keys: set<BucketKey>): Buckets {
    map k | k in keys :: Total(es, k)
  }

  /** Every bucket that has an entry, with its sums. */
  function Group(es: seq<Entry>): Buckets {
    TotalsFor(es, KeysOf(es))
  }

  /** ON CONFLICT DO UPDATE: each stored figure grows by the page's figure. */
  function Upsert(stored: Buckets, page: Buckets): Buckets {
    map k | k in stored.Keys + page.Keys ::
      if k in stored && k in page then stored[k].Plus(page[k]) else if k in page then page[k] else stored[k]
  }

  lemma {:induction false} TotalConcat(a: seq<Entry>, b: seq<Entry>, k: BucketKey)
    ensures Total(a + b, k) == Total(a, k).Plus(Total(b, k))
  {
    if b == [] {
      assert a + b == a;
      TotalKeepsKey(a, k);
    } else {
      var init := b[..|b| - 1];
      assert (a + b)[..|a + b| - 1] == a + init;
      TotalConcat(a, init, k);
    }
  }

  lemma {:induction false} TotalKeepsKey(es: seq<Entry>, k: BucketKey)
    ensures Total(es, k).key == k
  {
    if es != [] { TotalKeepsKey(es[..|es| - 1], k); }
  }

  lemma {:induction false} TotalOutside(es: seq<Entry>, k: BucketKey)
    requires k !in KeysOf(es)
    ensures Total(es, k) == Empty(k)
  {
    if es != [] {
      assert es[|es| - 1].key in KeysOf(es);
      forall e | e in es[..|es| - 1] ensures e in es {}
      TotalOutside(es[..|es| - 1], k);
    }
  }

  lemma PlusEmpty(b: Bucket)
    ensures b.Plus(Empty(b.key)) == b && Empty(b.key).Plus(b) == b
  {
  }

  lemma UpsertAt(a: seq<Entry>, b: seq<Entry>, k: BucketKey)
    requires k in KeysOf(a) + KeysOf(b)
    ensures Upsert(Group(a), Group(b))[k] == Total(a + b, k)
  {
    TotalConcat(a, b, k);
    TotalKeepsKey(a, k);
    TotalKeepsKey(b, k);
    PlusEmpty(Total(a, k));
    PlusEmpty(Total(b, k));
    if k !in KeysOf(a) { TotalOutside(a, k); }
    if k !in KeysOf(b) { TotalOutside(b, k); }
  }

  /** Adding a page's buckets to what all earlier pages stored is the same as grouping everything at once. */
  lemma UpsertIsGroup(a: seq<Entry>, b: seq<Entry>)
    ensures Upsert(Group(a), Group(b)) == Group(a + b)
  {
    assert KeysOf(a + b) == KeysOf(a) + KeysOf(b);
    forall k | k in KeysOf(a + b) ensures Upsert(Group(a), Group(b))[k] == Total(a + b, k) {
      UpsertAt(a, b, k);
    }
  }

  // ---- Sums over a whole rollup ----

  datatype Metric = AssistantTurns | RewoundTurns | ToolCalls | ResultBytes | Comparable | Repeated {
    function Of(b: Bucket): int {
      match this
      case AssistantTurns => b.assistantTurns
      case RewoundTurns => b.rewoundTurns
      case ToolCalls => b.toolCalls
      case ResultBytes => b.resultBytes
      case Comparable => b.comparable
      case Repeated => b.repeated
    }

    function In(c: Counts): int {
      match this
      case AssistantTurns => Bit(c.assistantTurn)
      case RewoundTurns => Bit(c.rewoundTurn)
      case ToolCalls => Bit(c.toolCall)
      case ResultBytes => c.resultBytes
      case Comparable => Bit(c.comparable)
      case Repeated => Bit(c.repeated)
    }
  }

  ghost function Pick(keys: set<BucketKey>): (k: BucketKey)
    requires keys != {}
    ensures k in keys
  {
    var k :| k in keys; k
  }

  /** The sum of one metric over the buckets of some keys. */
  ghost function SumOver(b: Buckets, keys: set<BucketKey>, m: Metric): int
    requires keys <= b.Keys
  {
    if keys == {} then 0
    else
      var k := Pick(keys);
      SumOver(b, keys - {k}, m) + m.Of(b[k])
  }

  ghost function SumOf(b: Buckets, m: Metric): int {
    SumOver(b, b.Keys, m)
  }

  /** The sum of one metric over all entries, whatever their bucket. */
  function GrandTotal(es: seq<Entry>, m: Metric): int {
    if es == [] then 0 else GrandTotal(es[..|es| - 1], m) + m.In(es[|es| - 1].counts)
  }

  lemma {:induction false} SumOfEmpties(b: Buckets, keys: set<BucketKey>, m: Metric)
    requires keys <= b.Keys && forall k | k in keys :: b[k] == Empty(k)
    ensures SumOver(b, keys, m) == 0
  {
    if keys != {} {
      var k := Pick(keys);
      SumOfEmpties(b, keys - {k}, m);
    }
  }

  lemma {:induction false} SumOfChange(b: Buckets, b': Buckets, keys: set<BucketKey>, k: BucketKey, m: Metric, d: int)
    requires b'.Keys == b.Keys && keys <= b.Keys && k in b
    requires m.Of(b'[k]) == m.Of(b[k]) + d
    requires forall o | o in b && o != k :: b'[o] == b[o]
    ensures SumOver(b', keys, m) == SumOver(b, keys, m) + if k in keys then d else 0
  {
    if keys != {} {
      var p := Pick(keys);
      SumOfChange(b, b', keys - {p}, k, m, d);
    }
  }

  lemma {:induction false} SumWithin(es: seq<Entry>, keys: set<BucketKey>, m: Metric)
    requires KeysOf(es) <= keys
    ensures SumOf(TotalsFor(es, keys), m) == GrandTotal(es, m)
  {
    assert TotalsFor(es, keys).Keys == keys;
    if es == [] {
      SumOfEmpties(TotalsFor(es, keys), keys, m);
    } else {
      var init, last := es[..|es| - 1], es[|es| - 1];
      forall e | e in init ensures e in es {}
      assert last.key in KeysOf(es);
      SumWithin(init, keys, m);
      assert TotalsFor(init, keys).Keys == keys;
      SumOfChange(TotalsFor(init, keys), TotalsFor(es, keys), keys, last.key, m, m.In(last.counts));
    }
  }

  /** The buckets of a rollup add up to the sum of all entries. */
  lemma SumOfGroup(es: seq<Entry>, m: Metric)
    ensures SumOf(Group(es), m) == GrandTotal(es, m)
  {
    SumWithin(es, KeysOf(es), m);
  }
}
