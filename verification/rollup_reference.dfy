/** What a session rollup must publish, said about the whole ordered block list at once.
    Nothing here knows about pages, cursors, carried turn flags or a table of seen calls:
    every figure is defined by looking back over all earlier blocks. */
module RollupReference {
  import opened Wrappers
  import opened RollupBuckets

  /** The stand-in for a turn without model evidence. */
  const UNKNOWN_MODEL_LABEL := "(unknown)"

  /** A stored transcript block. `day` is utcDay(ts), and `onMainPath` is on_main_path != 0. */
  datatype Block = Block(
    turn: int, index: int, id: int, role: Option<string>, btype: string, truncated: bool,
    toolName: Option<string>, text: Option<string>, onMainPath: bool, byteLen: Option<int>, day: string)

  /** A session's blocks on its shard and the model column of its usage rows. */
  datatype Source = Source(blocks: seq<Block>, models: map<int, Option<string>>)

  type Position = (int, int, int)
  type CallKey = (string, string)

  const START: Position := (-1, -1, 0)

  function PositionOf(b: Block): Position { (b.turn, b.index, b.id) }

  /** SQL row-value order on (turn_index, block_index, id). */
  predicate Before(p: Position, q: Position) {
    p.0 < q.0 || (p.0 == q.0 && (p.1 < q.1 || (p.1 == q.1 && p.2 < q.2)))
  }

  /** Block i follows its predecessor, and its id occurs in no earlier block. */
  ghost predicate InOrder(bs: seq<Block>, i: nat)
    requires i < |bs|
  {
    && Before(if i == 0 then START else PositionOf(bs[i - 1]), PositionOf(bs[i]))
    && forall j | 0 <= j < i :: bs[j].id != bs[i].id
  }

  /** Blocks in order, past the initial cursor, with block ids unique (they are the table's key). */
  ghost predicate WellFormed(src: Source) {
    forall i | 0 <= i < |src.blocks| :: InOrder(src.blocks, i)
  }

  lemma {:induction false} BlocksAscend(src: Source, i: int, j: nat)
    requires WellFormed(src) && -1 <= i < j < |src.blocks|
    ensures Before(if i == -1 then START else PositionOf(src.blocks[i]), PositionOf(src.blocks[j]))
  {
    assert InOrder(src.blocks, j);
    if i < j - 1 { BlocksAscend(src, i, j - 1); }
  }

  lemma IdsDiffer(src: Source, i: nat, j: nat)
    requires WellFormed(src) && i < |src.blocks| && j < |src.blocks| && i != j
    ensures src.blocks[i].id != src.blocks[j].id
  {
    assert InOrder(src.blocks, i) && InOrder(src.blocks, j);
  }

  predicate IsAssistant(b: Block) { b.role == Some("assistant") }

  predicate IsRewound(b: Block) { IsAssistant(b) && !b.onMainPath }

  predicate IsComparable(b: Block) {
    IsAssistant(b) && b.btype == "tool_use" && !b.truncated && b.toolName.Some? && b.text.Some?
  }

  function CallOf(b: Block): CallKey
    requires IsComparable(b)
  {
    (b.toolName.value, b.text.value)
  }

  function ModelOf(models: map<int, Option<string>>, turn: int): string {
    if turn in models then models[turn].GetOr(UNKNOWN_MODEL_LABEL) else UNKNOWN_MODEL_LABEL
  }

  /** The index of the first block of the turn that block i belongs to. */
  function FirstOfTurn(bs: seq<Block>, i: nat, k: nat := 0): (j: nat)
    requires k <= i < |bs|
    ensures k <= j <= i && bs[j].turn == bs[i].turn
    ensures forall m | k <= m < j :: bs[m].turn != bs[i].turn
    decreases i - k
  {
    if bs[k].turn == bs[i].turn then k else FirstOfTurn(bs, i, k + 1)
  }

  /** The bucket of block i: the day of its turn's first block, and its turn's model. */
  function KeyAt(src: Source, i: nat): BucketKey
    requires i < |src.blocks|
  {
    BucketKey(src.blocks[FirstOfTurn(src.blocks, i)].day, ModelOf(src.models, src.blocks[i].turn))
  }

  /** The two figures that count turns: turns with an assistant block, and turns with a rewound one. */
  datatype TurnFlag = Assistant | Rewound {
    predicate Holds(b: Block) { if Assistant? then IsAssistant(b) else IsRewound(b) }
  }

  ghost predicate SeenBefore(bs: seq<Block>, n: nat, turn: int, flag: TurnFlag)
    requires n <= |bs|
  {
    exists j :: 0 <= j < n && bs[j].turn == turn && flag.Holds(bs[j])
  }

  /** The distinct exact tool calls among the first n blocks. */
  ghost function CallsBefore(bs: seq<Block>, n: nat): set<CallKey>
    requires n <= |bs|
  {
    set j | 0 <= j < n && IsComparable(bs[j]) :: CallOf(bs[j])
  }

  /** The source bytes of a tool result; a missing or negative length counts as none. */
  function SourceBytes(btype: string, byteLen: Option<int>): nat {
    if btype == "tool_result" && byteLen.GetOr(0) > 0 then byteLen.GetOr(0) else 0
  }

  /** What block i adds, judged against every earlier block of the session. */
  ghost function Contribution(src: Source, i: nat): Counts
    requires i < |src.blocks|
  {
    var b := src.blocks[i];
    Counts(Assistant.Holds(b) && !SeenBefore(src.blocks, i, b.turn, Assistant),
           Rewound.Holds(b) && !SeenBefore(src.blocks, i, b.turn, Rewound),
           IsAssistant(b) && b.btype == "tool_use",
           SourceBytes(b.btype, b.byteLen),
           IsComparable(b),
           IsComparable(b) && CallOf(b) in CallsBefore(src.blocks, i))
  }

  /** What each block from n up to m adds, in order. */
  ghost function Entries(src: Source, n: nat, m: nat): (es: seq<Entry>)
    requires n <= m <= |src.blocks|
    ensures |es| == m - n
    decreases m - n
  {
    if n == m then [] else Entries(src, n, m - 1) + [Entry(KeyAt(src, m - 1), Contribution(src, m - 1))]
  }

  /** The rollup of the first n blocks. */
  ghost function RollupTo(src: Source, n: nat): Buckets
    requires n <= |src.blocks|
  {
    Group(Entries(src, 0, n))
  }

  /** The published rollup of a session. */
  ghost function Rollup(src: Source): Buckets {
    RollupTo(src, |src.blocks|)
  }

  lemma {:induction false} EntriesSplit(src: Source, l: nat, n: nat, m: nat)
    requires l <= n <= m <= |src.blocks|
    ensures Entries(src, l, m) == Entries(src, l, n) + Entries(src, n, m)
    decreases m
  {
    if n < m { EntriesSplit(src, l, n, m - 1); }
  }

  /** Adding a page's buckets to the rollup of everything before the page gives the rollup up to its end. */
  lemma PageExtendsRollup(src: Source, n: nat, m: nat)
    requires n <= m <= |src.blocks|
    ensures Upsert(RollupTo(src, n), Group(Entries(src, n, m))) == RollupTo(src, m)
  {
    EntriesSplit(src, 0, n, m);
    UpsertIsGroup(Entries(src, 0, n), Entries(src, n, m));
  }

  // ---- What the reference figures count ----

  ghost function TurnsWith(src: Source, n: nat, k: BucketKey, flag: TurnFlag): set<int>
    requires n <= |src.blocks|
  {
    set i | 0 <= i < n && flag.Holds(src.blocks[i]) && KeyAt(src, i) == k :: src.blocks[i].turn
  }

  /** Two blocks of one turn have one bucket. */
  lemma SameTurnSameKey(src: Source, i: nat, j: nat)
    requires i < |src.blocks| && j < |src.blocks| && src.blocks[i].turn == src.blocks[j].turn
    ensures KeyAt(src, i) == KeyAt(src, j)
  {
    var a, b := FirstOfTurn(src.blocks, i), FirstOfTurn(src.blocks, j);
    assert a == b;
  }

  lemma TurnAdded(src: Source, n: nat, k: BucketKey, flag: TurnFlag)
    requires n < |src.blocks| && flag.Holds(src.blocks[n]) && KeyAt(src, n) == k
    ensures TurnsWith(src, n + 1, k, flag) == TurnsWith(src, n, k, flag) + {src.blocks[n].turn}
  {
    var a, t := TurnsWith(src, n, k, flag), src.blocks[n].turn;
    forall u | u in TurnsWith(src, n + 1, k, flag) ensures u in a + {t} {
      var i :| 0 <= i < n + 1 && flag.Holds(src.blocks[i]) && KeyAt(src, i) == k && src.blocks[i].turn == u;
    }
    forall u | u in a ensures u in TurnsWith(src, n + 1, k, flag) {
      var i :| 0 <= i < n && flag.Holds(src.blocks[i]) && KeyAt(src, i) == k && src.blocks[i].turn == u;
    }
  }

  lemma TurnNotAdded(src: Source, n: nat, k: BucketKey, flag: TurnFlag)
    requires n < |src.blocks| && !(flag.Holds(src.blocks[n]) && KeyAt(src, n) == k)
    ensures TurnsWith(src, n + 1, k, flag) == TurnsWith(src, n, k, flag)
  {
  }

  lemma TurnKnown(src: Source, n: nat, k: BucketKey, flag: TurnFlag)
    requires n < |src.blocks| && KeyAt(src, n) == k
    ensures src.blocks[n].turn in TurnsWith(src, n, k, flag) <==> SeenBefore(src.blocks, n, src.blocks[n].turn, flag)
  {
    var t := src.blocks[n].turn;
    if SeenBefore(src.blocks, n, t, flag) {
      var j :| 0 <= j < n && src.blocks[j].turn == t && flag.Holds(src.blocks[j]);
      SameTurnSameKey(src, j, n);
      assert t in TurnsWith(src, n, k, flag);
    }
  }

  lemma TurnsStep(src: Source, n: nat, k: BucketKey, flag: TurnFlag)
    requires n < |src.blocks|
    ensures |TurnsWith(src, n + 1, k, flag)| == |TurnsWith(src, n, k, flag)|
          + if flag.Holds(src.blocks[n]) && KeyAt(src, n) == k && !SeenBefore(src.blocks, n, src.blocks[n].turn, flag)
            then 1 else 0
  {
    if flag.Holds(src.blocks[n]) && KeyAt(src, n) == k {
      TurnAdded(src, n, k, flag);
      TurnKnown(src, n, k, flag);
    } else {
      TurnNotAdded(src, n, k, flag);
    }
  }

  /** A bucket's assistant and rewound figures count turns, each once. */
  lemma {:induction false} TurnsCountOnce(src: Source, n: nat, k: BucketKey)
    requires n <= |src.blocks|
    ensures Total(Entries(src, 0, n), k).assistantTurns == |TurnsWith(src, n, k, Assistant)|
    ensures Total(Entries(src, 0, n), k).rewoundTurns == |TurnsWith(src, n, k, Rewound)|
  {
    if n > 0 {
      TurnsCountOnce(src, n - 1, k);
      TurnsStep(src, n - 1, k, Assistant);
      TurnsStep(src, n - 1, k, Rewound);
      assert Entries(src, 0, n)[..n - 1] == Entries(src, 0, n - 1);
    }
  }

  lemma CallsStep(src: Source, n: nat)
    requires n < |src.blocks|
    ensures |CallsBefore(src.blocks, n + 1)| == |CallsBefore(src.blocks, n)|
          + Bit(Contribution(src, n).comparable) - Bit(Contribution(src, n).repeated)
  {
    var b, c := src.blocks[n], CallsBefore(src.blocks, n);
    if IsComparable(b) {
      assert CallsBefore(src.blocks, n + 1) == c + {CallOf(b)};
    } else {
      assert CallsBefore(src.blocks, n + 1) == c;
    }
  }

  lemma {:induction false} RepeatedUpTo(src: Source, n: nat)
    requires n <= |src.blocks|
    ensures GrandTotal(Entries(src, 0, n), Repeated)
         == GrandTotal(Entries(src, 0, n), Comparable) - |CallsBefore(src.blocks, n)|
  {
    if n > 0 {
      RepeatedUpTo(src, n - 1);
      CallsStep(src, n - 1);
      assert Entries(src, 0, n)[..n - 1] == Entries(src, 0, n - 1);
    }
  }

  /** Over a session's buckets, repeated calls are comparable calls less distinct (tool, text) keys. */
  lemma RepeatedCallsAreDuplicates(src: Source)
    ensures SumOf(Rollup(src), Repeated) == SumOf(Rollup(src), Comparable) - |CallsBefore(src.blocks, |src.blocks|)|
  {
    SumOfGroup(Entries(src, 0, |src.blocks|), Repeated);
    SumOfGroup(Entries(src, 0, |src.blocks|), Comparable);
    RepeatedUpTo(src, |src.blocks|);
  }
}
