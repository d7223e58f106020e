/** One page of the rollup: what its queries return and the fold over its rows. */
module RollupPage {
  import opened Wrappers
  import opened RollupBuckets
  import opened RollupReference

  /** A row of the page query. Only the first row of each exact call in the page carries its text. */
  datatype Row = Row(turn: int, index: int, id: int, role: Option<string>, btype: string,
                     comparable: bool, callKeyId: Option<int>, toolName: Option<string>, text: Option<string>,
                     onMainPath: bool, byteLen: Option<int>, day: string)

  /** The flags carried from page to page. */
  datatype TurnState = TurnState(index: int, day: string, model: string, assistant: bool, rewind: bool)

  datatype Fold = Fold(turn: Option<TurnState>, buckets: Buckets)

  // ---- The queries ----

  /** WHERE (turn_index, block_index, id) > cursor. */
  function After(bs: seq<Block>, cursor: Position): seq<Block> {
    if bs == [] then []
    else if Before(cursor, PositionOf(bs[0])) then [bs[0]] + After(bs[1..], cursor)
    else After(bs[1..], cursor)
  }

  function Take<T>(s: seq<T>, n: nat): seq<T> {
    if |s| <= n then s else s[..n]
  }

  /** FIRST_VALUE over the partition of the page by (tool_name, text). */
  function FirstCall(page: seq<Block>, i: nat, k: nat := 0): (j: nat)
    requires k <= i < |page| && IsComparable(page[i])
    ensures k <= j <= i && IsComparable(page[j]) && CallOf(page[j]) == CallOf(page[i])
    ensures forall m | k <= m < j :: !(IsComparable(page[m]) && CallOf(page[m]) == CallOf(page[i]))
    decreases i - k
  {
    if IsComparable(page[k]) && CallOf(page[k]) == CallOf(page[i]) then k else FirstCall(page, i, k + 1)
  }

  function RowOf(page: seq<Block>, i: nat): Row
    requires i < |page|
  {
    var b := page[i];
    var key := if IsComparable(b) then Some(page[FirstCall(page, i)].id) else None;
    Row(b.turn, b.index, b.id, b.role, b.btype, IsComparable(b), key,
        if key == Some(b.id) then b.toolName else None, if key == Some(b.id) then b.text else None,
        b.onMainPath, b.byteLen, b.day)
  }

  function RowsOf(page: seq<Block>): (rows: seq<Row>)
    ensures |rows| == |page|
    ensures forall i | 0 <= i < |page| :: rows[i] == RowOf(page, i)
  {
    seq(|page|, i requires 0 <= i < |page| => RowOf(page, i))
  }

  function ReadPage(bs: seq<Block>, cursor: Position, limit: nat): seq<Row> {
    RowsOf(Take(After(bs, cursor), limit))
  }

  /** The page's usage rows: turn_index IN (the turns of the page). */
  function ReadModels(models: map<int, Option<string>>, rows: seq<Row>): map<int, Option<string>> {
    map t | t in models && HasTurn(rows, t) :: models[t]
  }

  predicate HasTurn(rows: seq<Row>, turn: int) {
    exists i :: 0 <= i < |rows| && rows[i].turn == turn
  }

  predicate IsCall(r: Row) { r.callKeyId == Some(r.id) && r.toolName.Some? && r.text.Some? }

  /** The rows that carry their identity: one for each distinct exact call of the page. */
  function Calls(rows: seq<Row>): seq<Row> {
    if rows == [] then []
    else if IsCall(rows[0]) then [rows[0]] + Calls(rows[1..])
    else Calls(rows[1..])
  }

  function CallKeys(rows: seq<Row>): set<CallKey> {
    set r | r in rows && IsCall(r) :: (r.toolName.value, r.text.value)
  }

  /** The call rows whose key is in the seen-calls table. */
  function SeenIds(rows: seq<Row>, table: set<CallKey>): set<int> {
    set r | r in rows && IsCall(r) && (r.toolName.value, r.text.value) in table :: r.id
  }

  // ---- The fold ----

  function TurnFor(turn: Option<TurnState>, r: Row, models: map<int, Option<string>>): TurnState {
    if turn.Some? && turn.value.index == r.turn then turn.value
    else TurnState(r.turn, r.day, ModelOf(models, r.turn), false, false)
  }

  function Adds(t: TurnState, r: Row, seen: set<int>): Counts {
    var assistant := r.role == Some("assistant");
    Counts(assistant && !t.assistant,
           assistant && !r.onMainPath && !t.rewind,
           assistant && r.btype == "tool_use",
           SourceBytes(r.btype, r.byteLen),
           r.comparable,
           r.callKeyId.Some? && (r.id != r.callKeyId.value || r.callKeyId.value in seen))
  }

  function AddTo(buckets: Buckets, k: BucketKey, c: Counts): Buckets {
    buckets[k := (if k in buckets then buckets[k] else Empty(k)).Count(c)]
  }

  /** The carried state after a row, from the state the row was counted under. */
  function TurnAfter(t: TurnState, assistant: bool, onMainPath: bool): TurnState {
    t.(assistant := t.assistant || assistant, rewind := t.rewind || (assistant && !onMainPath))
  }

  function Step(f: Fold, r: Row, models: map<int, Option<string>>, seen: set<int>): Fold {
    var t := TurnFor(f.turn, r, models);
    Fold(Some(TurnAfter(t, r.role == Some("assistant"), r.onMainPath)),
         AddTo(f.buckets, BucketKey(t.day, t.model), Adds(t, r, seen)))
  }

  /** The fold over a page's rows, from the carried turn state and no buckets. */
  function FoldRows(rows: seq<Row>, turn: Option<TurnState>, models: map<int, Option<string>>, seen: set<int>): Fold {
    if rows == [] then Fold(turn, map[])
    else Step(FoldRows(rows[..|rows| - 1], turn, models, seen), rows[|rows| - 1], models, seen)
  }

  /** The page loop: buckets are created on demand and their counters grow in place. */
  method FoldBlocks(rows: seq<Row>, carried: Option<TurnState>, models: map<int, Option<string>>, seen: set<int>)
    returns (turn: Option<TurnState>, buckets: Buckets)
    ensures Fold(turn, buckets) == FoldRows(rows, carried, models, seen)
  {
    turn, buckets := carried, map[];
    for i := 0 to |rows|
      invariant Fold(turn, buckets) == FoldRows(rows[..i], carried, models, seen)
    {
      assert rows[..i + 1][..i] == rows[..i];
      turn, buckets := CountRow(turn, buckets, rows[i], models, seen);
    }
    assert rows[..|rows|] == rows;
  }

  /** The loop's body for one row. */
  method CountRow(carried: Option<TurnState>, stored: Buckets, r: Row, models: map<int, Option<string>>, seen: set<int>)
    returns (turn: Option<TurnState>, buckets: Buckets)
    ensures Fold(turn, buckets) == Step(Fold(carried, stored), r, models, seen)
  {
    var t: TurnState;
    if carried.None? || carried.value.index != r.turn {
      t := TurnState(r.turn, r.day, ModelOf(models, r.turn), false, false);
    } else {
      t := carried.value;
    }
    var key := BucketKey(t.day, t.model);
    var b := if key in stored then stored[key] else Empty(key);
    ghost var c := Adds(t, r, seen);
    var t', b1 := CountTurn(t, b, r, c);
    var b2 := CountCalls(b1, r, seen, c);
    CountInParts(b, b1, b2, c);
    StepParts(carried, stored, r, models, seen, t);
    turn, buckets := Some(t'), stored[key := b2];
  }

  lemma CountInParts(b0: Bucket, b1: Bucket, b2: Bucket, c: Counts)
    requires b1 == b0.(assistantTurns := b0.assistantTurns + Bit(c.assistantTurn),
                       rewoundTurns := b0.rewoundTurns + Bit(c.rewoundTurn),
                       toolCalls := b0.toolCalls + Bit(c.toolCall))
    requires b2 == b1.(resultBytes := b1.resultBytes + c.resultBytes, comparable := b1.comparable + Bit(c.comparable),
                       repeated := b1.repeated + Bit(c.repeated))
    ensures b2 == b0.Count(c)
  {
  }

  /** The assistant branch: each turn's flags are raised once. */
  method CountTurn(t0: TurnState, b0: Bucket, r: Row, ghost c: Counts) returns (t: TurnState, b: Bucket)
    requires c.assistantTurn == (r.role == Some("assistant") && !t0.assistant)
    requires c.rewoundTurn == (r.role == Some("assistant") && !r.onMainPath && !t0.rewind)
    requires c.toolCall == (r.role == Some("assistant") && r.btype == "tool_use")
    ensures t == TurnAfter(t0, r.role == Some("assistant"), r.onMainPath)
    ensures b == b0.(assistantTurns := b0.assistantTurns + Bit(c.assistantTurn),
                     rewoundTurns := b0.rewoundTurns + Bit(c.rewoundTurn),
                     toolCalls := b0.toolCalls + Bit(c.toolCall))
  {
    t, b := t0, b0;
    if r.role == Some("assistant") {
      if !t.assistant {
        b := b.(assistantTurns := b.assistantTurns + 1);
        t := t.(assistant := true);
      }
      if !r.onMainPath && !t.rewind {
        b := b.(rewoundTurns := b.rewoundTurns + 1);
        t := t.(rewind := true);
      }
      if r.btype == "tool_use" { b := b.(toolCalls := b.toolCalls + 1); }
    }
  }

  /** The branches that do not depend on the turn. */
  method CountCalls(b0: Bucket, r: Row, seen: set<int>, ghost c: Counts) returns (b: Bucket)
    requires c.resultBytes == SourceBytes(r.btype, r.byteLen) && c.comparable == r.comparable
    requires c.repeated == (r.callKeyId.Some? && (r.id != r.callKeyId.value || r.callKeyId.value in seen))
    ensures b == b0.(resultBytes := b0.resultBytes + c.resultBytes, comparable := b0.comparable + Bit(c.comparable),
                     repeated := b0.repeated + Bit(c.repeated))
  {
    b := b0;
    if r.btype == "tool_result" {
      var len := r.byteLen.GetOr(0);
      b := b.(resultBytes := b.resultBytes + if len > 0 then len else 0);
    }
    if r.comparable { b := b.(comparable := b.comparable + 1); }
    if r.callKeyId.Some? && (r.id != r.callKeyId.value || r.callKeyId.value in seen) {
      b := b.(repeated := b.repeated + 1);
    }
  }

  // ---- A page read at a cursor continues the whole-list rollup ----

  /** The cursor after the first n blocks. */
  function CursorAt(bs: seq<Block>, n: nat): Position
    requires n <= |bs|
  {
    if n == 0 then START else PositionOf(bs[n - 1])
  }

  /** The turn state the reference carries after n blocks. */
  ghost function TurnAt(src: Source, n: nat): Option<TurnState>
    requires n <= |src.blocks|
  {
    if n == 0 then None
    else
      var t := src.blocks[n - 1].turn;
      Some(TurnState(t, KeyAt(src, n - 1).day, KeyAt(src, n - 1).model,
                     SeenBefore(src.blocks, n, t, Assistant), SeenBefore(src.blocks, n, t, Rewound)))
  }

  lemma {:induction false} AfterNone(bs: seq<Block>, cursor: Position)
    requires forall b | b in bs :: Before(cursor, PositionOf(b))
    ensures After(bs, cursor) == bs
  {
    if bs != [] { AfterNone(bs[1..], cursor); }
  }

  lemma {:induction false} AfterDrops(bs: seq<Block>, cursor: Position, n: nat)
    requires n <= |bs|
    requires forall i | 0 <= i < n :: !Before(cursor, PositionOf(bs[i]))
    requires forall i | n <= i < |bs| :: Before(cursor, PositionOf(bs[i]))
    ensures After(bs, cursor) == bs[n..]
  {
    if n == 0 {
      AfterNone(bs, cursor);
    } else {
      AfterDrops(bs[1..], cursor, n - 1);
    }
  }

  lemma CursorSplits(src: Source, n: nat)
    requires WellFormed(src) && n <= |src.blocks|
    ensures forall i | 0 <= i < n :: !Before(CursorAt(src.blocks, n), PositionOf(src.blocks[i]))
    ensures forall i | n <= i < |src.blocks| :: Before(CursorAt(src.blocks, n), PositionOf(src.blocks[i]))
  {
    forall i | 0 <= i < n ensures !Before(CursorAt(src.blocks, n), PositionOf(src.blocks[i])) {
      if i < n - 1 { BlocksAscend(src, i, n - 1); }
    }
    forall i | n <= i < |src.blocks| ensures Before(CursorAt(src.blocks, n), PositionOf(src.blocks[i])) {
      BlocksAscend(src, n - 1, i);
    }
  }

  /** A page read after the cursor of block n is the window of blocks from n. */
  lemma PageIsWindow(src: Source, n: nat, limit: nat)
    requires WellFormed(src) && n <= |src.blocks|
    ensures var m := if n + limit < |src.blocks| then n + limit else |src.blocks|;
            ReadPage(src.blocks, CursorAt(src.blocks, n), limit) == RowsOf(src.blocks[n..m])
  {
    CursorSplits(src, n);
    AfterDrops(src.blocks, CursorAt(src.blocks, n), n);
    var m := if n + limit < |src.blocks| then n + limit else |src.blocks|;
    assert Take(src.blocks[n..], limit) == src.blocks[n..m];
  }

  lemma NewTurn(src: Source, n: nat)
    requires WellFormed(src) && n < |src.blocks|
    requires n == 0 || src.blocks[n - 1].turn != src.blocks[n].turn
    ensures forall j | 0 <= j < n :: src.blocks[j].turn != src.blocks[n].turn
    ensures KeyAt(src, n) == BucketKey(src.blocks[n].day, ModelOf(src.models, src.blocks[n].turn))
  {
    forall j | 0 <= j < n ensures src.blocks[j].turn != src.blocks[n].turn {
      BlocksAscend(src, n - 1, n);
      if j < n - 1 { BlocksAscend(src, j, n - 1); }
    }
    assert FirstOfTurn(src.blocks, n) == n;
  }

  /** The carried state selects the reference bucket and flags of the next block. */
  lemma TurnForNext(src: Source, n: nat, r: Row, models: map<int, Option<string>>)
    requires WellFormed(src) && n < |src.blocks|
    requires r.turn == src.blocks[n].turn && r.day == src.blocks[n].day
    requires ModelOf(models, r.turn) == ModelOf(src.models, r.turn)
    ensures TurnFor(TurnAt(src, n), r, models)
         == TurnState(r.turn, KeyAt(src, n).day, KeyAt(src, n).model,
                      SeenBefore(src.blocks, n, r.turn, Assistant), SeenBefore(src.blocks, n, r.turn, Rewound))
  {
    if n == 0 || src.blocks[n - 1].turn != src.blocks[n].turn {
      NewTurn(src, n);
    } else {
      SameTurnSameKey(src, n - 1, n);
    }
  }

  lemma SeenBeforeStep(bs: seq<Block>, n: nat, turn: int, flag: TurnFlag)
    requires n < |bs|
    ensures SeenBefore(bs, n + 1, turn, flag)
       <==> SeenBefore(bs, n, turn, flag) || (bs[n].turn == turn && flag.Holds(bs[n]))
  {
    if SeenBefore(bs, n, turn, flag) {
      var j :| 0 <= j < n && bs[j].turn == turn && flag.Holds(bs[j]);
      assert 0 <= j < n + 1;
    }
  }

  /** The call rows marked seen are those whose key the table holds. */
  ghost predicate SeenIsHonest(rows: seq<Row>, table: set<CallKey>, seen: set<int>) {
    forall i | 0 <= i < |rows| && IsCall(rows[i]) ::
      rows[i].id in seen <==> (rows[i].toolName.value, rows[i].text.value) in table
  }

  /** A call counts as repeated in its page exactly when the whole list holds it earlier. */
  lemma RepeatedIsReference(src: Source, n: nat, m: nat, j: nat, rows: seq<Row>, seen: set<int>)
    requires WellFormed(src) && n + j < m <= |src.blocks| && rows == RowsOf(src.blocks[n..m])
    requires SeenIsHonest(rows, CallsBefore(src.blocks, n), seen) && IsComparable(src.blocks[n + j])
    ensures var r := rows[j];
            && r.callKeyId.Some?
            && (r.id != r.callKeyId.value || r.callKeyId.value in seen
                <==> CallOf(src.blocks[n + j]) in CallsBefore(src.blocks, n + j))
  {
    var page, b := src.blocks[n..m], src.blocks[n + j];
    assert rows[j] == RowOf(page, j);
    var f := FirstCall(page, j);
    assert page[f] == src.blocks[n + f];
    if f < j {
      IdsDiffer(src, n + f, n + j);
      assert CallOf(src.blocks[n + f]) in CallsBefore(src.blocks, n + j);
    } else {
      forall i | n <= i < n + j ensures !(IsComparable(src.blocks[i]) && CallOf(src.blocks[i]) == CallOf(b)) {
        assert page[i - n] == src.blocks[i];
      }
    }
  }

  lemma AddsIsContribution(src: Source, n: nat, m: nat, j: nat, rows: seq<Row>, seen: set<int>, t: TurnState)
    requires WellFormed(src) && n + j < m <= |src.blocks| && rows == RowsOf(src.blocks[n..m])
    requires SeenIsHonest(rows, CallsBefore(src.blocks, n), seen)
    requires t.assistant == SeenBefore(src.blocks, n + j, src.blocks[n + j].turn, Assistant)
    requires t.rewind == SeenBefore(src.blocks, n + j, src.blocks[n + j].turn, Rewound)
    ensures Adds(t, rows[j], seen) == Contribution(src, n + j)
  {
    assert rows[j] == RowOf(src.blocks[n..m], j);
    if IsComparable(src.blocks[n + j]) { RepeatedIsReference(src, n, m, j, rows, seen); }
  }

  lemma GroupAppend(es: seq<Entry>, e: Entry)
    ensures Group(es + [e]) == AddTo(Group(es), e.key, e.counts)
  {
    assert KeysOf(es + [e]) == KeysOf(es) + {e.key};
    forall k | k in KeysOf(es + [e]) ensures Total(es + [e], k) == AddTo(Group(es), e.key, e.counts)[k] {
      assert (es + [e])[..|es|] == es;
      if k !in KeysOf(es) { TotalOutside(es, k); }
    }
  }

  lemma TurnMoves(src: Source, i: nat)
    requires WellFormed(src) && i < |src.blocks|
    ensures var b := src.blocks[i];
            var t := TurnState(b.turn, KeyAt(src, i).day, KeyAt(src, i).model,
                               SeenBefore(src.blocks, i, b.turn, Assistant), SeenBefore(src.blocks, i, b.turn,
                                                                                        Rewound));
            TurnAt(src, i + 1) == Some(TurnAfter(t, IsAssistant(b), b.onMainPath))
  {
    SeenBeforeStep(src.blocks, i, src.blocks[i].turn, Assistant);
    SeenBeforeStep(src.blocks, i, src.blocks[i].turn, Rewound);
  }

  /** One row moves the reference turn state and adds the reference contribution to the reference bucket. */
  lemma StepIsReference(src: Source, n: nat, m: nat, j: nat, rows: seq<Row>, models: map<int, Option<string>>,
                        seen: set<int>, stored: Buckets)
    requires WellFormed(src) && n + j < m <= |src.blocks| && rows == RowsOf(src.blocks[n..m])
    requires ModelOf(models, src.blocks[n + j].turn) == ModelOf(src.models, src.blocks[n + j].turn)
    requires SeenIsHonest(rows, CallsBefore(src.blocks, n), seen)
    ensures Step(Fold(TurnAt(src, n + j), stored), rows[j], models, seen)
         == Fold(TurnAt(src, n + j + 1), AddTo(stored, KeyAt(src, n + j), Contribution(src, n + j)))
  {
    var r := rows[j];
    assert r == RowOf(src.blocks[n..m], j);
    TurnForNext(src, n + j, r, models);
    var t := TurnFor(TurnAt(src, n + j), r, models);
    AddsIsContribution(src, n, m, j, rows, seen, t);
    TurnMoves(src, n + j);
    StepParts(TurnAt(src, n + j), stored, r, models, seen, t);
  }

  lemma StepParts(turn: Option<TurnState>, stored: Buckets, r: Row, models: map<int, Option<string>>, seen: set<int>,
                  t: TurnState)
    requires t == TurnFor(turn, r, models)
    ensures Step(Fold(turn, stored), r, models, seen)
         == Fold(Some(TurnAfter(t, r.role == Some("assistant"), r.onMainPath)),
                 AddTo(stored, BucketKey(t.day, t.model), Adds(t, r, seen)))
  {
  }

  /** A list of states linked by the step is what the fold goes through. */
  lemma {:induction false} FoldFollows(rows: seq<Row>, states: seq<Fold>, turn: Option<TurnState>,
                                       models: map<int, Option<string>>, seen: set<int>, i: nat)
    requires |states| == |rows| + 1 && states[0] == Fold(turn, map[]) && i <= |rows|
    requires forall j | 0 <= j < |rows| :: states[j + 1] == Step(states[j], rows[j], models, seen)
    ensures FoldRows(rows[..i], turn, models, seen) == states[i]
  {
    if i > 0 {
      FoldFollows(rows, states, turn, models, seen, i - 1);
      assert rows[..i][..i - 1] == rows[..i - 1];
      assert states[i - 1 + 1] == Step(states[i - 1], rows[i - 1], models, seen);
    }
  }

  lemma NoEntries()
    ensures Group([]) == map[]
  {
  }

  /** The reference fold over blocks n up to i. */
  ghost function ReferenceFold(src: Source, n: nat, i: nat): Fold
    requires n <= i <= |src.blocks|
  {
    Fold(TurnAt(src, i), Group(Entries(src, n, i)))
  }

  /** The reference fold grows by one block. */
  lemma ReferenceStep(src: Source, n: nat, m: nat, j: nat, rows: seq<Row>, models: map<int, Option<string>>,
                      seen: set<int>)
    requires WellFormed(src) && n + j < m <= |src.blocks| && rows == RowsOf(src.blocks[n..m])
    requires ModelOf(models, src.blocks[n + j].turn) == ModelOf(src.models, src.blocks[n + j].turn)
    requires SeenIsHonest(rows, CallsBefore(src.blocks, n), seen)
    ensures ReferenceFold(src, n, n + j + 1) == Step(ReferenceFold(src, n, n + j), rows[j], models, seen)
  {
    StepIsReference(src, n, m, j, rows, models, seen, Group(Entries(src, n, n + j)));
    GroupAppend(Entries(src, n, n + j), Entry(KeyAt(src, n + j), Contribution(src, n + j)));
  }

  ghost function ReferenceStates(src: Source, n: nat, m: nat): (states: seq<Fold>)
    requires n <= m <= |src.blocks|
    ensures |states| == m - n + 1
    ensures forall j | 0 <= j <= m - n :: states[j] == ReferenceFold(src, n, n + j)
  {
    seq(m - n + 1, j requires 0 <= j <= m - n => ReferenceFold(src, n, n + j))
  }

  lemma ReferenceStart(src: Source, n: nat)
    requires n <= |src.blocks|
    ensures ReferenceFold(src, n, n) == Fold(TurnAt(src, n), map[])
  {
    NoEntries();
  }

  lemma ReferenceLinks(src: Source, n: nat, m: nat, rows: seq<Row>, models: map<int, Option<string>>, seen: set<int>,
                       states: seq<Fold>)
    requires WellFormed(src) && n <= m <= |src.blocks| && rows == RowsOf(src.blocks[n..m])
    requires forall j | n <= j < m :: ModelOf(models, src.blocks[j].turn) == ModelOf(src.models, src.blocks[j].turn)
    requires SeenIsHonest(rows, CallsBefore(src.blocks, n), seen)
    requires states == ReferenceStates(src, n, m)
    ensures forall j | 0 <= j < |rows| :: states[j + 1] == Step(states[j], rows[j], models, seen)
  {
    forall j | 0 <= j < |rows| ensures states[j + 1] == Step(states[j], rows[j], models, seen) {
      assert states[j + 1] == ReferenceFold(src, n, n + j + 1);
      ReferenceStep(src, n, m, j, rows, models, seen);
    }
  }

  /** The states the reference fold goes through over a page. */
  lemma ReferenceRun(src: Source, n: nat, m: nat, rows: seq<Row>, models: map<int, Option<string>>, seen: set<int>)
    returns (states: seq<Fold>)
    requires WellFormed(src) && n <= m <= |src.blocks| && rows == RowsOf(src.blocks[n..m])
    requires forall j | n <= j < m :: ModelOf(models, src.blocks[j].turn) == ModelOf(src.models, src.blocks[j].turn)
    requires SeenIsHonest(rows, CallsBefore(src.blocks, n), seen)
    ensures |states| == |rows| + 1 && states[0] == Fold(TurnAt(src, n), map[])
    ensures states[|rows|] == ReferenceFold(src, n, m)
    ensures forall j | 0 <= j < |rows| :: states[j + 1] == Step(states[j], rows[j], models, seen)
  {
    states := ReferenceStates(src, n, m);
    ReferenceLinks(src, n, m, rows, models, seen, states);
    ReferenceStart(src, n);
  }

  /** Folding an honestly read page from the reference turn state gives the page's reference entries. */
  lemma PageFoldIsReference(src: Source, n: nat, m: nat, rows: seq<Row>, models: map<int, Option<string>>,
                            seen: set<int>)
    requires WellFormed(src) && n <= m <= |src.blocks| && rows == RowsOf(src.blocks[n..m])
    requires forall j | n <= j < m :: ModelOf(models, src.blocks[j].turn) == ModelOf(src.models, src.blocks[j].turn)
    requires SeenIsHonest(rows, CallsBefore(src.blocks, n), seen)
    ensures FoldRows(rows, TurnAt(src, n), models, seen) == ReferenceFold(src, n, m)
  {
    var states := ReferenceRun(src, n, m, rows, models, seen);
    FoldAll(rows, states, TurnAt(src, n), models, seen);
  }

  lemma FoldAll(rows: seq<Row>, states: seq<Fold>, turn: Option<TurnState>, models: map<int, Option<string>>,
                seen: set<int>)
    requires |states| == |rows| + 1 && states[0] == Fold(turn, map[])
    requires forall j | 0 <= j < |rows| :: states[j + 1] == Step(states[j], rows[j], models, seen)
    ensures FoldRows(rows, turn, models, seen) == states[|rows|]
  {
    FoldFollows(rows, states, turn, models, seen, |rows|);
    assert rows[..|rows|] == rows;
  }

  /** Storing a page's calls makes the table hold exactly the calls seen so far. */
  lemma CallKeysOfWindow(src: Source, n: nat, m: nat)
    requires n <= m <= |src.blocks|
    ensures CallsBefore(src.blocks, n) + CallKeys(RowsOf(src.blocks[n..m])) == CallsBefore(src.blocks, m)
  {
    var page := src.blocks[n..m];
    var rows := RowsOf(page);
    forall c | c in CallsBefore(src.blocks, m) ensures c in CallsBefore(src.blocks, n) + CallKeys(rows) {
      var j :| 0 <= j < m && IsComparable(src.blocks[j]) && CallOf(src.blocks[j]) == c;
      if j >= n {
        assert page[j - n] == src.blocks[j];
        var f := FirstCall(page, j - n);
        assert FirstCall(page, f) == f;
        assert rows[f] in rows && IsCall(rows[f]);
      }
    }
    forall c | c in CallKeys(rows) ensures c in CallsBefore(src.blocks, m) {
      var r :| r in rows && IsCall(r) && (r.toolName.value, r.text.value) == c;
      var i :| 0 <= i < |rows| && rows[i] == r;
      assert r == RowOf(page, i) && page[i] == src.blocks[n + i];
      assert IsComparable(src.blocks[n + i]) && CallOf(src.blocks[n + i]) == c;
    }
  }

  lemma CallRowAt(src: Source, n: nat, m: nat, rows: seq<Row>, q: Row) returns (j: nat)
    requires n <= m <= |src.blocks| && rows == RowsOf(src.blocks[n..m])
    requires q in rows
    ensures n <= j < m && rows[j - n] == q && src.blocks[j].id == q.id
  {
    var i :| 0 <= i < |rows| && rows[i] == q;
    assert q == RowOf(src.blocks[n..m], i) && src.blocks[n..m][i] == src.blocks[n + i];
    j := n + i;
  }

  /** Ids looked up in a table are honest about that table. */
  lemma SeenIdsAreHonest(src: Source, n: nat, m: nat, rows: seq<Row>, table: set<CallKey>)
    requires WellFormed(src) && n <= m <= |src.blocks| && rows == RowsOf(src.blocks[n..m])
    ensures SeenIsHonest(rows, table, SeenIds(rows, table))
  {
    forall i | 0 <= i < |rows| && IsCall(rows[i])
      ensures rows[i].id in SeenIds(rows, table) <==> (rows[i].toolName.value, rows[i].text.value) in table
    {
      assert rows[i] in rows;
      if rows[i].id in SeenIds(rows, table) {
        var q :| q in rows && IsCall(q) && (q.toolName.value, q.text.value) in table && q.id == rows[i].id;
        var a := CallRowAt(src, n, m, rows, q);
        var b := CallRowAt(src, n, m, rows, rows[i]);
        if a != b { IdsDiffer(src, a, b); }
      }
    }
  }
}
