/** The collector's durable event queue. */
module EventQueue {
  import opened Wrappers
  import opened EventRows

  const PAGE_CHARS: nat := 256 * 1024

  datatype Event = Event(key: Key, count: int)

  // ---- The statements ----

  /** UPDATE ... SET count for the ids of a group table. */
  function SetCounts(rows: seq<Row>, groups: map<int, int>): seq<Row> {
    if rows == [] then [] else SetCounts(rows[..|rows| - 1], groups) + [SetCount(rows[|rows| - 1], groups)]
  }

  function SetCount(r: Row, groups: map<int, int>): Row {
    if r.id in groups then r.(count := groups[r.id]) else r
  }

  /** DELETE FROM pending_events WHERE id > after AND id <= through AND id NOT IN groups. */
  function DeleteUngrouped(rows: seq<Row>, after: int, through: int, groups: map<int, int>): seq<Row> {
    if rows == [] then []
    else
      var r := rows[|rows| - 1];
      DeleteUngrouped(rows[..|rows| - 1], after, through, groups)
      + if after < r.id <= through && r.id !in groups then [] else [r]
  }

  /** DELETE FROM pending_events WHERE id = ?, for each id. */
  function Without(rows: seq<Row>, ids: seq<int>): seq<Row> {
    if rows == [] then []
    else Without(rows[..|rows| - 1], ids) + if rows[|rows| - 1].id in ids then [] else [rows[|rows| - 1]]
  }

  function Only(rows: seq<Row>, ids: seq<int>): seq<Row> {
    if rows == [] then []
    else Only(rows[..|rows| - 1], ids) + if rows[|rows| - 1].id in ids then [rows[|rows| - 1]] else []
  }

  /** SELECT MIN(id), SUM(count) ... GROUP BY level, code, message, store. */
  ghost predicate IsGroupTable(window: seq<Row>, n: nat, groups: map<int, int>)
    requires n <= |window|
  {
    && (forall i | 0 <= i < n :: InGroupTable(window, i, groups))
    && (forall id | id in groups :: exists i :: 0 <= i < n && window[i].id == id)
  }

  ghost predicate InGroupTable(window: seq<Row>, i: nat, groups: map<int, int>)
    requires i < |window|
  {
    && (window[i].id in groups <==> First(window, i))
    && (window[i].id in groups ==> groups[window[i].id] == SumOf(window, window[i].key))
  }

  method FillGroups(window: seq<Row>) returns (groups: map<int, int>)
    requires Ascending(window)
    ensures IsGroupTable(window, |window|, groups)
  {
    groups := map[];
    for i := 0 to |window|
      invariant IsGroupTable(window, i, groups)
    {
      ghost var before := groups;
      assert window[i].id !in groups;
      if First(window, i) {
        groups := groups[window[i].id := SumOf(window, window[i].key)];
      }
      forall j | 0 <= j < i ensures InGroupTable(window, j, groups) {
        assert InGroupTable(window, j, before) && window[j].id < window[i].id;
      }
      assert InGroupTable(window, i, groups);
    }
  }

  lemma DeleteLast(rows: seq<Row>, r: Row, after: int, through: int, groups: map<int, int>)
    ensures DeleteUngrouped(rows + [r], after, through, groups)
         == DeleteUngrouped(rows, after, through, groups)
            + if after < r.id <= through && r.id !in groups then [] else [r]
  {
    assert (rows + [r])[..|rows|] == rows;
  }

  /** Updating and deleting by the group table leaves the compacted window. */
  lemma {:induction false} GroupedIsKept(window: seq<Row>, n: nat, after: int, through: int, groups: map<int, int>)
    requires n <= |window| && IsGroupTable(window, |window|, groups)
    requires forall i | 0 <= i < |window| :: after < window[i].id <= through
    ensures DeleteUngrouped(SetCounts(window[..n], groups), after, through, groups) == Kept(window, n)
  {
    if n > 0 {
      GroupedIsKept(window, n - 1, after, through, groups);
      assert window[..n][..n - 1] == window[..n - 1];
      assert InGroupTable(window, n - 1, groups);
      var init, last := SetCounts(window[..n - 1], groups), SetCount(window[n - 1], groups);
      assert SetCounts(window[..n], groups) == init + [last];
      DeleteLast(init, last, after, through, groups);
    }
  }

  lemma {:induction false} SetCountsConcat(a: seq<Row>, b: seq<Row>, groups: map<int, int>)
    ensures SetCounts(a + b, groups) == SetCounts(a, groups) + SetCounts(b, groups)
  {
    if b == [] {
      assert a + b == a;
    } else {
      var init := b[..|b| - 1];
      assert (a + b)[..|a + b| - 1] == a + init;
      SetCountsConcat(a, init, groups);
      var x, y := SetCounts(a, groups), SetCounts(init, groups);
      var z := [SetCount(b[|b| - 1], groups)];
      assert (x + y) + z == x + (y + z);
    }
  }

  lemma {:induction false} DeleteConcat(a: seq<Row>, b: seq<Row>, after: int, through: int, groups: map<int, int>)
    ensures DeleteUngrouped(a + b, after, through, groups)
         == DeleteUngrouped(a, after, through, groups) + DeleteUngrouped(b, after, through, groups)
  {
    if b == [] {
      assert a + b == a;
    } else {
      var init := b[..|b| - 1];
      assert (a + b)[..|a + b| - 1] == a + init;
      DeleteConcat(a, init, after, through, groups);
      var x, y := DeleteUngrouped(a, after, through, groups), DeleteUngrouped(init, after, through, groups);
      var z := if after < b[|b| - 1].id <= through && b[|b| - 1].id !in groups then [] else [b[|b| - 1]];
      assert (x + y) + z == x + (y + z);
    }
  }

  lemma {:induction false} UngroupedKeepCounts(rows: seq<Row>, groups: map<int, int>)
    requires forall i | 0 <= i < |rows| :: rows[i].id !in groups
    ensures SetCounts(rows, groups) == rows
  {
    if rows != [] { UngroupedKeepCounts(rows[..|rows| - 1], groups); }
  }

  lemma {:induction false} OutsideStay(rows: seq<Row>, after: int, through: int, groups: map<int, int>)
    requires forall i | 0 <= i < |rows| :: !(after < rows[i].id <= through)
    ensures DeleteUngrouped(rows, after, through, groups) == rows
  {
    if rows != [] { OutsideStay(rows[..|rows| - 1], after, through, groups); }
  }

  /** Rows outside the window are neither updated nor deleted. */
  lemma OutsideUntouched(rows: seq<Row>, after: int, through: int, groups: map<int, int>)
    requires forall r | r in rows :: r.id !in groups && !(after < r.id <= through)
    ensures SetCounts(rows, groups) == rows && DeleteUngrouped(rows, after, through, groups) == rows
  {
    UngroupedKeepCounts(rows, groups);
    OutsideStay(rows, after, through, groups);
  }

  /** What one compaction does to the table. */
  ghost predicate Compaction(rows0: seq<Row>, after: int, limit: int, through: int, rows: seq<Row>) {
    var start, end := UpTo(rows0, after), UpTo(rows0, through);
    && start < end && end - start <= limit && (end - start == limit || end == |rows0|)
    && through == rows0[end - 1].id
    && rows == rows0[..start] + Compacted(rows0[start..end]) + rows0[end..]
  }

  lemma RowsUpTo(rows: seq<Row>, id: int)
    requires Ascending(rows)
    ensures forall r | r in rows[..UpTo(rows, id)] :: r.id <= id
    ensures forall r | r in rows[UpTo(rows, id)..] :: r.id > id
  {
    UpToSplits(rows, id);
  }

  lemma SliceMembers(rows: seq<Row>, s: nat, e: nat)
    requires s <= e <= |rows|
    ensures forall r | r in rows[s..e] :: r in rows[s..] && r in rows[..e]
  {
    forall r | r in rows[s..e] ensures r in rows[s..] && r in rows[..e] {
      var i :| 0 <= i < e - s && rows[s..e][i] == r;
      assert rows[s..][i] == r && rows[..e][s + i] == r;
    }
  }

  /** The table around a window: what lies before, in and after it. */
  ghost predicate Around(rows: seq<Row>, after: int, through: int, a: seq<Row>, w: seq<Row>, b: seq<Row>) {
    && rows == a + w + b && Ascending(a) && Ascending(w) && Ascending(b)
    && (forall r | r in a :: r.id <= after)
    && (forall r | r in w :: after < r.id <= through)
    && (forall r | r in b :: through < r.id)
  }

  lemma SetCountsThree(a: seq<Row>, w: seq<Row>, b: seq<Row>, groups: map<int, int>)
    ensures SetCounts(a + w + b, groups) == SetCounts(a, groups) + SetCounts(w, groups) + SetCounts(b, groups)
  {
    SetCountsConcat(a + w, b, groups);
    SetCountsConcat(a, w, groups);
  }

  lemma WindowCompacts(rows: seq<Row>, a: seq<Row>, w: seq<Row>, b: seq<Row>, after: int, through: int,
                       groups: map<int, int>)
    requires Around(rows, after, through, a, w, b) && IsGroupTable(w, |w|, groups)
    ensures DeleteUngrouped(SetCounts(rows, groups), after, through, groups) == a + Compacted(w) + b
  {
    SetCountsThree(a, w, b, groups);
    OutsideUntouched(a, after, through, groups);
    OutsideUntouched(b, after, through, groups);
    GroupedIsKept(w, |w|, after, through, groups);
    assert w[..|w|] == w;
    DeleteThree(a, SetCounts(w, groups), b, after, through, groups);
  }

  lemma DeleteThree(x: seq<Row>, y: seq<Row>, z: seq<Row>, after: int, through: int, groups: map<int, int>)
    ensures DeleteUngrouped(x + y + z, after, through, groups)
         == DeleteUngrouped(x, after, through, groups) + DeleteUngrouped(y, after, through, groups)
            + DeleteUngrouped(z, after, through, groups)
  {
    DeleteConcat(x + y, z, after, through, groups);
    DeleteConcat(x, y, after, through, groups);
  }

  lemma SplitTable(rows: seq<Row>, after: int, through: int)
    requires Ascending(rows) && UpTo(rows, after) <= UpTo(rows, through)
    ensures Around(rows, after, through, rows[..UpTo(rows, after)], rows[UpTo(rows, after)..UpTo(rows, through)],
                   rows[UpTo(rows, through)..])
  {
    var s, e := UpTo(rows, after), UpTo(rows, through);
    RowsUpTo(rows, after);
    RowsUpTo(rows, through);
    SliceMembers(rows, s, e);
    AscendingSlice(rows, 0, s);
    AscendingSlice(rows, s, e);
    AscendingSlice(rows, e, |rows|);
    Rejoin(rows, s, e);
  }

  lemma Rejoin(rows: seq<Row>, s: nat, e: nat)
    requires s <= e <= |rows|
    ensures rows == rows[..s] + rows[s..e] + rows[e..]
  {
  }

  lemma ThreeSums(a: seq<Row>, w: seq<Row>, b: seq<Row>, key: Key)
    ensures SumOf(a + w + b, key) == SumOf(a, key) + SumOf(w, key) + SumOf(b, key)
  {
    SumConcat(a + w, b, key);
    SumConcat(a, w, key);
  }

  lemma ThreeTotals(a: seq<Row>, w: seq<Row>, b: seq<Row>)
    ensures TotalAbs(a + w + b) == TotalAbs(a) + TotalAbs(w) + TotalAbs(b)
  {
    TotalAbsConcat(a + w, b);
    TotalAbsConcat(a, w);
  }

  lemma CompactionBalances(rows0: seq<Row>, after: int, limit: int, through: int, rows: seq<Row>, key: Key)
    requires Compaction(rows0, after, limit, through, rows)
    ensures SumOf(rows, key) == SumOf(rows0, key)
  {
    var s, e := UpTo(rows0, after), UpTo(rows0, through);
    var a, w, b := rows0[..s], rows0[s..e], rows0[e..];
    Rejoin(rows0, s, e);
    CompactionConserves(w, key);
    ThreeSums(a, w, b, key);
    ThreeSums(a, Compacted(w), b, key);
  }

  lemma CompactionShrinks(rows0: seq<Row>, after: int, limit: int, through: int, rows: seq<Row>)
    requires Ascending(rows0) && Compaction(rows0, after, limit, through, rows)
    ensures |rows| <= |rows0| && TotalAbs(rows) <= TotalAbs(rows0)
  {
    var s, e := UpTo(rows0, after), UpTo(rows0, through);
    var a, w, b := rows0[..s], rows0[s..e], rows0[e..];
    SplitTable(rows0, after, through);
    KeptAscends(w, |w|);
    CompactionShrinksTotal(w);
    ThreeTotals(a, w, b);
    ThreeTotals(a, Compacted(w), b);
  }

  lemma AscendingSlice(rows: seq<Row>, i: nat, j: nat)
    requires Ascending(rows) && i <= j <= |rows|
    ensures Ascending(rows[i..j])
  {
  }

  lemma AscendingConcat(a: seq<Row>, b: seq<Row>)
    requires Ascending(a) && Ascending(b) && forall x, y | x in a && y in b :: x.id < y.id
    ensures Ascending(a + b)
  {
    forall i, j | 0 <= i < j < |a + b| ensures (a + b)[i].id < (a + b)[j].id {
      if i < |a| <= j { assert a[i] in a && b[j - |a|] in b; }
    }
  }

  lemma KeptInWindow(window: seq<Row>, after: int, through: int)
    requires forall r | r in window :: after < r.id <= through
    ensures forall r | r in Compacted(window) :: after < r.id <= through
  {
    KeptRepresents(window, |window|);
    forall r | r in Compacted(window) ensures after < r.id <= through {
      assert Represents(window, |window|, r);
      var i :| 0 <= i < |window| && IsKept(window, i, r);
      assert window[i] in window;
    }
  }

  /** The table stays in id order, and its window still holds a row. */
  lemma CompactionAscends(rows0: seq<Row>, after: int, limit: int, through: int, rows: seq<Row>)
    requires Ascending(rows0) && Compaction(rows0, after, limit, through, rows)
    ensures Ascending(rows) && UpTo(rows, after) < UpTo(rows, through)
  {
    var s, e := UpTo(rows0, after), UpTo(rows0, through);
    var a, w, b := rows0[..s], rows0[s..e], rows0[e..];
    SplitTable(rows0, after, through);
    KeptAscends(w, |w|);
    KeptStarts(w, |w|);
    KeptInWindow(w, after, through);
    PartsAscend(rows, after, through, a, Compacted(w), b);
  }

  lemma PartsAscend(rows: seq<Row>, after: int, through: int, a: seq<Row>, c: seq<Row>, b: seq<Row>)
    requires Around(rows, after, through, a, c, b) && c != []
    ensures Ascending(rows) && UpTo(rows, after) < UpTo(rows, through)
  {
    assert c[0] in c;
    AscendingConcat(a, c);
    AscendingConcat(a + c, b);
    assert rows[|a|] == c[0];
    UpToSplits(rows, after);
    UpToSplits(rows, through);
  }

  // ---- Inserting ----

  /** An event of the current run; the count defaults to 1. */
  datatype RunEvent = RunEvent(key: Key, count: Option<int>)

  /** SQLite's rowid for a new row: one above the largest, or 1 in an empty table. */
  function NextId(rows: seq<Row>): int {
    if rows == [] then 1 else rows[|rows| - 1].id + 1
  }

  function Inserted(rows: seq<Row>, e: RunEvent): seq<Row> {
    rows + [Row(NextId(rows), e.key, e.count.GetOr(1))]
  }

  // ---- Deleting ----

  lemma {:induction false} WithoutSplits(rows: seq<Row>, ids: seq<int>, key: Key)
    ensures SumOf(rows, key) == SumOf(Without(rows, ids), key) + SumOf(Only(rows, ids), key)
  {
    if rows != [] {
      var init, last := rows[..|rows| - 1], rows[|rows| - 1];
      WithoutSplits(init, ids, key);
      SumConcat(Without(init, ids), if last.id in ids then [] else [last], key);
      SumConcat(Only(init, ids), if last.id in ids then [last] else [], key);
      assert [last][..0] == [];
    }
  }

  lemma {:induction false} WithoutMembers(rows: seq<Row>, ids: seq<int>, r: Row)
    ensures r in Without(rows, ids) <==> r in rows && r.id !in ids
    ensures r in Only(rows, ids) <==> r in rows && r.id in ids
  {
    if rows != [] {
      WithoutMembers(rows[..|rows| - 1], ids, r);
      assert rows == rows[..|rows| - 1] + [rows[|rows| - 1]];
    }
  }

  lemma {:induction false} WithoutCounts(rows: seq<Row>, ids: seq<int>)
    ensures |Without(rows, ids)| == |rows| - |Only(rows, ids)|
  {
    if rows != [] { WithoutCounts(rows[..|rows| - 1], ids); }
  }

  lemma {:induction false} WithoutLowersTotal(rows: seq<Row>, ids: seq<int>)
    ensures TotalAbs(Without(rows, ids)) <= TotalAbs(rows)
  {
    if rows != [] {
      var init, last := rows[..|rows| - 1], rows[|rows| - 1];
      WithoutLowersTotal(init, ids);
      if last.id !in ids {
        assert (Without(init, ids) + [last])[..|Without(init, ids) + [last]| - 1] == Without(init, ids);
      } else {
        assert Without(rows, ids) == Without(init, ids);
      }
    }
  }

  lemma {:induction false} WithoutAscends(rows: seq<Row>, ids: seq<int>)
    requires Ascending(rows)
    ensures Ascending(Without(rows, ids))
  {
    if rows != [] {
      var init, last := rows[..|rows| - 1], rows[|rows| - 1];
      var kept := Without(init, ids);
      WithoutAscends(init, ids);
      if last.id !in ids {
        forall r | r in kept ensures r.id < last.id { WithoutMembers(init, ids, r); }
        AscendingAppend(kept, last);
      } else {
        assert Without(rows, ids) == kept;
      }
    }
  }

  // ---- Reading a page ----

  function Chars(r: Row): nat {
    |r.key.level| + |r.key.code| + |r.key.message| + |r.key.store.GetOr("")|
  }

  function PageChars(rows: seq<Row>): nat {
    if rows == [] then 0 else PageChars(rows[..|rows| - 1]) + Chars(rows[|rows| - 1])
  }

  /** A page's size is the length of its texts, row by row; a missing store takes nothing. */
  lemma PageCharsGrow(rows: seq<Row>, r: Row)
    ensures PageChars(rows + [r])
         == PageChars(rows) + |r.key.level| + |r.key.code| + |r.key.message|
            + match r.key.store case Some(store) => |store| case None => 0
    ensures PageChars([]) == 0
  {
    assert (rows + [r])[..|rows|] == rows;
  }

  /** The rows a page query can return. */
  function Pending(rows: seq<Row>, after: int, through: Option<int>): seq<Row> {
    if through.None? then rows[UpTo(rows, after)..] else Window(rows, after, through.value)
  }

  /** The longest page within the limits: it is never empty while a row is pending. */
  ghost predicate IsPage(pending: seq<Row>, limit: nat, page: seq<Row>) {
    && page <= pending && |page| <= limit
    && (|page| <= 1 || PageChars(page) <= 262_144)
    && (|page| < |pending| ==> |page| == limit || (page != [] && PageChars(pending[..|page| + 1]) > 262_144))
  }

  lemma SliceOfIds(rows: seq<Row>, s: nat, e: nat, r: Row)
    requires s <= e <= |rows|
    ensures r in rows[s..e] <==> exists i :: s <= i < e && rows[i] == r
  {
    if i :| s <= i < e && rows[i] == r { assert rows[s..e][i - s] == r; }
  }

  /** Where the rows of a page query end. */
  function EndOf(rows: seq<Row>, through: Option<int>): nat {
    if through.Some? then UpTo(rows, through.value) else |rows|
  }

  lemma EndSplits(rows: seq<Row>, through: Option<int>, i: nat)
    requires Ascending(rows) && i < |rows|
    ensures (through.Some? ==> rows[i].id <= through.value) <==> i < EndOf(rows, through)
  {
    if through.Some? { UpToSplits(rows, through.value); }
  }

  /** A page query returns the rows after the cursor, up to the window's end if there is one. */
  lemma PendingAre(rows: seq<Row>, after: int, through: Option<int>, r: Row)
    requires Ascending(rows)
    ensures r in Pending(rows, after, through)
       <==> r in rows && r.id > after && (through.Some? ==> r.id <= through.value)
  {
    var s, e := UpTo(rows, after), EndOf(rows, through);
    UpToSplits(rows, after);
    if s <= e { SliceOfIds(rows, s, e, r); }
    if r in rows {
      var i :| 0 <= i < |rows| && rows[i] == r;
      EndSplits(rows, through, i);
    }
    if r in Pending(rows, after, through) {
      assert s < e;
      var i :| s <= i < e && rows[i] == r;
      EndSplits(rows, through, i);
    }
  }

  /** They come in id order. */
  lemma PendingAscends(rows: seq<Row>, after: int, through: Option<int>)
    requires Ascending(rows)
    ensures Ascending(Pending(rows, after, through))
  {
    var s, e := UpTo(rows, after), EndOf(rows, through);
    if s <= e { AscendingSlice(rows, s, e); }
  }

  /** Rows are read while they fit; the first one is read whatever its size. */
  method FillPage(pending: seq<Row>, limit: nat) returns (page: seq<Row>)
    requires limit > 0
    ensures IsPage(pending, limit, page)
  {
    page := [];
    var chars, n := 0, 0;
    while n < |pending| && n < limit
      invariant n <= |pending| && n <= limit && page == pending[..n] && chars == PageChars(page)
      invariant n <= 1 || chars <= PAGE_CHARS
    {
      var r := pending[n];
      NextRow(pending, n);
      if n > 0 && chars + Chars(r) > PAGE_CHARS { return; }
      chars := chars + Chars(r);
      page, n := page + [r], n + 1;
    }
  }

  lemma NextRow(pending: seq<Row>, n: nat)
    requires n < |pending|
    ensures pending[..n + 1] == pending[..n] + [pending[n]]
    ensures PageChars(pending[..n + 1]) == PageChars(pending[..n]) + Chars(pending[n])
  {
    PageCharsGrow(pending[..n], pending[n]);
  }

  /** For one key: what is pending and what was removed is what was buffered, and what was
      acknowledged is what was removed or will be sent again. */
  ghost predicate Balanced(rows: seq<Row>, buffered: seq<Row>, removed: seq<Row>, acked: seq<Row>, repeats: seq<Row>,
                           key: Key)
  {
    && SumOf(rows, key) + SumOf(removed, key) == SumOf(buffered, key)
    && SumOf(acked, key) == SumOf(removed, key) + SumOf(repeats, key)
  }

  ghost predicate Ledger(rows: seq<Row>, buffered: seq<Row>, removed: seq<Row>, acked: seq<Row>, repeats: seq<Row>) {
    forall key :: Balanced(rows, buffered, removed, acked, repeats, key)
  }

  lemma LedgerAfterInsert(rows: seq<Row>, buffered: seq<Row>, removed: seq<Row>, acked: seq<Row>, repeats: seq<Row>,
                          r: Row)
    requires Ledger(rows, buffered, removed, acked, repeats)
    ensures Ledger(rows + [r], buffered + [r], removed, acked, repeats)
  {
    forall key ensures Balanced(rows + [r], buffered + [r], removed, acked, repeats, key) {
      SumConcat(rows, [r], key);
      SumConcat(buffered, [r], key);
      assert Balanced(rows, buffered, removed, acked, repeats, key);
    }
  }

  lemma LedgerAfterCompaction(rows: seq<Row>, buffered: seq<Row>, removed: seq<Row>, acked: seq<Row>, repeats: seq<Row>,
                              after: int, limit: int, through: int, rows': seq<Row>)
    requires Ledger(rows, buffered, removed, acked, repeats) && Compaction(rows, after, limit, through, rows')
    ensures Ledger(rows', buffered, removed, acked, repeats)
  {
    forall key ensures Balanced(rows', buffered, removed, acked, repeats, key) {
      CompactionBalances(rows, after, limit, through, rows', key);
      assert Balanced(rows, buffered, removed, acked, repeats, key);
    }
  }

  lemma LedgerAfterDelete(rows: seq<Row>, buffered: seq<Row>, removed: seq<Row>, acked: seq<Row>, repeats: seq<Row>,
                          body: seq<Row>, ids: seq<int>)
    requires Ledger(rows, buffered, removed, acked, repeats + body)
    requires forall key :: SumOf(Only(rows, ids), key) == SumOf(body, key)
    ensures Ledger(Without(rows, ids), buffered, removed + Only(rows, ids), acked, repeats)
  {
    forall key ensures Balanced(Without(rows, ids), buffered, removed + Only(rows, ids), acked, repeats, key) {
      WithoutSplits(rows, ids, key);
      SumConcat(removed, Only(rows, ids), key);
      SumConcat(repeats, body, key);
      assert Balanced(rows, buffered, removed, acked, repeats + body, key);
    }
  }

  lemma LedgerAfterAck(rows: seq<Row>, buffered: seq<Row>, removed: seq<Row>, acked: seq<Row>, repeats: seq<Row>,
                       body: seq<Row>)
    requires Ledger(rows, buffered, removed, acked, repeats)
    ensures Ledger(rows, buffered, removed, acked + body, repeats + body)
  {
    forall key ensures Balanced(rows, buffered, removed, acked + body, repeats + body, key) {
      SumConcat(acked, body, key);
      SumConcat(repeats, body, key);
      assert Balanced(rows, buffered, removed, acked, repeats, key);
    }
  }

  /** The statements of one compaction, on the table. */
  method CompactTable(rows0: seq<Row>, after: int, limit: int) returns (rows: seq<Row>, through: Option<int>)
    requires Ascending(rows0) && limit > 0
    ensures through.None? ==> rows == rows0 && UpTo(rows, after) == |rows|
    ensures through.Some? ==> Compaction(rows0, after, limit, through.value, rows)
  {
    rows, through := rows0, None;
    var start := UpTo(rows, after);
    var end := if start + limit < |rows| then start + limit else |rows|;
    if start == end { return; }
    through := Some(rows[end - 1].id);
    UpToExact(rows, end);
    AscendingSlice(rows, start, end);
    var groups := FillGroups(rows[start..end]);
    rows := SetCounts(rows, groups);
    rows := DeleteUngrouped(rows, after, through.value, groups);
    StatementsCompact(rows0, after, limit, end, groups, rows);
  }

  lemma StatementsCompact(rows0: seq<Row>, after: int, limit: int, end: nat, groups: map<int, int>, rows: seq<Row>)
    requires Ascending(rows0) && UpTo(rows0, after) < end <= |rows0| && end - UpTo(rows0, after) <= limit
    requires end - UpTo(rows0, after) == limit || end == |rows0|
    requires UpTo(rows0, rows0[end - 1].id) == end
    requires IsGroupTable(rows0[UpTo(rows0, after)..end], end - UpTo(rows0, after), groups)
    requires rows == DeleteUngrouped(SetCounts(rows0, groups), after, rows0[end - 1].id, groups)
    ensures Compaction(rows0, after, limit, rows0[end - 1].id, rows)
  {
    var start, through := UpTo(rows0, after), rows0[end - 1].id;
    var a, w, b := rows0[..start], rows0[start..end], rows0[end..];
    SplitTable(rows0, after, through);
    WindowCompacts(rows0, a, w, b, after, through, groups);
  }

  class State {
    var rows: seq<Row>
    var cursor: int
    /** Every event ever buffered. */
    ghost var buffered: seq<Row>
    /** Every row deleted after an acknowledged delivery, as it was then. */
    ghost var removed: seq<Row>
    /** Every event of an acknowledged body. */
    ghost var acked: seq<Row>
    /** Events of acknowledged bodies whose rows were not deleted, because the process died in between. */
    ghost var repeats: seq<Row>

    ghost predicate Valid()
      reads this
    {
      Ascending(rows) && cursor >= 0 && Ledger(rows, buffered, removed, acked, repeats)
    }

    constructor ()
      ensures Valid() && rows == [] && cursor == 0
    {
      rows, cursor, buffered, removed, acked, repeats := [], 0, [], [], [], [];
    }

    /** One committed transaction of inserts. */
    method BufferEvents(events: seq<RunEvent>)
      requires Valid()
      modifies `rows, `buffered
      ensures Valid() && |rows| == |old(rows)| + |events| && rows[..|old(rows)|] == old(rows)
      ensures forall i | 0 <= i < |events| ::
        rows[|old(rows)| + i].key == events[i].key && rows[|old(rows)| + i].count == events[i].count.GetOr(1)
      ensures buffered == old(buffered) + rows[|old(rows)|..]
    {
      for i := 0 to |events|
        invariant Valid() && |rows| == |old(rows)| + i && rows[..|old(rows)|] == old(rows)
        invariant forall k | 0 <= k < i ::
          rows[|old(rows)| + k].key == events[k].key && rows[|old(rows)| + k].count == events[k].count.GetOr(1)
        invariant buffered == old(buffered) + rows[|old(rows)|..]
      {
        Insert(events[i]);
      }
    }

    method Insert(e: RunEvent)
      requires Valid()
      modifies `rows, `buffered
      ensures Valid() && rows == Inserted(old(rows), e)
      ensures buffered == old(buffered) + [rows[|old(rows)|]]
    {
      ghost var rows0, buffered0 := rows, buffered;
      rows := Inserted(rows, e);
      buffered := buffered + [rows[|rows0|]];
      forall r | r in rows0 ensures r.id < NextId(rows0) {
        var i :| 0 <= i < |rows0| && rows0[i] == r;
      }
      AscendingAppend(rows0, rows[|rows0|]);
      LedgerAfterInsert(rows0, buffered0, removed, acked, repeats, rows[|rows0|]);
    }

    /** Coalesces one window of at most `limit` rows after the cursor, in one transaction. */
    method CompactEvents(after: int, limit: int) returns (valueError: bool, through: Option<int>)
      requires Valid()
      modifies `rows
      ensures Valid() && (valueError <==> limit <= 0)
      ensures through.None? ==> rows == old(rows) && (!valueError ==> UpTo(rows, after) == |rows|)
      ensures through.Some? ==> Compaction(old(rows), after, limit, through.value, rows)
    {
      valueError, through := limit <= 0, None;
      if valueError { return; }
      ghost var rows0 := rows;
      rows, through := CompactTable(rows, after, limit);
      if through.Some? {
        CompactionAscends(rows0, after, limit, through.value, rows);
        LedgerAfterCompaction(rows0, buffered, removed, acked, repeats, after, limit, through.value, rows);
      }
    }

    /** One page in id order; nothing is removed. */
    method DrainEvents(limit: int, after: int, through: Option<int>) returns (valueError: bool, page: seq<Row>)
      requires Valid()
      ensures valueError <==> limit <= 0
      ensures !valueError ==> IsPage(Pending(rows, after, through), limit, page)
    {
      valueError, page := limit <= 0, [];
      if valueError { return; }
      page := FillPage(Pending(rows, after, through), limit);
    }

    method SetEventCursor(id: int)
      requires Valid() && id >= 0
      modifies `cursor
      ensures Valid() && cursor == id
    {
      cursor := id;
    }

    /** Deletes acknowledged rows. `body` is what the acknowledged request carried for them. */
    method DeleteEvents(ids: seq<int>, ghost body: seq<Row>)
      requires Valid() && |repeats| >= |body| && repeats[|repeats| - |body|..] == body
      requires forall key :: SumOf(Only(rows, ids), key) == SumOf(body, key)
      modifies `rows, `removed, `repeats
      ensures Valid() && rows == Without(old(rows), ids)
      ensures removed == old(removed) + Only(old(rows), ids)
      ensures repeats == old(repeats)[..|old(repeats)| - |body|]
    {
      ghost var before := repeats[..|repeats| - |body|];
      assert repeats == before + body;
      LedgerAfterDelete(rows, buffered, removed, acked, before, body, ids);
      WithoutAscends(rows, ids);
      removed, repeats := removed + Only(rows, ids), before;
      rows := Without(rows, ids);
    }

    /** The hub acknowledged a body. */
    ghost method Acknowledge(body: seq<Row>)
      requires Valid()
      modifies `acked, `repeats
      ensures Valid() && acked == old(acked) + body && repeats == old(repeats) + body
    {
      LedgerAfterAck(rows, buffered, removed, acked, repeats, body);
      acked, repeats := acked + body, repeats + body;
    }
  }

  lemma UpToExact(rows: seq<Row>, end: nat)
    requires Ascending(rows) && 0 < end <= |rows|
    ensures UpTo(rows, rows[end - 1].id) == end
  {
    UpToSplits(rows, rows[end - 1].id);
  }
}
