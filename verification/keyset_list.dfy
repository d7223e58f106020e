/** The session list: one JSON page and its cursor, or an NDJSON stream with a row cap and a trailer. */
module KeysetList {
  import opened Wrappers
  import opened TextOrder
  import opened CursorText
  import opened KeysetWalk

  const NDJSON_MAX_ROWS_PER_REQUEST: nat := 300
  const DEFAULT_LIMIT: nat := 200
  const MAX_LIMIT: nat := 1000

  /** A missing, non-numeric or non-positive limit is the default; a positive fraction is one. */
  function ClampLimit(raw: Option<real>): (limit: nat)
    ensures 1 <= limit <= 1000
    ensures raw.None? || raw.value <= 0.0 ==> limit == 200
    ensures raw.Some? && 0.0 < raw.value < 1.0 ==> limit == 1
    ensures raw.Some? && 1.0 <= raw.value <= 1000.0 ==> limit as real <= raw.value < limit as real + 1.0
    ensures raw.Some? && raw.value >= 1000.0 ==> limit == 1000
  {
    if raw.None? || raw.value <= 0.0 then DEFAULT_LIMIT
    else
      var n := raw.value.Floor;
      if n < 1 then 1 else if n > MAX_LIMIT then MAX_LIMIT else n
  }

  /** The first of some rows in key order. */
  method FirstRow(t: Table, rest: set<string>) returns (first: string)
    requires WellKeyed(t) && rest != {} && rest <= t.Keys
    ensures first in rest && forall id | id in rest && id != first :: KeyBefore(KeyOf(t[first]), KeyOf(t[id]))
  {
    first :| first in rest;
    var todo := rest - {first};
    while todo != {}
      invariant first in rest && todo <= rest && first !in todo
      invariant forall id | id in rest && id !in todo && id != first :: KeyBefore(KeyOf(t[first]), KeyOf(t[id]))
      decreases |todo|
    {
      var id :| id in todo;
      todo := todo - {id};
      KeyOrderIsTotal(KeyOf(t[first]), KeyOf(t[id]));
      if KeyBefore(KeyOf(t[id]), KeyOf(t[first])) {
        forall o | o in rest && o !in todo && o != id ensures KeyBefore(KeyOf(t[id]), KeyOf(t[o])) {
          KeyOrderIsStrict(KeyOf(t[id]), KeyOf(t[first]), KeyOf(t[o]));
        }
        first := id;
      }
    }
  }

  lemma SortedExtended(rows: seq<Row>, r: Row)
    requires RowsSorted(rows) && forall x | x in rows :: KeyBefore(KeyOf(x), KeyOf(r))
    ensures RowsSorted(rows + [r])
  {
    SortedJoin(rows, [r]);
  }

  /** The page query. */
  method PageQuery(t: Table, f: Filters, cursor: Option<Key>, n: nat) returns (rows: seq<Row>)
    requires WellKeyed(t)
    ensures Fetched(t, f, cursor, n, rows)
  {
    rows := [];
    var rest := set id | id in t && Eligible(t, f, cursor, id);
    while rest != {} && |rows| < n
      invariant |rows| <= n && RowsSorted(rows) && rest <= t.Keys
      invariant forall r | r in rows :: Current(t, f, cursor, r)
      invariant forall id | id in rest :: Eligible(t, f, cursor, id)
      invariant forall id | Eligible(t, f, cursor, id) :: t[id] in rows || id in rest
      invariant forall r, id | r in rows && id in rest :: KeyBefore(KeyOf(r), KeyOf(t[id]))
      decreases |rest|
    {
      var id := FirstRow(t, rest);
      SortedExtended(rows, t[id]);
      rows, rest := rows + [t[id]], rest - {id};
    }
  }

  /** A short fetch left nothing behind. */
  lemma ShortFetchIsAll(t: Table, f: Filters, cursor: Option<Key>, n: nat, rows: seq<Row>)
    requires Fetched(t, f, cursor, n, rows) && |rows| < n
    ensures Done(t, f, Advance(cursor, rows))
  {
    forall id | Eligible(t, f, Advance(cursor, rows), id) ensures false {
      if rows != [] {
        assert rows[|rows| - 1] in rows;
        assert Current(t, f, cursor, rows[|rows| - 1]);
        if cursor.Some? { KeyOrderIsStrict(cursor.value, KeyOf(rows[|rows| - 1]), KeyOf(t[id])); }
      }
      assert Eligible(t, f, cursor, id);
      if t[id] in rows { UpToLast(rows, t[id]); }
    }
  }

  /** The row beyond the page is still to come. */
  lemma LongFetchIsNotAll(t: Table, f: Filters, cursor: Option<Key>, rows: seq<Row>, limit: nat)
    requires Fetched(t, f, cursor, limit + 1, rows) && |rows| == limit + 1 && limit >= 1
    ensures !Done(t, f, Advance(cursor, rows[..limit]))
  {
    var next := rows[limit];
    assert next in rows;
    assert Current(t, f, cursor, next);
    assert KeyBefore(KeyOf(rows[limit - 1]), KeyOf(next));
    assert Eligible(t, f, Advance(cursor, rows[..limit]), next.sessionId);
  }

  lemma LongPage(t: Table, f: Filters, cursor: Option<Key>, rows: seq<Row>, limit: nat, page: seq<Row>)
    requires WellKeyed(t) && Fetched(t, f, cursor, limit + 1, rows) && |rows| > limit >= 1 && page == rows[..limit]
    ensures Step(t, f, cursor, page) && !Done(t, f, Advance(cursor, page))
    ensures Advance(cursor, page) == Some(KeyOf(page[limit - 1]))
  {
    FetchIsStep(t, f, cursor, limit + 1, rows, limit);
    LongFetchIsNotAll(t, f, cursor, rows, limit);
  }

  lemma ShortPage(t: Table, f: Filters, cursor: Option<Key>, rows: seq<Row>, limit: nat)
    requires WellKeyed(t) && Fetched(t, f, cursor, limit + 1, rows) && |rows| <= limit
    ensures Step(t, f, cursor, rows) && Done(t, f, Advance(cursor, rows))
  {
    FetchIsStep(t, f, cursor, limit + 1, rows, |rows|);
    assert rows[..|rows|] == rows;
    ShortFetchIsAll(t, f, cursor, limit + 1, rows);
  }

  /** Where a stream stands: what it served, and a cursor at its last row. */
  ghost predicate Streamed(f: Filters, start: Option<Key>, rows: seq<Row>, cursor: Option<Key>, visits: seq<Visit>) {
    && IsWalk(f, start, visits) && rows == Served(visits)
    && cursor == EndCursor(start, visits) && cursor == Advance(start, rows)
  }

  lemma AdvanceIsLast(start: Option<Key>, rows: seq<Row>, more: seq<Row>)
    ensures Advance(start, rows + more) == Advance(Advance(start, rows), more)
  {
  }

  class SessionsApi {
    var table: Table

    ghost predicate Valid()
      reads this
    {
      WellKeyed(table)
    }

    constructor (table0: Table)
      requires WellKeyed(table0)
      ensures Valid() && table == table0
    {
      table := table0;
    }

    /** Ingestion and pruning at work: any change to the table. */
    method Interleave()
      requires Valid()
      modifies this
      ensures Valid()
    {
    }

    /** One JSON page. There is a next cursor exactly when something is left, and it leads past this page. */
    method ListJson(f: Filters, cursorText: Option<string>, rawLimit: Option<real>)
      returns (page: seq<Row>, next: Option<string>)
      requires Valid()
      ensures Step(table, f, DecodeCursor(cursorText), page) && |page| <= ClampLimit(rawLimit)
      ensures next.Some? <==> !Done(table, f, Advance(DecodeCursor(cursorText), page))
      ensures next.Some? ==> |page| == ClampLimit(rawLimit)
      ensures next.Some? ==> DecodeCursor(next) == Advance(DecodeCursor(cursorText), page)
    {
      var cursor, limit := DecodeCursor(cursorText), ClampLimit(rawLimit);
      var rows := PageQuery(table, f, cursor, limit + 1);
      if |rows| > limit {
        page := rows[..limit];
        LongPage(table, f, cursor, rows, limit, page);
        next := Some(EncodeCursor(KeyOf(page[limit - 1])));
        CursorRoundTrip(KeyOf(page[limit - 1]));
      } else {
        page, next := rows, None;
        ShortPage(table, f, cursor, rows, limit);
      }
    }

    /** One internal page of the stream. */
    method StreamPage(f: Filters, cursor: Option<Key>, n: nat, ghost start: Option<Key>, ghost before: seq<Visit>)
      returns (rows: seq<Row>, ghost visits: seq<Visit>)
      requires Valid() && IsWalk(f, start, before) && cursor == EndCursor(start, before)
      modifies this
      ensures Valid() && IsWalk(f, start, visits) && Served(visits) == Served(before) + rows
      ensures visits != [] && |rows| <= n && EndCursor(start, visits) == Advance(cursor, rows)
      ensures |rows| < n ==> Done(visits[|visits| - 1].table, f, EndCursor(start, visits))
    {
      Interleave();
      rows := PageQuery(table, f, cursor, n);
      FetchIsStep(table, f, cursor, n, rows, |rows|);
      assert rows[..|rows|] == rows;
      ghost var v := Visit(table, rows);
      WalkCons(f, cursor, v, []);
      assert [v] + [] == [v];
      WalksJoin(f, start, before, [v]);
      visits := before + [v];
      if |rows| < n { ShortFetchIsAll(table, f, cursor, n, rows); }
      Interleave();
    }

    /** One turn of the stream's loop. */
    method StreamTurn(f: Filters, limit: nat, rows0: seq<Row>, cursor0: Option<Key>, ghost start: Option<Key>,
                      ghost visits0: seq<Visit>)
      returns (rows: seq<Row>, cursor: Option<Key>, exhausted: bool, ghost visits: seq<Visit>)
      requires Valid() && limit >= 1 && |rows0| < NDJSON_MAX_ROWS_PER_REQUEST
      requires Streamed(f, start, rows0, cursor0, visits0)
      modifies this
      ensures Valid() && Streamed(f, start, rows, cursor, visits) && visits != []
      ensures |rows0| <= |rows| <= NDJSON_MAX_ROWS_PER_REQUEST && (!exhausted ==> |rows0| < |rows|)
      ensures exhausted ==> |rows| < NDJSON_MAX_ROWS_PER_REQUEST && Done(visits[|visits| - 1].table, f, cursor)
    {
      var left := NDJSON_MAX_ROWS_PER_REQUEST - |rows0|;
      var fetchLimit := if limit < left then limit else left;
      var fetched;
      fetched, visits := StreamPage(f, cursor0, fetchLimit, start, visits0);
      rows, cursor := rows0 + fetched, Advance(cursor0, fetched);
      exhausted := |fetched| < fetchLimit;
      AdvanceIsLast(start, rows0, fetched);
    }

    /** The stream: pages until a short one or the cap, and a trailer exactly at the cap. */
    method ListNdjson(f: Filters, cursorText: Option<string>, rawLimit: Option<real>)
      returns (rows: seq<Row>, trailer: Option<string>, ghost visits: seq<Visit>)
      requires Valid()
      modifies this
      ensures Valid() && IsWalk(f, DecodeCursor(cursorText), visits) && visits != [] && rows == Served(visits)
      ensures |rows| <= 300 && (trailer.Some? <==> |rows| == 300)
      ensures trailer.Some? ==> DecodeCursor(trailer) == EndCursor(DecodeCursor(cursorText), visits)
      ensures trailer.None? ==> Done(visits[|visits| - 1].table, f, EndCursor(DecodeCursor(cursorText), visits))
    {
      var cursor := DecodeCursor(cursorText);
      ghost var start := cursor;
      var exhausted := false;
      rows, trailer, visits := [], None, [];
      while |rows| < NDJSON_MAX_ROWS_PER_REQUEST && !exhausted
        invariant Valid() && Streamed(f, start, rows, cursor, visits)
        invariant |rows| <= NDJSON_MAX_ROWS_PER_REQUEST && (visits == [] ==> rows == [] && !exhausted)
        invariant exhausted ==> |rows| < NDJSON_MAX_ROWS_PER_REQUEST && Done(visits[|visits| - 1].table, f, cursor)
        decreases NDJSON_MAX_ROWS_PER_REQUEST - |rows|, !exhausted
      {
        rows, cursor, exhausted, visits := StreamTurn(f, ClampLimit(rawLimit), rows, cursor, start, visits);
      }
      if |rows| >= NDJSON_MAX_ROWS_PER_REQUEST {
        var lastRow := rows[|rows| - 1];
        trailer := Some(EncodeCursor(KeyOf(lastRow)));
        CursorRoundTrip(KeyOf(lastRow));
      }
    }
  }

  /** At rest the stream serves the first rows of the ordered list, and its trailer leads to the rest of them. The
      trailer is documented for "more rows match than the cap"; it is there from exactly the cap on, so the two differ
      exactly when the list ends at the cap. */
  lemma TrailerAtTheCap(t: Table, f: Filters, cursor: Option<Key>, visits: seq<Visit>, all: seq<Row>,
                        trailer: Option<string>)
    requires IsWalk(f, cursor, visits) && visits != [] && Listed(t, f, cursor, all)
    requires forall v | v in visits :: v.table == t
    requires |Served(visits)| <= 300
    requires trailer.Some? <==> |Served(visits)| == 300
    requires trailer.None? ==> Done(visits[|visits| - 1].table, f, EndCursor(cursor, visits))
    ensures Served(visits) == all[..if |all| < 300 then |all| else 300]
    ensures trailer.Some? <==> |all| >= 300
    ensures (trailer.Some? <==> |all| > 300) <==> |all| != 300
  {
    WalkOfListed(t, f, cursor, visits, all);
    if trailer.None? {
      assert visits[|visits| - 1] in visits;
      FinishedWalkIsListed(t, f, cursor, visits, all);
    }
  }

  // ---- A list that ends exactly at the cap ----

  const NO_FILTERS: Filters := Filters(None, None, None, None, None)

  function Ticks(n: nat): string { if n == 0 then "" else ['x'] + Ticks(n - 1) }

  /** Sessions without a start time, with one more letter in each id. */
  function TickRow(n: nat): Row { Row(Ticks(n), None, None, "h", None, None, "") }

  function TickRows(n: nat): (rows: seq<Row>)
    ensures |rows| == n && forall i | 0 <= i < n :: rows[i] == TickRow(i)
  {
    if n == 0 then [] else TickRows(n - 1) + [TickRow(n - 1)]
  }

  predicate HasTick(t: Table, i: nat) { Ticks(i) in t && t[Ticks(i)] == TickRow(i) }

  /** The row under this id is one of the first n. */
  ghost predicate TickOf(n: nat, id: string, r: Row) { exists i: nat :: i < n && IsTick(i, id, r) }

  predicate IsTick(i: nat, id: string, r: Row) { id == Ticks(i) && r == TickRow(i) }

  function TickTable(n: nat): Table {
    if n == 0 then map[] else TickTable(n - 1)[Ticks(n - 1) := TickRow(n - 1)]
  }

  lemma {:induction false} TableOfTicks(n: nat)
    ensures forall id | id in TickTable(n) :: TickOf(n, id, TickTable(n)[id])
  {
    if n > 0 {
      TableOfTicks(n - 1);
      forall id | id in TickTable(n) ensures TickOf(n, id, TickTable(n)[id]) {
        if id == Ticks(n - 1) {
          assert IsTick(n - 1, id, TickTable(n)[id]);
        } else {
          assert TickOf(n - 1, id, TickTable(n - 1)[id]);
        }
      }
    }
  }

  lemma {:induction false} TicksOfTable(n: nat, i: nat)
    requires i < n
    ensures HasTick(TickTable(n), i)
  {
    if i < n - 1 {
      TicksOfTable(n - 1, i);
      TicksAscend(i, n - 1);
      LessIsIrreflexive(Ticks(i));
    }
  }

  lemma {:induction false} TicksAscend(i: nat, j: nat)
    requires i < j
    ensures Less(Ticks(i), Ticks(j))
  {
    if i > 0 { TicksAscend(i - 1, j - 1); }
  }

  lemma TickKeysAscend(i: nat, j: nat)
    requires i < j
    ensures KeyBefore(KeyOf(TickRow(i)), KeyOf(TickRow(j)))
  {
    TicksAscend(i, j);
  }

  lemma TickIsCurrent(t: Table, i: nat)
    requires HasTick(t, i)
    ensures Current(t, NO_FILTERS, None, TickRow(i))
  {
  }

  lemma TicksAreSorted(n: nat, rows: seq<Row>)
    requires |rows| == n && forall i | 0 <= i < n :: rows[i] == TickRow(i)
    ensures RowsSorted(rows)
  {
    forall i, j | 0 <= i < j < n ensures KeyBefore(KeyOf(rows[i]), KeyOf(rows[j])) { TickKeysAscend(i, j); }
  }

  lemma TicksAreListed(n: nat)
    ensures Listed(TickTable(n), NO_FILTERS, None, TickRows(n)) && WellKeyed(TickTable(n))
  {
    var t, rows := TickTable(n), TickRows(n);
    TicksAreSorted(n, rows);
    TableOfTicks(n);
    forall r | r in rows ensures Current(t, NO_FILTERS, None, r) {
      var i :| 0 <= i < n && rows[i] == r;
      TicksOfTable(n, i);
      TickIsCurrent(t, i);
    }
    forall id | id in t ensures t[id] in rows && t[id].sessionId == id {
      assert TickOf(n, id, t[id]);
      var i: nat :| i < n && IsTick(i, id, t[id]);
      assert rows[i] == t[id];
    }
  }

  /** Whatever the page size, a stream over exactly 300 matching sessions serves them all and still ends with a
      trailer, and nothing is left where it leads. */
  lemma TrailerToNothing(n: nat, visits: seq<Visit>, trailer: Option<string>)
    requires n == 300 && IsWalk(NO_FILTERS, None, visits) && visits != []
    requires forall v | v in visits :: v.table == TickTable(n)
    requires |Served(visits)| <= n && (trailer.Some? <==> |Served(visits)| == n)
    requires trailer.None? ==> Done(visits[|visits| - 1].table, NO_FILTERS, EndCursor(None, visits))
    ensures Served(visits) == TickRows(n) && trailer.Some? && Done(TickTable(n), NO_FILTERS, EndCursor(None, visits))
  {
    TicksAreListed(n);
    AtTheCap(TickTable(n), TickRows(n), visits, trailer);
  }

  lemma AtTheCap(t: Table, all: seq<Row>, visits: seq<Visit>, trailer: Option<string>)
    requires IsWalk(NO_FILTERS, None, visits) && visits != [] && |all| == NDJSON_MAX_ROWS_PER_REQUEST
    requires Listed(t, NO_FILTERS, None, all) && forall v | v in visits :: v.table == t
    requires |Served(visits)| <= NDJSON_MAX_ROWS_PER_REQUEST
    requires trailer.Some? <==> |Served(visits)| == NDJSON_MAX_ROWS_PER_REQUEST
    requires trailer.None? ==> Done(visits[|visits| - 1].table, NO_FILTERS, EndCursor(None, visits))
    ensures Served(visits) == all && trailer.Some? && Done(t, NO_FILTERS, EndCursor(None, visits))
  {
    TrailerAtTheCap(t, NO_FILTERS, None, visits, all, trailer);
    FinishedWalkIsListed(t, NO_FILTERS, None, visits, all);
  }
}
