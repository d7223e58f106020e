/** Keyset paging over a table that changes between fetches: what a chain of pages serves. */
module KeysetWalk {
  import opened Wrappers
  import opened TextOrder
  import opened CursorText

  /** A session row; columns the list only passes on are one opaque text. */
  datatype Row = Row(sessionId: string, startedAt: Option<string>, endedAt: Option<string>, harness: string,
                     machine: Option<string>, repo: Option<string>, others: string)

  type Table = map<string, Row>

  /** session_id is the primary key. */
  ghost predicate WellKeyed(t: Table) { forall id | id in t :: t[id].sessionId == id }

  datatype Filters = Filters(from: Option<string>, to: Option<string>, harness: Option<string>, machine: Option<string>,
                             repo: Option<string>)

  predicate NotBelow(at: Option<string>, bound: string) { at.Some? && AtMost(bound, at.value) }

  /** An empty parameter is no filter. */
  predicate Given(filter: Option<string>) { filter.Some? && filter.value != "" }

  /** Any part of the session overlaps the range; a NULL column satisfies no comparison. */
  predicate Matches(f: Filters, r: Row) {
    && (Given(f.from) ==> NotBelow(r.endedAt, f.from.value) || NotBelow(r.startedAt, f.from.value))
    && (Given(f.to) ==> r.startedAt.Some? && AtMost(r.startedAt.value, f.to.value))
    && (Given(f.harness) ==> r.harness == f.harness.value)
    && (Given(f.machine) ==> r.machine == f.machine)
    && (Given(f.repo) ==> r.repo == f.repo)
  }

  function KeyOf(r: Row): Key { Key(r.startedAt.GetOr(""), r.sessionId) }

  /** Newest first, undated last, ties by session id. */
  predicate KeyBefore(a: Key, b: Key) {
    Less(b.startedAt, a.startedAt) || (a.startedAt == b.startedAt && Less(a.sessionId, b.sessionId))
  }

  /** The keyset filter. */
  predicate Past(cursor: Option<Key>, k: Key) {
    if cursor.None? then true
    else
      || Less(k.startedAt, cursor.value.startedAt)
      || (k.startedAt == cursor.value.startedAt && Less(cursor.value.sessionId, k.sessionId))
  }

  lemma KeyOrderIsStrict(a: Key, b: Key, c: Key)
    ensures !KeyBefore(a, a)
    ensures KeyBefore(a, b) && KeyBefore(b, c) ==> KeyBefore(a, c)
  {
    LessIsIrreflexive(a.startedAt);
    LessIsIrreflexive(a.sessionId);
    if KeyBefore(a, b) && KeyBefore(b, c) {
      if Less(b.startedAt, a.startedAt) && Less(c.startedAt, b.startedAt) {
        LessIsTransitive(c.startedAt, b.startedAt, a.startedAt);
      }
      if Less(a.sessionId, b.sessionId) && Less(b.sessionId, c.sessionId) {
        LessIsTransitive(a.sessionId, b.sessionId, c.sessionId);
      }
    }
  }

  lemma KeyOrderIsTotal(a: Key, b: Key)
    ensures KeyBefore(a, b) || a == b || KeyBefore(b, a)
  {
    LessIsTotal(a.startedAt, b.startedAt);
    LessIsTotal(a.sessionId, b.sessionId);
  }

  /** What is not past the cursor comes before everything that is. */
  lemma Apart(cursor: Option<Key>, a: Key, b: Key)
    requires !Past(cursor, a) && Past(cursor, b)
    ensures KeyBefore(a, b) && a != b
  {
    KeyOrderIsTotal(cursor.value, a);
    KeyOrderIsStrict(a, cursor.value, b);
  }

  predicate RowsSorted(rows: seq<Row>) {
    forall i, j | 0 <= i < j < |rows| :: KeyBefore(KeyOf(rows[i]), KeyOf(rows[j]))
  }

  /** A current row the query may return. */
  predicate Eligible(t: Table, f: Filters, cursor: Option<Key>, id: string) {
    id in t && Matches(f, t[id]) && Past(cursor, KeyOf(t[id]))
  }

  predicate Current(t: Table, f: Filters, cursor: Option<Key>, r: Row) {
    r.sessionId in t && t[r.sessionId] == r && Eligible(t, f, cursor, r.sessionId)
  }

  /** ORDER BY ... LIMIT n: sorted eligible rows; a row left out comes after all of them, and only a full page leaves
      one out. */
  ghost predicate Fetched(t: Table, f: Filters, cursor: Option<Key>, n: nat, rows: seq<Row>) {
    && |rows| <= n && RowsSorted(rows) && (forall r | r in rows :: Current(t, f, cursor, r))
    && forall id | Eligible(t, f, cursor, id) && t[id] !in rows ::
         |rows| == n && forall r | r in rows :: KeyBefore(KeyOf(r), KeyOf(t[id]))
  }

  function Advance(cursor: Option<Key>, page: seq<Row>): Option<Key> {
    if page == [] then cursor else Some(KeyOf(page[|page| - 1]))
  }

  /** A page serves, in order, everything eligible up to the cursor it leads to. */
  ghost predicate Step(t: Table, f: Filters, cursor: Option<Key>, page: seq<Row>) {
    && WellKeyed(t) && RowsSorted(page) && (forall r | r in page :: Current(t, f, cursor, r))
    && forall id | Eligible(t, f, cursor, id) && !Past(Advance(cursor, page), KeyOf(t[id])) :: t[id] in page
  }

  lemma UpToLast(rows: seq<Row>, r: Row)
    requires RowsSorted(rows) && r in rows
    ensures !Past(Advance(None, rows), KeyOf(r))
  {
    var i :| 0 <= i < |rows| && rows[i] == r;
    var last := KeyOf(rows[|rows| - 1]);
    KeyOrderIsStrict(last, KeyOf(r), last);
  }

  /** The first rows of a fetch are a page. */
  lemma FetchIsStep(t: Table, f: Filters, cursor: Option<Key>, n: nat, rows: seq<Row>, k: nat)
    requires WellKeyed(t) && Fetched(t, f, cursor, n, rows) && k <= |rows|
    ensures Step(t, f, cursor, rows[..k])
  {
    var page := rows[..k];
    forall r | r in page ensures Current(t, f, cursor, r) { assert r in rows; }
    forall id | Eligible(t, f, cursor, id) && !Past(Advance(cursor, page), KeyOf(t[id])) ensures t[id] in page {
      if k > 0 { NotAfterLast(t, f, cursor, n, rows, k, id); }
    }
  }

  lemma NotAfterLast(t: Table, f: Filters, cursor: Option<Key>, n: nat, rows: seq<Row>, k: nat, id: string)
    requires Fetched(t, f, cursor, n, rows) && 0 < k <= |rows| && Eligible(t, f, cursor, id)
    requires !Past(Some(KeyOf(rows[k - 1])), KeyOf(t[id]))
    ensures t[id] in rows[..k]
  {
    var last := KeyOf(rows[k - 1]);
    assert rows[k - 1] in rows;
    if t[id] in rows {
      var i :| 0 <= i < |rows| && rows[i] == t[id];
      assert i < k;
    }
  }

  // ---- Walks ----

  /** One page a client was served, and the table it was read from. */
  datatype Visit = Visit(table: Table, page: seq<Row>)

  ghost predicate IsWalk(f: Filters, cursor: Option<Key>, visits: seq<Visit>)
    decreases |visits|
  {
    || visits == []
    || (Step(visits[0].table, f, cursor, visits[0].page) && IsWalk(f, Advance(cursor, visits[0].page), visits[1..]))
  }

  function EndCursor(cursor: Option<Key>, visits: seq<Visit>): Option<Key>
    decreases |visits|
  {
    if visits == [] then cursor else EndCursor(Advance(cursor, visits[0].page), visits[1..])
  }

  function Served(visits: seq<Visit>): seq<Row> {
    if visits == [] then [] else visits[0].page + Served(visits[1..])
  }

  /** Moving on never makes room behind the cursor. */
  lemma AdvanceKeeps(t: Table, f: Filters, cursor: Option<Key>, page: seq<Row>, k: Key)
    requires Step(t, f, cursor, page) && Past(Advance(cursor, page), k)
    ensures Past(cursor, k)
  {
    if page != [] && cursor.Some? {
      var last := page[|page| - 1];
      assert last in page;
      KeyOrderIsStrict(cursor.value, KeyOf(last), k);
    }
  }

  lemma {:induction false} EndKeeps(f: Filters, cursor: Option<Key>, visits: seq<Visit>, k: Key)
    requires IsWalk(f, cursor, visits) && Past(EndCursor(cursor, visits), k)
    ensures Past(cursor, k)
    decreases |visits|
  {
    if visits != [] {
      EndKeeps(f, Advance(cursor, visits[0].page), visits[1..], k);
      AdvanceKeeps(visits[0].table, f, cursor, visits[0].page, k);
    }
  }

  /** Everything served lies between the first cursor and the last. */
  lemma {:induction false} ServedLiesBetween(f: Filters, cursor: Option<Key>, visits: seq<Visit>, r: Row)
    requires IsWalk(f, cursor, visits) && r in Served(visits)
    ensures Past(cursor, KeyOf(r)) && !Past(EndCursor(cursor, visits), KeyOf(r))
    decreases |visits|
  {
    var page, next := visits[0].page, Advance(cursor, visits[0].page);
    if r in page {
      UpToLast(page, r);
      if Past(EndCursor(cursor, visits), KeyOf(r)) { EndKeeps(f, next, visits[1..], KeyOf(r)); }
    } else {
      ServedLiesBetween(f, next, visits[1..], r);
      AdvanceKeeps(visits[0].table, f, cursor, page, KeyOf(r));
    }
  }

  /** Across all pages, whatever happened to the table in between, rows come in strictly increasing key order. */
  lemma {:induction false} WalkIsSorted(f: Filters, cursor: Option<Key>, visits: seq<Visit>)
    requires IsWalk(f, cursor, visits)
    ensures RowsSorted(Served(visits))
    decreases |visits|
  {
    if visits != [] {
      var page, rest, next := visits[0].page, Served(visits[1..]), Advance(cursor, visits[0].page);
      WalkIsSorted(f, next, visits[1..]);
      forall x, y | x in page && y in rest ensures KeyBefore(KeyOf(x), KeyOf(y)) {
        UpToLast(page, x);
        ServedLiesBetween(f, next, visits[1..], y);
        Apart(next, KeyOf(x), KeyOf(y));
      }
      SortedJoin(page, rest);
    }
  }

  lemma SortedJoin(a: seq<Row>, b: seq<Row>)
    requires RowsSorted(a) && RowsSorted(b) && forall x, y | x in a && y in b :: KeyBefore(KeyOf(x), KeyOf(y))
    ensures RowsSorted(a + b)
  {
    forall i, j | 0 <= i < j < |a + b| ensures KeyBefore(KeyOf((a + b)[i]), KeyOf((a + b)[j])) {
      if i < |a| <= j { assert a[i] in a && b[j - |a|] in b; }
    }
  }

  // ---- Exactly once ----

  function Appearances(id: string, rows: seq<Row>): nat {
    if rows == [] then 0 else (if rows[0].sessionId == id then 1 else 0) + Appearances(id, rows[1..])
  }

  lemma {:induction false} AppearancesJoin(id: string, a: seq<Row>, b: seq<Row>)
    ensures Appearances(id, a + b) == Appearances(id, a) + Appearances(id, b)
  {
    if a == [] {
      assert a + b == b;
    } else {
      assert (a + b)[1..] == a[1..] + b;
      AppearancesJoin(id, a[1..], b);
    }
  }

  lemma {:induction false} AppearsNever(id: string, rows: seq<Row>)
    requires forall r | r in rows :: r.sessionId != id
    ensures Appearances(id, rows) == 0
  {
    if rows != [] { AppearsNever(id, rows[1..]); }
  }

  lemma {:induction false} AppearsOnce(row: Row, rows: seq<Row>)
    requires RowsSorted(rows) && row in rows && forall r | r in rows && r.sessionId == row.sessionId :: r == row
    ensures Appearances(row.sessionId, rows) == 1
  {
    if rows[0] == row {
      forall r | r in rows[1..] ensures r.sessionId != row.sessionId {
        KeyOrderIsStrict(KeyOf(row), KeyOf(row), KeyOf(row));
      }
      AppearsNever(row.sessionId, rows[1..]);
    } else {
      AppearsOnce(row, rows[1..]);
    }
  }

  /** The session is there at every fetch, matches, and keeps its key; its other columns may change. */
  ghost predicate Steady(f: Filters, id: string, k: Key, visits: seq<Visit>) {
    forall v | v in visits :: id in v.table && Matches(f, v.table[id]) && KeyOf(v.table[id]) == k
  }

  /** In a table at rest every matching session is steady. */
  lemma SteadyAtRest(t: Table, f: Filters, id: string, visits: seq<Visit>)
    requires id in t && Matches(f, t[id]) && forall v | v in visits :: v.table == t
    ensures Steady(f, id, KeyOf(t[id]), visits)
  {
  }

  /** One page shows a session exactly when its key lies between its cursors. */
  lemma PageShows(t: Table, f: Filters, cursor: Option<Key>, page: seq<Row>, id: string)
    requires Step(t, f, cursor, page) && id in t && Matches(f, t[id])
    ensures var k := KeyOf(t[id]);
            Appearances(id, page) == if Past(cursor, k) && !Past(Advance(cursor, page), k) then 1 else 0
  {
    var k := KeyOf(t[id]);
    if Past(cursor, k) && !Past(Advance(cursor, page), k) {
      assert Eligible(t, f, cursor, id);
      forall r | r in page && r.sessionId == id ensures r == t[id] { assert Current(t, f, cursor, r); }
      AppearsOnce(t[id], page);
    } else {
      forall r | r in page ensures r.sessionId != id {
        assert Current(t, f, cursor, r);
        if r.sessionId == id { UpToLast(page, r); }
      }
      AppearsNever(id, page);
    }
  }

  /** A steady session is served once when its key lies between the walk's cursors, and otherwise not at all. */
  lemma {:induction false} SteadyShowsOnce(f: Filters, cursor: Option<Key>, visits: seq<Visit>, id: string, k: Key)
    requires IsWalk(f, cursor, visits) && Steady(f, id, k, visits)
    ensures Appearances(id, Served(visits)) == if Past(cursor, k) && !Past(EndCursor(cursor, visits), k) then 1 else 0
    decreases |visits|
  {
    if visits != [] {
      var v, next := visits[0], Advance(cursor, visits[0].page);
      assert v in visits && forall u | u in visits[1..] :: u in visits;
      PageShows(v.table, f, cursor, v.page, id);
      SteadyShowsOnce(f, next, visits[1..], id, k);
      AppearancesJoin(id, v.page, Served(visits[1..]));
      if Past(EndCursor(cursor, visits), k) { EndKeeps(f, next, visits[1..], k); }
      if Past(next, k) { AdvanceKeeps(v.table, f, cursor, v.page, k); }
    }
  }

  /** Nothing is left past the cursor. */
  ghost predicate Done(t: Table, f: Filters, cursor: Option<Key>) { forall id :: !Eligible(t, f, cursor, id) }

  lemma WalkCons(f: Filters, cursor: Option<Key>, v: Visit, rest: seq<Visit>)
    ensures IsWalk(f, cursor, [v] + rest)
       <==> Step(v.table, f, cursor, v.page) && IsWalk(f, Advance(cursor, v.page), rest)
    ensures EndCursor(cursor, [v] + rest) == EndCursor(Advance(cursor, v.page), rest)
    ensures Served([v] + rest) == v.page + Served(rest)
  {
    assert ([v] + rest)[1..] == rest;
  }

  lemma JoinIsAssociative<T>(a: seq<T>, b: seq<T>, c: seq<T>)
    ensures a + (b + c) == (a + b) + c
  {
  }

  /** Following on from where a walk ended is one longer walk. */
  lemma {:induction false} WalksJoin(f: Filters, cursor: Option<Key>, a: seq<Visit>, b: seq<Visit>)
    requires IsWalk(f, cursor, a) && IsWalk(f, EndCursor(cursor, a), b)
    ensures IsWalk(f, cursor, a + b) && EndCursor(cursor, a + b) == EndCursor(EndCursor(cursor, a), b)
    ensures Served(a + b) == Served(a) + Served(b)
    decreases |a|
  {
    if a == [] {
      assert a + b == b;
    } else {
      var v, rest := a[0], a[1..];
      assert a == [v] + rest && a + b == [v] + (rest + b);
      WalksJoin(f, Advance(cursor, v.page), rest, b);
      WalkCons(f, cursor, v, rest + b);
      JoinIsAssociative(v.page, Served(rest), Served(b));
    }
  }

  /** A client that follows cursors from the start until nothing is left is served every steady session exactly once,
      over any mix of pages and streams and any changes to the other sessions. */
  lemma FinishedWalkShowsAll(f: Filters, visits: seq<Visit>, last: Visit, id: string, k: Key)
    requires IsWalk(f, None, visits + [last]) && Steady(f, id, k, visits + [last])
    requires Done(last.table, f, EndCursor(None, visits + [last]))
    ensures Appearances(id, Served(visits + [last])) == 1
  {
    assert last in visits + [last];
    assert !Eligible(last.table, f, EndCursor(None, visits + [last]), id);
    SteadyShowsOnce(f, None, visits + [last], id, k);
  }

  // ---- A table at rest ----

  /** All eligible rows, in order. */
  ghost predicate Listed(t: Table, f: Filters, cursor: Option<Key>, all: seq<Row>) {
    && RowsSorted(all) && (forall r | r in all :: Current(t, f, cursor, r))
    && forall id | Eligible(t, f, cursor, id) :: t[id] in all
  }

  /** Two sorted lists, one closed downward in the other: a prefix. */
  lemma {:induction false} SortedPrefix(page: seq<Row>, all: seq<Row>)
    requires RowsSorted(page) && RowsSorted(all) && (forall r | r in page :: r in all)
    requires forall r, x | r in all && r !in page && x in page :: KeyBefore(KeyOf(x), KeyOf(r))
    ensures page <= all
  {
    if page != [] {
      assert page[0] in all;
      HeadsAgree(page, all);
      forall r | r in page[1..] ensures r in all[1..] {
        HeadIsNotLater(page, r);
        assert r in all;
      }
      forall r, x | r in all[1..] && r !in page[1..] && x in page[1..] ensures KeyBefore(KeyOf(x), KeyOf(r)) {
        HeadIsNotLater(all, r);
      }
      SortedPrefix(page[1..], all[1..]);
      assert page == [page[0]] + page[1..] && all == [all[0]] + all[1..];
    }
  }

  lemma HeadIsNotLater(rows: seq<Row>, r: Row)
    requires RowsSorted(rows) && rows != [] && r in rows[1..]
    ensures r != rows[0]
  {
    KeyOrderIsStrict(KeyOf(r), KeyOf(r), KeyOf(r));
  }

  lemma HeadsAgree(page: seq<Row>, all: seq<Row>)
    requires RowsSorted(page) && RowsSorted(all) && page != [] && page[0] in all
    requires forall r, x | r in all && r !in page && x in page :: KeyBefore(KeyOf(x), KeyOf(r))
    ensures all != [] && all[0] == page[0]
  {
    var a, p := KeyOf(all[0]), KeyOf(page[0]);
    if all[0] != page[0] {
      assert KeyBefore(a, p);
      assert all[0] in all && page[0] in page;
      KeyOrderIsStrict(p, a, p);
    }
  }

  /** At rest, a page is the start of what is left, and leaves the rest of it. */
  lemma StepOfListed(t: Table, f: Filters, cursor: Option<Key>, page: seq<Row>, all: seq<Row>)
    requires Step(t, f, cursor, page) && Listed(t, f, cursor, all)
    ensures page <= all && Listed(t, f, Advance(cursor, page), all[|page|..])
  {
    var next := Advance(cursor, page);
    forall r | r in page ensures r in all { assert Current(t, f, cursor, r); }
    forall r, x | r in all && r !in page && x in page ensures KeyBefore(KeyOf(x), KeyOf(r)) {
      assert Current(t, f, cursor, r);
      UpToLast(page, x);
      Apart(next, KeyOf(x), KeyOf(r));
    }
    SortedPrefix(page, all);
    var rest := all[|page|..];
    assert all == page + rest;
    forall r | r in rest ensures Current(t, f, next, r) {
      assert r in all;
      assert Current(t, f, cursor, r);
      if page != [] {
        var i :| 0 <= i < |rest| && rest[i] == r;
        assert all[|page| + i] == r && all[|page| - 1] == page[|page| - 1];
      }
    }
    forall id | Eligible(t, f, next, id) ensures t[id] in rest {
      AdvanceKeeps(t, f, cursor, page, KeyOf(t[id]));
      assert t[id] in all;
      if t[id] in page { UpToLast(page, t[id]); }
    }
  }

  /** At rest, every walk serves the start of the ordered list, so pages and streams of any sizes give one sequence. */
  lemma {:induction false} WalkOfListed(t: Table, f: Filters, cursor: Option<Key>, visits: seq<Visit>, all: seq<Row>)
    requires IsWalk(f, cursor, visits) && Listed(t, f, cursor, all) && forall v | v in visits :: v.table == t
    ensures Served(visits) <= all && Listed(t, f, EndCursor(cursor, visits), all[|Served(visits)|..])
    decreases |visits|
  {
    if visits == [] {
      assert all[0..] == all;
    } else {
      var page := visits[0].page;
      assert visits[0] in visits && forall u | u in visits[1..] :: u in visits;
      StepOfListed(t, f, cursor, page, all);
      WalkOfListed(t, f, Advance(cursor, page), visits[1..], all[|page|..]);
      SplitTwice(all, page, Served(visits[1..]));
    }
  }

  lemma SplitTwice(all: seq<Row>, a: seq<Row>, b: seq<Row>)
    requires a <= all && b <= all[|a|..]
    ensures a + b <= all && all[|a|..][|b|..] == all[|a + b|..]
  {
    assert all == a + all[|a|..];
  }

  /** At rest, a finished walk serves exactly the ordered list. */
  lemma FinishedWalkIsListed(t: Table, f: Filters, cursor: Option<Key>, visits: seq<Visit>, all: seq<Row>)
    requires IsWalk(f, cursor, visits) && Listed(t, f, cursor, all) && forall v | v in visits :: v.table == t
    ensures Done(t, f, EndCursor(cursor, visits)) <==> Served(visits) == all
  {
    WalkOfListed(t, f, cursor, visits, all);
    RestIsEmpty(t, f, EndCursor(cursor, visits), all[|Served(visits)|..]);
  }

  lemma RestIsEmpty(t: Table, f: Filters, cursor: Option<Key>, rest: seq<Row>)
    requires Listed(t, f, cursor, rest)
    ensures Done(t, f, cursor) <==> rest == []
  {
    if rest != [] {
      assert rest[0] in rest;
      assert Current(t, f, cursor, rest[0]);
    }
  }
}
