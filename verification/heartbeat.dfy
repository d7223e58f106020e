/** The heartbeat pass: window, page, pack, post, delete what was acknowledged, move the cursor. */
module Heartbeat {
  import opened Wrappers
  import opened EventRows
  import opened EventQueue
  import opened HeartbeatBody
  import HeartbeatText

  const HEARTBEAT_MAX_EVENTS: nat := 1000
  const HEARTBEAT_MAX_BATCHES: nat := 64
  const HEARTBEAT_COMPACT_ROWS: nat := 100_000

  // ---- How the table may change during a pass ----

  /** No new keys, no more rows, no larger totals. */
  ghost predicate Smaller(rows0: seq<Row>, rows: seq<Row>) {
    && |rows| <= |rows0| && TotalAbs(rows) <= TotalAbs(rows0)
    && (forall k | HasKey(rows, k) :: HasKey(rows0, k))
  }

  /** The event's own encoding fits a body. */
  ghost predicate Encodes(r: Row, baseSize: nat) {
    baseSize + |Dumps(r.key, r.count)| <= HEARTBEAT_MAX_BYTES
  }

  /** Only rows that fit a body were removed. */
  ghost predicate RemovedFit(removed0: seq<Row>, removed: seq<Row>, baseSize: nat) {
    removed0 <= removed && forall r | r in removed[|removed0|..] :: Encodes(r, baseSize)
  }

  /** No event of the queue is oversized, even with room for a count of `bound`. */
  ghost predicate NothingOversized(rows: seq<Row>, bound: nat, baseSize: nat) {
    TotalAbs(rows) <= bound && forall k | HasKey(rows, k) :: baseSize + Reserve(k, bound) <= HEARTBEAT_MAX_BYTES
  }

  lemma SmallerIsTransitive(a: seq<Row>, b: seq<Row>, c: seq<Row>)
    requires Smaller(a, b) && Smaller(b, c)
    ensures Smaller(a, c)
  {
  }

  lemma CompactionIsSmaller(rows0: seq<Row>, after: int, limit: int, through: int, rows: seq<Row>)
    requires Ascending(rows0) && Compaction(rows0, after, limit, through, rows)
    ensures Smaller(rows0, rows) && rows != []
  {
    CompactionShrinks(rows0, after, limit, through, rows);
    CompactionAscends(rows0, after, limit, through, rows);
    var s, e := UpTo(rows0, after), UpTo(rows0, through);
    var a, w, b := rows0[..s], rows0[s..e], rows0[e..];
    forall k | HasKey(rows, k) ensures HasKey(rows0, k) {
      var i :| 0 <= i < |rows| && rows[i].key == k;
      if rows[i] in Compacted(w) { CompactedKey(w, k); }
      Rejoin(rows0, s, e);
      FromPart(a, w, b, Compacted(w), rows[i]);
    }
  }

  lemma CompactedKey(w: seq<Row>, k: Key)
    requires exists r :: r in Compacted(w) && r.key == k
    ensures exists r :: r in w && r.key == k
  {
    CompactionConserves(w, k);
  }

  lemma FromPart(a: seq<Row>, w: seq<Row>, b: seq<Row>, c: seq<Row>, r: Row)
    requires r in a + c + b && (r in c ==> exists q :: q in w && q.key == r.key)
    ensures HasKey(a + w + b, r.key)
  {
    var all := a + w + b;
    var q :| q in all && q.key == r.key;
    var i :| 0 <= i < |all| && all[i] == q;
  }

  lemma WithoutIsSmaller(rows: seq<Row>, ids: seq<int>)
    ensures Smaller(rows, Without(rows, ids))
  {
    WithoutCounts(rows, ids);
    WithoutLowersTotal(rows, ids);
    var kept := Without(rows, ids);
    forall k | HasKey(kept, k) ensures HasKey(rows, k) {
      var i :| 0 <= i < |kept| && kept[i].key == k;
      WithoutMembers(rows, ids, kept[i]);
      var j :| 0 <= j < |rows| && rows[j] == kept[i];
    }
  }

  // ---- Choosing a page ----

  /** The window is what compacting at `after` just returned. */
  ghost predicate FreshWindow(rows: seq<Row>, after: int, window: Option<int>) {
    if window.None? then UpTo(rows, after) == |rows| else UpTo(rows, after) < UpTo(rows, window.value)
  }

  lemma FreshPage(rows: seq<Row>, after: int, window: Option<int>, page: seq<Row>)
    requires FreshWindow(rows, after, window) && IsPage(Pending(rows, after, window), HEARTBEAT_MAX_EVENTS, page)
    ensures page == [] <==> window.None?
  {
    assert Pending(rows, after, window) == [] <==> window.None?;
  }

  lemma NothingBefore(rows: seq<Row>)
    requires Ascending(rows)
    ensures UpTo(rows, 0) == 0
  {
    UpToSplits(rows, 0);
  }

  /** Compacts and says what the pass relies on. */
  method CompactWindow(st: State, after: int) returns (window: Option<int>)
    requires st.Valid()
    modifies st`rows
    ensures st.Valid() && Smaller(old(st.rows), st.rows) && (st.rows == [] <==> old(st.rows) == [])
    ensures FreshWindow(st.rows, after, window) && window.GetOr(0) >= 0
  {
    ghost var rows0 := st.rows;
    var valueError;
    valueError, window := st.CompactEvents(after, HEARTBEAT_COMPACT_ROWS);
    if window.Some? {
      CompactionIsSmaller(rows0, after, HEARTBEAT_COMPACT_ROWS, window.value, st.rows);
      CompactionAscends(rows0, after, HEARTBEAT_COMPACT_ROWS, window.value, st.rows);
      assert UpTo(rows0, window.value) <= |rows0|;
    }
  }

  /** Passing the end of a window: its last ids may be gone, so the next window is selected. */
  method NextWindow(st: State, after0: int, window0: Option<int>, page0: seq<Row>, lives0: nat)
    returns (alive: bool, lives: nat, after: int, window: Option<int>, page: seq<Row>)
    requires st.Valid() && after0 >= 0 && window0.GetOr(0) >= 0
    requires IsPage(Pending(st.rows, after0, window0), HEARTBEAT_MAX_EVENTS, page0)
    modifies st`rows
    ensures st.Valid() && Smaller(old(st.rows), st.rows) && (st.rows == [] <==> old(st.rows) == [])
    ensures lives0 - 1 <= lives <= lives0 && (lives0 >= 1 ==> alive)
    ensures alive ==>
      after >= 0 && window.GetOr(0) >= 0 && IsPage(Pending(st.rows, after, window), HEARTBEAT_MAX_EVENTS, page)
    ensures page0 != [] || window0.None? ==>
      alive && after == after0 && window == window0 && page == page0 && st.rows == old(st.rows)
  {
    alive, lives, after, window, page := true, lives0, after0, window0, page0;
    if page == [] && window.Some? {
      after := window.value;
      if lives == 0 { return false, lives, after, window, page; }
      lives := lives - 1;
      window := CompactWindow(st, after);
      if window.Some? {
        var valueError;
        valueError, page := st.DrainEvents(HEARTBEAT_MAX_EVENTS, after, window);
      }
    }
  }

  /** A saved cursor can outlive all pending ids: start over from zero, in this pass only before its first body. */
  method StartOver(st: State, first: bool, after0: int, window0: Option<int>, page0: seq<Row>, lives0: nat)
    returns (alive: bool, lives: nat, stop: bool, after: int, window: Option<int>, page: seq<Row>)
    requires st.Valid() && after0 >= 0 && window0.GetOr(0) >= 0
    requires IsPage(Pending(st.rows, after0, window0), HEARTBEAT_MAX_EVENTS, page0)
    modifies st`rows, st`cursor
    ensures st.Valid() && Smaller(old(st.rows), st.rows) && (st.rows == [] <==> old(st.rows) == [])
    ensures lives0 - 2 <= lives <= lives0 && (lives0 >= 2 ==> alive) && (stop ==> !first)
    ensures alive && !stop ==> after >= 0 && window.GetOr(0) >= 0
    ensures alive && !stop ==> IsPage(Pending(st.rows, after, window), HEARTBEAT_MAX_EVENTS, page)
    ensures alive && first && FreshWindow(old(st.rows), after0, window0) ==> (page == [] <==> st.rows == [])
  {
    alive, lives, stop, after, window, page := true, lives0, false, after0, window0, page0;
    NothingBefore(st.rows);
    if page == [] && after != 0 {
      if lives == 0 { return false, lives, stop, after, window, page; }
      lives := lives - 1;
      st.SetEventCursor(0);
      if !first { return alive, lives, true, after, window, page; }
      after := 0;
      if lives == 0 { return false, lives, stop, after, window, page; }
      lives := lives - 1;
      window := CompactWindow(st, after);
      var valueError;
      valueError, page := st.DrainEvents(HEARTBEAT_MAX_EVENTS, after, window);
      NothingBefore(st.rows);
      FreshPage(st.rows, after, window, page);
    } else if FreshWindow(st.rows, after, window) {
      FreshPage(st.rows, after, window, page);
    }
  }

  // ---- What a page's acknowledged rows are in the table ----

  lemma PageIsSlice(rows: seq<Row>, after: int, window: Option<int>, page: seq<Row>)
    requires IsPage(Pending(rows, after, window), HEARTBEAT_MAX_EVENTS, page)
    ensures UpTo(rows, after) + |page| <= |rows| && page == rows[UpTo(rows, after)..UpTo(rows, after) + |page|]
  {
    var pending := Pending(rows, after, window);
    assert page == pending[..|page|];
  }

  lemma PageMembers(rows: seq<Row>, after: int, window: Option<int>, page: seq<Row>)
    requires Ascending(rows) && IsPage(Pending(rows, after, window), HEARTBEAT_MAX_EVENTS, page)
    ensures Ascending(page) && TotalAbs(page) <= TotalAbs(rows)
    ensures forall r | r in page :: r in rows && r.id > after
  {
    PageIsSlice(rows, after, window, page);
    var s := UpTo(rows, after);
    RowsUpTo(rows, after);
    SliceOf(rows, s, s + |page|, page);
  }

  lemma SliceOf(rows: seq<Row>, s: nat, e: nat, page: seq<Row>)
    requires Ascending(rows) && s <= e <= |rows| && page == rows[s..e]
    ensures Ascending(page) && TotalAbs(page) <= TotalAbs(rows)
    ensures forall r | r in page :: r in rows[s..] && r in rows
  {
    AscendingSlice(rows, s, e);
    Rejoin(rows, s, e);
    ThreeTotals(rows[..s], page, rows[e..]);
    SliceMembers(rows, s, e);
  }

  lemma {:induction false} SendableMembers(page: seq<Row>, reserve: Key -> nat, baseSize: nat, r: Row)
    ensures r in Sendable(page, reserve, baseSize) <==> r in page && !Oversized(r, reserve, baseSize)
  {
    if page != [] {
      SendableMembers(page[..|page| - 1], reserve, baseSize, r);
      assert page == page[..|page| - 1] + [page[|page| - 1]];
    }
  }

  lemma {:induction false} SendableAscends(page: seq<Row>, reserve: Key -> nat, baseSize: nat)
    requires Ascending(page)
    ensures Ascending(Sendable(page, reserve, baseSize))
  {
    if page != [] {
      var init, last := page[..|page| - 1], page[|page| - 1];
      var kept := Sendable(init, reserve, baseSize);
      SendableAscends(init, reserve, baseSize);
      if Oversized(last, reserve, baseSize) {
        assert Sendable(page, reserve, baseSize) == kept;
      } else {
        forall r | r in kept ensures r.id < last.id { SendableMembers(init, reserve, baseSize, r); }
        AscendingAppend(kept, last);
      }
    }
  }

  lemma {:induction false} OnlyAscends(rows: seq<Row>, ids: seq<int>)
    requires Ascending(rows)
    ensures Ascending(Only(rows, ids))
  {
    if rows != [] {
      var init, last := rows[..|rows| - 1], rows[|rows| - 1];
      var kept := Only(init, ids);
      OnlyAscends(init, ids);
      if last.id in ids {
        forall r | r in kept ensures r.id < last.id { WithoutMembers(init, ids, r); }
        AscendingAppend(kept, last);
      } else {
        assert Only(rows, ids) == kept;
      }
    }
  }

  lemma LastIsLargest(rows: seq<Row>, r: Row)
    requires Ascending(rows) && r in rows
    ensures r.id <= rows[|rows| - 1].id
  {
    var i :| 0 <= i < |rows| && rows[i] == r;
    assert i < |rows| - 1 ==> rows[i].id < rows[|rows| - 1].id;
  }

  lemma SameId(rows: seq<Row>, a: Row, b: Row)
    requires Ascending(rows) && a in rows && b in rows && a.id == b.id
    ensures a == b
  {
    var i :| 0 <= i < |rows| && rows[i] == a;
    var j :| 0 <= j < |rows| && rows[j] == b;
    assert i < j ==> rows[i].id < rows[j].id;
    assert j < i ==> rows[j].id < rows[i].id;
  }

  lemma InInit(rows: seq<Row>, r: Row)
    requires r in rows && r != rows[|rows| - 1]
    ensures r in rows[..|rows| - 1]
  {
    assert rows == rows[..|rows| - 1] + [rows[|rows| - 1]];
  }

  ghost predicate SameRows(a: seq<Row>, b: seq<Row>) {
    forall r :: r in a <==> r in b
  }

  lemma SameLast(a: seq<Row>, b: seq<Row>)
    requires Ascending(a) && Ascending(b) && SameRows(a, b) && a != []
    ensures b != [] && a[|a| - 1] == b[|b| - 1]
  {
    var x := a[|a| - 1];
    assert x in b;
    var y := b[|b| - 1];
    assert y in a;
    LastIsLargest(a, y);
    LastIsLargest(b, x);
    SameId(a, x, y);
  }

  lemma SameInit(a: seq<Row>, b: seq<Row>, ia: seq<Row>, ib: seq<Row>)
    requires Ascending(a) && Ascending(b) && SameRows(a, b) && a != [] && b != [] && a[|a| - 1] == b[|b| - 1]
    requires ia == a[..|a| - 1] && ib == b[..|b| - 1]
    ensures SameRows(ia, ib)
  {
    forall r ensures r in ia <==> r in ib {
      InitMembers(a, r);
      InitMembers(b, r);
    }
  }

  /** Two id-ordered lists with the same rows are the same list. */
  lemma {:induction false} AscendingUnique(a: seq<Row>, b: seq<Row>)
    requires Ascending(a) && Ascending(b) && SameRows(a, b)
    ensures a == b
  {
    if a != [] || b != [] {
      if a != [] { SameLast(a, b); } else { SameLast(b, a); }
      var ia, ib := a[..|a| - 1], b[..|b| - 1];
      SameInit(a, b, ia, ib);
      AscendingUnique(ia, ib);
      assert a == ia + [a[|a| - 1]] && b == ib + [b[|b| - 1]];
    }
  }

  lemma InitMembers(rows: seq<Row>, r: Row)
    requires Ascending(rows) && rows != []
    ensures r in rows[..|rows| - 1] <==> r in rows && r != rows[|rows| - 1]
  {
    var init := rows[..|rows| - 1];
    if r in init {
      var i :| 0 <= i < |init| && init[i] == r;
      assert rows[i].id < rows[|rows| - 1].id;
    } else if r in rows && r != rows[|rows| - 1] {
      InInit(rows, r);
    }
  }

  lemma {:induction false} IdIn(rows: seq<Row>, id: int)
    ensures id in IdsOf(rows) <==> exists r :: r in rows && r.id == id
  {
    if id in IdsOf(rows) {
      var i :| 0 <= i < |rows| && IdsOf(rows)[i] == id;
      assert rows[i] in rows;
    }
    if r :| r in rows && r.id == id {
      var i :| 0 <= i < |rows| && rows[i] == r;
      assert IdsOf(rows)[i] == id;
    }
  }

  /** Deleting the acknowledged ids removes exactly the acknowledged rows. */
  lemma AckedRows(rows: seq<Row>, acked: seq<Row>)
    requires Ascending(rows) && Ascending(acked) && forall r | r in acked :: r in rows
    ensures Only(rows, IdsOf(acked)) == acked
  {
    OnlyAscends(rows, IdsOf(acked));
    forall r ensures r in Only(rows, IdsOf(acked)) <==> r in acked {
      WithoutMembers(rows, IdsOf(acked), r);
      IdIn(acked, r.id);
      if r in rows && r.id in IdsOf(acked) {
        var q :| q in acked && q.id == r.id;
        SameId(rows, r, q);
      }
    }
    AscendingUnique(Only(rows, IdsOf(acked)), acked);
  }

  // ---- One body ----

  /** What a delivered page leaves behind: only acknowledged, encodable rows are gone. */
  lemma AckedAreEncodable(rows: seq<Row>, page: seq<Row>, sent: nat, baseSize: nat, acked: seq<Row>)
    requires Ascending(rows) && Ascending(page) && sent <= |page| && forall r | r in page :: r in rows
    requires acked == Sendable(page[..sent], Reserver(TotalAbs(page)), baseSize)
    ensures Only(rows, IdsOf(acked)) == acked
    ensures forall r | r in acked :: Encodes(r, baseSize)
  {
    var reserve := Reserver(TotalAbs(page));
    AscendingSlice(page, 0, sent);
    SendableAscends(page[..sent], reserve, baseSize);
    forall r | r in acked ensures r in page && Encodes(r, baseSize) {
      SendableMembers(page[..sent], reserve, baseSize, r);
      var i :| 0 <= i < sent && page[..sent][i] == r;
      CountWithin(page, i);
      ReserveCovers(r.key, r.count, TotalAbs(page));
    }
    AckedRows(rows, acked);
  }

  lemma CountWithin(page: seq<Row>, i: nat)
    requires i < |page|
    ensures Abs(page[i].count) <= TotalAbs(page)
  {
    PrefixTotal(page, i + 1);
    assert page[..i + 1][..i] == page[..i];
  }

  lemma RemovedMore(removed0: seq<Row>, more: seq<Row>, baseSize: nat)
    requires forall r | r in more :: Encodes(r, baseSize)
    ensures RemovedFit(removed0, removed0 + more, baseSize)
  {
    assert (removed0 + more)[|removed0|..] == more;
  }

  lemma RemovedFitIsTransitive(a: seq<Row>, b: seq<Row>, c: seq<Row>, baseSize: nat)
    requires RemovedFit(a, b, baseSize) && RemovedFit(b, c, baseSize)
    ensures RemovedFit(a, c, baseSize)
  {
    assert c[|a|..] == b[|a|..] + c[|b|..];
  }

  lemma {:induction false} AllSendable(page: seq<Row>, reserve: Key -> nat, baseSize: nat)
    requires forall i | 0 <= i < |page| :: !Oversized(page[i], reserve, baseSize)
    ensures !AnyOversized(page, reserve, baseSize) && Sendable(page, reserve, baseSize) == page
  {
    if page != [] {
      AllSendable(page[..|page| - 1], reserve, baseSize);
      assert page == page[..|page| - 1] + [page[|page| - 1]];
    }
  }

  /** When nothing is oversized, no row of a page is passed over. */
  lemma NonePassedOver(rows: seq<Row>, page: seq<Row>, total: nat, bound: nat, baseSize: nat)
    requires NothingOversized(rows, bound, baseSize) && total <= bound && forall r | r in page :: r in rows
    ensures !AnyOversized(page, Reserver(total), baseSize)
    ensures Sendable(page, Reserver(total), baseSize) == page
  {
    forall i | 0 <= i < |page| ensures !Oversized(page[i], Reserver(total), baseSize) {
      assert page[i] in rows;
      KeyOfRow(rows, page[i]);
      ReserveGrows(page[i].key, total, bound);
    }
    AllSendable(page, Reserver(total), baseSize);
  }

  lemma KeyOfRow(rows: seq<Row>, r: Row)
    requires r in rows
    ensures HasKey(rows, r.key)
  {
    var i :| 0 <= i < |rows| && rows[i] == r;
  }

  lemma {:induction false} NoneOversized(page: seq<Row>, reserve: Key -> nat, baseSize: nat)
    requires !AnyOversized(page, reserve, baseSize)
    ensures Sendable(page, reserve, baseSize) == page
  {
    if page != [] {
      NoneOversized(page[..|page| - 1], reserve, baseSize);
      assert page == page[..|page| - 1] + [page[|page| - 1]];
    }
  }

  /** What packing a page decides: which rows to acknowledge and how far the cursor may move. */
  ghost predicate Decided(rows: seq<Row>, page: seq<Row>, after0: int, after: int, baseSize: nat, acked: seq<Row>,
                          oversized: bool)
  {
    && Only(rows, IdsOf(acked)) == acked
    && (forall r | r in acked :: Encodes(r, baseSize))
    && after >= 0 && (page != [] ==> after > after0)
    && (!oversized && page != [] ==> acked != [])
    && (Fitting(rows, baseSize) ==> !oversized)
  }

  lemma PackingDecides(rows: seq<Row>, after0: int, window: Option<int>, page: seq<Row>, sent: nat, baseSize: nat,
                       after: int, acked: seq<Row>, oversized: bool)
    requires Ascending(rows) && after0 >= 0 && IsPage(Pending(rows, after0, window), HEARTBEAT_MAX_EVENTS, page)
    requires sent <= |page| && (page != [] ==> sent > 0) && after == if sent == 0 then after0 else page[sent - 1].id
    requires acked == Sendable(page[..sent], Reserver(TotalAbs(page)), baseSize)
    requires oversized <==> AnyOversized(page[..sent], Reserver(TotalAbs(page)), baseSize)
    ensures Decided(rows, page, after0, after, baseSize, acked, oversized)
  {
    PageMembers(rows, after0, window, page);
    AckedAreEncodable(rows, page, sent, baseSize, acked);
    if sent > 0 { assert page[sent - 1] in page; }
    if !oversized { NoneOversized(page[..sent], Reserver(TotalAbs(page)), baseSize); }
    if Fitting(rows, baseSize) {
      forall r | r in page[..sent] ensures r in rows {}
      NonePassedOver(rows, page[..sent], TotalAbs(page), TotalAbs(rows), baseSize);
    }
  }

  /** Packs a page into a bounded body. */
  method Prepare(st: State, page: seq<Row>, after0: int, ghost window: Option<int>, envelope: string)
    returns (body: string, ackIds: seq<int>, groups: seq<Row>, after: int, oversized: bool)
    requires st.Valid() && after0 >= 0 && |Body(envelope, [])| <= HEARTBEAT_MAX_BYTES
    requires IsPage(Pending(st.rows, after0, window), HEARTBEAT_MAX_EVENTS, page)
    ensures Bounded(envelope, body) && body == Body(envelope, groups)
    ensures Decided(st.rows, page, after0, after, |Body(envelope, [])|, Only(st.rows, ackIds), oversized)
    ensures Grouped(groups, Only(st.rows, ackIds)) && IdsOf(Only(st.rows, ackIds)) == ackIds
  {
    var baseSize := |Body(envelope, [])|;
    ghost var sent;
    ackIds, groups, after, oversized, sent := PackPage(page, baseSize, after0);
    body := Body(envelope, groups);
    BodySize(envelope, groups);
    BodyIsBounded(envelope, groups);
    ghost var acked := Sendable(page[..sent], Reserver(TotalAbs(page)), baseSize);
    PackingDecides(st.rows, after0, window, page, sent, baseSize, after, acked, oversized);
  }

  datatype Step = Dead | Rejected | Acknowledged

  /** Posts a page's body, and on a 200 deletes its rows and saves the cursor. The process may die
      before each durable call: `lives` says how many it survives. */
  method Deliver(st: State, page: seq<Row>, after0: int, ghost window: Option<int>, envelope: string, status: int,
                 lives0: nat)
    returns (step: Step, lives: nat, after: int, oversized: bool, body: string, ghost taken: bool)
    requires st.Valid() && after0 >= 0 && |Body(envelope, [])| <= HEARTBEAT_MAX_BYTES
    requires IsPage(Pending(st.rows, after0, window), HEARTBEAT_MAX_EVENTS, page)
    modifies st
    ensures st.Valid() && st.buffered == old(st.buffered)
    ensures Bounded(envelope, body)
    ensures lives0 - 3 <= lives <= lives0 && (lives0 >= 3 ==> !step.Dead?)
    ensures Smaller(old(st.rows), st.rows) && RemovedFit(old(st.removed), st.removed, |Body(envelope, [])|)
    ensures after >= 0 && (page != [] ==> after > after0)
    ensures step.Rejected? ==> status != 200 && st.rows == old(st.rows) && st.cursor == old(st.cursor)
    ensures step.Acknowledged? ==> status == 200 && st.cursor == after
    ensures !step.Dead? ==> st.repeats == old(st.repeats)
    ensures Taken(taken, envelope, body, status, old(st.removed), st.removed)
    ensures step.Acknowledged? <==> taken && !step.Dead?
    ensures Fitting(old(st.rows), |Body(envelope, [])|) ==> !oversized
    ensures !oversized && step.Acknowledged? && page != [] ==> |st.rows| < |old(st.rows)|
  {
    ghost var rows0, removed0 := st.rows, st.removed;
    var ackIds, groups;
    body, ackIds, groups, after, oversized := Prepare(st, page, after0, window, envelope);
    lives, step, taken := lives0, Dead, false;
    ghost var acked := Only(rows0, ackIds);
    RemovedMore(removed0, acked, |Body(envelope, [])|);
    RemovedMore(removed0, [], |Body(envelope, [])|);
    WithoutIsSmaller(rows0, ackIds);
    WithoutCounts(rows0, ackIds);
    if lives == 0 { return; }
    lives := lives - 1;
    if status != 200 { step := Rejected; return; }
    var done;
    done, lives := Settle(st, ackIds, groups, after, lives);
    taken := done || st.removed != removed0;
    assert (removed0 + acked)[|removed0|..] == acked;
    CarriesGroups(envelope, groups, acked);
    if !done { return; }
    step := Acknowledged;
  }

  /** For every key, a reader of the body counts what the removed rows carry. */
  ghost predicate Carries(envelope: string, body: string, rows: seq<Row>) {
    forall key :: HeartbeatText.CountRead(envelope, body, key) == SumOf(rows, key)
  }

  lemma CarriesGroups(envelope: string, groups: seq<Row>, acked: seq<Row>)
    requires Grouped(groups, acked)
    ensures Carries(envelope, Body(envelope, groups), acked)
  {
    forall key ensures HeartbeatText.CountRead(envelope, Body(envelope, groups), key) == SumOf(acked, key) {
      HeartbeatText.BodyCounts(envelope, groups, key);
      assert SumOf(groups, key) == SumOf(acked, key);
    }
  }

  /** A body was taken with a 200, and the rows it carries are gone; or no row is. */
  ghost predicate Taken(taken: bool, envelope: string, body: string, status: int, removed0: seq<Row>,
                        removed: seq<Row>) {
    if taken then status == 200 && removed0 <= removed && Carries(envelope, body, removed[|removed0|..])
    else removed == removed0
  }

  /** After a 200: the rows are deleted, then the cursor is saved. */
  method Settle(st: State, ackIds: seq<int>, ghost groups: seq<Row>, after: int, lives0: nat)
    returns (done: bool, lives: nat)
    requires st.Valid() && after >= 0 && Grouped(groups, Only(st.rows, ackIds))
    modifies st
    ensures st.Valid() && st.buffered == old(st.buffered)
    ensures lives0 - 2 <= lives <= lives0 && (lives0 >= 2 ==> done)
    ensures (st.rows == old(st.rows) && st.removed == old(st.removed))
         || (st.rows == Without(old(st.rows), ackIds) && st.removed == old(st.removed) + Only(old(st.rows), ackIds))
    ensures done ==>
      st.rows == Without(old(st.rows), ackIds) && st.removed == old(st.removed) + Only(old(st.rows), ackIds)
    ensures done ==> st.cursor == after && st.repeats == old(st.repeats)
  {
    done, lives := false, lives0;
    ghost var repeats0 := st.repeats;
    st.Acknowledge(groups);
    if lives == 0 { return; }
    lives := lives - 1;
    st.DeleteEvents(ackIds, groups);
    assert (repeats0 + groups)[..|repeats0|] == repeats0;
    if lives == 0 { return; }
    lives := lives - 1;
    st.SetEventCursor(after);
    done := true;
  }

  // ---- One pass ----

  datatype Outcome = Interrupted | Finished(ok: bool)

  ghost predicate AllOk(statuses: nat -> int) {
    forall k :: statuses(k) == 200
  }

  ghost predicate AllBounded(envelope: string, posted: seq<string>) {
    forall b | b in posted :: Bounded(envelope, b)
  }

  /** The page of one turn: from this window, from the next one, or from the start of the queue. */
  method ChoosePage(st: State, first: bool, after0: int, window0: Option<int>, lives0: nat)
    returns (alive: bool, lives: nat, stop: bool, after: int, window: Option<int>, page: seq<Row>)
    requires st.Valid() && after0 >= 0 && window0.GetOr(0) >= 0
    requires first ==> FreshWindow(st.rows, after0, window0)
    modifies st`rows, st`cursor
    ensures st.Valid() && Smaller(old(st.rows), st.rows)
    ensures lives0 - 3 <= lives <= lives0 && (lives0 >= 3 ==> alive) && (stop ==> !first)
    ensures alive && !stop ==> after >= 0 && window.GetOr(0) >= 0
    ensures alive && !stop ==> IsPage(Pending(st.rows, after, window), HEARTBEAT_MAX_EVENTS, page)
    ensures alive && first && old(st.rows) != [] ==> page != []
  {
    ghost var rows0 := st.rows;
    var valueError;
    valueError, page := st.DrainEvents(HEARTBEAT_MAX_EVENTS, after0, window0);
    if first { FreshPage(st.rows, after0, window0, page); }
    stop := false;
    alive, lives, after, window, page := NextWindow(st, after0, window0, page, lives0);
    if !alive { return; }
    ghost var rows1 := st.rows;
    alive, lives, stop, after, window, page := StartOver(st, first, after, window, page, lives);
    SmallerIsTransitive(rows0, rows1, st.rows);
  }

  datatype TurnEnd = Died | Refused | Stopped | Continue

  /** One turn of the loop: choose a page, deliver it, and stop when there was nothing left to send. */
  method Turn(st: State, envelope: string, status: int, first: bool, after0: int, window0: Option<int>, lives0: nat)
    returns (end: TurnEnd, lives: nat, oversized: bool, after: int, window: Option<int>, body: Option<string>,
             ghost taken: bool)
    requires st.Valid() && after0 >= 0 && window0.GetOr(0) >= 0 && |Body(envelope, [])| <= HEARTBEAT_MAX_BYTES
    requires first ==> FreshWindow(st.rows, after0, window0)
    modifies st
    ensures st.Valid() && st.buffered == old(st.buffered)
    ensures body.Some? ==> Bounded(envelope, body.value)
    ensures Taken(taken, envelope, body.GetOr(""), status, old(st.removed), st.removed) && (taken ==> body.Some?)
    ensures !end.Died? && body.Some? ==> (taken <==> !end.Refused?)
    ensures (end.Continue? || end.Refused? ==> body.Some?)
    ensures Smaller(old(st.rows), st.rows) && RemovedFit(old(st.removed), st.removed, |Body(envelope, [])|)
    ensures lives0 - 7 <= lives <= lives0 && (lives0 >= 7 ==> !end.Died?) && (end.Refused? ==> status != 200)
    ensures !end.Died? ==> st.repeats == old(st.repeats)
    ensures end.Continue? ==> after >= 0 && window.GetOr(0) >= 0
    ensures Fitting(old(st.rows), |Body(envelope, [])|) ==> !oversized
    ensures !oversized && (end.Continue? || end.Stopped?) && first && old(st.rows) != [] ==> |st.rows| < |old(st.rows)|
  {
    ghost var rows0, removed0, baseSize := st.rows, st.removed, |Body(envelope, [])|;
    body, oversized, taken := None, false, false;
    RemovedMore(removed0, [], baseSize);
    assert removed0 + [] == removed0;
    var alive, stop, page;
    alive, lives, stop, after, window, page := ChoosePage(st, first, after0, window0, lives0);
    if !alive { return Died, lives, oversized, after, window, body, taken; }
    if stop { return Stopped, lives, oversized, after, window, body, taken; }
    ghost var rows1 := st.rows;
    FitsStill(rows0, rows1, baseSize);
    var step, sent;
    step, lives, after, oversized, sent, taken := Deliver(st, page, after, window, envelope, status, lives);
    SmallerIsTransitive(rows0, rows1, st.rows);
    body := Some(sent);
    if step.Dead? { return Died, lives, oversized, after, window, body, taken; }
    if step.Rejected? { return Refused, lives, oversized, after, window, body, taken; }
    if page != [] { return Continue, lives, oversized, after, window, body, taken; }
    if lives == 0 { return Died, lives, oversized, after, window, body, taken; }
    lives := lives - 1;
    st.SetEventCursor(0);
    end := Stopped;
  }

  /** No event of the queue is oversized, with room for every sum of the queue's counts. */
  ghost predicate Fitting(rows: seq<Row>, baseSize: nat) {
    NothingOversized(rows, TotalAbs(rows), baseSize)
  }

  lemma FitsStill(rows0: seq<Row>, rows: seq<Row>, baseSize: nat)
    requires Smaller(rows0, rows)
    ensures Fitting(rows0, baseSize) ==> Fitting(rows, baseSize)
  {
    if Fitting(rows0, baseSize) {
      forall k | HasKey(rows, k) ensures baseSize + Reserve(k, TotalAbs(rows)) <= HEARTBEAT_MAX_BYTES {
        assert HasKey(rows0, k);
        ReserveGrows(k, TotalAbs(rows), TotalAbs(rows0));
      }
    }
  }

  /** Where a pass stands before body number `batch`. */
  ghost predicate PassInv(rows0: seq<Row>, removed0: seq<Row>, rows: seq<Row>, removed: seq<Row>, baseSize: nat,
                          after: int, window: Option<int>, batch: nat, oversized: bool) {
    && Smaller(rows0, rows) && RemovedFit(removed0, removed, baseSize)
    && after >= 0 && window.GetOr(0) >= 0
    && (batch == 0 ==> FreshWindow(rows, after, window) && (rows == [] <==> rows0 == []))
    && (Fitting(rows0, baseSize) ==> !oversized)
    && (!oversized && batch > 0 && rows0 != [] ==> |rows| < |rows0|)
  }

  lemma PassGoesOn(rows0: seq<Row>, removed0: seq<Row>, rows: seq<Row>, removed: seq<Row>, baseSize: nat, after: int,
                   window: Option<int>, batch: nat, oversized: bool, rows': seq<Row>, removed': seq<Row>, more: bool)
    requires PassInv(rows0, removed0, rows, removed, baseSize, after, window, batch, oversized)
    requires Smaller(rows, rows') && RemovedFit(removed, removed', baseSize)
    requires Fitting(rows, baseSize) ==> !more
    ensures Smaller(rows0, rows') && RemovedFit(removed0, removed', baseSize)
    ensures Fitting(rows0, baseSize) ==> !(oversized || more)
    ensures Fitting(rows0, baseSize) ==> Fitting(rows, baseSize)
    ensures |rows'| <= |rows| <= |rows0|
  {
    SmallerIsTransitive(rows0, rows, rows');
    RemovedFitIsTransitive(removed0, removed, removed', baseSize);
    FitsStill(rows0, rows, baseSize);
  }

  lemma PassStarts(rows0: seq<Row>, removed0: seq<Row>, rows: seq<Row>, baseSize: nat, after: int, window: Option<int>)
    requires Smaller(rows0, rows) && after >= 0 && window.GetOr(0) >= 0
    requires FreshWindow(rows, after, window) && (rows == [] <==> rows0 == [])
    ensures PassInv(rows0, removed0, rows, removed0, baseSize, after, window, 0, false)
  {
    assert removed0[|removed0|..] == [];
  }

  /** The envelope leaves room, and no event of the queue is oversized. */
  ghost predicate AllCanBeSent(rows: seq<Row>, baseSize: nat) {
    baseSize <= HEARTBEAT_MAX_BYTES && Fitting(rows, baseSize)
  }

  lemma RoomKept(k: Key, total: int)
    ensures Reserve(k, total) == |Dumps(k, 0 - total)|
  {
  }

  lemma RoomForEach(rows: seq<Row>, room: Key -> nat, baseSize: nat)
    ensures (forall k | HasKey(rows, k) :: baseSize + room(k) <= HEARTBEAT_MAX_BYTES)
       <==> forall i | 0 <= i < |rows| :: baseSize + room(rows[i].key) <= 262_144
  {
    forall i | 0 <= i < |rows| ensures HasKey(rows, rows[i].key) {}
  }

  /** A queue can be sent exactly when the envelope leaves room for each of its events with the digits of the negated
      total of all counts. */
  lemma SendableWhen(rows: seq<Row>, baseSize: nat)
    ensures var total: int := TotalAbs(rows);
            AllCanBeSent(rows, baseSize)
            <==> baseSize <= 262_144
                 && forall i | 0 <= i < |rows| :: baseSize + |Dumps(rows[i].key, 0 - total)| <= 262_144
    ensures AllOk((_: nat) => 200)
  {
    var total: int := TotalAbs(rows);
    RoomForEach(rows, Reserver(total), baseSize);
    forall i | 0 <= i < |rows| ensures Reserver(total)(rows[i].key) == |Dumps(rows[i].key, 0 - total)| {
      RoomKept(rows[i].key, total);
    }
  }

  /** What readers of these bodies count for a key. */
  function CountAll(envelope: string, bodies: seq<string>, key: Key): int {
    if bodies == [] then 0
    else CountAll(envelope, bodies[..|bodies| - 1], key) + HeartbeatText.CountRead(envelope, bodies[|bodies| - 1], key)
  }

  /** Of the bodies posted, those taken are the first ones, answered with a 200, and all of them or all but the last;
      for every key, they carry exactly what the rows removed since carry. */
  ghost predicate Answered(envelope: string, posted: seq<string>, taken: seq<string>, statuses: nat -> int,
                           removed0: seq<Row>, removed: seq<Row>)
  {
    && taken <= posted && |posted| <= |taken| + 1 && (forall i | 0 <= i < |taken| :: statuses(i) == 200)
    && CarriesAll(envelope, taken, removed0, removed)
  }

  /** For every key, these bodies carry exactly what the rows removed since carry. */
  ghost predicate CarriesAll(envelope: string, bodies: seq<string>, removed0: seq<Row>, removed: seq<Row>) {
    removed0 <= removed && forall key :: CountAll(envelope, bodies, key) == SumOf(removed[|removed0|..], key)
  }

  lemma NothingPosted(envelope: string, statuses: nat -> int, removed0: seq<Row>)
    ensures Answered(envelope, [], [], statuses, removed0, removed0)
  {
    assert removed0[|removed0|..] == [];
  }

  /** One more answer: the body was taken with the rows it carries, or no row is gone. */
  lemma OneMorePosted(envelope: string, posted: seq<string>, statuses: nat -> int, removed0: seq<Row>,
                      removed: seq<Row>, body: string, taken: bool, removed': seq<Row>)
    requires Answered(envelope, posted, posted, statuses, removed0, removed)
    requires Taken(taken, envelope, body, statuses(|posted|), removed, removed')
    ensures Answered(envelope, posted + [body], if taken then posted + [body] else posted, statuses, removed0, removed')
  {
    if taken {
      assert (posted + [body])[..|posted|] == posted;
      var before, more := removed[|removed0|..], removed'[|removed|..];
      assert removed'[|removed0|..] == before + more;
      forall key ensures CountAll(envelope, posted + [body], key) == SumOf(before + more, key) {
        SumConcat(before, more, key);
        assert HeartbeatText.CountRead(envelope, body, key) == SumOf(more, key);
      }
    }
  }

  /** One turn of a pass, and the body it posted. */
  method NextBody(st: State, envelope: string, statuses: nat -> int, batch: nat, after0: int, window0: Option<int>,
                  lives0: nat, oversized0: bool, posted0: seq<string>, ghost rows0: seq<Row>, ghost removed0: seq<Row>)
    returns (end: TurnEnd, lives: nat, oversized: bool, after: int, window: Option<int>, posted: seq<string>,
             ghost taken: seq<string>)
    requires st.Valid() && |Body(envelope, [])| <= HEARTBEAT_MAX_BYTES
    requires PassInv(rows0, removed0, st.rows, st.removed, |Body(envelope, [])|, after0, window0, batch, oversized0)
    requires AllBounded(envelope, posted0) && |posted0| == batch
    requires Answered(envelope, posted0, posted0, statuses, removed0, st.removed)
    modifies st
    ensures st.Valid() && st.buffered == old(st.buffered) && (!end.Died? ==> st.repeats == old(st.repeats))
    ensures lives0 - 7 <= lives <= lives0 && (lives0 >= 7 ==> !end.Died?)
    ensures Smaller(rows0, st.rows) && RemovedFit(removed0, st.removed, |Body(envelope, [])|)
    ensures AllBounded(envelope, posted) && |posted| <= batch + 1
    ensures Answered(envelope, posted, taken, statuses, removed0, st.removed)
    ensures end.Refused? ==> |taken| < |posted| && statuses(|taken|) != 200
    ensures end.Stopped? ==> taken == posted && (!oversized && rows0 != [] ==> |st.rows| < |rows0|)
    ensures end.Refused? ==> !AllOk(statuses)
    ensures Fitting(rows0, |Body(envelope, [])|) ==> !oversized
    ensures end.Continue? ==>
      taken == posted && |posted| == batch + 1
      && PassInv(rows0, removed0, st.rows, st.removed, |Body(envelope, [])|, after, window, batch + 1, oversized)
  {
    ghost var rows1, removed1, baseSize := st.rows, st.removed, |Body(envelope, [])|;
    var more, body;
    ghost var accepted;
    end, lives, more, after, window, body, accepted :=
      Turn(st, envelope, statuses(batch), batch == 0, after0, window0, lives0);
    PassGoesOn(rows0, removed0, rows1, removed1, baseSize, after0, window0, batch, oversized0, st.rows, st.removed,
               more);
    oversized, posted, taken := oversized0 || more, posted0, posted0;
    if body.Some? {
      OneMorePosted(envelope, posted0, statuses, removed0, removed1, body.value, accepted, st.removed);
      posted := posted0 + [body.value];
      taken := if accepted then posted else posted0;
    }
  }

  /** The pass after the run's events are buffered. `statuses` answers the bodies in turn. */
  method SendQueue(st: State, envelope: string, statuses: nat -> int, lives0: nat)
    returns (outcome: Outcome, posted: seq<string>, ghost taken: seq<string>)
    requires st.Valid()
    modifies st
    ensures st.Valid() && st.buffered == old(st.buffered) && AllBounded(envelope, posted)
    ensures Smaller(old(st.rows), st.rows) && RemovedFit(old(st.removed), st.removed, |Body(envelope, [])|)
    ensures Answered(envelope, posted, taken, statuses, old(st.removed), st.removed)
    ensures outcome.Finished? && |taken| < |posted| ==> statuses(|taken|) != 200
    ensures outcome.Finished? ==> st.repeats == old(st.repeats)
    ensures |Body(envelope, [])| > HEARTBEAT_MAX_BYTES ==>
      outcome == Finished(false) && st.rows == old(st.rows) && posted == []
    ensures |posted| <= 64 && (lives0 >= 1 + 7 * 64 ==> outcome.Finished?)
    ensures outcome == Finished(true) && old(st.rows) != [] ==> |st.rows| < |old(st.rows)|
    ensures outcome.Finished? && AllOk(statuses) && AllCanBeSent(old(st.rows), |Body(envelope, [])|) ==> outcome.ok
  {
    ghost var rows0, removed0 := st.rows, st.removed;
    var baseSize := |Body(envelope, [])|;
    posted, taken := [], [];
    NothingPosted(envelope, statuses, removed0);
    RemovedMore(removed0, [], baseSize);
    assert removed0 + [] == removed0;
    if baseSize > HEARTBEAT_MAX_BYTES { return Finished(false), posted, taken; }
    var after := st.cursor;
    if lives0 == 0 { return Interrupted, posted, taken; }
    var window := CompactWindow(st, after);
    var lives, oversized, batch := lives0 - 1, false, 0;
    PassStarts(rows0, removed0, st.rows, baseSize, after, window);
    while batch < HEARTBEAT_MAX_BATCHES
      invariant st.Valid() && st.buffered == old(st.buffered) && st.repeats == old(st.repeats)
      invariant AllBounded(envelope, posted) && |posted| == batch
      invariant Answered(envelope, posted, posted, statuses, removed0, st.removed)
      invariant batch <= HEARTBEAT_MAX_BATCHES && 0 <= lives && lives0 - 1 - 7 * batch <= lives
      invariant PassInv(rows0, removed0, st.rows, st.removed, baseSize, after, window, batch, oversized)
    {
      var end;
      end, lives, oversized, after, window, posted, taken :=
        NextBody(st, envelope, statuses, batch, after, window, lives, oversized, posted, rows0, removed0);
      if end.Died? { return Interrupted, posted, taken; }
      if end.Refused? { return Finished(false), posted, taken; }
      if end.Stopped? { break; }
      batch := batch + 1;
    }
    taken := posted;
    outcome := Finished(!oversized);
  }

  /** A heartbeat: the run's events are committed before anything is sent. */
  method SendHeartbeat(st: State, runEvents: seq<RunEvent>, envelope: string, statuses: nat -> int, lives0: nat)
    returns (outcome: Outcome, posted: seq<string>, ghost taken: seq<string>, ghost queue: seq<Row>)
    requires st.Valid()
    modifies st
    ensures st.Valid() && AllBounded(envelope, posted)
    ensures lives0 >= 1 ==>
      Buffers(old(st.rows), queue, runEvents) && st.buffered == old(st.buffered) + queue[|old(st.rows)|..]
    ensures lives0 == 0 ==> queue == old(st.rows) == st.rows && st.buffered == old(st.buffered)
    ensures Smaller(queue, st.rows) && RemovedFit(old(st.removed), st.removed, |Body(envelope, [])|)
    ensures Answered(envelope, posted, taken, statuses, old(st.removed), st.removed)
    ensures outcome.Finished? && |taken| < |posted| ==> statuses(|taken|) != 200
    ensures outcome.Finished? ==> st.repeats == old(st.repeats)
    ensures |Body(envelope, [])| > HEARTBEAT_MAX_BYTES && lives0 >= 1 ==>
      outcome == Finished(false) && st.rows == queue && posted == []
    ensures |posted| <= 64 && (lives0 >= 2 + 7 * 64 ==> outcome.Finished?)
    ensures outcome == Finished(true) && queue != [] ==> |st.rows| < |queue|
    ensures outcome.Finished? && AllOk(statuses) && AllCanBeSent(queue, |Body(envelope, [])|) ==> outcome.ok
  {
    queue, posted, taken := st.rows, [], [];
    NothingPosted(envelope, statuses, st.removed);
    RemovedMore(st.removed, [], |Body(envelope, [])|);
    assert st.removed + [] == st.removed;
    if lives0 == 0 { return Interrupted, posted, taken, queue; }
    st.BufferEvents(runEvents);
    queue := st.rows;
    outcome, posted, taken := SendQueue(st, envelope, statuses, lives0 - 1);
  }

  /** The queue after a run's events were appended. */
  ghost predicate Buffers(rows: seq<Row>, queue: seq<Row>, events: seq<RunEvent>) {
    && |queue| == |rows| + |events| && queue[..|rows|] == rows
    && forall i | 0 <= i < |events| ::
         queue[|rows| + i].key == events[i].key && queue[|rows| + i].count == events[i].count.GetOr(1)
  }

  /** Repeated passes, until the queue is empty or one reports a failure. If every pass reports success (its bodies were
      accepted and no row of a page was oversized), they empty the queue, wherever the cursor was left; and every pass
      does when all bodies are accepted and no event of the queue is oversized. */
  method EmptyQueue(st: State, envelope: string, statuses: nat -> int)
    returns (passes: nat, ghost reports: seq<Outcome>, ghost taken: seq<string>)
    requires st.Valid()
    modifies st
    ensures st.Valid() && |reports| == passes <= |old(st.rows)| + 1
    ensures AllSucceed(reports) ==> st.rows == [] && passes <= |old(st.rows)|
    ensures AllSucceed(reports) ==> forall key :: SumOf(st.removed, key) == SumOf(st.buffered, key)
    ensures AllSucceed(reports) ==> forall key :: CountAll(envelope, taken, key) == SumOf(old(st.rows), key)
    ensures AllOk(statuses) && AllCanBeSent(old(st.rows), |Body(envelope, [])|) ==> AllSucceed(reports)
  {
    passes, reports, taken := 0, [], [];
    var ok := true;
    ghost var rows0, removed0 := st.rows, st.removed;
    assert CarriesAll(envelope, [], removed0, removed0) by { assert removed0[|removed0|..] == []; }
    ghost var baseSize := |Body(envelope, [])|;
    while st.rows != [] && ok
      invariant st.Valid() && |reports| == passes && (ok <==> AllSucceed(reports))
      invariant passes + |st.rows| <= |old(st.rows)| + if ok then 0 else 1
      invariant AllOk(statuses) && AllCanBeSent(old(st.rows), baseSize) ==> ok && AllCanBeSent(st.rows, baseSize)
      invariant st.buffered == old(st.buffered) && CarriesAll(envelope, taken, removed0, st.removed)
      decreases |st.rows|, ok
    {
      var outcome;
      ghost var removed1, more := st.removed, [];
      outcome, more := ReportPass(st, envelope, statuses);
      CarriedMore(envelope, taken, more, removed0, removed1, st.removed);
      taken := taken + more;
      ok := outcome == Finished(true);
      OneMoreReport(reports, outcome);
      passes, reports := passes + 1, reports + [outcome];
    }
    forall key | st.rows == []
      ensures SumOf(st.removed, key) == SumOf(st.buffered, key)
      ensures SumOf(st.removed[|removed0|..], key) == SumOf(rows0, key)
    {
      assert Balanced(st.rows, st.buffered, st.removed, st.acked, st.repeats, key);
      assert old(Balanced(st.rows, st.buffered, st.removed, st.acked, st.repeats, key));
      assert st.removed == removed0 + st.removed[|removed0|..];
      SumConcat(removed0, st.removed[|removed0|..], key);
    }
  }

  lemma {:induction false} CountAllConcat(envelope: string, a: seq<string>, b: seq<string>, key: Key)
    ensures CountAll(envelope, a + b, key) == CountAll(envelope, a, key) + CountAll(envelope, b, key)
  {
    if b == [] {
      assert a + b == a;
    } else {
      assert (a + b)[..|a + b| - 1] == a + b[..|b| - 1];
      CountAllConcat(envelope, a, b[..|b| - 1], key);
    }
  }

  lemma CarriedMore(envelope: string, a: seq<string>, b: seq<string>, removed0: seq<Row>, removed1: seq<Row>,
                    removed: seq<Row>)
    requires CarriesAll(envelope, a, removed0, removed1) && CarriesAll(envelope, b, removed1, removed)
    ensures CarriesAll(envelope, a + b, removed0, removed)
  {
    var x, y := removed1[|removed0|..], removed[|removed1|..];
    assert removed[|removed0|..] == x + y;
    forall key ensures CountAll(envelope, a + b, key) == SumOf(x + y, key) {
      CountAllConcat(envelope, a, b, key);
      SumConcat(x, y, key);
    }
  }

  ghost predicate AllSucceed(reports: seq<Outcome>) { forall r | r in reports :: r == Finished(true) }

  lemma OneMoreReport(reports: seq<Outcome>, outcome: Outcome)
    ensures AllSucceed(reports + [outcome]) <==> AllSucceed(reports) && outcome == Finished(true)
  {
    assert outcome in reports + [outcome];
    assert forall r | r in reports :: r in reports + [outcome];
  }

  /** A later heartbeat, with no new events. */
  method ReportPass(st: State, envelope: string, statuses: nat -> int)
    returns (outcome: Outcome, ghost taken: seq<string>)
    requires st.Valid() && st.rows != []
    modifies st
    ensures st.Valid() && |st.rows| <= |old(st.rows)| && st.buffered == old(st.buffered)
    ensures CarriesAll(envelope, taken, old(st.removed), st.removed)
    ensures outcome == Finished(true) ==> |st.rows| < |old(st.rows)|
    ensures AllOk(statuses) && AllCanBeSent(old(st.rows), |Body(envelope, [])|) ==>
      outcome == Finished(true) && AllCanBeSent(st.rows, |Body(envelope, [])|)
  {
    ghost var rows0 := st.rows;
    var posted;
    ghost var queue;
    outcome, posted, taken, queue := SendHeartbeat(st, [], envelope, statuses, 2 + 7 * HEARTBEAT_MAX_BATCHES);
    assert queue == rows0;
    FitsStill(rows0, st.rows, |Body(envelope, [])|);
  }
}
