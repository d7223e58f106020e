/** Which sessions a list names, and in what order, on their columns. */
module KeysetFilters {
  import opened Wrappers
  import opened TextOrder
  import opened CursorText
  import opened KeysetWalk

  /** The point lies in the range; a bound that is absent or empty does not restrict it. */
  predicate InRange(f: Filters, at: string) {
    && (f.from.GetOr("") != "" ==> AtMost(f.from.value, at))
    && (f.to.GetOr("") != "" ==> AtMost(at, f.to.value))
  }

  /** From the session's start to its end; without an end, or with one before the start, at its start only. */
  predicate ActiveAt(r: Row, at: string) {
    r.startedAt.Some? && AtMost(r.startedAt.value, at)
    && match r.endedAt
       case Some(end) => AtMost(at, end) || at == r.startedAt.value
       case None => at == r.startedAt.value
  }

  /** A column equals what is asked for; NULL equals nothing. */
  predicate Asked(filter: Option<string>, column: Option<string>) {
    filter.GetOr("") == "" || (column.Some? && column.value == filter.value)
  }

  ghost predicate OverlapsRange(f: Filters, r: Row) { exists at :: InRange(f, at) && ActiveAt(r, at) }

  /** For a range that is not reversed, a dated session is listed exactly when it was active at some moment of it and
      its columns are the ones asked for. */
  lemma DatedIsListed(f: Filters, r: Row)
    requires r.startedAt.Some?
    requires f.from.GetOr("") != "" && f.to.GetOr("") != "" ==> AtMost(f.from.value, f.to.value)
    ensures Matches(f, r)
       <==> OverlapsRange(f, r) && Asked(f.harness, Some(r.harness)) && Asked(f.machine, r.machine)
            && Asked(f.repo, r.repo)
  {
    var start := r.startedAt.value;
    if Matches(f, r) {
      var at := if Given(f.from) && !AtMost(f.from.value, start) then f.from.value else start;
      if Given(f.from) { LessIsTotal(f.from.value, start); }
      assert InRange(f, at) && ActiveAt(r, at);
    }
    if OverlapsRange(f, r) {
      var at :| InRange(f, at) && ActiveAt(r, at);
      if Given(f.to) { AtMostIsTransitive(start, at, f.to.value); }
      if Given(f.from) && r.endedAt.Some? && AtMost(at, r.endedAt.value) {
        AtMostIsTransitive(f.from.value, at, r.endedAt.value);
      }
    }
  }

  /** A session without a start is listed only without an upper bound, and behind a lower bound only for its end. */
  lemma UndatedIsListed(f: Filters, r: Row)
    requires r.startedAt.None?
    ensures Matches(f, r)
       <==> && f.to.GetOr("") == ""
            && (f.from.GetOr("") == "" || (r.endedAt.Some? && AtMost(f.from.value, r.endedAt.value)))
            && Asked(f.harness, Some(r.harness)) && Asked(f.machine, r.machine) && Asked(f.repo, r.repo)
  {
  }

  /** Later starts come first, sessions without a start last, and equal starts go by session id. */
  lemma ListOrder(r: Row, s: Row)
    requires r.startedAt != Some("") && s.startedAt != Some("")
    ensures KeyBefore(KeyOf(r), KeyOf(s))
       <==> match (r.startedAt, s.startedAt)
            case (Some(a), Some(b)) => Less(b, a) || (a == b && Less(r.sessionId, s.sessionId))
            case (Some(_), None) => true
            case (None, Some(_)) => false
            case (None, None) => Less(r.sessionId, s.sessionId)
  {
  }

  /** The row is in the table, matches, and comes after the cursor. */
  ghost predicate IsAsked(t: Table, f: Filters, cursor: Option<Key>, r: Row) {
    && r.sessionId in t && t[r.sessionId] == r && Matches(f, r)
    && (cursor.Some? ==> KeyBefore(cursor.value, KeyOf(r)))
  }

  /** A page query serves rows that are asked for, in order and at most n; what it leaves out comes after all of them,
      and is left out only by a full page. */
  lemma FetchedAreAsked(t: Table, f: Filters, cursor: Option<Key>, n: nat, rows: seq<Row>)
    requires WellKeyed(t)
    ensures Fetched(t, f, cursor, n, rows)
       <==> && |rows| <= n
            && (forall i, j | 0 <= i < j < |rows| :: KeyBefore(KeyOf(rows[i]), KeyOf(rows[j])))
            && (forall r | r in rows :: IsAsked(t, f, cursor, r))
            && forall r | IsAsked(t, f, cursor, r) && r !in rows ::
                 |rows| == n && forall q | q in rows :: KeyBefore(KeyOf(q), KeyOf(r))
  {
    forall r ensures IsAsked(t, f, cursor, r) <==> Current(t, f, cursor, r) {}
    forall id | id in t ensures Eligible(t, f, cursor, id) <==> IsAsked(t, f, cursor, t[id]) {}
  }

  /** The keyset filter continues exactly behind the row the cursor was made from. */
  lemma PastIsAfter(last: Row, r: Row)
    ensures Past(Some(KeyOf(last)), KeyOf(r)) <==> KeyBefore(KeyOf(last), KeyOf(r))
    ensures Past(None, KeyOf(r))
  {
  }
}
