/** The bounded pass over all sessions, with the page transaction written out statement by statement. */
module RollupPass {
  import opened Wrappers
  import opened RollupBuckets
  import opened RollupReference
  import opened RollupPage
  import opened RollupProtocol
  import TextOrder

  datatype Counters = Counters(examined: int, pages: int, completed: int, superseded: int, failed: int, pending: int)

  /** What became of one page. */
  datatype PageOutcome = Threw | Lost | Won(published: bool)

  const ABSENT := Session(false, None, map[], {}, Source([], map[]))

  lemma {:induction false} CallKeysOfCalls(rows: seq<Row>)
    ensures CallKeys(Calls(rows)) == CallKeys(rows)
  {
    if rows != [] {
      CallKeysOfCalls(rows[1..]);
      CallKeysOfConcat([rows[0]], rows[1..]);
      assert rows == [rows[0]] + rows[1..];
      if IsCall(rows[0]) {
        CallKeysOfConcat([rows[0]], Calls(rows[1..]));
      } else {
        assert CallKeys([rows[0]]) == {};
      }
    }
  }

  lemma CallKeysOfConcat(a: seq<Row>, b: seq<Row>)
    ensures CallKeys(a + b) == CallKeys(a) + CallKeys(b)
  {
  }

  lemma {:induction false} CallsAreCalls(rows: seq<Row>)
    ensures forall r | r in Calls(rows) :: IsCall(r)
  {
    if rows != [] { CallsAreCalls(rows[1..]); }
  }

  /** SELECT rowid ... LIMIT: some n of the keys, whichever the database yields first. */
  method PickSome(keys: set<CallKey>, n: nat) returns (picked: set<CallKey>)
    requires n <= |keys|
    ensures picked <= keys && |picked| == n
  {
    picked := {};
    var rest := keys;
    while |picked| < n
      invariant picked <= keys && rest == keys - picked && |picked| <= n
      decreases n - |picked|
    {
      assert |rest| == |keys| - |picked|;
      var k :| k in rest;
      picked, rest := picked + {k}, rest - {k};
    }
  }

  /** INSERT OR IGNORE of each call row's key, under the commit guard. */
  method StoreCalls(s: Session, rows: seq<Row>, token: nat) returns (s': Session)
    ensures s' == if CommitGuard(s, token) then s.(seen := s.seen + CallKeys(rows)) else s
  {
    s' := s;
    var calls := Calls(rows);
    CallsAreCalls(rows);
    CallKeysOfCalls(rows);
    for i := 0 to |calls|
      invariant s' == if CommitGuard(s, token) then s.(seen := s.seen + CallKeys(calls[..i])) else s
    {
      assert calls[..i + 1] == calls[..i] + [calls[i]];
      CallKeysOfConcat(calls[..i], [calls[i]]);
      if CommitGuard(s', token) {
        s' := s'.(seen := s'.seen + {(calls[i].toolName.value, calls[i].text.value)});
      }
    }
    assert calls[..|calls|] == calls;
  }

  /** The two statements a complete page adds: bounded cleanup, then publication once nothing is left. */
  method Finish(s: Session, token: nat, pageSize: nat) returns (s': Session, removed: set<CallKey>)
    ensures !CommitGuard(s, token) ==> s' == s && removed == {}
    ensures CommitGuard(s, token) ==> removed <= s.seen && |removed| == CleanupCount(s.seen, pageSize)
    ensures CommitGuard(s, token) ==>
              var left := s.seen - removed;
              s' == if left == {}
                    then s.(seen := left, state := Some(s.state.value.(status := Ready, turn := None, token := None)))
                    else s.(seen := left)
  {
    s', removed := s, {};
    if CommitGuard(s', token) {
      removed := PickSome(s'.seen, CleanupCount(s'.seen, pageSize));
      s' := s'.(seen := s'.seen - removed);
    }
    if CommitGuard(s', token) && s'.seen == {} {
      s' := s'.(state := Some(s'.state.value.(status := Ready, turn := None, token := None)));
    }
  }

  /** The page's D1 batch: a compare-and-set followed by statements that all repeat the commit guard,
      so a lost compare-and-set leaves every table as it was. */
  method Transact(s: Session, cp: State, page: Page, token: nat, pageSize: nat, now: int)
    returns (s': Session, outcome: PageOutcome, removed: set<CallKey>)
    requires s.state.Some? ==> s.state.value.token != Some(token)
    ensures s' == Commit(s, cp, page, token, now, removed)
    ensures Matches(s, cp) && page.Complete() ==>
              var seen := s.seen + CallKeys(page.rows);
              removed <= seen && |removed| == CleanupCount(seen, pageSize)
    ensures outcome == if !Matches(s, cp) then Lost else Won(s'.state.value.status == Ready)
  {
    s', removed := s, {};
    var changed := Matches(s', cp);
    if changed {
      s' := s'.(state := Some(Advanced(cp, s'.state.value.eligible, page, token, now)));
    }
    assert CommitGuard(s', token) <==> changed;
    if CommitGuard(s', token) {
      s' := s'.(buckets := Upsert(s'.buckets, page.fold.buckets));
    }
    s' := StoreCalls(s', page.rows, token);
    if page.Complete() {
      s', removed := Finish(s', token, pageSize);
    }
    outcome := if changed then Won(s'.state.value.status == Ready) else Lost;
  }

  /** The tables went from accounting for n blocks to accounting for the next `examined` ones as well; a finishing
      page examines none. */
  ghost predicate MovedFrom(before: Session, after: Session, n: nat, limit: nat, examined: nat, finishing: bool) {
    && before.state.Some? && after.state.Some? && after.source == before.source && AccountedAt(before, n)
    && n + examined == (if finishing then n else WindowEnd(before.source, n, limit))
    && AccountedAt(after, n + examined)
  }

  /** What a page did to the session as the transaction found it. */
  ghost predicate PageMoved(before: Session, after: Session, cp: State, limit: nat, examined: nat, outcome: PageOutcome)
  {
    match outcome
    case Threw => true
    case Lost => !Matches(before, cp) && after == before
    case Won(published) =>
      && Matches(before, cp) && after.state.Some? && (published <==> after.state.value.status == Ready)
      && exists n: nat :: MovedFrom(before, after, n, limit, examined, cp.finishing)
  }

  lemma CommitKeepsSource(s: Session, cp: State, page: Page, token: nat, now: int, removed: set<CallKey>)
    requires Matches(s, cp)
    ensures Commit(s, cp, page, token, now, removed).source == s.source
    ensures Commit(s, cp, page, token, now, removed).state.Some?
  {
  }

  lemma WindowMoves(before: Session, after: Session, k: Worker, token: nat, now: int, removed: set<CallKey>, n: nat)
    requires WellFormed(before.source) && Honest(before, k) && ReadyToCommit(k) && k.limit >= 1 && Matches(before, k.cp)
    requires AccountedAt(before, n) && !k.cp.finishing
    requires after == Commit(before, k.cp, PageOf(k), token, now, removed) && after.source == before.source
    requires after.state.Some?
    ensures MovedFrom(before, after, n, k.limit, |k.rows.value|, k.cp.finishing)
  {
    var m := CommitAccounts(before, k, token, now, removed, n);
    RowsCount(k.rows.value, before.source.blocks, n, m);
    MovedTo(before, after, n, m, k.limit, |k.rows.value|);
  }

  lemma RowsCount(rows: seq<Row>, blocks: seq<Block>, n: nat, m: nat)
    requires n <= m <= |blocks| && rows == RowsOf(blocks[n..m])
    ensures |rows| == m - n
  {
  }

  lemma MovedTo(before: Session, after: Session, n: nat, m: nat, limit: nat, examined: nat)
    requires before.state.Some? && after.state.Some? && after.source == before.source
    requires AccountedAt(before, n) && AccountedAt(after, m) && examined == m - n
    requires m == WindowEnd(before.source, n, limit)
    ensures MovedFrom(before, after, n, limit, examined, false)
  {
  }

  /** A winning page covers exactly the window after the cursor. */
  lemma CommitMoves(before: Session, k: Worker, token: nat, now: int, removed: set<CallKey>) returns (n: nat)
    requires SessionInv(before) && Honest(before, k) && ReadyToCommit(k) && k.limit >= 1 && Matches(before, k.cp)
    ensures MovedFrom(before, Commit(before, k.cp, PageOf(k), token, now, removed), n, k.limit, |k.rows.value|,
                      k.cp.finishing)
  {
    n :| AccountedAt(before, n);
    var after := Commit(before, k.cp, PageOf(k), token, now, removed);
    CommitKeepsSource(before, k.cp, PageOf(k), token, now, removed);
    if k.cp.finishing {
      CleanupAccounts(before, k, token, now, removed, n);
    } else {
      WindowMoves(before, after, k, token, now, removed, n);
    }
  }

  /** One that loses changes nothing. */
  lemma PageMoves(before: Session, after: Session, k: Worker, token: nat, now: int, removed: set<CallKey>,
                  outcome: PageOutcome)
    requires SessionInv(before) && Honest(before, k) && ReadyToCommit(k) && k.limit >= 1
    requires after == Commit(before, k.cp, PageOf(k), token, now, removed)
    requires !Matches(before, k.cp) ==> outcome == Lost
    requires Matches(before, k.cp) ==> after.state.Some? && outcome == Won(after.state.value.status == Ready)
    ensures PageMoved(before, after, k.cp, k.limit, |k.rows.value|, outcome)
  {
    if Matches(before, k.cp) { var n := CommitMoves(before, k, token, now, removed); }
  }

  /** Least recently attempted first, then session id. */
  predicate Sooner(a: (int, string), b: (int, string)) {
    a.0 < b.0 || (a.0 == b.0 && TextOrder.Less(a.1, b.1))
  }

  lemma SoonerIsTransitive(a: (int, string), b: (int, string), c: (int, string))
    requires Sooner(a, b) && Sooner(b, c)
    ensures Sooner(a, c)
  {
    if a.0 == b.0 == c.0 { TextOrder.LessIsTransitive(a.1, b.1, c.1); }
  }

  /** How one page ended; `deferred` says that a thrown page's checkpoint still matched when it was deferred. */
  datatype PageEnd = PageEnd(id: string, outcome: PageOutcome, examined: nat, deferred: bool)

  predicate IsPublished(e: PageEnd) { e.outcome == Won(true) }

  predicate IsFailed(e: PageEnd) { e.outcome == Threw }

  /** The checkpoint no longer matched: at the commit, or at the deferral of a thrown page. */
  predicate IsSuperseded(e: PageEnd) { e.outcome == Lost || (e.outcome == Threw && !e.deferred) }

  function CountOf(ends: seq<PageEnd>, p: PageEnd -> bool): nat {
    if ends == [] then 0 else CountOf(ends[..|ends| - 1], p) + if p(ends[|ends| - 1]) then 1 else 0
  }

  function ExaminedIn(ends: seq<PageEnd>): nat {
    if ends == [] then 0 else ExaminedIn(ends[..|ends| - 1]) + ends[|ends| - 1].examined
  }

  /** What every counter of the result counts. */
  ghost predicate Tallied(r: Counters, ends: seq<PageEnd>) {
    && r.pages == |ends| && r.examined == ExaminedIn(ends) && r.completed == CountOf(ends, IsPublished)
    && r.superseded == CountOf(ends, IsSuperseded) && r.failed == CountOf(ends, IsFailed)
  }

  ghost function FailedIds(ends: seq<PageEnd>): set<string> { set e | e in ends && IsFailed(e) :: e.id }

  /** Every session still eligible has failed in this pass. */
  ghost predicate NothingLeft(seen: map<string, Session>, ends: seq<PageEnd>) {
    forall id | id in seen && Eligible(seen[id]) :: id in FailedIds(ends)
  }

  lemma TalliedOne(r0: Counters, ends: seq<PageEnd>, e: PageEnd)
    requires Tallied(r0, ends)
    ensures Tallied(r0.(pages := r0.pages + 1, examined := r0.examined + e.examined,
                        completed := r0.completed + (if IsPublished(e) then 1 else 0),
                        superseded := r0.superseded + (if IsSuperseded(e) then 1 else 0),
                        failed := r0.failed + (if IsFailed(e) then 1 else 0)), ends + [e])
  {
    assert (ends + [e])[..|ends|] == ends;
  }

  lemma FailedOne(ends: seq<PageEnd>, e: PageEnd)
    ensures FailedIds(ends + [e]) == FailedIds(ends) + if IsFailed(e) then {e.id} else {}
  {
    forall id | id in FailedIds(ends) ensures id in FailedIds(ends + [e]) {
      var o :| o in ends && IsFailed(o) && o.id == id;
      assert o in ends + [e];
    }
    assert e in ends + [e];
  }

  class RollupStore {
    var sessions: map<string, Session>
    /** Tokens are drawn from a counter: all that matters is that no two draws agree. */
    var nextToken: nat
    ghost var tokens: set<nat>
    /** Every generation that was ever published. */
    ghost var published: set<nat>

    function At(id: string): Session
      reads this
    {
      if id in sessions then sessions[id] else ABSENT
    }

    /** A stored session is found as it is stored; any other has no rows anywhere. */
    lemma AtIsStored(id: string)
      ensures id in sessions ==> At(id) == sessions[id]
      ensures id !in sessions ==> At(id).state.None? && At(id).buckets == map[] && At(id).seen == {}
    {
    }

    ghost predicate SessionValid(s: Session)
      reads this
    {
      && SessionInv(s)
      && (s.state.Some? ==>
            && (s.state.value.eligible <==> s.state.value.generation in published)
            && (s.state.value.token.Some? ==> s.state.value.token.value in tokens))
    }

    ghost predicate Valid()
      reads this
    {
      (forall t | t in tokens :: t < nextToken) && forall id | id in sessions :: SessionValid(sessions[id])
    }

    constructor ()
      ensures Valid() && sessions == map[]
    {
      sessions, nextToken, tokens, published := map[], 0, {}, {};
    }

    /** Other invocations run between two calls of this one. A caller knows only this contract, so
        whatever it proves holds for every interleaving the contract admits. */
    method Interleave()
      requires Valid()
      modifies this
      ensures Valid() && old(published) <= published && old(tokens) <= tokens
      ensures forall id :: Stable(old(At(id)), At(id), old(published), old(tokens))
    {
    }

    /** Whether the next call throws: unknown to the caller. */
    method CallThrows() returns (throws: bool)
    {
      throws := false;
    }

    /** The worker's checkpoint was published and issued, and its reads are honest. */
    ghost predicate Holds(id: string, k: Worker)
      reads this
    {
      && k.limit >= 1
      && k.cp.generation in published
      && (k.cp.token.Some? ==> k.cp.token.value in tokens)
      && Honest(At(id), k)
    }

    /** A moment between two calls of one worker. */
    method Pause(id: string, k: Worker)
      requires Valid() && Holds(id, k)
      modifies this
      ensures Valid() && Holds(id, k) && old(published) <= published && old(tokens) <= tokens
    {
      Interleave();
      StableKeepsHonest(old(At(id)), At(id), k, old(published), old(tokens));
    }

    /** Seen-call lookups, 90 to a batch. Other writers run between the batches. */
    method ReadSeenCalls(id: string, k0: Worker) returns (k: Worker, throws: bool)
      requires Valid() && Holds(id, k0) && k0.rows.Some? && k0.models.Some? && k0.checked == 0
      modifies this
      ensures Valid() && Holds(id, k) && k.cp == k0.cp && k.limit == k0.limit && k.rows == k0.rows
      ensures !throws ==> ReadyToCommit(k)
    {
      k, throws := k0, false;
      var calls := Calls(k0.rows.value);
      while k.checked < |calls|
        invariant Valid() && Holds(id, k) && k.checked <= |calls|
        invariant k == k0.(checked := k.checked, seen := k.seen)
        decreases |calls| - k.checked
      {
        Pause(id, k);
        throws := CallThrows();
        if throws { return; }
        SeenKeepsHonest(At(id), k);
        var end := ChunkEnd(|calls|, k.checked);
        k := k.(seen := k.seen + SeenIds(calls[k.checked..end], At(id).seen), checked := end);
      }
    }

    /** Runs the page transaction on the session as it is now. */
    method CommitPage(id: string, k: Worker, page: Page, pageSize: nat, now: int)
      returns (outcome: PageOutcome, ghost removed: set<CallKey>)
      requires Valid() && Holds(id, k) && ReadyToCommit(k) && page == PageOf(k) && pageSize >= 1
      modifies this
      ensures Valid() && At(id) == Commit(old(At(id)), k.cp, page, old(nextToken), now, removed)
      ensures outcome == if !Matches(old(At(id)), k.cp) then Lost else Won(At(id).state.value.status == Ready)
      ensures PageMoved(old(At(id)), At(id), k.cp, k.limit, |k.rows.value|, outcome)
    {
      var token := nextToken;
      var s := At(id);
      var s', o, gone := Transact(s, k.cp, page, token, pageSize, now);
      outcome, removed := o, gone;
      CommitKeepsSessionInv(s, k, token, now, removed);
      if Matches(s, k.cp) { CommitFrame(s, k.cp, page, token, now, removed); }
      PageMoves(s, s', k, token, now, removed, outcome);
      sessions, nextToken, tokens := sessions[id := s'], token + 1, tokens + {token};
    }

    /** The page's reads: rows, then the models of their turns, then the seen calls. */
    method ReadPageFor(id: string, cp: State, limit: nat) returns (k: Worker, examined: nat, throws: bool)
      requires Valid() && limit >= 1
      requires id in sessions && Eligible(sessions[id]) && cp == sessions[id].state.value
      modifies this
      ensures Valid() && examined <= limit
      ensures !throws ==>
        Holds(id, k) && ReadyToCommit(k) && k.cp == cp && k.limit == limit && examined == |k.rows.value|
    {
      k, examined := Worker(cp, limit, None, None, 0, {}), 0;
      Pause(id, k);
      throws := CallThrows();
      if throws { return; }
      RowsKeepHonest(At(id), k);
      var rows := RowsFor(At(id), cp, limit);
      k := k.(rows := Some(rows));
      examined := |rows|;
      Pause(id, k);
      throws := CallThrows();
      if throws { return; }
      UsageKeepsHonest(At(id), k);
      k := k.(models := Some(ReadModels(At(id).source.models, rows)));
      k, throws := ReadSeenCalls(id, k);
    }

    /** Reads, folds and commits one page of one session. `before` is the session as the commit found it. */
    method RollupPage(id: string, cp: State, limit: nat, pageSize: nat, now: int)
      returns (outcome: PageOutcome, examined: nat, ghost before: Session)
      requires Valid() && limit >= 1 && pageSize >= 1
      requires id in sessions && Eligible(sessions[id]) && cp == sessions[id].state.value
      modifies this
      ensures Valid() && examined <= limit
      ensures PageMoved(before, At(id), cp, limit, examined, outcome)
    {
      outcome, before := Threw, At(id);
      var k, throws;
      k, examined, throws := ReadPageFor(id, cp, limit);
      if throws { return; }
      var turn, buckets := FoldBlocks(k.rows.value, cp.turn, k.models.value, k.seen);
      Pause(id, k);
      throws := CallThrows();
      if throws { return; }
      before := At(id);
      ghost var removed;
      outcome, removed := CommitPage(id, k, Page(k.rows.value, limit, Fold(turn, buckets)), pageSize, now);
    }

    /** The catch branch: move the attempt time of a checkpoint that still matches. */
    method DeferPage(id: string, cp: State, now: int) returns (changed: bool)
      requires Valid()
      modifies this`sessions
      ensures Valid() && changed == Matches(old(At(id)), cp)
      ensures At(id) == Defer(old(At(id)), cp, now)
    {
      changed := Matches(At(id), cp);
      DeferKeepsSessionInv(At(id), cp, now);
      sessions := sessions[id := Defer(At(id), cp, now)];
    }

    /** The next session to work on: eligible, not failed in this pass, least recently attempted. */
    method Select(failed: set<string>) returns (picked: Option<string>)
      ensures picked.None? ==> forall id | id in sessions && id !in failed :: !Eligible(sessions[id])
      ensures picked.Some? ==> picked.value in sessions && picked.value !in failed && Eligible(sessions[picked.value])
      ensures picked.Some? ==>
        forall id | id in sessions && id !in failed && Eligible(sessions[id]) && id != picked.value ::
                Sooner((sessions[picked.value].state.value.lastAttempt, picked.value),
                       (sessions[id].state.value.lastAttempt, id))
    {
      picked := None;
      var rest := sessions.Keys;
      while rest != {}
        invariant rest <= sessions.Keys
        invariant picked.None? ==> forall id | id in sessions.Keys - rest && id !in failed :: !Eligible(sessions[id])
        invariant picked.Some? ==>
          picked.value in sessions.Keys - rest && picked.value !in failed && Eligible(sessions[picked.value])
        invariant picked.Some? ==>
          forall id | id in sessions.Keys - rest && id !in failed && Eligible(sessions[id]) && id != picked.value ::
                    Sooner((sessions[picked.value].state.value.lastAttempt, picked.value),
                           (sessions[id].state.value.lastAttempt, id))
        decreases |rest|
      {
        var id :| id in rest;
        rest := rest - {id};
        if id !in failed && Eligible(sessions[id]) {
          if picked.None? {
            picked := Some(id);
          } else {
            var a := (sessions[picked.value].state.value.lastAttempt, picked.value);
            var b := (sessions[id].state.value.lastAttempt, id);
            TextOrder.LessIsTotal(a.1, b.1);
            if Sooner(b, a) {
              forall o | o in sessions.Keys - rest && o !in failed && Eligible(sessions[o])
                         && o != id && o != picked.value
                ensures Sooner(b, (sessions[o].state.value.lastAttempt, o))
              {
                SoonerIsTransitive(b, a, (sessions[o].state.value.lastAttempt, o));
              }
              picked := Some(id);
            }
          }
        }
      }
    }

    ghost function EligibleIds(): set<string>
      reads this
    {
      set id | id in sessions && Eligible(sessions[id])
    }

    method CountEligible() returns (n: nat)
      ensures n == |EligibleIds()|
    {
      n := 0;
      var rest := sessions.Keys;
      ghost var found: set<string> := {};
      while rest != {}
        invariant rest <= sessions.Keys && n == |found|
        invariant found == set id | id in sessions.Keys - rest && Eligible(sessions[id])
        decreases |rest|
      {
        var id :| id in rest;
        rest := rest - {id};
        if Eligible(sessions[id]) {
          n := n + 1;
          found := found + {id};
        }
      }
      assert found == EligibleIds();
    }

    /** The whole pass. It never reads more blocks or pages than allowed, whatever else runs, fails or
        throws beside it, and it leaves every session accounted for. It stops with budget left only when
        nothing eligible is left that has not failed in this pass. `ends` says how each page ended, `stop` what
        the pass saw last. */
    method RunSessionRollup(maxBlocks: int, maxPages: int, pageSizeOption: int, now: int)
      returns (result: Option<Counters>, ghost ends: seq<PageEnd>, ghost stop: map<string, Session>)
      requires Valid()
      modifies this
      ensures Valid()
      ensures result.Some? <==> maxBlocks >= 1 && maxPages >= 1 && pageSizeOption >= 1
      ensures result.Some? ==> Tallied(result.value, ends) && result.value.pending == |EligibleIds()|
      ensures result.Some? ==> result.value.examined <= maxBlocks && result.value.pages <= maxPages
      ensures result.Some? && result.value.pages < maxPages && result.value.examined < maxBlocks ==>
        NothingLeft(stop, ends)
    {
      ends, stop := [], map[];
      if maxBlocks < 1 || maxPages < 1 || pageSizeOption < 1 { return None, ends, stop; }
      var pageSize: nat := if pageSizeOption < 500 then pageSizeOption else 500;
      var r := Counters(0, 0, 0, 0, 0, 0);
      var failed: set<string> := {};
      while r.pages < maxPages && r.examined < maxBlocks
        invariant Valid() && Tallied(r, ends) && r.examined <= maxBlocks && r.pages <= maxPages
        invariant failed == FailedIds(ends)
        decreases maxPages - r.pages
      {
        Interleave();
        var picked := Select(failed);
        stop := sessions;
        if picked.None? { break; }
        var left := maxBlocks - r.examined;
        ghost var end;
        r, failed, end := OnePage(picked.value, if pageSize < left then pageSize else left, pageSize, now, r, failed,
                                  ends);
        ends := ends + [end];
      }
      Interleave();
      var pending := CountEligible();
      result := Some(r.(pending := pending));
    }

    /** One turn of the pass: a page of the picked session, and what it adds to the counters. */
    method OnePage(id: string, limit: nat, pageSize: nat, now: int, r0: Counters, failed0: set<string>,
                   ghost ends: seq<PageEnd>)
      returns (r: Counters, failed: set<string>, ghost end: PageEnd)
      requires Valid() && limit >= 1 && pageSize >= 1 && id in sessions && Eligible(sessions[id])
      requires Tallied(r0, ends) && failed0 == FailedIds(ends)
      modifies this
      ensures Valid() && Tallied(r, ends + [end]) && failed == FailedIds(ends + [end])
      ensures r.pages == r0.pages + 1 && r.examined <= r0.examined + limit
    {
      var cp := sessions[id].state.value;
      r := r0.(pages := r0.pages + 1);
      failed := failed0;
      var outcome, examined, _ := RollupPage(id, cp, limit, pageSize, now);
      r := r.(examined := r.examined + examined);
      end := PageEnd(id, outcome, examined, true);
      match outcome {
        case Won(published) => if published { r := r.(completed := r.completed + 1); }
        case Lost => r := r.(superseded := r.superseded + 1);
        case Threw =>
          Interleave();
          var changed := DeferPage(id, cp, now);
          if !changed { r := r.(superseded := r.superseded + 1); }
          r := r.(failed := r.failed + 1);
          failed := failed + {id};
          end := PageEnd(id, outcome, examined, changed);
      }
      TalliedOne(r0, ends, end);
      FailedOne(ends, end);
    }
  }
}
