/** What the transaction of a rollup page writes, column by column. */
module RollupCommit {
  import opened Wrappers
  import opened RollupBuckets
  import opened RollupReference
  import opened RollupPage
  import opened RollupProtocol

  /** The compare-and-set finds its row: an eligible session that is not ready, at the generation, cursor and token
      that were read. */
  predicate Hits(s: Session, cp: State) {
    && s.state.Some? && s.state.value.eligible && s.state.value.status != Ready && s.indexReady
    && s.state.value.generation == cp.generation && s.state.value.cursor == cp.cursor
    && s.state.value.token == cp.token
  }

  /** The larger of two times. */
  predicate IsLater(t: int, a: int, b: int) { t >= a && t >= b && (t == a || t == b) }

  /** A short page is the last one; the session is published when no seen call is left behind it. */
  predicate Publishes(s: Session, page: Page, removed: set<CallKey>) {
    |page.rows| < page.limit && s.seen + CallKeys(page.rows) <= removed
  }

  /** The cursor moves to the page's last block, or stays for an empty page. */
  predicate CursorMoves(cp: State, page: Page, cursor: Position) {
    if |page.rows| == 0 then cursor == cp.cursor
    else
      var last := page.rows[|page.rows| - 1];
      cursor.0 == last.turn && cursor.1 == last.index && cursor.2 == last.id
  }

  /** A losing page writes nothing. A winning one moves the cursor, the attempt time and the turn state, installs its
      token, stores its calls and deletes the ones picked; the row is ready, without turn state and token, exactly when
      the page publishes. */
  lemma CommitWrites(s: Session, cp: State, page: Page, token: nat, now: int, removed: set<CallKey>)
    ensures var s' := Commit(s, cp, page, token, now, removed);
            if !Hits(s, cp) then s' == s
            else
              && s'.state.Some? && s'.source == s.source && s'.indexReady
              && s'.buckets == Upsert(s.buckets, page.fold.buckets)
              && s'.seen == (if |page.rows| < page.limit then s.seen + CallKeys(page.rows) - removed
                             else s.seen + CallKeys(page.rows))
              && var st := s'.state.value;
                 && st.generation == cp.generation && st.eligible && st.finishing == (|page.rows| < page.limit)
                 && CursorMoves(cp, page, st.cursor) && IsLater(st.lastAttempt, now, cp.lastAttempt + 1)
                 && if Publishes(s, page, removed) then st.status == Ready && st.turn.None? && st.token.None?
                    else st.status == Building && st.turn == page.fold.turn && st.token == Some(token)
  {
    var seen := s.seen + CallKeys(page.rows);
    if seen - removed == {} {
      forall c | c in seen ensures c in removed { assert c !in seen - removed; }
    }
  }

  /** An invalidated session starts over: nothing counted, nothing seen, nothing read; it takes part again only when the
      indexer has published it. */
  lemma InvalidationWrites(w: World, g: nat)
    requires Enabled(w, Invalidate(g))
    ensures var s := Apply(w, Invalidate(g)).session;
            && s.source == w.session.source && !s.indexReady && s.buckets == map[] && s.seen == {} && s.state.Some?
            && s.state.value == State(g, Pending, false, false, (-1, -1, 0), None, None, 0)
            && (Enabled(Apply(w, Invalidate(g)), Publish) ==>
                  Apply(Apply(w, Invalidate(g)), Publish).session
                  == s.(indexReady := true, state := Some(s.state.value.(eligible := true))))
  {
  }

  /** A deferral moves the attempt time of a row it finds past the checkpoint's, never back, and nothing else. */
  lemma DeferralWrites(s: Session, cp: State, now: int)
    ensures var s' := Defer(s, cp, now);
            if !Hits(s, cp) then s' == s
            else
              && s'.state.Some? && s' == s.(state := Some(s.state.value.(lastAttempt := s'.state.value.lastAttempt)))
              && var t, t' := s.state.value.lastAttempt, s'.state.value.lastAttempt;
                 t' >= t && t' >= now && t' >= cp.lastAttempt + 1 && (t' == t || t' == now || t' == cp.lastAttempt + 1)
  {
  }

  /** A cleanup deletes at most a page's worth of seen calls, and all of them when they are fewer; calls are looked up
      90 at a time. */
  lemma Slices(seen: set<CallKey>, pageSize: nat, total: nat, from: nat)
    requires from <= total
    ensures CleanupCount(seen, pageSize) <= pageSize
    ensures |seen| < pageSize ==> CleanupCount(seen, pageSize) == |seen|
    ensures |seen| >= pageSize ==> CleanupCount(seen, pageSize) == pageSize
    ensures ChunkEnd(total, from) <= total && ChunkEnd(total, from) - from <= 90
    ensures ChunkEnd(total, from) < total ==> ChunkEnd(total, from) - from == 90
  {
  }

  // ---- A run that publishes ----

  function EmptySession(state: Option<State>, indexReady: bool): Session {
    Session(indexReady, state, map[], {}, Source([], map[]))
  }

  /** A session without blocks as the indexer publishes it. */
  function Opened(): State { FreshState(0).(eligible := true) }

  /** The worker that has read its only, empty page. */
  function Reader(): Worker { Worker(Opened(), 1, Some([]), Some(map[]), 0, {}) }

  lemma {:induction false} NothingRead()
    ensures ReadPage([], START, 1) == [] && ReadModels(map[], []) == map[] && Calls([]) == [] && CallKeys([]) == {}
    ensures WellFormed(Source([], map[]))
  {
  }

  /** Its commit publishes. */
  lemma ReaderPublishes(w: World)
    requires w.session == EmptySession(Some(Opened()), true) && w.tokens == {} && w.workers == map[0 := Reader()]
    ensures Enabled(w, CommitPage(0, 0, 0, 1, {}))
    ensures Apply(w, CommitPage(0, 0, 0, 1, {})).session.state.Some?
    ensures Apply(w, CommitPage(0, 0, 0, 1, {})).session.state.value.status == Ready
  {
    NothingRead();
  }

  lemma ReaderReads(w: World) returns (w': World)
    requires w.session == EmptySession(Some(Opened()), true) && w.tokens == {} && w.workers == map[]
    ensures Enabled(w, Begin(0, 1)) && Enabled(Apply(w, Begin(0, 1)), ReadRows(0))
    ensures Enabled(Apply(Apply(w, Begin(0, 1)), ReadRows(0)), ReadUsage(0))
    ensures w' == Apply(Apply(Apply(w, Begin(0, 1)), ReadRows(0)), ReadUsage(0))
    ensures w'.session == w.session && w'.tokens == {} && w'.workers == map[0 := Reader()]
  {
    NothingRead();
    w' := Apply(Apply(Apply(w, Begin(0, 1)), ReadRows(0)), ReadUsage(0));
  }

  lemma Published(w: World) returns (w': World)
    requires Initial(w) && w.generations == {} && w.session == EmptySession(None, false)
    ensures Enabled(w, Invalidate(0)) && Enabled(Apply(w, Invalidate(0)), Publish)
    ensures w' == Apply(Apply(w, Invalidate(0)), Publish)
    ensures w'.session == EmptySession(Some(Opened()), true) && w'.tokens == {} && w'.workers == map[]
  {
    NothingRead();
    w' := Apply(Apply(w, Invalidate(0)), Publish);
  }

  /** Sessions can be published: some run leads from before anything happened to a ready session. */
  lemma SomeRunPublishes()
    ensures exists run: seq<World>, actions: seq<Action> ::
      IsRun(run, actions) && run[|run| - 1].session.state.Some?
      && run[|run| - 1].session.state.value.status == Ready
  {
    var w0 := World(EmptySession(None, false), {}, {}, {}, map[]);
    var w2 := Published(w0);
    var w5 := ReaderReads(w2);
    ReaderPublishes(w5);
    var run, actions := [w0], [];
    RunGoesOn(run, actions, Invalidate(0));
    run, actions := Longer(run, actions, Invalidate(0));
    run, actions := Longer(run, actions, Publish);
    run, actions := Longer(run, actions, Begin(0, 1));
    run, actions := Longer(run, actions, ReadRows(0));
    run, actions := Longer(run, actions, ReadUsage(0));
    run, actions := Longer(run, actions, CommitPage(0, 0, 0, 1, {}));
  }

  lemma Longer(run: seq<World>, actions: seq<Action>, a: Action) returns (run': seq<World>, actions': seq<Action>)
    requires IsRun(run, actions) && Enabled(run[|run| - 1], a)
    ensures IsRun(run', actions') && run'[|run'| - 1] == Apply(run[|run| - 1], a)
  {
    RunGoesOn(run, actions, a);
    run', actions' := run + [Apply(run[|run| - 1], a)], actions + [a];
  }
}
