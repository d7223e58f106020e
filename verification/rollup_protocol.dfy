/** The durable side of the rollup: one session's checkpoint, buckets and seen calls, changed by
    any number of racing workers, by re-indexing, and by crashes between any two calls. */
module RollupProtocol {
  import opened Wrappers
  import opened RollupBuckets
  import RollupFigures
  import opened RollupReference
  import opened RollupPage

  datatype Status = Pending | Building | Ready

  /** A session_rollup_state row. */
  datatype State = State(generation: nat, status: Status, eligible: bool, finishing: bool, cursor: Position,
                         turn: Option<TurnState>, token: Option<nat>, lastAttempt: int)

  /** One session: whether sessions.index_state is 'ready', its rollup tables, and its blocks and usage. */
  datatype Session = Session(indexReady: bool, state: Option<State>, buckets: Buckets, seen: set<CallKey>,
                             source: Source)

  function FreshState(generation: nat): State {
    State(generation, Pending, false, false, START, None, None, 0)
  }

  predicate Eligible(s: Session) {
    s.state.Some? && s.state.value.eligible && s.state.value.status != Ready && s.indexReady
  }

  /** The WHERE clause of the checkpoint's compare-and-set. */
  predicate Matches(s: Session, cp: State) {
    && Eligible(s)
    && s.state.value.generation == cp.generation
    && s.state.value.cursor == cp.cursor
    && s.state.value.token == cp.token
  }

  /** COMMIT_GUARD: the row still holds the token this transaction installed. */
  predicate CommitGuard(s: Session, token: nat) {
    s.state.Some? && s.state.value.token == Some(token) && s.state.value.eligible && s.indexReady
  }

  /** What a page wants to commit. */
  datatype Page = Page(rows: seq<Row>, limit: nat, fold: Fold) {
    predicate Complete() { |rows| < limit }
  }

  function Max(a: int, b: int): int { if a < b then b else a }

  function NextCursor(cp: State, rows: seq<Row>): Position {
    if rows == [] then cp.cursor
    else var r := rows[|rows| - 1]; (r.turn, r.index, r.id)
  }

  function Advanced(cp: State, eligible: bool, page: Page, token: nat, now: int): State {
    State(cp.generation, Building, eligible, page.Complete(), NextCursor(cp, page.rows), page.fold.turn,
          Some(token), Max(now, cp.lastAttempt + 1))
  }

  /** The number of seen calls one cleanup statement deletes. */
  function CleanupCount(seen: set<CallKey>, pageSize: nat): nat {
    if |seen| < pageSize then |seen| else pageSize
  }

  /** The whole transaction. `removed` are the seen calls that the bounded DELETE picked. */
  function Commit(s: Session, cp: State, page: Page, token: nat, now: int, removed: set<CallKey>): Session {
    if !Matches(s, cp) then s
    else
      var s1 := s.(state := Some(Advanced(cp, s.state.value.eligible, page, token, now)),
                   buckets := Upsert(s.buckets, page.fold.buckets),
                   seen := s.seen + CallKeys(page.rows));
      if !page.Complete() then s1
      else
        var left := s1.seen - removed;
        if left == {} then
          s1.(seen := left, state := Some(s1.state.value.(status := Ready, turn := None, token := None)))
        else s1.(seen := left)
  }

  /** Bookkeeping after a page failed: only the attempt time moves, and only if the checkpoint still matches. */
  function Defer(s: Session, cp: State, now: int): Session {
    if !Matches(s, cp) then s
    else s.(state := Some(s.state.value.(lastAttempt := Max(s.state.value.lastAttempt, Max(now, cp.lastAttempt + 1)))))
  }

  // ---- Workers ----

  /** What one worker has read so far: seen calls are looked up 90 at a time. */
  datatype Worker = Worker(cp: State, limit: nat, rows: Option<seq<Row>>, models: Option<map<int, Option<string>>>,
                           checked: nat, seen: set<int>)

  function RowsFor(s: Session, cp: State, limit: nat): seq<Row> {
    if cp.finishing then [] else ReadPage(s.source.blocks, cp.cursor, limit)
  }

  const CHUNK: nat := 90

  function ChunkEnd(total: nat, from: nat): nat {
    if from + CHUNK < total then from + CHUNK else total
  }

  predicate ReadyToCommit(w: Worker) {
    w.rows.Some? && w.models.Some? && w.checked == |Calls(w.rows.value)|
  }

  function PageOf(w: Worker): Page
    requires ReadyToCommit(w)
  {
    Page(w.rows.value, w.limit, FoldRows(w.rows.value, w.cp.turn, w.models.value, w.seen))
  }

  /** All workers and everything that was ever issued. Tokens and generations are random
      identifiers, so a new one differs from all earlier ones. */
  datatype World = World(session: Session, generations: set<nat>, published: set<nat>, tokens: set<nat>,
                         workers: map<nat, Worker>)

  datatype Action =
    | Invalidate(generation: nat)
    | Remove
    | Rewrite(source: Source)
    | Publish
    | Begin(id: nat, limit: nat)
    | ReadRows(id: nat)
    | ReadUsage(id: nat)
    | ReadSeen(id: nat)
    | CommitPage(id: nat, token: nat, now: int, pageSize: nat, removed: set<CallKey>)
    | DeferPage(id: nat, now: int)
    | Crash(id: nat)

  /** Blocks change only between the invalidation of a session and its publication. */
  ghost predicate Enabled(w: World, a: Action) {
    var s := w.session;
    match a
    case Invalidate(g) => g !in w.generations
    case Remove => true
    case Rewrite(_) => s.state.None? || !s.state.value.eligible
    case Publish => s.state.Some? && !s.state.value.eligible && WellFormed(s.source)
    case Begin(_, limit) => Eligible(s) && limit >= 1
    case ReadRows(id) => id in w.workers && w.workers[id].rows.None?
    case ReadUsage(id) => id in w.workers && w.workers[id].rows.Some? && w.workers[id].models.None?
    case ReadSeen(id) => id in w.workers && w.workers[id].models.Some? && w.workers[id].rows.Some?
                         && w.workers[id].checked < |Calls(w.workers[id].rows.value)|
    case CommitPage(id, token, _, pageSize, removed) =>
      && id in w.workers && ReadyToCommit(w.workers[id]) && token !in w.tokens && pageSize >= 1
      && var seen := s.seen + CallKeys(w.workers[id].rows.value);
         removed <= seen && |removed| == CleanupCount(seen, pageSize)
    case DeferPage(id, _) => id in w.workers
    case Crash(id) => id in w.workers
  }

  ghost function Apply(w: World, a: Action): World
    requires Enabled(w, a)
  {
    var s := w.session;
    match a
    case Invalidate(g) =>
      w.(session := Session(false, Some(FreshState(g)), map[], {}, s.source), generations := w.generations + {g})
    case Remove => w.(session := Session(false, None, map[], {}, s.source))
    case Rewrite(src) => w.(session := s.(source := src))
    case Publish =>
      w.(session := s.(indexReady := true, state := Some(s.state.value.(eligible := true))),
         published := w.published + {s.state.value.generation})
    case Begin(id, limit) => w.(workers := w.workers[id := Worker(s.state.value, limit, None, None, 0, {})])
    case ReadRows(id) =>
      var k := w.workers[id];
      w.(workers := w.workers[id := k.(rows := Some(RowsFor(s, k.cp, k.limit)))])
    case ReadUsage(id) =>
      var k := w.workers[id];
      w.(workers := w.workers[id := k.(models := Some(ReadModels(s.source.models, k.rows.value)))])
    case ReadSeen(id) =>
      var k := w.workers[id];
      var calls := Calls(k.rows.value);
      var end := ChunkEnd(|calls|, k.checked);
      w.(workers := w.workers[id := k.(seen := k.seen + SeenIds(calls[k.checked..end], s.seen), checked := end)])
    case CommitPage(id, token, now, _, removed) =>
      var k := w.workers[id];
      w.(session := Commit(s, k.cp, PageOf(k), token, now, removed), tokens := w.tokens + {token},
         workers := w.workers - {id})
    case DeferPage(id, now) => w.(session := Defer(s, w.workers[id].cp, now), workers := w.workers - {id})
    case Crash(id) => w.(workers := w.workers - {id})
  }

  // ---- Invariants ----

  /** What the tables must hold at one point of the block list. */
  datatype Account = Account(cursor: Position, buckets: Buckets, seen: set<CallKey>, turn: Option<TurnState>)

  ghost function AccountAt(src: Source, n: nat): Account
    requires n <= |src.blocks|
  {
    Account(CursorAt(src.blocks, n), RollupTo(src, n), CallsBefore(src.blocks, n), TurnAt(src, n))
  }

  /** The row and tables carry this account; once finishing, the seen calls are being deleted. */
  ghost predicate Carries(s: Session, acc: Account, atEnd: bool)
    requires s.state.Some?
  {
    var st := s.state.value;
    && st.cursor == acc.cursor
    && s.buckets == acc.buckets
    && (!st.finishing ==> st.status != Ready && s.seen == acc.seen && st.turn == acc.turn)
    && (st.finishing ==> atEnd && s.seen <= acc.seen && (st.status == Ready <==> s.seen == {}))
  }

  /** The tables account for exactly the first n blocks, each once. */
  ghost predicate AccountedAt(s: Session, n: nat)
    requires s.state.Some?
  {
    n <= |s.source.blocks| && Carries(s, AccountAt(s.source, n), n == |s.source.blocks|)
  }

  ghost predicate Accounted(s: Session)
    requires s.state.Some?
  {
    exists n: nat :: AccountedAt(s, n)
  }

  ghost predicate SessionInv(s: Session) {
    && ((s.state.None? || !s.state.value.eligible) ==> s.buckets == map[] && s.seen == {})
    && (s.state.Some? && !s.state.value.eligible ==> s.state.value == FreshState(s.state.value.generation))
    && (s.state.Some? && s.state.value.eligible ==> WellFormed(s.source) && Accounted(s))
  }

  ghost predicate IssuedInv(w: World) {
    && w.published <= w.generations
    && (w.session.state.Some? ==>
          var st := w.session.state.value;
          && st.generation in w.generations
          && (st.eligible <==> st.generation in w.published)
          && (st.token.Some? ==> st.token.value in w.tokens))
  }

  predicate SameCheckpoint(st: State, cp: State) {
    st == cp.(lastAttempt := st.lastAttempt)
  }

  /** If the compare-and-set would still succeed, everything read is what would be read now. */
  ghost predicate Honest(s: Session, k: Worker) {
    Matches(s, k.cp) ==>
      && SameCheckpoint(s.state.value, k.cp)
      && (k.rows.Some? ==>
            && k.rows.value == RowsFor(s, k.cp, k.limit)
            && k.checked <= |Calls(k.rows.value)|
            && k.seen == SeenIds(Calls(k.rows.value)[..k.checked], s.seen)
            && (k.models.Some? ==> k.models.value == ReadModels(s.source.models, k.rows.value)))
      && (k.rows.None? ==> k.checked == 0 && k.seen == {})
  }

  ghost predicate WorkerInv(w: World, k: Worker) {
    && k.limit >= 1
    && (k.rows.None? ==> k.models.None?)
    && k.cp.generation in w.published
    && (k.cp.token.Some? ==> k.cp.token.value in w.tokens)
    && Honest(w.session, k)
  }

  ghost predicate Inv(w: World) {
    SessionInv(w.session) && IssuedInv(w) && forall id | id in w.workers :: WorkerInv(w, w.workers[id])
  }

  /** A checkpoint issued before a stretch of steps that still matches after it was not touched meanwhile. */
  predicate Untouched(s: Session, s': Session) {
    && Eligible(s) && Eligible(s')
    && s' == s.(state := Some(s.state.value.(lastAttempt := s'.state.value.lastAttempt)))
  }

  ghost predicate Stable(s: Session, s': Session, published: set<nat>, tokens: set<nat>) {
    Eligible(s') && s'.state.value.generation in published
    && (s'.state.value.token.Some? ==> s'.state.value.token.value in tokens)
    ==> Untouched(s, s')
  }

  lemma StableKeepsHonest(s: Session, s': Session, k: Worker, published: set<nat>, tokens: set<nat>)
    requires Stable(s, s', published, tokens) && Honest(s, k)
    requires k.cp.generation in published && (k.cp.token.Some? ==> k.cp.token.value in tokens)
    ensures Honest(s', k)
  {
  }

  lemma StableIsTransitive(s0: Session, s1: Session, s2: Session, published: set<nat>, tokens: set<nat>,
                           published': set<nat>, tokens': set<nat>)
    requires Stable(s0, s1, published, tokens) && Stable(s1, s2, published', tokens')
    requires published <= published' && tokens <= tokens'
    ensures Stable(s0, s2, published, tokens)
  {
  }

  // ---- Every action keeps the invariants ----

  lemma CommitIsStable(s: Session, cp: State, page: Page, token: nat, now: int, removed: set<CallKey>,
                       published: set<nat>, tokens: set<nat>)
    requires token !in tokens
    ensures Stable(s, Commit(s, cp, page, token, now, removed), published, tokens)
  {
  }

  lemma ActionIsStable(w: World, a: Action)
    requires Inv(w) && Enabled(w, a)
    ensures Stable(w.session, Apply(w, a).session, w.published, w.tokens)
  {
    if a.CommitPage? {
      var k := w.workers[a.id];
      CommitIsStable(w.session, k.cp, PageOf(k), a.token, a.now, a.removed, w.published, w.tokens);
    }
  }

  lemma {:induction false} CallsKeepSeen(rows: seq<Row>, table: set<CallKey>)
    ensures SeenIds(Calls(rows), table) == SeenIds(rows, table)
  {
    if rows != [] {
      CallsKeepSeen(rows[1..], table);
      var rest := SeenIds(rows[1..], table);
      assert rows == [rows[0]] + rows[1..];
      SeenIdsOfConcat([rows[0]], rows[1..], table);
      if IsCall(rows[0]) {
        SeenIdsOfConcat([rows[0]], Calls(rows[1..]), table);
      } else {
        assert SeenIds([rows[0]], table) == {};
      }
    }
  }

  lemma SeenIdsOfConcat(a: seq<Row>, b: seq<Row>, table: set<CallKey>)
    ensures SeenIds(a + b, table) == SeenIds(a, table) + SeenIds(b, table)
  {
  }

  /** Looking up one more chunk keeps the partial answer honest. */
  lemma ChunkIsHonest(calls: seq<Row>, from: nat, end: nat, table: set<CallKey>)
    requires from <= end <= |calls|
    ensures SeenIds(calls[..from], table) + SeenIds(calls[from..end], table) == SeenIds(calls[..end], table)
  {
    assert calls[..end] == calls[..from] + calls[from..end];
    SeenIdsOfConcat(calls[..from], calls[from..end], table);
  }

  lemma ModelsReadBack(models: map<int, Option<string>>, rows: seq<Row>, i: nat)
    requires i < |rows|
    ensures ModelOf(ReadModels(models, rows), rows[i].turn) == ModelOf(models, rows[i].turn)
  {
    assert rows[i] in rows;
  }

  lemma ModelsOfWindow(src: Source, n: nat, m: nat, rows: seq<Row>)
    requires n <= m <= |src.blocks| && rows == RowsOf(src.blocks[n..m])
    ensures forall j | n <= j < m ::
              ModelOf(ReadModels(src.models, rows), src.blocks[j].turn) == ModelOf(src.models, src.blocks[j].turn)
  {
    forall j | n <= j < m
      ensures ModelOf(ReadModels(src.models, rows), src.blocks[j].turn) == ModelOf(src.models, src.blocks[j].turn)
    {
      ModelsReadBack(src.models, rows, j - n);
      assert rows[j - n] == RowOf(src.blocks[n..m], j - n);
    }
  }

  /** The window of a page read after n blocks. */
  function WindowEnd(src: Source, n: nat, limit: nat): (m: nat)
    requires n <= |src.blocks|
    ensures n <= m <= |src.blocks|
  {
    if n + limit < |src.blocks| then n + limit else |src.blocks|
  }

  lemma HonestRows(s: Session, k: Worker, n: nat)
    requires WellFormed(s.source) && Matches(s, k.cp) && Honest(s, k) && ReadyToCommit(k)
    requires AccountedAt(s, n) && !k.cp.finishing
    ensures k.rows.value == RowsOf(s.source.blocks[n..WindowEnd(s.source, n, k.limit)])
  {
    PageIsWindow(s.source, n, k.limit);
  }

  lemma HonestLookups(s: Session, k: Worker, n: nat)
    requires Matches(s, k.cp) && Honest(s, k) && ReadyToCommit(k)
    requires AccountedAt(s, n) && !k.cp.finishing
    ensures k.models.value == ReadModels(s.source.models, k.rows.value)
    ensures k.seen == SeenIds(k.rows.value, CallsBefore(s.source.blocks, n))
  {
    var calls := Calls(k.rows.value);
    assert calls[..k.checked] == calls;
    CallsKeepSeen(k.rows.value, s.seen);
  }

  lemma HonestStart(s: Session, k: Worker, n: nat)
    requires Matches(s, k.cp) && Honest(s, k) && AccountedAt(s, n) && !k.cp.finishing
    ensures k.cp.turn == TurnAt(s.source, n) && k.cp.cursor == CursorAt(s.source.blocks, n)
  {
  }

  /** An honest worker whose checkpoint still matches folds the reference window after its cursor. */
  lemma HonestPage(s: Session, k: Worker, n: nat) returns (m: nat)
    requires WellFormed(s.source) && Matches(s, k.cp) && Honest(s, k) && ReadyToCommit(k)
    requires AccountedAt(s, n) && !k.cp.finishing
    ensures m == WindowEnd(s.source, n, k.limit)
    ensures k.rows.value == RowsOf(s.source.blocks[n..m]) && k.cp.cursor == CursorAt(s.source.blocks, n)
    ensures PageOf(k).fold == Fold(TurnAt(s.source, m), Group(Entries(s.source, n, m)))
  {
    m := WindowEnd(s.source, n, k.limit);
    HonestRows(s, k, n);
    HonestLookups(s, k, n);
    HonestStart(s, k, n);
    ModelsOfWindow(s.source, n, m, k.rows.value);
    SeenIdsAreHonest(s.source, n, m, k.rows.value, CallsBefore(s.source.blocks, n));
    PageFoldIsReference(s.source, n, m, k.rows.value, k.models.value, k.seen);
  }

  lemma NothingAdded(b: Buckets)
    ensures Upsert(b, map[]) == b
  {
  }

  lemma NextCursorAt(bs: seq<Block>, cp: State, n: nat, m: nat)
    requires n <= m <= |bs| && cp.cursor == CursorAt(bs, n)
    ensures NextCursor(cp, RowsOf(bs[n..m])) == CursorAt(bs, m)
  {
    if n < m {
      var rows := RowsOf(bs[n..m]);
      assert rows[m - n - 1] == RowOf(bs[n..m], m - n - 1);
    }
  }

  lemma CommitCarries(s: Session, cp: State, page: Page, token: nat, now: int, removed: set<CallKey>,
                      acc: Account, atEnd: bool, acc': Account, atEnd': bool)
    requires Matches(s, cp) && SameCheckpoint(s.state.value, cp) && !cp.finishing && Carries(s, acc, atEnd)
    requires Upsert(acc.buckets, page.fold.buckets) == acc'.buckets && page.fold.turn == acc'.turn
    requires acc.seen + CallKeys(page.rows) == acc'.seen && NextCursor(cp, page.rows) == acc'.cursor
    requires page.Complete() ==> atEnd'
    ensures var s' := Commit(s, cp, page, token, now, removed); s'.state.Some? && Carries(s', acc', atEnd')
  {
  }

  lemma CleanupCarries(s: Session, cp: State, page: Page, token: nat, now: int, removed: set<CallKey>,
                       acc: Account, atEnd: bool)
    requires Matches(s, cp) && SameCheckpoint(s.state.value, cp) && cp.finishing && Carries(s, acc, atEnd)
    requires page.rows == [] && page.Complete() && page.fold.buckets == map[]
    ensures var s' := Commit(s, cp, page, token, now, removed); s'.state.Some? && Carries(s', acc, atEnd)
  {
    assert CallKeys([]) == {};
    NothingAdded(s.buckets);
  }

  lemma AccountedFrom(s: Session, src: Source, n: nat)
    requires s.state.Some? && s.source == src && n <= |src.blocks| && Carries(s, AccountAt(src, n), n == |src.blocks|)
    ensures AccountedAt(s, n)
  {
  }

  /** A winning page moves the tables from accounting for n blocks to accounting for m. */
  lemma CommitAccounts(s: Session, k: Worker, token: nat, now: int, removed: set<CallKey>, n: nat) returns (m: nat)
    requires WellFormed(s.source) && Matches(s, k.cp) && Honest(s, k) && ReadyToCommit(k) && k.limit >= 1
    requires AccountedAt(s, n) && !k.cp.finishing
    ensures n <= m <= |s.source.blocks| && AccountedAt(Commit(s, k.cp, PageOf(k), token, now, removed), m)
    ensures m == WindowEnd(s.source, n, k.limit) && k.rows.value == RowsOf(s.source.blocks[n..m])
  {
    m := HonestPage(s, k, n);
    PageExtendsRollup(s.source, n, m);
    CallKeysOfWindow(s.source, n, m);
    NextCursorAt(s.source.blocks, k.cp, n, m);
    CommitCarries(s, k.cp, PageOf(k), token, now, removed, AccountAt(s.source, n), n == |s.source.blocks|,
                  AccountAt(s.source, m), m == |s.source.blocks|);
    CommitFrame(s, k.cp, PageOf(k), token, now, removed);
    AccountedFrom(Commit(s, k.cp, PageOf(k), token, now, removed), s.source, m);
  }

  /** A finishing page changes no bucket and only shrinks the seen calls. */
  lemma CleanupAccounts(s: Session, k: Worker, token: nat, now: int, removed: set<CallKey>, n: nat)
    requires Matches(s, k.cp) && Honest(s, k) && ReadyToCommit(k) && k.limit >= 1
    requires AccountedAt(s, n) && k.cp.finishing
    ensures k.rows.value == [] && AccountedAt(Commit(s, k.cp, PageOf(k), token, now, removed), n)
  {
    CleanupCarries(s, k.cp, PageOf(k), token, now, removed, AccountAt(s.source, n), n == |s.source.blocks|);
  }

  lemma CommitKeepsSessionInv(s: Session, k: Worker, token: nat, now: int, removed: set<CallKey>)
    requires SessionInv(s) && Honest(s, k) && ReadyToCommit(k) && k.limit >= 1
    ensures SessionInv(Commit(s, k.cp, PageOf(k), token, now, removed))
  {
    if Matches(s, k.cp) {
      var s' := Commit(s, k.cp, PageOf(k), token, now, removed);
      var n: nat :| AccountedAt(s, n);
      if k.cp.finishing {
        CleanupAccounts(s, k, token, now, removed, n);
      } else {
        n := CommitAccounts(s, k, token, now, removed, n);
      }
      CommitFrame(s, k.cp, PageOf(k), token, now, removed);
      assert AccountedAt(s', n);
    }
  }

  lemma CommitFrame(s: Session, cp: State, page: Page, token: nat, now: int, removed: set<CallKey>)
    requires Matches(s, cp)
    ensures var s' := Commit(s, cp, page, token, now, removed);
            && s'.source == s.source && s'.indexReady && s'.state.Some? && s'.state.value.eligible
            && s'.state.value.generation == cp.generation
            && (s'.state.value.token.Some? ==> s'.state.value.token.value == token)
  {
  }

  lemma DeferKeepsSessionInv(s: Session, cp: State, now: int)
    requires SessionInv(s)
    ensures SessionInv(Defer(s, cp, now))
  {
    if Matches(s, cp) {
      var n: nat :| AccountedAt(s, n);
      assert AccountedAt(Defer(s, cp, now), n);
    }
  }

  lemma PublishKeepsSessionInv(s: Session)
    requires SessionInv(s) && s.state.Some? && !s.state.value.eligible && WellFormed(s.source)
    ensures SessionInv(s.(indexReady := true, state := Some(s.state.value.(eligible := true))))
  {
    var s' := s.(indexReady := true, state := Some(s.state.value.(eligible := true)));
    assert CallsBefore(s.source.blocks, 0) == {};
    NoEntries();
    assert AccountedAt(s', 0);
  }

  lemma ActionKeepsSessionInv(w: World, a: Action)
    requires Inv(w) && Enabled(w, a)
    ensures SessionInv(Apply(w, a).session)
  {
    match a
    case CommitPage(id, token, now, _, removed) =>
      assert WorkerInv(w, w.workers[id]);
      CommitKeepsSessionInv(w.session, w.workers[id], token, now, removed);
    case DeferPage(id, now) => DeferKeepsSessionInv(w.session, w.workers[id].cp, now);
    case Publish => PublishKeepsSessionInv(w.session);
    case _ =>
  }

  lemma RowsKeepHonest(s: Session, k: Worker)
    requires Honest(s, k) && k.rows.None? && k.models.None?
    ensures Honest(s, k.(rows := Some(RowsFor(s, k.cp, k.limit))))
  {
    assert SeenIds([], s.seen) == {};
  }

  lemma UsageKeepsHonest(s: Session, k: Worker)
    requires Honest(s, k) && k.rows.Some?
    ensures Honest(s, k.(models := Some(ReadModels(s.source.models, k.rows.value))))
  {
  }

  lemma SeenKeepsHonest(s: Session, k: Worker)
    requires Honest(s, k) && k.rows.Some? && k.checked < |Calls(k.rows.value)|
    ensures var calls := Calls(k.rows.value);
            var end := ChunkEnd(|calls|, k.checked);
            Honest(s, k.(seen := k.seen + SeenIds(calls[k.checked..end], s.seen), checked := end))
  {
    if Matches(s, k.cp) {
      var calls := Calls(k.rows.value);
      ChunkIsHonest(calls, k.checked, ChunkEnd(|calls|, k.checked), s.seen);
    }
  }

  lemma ReadKeepsWorkerInv(w: World, a: Action)
    requires Inv(w) && Enabled(w, a) && (a.ReadRows? || a.ReadUsage? || a.ReadSeen?)
    ensures WorkerInv(Apply(w, a), Apply(w, a).workers[a.id])
  {
    var k := w.workers[a.id];
    assert WorkerInv(w, k);
    if a.ReadSeen? {
      SeenKeepsHonest(w.session, k);
    } else if a.ReadUsage? {
      UsageKeepsHonest(w.session, k);
    } else {
      RowsKeepHonest(w.session, k);
    }
  }

  lemma BeginKeepsWorkerInv(w: World, a: Action)
    requires Inv(w) && Enabled(w, a) && a.Begin?
    ensures WorkerInv(Apply(w, a), Apply(w, a).workers[a.id])
  {
  }

  lemma OthersKeepWorkerInv(w: World, a: Action, id: nat)
    requires Inv(w) && Enabled(w, a) && id in w.workers
    ensures WorkerInv(Apply(w, a), w.workers[id])
  {
    assert WorkerInv(w, w.workers[id]);
    ActionIsStable(w, a);
    StableKeepsHonest(w.session, Apply(w, a).session, w.workers[id], w.published, w.tokens);
  }

  lemma ActionKeepsIssuedInv(w: World, a: Action)
    requires Inv(w) && Enabled(w, a)
    ensures IssuedInv(Apply(w, a))
  {
    if a.CommitPage? {
      var k := w.workers[a.id];
      if Matches(w.session, k.cp) {
        CommitFrame(w.session, k.cp, PageOf(k), a.token, a.now, a.removed);
      }
    }
  }

  /** Any action of any worker, the indexer or a crash keeps the invariants. */
  lemma ActionKeepsInv(w: World, a: Action)
    requires Inv(w) && Enabled(w, a)
    ensures Inv(Apply(w, a))
  {
    var w' := Apply(w, a);
    ActionKeepsSessionInv(w, a);
    ActionKeepsIssuedInv(w, a);
    forall id | id in w'.workers ensures WorkerInv(w', w'.workers[id]) {
      if (a.ReadRows? || a.ReadUsage? || a.ReadSeen?) && id == a.id {
        ReadKeepsWorkerInv(w, a);
      } else if a.Begin? && id == a.id {
        BeginKeepsWorkerInv(w, a);
      } else {
        OthersKeepWorkerInv(w, a, id);
      }
    }
  }

  // ---- Whole runs ----

  ghost predicate Initial(w: World) {
    && w.workers == map[] && w.published == {} && w.tokens == {}
    && w.session.state.None? && w.session.buckets == map[] && w.session.seen == {}
  }

  ghost predicate IsRun(run: seq<World>, actions: seq<Action>) {
    && |run| == |actions| + 1 && Initial(run[0])
    && forall i | 0 <= i < |actions| :: Enabled(run[i], actions[i]) && run[i + 1] == Apply(run[i], actions[i])
  }

  /** The state before anything happened starts a run, and every step that is possible continues one. */
  lemma RunGoesOn(run: seq<World>, actions: seq<Action>, a: Action)
    ensures |run| == 1 && actions == [] && Initial(run[0]) ==> IsRun(run, actions)
    ensures IsRun(run, actions) && Enabled(run[|run| - 1], a) ==>
      IsRun(run + [Apply(run[|run| - 1], a)], actions + [a])
  {
  }

  lemma {:induction false} RunKeepsInv(run: seq<World>, actions: seq<Action>, i: nat)
    requires IsRun(run, actions) && i < |run|
    ensures Inv(run[i])
  {
    if i > 0 {
      RunKeepsInv(run, actions, i - 1);
      ActionKeepsInv(run[i - 1], actions[i - 1]);
      assert run[i - 1 + 1] == Apply(run[i - 1], actions[i - 1]);
    }
  }

  /** At every moment of every run, whoever raced, crashed or was superseded: an eligible session's
      buckets are the rollup of exactly the blocks its cursor has passed, and a session marked ready
      publishes the rollup of all its blocks, with no seen calls left over. */
  lemma EveryBlockCountsOnce(run: seq<World>, actions: seq<Action>, i: nat)
    requires IsRun(run, actions) && i < |run|
    requires run[i].session.state.Some? && run[i].session.state.value.eligible
    ensures var s := run[i].session;
            && (exists n: nat :: n <= |s.source.blocks| && s.state.value.cursor == CursorAt(s.source.blocks, n)
                               && s.buckets == RollupTo(s.source, n))
            && (s.state.value.status == Ready ==> s.buckets == Rollup(s.source) && s.seen == {})
  {
    RunKeepsInv(run, actions, i);
    var s := run[i].session;
    var n: nat :| AccountedAt(s, n);
    assert n <= |s.source.blocks| && s.state.value.cursor == CursorAt(s.source.blocks, n)
        && s.buckets == RollupTo(s.source, n);
  }

  /** In every run a ready session publishes a bucket exactly for the days and models its blocks count for, with the
      figures of those blocks. */
  lemma PublishedBuckets(run: seq<World>, actions: seq<Action>, i: nat, day: string, model: string)
    requires IsRun(run, actions) && i < |run|
    requires run[i].session.state.Some? && run[i].session.state.value.eligible
    requires run[i].session.state.value.status == Ready
    ensures var s, k := run[i].session, BucketKey(day, model);
            && (k in s.buckets <==> exists j :: RollupFigures.CountsFor(s.source, j, day, model))
            && (k in s.buckets ==>
                  s.buckets[k].key == k
                  && RollupFigures.Figures(s.buckets[k], s.source, |s.source.blocks|, day, model))
  {
    EveryBlockCountsOnce(run, actions, i);
    RollupFigures.BucketsSayWhatTheyCount(run[i].session.source, |run[i].session.source.blocks|, day, model);
  }

  lemma IssuedGrows(w: World, a: Action)
    requires Enabled(w, a)
    ensures w.published <= Apply(w, a).published && w.tokens <= Apply(w, a).tokens
  {
  }

  lemma StableOneMore(s: Session, published: set<nat>, tokens: set<nat>, w: World, a: Action)
    requires Inv(w) && Enabled(w, a) && Stable(s, w.session, published, tokens)
    requires published <= w.published && tokens <= w.tokens
    ensures Stable(s, Apply(w, a).session, published, tokens)
    ensures published <= Apply(w, a).published && tokens <= Apply(w, a).tokens
  {
    ActionIsStable(w, a);
    IssuedGrows(w, a);
    StableIsTransitive(s, w.session, Apply(w, a).session, published, tokens, w.published, w.tokens);
  }

  lemma RunStep(run: seq<World>, actions: seq<Action>, i: nat, j: nat)
    requires IsRun(run, actions) && j == i + 1 < |run|
    ensures Inv(run[i]) && Enabled(run[i], actions[i]) && run[j] == Apply(run[i], actions[i])
  {
    RunKeepsInv(run, actions, i);
    assert Enabled(run[i], actions[i]) && run[i + 1] == Apply(run[i], actions[i]);
  }

  /** Between any two states of a run, what a worker relies on while others run: a checkpoint issued by the first
      state that still matches in the second was not touched in between. */
  lemma {:induction false} RunIsStable(run: seq<World>, actions: seq<Action>, i: nat, j: nat)
    requires IsRun(run, actions) && i <= j < |run|
    ensures Stable(run[i].session, run[j].session, run[i].published, run[i].tokens)
    ensures run[i].published <= run[j].published && run[i].tokens <= run[j].tokens
    decreases j
  {
    if i < j {
      RunIsStable(run, actions, i, j - 1);
      RunStep(run, actions, j - 1, j);
      StableOneMore(run[i].session, run[i].published, run[i].tokens, run[j - 1], actions[j - 1]);
    }
  }

  // ---- Progress ----

  /** Blocks still to read, counted twice, the seen calls still to delete, and the finishing flag. */
  ghost function Remaining(s: Session): nat
    requires s.state.Some?
  {
    2 * |After(s.source.blocks, s.state.value.cursor)| + |s.seen| + if s.state.value.finishing then 0 else 1
  }

  lemma UnreadBlocks(src: Source, n: nat)
    requires WellFormed(src) && n <= |src.blocks|
    ensures |After(src.blocks, CursorAt(src.blocks, n))| == |src.blocks| - n
  {
    CursorSplits(src, n);
    AfterDrops(src.blocks, CursorAt(src.blocks, n), n);
  }

  lemma {:induction false} FewCalls(rows: seq<Row>)
    ensures |CallKeys(rows)| <= |rows|
  {
    if rows != [] {
      FewCalls(rows[..|rows| - 1]);
      var r := rows[|rows| - 1];
      var before := CallKeys(rows[..|rows| - 1]);
      assert rows == rows[..|rows| - 1] + [r];
      assert CallKeys(rows) == if IsCall(r) then before + {(r.toolName.value, r.text.value)} else before;
    }
  }

  lemma UnionSize(a: set<CallKey>, b: set<CallKey>)
    ensures |a + b| <= |a| + |b|
  {
    assert a + b == a + (b - a);
    assert |b - a| <= |b| by {
      assert b == (b - a) + (b * a);
    }
  }

  lemma AfterRemoval(seen: set<CallKey>, removed: set<CallKey>, pageSize: nat)
    requires removed <= seen && |removed| == CleanupCount(seen, pageSize)
    ensures |seen - removed| == |seen| - CleanupCount(seen, pageSize)
  {
  }

  lemma CommitRemaining(s: Session, cp: State, page: Page, token: nat, now: int, removed: set<CallKey>, pageSize: nat,
                        unread: nat, unread': nat)
    requires Matches(s, cp) && SameCheckpoint(s.state.value, cp)
    requires unread == |After(s.source.blocks, cp.cursor)|
    requires unread' == |After(s.source.blocks, NextCursor(cp, page.rows))|
    requires |page.rows| == unread - unread' && (cp.finishing ==> page.Complete())
    requires pageSize >= 1 && var seen := s.seen + CallKeys(page.rows);
             removed <= seen && |removed| == CleanupCount(seen, pageSize)
    requires page.Complete() || |page.rows| > 0
    ensures var s' := Commit(s, cp, page, token, now, removed);
            s'.state.Some? && (s'.state.value.status == Ready || Remaining(s') < Remaining(s))
  {
    FewCalls(page.rows);
    UnionSize(s.seen, CallKeys(page.rows));
    AfterRemoval(s.seen + CallKeys(page.rows), removed, pageSize);
  }

  /** A commit whose compare-and-set matches. */
  predicate Wins(w: World, a: Action) {
    a.CommitPage? && a.id in w.workers && Matches(w.session, w.workers[a.id].cp)
  }

  predicate IsReady(s: Session) { s.state.Some? && s.state.value.eligible && s.state.value.status == Ready }

  /** Every winning commit either publishes the session or leaves strictly less to do. */
  lemma WinningPageMakesProgress(w: World, a: Action)
    requires Inv(w) && Enabled(w, a) && Wins(w, a)
    ensures IsReady(Apply(w, a).session)
         || (Eligible(Apply(w, a).session) && Remaining(Apply(w, a).session) < Remaining(w.session))
  {
    var s, k := w.session, w.workers[a.id];
    assert WorkerInv(w, k);
    var n: nat :| AccountedAt(s, n);
    var m := n;
    if k.cp.finishing {
      CleanupAccounts(s, k, a.token, a.now, a.removed, n);
    } else {
      m := CommitAccounts(s, k, a.token, a.now, a.removed, n);
      NextCursorAt(s.source.blocks, k.cp, n, m);
    }
    UnreadBlocks(s.source, n);
    UnreadBlocks(s.source, m);
    CommitFrame(s, k.cp, PageOf(k), a.token, a.now, a.removed);
    CommitRemaining(s, k.cp, PageOf(k), a.token, a.now, a.removed, a.pageSize,
                    |s.source.blocks| - n, |s.source.blocks| - m);
  }

  /** The generation stays: nobody invalidates or removes the session. */
  predicate KeepsGeneration(a: Action) { !a.Invalidate? && !a.Remove? }

  /** Reads, crashes, deferrals and lost commits leave as much to do as there was. */
  lemma OthersLeaveTheRest(w: World, a: Action)
    requires Enabled(w, a) && Eligible(w.session) && KeepsGeneration(a) && !Wins(w, a)
    ensures Eligible(Apply(w, a).session) && Remaining(Apply(w, a).session) == Remaining(w.session)
  {
  }

  lemma ReadyStays(w: World, a: Action)
    requires Enabled(w, a) && IsReady(w.session) && KeepsGeneration(a)
    ensures Apply(w, a).session == w.session && !Wins(w, a)
  {
  }

  /** The winning commits of a stretch of a run. */
  function WinCount(run: seq<World>, actions: seq<Action>, i: nat, j: nat): nat
    requires i <= j <= |actions| < |run|
  {
    if i == j then 0 else WinCount(run, actions, i, j - 1) + if Wins(run[j - 1], actions[j - 1]) then 1 else 0
  }

  /** Where a stretch with a fixed generation stands: ready, or each win has been paid for by work done. */
  ghost predicate Advancing(run: seq<World>, actions: seq<Action>, i: nat, j: nat)
    requires i <= j <= |actions| < |run| && Eligible(run[i].session)
  {
    var start, now := run[i].session, run[j].session;
    || (IsReady(now) && WinCount(run, actions, i, j) <= Remaining(start) + 1)
    || (Eligible(now) && WinCount(run, actions, i, j) + Remaining(now) <= Remaining(start))
  }

  lemma {:induction false} WinsArePaidFor(run: seq<World>, actions: seq<Action>, i: nat, j: nat)
    requires IsRun(run, actions) && i <= j < |run| && Eligible(run[i].session)
    requires forall k | i <= k < j :: KeepsGeneration(actions[k])
    ensures Advancing(run, actions, i, j)
    decreases j
  {
    if i < j {
      var w, a := run[j - 1], actions[j - 1];
      WinsArePaidFor(run, actions, i, j - 1);
      RunStep(run, actions, j - 1, j);
      if IsReady(w.session) {
        ReadyStays(w, a);
      } else if Wins(w, a) {
        WinningPageMakesProgress(w, a);
      } else {
        OthersLeaveTheRest(w, a);
      }
    }
  }

  /** With a fixed generation a session is ready after finitely many winning pages: in any stretch of any run there are
      no more wins than there was work at its start, plus one that publishes, and after more wins than that work the
      session is ready. */
  lemma ReadyAfterFinitelyManyWins(run: seq<World>, actions: seq<Action>, i: nat, j: nat)
    requires IsRun(run, actions) && i <= j < |run| && Eligible(run[i].session)
    requires forall k | i <= k < j :: !actions[k].Invalidate? && !actions[k].Remove?
    ensures WinCount(run, actions, i, j) <= Remaining(run[i].session) + 1
    ensures WinCount(run, actions, i, j) > Remaining(run[i].session) ==> IsReady(run[j].session)
    ensures !IsReady(run[j].session) ==>
      Eligible(run[j].session) && WinCount(run, actions, i, j) + Remaining(run[j].session) <= Remaining(run[i].session)
  {
    WinsArePaidFor(run, actions, i, j);
  }
}
