/** Versioned replication of the session catalog from main to every shard. */
module CatalogProtocol {
  import opened Wrappers
  import opened CatalogShard

  /** Main's mirrored tables, its outbox and the AUTOINCREMENT counter behind it. */
  datatype Main = Main(sessions: map<string, Row>, stars: set<Star>, versions: map<string, nat>,
                       outbox: map<nat, string>, lastSeq: nat)

  /** Every catalog state main ever stamped, by session and version. */
  type History = map<(string, nat), Snapshot>

  datatype World = World(main: Main, shards: seq<Shard>, history: History)

  function Version(m: Main, id: string): nat {
    if id in m.versions then m.versions[id] else 0
  }

  function MainShows(m: Main, id: string): Snapshot {
    Snapshot(RowIn(m.sessions, id), StarsIn(m.stars, id))
  }

  /** What main showed at a version; nothing before the first. */
  function At(h: History, id: string, version: nat): Snapshot {
    if (id, version) in h then h[(id, version)] else NOTHING
  }

  // ---- The steps ----

  /** One change of a session's row or stars on main, with the trigger that follows it. */
  function Touch(w: World, id: string, now: Snapshot): World {
    var seq' := w.main.lastSeq + 1;
    w.(main := Main(
         if now.row.Some? then w.main.sessions[id := now.row.value] else w.main.sessions - {id},
         (set r | r in w.main.stars && r.id != id) + now.stars,
         w.main.versions[id := seq'], w.main.outbox[seq' := id], seq'),
       history := w.history[(id, seq') := now])
  }

  /** Some pair names the session with a version at or above the sequence number. */
  predicate Covers(pairs: seq<(string, nat)>, id: string, q: nat) {
    exists k :: 0 <= k < |pairs| && pairs[k].0 == id && q <= pairs[k].1
  }

  function Retire(w: World, pairs: seq<(string, nat)>): World {
    w.(main := w.main.(outbox := map q | q in w.main.outbox && !Covers(pairs, w.main.outbox[q], q) :: w.main.outbox[q]))
  }

  datatype Action =
    | Change(id: string, now: Snapshot)
    | Deliver(shard: nat, entries: seq<Entry>, after: Shard)
    | Retired(pairs: seq<(string, nat)>)

  /** A sync only sends what it read on main at some time: the snapshot of the version it names. */
  ghost predicate Honest(w: World, e: Entry) {
    e.version <= Version(w.main, e.id) && Carries(e) == At(w.history, e.id, e.version)
  }

  ghost predicate AllHonest(w: World, es: seq<Entry>) {
    forall e | e in es :: Honest(w, e)
  }

  /** Shard i has the session at this version or a newer one. */
  predicate Has(w: World, i: nat, id: string, version: nat)
    requires i < |w.shards|
  {
    VersionIn(w.shards[i].stamps, id) >= version
  }

  ghost predicate EveryShardHas(w: World, id: string, version: nat) {
    forall i | 0 <= i < |w.shards| :: Has(w, i, id, version)
  }

  ghost predicate Enabled(w: World, a: Action) {
    match a
    case Change(id, now) => forall r | r in now.stars :: r.id == id
    case Deliver(i, es, after) =>
      i < |w.shards| && WellFormed(es) && AllHonest(w, es) && Applied(w.shards[i], es, after)
    case Retired(pairs) => forall p | p in pairs :: EveryShardHas(w, p.0, p.1)
  }

  function Apply(w: World, a: Action): World
    requires a.Deliver? ==> a.shard < |w.shards|
  {
    match a
    case Change(id, now) => Touch(w, id, now)
    case Deliver(i, _, after) => w.(shards := w.shards[i := after])
    case Retired(pairs) => Retire(w, pairs)
  }

  // ---- The invariant ----

  /** A shard shows exactly what main showed at the version the shard records, which is no newer than main's. */
  ghost predicate CopyInv(w: World, i: nat, id: string)
    requires i < |w.shards|
  {
    && VersionIn(w.shards[i].stamps, id) <= Version(w.main, id)
    && Shows(w.shards[i], id) == At(w.history, id, VersionIn(w.shards[i].stamps, id))
    && PresenceInv(w.shards[i], id)
  }

  /** The recorded presence says whether the session row is there. */
  ghost predicate PresenceInv(shard: Shard, id: string) {
    id in shard.stamps ==> shard.stamps[id].version >= 1 && (shard.stamps[id].present <==> id in shard.sessions)
  }

  ghost predicate CopiesInv(w: World, id: string) {
    forall i | 0 <= i < |w.shards| :: CopyInv(w, i, id)
  }

  /** Main shows what it stamped; an unsettled newest version is still in the outbox. */
  ghost predicate MainInv(w: World, id: string) {
    && MainShows(w.main, id) == At(w.history, id, Version(w.main, id))
    && Version(w.main, id) <= w.main.lastSeq
    && (Version(w.main, id) > 0 && !Queued(w.main, id) ==> EveryShardHas(w, id, Version(w.main, id)))
  }

  /** The session's newest version has an outbox entry. */
  predicate Queued(m: Main, id: string) {
    Version(m, id) in m.outbox && m.outbox[Version(m, id)] == id
  }

  ghost predicate Records(w: World) {
    && (forall k | k in w.history :: 1 <= k.1 <= Version(w.main, k.0))
    && (forall q | q in w.main.outbox :: QueuedInv(w.main, q))
    && (forall id | id in w.main.versions :: w.main.versions[id] >= 1)
  }

  ghost predicate QueuedInv(m: Main, q: nat)
    requires q in m.outbox
  {
    1 <= q <= m.lastSeq && q <= Version(m, m.outbox[q])
  }

  ghost predicate SessionInv(w: World, id: string) { MainInv(w, id) && CopiesInv(w, id) }

  ghost predicate Inv(w: World) {
    Records(w) && forall id :: SessionInv(w, id)
  }

  // ---- How a world may move on ----

  /** What every step of every party guarantees, and hence what a running sync may rely on. */
  ghost predicate Later(w: World, w': World) {
    |w'.shards| == |w.shards| && OutboxGrows(w.main, w'.main) && forall id :: SessionLater(w, w', id)
  }

  /** Sequence numbers are never reused: old entries can only disappear. */
  ghost predicate OutboxGrows(m: Main, m': Main) {
    && m.lastSeq <= m'.lastSeq
    && forall q | q in m'.outbox && q <= m.lastSeq :: q in m.outbox && m'.outbox[q] == m.outbox[q]
  }

  ghost predicate SessionLater(w: World, w': World, id: string) {
    && Version(w.main, id) <= Version(w'.main, id)
    && HistoryKept(w, w', id)
    && OutboxLater(w.main, w'.main, id)
    && |w'.shards| == |w.shards|
    && forall i | 0 <= i < |w.shards| :: ShardLater(w.shards[i], w'.shards[i], id)
  }

  /** What main showed at a version never changes. */
  ghost predicate HistoryKept(w: World, w': World, id: string) {
    forall v: nat | v <= Version(w.main, id) :: At(w'.history, id, v) == At(w.history, id, v)
  }

  /** New outbox entries are newer than everything the session had. */
  ghost predicate OutboxLater(m: Main, m': Main, id: string) {
    forall q | q in m'.outbox && m'.outbox[q] == id :: (q in m.outbox && m.outbox[q] == id) || q > Version(m, id)
  }

  /** A shard's version never goes back, and its content only changes with the version. */
  ghost predicate ShardLater(s: Shard, s': Shard, id: string) {
    && VersionIn(s.stamps, id) <= VersionIn(s'.stamps, id)
    && (VersionIn(s.stamps, id) == VersionIn(s'.stamps, id) ==> Shows(s', id) == Shows(s, id))
  }

  // ---- Main's changes ----

  lemma TouchShows(w: World, id: string, now: Snapshot, o: string)
    requires forall r | r in now.stars :: r.id == id
    ensures MainShows(Touch(w, id, now).main, o) == if o == id then now else MainShows(w.main, o)
    ensures Version(Touch(w, id, now).main, o) == if o == id then w.main.lastSeq + 1 else Version(w.main, o)
  {
    var m' := Touch(w, id, now).main;
    if o == id {
      assert StarsIn(m'.stars, o) == now.stars;
    } else {
      assert StarsIn(m'.stars, o) == StarsIn(w.main.stars, o);
    }
  }

  lemma TouchHistory(w: World, id: string, now: Snapshot, o: string, v: nat)
    requires v <= w.main.lastSeq || o != id
    ensures At(Touch(w, id, now).history, o, v) == At(w.history, o, v)
  {
  }

  lemma TouchKeepsRecords(w: World, id: string, now: Snapshot)
    requires Records(w) && Version(w.main, id) <= w.main.lastSeq
    ensures Records(Touch(w, id, now))
  {
    var w' := Touch(w, id, now);
    forall k | k in w'.history ensures 1 <= k.1 <= Version(w'.main, k.0) {
      if k != (id, w.main.lastSeq + 1) { assert k in w.history; }
    }
    forall q | q in w'.main.outbox ensures QueuedInv(w'.main, q) {
      if q != w.main.lastSeq + 1 { assert QueuedInv(w.main, q); }
    }
  }

  lemma TouchKeepsSession(w: World, id: string, now: Snapshot, o: string)
    requires Records(w) && SessionInv(w, o) && forall r | r in now.stars :: r.id == id
    ensures SessionInv(Touch(w, id, now), o)
  {
    var w' := Touch(w, id, now);
    TouchShows(w, id, now, o);
    forall i | 0 <= i < |w'.shards| ensures CopyInv(w', i, o) {
      assert CopyInv(w, i, o);
      TouchHistory(w, id, now, o, VersionIn(w.shards[i].stamps, o));
    }
    if o != id {
      TouchHistory(w, id, now, o, Version(w.main, o));
      assert Queued(w'.main, o) <==> Queued(w.main, o);
      forall i | 0 <= i < |w'.shards| && !Queued(w.main, o) && Version(w.main, o) > 0
        ensures Has(w', i, o, Version(w.main, o))
      {
        assert Has(w, i, o, Version(w.main, o));
      }
    }
  }

  lemma TouchIsLater(w: World, id: string, now: Snapshot, o: string)
    requires Records(w) && SessionInv(w, o) && forall r | r in now.stars :: r.id == id
    ensures SessionLater(w, Touch(w, id, now), o)
  {
    var w' := Touch(w, id, now);
    TouchShows(w, id, now, o);
    forall v: nat | v <= Version(w.main, o) ensures At(w'.history, o, v) == At(w.history, o, v) {
      TouchHistory(w, id, now, o, v);
    }
  }

  // ---- Deliveries ----

  lemma DeliverKeepsCopy(w: World, i: nat, es: seq<Entry>, after: Shard, id: string)
    requires i < |w.shards| && CopyInv(w, i, id) && WellFormed(es) && AllHonest(w, es)
    requires Applied(w.shards[i], es, after)
    ensures CopyInv(w.(shards := w.shards[i := after]), i, id)
    ensures ShardLater(w.shards[i], after, id)
  {
    assert AppliedTo(w.shards[i], es, after, id);
    ForMember(es, id);
    var e := Accepted(w.shards[i].stamps, es, id);
    if e.Some? {
      assert Honest(w, e.value);
      assert Shows(after, id).row == e.value.session;
    }
    assert Shows(after, id).row.Some? <==> id in after.sessions;
    assert Shows(w.shards[i], id).row.Some? <==> id in w.shards[i].sessions;
  }

  lemma DeliverKeepsSession(w: World, i: nat, es: seq<Entry>, after: Shard, id: string)
    requires i < |w.shards| && SessionInv(w, id) && WellFormed(es) && AllHonest(w, es)
    requires Applied(w.shards[i], es, after)
    ensures SessionInv(w.(shards := w.shards[i := after]), id)
    ensures SessionLater(w, w.(shards := w.shards[i := after]), id)
  {
    var w' := w.(shards := w.shards[i := after]);
    DeliverKeepsCopy(w, i, es, after, id);
    forall j | 0 <= j < |w'.shards| ensures CopyInv(w', j, id) {
      assert CopyInv(w, j, id);
    }
    forall j | 0 <= j < |w'.shards| && EveryShardHas(w, id, Version(w.main, id))
      ensures Has(w', j, id, Version(w.main, id))
    {
      assert Has(w, j, id, Version(w.main, id));
    }
  }

  // ---- Retirement ----

  lemma RetireKeepsSession(w: World, pairs: seq<(string, nat)>, o: string)
    requires Records(w) && SessionInv(w, o) && forall p | p in pairs :: EveryShardHas(w, p.0, p.1)
    ensures SessionInv(Retire(w, pairs), o)
    ensures SessionLater(w, Retire(w, pairs), o)
  {
    var w' := Retire(w, pairs);
    forall i | 0 <= i < |w'.shards| ensures CopyInv(w', i, o) {
      assert CopyInv(w, i, o);
    }
    var v := Version(w.main, o);
    if v > 0 && !Queued(w'.main, o) {
      if Queued(w.main, o) {
        var k :| 0 <= k < |pairs| && pairs[k].0 == o && v <= pairs[k].1;
        assert pairs[k] in pairs;
        HasOlder(w, o, pairs[k].1, v);
      }
      forall i | 0 <= i < |w'.shards| ensures Has(w', i, o, v) {
        assert Has(w, i, o, v);
      }
    }
  }

  lemma HasOlder(w: World, id: string, newer: nat, older: nat)
    requires EveryShardHas(w, id, newer) && older <= newer
    ensures EveryShardHas(w, id, older)
  {
    forall i | 0 <= i < |w.shards| ensures Has(w, i, id, older) {
      assert Has(w, i, id, newer);
    }
  }

  // ---- Every step, every run ----

  /** Whatever main's writers and any number of syncs do, in any order. */
  lemma StepKeepsInv(w: World, a: Action)
    requires Inv(w) && Enabled(w, a)
    ensures Inv(Apply(w, a)) && Later(w, Apply(w, a))
  {
    match a
    case Change(id, now) =>
      assert SessionInv(w, id);
      TouchKeepsRecords(w, id, now);
      forall o ensures SessionInv(Touch(w, id, now), o) && SessionLater(w, Touch(w, id, now), o) {
        assert SessionInv(w, o);
        TouchKeepsSession(w, id, now, o);
        TouchIsLater(w, id, now, o);
      }
    case Deliver(i, es, after) =>
      var w' := Apply(w, a);
      forall o ensures SessionInv(w', o) && SessionLater(w, w', o) {
        assert SessionInv(w, o);
        DeliverKeepsSession(w, i, es, after, o);
      }
    case Retired(pairs) =>
      var w' := Apply(w, a);
      forall o ensures SessionInv(w', o) && SessionLater(w, w', o) {
        assert SessionInv(w, o);
        RetireKeepsSession(w, pairs, o);
      }
  }

  lemma LaterIsTransitive(a: World, b: World, c: World)
    requires Later(a, b) && Later(b, c)
    ensures Later(a, c)
  {
    forall id ensures SessionLater(a, c, id) {
      SessionLaterIsTransitive(a, b, c, id);
    }
  }

  lemma SessionLaterIsTransitive(a: World, b: World, c: World, id: string)
    requires SessionLater(a, b, id) && SessionLater(b, c, id)
    ensures SessionLater(a, c, id)
  {
    forall i | 0 <= i < |a.shards| ensures ShardLater(a.shards[i], c.shards[i], id) {
      assert ShardLater(a.shards[i], b.shards[i], id) && ShardLater(b.shards[i], c.shards[i], id);
    }
    forall v: nat | v <= Version(a.main, id) ensures At(c.history, id, v) == At(a.history, id, v) {
      assert At(b.history, id, v) == At(a.history, id, v);
    }
  }

  ghost predicate IsRun(states: seq<World>, actions: seq<Action>) {
    && |states| == |actions| + 1
    && forall k | 0 <= k < |actions| :: Linked(states[k], actions[k], states[k + 1])
  }

  ghost predicate Linked(w: World, a: Action, w': World) {
    Enabled(w, a) && w' == Apply(w, a)
  }

  /** Every world starts a run, and every step that is possible continues one. */
  lemma RunGoesOn(states: seq<World>, actions: seq<Action>, a: Action)
    ensures |states| == 1 && actions == [] ==> IsRun(states, actions)
    ensures IsRun(states, actions) && Enabled(states[|states| - 1], a) ==>
      IsRun(states + [Apply(states[|states| - 1], a)], actions + [a])
  {
    if IsRun(states, actions) && Enabled(states[|states| - 1], a) {
      var run, all := states + [Apply(states[|states| - 1], a)], actions + [a];
      forall k | 0 <= k < |all| ensures Linked(run[k], all[k], run[k + 1]) {
        if k < |actions| { assert Linked(states[k], actions[k], states[k + 1]); }
      }
    }
  }

  lemma LaterIsReflexive(w: World)
    ensures Later(w, w)
  {
  }

  /** Any run from a good state: every state is good, and later states never go back. */
  lemma {:induction false} RunKeepsInv(states: seq<World>, actions: seq<Action>, j: nat, k: nat)
    requires IsRun(states, actions) && Inv(states[0]) && j <= k < |states|
    ensures Inv(states[k]) && Later(states[j], states[k])
  {
    if k == 0 {
      LaterIsReflexive(states[0]);
    } else {
      RunKeepsInv(states, actions, if j < k then j else k - 1, k - 1);
      assert Linked(states[k - 1], actions[k - 1], states[k - 1 + 1]);
      StepKeepsInv(states[k - 1], actions[k - 1]);
      if j < k {
        LaterIsTransitive(states[j], states[k - 1], states[k]);
      } else {
        LaterIsReflexive(states[k]);
      }
    }
  }

  /** In every reachable state, a session whose newest version has no outbox entry shows on every shard
      exactly what main shows: its row and stars, or a tombstone. */
  lemma QuietMeansReplicated(states: seq<World>, actions: seq<Action>, k: nat, id: string, i: nat)
    requires IsRun(states, actions) && Inv(states[0]) && k < |states| && i < |states[k].shards|
    requires !Queued(states[k].main, id)
    ensures Shows(states[k].shards[i], id) == MainShows(states[k].main, id)
    ensures Version(states[k].main, id) > 0 ==>
              id in states[k].shards[i].stamps
              && (states[k].shards[i].stamps[id].present <==> id in states[k].main.sessions)
  {
    RunKeepsInv(states, actions, k, k);
    var w := states[k];
    assert SessionInv(w, id);
    assert CopyInv(w, i, id);
    if Version(w.main, id) > 0 { assert Has(w, i, id, Version(w.main, id)); }
    assert Shows(w.shards[i], id).row.Some? <==> id in w.shards[i].sessions;
    assert MainShows(w.main, id).row.Some? <==> id in w.main.sessions;
  }

  /** An empty outbox means every shard mirrors main for every session. */
  lemma EmptyOutboxMeansMirrored(states: seq<World>, actions: seq<Action>, k: nat, i: nat)
    requires IsRun(states, actions) && Inv(states[0]) && k < |states| && i < |states[k].shards|
    requires states[k].main.outbox == map[]
    ensures forall id :: Shows(states[k].shards[i], id) == MainShows(states[k].main, id)
  {
    forall id ensures Shows(states[k].shards[i], id) == MainShows(states[k].main, id) {
      QuietMeansReplicated(states, actions, k, id, i);
    }
  }

  /** Once a shard shows a session as main showed it at some version, no late or repeated sync changes
      that until main itself stamps a newer version: nothing old overwrites it, nothing deleted returns. */
  lemma NothingOldReturns(states: seq<World>, actions: seq<Action>, j: nat, k: nat, id: string, i: nat)
    requires IsRun(states, actions) && Inv(states[0]) && j <= k < |states| && i < |states[j].shards|
    requires VersionIn(states[j].shards[i].stamps, id) == Version(states[k].main, id)
    ensures i < |states[k].shards|
    ensures Shows(states[k].shards[i], id) == Shows(states[j].shards[i], id) == MainShows(states[k].main, id)
  {
    RunKeepsInv(states, actions, j, k);
    assert SessionInv(states[k], id) && SessionLater(states[j], states[k], id);
    assert CopyInv(states[k], i, id);
    assert ShardLater(states[j].shards[i], states[k].shards[i], id);
  }

  /** Shards start empty; the migration that creates the outbox queues every session and star once. */
  ghost predicate Seeded(w: World) {
    && Records(w)
    && (forall i | 0 <= i < |w.shards| :: w.shards[i] == Shard(map[], map[], {}))
    && (forall id ::
          MainShows(w.main, id) == At(w.history, id, Version(w.main, id)) && Version(w.main, id) <= w.main.lastSeq)
    && (forall id :: Version(w.main, id) > 0 ==> Queued(w.main, id))
  }

  lemma SeedIsGood(w: World)
    requires Seeded(w)
    ensures Inv(w)
  {
    forall id ensures SessionInv(w, id) {
      forall i | 0 <= i < |w.shards| ensures CopyInv(w, i, id) {
        assert w.shards[i] == Shard(map[], map[], {});
        assert (id, 0) !in w.history;
        assert StarsIn({}, id) == {};
      }
    }
  }
}
