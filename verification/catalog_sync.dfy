/** Pushing catalog state to every shard within a call allowance, beside any number of other writers and syncs. */
module CatalogSync {
  import opened Wrappers
  import opened Sorting
  import opened CatalogShard
  import opened CatalogProtocol
  import opened CatalogRead

  const SYNC_CHUNK: nat := 64
  const BULK_ENTRY_BYTES: nat := 64 * 1024

  datatype DrainState = Current | Pending

  datatype SyncResult = SyncResult(state: DrainState, subrequests: nat, synced: nat)

  // ---- What stays true while others run ----

  ghost predicate Drained(m: Main, id: string, version: nat) {
    forall q | q in m.outbox && m.outbox[q] == id :: q > version
  }

  /** Every shard has the version and no outbox entry up to it is left. */
  ghost predicate Reached(w: World, id: string, version: nat) {
    EveryShardHas(w, id, version) && Drained(w.main, id, version)
  }

  lemma HasIsStable(w: World, w': World, id: string, version: nat)
    requires Later(w, w') && EveryShardHas(w, id, version)
    ensures EveryShardHas(w', id, version)
  {
    assert SessionLater(w, w', id);
    forall i | 0 <= i < |w'.shards| ensures Has(w', i, id, version) {
      assert Has(w, i, id, version) && ShardLater(w.shards[i], w'.shards[i], id);
    }
  }

  lemma HonestIsStable(w: World, w': World, es: seq<Entry>)
    requires Later(w, w') && AllHonest(w, es)
    ensures AllHonest(w', es)
  {
    forall e | e in es ensures Honest(w', e) {
      assert Honest(w, e) && SessionLater(w, w', e.id);
    }
  }

  lemma ReachedIsStable(w: World, w': World, id: string, version: nat)
    requires Later(w, w') && Reached(w, id, version) && version <= Version(w.main, id)
    ensures Reached(w', id, version)
  {
    HasIsStable(w, w', id, version);
    assert SessionLater(w, w', id);
  }

  lemma ReachedOlder(w: World, id: string, newer: nat, older: nat)
    requires Reached(w, id, newer) && older <= newer
    ensures Reached(w, id, older)
  {
    HasOlder(w, id, newer, older);
  }

  lemma NeverChanged(w: World, id: string)
    requires Inv(w)
    ensures Reached(w, id, 0)
  {
  }

  /** What a round knows of the sessions it pushed: the version it read, and that every shard has it. */
  ghost predicate Delivered(w0: World, w: World, covered: seq<string>, versions: map<string, nat>) {
    forall id | id in covered :: DeliveredAt(w0, w, id, versions)
  }

  ghost predicate DeliveredAt(w0: World, w: World, id: string, versions: map<string, nat>) {
    && id in versions && Version(w0.main, id) <= versions[id] <= Version(w.main, id)
    && EveryShardHas(w, id, versions[id])
  }

  lemma DeliveredIsStable(w0: World, w: World, w': World, covered: seq<string>, versions: map<string, nat>)
    requires Later(w, w') && Delivered(w0, w, covered, versions)
    ensures Delivered(w0, w', covered, versions)
  {
    forall id | id in covered ensures DeliveredAt(w0, w', id, versions) {
      assert DeliveredAt(w0, w, id, versions) && SessionLater(w, w', id);
      HasIsStable(w, w', id, versions[id]);
    }
  }

  /** The shard holds every entry of the batch, or something newer. */
  ghost predicate ShardHasAll(w: World, i: nat, es: seq<Entry>)
    requires i < |w.shards|
  {
    forall e | e in es :: Has(w, i, e.id, e.version)
  }

  lemma ShardHasAllIsStable(w: World, w': World, i: nat, es: seq<Entry>)
    requires Later(w, w') && i < |w.shards| && ShardHasAll(w, i, es)
    ensures i < |w'.shards| && ShardHasAll(w', i, es)
  {
    forall e | e in es ensures Has(w', i, e.id, e.version) {
      assert Has(w, i, e.id, e.version) && SessionLater(w, w', e.id) && ShardLater(w.shards[i], w'.shards[i], e.id);
    }
  }

  lemma AppliedHasAll(w: World, i: nat, es: seq<Entry>, after: Shard)
    requires i < |w.shards| && WellFormed(es) && Applied(w.shards[i], es, after)
    ensures ShardHasAll(w.(shards := w.shards[i := after]), i, es)
  {
    var w' := w.(shards := w.shards[i := after]);
    forall e | e in es ensures Has(w', i, e.id, e.version) {
      assert AppliedTo(w.shards[i], es, after, e.id);
      ForFinds(es, e);
    }
  }

  function Indices(n: nat): (r: set<nat>)
    ensures forall i: nat :: i in r <==> i < n
  {
    if n == 0 then {} else Indices(n - 1) + {n - 1}
  }

  /** new Map(entries.map(id, version)). */
  function VersionsOf(es: seq<Entry>): map<string, nat> {
    MapOf(seq(|es|, i requires 0 <= i < |es| => (es[i].id, es[i].version)))
  }

  lemma {:induction false} VersionsOfEntry(es: seq<Entry>, e: Entry)
    requires DistinctIds(es) && e in es
    ensures e.id in VersionsOf(es) && VersionsOf(es)[e.id] == e.version
  {
    var init, last := es[..|es| - 1], es[|es| - 1];
    var rows := seq(|es|, i requires 0 <= i < |es| => (es[i].id, es[i].version));
    assert rows[..|rows| - 1] == seq(|init|, i requires 0 <= i < |init| => (init[i].id, init[i].version));
    if e != last {
      var k :| 0 <= k < |es| && es[k] == e;
      assert init[k] == e;
      assert es[k].id != es[|es| - 1].id;
      VersionsOfEntry(init, e);
    }
  }

  /** The calls made are those reported, stay within the limit even when one throws, and only an allowance too small
      for another step ends the work early. */
  ghost predicate Spent(calls0: nat, calls: nat, spent: nat, subrequests: nat, limit: int, max: int,
                        thrown: bool, exhausted: bool, shardCount: nat) {
    && calls0 <= calls && calls + spent <= calls0 + limit
    && (!thrown ==> spent <= subrequests <= limit && calls == calls0 + (subrequests - spent))
    && (!thrown && exhausted ==> subrequests + shardCount + 2 > max)
  }

  class Hub {
    var main: Main
    var shards: seq<Shard>
    ghost var history: History
    /** The database calls made by the sync at work. */
    ghost var calls: nat

    ghost function W(): World
      reads this
    {
      World(main, shards, history)
    }

    ghost predicate Valid()
      reads this
    {
      Inv(W())
    }

    /** A new hub: nothing on main, empty shards. */
    constructor (shardCount: nat)
      ensures Valid() && main == Main(map[], {}, map[], map[], 0) && |shards| == shardCount
    {
      main := Main(map[], {}, map[], map[], 0);
      shards := seq(shardCount, _ => Shard(map[], map[], {}));
      history := map[];
      calls := 0;
      new;
      SeedIsGood(W());
    }

    /** The trigger bodies: append to the outbox, then stamp the version with the newest sequence number. */
    method ChangeSession(id: string, now: Snapshot)
      requires Valid() && forall r | r in now.stars :: r.id == id
      modifies this
      ensures Valid() && W() == Touch(old(W()), id, now) && Later(old(W()), W()) && calls == old(calls)
    {
      ghost var w := W();
      StepKeepsInv(w, Change(id, now));
      main := main.(sessions := if now.row.Some? then main.sessions[id := now.row.value] else main.sessions - {id},
                    stars := (set r | r in main.stars && r.id != id) + now.stars);
      var seq' := main.lastSeq + 1;
      main := main.(outbox := main.outbox[seq' := id], lastSeq := seq');
      if id in main.versions {
        main := main.(versions := main.versions[id := seq']);
      }
      if id !in main.versions {
        main := main.(versions := main.versions[id := seq']);
      }
      history := history[(id, seq') := now];
    }

    /** Any number of steps of other writers and syncs. Each of them is a protocol step, so by
        StepKeepsInv and LaterIsTransitive this is all that can be relied on. */
    method Interleave()
      requires Valid()
      modifies this
      ensures Valid() && Later(old(W()), W()) && calls == old(calls)
    {
      LaterIsReflexive(W());
    }

    /** Whether a call fails, or its answer is lost. */
    method CallThrows() returns (thrown: bool)
    {
      thrown := false;
    }

    /** One consistent snapshot of the small sessions among the ids, plus the ids of the large ones. */
    method ReadBulk(ids: seq<string>, bytes: Snapshot -> nat)
      returns (thrown: bool, entries: seq<Entry>, large: seq<string>)
      requires Valid() && Distinct(ids)
      modifies this
      ensures Valid() && Later(old(W()), W()) && calls == old(calls) + 1
      ensures !thrown ==> WellFormed(entries) && AllHonest(W(), entries)
      ensures !thrown ==> EntriesOfMain(main, SmallIds(main, ids, bytes), entries)
      ensures !thrown ==> large == LargeIds(main, ids, bytes)
    {
      entries, large := [], [];
      Interleave();
      calls := calls + 1;
      thrown := CallThrows();
      if thrown { return; }
      var small := SmallIds(main, ids, bytes);
      large := LargeIds(main, ids, bytes);
      SplitIsDistinct(main, ids, bytes);
      var stars := SelectStars(main, small);
      var list := CatalogEntries(small, SelectVersions(main, small), SelectSessions(main, small), stars);
      SnapshotIsHonest(W(), small, stars);
      entries := list.value;
      FromMainIsHonest(W(), small, entries);
    }

    /** One consistent snapshot of a single session. */
    method ReadOne(id: string) returns (thrown: bool, entry: Option<Entry>)
      requires Valid()
      modifies this
      ensures Valid() && Later(old(W()), W()) && calls == old(calls) + 1
      ensures !thrown && entry.None? ==> Version(main, id) == 0
      ensures !thrown && entry.Some? ==> WellFormed([entry.value]) && AllHonest(W(), [entry.value])
      ensures !thrown && entry.Some? ==> entry.value.id == id && entry.value.version == Version(main, id)
    {
      entry := None;
      Interleave();
      calls := calls + 1;
      thrown := CallThrows();
      if thrown { return; }
      var stars := SelectStars(main, [id]);
      var list := CatalogEntries([id], SelectVersions(main, [id]), SelectSessions(main, [id]), stars);
      SnapshotIsHonest(W(), [id], stars);
      var es := list.value;
      FromMainIsHonest(W(), [id], es);
      if es != [] {
        entry := Some(es[0]);
        assert FromMain(main, [id], es[0]);
      }
    }

    /** One atomic batch on one shard. A failed call may still have been applied. */
    method RunOnShard(i: nat, batch: Batch) returns (thrown: bool)
      requires Valid() && i < |shards| && WellFormed(batch.Entries()) && AllHonest(W(), batch.Entries())
      modifies this
      ensures Valid() && Later(old(W()), W()) && calls == old(calls)
      ensures !thrown ==> i < |shards| && ShardHasAll(W(), i, batch.Entries())
    {
      ghost var w0 := W();
      Interleave();
      ghost var w := W();
      HonestIsStable(w0, w, batch.Entries());
      thrown := CallThrows();
      var lost := CallThrows();
      if thrown && !lost { return; }
      var after;
      match batch {
        case Payload(es) => after := ApplyPayload(shards[i], es);
        case Single(e) => after := ApplySingle(shards[i], e);
      }
      StepKeepsInv(w, Deliver(i, batch.Entries(), after));
      AppliedHasAll(w, i, batch.Entries(), after);
      shards := shards[i := after];
      LaterIsTransitive(w0, w, W());
    }

    /** The batch on every shard, in any order. When one call fails, those already sent may still arrive
        later, as steps of somebody else. */
    method ApplyBatch(batch: Batch) returns (thrown: bool)
      requires Valid() && WellFormed(batch.Entries()) && AllHonest(W(), batch.Entries())
      modifies this
      ensures Valid() && Later(old(W()), W()) && calls == old(calls) + old(|shards|)
      ensures !thrown ==> forall e | e in batch.Entries() :: EveryShardHas(W(), e.id, e.version)
    {
      ghost var w0 := W();
      var todo: set<nat> := Indices(|shards|);
      calls := calls + |shards|;
      thrown := false;
      LaterIsReflexive(w0);
      while todo != {}
        invariant Valid() && Later(w0, W()) && calls == old(calls) + old(|shards|)
        invariant todo <= Indices(|shards|)
        invariant forall i: nat | i < |shards| && i !in todo :: ShardHasAll(W(), i, batch.Entries())
        decreases |todo|
      {
        var i: nat :| i in todo;
        ghost var w := W();
        HonestIsStable(w0, w, batch.Entries());
        thrown := RunOnShard(i, batch);
        LaterIsTransitive(w0, w, W());
        if thrown { return; }
        todo := todo - {i};
        forall j: nat | j < |shards| && j !in todo ensures ShardHasAll(W(), j, batch.Entries()) {
          if j != i { ShardHasAllIsStable(w, W(), j, batch.Entries()); }
        }
      }
      forall e | e in batch.Entries() ensures EveryShardHas(W(), e.id, e.version) {
        forall i | 0 <= i < |shards| ensures Has(W(), i, e.id, e.version) {
          assert ShardHasAll(W(), i, batch.Entries());
        }
      }
    }

    /** The retirement statement: outbox entries the synced versions cover. */
    method RetireCovered(covered: seq<string>, versions: map<string, nat>, ghost w0: World) returns (thrown: bool)
      requires Valid() && Delivered(w0, W(), covered, versions)
      modifies this
      ensures Valid() && Later(old(W()), W()) && calls == old(calls) + 1
      ensures !thrown ==> forall id | id in covered :: id in versions && Reached(W(), id, versions[id])
    {
      ghost var wOld := W();
      Interleave();
      calls := calls + 1;
      ghost var w := W();
      DeliveredIsStable(w0, wOld, w, covered, versions);
      thrown := CallThrows();
      var lost := CallThrows();
      if thrown && !lost { return; }
      forall id | id in covered ensures id in versions && EveryShardHas(w, id, versions[id]) {
        assert DeliveredAt(w0, w, id, versions);
      }
      var pairs := seq(|covered|, i requires 0 <= i < |covered| => (covered[i], versions[covered[i]]));
      StepKeepsInv(w, Retired(pairs));
      main := main.(outbox := map q | q in main.outbox && !Covers(pairs, main.outbox[q], q) :: main.outbox[q]);
      LaterIsTransitive(wOld, w, W());
      forall id | id in covered ensures Reached(W(), id, versions[id]) {
        RetiredIsReached(w, pairs, covered, versions, id);
      }
    }

    /** The small sessions' batches, while the allowance lasts. `w0` is main as the round began. */
    method PushBatches(batches: seq<Batch>, entries: seq<Entry>, versions: map<string, nat>, spent: nat, max: int,
                       ghost w0: World)
      returns (thrown: bool, exhausted: bool, subrequests: nat, covered: seq<string>)
      requires Valid() && Later(w0, W()) && spent + 1 <= max
      requires Packed(batches, entries) && DistinctIds(entries)
      requires AllHonest(W(), entries) && Stamped(w0, entries, versions)
      modifies this
      ensures Valid() && Later(old(W()), W()) && |shards| == old(|shards|)
      ensures Spent(old(calls), calls, spent, subrequests, max - 1, max, thrown, exhausted, |shards|)
      ensures !thrown ==> Delivered(w0, W(), covered, versions) && Distinct(covered) && FromEntries(covered, entries)
      ensures !thrown && !exhausted ==> forall e | e in entries :: e.id in covered
    {
      thrown, exhausted, subrequests, covered := false, false, spent, [];
      ghost var w := W();
      LaterIsReflexive(w);
      for k := 0 to |batches|
        invariant Valid() && Later(w, W()) && |shards| == old(|shards|)
        invariant spent <= subrequests && subrequests + 1 <= max && calls == old(calls) + (subrequests - spent)
        invariant Pushing(w0, W(), batches, entries, versions, covered, k)
        invariant !thrown && !exhausted
      {
        if subrequests + |shards| + 1 > max {
          exhausted := true;
          PushedSome(w0, W(), batches, entries, versions, covered, k);
          return;
        }
        ghost var before := W();
        thrown, covered := PushOne(batches, k, entries, versions, covered, w0);
        LaterIsTransitive(w, before, W());
        if thrown { return; }
        subrequests := subrequests + |shards|;
      }
      PushedSome(w0, W(), batches, entries, versions, covered, |batches|);
      PushedAll(w0, W(), batches, entries, versions, covered);
    }

    method PushOne(batches: seq<Batch>, k: nat, entries: seq<Entry>, versions: map<string, nat>, covered0: seq<string>,
                   ghost w0: World) returns (thrown: bool, covered: seq<string>)
      requires Valid() && k < |batches| && Packed(batches, entries) && Stamped(w0, entries, versions)
      requires Pushing(w0, W(), batches, entries, versions, covered0, k)
      modifies this
      ensures Valid() && Later(old(W()), W()) && |shards| == old(|shards|) && calls == old(calls) + |shards|
      ensures !thrown ==> Pushing(w0, W(), batches, entries, versions, covered, k + 1)
    {
      covered := covered0;
      var batch := batches[k];
      ghost var before := W();
      BatchIsPart(batches, entries, k);
      thrown := ApplyBatch(batch);
      if thrown { return; }
      covered := covered + IdsOf(batch.Entries());
      PushedOne(w0, before, W(), batches, entries, versions, covered0, k);
    }

    /** The large sessions, each read and pushed alone, while the allowance lasts. */
    method PushLarge(large: seq<string>, size: Entry -> nat, covered0: seq<string>, versions0: map<string, nat>,
                     exhausted0: bool, spent: nat, max: int, ghost w0: World)
      returns (thrown: bool, exhausted: bool, subrequests: nat, covered: seq<string>, versions: map<string, nat>)
      requires Valid() && Later(w0, W()) && spent + 1 <= max
      requires Delivered(w0, W(), covered0, versions0) && Distinct(covered0 + large)
      modifies this
      ensures Valid() && Later(old(W()), W()) && |shards| == old(|shards|)
      ensures Spent(old(calls), calls, spent, subrequests, max - 1, max, thrown, exhausted && !exhausted0, |shards|)
      ensures exhausted0 && !thrown ==> exhausted && subrequests == spent
      ensures !thrown ==> exists k :: PushingLarge(w0, W(), covered0, large, covered, versions, k)
      ensures !thrown && !exhausted ==>
        !exhausted0 && PushingLarge(w0, W(), covered0, large, covered, versions, |large|)
    {
      thrown, exhausted, subrequests, covered, versions := false, exhausted0, spent, covered0, versions0;
      ghost var w := W();
      LaterIsReflexive(w);
      assert Distinct(covered0) by { assert covered0 == (covered0 + large)[..|covered0|]; }
      for k := 0 to |large|
        invariant Valid() && Later(w, W()) && |shards| == old(|shards|)
        invariant spent <= subrequests && subrequests + 1 <= max && calls == old(calls) + (subrequests - spent)
        invariant exhausted0 ==> subrequests == spent
        invariant PushingLarge(w0, W(), covered0, large, covered, versions, k)
        invariant !thrown && exhausted == exhausted0
      {
        if exhausted || subrequests + 1 + |shards| + 1 > max {
          exhausted := true;
          return;
        }
        ghost var before := W();
        LaterIsTransitive(w0, w, before);
        var found;
        thrown, found, covered, versions := PushLargeOne(large, k, size, covered0, covered, versions, w0);
        LaterIsTransitive(w, before, W());
        if thrown { return; }
        subrequests := subrequests + 1 + if found then |shards| else 0;
      }
    }

    method PushLargeOne(large: seq<string>, k: nat, size: Entry -> nat, ghost covered0: seq<string>,
                        coveredSoFar: seq<string>,
                        versionsSoFar: map<string, nat>, ghost w0: World)
      returns (thrown: bool, found: bool, covered: seq<string>, versions: map<string, nat>)
      requires Valid() && Later(w0, W()) && k < |large| && Distinct(covered0 + large)
      requires PushingLarge(w0, W(), covered0, large, coveredSoFar, versionsSoFar, k)
      modifies this
      ensures Valid() && Later(old(W()), W()) && |shards| == old(|shards|)
      ensures old(calls) <= calls <= old(calls) + 1 + |shards|
      ensures (!thrown ==> calls == old(calls) + 1 + if found then |shards| else 0)
      ensures !thrown ==> PushingLarge(w0, W(), covered0, large, covered, versions, k + 1)
    {
      covered, versions, found := coveredSoFar, versionsSoFar, false;
      ghost var w1 := W();
      var entry;
      thrown, entry := ReadOne(large[k]);
      if thrown { return; }
      ghost var w2 := W();
      LaterIsTransitive(w0, w1, w2);
      assert SessionLater(w0, w2, large[k]);
      if entry.None? {
        DeliveredIsStable(w0, w1, w2, covered, versions);
        return;
      }
      found := true;
      versions := versions[large[k] := entry.value.version];
      var batches := PackBatches([entry.value], size);
      OneEntryOneBatch(entry.value, batches, size);
      thrown := ApplyBatch(batches[0]);
      LaterIsTransitive(w1, w2, W());
      if thrown { return; }
      covered := covered + [large[k]];
      assert SessionLater(w2, W(), large[k]);
      PushedLargeOne(w0, w1, W(), covered0, large, coveredSoFar, versionsSoFar, k, entry.value);
    }

    /** The first half of a round: read a chunk, push its batches and its large sessions. */
    method PushRound(ids: seq<string>, bytes: Snapshot -> nat, size: Entry -> nat, spent: nat, max: int)
      returns (thrown: bool, exhausted: bool, subrequests: nat, covered: seq<string>, versions: map<string, nat>)
      requires Valid() && Distinct(ids) && spent + 1 + |shards| + 1 <= max
      modifies this
      ensures Valid() && Later(old(W()), W()) && |shards| == old(|shards|)
      ensures Spent(old(calls), calls, spent, subrequests, max - 1, max, thrown, exhausted, |shards|)
      ensures !thrown ==> spent < subrequests
      ensures !thrown ==> Delivered(old(W()), W(), covered, versions) && Distinct(covered)
      ensures !thrown ==> forall id | id in covered :: id in ids
      ensures !thrown && !exhausted ==> forall id | id in ids :: Version(old(main), id) == 0 || id in covered
    {
      ghost var w0 := W();
      exhausted, subrequests, covered, versions := false, spent, [], map[];
      var entries, large;
      thrown, entries, large := ReadBulk(ids, bytes);
      if thrown { return; }
      subrequests := subrequests + 1;
      ghost var w1 := W();
      ghost var small := SmallIds(main, ids, bytes);
      SplitIsDistinct(main, ids, bytes);
      versions := VersionsOf(entries);
      EntriesStamped(w0, w1, small, entries, versions);
      var batches := PackBatches(entries, size);
      thrown, exhausted, subrequests, covered := PushBatches(batches, entries, versions, subrequests, max, w0);
      LaterIsTransitive(w0, w1, W());
      if thrown { return; }
      ghost var covered0, w2 := covered, W();
      SmallBeforeLarge(w1.main, small, large, entries, covered);
      thrown, exhausted, subrequests, covered, versions :=
        PushLarge(large, size, covered, versions, exhausted, subrequests, max, w0);
      LaterIsTransitive(w0, w2, W());
      if thrown { return; }
      ghost var k :| PushingLarge(w0, W(), covered0, large, covered, versions, k);
      RoundCovers(w0, w1, W(), small, large, entries, covered0, covered, versions, k, exhausted);
    }

    /** One round: push a chunk, then retire what every shard accepted. */
    method SyncRound(ids: seq<string>, bytes: Snapshot -> nat, size: Entry -> nat, spent: nat, max: int)
      returns (thrown: bool, exhausted: bool, subrequests: nat, covered: seq<string>)
      requires Valid() && Distinct(ids) && spent + 1 + |shards| + 1 <= max
      modifies this
      ensures Valid() && Later(old(W()), W()) && |shards| == old(|shards|)
      ensures Spent(old(calls), calls, spent, subrequests, max, max, thrown, exhausted, |shards|)
      ensures (!thrown ==> spent < subrequests)
      ensures !thrown ==>
        Distinct(covered) && AllReached(W(), covered, old(main)) && forall id | id in covered :: id in ids
      ensures !thrown && !exhausted ==> AllReached(W(), ids, old(main))
    {
      ghost var w0 := W();
      var versions;
      thrown, exhausted, subrequests, covered, versions := PushRound(ids, bytes, size, spent, max);
      if thrown { return; }
      ghost var w := W();
      if |covered| > 0 {
        thrown := RetireCovered(covered, versions, w0);
        LaterIsTransitive(w0, w, W());
        if thrown { return; }
        subrequests := subrequests + 1;
      }
      RoundReaches(w0, w, W(), ids, covered, versions, exhausted);
    }

    /** Pushes main's present state of the sessions to all shards, spending at most the allowance.
        `done` names the sessions counted as synced. */
    method SyncSessionCatalog(sessionIds: seq<string>, bytes: Snapshot -> nat, size: Entry -> nat, max: int)
      returns (thrown: bool, result: SyncResult, ghost done: seq<string>)
      requires Valid()
      modifies this
      ensures Valid() && Later(old(W()), W()) && |shards| == old(|shards|)
      ensures calls <= old(calls) + (if max > 0 then max else 0)
      ensures !thrown ==> calls == old(calls) + result.subrequests
      ensures !thrown && result.state.Pending? ==> result.subrequests + |shards| + 2 > max
      ensures !thrown && result.state.Current? ==> AllReached(W(), sessionIds, old(main))
      ensures !thrown && result.state.Current? && sessionIds != [] ==> 1 <= result.subrequests <= max
      ensures !thrown ==> result.synced == |done| && Synced(old(W()), W(), done, sessionIds)
    {
      var unique := Unique(sessionIds);
      UniqueIsDistinct(sessionIds);
      ghost var w0 := W();
      var subrequests: nat, synced: nat, start: nat := 0, 0, 0;
      thrown, done := false, [];
      LaterIsReflexive(w0);
      while start < |unique|
        invariant 0 <= start
        invariant Valid() && |shards| == old(|shards|)
        invariant SyncingAt(w0, W(), unique, if start < |unique| then start else |unique|, done)
        invariant !thrown && synced == |done| && (subrequests <= max || subrequests == 0)
        invariant calls == old(calls) + subrequests
        invariant start > 0 ==> 1 <= subrequests
        decreases |unique| - start
      {
        if subrequests + 1 + |shards| + 1 > max {
          result := SyncResult(Pending, subrequests, synced);
          SyncedSoFar(w0, W(), unique, start, done, sessionIds);
          return;
        }
        var end := if start + SYNC_CHUNK < |unique| then start + SYNC_CHUNK else |unique|;
        ghost var w := W();
        var exhausted, covered;
        ChunkIsDistinct(unique, start, end);
        thrown, exhausted, subrequests, covered := SyncRound(unique[start..end], bytes, size, subrequests, max);
        LaterIsTransitive(w0, w, W());
        if thrown {
          result := SyncResult(Pending, subrequests, synced);
          return;
        }
        RoundSynced(w0, w, W(), unique, start, end, done, covered, exhausted);
        synced := synced + |covered|;
        done := done + covered;
        if exhausted {
          result := SyncResult(Pending, subrequests, synced);
          SyncedSoFar(w0, W(), unique, end, done, sessionIds);
          return;
        }
        start := start + SYNC_CHUNK;
      }
      SyncedSoFar(w0, W(), unique, |unique|, done, sessionIds);
      AllSynced(w0, W(), unique, done, sessionIds);
      result := SyncResult(Current, subrequests, synced);
    }

    /** SELECT session_id FROM session_catalog_outbox ORDER BY seq LIMIT: the oldest entries. */
    method OldestEntries(limit: nat) returns (captured: seq<string>, ghost seqs: seq<nat>)
      ensures OldestOf(main.outbox, seqs) && |seqs| == if limit < |main.outbox| then limit else |main.outbox|
      ensures |captured| == |seqs| && forall k | 0 <= k < |seqs| :: captured[k] == main.outbox[seqs[k]]
    {
      captured, seqs := [], [];
      var rest := main.outbox.Keys;
      while |captured| < limit && rest != {}
        invariant |seqs| <= limit && |rest| + |seqs| == |main.outbox|
        invariant Capturing(main.outbox, captured, seqs, rest)
      {
        var q := Least(rest);
        NextCaptured(main.outbox, captured, seqs, rest, q);
        captured, seqs, rest := captured + [main.outbox[q]], seqs + [q], rest - {q};
      }
    }

    /** Syncs the sessions of the oldest outbox entries. `seqs` names the captured entries. */
    method DrainIndexCatalog(limit: int, bytes: Snapshot -> nat, size: Entry -> nat, max: int)
      returns (outcome: Drain, ghost seqs: seq<nat>)
      requires Valid()
      modifies this
      ensures Valid() && Later(old(W()), W())
      ensures outcome.RangeError? <==> limit < 1
      ensures calls <= old(calls) + (if max > 1 then max else 1)
      ensures outcome.Done? ==> calls == old(calls) + outcome.result.subrequests
      ensures outcome.Done? ==> (outcome.result.subrequests <= max <==> max >= 1)
      ensures outcome.Done? && outcome.result.state.Current? ==> main.outbox == map[]
      ensures outcome.Done? && outcome.drained ==> forall q | q in seqs :: q !in main.outbox
    {
      seqs := [];
      LaterIsReflexive(W());
      if limit < 1 { return RangeError, seqs; }
      ghost var w0 := W();
      Interleave();
      calls := calls + 1;
      var thrown := CallThrows();
      if thrown { return Thrown, seqs; }
      ghost var w := W();
      var captured;
      captured, seqs := OldestEntries(limit);
      if |captured| == 0 {
        assert |main.outbox| == 0;
        return Done(SyncResult(Current, 1, 0), true), seqs;
      }
      CapturedAreStamped(w, seqs);
      var sync;
      ghost var done;
      thrown, sync, done := SyncSessionCatalog(captured, bytes, size, max - 2);
      LaterIsTransitive(w0, w, W());
      if thrown { return Thrown, seqs; }
      if sync.state.Pending? { return Done(sync.(subrequests := sync.subrequests + 1), false), seqs; }
      ghost var w' := W();
      CapturedAreRetired(w, w', captured, seqs);
      Interleave();
      LaterIsTransitive(w0, w', W());
      RetiredForGood(w, w', W(), seqs);
      calls := calls + 1;
      thrown := CallThrows();
      if thrown { return Thrown, seqs; }
      var pending := main.outbox != map[];
      outcome := Done(SyncResult(if pending then Pending else Current, sync.subrequests + 2, sync.synced), true);
    }
  }

  /** How a drain ends; `drained` says that its sync covered everything it captured. */
  datatype Drain = RangeError | Thrown | Done(result: SyncResult, drained: bool)

  /** The smallest sequence numbers of the outbox, in order. */
  ghost predicate OldestOf(outbox: map<nat, string>, seqs: seq<nat>) {
    && (forall i, j | 0 <= i < j < |seqs| :: seqs[i] < seqs[j])
    && (forall q | q in seqs :: q in outbox)
    && (forall q, r | q in seqs && r in outbox && r !in seqs :: q < r)
  }

  /** The captured entries are the oldest, and `rest` are all others. */
  ghost predicate Capturing(outbox: map<nat, string>, captured: seq<string>, seqs: seq<nat>, rest: set<nat>) {
    && OldestOf(outbox, seqs) && rest == outbox.Keys - (set q | q in seqs)
    && |captured| == |seqs| && forall k | 0 <= k < |seqs| :: captured[k] == outbox[seqs[k]]
  }

  lemma NextCaptured(outbox: map<nat, string>, captured: seq<string>, seqs: seq<nat>, rest: set<nat>, q: nat)
    requires Capturing(outbox, captured, seqs, rest) && q in rest && forall r | r in rest :: q <= r
    ensures Capturing(outbox, captured + [outbox[q]], seqs + [q], rest - {q})
  {
    NextOldest(outbox, seqs, rest, q);
  }

  method Least(s: set<nat>) returns (q: nat)
    requires s != {}
    ensures q in s && forall r | r in s :: q <= r
  {
    q :| q in s;
    var rest := s - {q};
    while rest != {}
      invariant q in s && rest <= s && forall r | r in s && r !in rest :: q <= r
      decreases |rest|
    {
      var r: nat :| r in rest;
      if r < q { q := r; }
      rest := rest - {r};
    }
  }

  lemma NextOldest(outbox: map<nat, string>, seqs: seq<nat>, rest: set<nat>, q: nat)
    requires OldestOf(outbox, seqs) && rest == outbox.Keys - set r | r in seqs
    requires q in rest && forall r | r in rest :: q <= r
    ensures OldestOf(outbox, seqs + [q])
    ensures rest - {q} == outbox.Keys - set r | r in seqs + [q]
  {
    forall i | 0 <= i < |seqs| ensures seqs[i] < q {
      assert seqs[i] in seqs;
    }
    forall p, r | p in seqs + [q] && r in outbox && r !in seqs + [q] ensures p < r {
      assert r in rest && (p in seqs || p == q);
    }
    assert (set r | r in seqs + [q]) == (set r | r in seqs) + {q};
  }

  lemma CapturedAreStamped(w: World, seqs: seq<nat>)
    requires Inv(w) && forall q | q in seqs :: q in w.main.outbox
    ensures forall q | q in seqs :: q in w.main.outbox && q <= Version(w.main, w.main.outbox[q]) && q <= w.main.lastSeq
  {
  }

  /** Syncing a captured entry's session retires the entry: the version read covers its sequence number. */
  lemma CapturedAreRetired(w: World, w': World, captured: seq<string>, seqs: seq<nat>)
    requires Later(w, w') && AllReached(w', captured, w.main) && |captured| == |seqs|
    requires forall q | q in seqs :: q in w.main.outbox && q <= Version(w.main, w.main.outbox[q]) && q <= w.main.lastSeq
    requires forall k | 0 <= k < |seqs| :: captured[k] == w.main.outbox[seqs[k]]
    ensures forall q | q in seqs :: q !in w'.main.outbox
  {
    forall q | q in seqs ensures q !in w'.main.outbox {
      var k :| 0 <= k < |seqs| && seqs[k] == q;
      assert captured[k] in captured;
      assert Reached(w', captured[k], Version(w.main, captured[k]));
    }
  }

  lemma RetiredForGood(w: World, w': World, w'': World, seqs: seq<nat>)
    requires Later(w, w') && Later(w', w'')
    requires forall q | q in seqs :: q <= w.main.lastSeq && q !in w'.main.outbox
    ensures forall q | q in seqs :: q !in w''.main.outbox
  {
  }

  /** [...new Set(ids)]: first occurrences, in order. */
  function Unique(ids: seq<string>): seq<string> {
    if ids == [] then []
    else if ids[|ids| - 1] in ids[..|ids| - 1] then Unique(ids[..|ids| - 1])
    else Unique(ids[..|ids| - 1]) + [ids[|ids| - 1]]
  }

  lemma {:induction false} UniqueIsDistinct(ids: seq<string>)
    ensures Distinct(Unique(ids)) && forall id :: id in ids <==> id in Unique(ids)
  {
    if ids != [] {
      UniqueIsDistinct(ids[..|ids| - 1]);
      assert ids == ids[..|ids| - 1] + [ids[|ids| - 1]];
    }
  }

  lemma ChunkIsDistinct(ids: seq<string>, start: nat, end: nat)
    requires Distinct(ids) && start <= end <= |ids|
    ensures Distinct(ids[start..end])
  {
  }

  /** Sessions counted as synced: requested, each once, and each reached every shard. */
  ghost predicate Synced(w0: World, w: World, done: seq<string>, ids: seq<string>) {
    Distinct(done) && AllReached(w, done, w0.main) && forall id | id in done :: id in ids
  }

  /** Some ids were handled; all before n if no round stopped early. */
  ghost predicate Counted(w0: World, w: World, unique: seq<string>, n: nat, done: seq<string>) {
    && n <= |unique| && Later(w0, w) && Synced(w0, w, done, unique[..n])
  }

  ghost predicate SyncingAt(w0: World, w: World, unique: seq<string>, n: nat, done: seq<string>) {
    Counted(w0, w, unique, n, done) && AllReached(w, unique[..n], w0.main)
  }

  lemma SyncedSoFar(w0: World, w: World, unique: seq<string>, n: nat, done: seq<string>, ids: seq<string>)
    requires Counted(w0, w, unique, n, done) && forall id :: id in ids <==> id in unique
    ensures Synced(w0, w, done, ids)
  {
  }

  lemma AllSynced(w0: World, w: World, unique: seq<string>, done: seq<string>, ids: seq<string>)
    requires SyncingAt(w0, w, unique, |unique|, done) && forall id :: id in ids <==> id in unique
    ensures AllReached(w, ids, w0.main) && (ids != [] ==> unique != [])
  {
    assert unique[..|unique|] == unique;
    assert ids != [] ==> ids[0] in ids;
  }

  lemma AllReachedIsStable(w0: World, w: World, w': World, ids: seq<string>)
    requires Later(w0, w) && Later(w, w') && AllReached(w, ids, w0.main)
    ensures AllReached(w', ids, w0.main)
  {
    forall id | id in ids ensures Reached(w', id, Version(w0.main, id)) {
      assert SessionLater(w0, w, id);
      ReachedIsStable(w, w', id, Version(w0.main, id));
    }
  }

  lemma AllReachedSince(w0: World, w1: World, w: World, ids: seq<string>)
    requires Later(w0, w1) && AllReached(w, ids, w1.main)
    ensures AllReached(w, ids, w0.main)
  {
    forall id | id in ids ensures Reached(w, id, Version(w0.main, id)) {
      assert SessionLater(w0, w1, id);
      ReachedOlder(w, id, Version(w1.main, id), Version(w0.main, id));
    }
  }

  lemma RoundSynced(w0: World, w1: World, w: World, unique: seq<string>, start: nat, end: nat, done: seq<string>,
                    covered: seq<string>, exhausted: bool)
    requires Distinct(unique) && start <= end <= |unique| && SyncingAt(w0, w1, unique, start, done)
    requires Later(w0, w1) && Later(w1, w) && Later(w0, w)
    requires Distinct(covered) && AllReached(w, covered, w1.main)
    requires forall id | id in covered :: id in unique[start..end]
    requires !exhausted ==> AllReached(w, unique[start..end], w1.main)
    ensures Counted(w0, w, unique, end, done + covered)
    ensures !exhausted ==> SyncingAt(w0, w, unique, end, done + covered)
  {
    AllReachedIsStable(w0, w1, w, done);
    AllReachedIsStable(w0, w1, w, unique[..start]);
    AllReachedSince(w0, w1, w, covered);
    if !exhausted { AllReachedSince(w0, w1, w, unique[start..end]); }
    assert unique[..end] == unique[..start] + unique[start..end];
    PartsDistinct(unique, start, end, done, covered);
  }

  lemma PartsDistinct(unique: seq<string>, start: nat, end: nat, done: seq<string>, covered: seq<string>)
    requires Distinct(unique) && start <= end <= |unique| && Distinct(done) && Distinct(covered)
    requires forall id | id in done :: id in unique[..start]
    requires forall id | id in covered :: id in unique[start..end]
    ensures Distinct(done + covered)
  {
    forall a, b | a in unique[..start] && b in unique[start..end] ensures a != b {
      var i :| 0 <= i < start && unique[..start][i] == a;
      var j :| 0 <= j < end - start && unique[start..end][j] == b;
      assert unique[i] != unique[start + j];
    }
    var all := done + covered;
    forall i, j | 0 <= i < j < |all| ensures all[i] != all[j] {
      if i < |done| <= j { assert done[i] in done && covered[j - |done|] in covered; }
    }
  }

  /** Each session reached every shard at the version main had, or a newer one, and its entries are retired. */
  ghost predicate AllReached(w: World, ids: seq<string>, since: Main) {
    forall id | id in ids :: Reached(w, id, Version(since, id))
  }

  lemma EntriesStamped(w0: World, w: World, small: seq<string>, entries: seq<Entry>, versions: map<string, nat>)
    requires Later(w0, w) && EntriesOfMain(w.main, small, entries) && versions == VersionsOf(entries)
    ensures Stamped(w0, entries, versions)
  {
    forall e | e in entries
      ensures e.id in versions && versions[e.id] == e.version && Version(w0.main, e.id) <= e.version
    {
      VersionsOfEntry(entries, e);
      assert FromMain(w.main, small, e) && SessionLater(w0, w, e.id);
    }
  }

  lemma SmallBeforeLarge(m: Main, small: seq<string>, large: seq<string>, entries: seq<Entry>, covered: seq<string>)
    requires EntriesOfMain(m, small, entries) && FromEntries(covered, entries) && Distinct(covered) && Distinct(large)
    requires forall id | id in small :: id !in large
    ensures Distinct(covered + large) && forall id | id in covered :: id in small
  {
    forall id | id in covered ensures id in small {
      assert HasEntry(entries, id);
      var e :| e in entries && e.id == id;
      assert FromMain(m, small, e);
    }
    var all := covered + large;
    forall i, j | 0 <= i < j < |all| ensures all[i] != all[j] {
      if i < |covered| <= j { assert covered[i] in small && large[j - |covered|] in large; }
    }
  }

  /** What a round covered is among its ids; unless it stopped early it is all of them that main knew. */
  lemma RoundCovers(w0: World, w1: World, w: World, small: seq<string>, large: seq<string>, entries: seq<Entry>,
                    covered0: seq<string>, covered: seq<string>, versions: map<string, nat>, k: nat, exhausted: bool)
    requires Later(w0, w1) && EntriesOfMain(w1.main, small, entries)
    requires PushingLarge(w0, w, covered0, large, covered, versions, k)
    requires forall id | id in covered0 :: id in small
    requires !exhausted ==> (forall e | e in entries :: e.id in covered0)
                            && PushingLarge(w0, w, covered0, large, covered, versions, |large|)
    ensures forall id | id in covered :: id in small || id in large
    ensures !exhausted ==> forall id | id in small || id in large :: Version(w0.main, id) == 0 || id in covered
  {
    forall id | id in covered ensures id in small || id in large {
      if id !in covered0 { assert id in large[..k]; }
    }
    if !exhausted {
      assert large[..|large|] == large;
      forall id | id in small ensures Version(w0.main, id) == 0 || id in covered {
        assert SessionLater(w0, w1, id);
        if Version(w0.main, id) > 0 {
          assert HasEntry(entries, id);
          var e :| e in entries && e.id == id;
        }
      }
    }
  }

  lemma RoundReaches(w0: World, w: World, w': World, ids: seq<string>, covered: seq<string>, versions: map<string, nat>,
                     exhausted: bool)
    requires Inv(w') && Later(w0, w') && Delivered(w0, w, covered, versions)
    requires forall id | id in covered :: id in versions && Reached(w', id, versions[id])
    requires !exhausted ==> forall id | id in ids :: Version(w0.main, id) == 0 || id in covered
    ensures AllReached(w', covered, w0.main)
    ensures !exhausted ==> AllReached(w', ids, w0.main)
  {
    forall id | id in covered ensures Reached(w', id, Version(w0.main, id)) {
      assert DeliveredAt(w0, w, id, versions);
      ReachedOlder(w', id, versions[id], Version(w0.main, id));
    }
    forall id | id in ids && !exhausted ensures Reached(w', id, Version(w0.main, id)) {
      if id !in covered { NeverChanged(w', id); }
    }
  }

  /** Where pushing the large sessions stands after k of them. */
  ghost predicate PushingLarge(w0: World, w: World, covered0: seq<string>, large: seq<string>, covered: seq<string>,
                               versions: map<string, nat>, k: nat) {
    && k <= |large| && Delivered(w0, w, covered, versions) && Distinct(covered) && covered0 <= covered
    && (forall id | id in covered :: id in covered0 || id in large[..k])
    && (forall id | id in large[..k] :: Version(w0.main, id) == 0 || id in covered)
  }

  lemma PushedLargeOne(w0: World, w: World, w': World, covered0: seq<string>, large: seq<string>, covered: seq<string>,
                       versions: map<string, nat>, k: nat, e: Entry)
    requires PushingLarge(w0, w, covered0, large, covered, versions, k) && k < |large| && Later(w, w')
    requires Distinct(covered0 + large) && e.id == large[k]
    requires EveryShardHas(w', e.id, e.version) && Version(w0.main, e.id) <= e.version <= Version(w'.main, e.id)
    ensures PushingLarge(w0, w', covered0, large, covered + [e.id], versions[e.id := e.version], k + 1)
  {
    NotYetCovered(covered0, large, k);
    DeliveredIsStable(w0, w, w', covered, versions);
    assert large[..k + 1] == large[..k] + [e.id];
    forall id | id in covered ensures DeliveredAt(w0, w', id, versions[e.id := e.version]) {
      assert DeliveredAt(w0, w', id, versions);
    }
  }

  lemma NotYetCovered(covered0: seq<string>, large: seq<string>, k: nat)
    requires Distinct(covered0 + large) && k < |large|
    ensures large[k] !in covered0 && large[k] !in large[..k]
  {
    var all := covered0 + large;
    forall i | 0 <= i < |covered0| ensures covered0[i] != large[k] {
      assert all[i] != all[|covered0| + k];
    }
    forall i | 0 <= i < k ensures large[i] != large[k] {
      assert all[|covered0| + i] != all[|covered0| + k];
    }
  }

  /** Where pushing stands after k batches: their sessions are delivered. */
  ghost predicate Pushing(w0: World, w: World, batches: seq<Batch>, entries: seq<Entry>, versions: map<string, nat>,
                          covered: seq<string>, k: nat) {
    && AllHonest(w, entries) && k <= |batches|
    && Delivered(w0, w, covered, versions) && covered == IdsOf(Unpack(batches[..k]))
  }

  lemma PushedOne(w0: World, w: World, w': World, batches: seq<Batch>, entries: seq<Entry>, versions: map<string, nat>,
                  covered: seq<string>, k: nat)
    requires Packed(batches, entries) && Stamped(w0, entries, versions) && k < |batches| && Later(w, w')
    requires Pushing(w0, w, batches, entries, versions, covered, k)
    requires forall e | e in batches[k].Entries() :: EveryShardHas(w', e.id, e.version)
    ensures Pushing(w0, w', batches, entries, versions, covered + IdsOf(batches[k].Entries()), k + 1)
  {
    HonestIsStable(w, w', entries);
    DeliveredIsStable(w0, w, w', covered, versions);
    BatchIsPart(batches, entries, k);
    var ids := IdsOf(batches[k].Entries());
    BatchDelivered(w0, w', batches[k], entries, versions, ids);
    IdsOfConcat(Unpack(batches[..k]), batches[k].Entries());
    DeliveredConcat(w0, w', covered, ids, versions);
  }

  lemma IdsOfConcat(a: seq<Entry>, b: seq<Entry>)
    ensures IdsOf(a + b) == IdsOf(a) + IdsOf(b)
  {
  }

  lemma DeliveredConcat(w0: World, w: World, a: seq<string>, b: seq<string>, versions: map<string, nat>)
    requires Delivered(w0, w, a, versions) && Delivered(w0, w, b, versions)
    ensures Delivered(w0, w, a + b, versions)
  {
  }

  lemma PushedAll(w0: World, w: World, batches: seq<Batch>, entries: seq<Entry>, versions: map<string, nat>,
                  covered: seq<string>)
    requires Packed(batches, entries) && Pushing(w0, w, batches, entries, versions, covered, |batches|)
    ensures forall e | e in entries :: e.id in covered
  {
    assert batches[..|batches|] == batches;
    var all := Unpack(batches);
    forall e | e in entries ensures e.id in covered {
      assert e in multiset(all);
      var i :| 0 <= i < |all| && all[i] == e;
      assert covered[i] == e.id;
    }
  }

  lemma PushedSome(w0: World, w: World, batches: seq<Batch>, entries: seq<Entry>, versions: map<string, nat>,
                   covered: seq<string>, k: nat)
    requires Packed(batches, entries) && DistinctIds(entries) && Pushing(w0, w, batches, entries, versions, covered, k)
    ensures Distinct(covered) && FromEntries(covered, entries)
  {
    var all, some := Unpack(batches), Unpack(batches[..k]);
    UnpackPrefix(batches, k);
    PermutedDistinct(all, entries);
    forall i, j | 0 <= i < j < |covered| ensures covered[i] != covered[j] {
      assert all[i] == some[i] && all[j] == some[j];
    }
    forall id | id in covered ensures HasEntry(entries, id) {
      var i :| 0 <= i < |covered| && covered[i] == id;
      assert all[i] == some[i] && all[i] in multiset(entries);
    }
  }

  lemma {:induction false} UnpackPrefix(batches: seq<Batch>, k: nat)
    requires k <= |batches|
    ensures Unpack(batches[..k]) <= Unpack(batches)
    decreases |batches|
  {
    if k == |batches| {
      assert batches[..k] == batches;
    } else {
      var init := batches[..|batches| - 1];
      assert init[..k] == batches[..k];
      UnpackPrefix(init, k);
    }
  }

  lemma PermutedDistinct(a: seq<Entry>, b: seq<Entry>)
    requires multiset(a) == multiset(b) && DistinctIds(b)
    ensures DistinctIds(a)
  {
    forall i, j | 0 <= i < j < |a| ensures a[i].id != a[j].id {
      assert a[i] in multiset(b) && a[j] in multiset(b);
      var p :| 0 <= p < |b| && b[p] == a[i];
      var q :| 0 <= q < |b| && b[q] == a[j];
      if p == q {
        TwiceInMultiset(a, i, j);
        OnceInDistinct(b, p);
      }
    }
  }

  lemma OnceInDistinct(b: seq<Entry>, p: nat)
    requires DistinctIds(b) && p < |b|
    ensures multiset(b)[b[p]] == 1
  {
    assert b == b[..p] + [b[p]] + b[p + 1..];
    assert b[p] !in b[..p] && b[p] !in b[p + 1..];
  }

  /** The batches are a packing of the entries. */
  ghost predicate Packed(batches: seq<Batch>, entries: seq<Entry>) {
    && multiset(Unpack(batches)) == multiset(entries)
    && forall b | b in batches :: WellFormed(b.Entries())
  }

  /** The version map holds what was read for each entry: no older than main as the round began. */
  ghost predicate Stamped(w0: World, entries: seq<Entry>, versions: map<string, nat>) {
    forall e | e in entries ::
      e.id in versions && versions[e.id] == e.version && Version(w0.main, e.id) <= e.version
  }

  ghost predicate FromEntries(covered: seq<string>, entries: seq<Entry>) {
    forall id | id in covered :: HasEntry(entries, id)
  }

  function IdsOf(es: seq<Entry>): seq<string> {
    seq(|es|, i requires 0 <= i < |es| => es[i].id)
  }

  lemma {:induction false} UnpackHolds(batches: seq<Batch>, k: nat, e: Entry)
    requires k < |batches| && e in batches[k].Entries()
    ensures e in Unpack(batches)
  {
    if k < |batches| - 1 {
      assert batches[..|batches| - 1][k] == batches[k];
      UnpackHolds(batches[..|batches| - 1], k, e);
    }
  }

  lemma BatchIsPart(batches: seq<Batch>, entries: seq<Entry>, k: nat)
    requires Packed(batches, entries) && k < |batches|
    ensures forall e | e in batches[k].Entries() :: e in entries
    ensures WellFormed(batches[k].Entries())
    ensures Unpack(batches[..k + 1]) == Unpack(batches[..k]) + batches[k].Entries()
  {
    assert batches[..k + 1][..k] == batches[..k];
    assert batches[k] in batches;
    forall e | e in batches[k].Entries() ensures e in entries {
      UnpackHolds(batches, k, e);
      assert e in multiset(entries);
    }
  }

  lemma BatchDelivered(w0: World, w: World, batch: Batch, entries: seq<Entry>, versions: map<string, nat>,
                       ids: seq<string>)
    requires ids == IdsOf(batch.Entries()) && Stamped(w0, entries, versions)
    requires forall e | e in batch.Entries() :: e in entries && EveryShardHas(w, e.id, e.version)
    requires AllHonest(w, entries)
    ensures Delivered(w0, w, ids, versions)
  {
    forall id | id in ids ensures DeliveredAt(w0, w, id, versions) {
      var i :| 0 <= i < |ids| && ids[i] == id;
      var e := batch.Entries()[i];
      assert e in batch.Entries() && Honest(w, e);
    }
  }

  lemma RetiredIsReached(w: World, pairs: seq<(string, nat)>, covered: seq<string>, versions: map<string, nat>,
                         id: string)
    requires forall i | 0 <= i < |covered| :: covered[i] in versions
    requires pairs == seq(|covered|, i requires 0 <= i < |covered| => (covered[i], versions[covered[i]]))
    requires id in covered && EveryShardHas(w, id, versions[id])
    ensures Reached(Retire(w, pairs), id, versions[id])
  {
    var w' := Retire(w, pairs);
    var k :| 0 <= k < |covered| && covered[k] == id;
    forall q | q in w'.main.outbox && w'.main.outbox[q] == id ensures q > versions[id] {
      assert pairs[k] == (id, versions[id]);
    }
    forall i | 0 <= i < |w'.shards| ensures Has(w', i, id, versions[id]) {
      assert Has(w, i, id, versions[id]);
    }
  }

  // ---- Splitting a chunk by size ----

  function SmallIds(m: Main, ids: seq<string>, bytes: Snapshot -> nat): seq<string> {
    if ids == [] then []
    else SmallIds(m, ids[..|ids| - 1], bytes)
         + if bytes(MainShows(m, ids[|ids| - 1])) <= BULK_ENTRY_BYTES then [ids[|ids| - 1]] else []
  }

  function LargeIds(m: Main, ids: seq<string>, bytes: Snapshot -> nat): seq<string> {
    if ids == [] then []
    else LargeIds(m, ids[..|ids| - 1], bytes)
         + if bytes(MainShows(m, ids[|ids| - 1])) <= BULK_ENTRY_BYTES then [] else [ids[|ids| - 1]]
  }

  /** The split loses nothing, repeats nothing and mixes nothing up. */
  lemma {:induction false} SplitIsDistinct(m: Main, ids: seq<string>, bytes: Snapshot -> nat)
    requires Distinct(ids)
    ensures Distinct(SmallIds(m, ids, bytes)) && Distinct(LargeIds(m, ids, bytes))
    ensures forall id :: id in ids <==> id in SmallIds(m, ids, bytes) || id in LargeIds(m, ids, bytes)
    ensures forall id | id in SmallIds(m, ids, bytes) :: id !in LargeIds(m, ids, bytes)
    ensures forall id | id in SmallIds(m, ids, bytes) :: bytes(MainShows(m, id)) <= 65536
    ensures forall id | id in LargeIds(m, ids, bytes) :: bytes(MainShows(m, id)) > 65536
  {
    if ids != [] {
      SplitIsDistinct(m, ids[..|ids| - 1], bytes);
      assert ids == ids[..|ids| - 1] + [ids[|ids| - 1]];
      assert ids[|ids| - 1] !in ids[..|ids| - 1];
    }
  }
}
