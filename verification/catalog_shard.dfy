/** One index shard's copy of the session catalog, and the statements of a catalog batch. */
module CatalogShard {
  import opened Wrappers

  datatype Row = Row(columns: seq<Option<string>>)

  datatype Star = Star(id: string, turnKey: string, starredAt: string)

  /** What the catalog holds for one session. */
  datatype Snapshot = Snapshot(row: Option<Row>, stars: set<Star>)

  const NOTHING := Snapshot(None, {})

  /** A catalog_versions row. */
  datatype Stamp = Stamp(version: nat, present: bool)

  datatype Shard = Shard(stamps: map<string, Stamp>, sessions: map<string, Row>, stars: set<Star>)

  /** A main snapshot of one session, on its way to the shards. */
  datatype Entry = Entry(id: string, version: nat, session: Option<Row>, stars: seq<Star>)

  function RowIn(sessions: map<string, Row>, id: string): Option<Row> {
    if id in sessions then Some(sessions[id]) else None
  }

  function StarsIn(stars: set<Star>, id: string): set<Star> {
    set r | r in stars && r.id == id
  }

  function StampIn(stamps: map<string, Stamp>, id: string): Option<Stamp> {
    if id in stamps then Some(stamps[id]) else None
  }

  function VersionIn(stamps: map<string, Stamp>, id: string): nat {
    if id in stamps then stamps[id].version else 0
  }

  /** What a shard shows for a session. */
  function Shows(shard: Shard, id: string): Snapshot {
    Snapshot(RowIn(shard.sessions, id), StarsIn(shard.stars, id))
  }

  function Carries(e: Entry): Snapshot {
    Snapshot(e.session, set r | r in e.stars)
  }

  // ---- Batches ----

  ghost predicate DistinctIds(es: seq<Entry>) {
    forall i, j | 0 <= i < j < |es| :: es[i].id != es[j].id
  }

  ghost predicate OwnStars(e: Entry) {
    forall r | r in e.stars :: r.id == e.id
  }

  ghost predicate WellFormed(es: seq<Entry>) {
    && DistinctIds(es)
    && forall e | e in es :: e.version >= 1 && OwnStars(e)
  }

  /** The entry a batch has for a session. */
  function For(es: seq<Entry>, id: string): Option<Entry> {
    if es == [] then None else if es[0].id == id then Some(es[0]) else For(es[1..], id)
  }

  /** The entry of a batch that a shard at these versions accepts: not older than what it has. */
  function Accepted(stamps: map<string, Stamp>, es: seq<Entry>, id: string): Option<Entry> {
    var e := For(es, id);
    if e.Some? && e.value.version >= VersionIn(stamps, id) then e else None
  }

  /** A shard after a batch: every accepted entry replaces what the shard shows for its session and
      everything else stays. */
  ghost predicate Applied(before: Shard, es: seq<Entry>, after: Shard) {
    forall id :: AppliedTo(before, es, after, id)
  }

  ghost predicate AppliedTo(before: Shard, es: seq<Entry>, after: Shard, id: string) {
    var e := Accepted(before.stamps, es, id);
    && Shows(after, id) == (if e.Some? then Carries(e.value) else Shows(before, id))
    && StampIn(after.stamps, id)
       == (if e.Some? then Some(StampAfter(StampIn(before.stamps, id), e.value)) else StampIn(before.stamps, id))
  }

  /** A newer version records its presence; an equal one keeps what is recorded. */
  function StampAfter(stored: Option<Stamp>, e: Entry): Stamp {
    if stored.None? || e.version > stored.value.version then Stamp(e.version, e.session.Some?) else stored.value
  }

  lemma {:induction false} ForMember(es: seq<Entry>, id: string)
    ensures For(es, id).Some? ==> For(es, id).value in es && For(es, id).value.id == id
    ensures For(es, id).None? ==> forall e | e in es :: e.id != id
  {
    if es != [] && es[0].id != id {
      ForMember(es[1..], id);
      forall e | e in es && For(es, id).None? ensures e.id != id {
        if e != es[0] { assert e in es[1..]; }
      }
    }
  }

  lemma {:induction false} ForFinds(es: seq<Entry>, e: Entry)
    requires DistinctIds(es) && e in es
    ensures For(es, e.id) == Some(e)
  {
    if es[0] != e {
      assert e in es[1..];
      var i :| 0 <= i < |es| && es[i] == e;
      assert es[0].id != es[i].id;
      forall i, j | 0 <= i < j < |es[1..]| ensures es[1..][i].id != es[1..][j].id {
        assert es[i + 1].id != es[j + 1].id;
      }
      ForFinds(es[1..], e);
    }
  }

  // ---- The set-based statements of a payload batch ----

  function Ids(es: seq<Entry>): set<string> {
    set e | e in es :: e.id
  }

  /** INSERT INTO catalog_versions ... ON CONFLICT DO UPDATE ... WHERE excluded.version is greater. */
  function StampAll(stamps: map<string, Stamp>, es: seq<Entry>): map<string, Stamp> {
    map id | id in stamps.Keys + Ids(es) && StampOf(StampIn(stamps, id), For(es, id)).Some? ::
      StampOf(StampIn(stamps, id), For(es, id)).value
  }

  function StampOf(stored: Option<Stamp>, e: Option<Entry>): Option<Stamp> {
    if e.Some? then Some(StampAfter(stored, e.value)) else stored
  }

  /** WITH applied: the entry whose version the shard now records. */
  function Recorded(stamps: map<string, Stamp>, es: seq<Entry>, id: string): Option<Entry> {
    var e := For(es, id);
    if e.Some? && id in stamps && stamps[id].version == e.value.version then e else None
  }

  /** DELETE FROM sessions: the applied tombstones. */
  function DropSessions(stamps: map<string, Stamp>, es: seq<Entry>, sessions: map<string, Row>): map<string, Row> {
    map id | id in sessions && !Tombstone(Recorded(stamps, es, id)) :: sessions[id]
  }

  predicate Tombstone(e: Option<Entry>) { e.Some? && e.value.session.None? }

  predicate HasKey(stars: seq<Star>, id: string, key: string) {
    exists r :: r in stars && r.id == id && r.turnKey == key
  }

  /** DELETE FROM starred_turns: the applied sessions' stars that are not incoming. */
  function DropStars(stamps: map<string, Stamp>, es: seq<Entry>, stars: set<Star>): set<Star> {
    set r | r in stars && !Dropped(Recorded(stamps, es, r.id), r)
  }

  predicate Dropped(e: Option<Entry>, r: Star) { e.Some? && !HasKey(e.value.stars, r.id, r.turnKey) }

  /** INSERT INTO sessions ... ON CONFLICT DO UPDATE: the applied rows. */
  function PutSessions(stamps: map<string, Stamp>, es: seq<Entry>, sessions: map<string, Row>): map<string, Row> {
    map id | id in sessions.Keys + Ids(es) && PutRow(Recorded(stamps, es, id), RowIn(sessions, id)).Some? ::
      PutRow(Recorded(stamps, es, id), RowIn(sessions, id)).value
  }

  function PutRow(e: Option<Entry>, stored: Option<Row>): Option<Row> {
    if e.Some? && e.value.session.Some? then e.value.session else stored
  }

  /** INSERT INTO starred_turns ... ON CONFLICT DO UPDATE: the applied stars, each replacing its key. */
  function PutStars(stamps: map<string, Stamp>, es: seq<Entry>, stars: set<Star>): set<Star> {
    (set r | r in stars && !Overwritten(Recorded(stamps, es, r.id), r))
    + (set r | r in AllStars(es) && Incoming(Recorded(stamps, es, r.id), r))
  }

  predicate Overwritten(e: Option<Entry>, r: Star) { e.Some? && HasKey(e.value.stars, r.id, r.turnKey) }

  predicate Incoming(e: Option<Entry>, r: Star) { e.Some? && r in e.value.stars }

  function AllStars(es: seq<Entry>): set<Star> {
    if es == [] then {} else (set r | r in es[0].stars) + AllStars(es[1..])
  }

  lemma {:induction false} AllStarsHolds(es: seq<Entry>, e: Entry, r: Star)
    requires e in es && r in e.stars
    ensures r in AllStars(es)
  {
    if es[0] != e {
      assert e in es[1..];
      AllStarsHolds(es[1..], e, r);
    }
  }

  /** The five statements, run in order as one batch. */
  method ApplyPayload(before: Shard, es: seq<Entry>) returns (after: Shard)
    requires WellFormed(es)
    ensures Applied(before, es, after)
  {
    after := before;
    after := after.(stamps := StampAll(after.stamps, es));
    after := after.(sessions := DropSessions(after.stamps, es, after.sessions));
    after := after.(stars := DropStars(after.stamps, es, after.stars));
    after := after.(sessions := PutSessions(after.stamps, es, after.sessions));
    after := after.(stars := PutStars(after.stamps, es, after.stars));
    forall id ensures AppliedTo(before, es, after, id) {
      PayloadRow(before, es, id);
      PayloadStars(before, es, id);
      StampedThen(before.stamps, es, id);
    }
  }

  /** Stamping first makes "the version the shard now records" mean "not older than it had". */
  lemma StampedThen(stamps: map<string, Stamp>, es: seq<Entry>, id: string)
    requires WellFormed(es)
    ensures Recorded(StampAll(stamps, es), es, id) == Accepted(stamps, es, id)
    ensures StampIn(StampAll(stamps, es), id) == StampOf(StampIn(stamps, id), For(es, id))
  {
    ForMember(es, id);
  }

  lemma PayloadRow(before: Shard, es: seq<Entry>, id: string)
    requires WellFormed(es)
    ensures RowIn(PutSessions(StampAll(before.stamps, es), es,
                              DropSessions(StampAll(before.stamps, es), es, before.sessions)), id)
         == (if Accepted(before.stamps, es, id).Some? then Accepted(before.stamps, es, id).value.session
             else RowIn(before.sessions, id))
  {
    StampedThen(before.stamps, es, id);
    ForMember(es, id);
  }

  lemma PayloadStars(before: Shard, es: seq<Entry>, id: string)
    requires WellFormed(es)
    ensures StarsIn(PutStars(StampAll(before.stamps, es), es,
                             DropStars(StampAll(before.stamps, es), es, before.stars)), id)
         == (if Accepted(before.stamps, es, id).Some? then Carries(Accepted(before.stamps, es, id).value).stars
             else StarsIn(before.stars, id))
  {
    var stamps := StampAll(before.stamps, es);
    var e := Accepted(before.stamps, es, id);
    StampedThen(before.stamps, es, id);
    ForMember(es, id);
    if e.Some? {
      forall r | r in e.value.stars ensures r in AllStars(es) && r.id == id {
        AllStarsHolds(es, e.value, r);
      }
    }
  }

  // ---- The individually bound statements of one large entry ----

  const STARS_PER_INSERT: nat := 48

  predicate Holds(stamps: map<string, Stamp>, e: Entry) {
    e.id in stamps && stamps[e.id].version == e.version
  }

  /** INSERT INTO starred_turns ... VALUES ...: one slice of the entry's stars, under the guard. */
  function InsertSlice(stamps: map<string, Stamp>, e: Entry, slice: seq<Star>, stars: set<Star>): set<Star> {
    if Holds(stamps, e) then stars + set r | r in slice else stars
  }

  /** The entry's own batch: stamp, replace or delete the row, delete all stars, insert them in slices. */
  method ApplySingle(before: Shard, e: Entry) returns (after: Shard)
    requires e.version >= 1 && OwnStars(e)
    ensures Applied(before, [e], after)
  {
    after := before;
    after := after.(stamps := after.stamps[e.id := StampAfter(StampIn(after.stamps, e.id), e)]);
    if Holds(after.stamps, e) {
      after := after.(sessions := if e.session.Some? then after.sessions[e.id := e.session.value]
                                  else after.sessions - {e.id});
      after := after.(stars := set r | r in after.stars && r.id != e.id);
    }
    ghost var middle := after;
    ghost var kept := after.stars;
    var start := 0;
    while start < |e.stars|
      invariant 0 <= start <= |e.stars|
      invariant after.stamps == middle.stamps && after.sessions == middle.sessions
      invariant after.stars == if Holds(after.stamps, e) then kept + set r | r in e.stars[..start] else kept
    {
      var end := if start + STARS_PER_INSERT < |e.stars| then start + STARS_PER_INSERT else |e.stars|;
      assert e.stars[..end] == e.stars[..start] + e.stars[start..end];
      after := after.(stars := InsertSlice(after.stamps, e, e.stars[start..end], after.stars));
      start := end;
    }
    assert e.stars[..|e.stars|] == e.stars;
    SingleApplied(before, e, after);
  }

  lemma SingleApplied(before: Shard, e: Entry, after: Shard)
    requires e.version >= 1 && OwnStars(e)
    requires after.stamps == before.stamps[e.id := StampAfter(StampIn(before.stamps, e.id), e)]
    requires after.sessions == if !Holds(after.stamps, e) then before.sessions
                               else if e.session.Some? then before.sessions[e.id := e.session.value]
                               else before.sessions - {e.id}
    requires after.stars == if !Holds(after.stamps, e) then before.stars
                            else (set r | r in before.stars && r.id != e.id) + set r | r in e.stars
    ensures Applied(before, [e], after)
  {
    forall id ensures AppliedTo(before, [e], after, id) {
      assert For([e], id) == if e.id == id then Some(e) else None;
      if e.id == id && Holds(after.stamps, e) {
        assert StarsIn(after.stars, id) == Carries(e).stars;
      } else {
        assert StarsIn(after.stars, id) == StarsIn(before.stars, id);
      }
    }
  }

  // ---- Packing entries into batches ----

  const PAYLOAD_BYTES: nat := 1_000_000

  datatype Batch = Payload(entries: seq<Entry>) | Single(entry: Entry) {
    function Entries(): seq<Entry> { if Payload? then entries else [entry] }
  }

  /** The encoded size of a JSON array of these entries. */
  function PayloadSize(es: seq<Entry>, size: Entry -> nat): nat {
    if es == [] then 2
    else PayloadSize(es[..|es| - 1], size) + (if |es| > 1 then 1 else 0) + size(es[|es| - 1])
  }

  predicate Fits(b: Batch, size: Entry -> nat) {
    match b
    case Payload(es) => es != [] && PayloadSize(es, size) <= 1_000_000
    case Single(e) => size(e) + 2 > 1_000_000
  }

  function Unpack(batches: seq<Batch>): seq<Entry> {
    if batches == [] then [] else Unpack(batches[..|batches| - 1]) + batches[|batches| - 1].Entries()
  }

  lemma UnpackAppend(batches: seq<Batch>, b: Batch)
    ensures Unpack(batches + [b]) == Unpack(batches) + b.Entries()
  {
    assert (batches + [b])[..|batches|] == batches;
  }

  ghost predicate AllFit(batches: seq<Batch>, size: Entry -> nat) {
    forall b | b in batches :: Fits(b, size) && WellFormed(b.Entries())
  }

  /** Every entry goes into exactly one batch. A payload stays within its cap; only an entry that
      alone exceeds the cap is bound by itself. */
  method PackBatches(entries: seq<Entry>, size: Entry -> nat) returns (batches: seq<Batch>)
    requires WellFormed(entries)
    ensures multiset(Unpack(batches)) == multiset(entries)
    ensures AllFit(batches, size)
  {
    batches := [];
    var parts: seq<Entry>, bytes: nat := [], 2;
    for i := 0 to |entries|
      invariant Packing(batches, parts, bytes, entries, i, size)
    {
      batches, parts, bytes := PackOne(batches, parts, bytes, entries, i, size);
    }
    assert entries[..|entries|] == entries;
    batches := Flush(batches, parts, size);
  }

  /** The first i entries are in the batches so far or in the payload being filled. */
  ghost predicate Packing(batches: seq<Batch>, parts: seq<Entry>, bytes: nat, entries: seq<Entry>, i: nat,
                          size: Entry -> nat)
  {
    && i <= |entries|
    && multiset(Unpack(batches)) + multiset(parts) == multiset(entries[..i])
    && AllFit(batches, size) && Filling(parts, bytes, size)
  }

  ghost predicate Filling(parts: seq<Entry>, bytes: nat, size: Entry -> nat) {
    WellFormed(parts) && bytes == PayloadSize(parts, size) && (parts != [] ==> bytes <= PAYLOAD_BYTES)
  }

  /** One entry: alone when it exceeds the cap, else into the payload, flushed first when it would overflow. */
  method PackOne(batches0: seq<Batch>, parts0: seq<Entry>, bytes0: nat, entries: seq<Entry>, i: nat, size: Entry -> nat)
    returns (batches: seq<Batch>, parts: seq<Entry>, bytes: nat)
    requires WellFormed(entries) && i < |entries| && Packing(batches0, parts0, bytes0, entries, i, size)
    ensures Packing(batches, parts, bytes, entries, i + 1, size)
  {
    batches, parts, bytes := batches0, parts0, bytes0;
    var e := entries[i];
    if size(e) + 2 > PAYLOAD_BYTES {
      batches := batches + [Single(e)];
      PackedAlone(batches0, parts, bytes, entries, i, size);
      return;
    }
    if parts != [] && bytes + 1 + size(e) > PAYLOAD_BYTES {
      batches := Flush(batches, parts, size);
      parts, bytes := [], 2;
    }
    PartsGrow(batches, parts, bytes, entries, i, size);
    bytes := bytes + (if parts != [] then 1 else 0) + size(e);
    parts := parts + [e];
  }

  lemma PackedAlone(batches: seq<Batch>, parts: seq<Entry>, bytes: nat, entries: seq<Entry>, i: nat, size: Entry -> nat)
    requires WellFormed(entries) && i < |entries| && Packing(batches, parts, bytes, entries, i, size)
    requires size(entries[i]) + 2 > PAYLOAD_BYTES
    ensures Packing(batches + [Single(entries[i])], parts, bytes, entries, i + 1, size)
  {
    var b := Single(entries[i]);
    Prefix(entries, i);
    UnpackAppend(batches, b);
    assert Fits(b, size) && WellFormed(b.Entries());
  }

  method Flush(batches0: seq<Batch>, parts: seq<Entry>, size: Entry -> nat) returns (batches: seq<Batch>)
    requires AllFit(batches0, size) && WellFormed(parts)
    requires parts != [] ==> PayloadSize(parts, size) <= PAYLOAD_BYTES
    ensures AllFit(batches, size)
    ensures multiset(Unpack(batches)) == multiset(Unpack(batches0)) + multiset(parts)
  {
    batches := batches0;
    if parts == [] { return; }
    UnpackAppend(batches, Payload(parts));
    batches := batches + [Payload(parts)];
  }

  lemma Prefix(entries: seq<Entry>, i: nat)
    requires i < |entries|
    ensures entries[..i + 1] == entries[..i] + [entries[i]] && entries[i] in entries
  {
  }

  lemma PartsGrow(batches: seq<Batch>, parts: seq<Entry>, bytes: nat, entries: seq<Entry>, i: nat, size: Entry -> nat)
    requires WellFormed(entries) && i < |entries| && Packing(batches, parts, bytes, entries, i, size)
    requires (if parts == [] then 2 else bytes + 1) + size(entries[i]) <= PAYLOAD_BYTES
    ensures Packing(batches, parts + [entries[i]], bytes + (if parts != [] then 1 else 0) + size(entries[i]), entries,
                    i + 1, size)
  {
    Prefix(entries, i);
    PayloadGrows(parts, entries[i], size);
    forall e | e in parts ensures e.id != entries[i].id {
      assert e in multiset(entries[..i]);
      NewId(entries, i, e);
    }
  }

  lemma PayloadGrows(parts: seq<Entry>, e: Entry, size: Entry -> nat)
    ensures PayloadSize(parts + [e], size) == PayloadSize(parts, size) + (if parts != [] then 1 else 0) + size(e)
  {
    assert (parts + [e])[..|parts|] == parts;
  }

  lemma NewId(entries: seq<Entry>, i: nat, e: Entry)
    requires DistinctIds(entries) && i < |entries| && e in entries[..i]
    ensures e.id != entries[i].id
  {
    var j :| 0 <= j < i && entries[..i][j] == e;
    assert entries[j].id != entries[i].id;
  }

  lemma {:induction false} NoEmptyBatch(batches: seq<Batch>, size: Entry -> nat)
    requires AllFit(batches, size)
    ensures |Unpack(batches)| >= |batches|
  {
    if batches != [] {
      assert batches[|batches| - 1] in batches;
      forall b | b in batches[..|batches| - 1] ensures b in batches {}
      NoEmptyBatch(batches[..|batches| - 1], size);
    }
  }

  /** A single entry always yields exactly one batch. */
  lemma OneEntryOneBatch(e: Entry, batches: seq<Batch>, size: Entry -> nat)
    requires AllFit(batches, size) && multiset(Unpack(batches)) == multiset([e])
    ensures |batches| == 1 && batches[0].Entries() == [e]
  {
    NoEmptyBatch(batches, size);
    var all := Unpack(batches);
    assert |all| == |multiset(all)| == 1;
    assert Unpack(batches[..0]) == [];
    assert all == batches[0].Entries();
    assert all[0] in multiset([e]);
  }
}
