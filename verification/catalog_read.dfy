/** Reading catalog entries from one consistent main snapshot. */
module CatalogRead {
  import opened Wrappers
  import opened CatalogShard
  import opened CatalogProtocol

  /** new Map(rows): a later row replaces an earlier one with the same key. */
  function MapOf<V>(rows: seq<(string, V)>): map<string, V> {
    if rows == [] then map[] else MapOf(rows[..|rows| - 1])[rows[|rows| - 1].0 := rows[|rows| - 1].1]
  }

  function StarsFor(stars: seq<Star>, id: string): seq<Star> {
    if stars == [] then []
    else if stars[|stars| - 1].id == id then StarsFor(stars[..|stars| - 1], id) + [stars[|stars| - 1]]
    else StarsFor(stars[..|stars| - 1], id)
  }

  function VersionFor(versions: map<string, Option<nat>>, id: string): Option<nat> {
    if id in versions then versions[id] else None
  }

  /** Catalog rows without a catalog version. */
  predicate Orphan(versions: map<string, Option<nat>>, sessions: map<string, Row>, stars: seq<Star>, id: string) {
    VersionFor(versions, id).None? && (id in sessions || StarsFor(stars, id) != [])
  }

  predicate HasOrphan(ids: seq<string>, versions: map<string, Option<nat>>, sessions: map<string, Row>,
                      stars: seq<Star>)
  {
    exists i :: 0 <= i < |ids| && Orphan(versions, sessions, stars, ids[i])
  }

  /** One entry for each id that has a version, in the order of the ids. */
  function Entries(ids: seq<string>, versions: map<string, Option<nat>>, sessions: map<string, Row>,
                   stars: seq<Star>): seq<Entry>
  {
    if ids == [] then []
    else
      var id := ids[|ids| - 1];
      Entries(ids[..|ids| - 1], versions, sessions, stars)
      + match VersionFor(versions, id)
        case None => []
        case Some(v) => [Entry(id, v, RowIn(sessions, id), StarsFor(stars, id))]
  }

  lemma StarsForStep(stars: seq<Star>, i: nat, id: string)
    requires i < |stars|
    ensures StarsFor(stars[..i + 1], id) == StarsFor(stars[..i], id) + if stars[i].id == id then [stars[i]] else []
  {
    assert stars[..i + 1][..i] == stars[..i];
  }

  /** The grouping of the stars by session: a list per session that has any. */
  method GroupStars(stars: seq<Star>) returns (byId: map<string, seq<Star>>)
    ensures forall id :: (if id in byId then byId[id] else []) == StarsFor(stars, id)
  {
    byId := map[];
    for i := 0 to |stars|
      invariant forall id :: (if id in byId then byId[id] else []) == StarsFor(stars[..i], id)
    {
      var star := stars[i];
      ghost var before := byId;
      byId := byId[star.id := if star.id in byId then byId[star.id] + [star] else [star]];
      forall id ensures (if id in byId then byId[id] else []) == StarsFor(stars[..i + 1], id) {
        StarsForStep(stars, i, id);
        assert (if id in before then before[id] else []) == StarsFor(stars[..i], id);
      }
    }
    assert stars[..|stars|] == stars;
  }

  method CatalogEntries(ids: seq<string>, versionRows: seq<(string, Option<nat>)>, sessionRows: seq<(string, Row)>,
                        stars: seq<Star>)
    returns (entries: Option<seq<Entry>>)
    ensures entries.None? <==> HasOrphan(ids, MapOf(versionRows), MapOf(sessionRows), stars)
    ensures entries.Some? ==> entries.value == Entries(ids, MapOf(versionRows), MapOf(sessionRows), stars)
  {
    var versions, sessions := MapOf(versionRows), MapOf(sessionRows);
    var byId := GroupStars(stars);
    var list: seq<Entry> := [];
    for i := 0 to |ids|
      invariant forall k | 0 <= k < i :: !Orphan(versions, sessions, stars, ids[k])
      invariant list == Entries(ids[..i], versions, sessions, stars)
    {
      var id := ids[i];
      assert ids[..i + 1][..i] == ids[..i];
      var version := if id in versions then versions[id] else None;
      var session := if id in sessions then Some(sessions[id]) else None;
      var own := if id in byId then byId[id] else [];
      if version.None? {
        if session.Some? || |own| > 0 {
          assert Orphan(versions, sessions, stars, ids[i]);
          return None;
        }
        continue;
      }
      list := list + [Entry(id, version.value, session, own)];
    }
    assert ids[..|ids|] == ids;
    entries := Some(list);
  }

  // ---- The queries ----

  /** ids LEFT JOIN session_catalog_versions. */
  function SelectVersions(m: Main, ids: seq<string>): seq<(string, Option<nat>)> {
    seq(|ids|, i requires 0 <= i < |ids| => (ids[i], if ids[i] in m.versions then Some(m.versions[ids[i]]) else None))
  }

  function SelectSessions(m: Main, ids: seq<string>): seq<(string, Row)> {
    if ids == [] then []
    else SelectSessions(m, ids[..|ids| - 1])
         + if ids[|ids| - 1] in m.sessions then [(ids[|ids| - 1], m.sessions[ids[|ids| - 1]])] else []
  }

  /** The rows are exactly the stars of these sessions, each once. */
  ghost predicate Lists(m: Main, ids: seq<string>, rows: seq<Star>) {
    forall r :: r in rows <==> r in m.stars && r.id in ids
  }

  method SelectStars(m: Main, ids: seq<string>) returns (rows: seq<Star>)
    ensures Lists(m, ids, rows)
  {
    rows := [];
    var rest := set r | r in m.stars && r.id in ids;
    while rest != {}
      invariant forall r :: r in rows || r in rest <==> r in m.stars && r.id in ids
      decreases |rest|
    {
      var r :| r in rest;
      rest := rest - {r};
      rows := rows + [r];
    }
  }

  lemma {:induction false} VersionsAsMap(m: Main, ids: seq<string>, id: string)
    requires id in ids
    ensures VersionFor(MapOf(SelectVersions(m, ids)), id) == if id in m.versions then Some(m.versions[id]) else None
  {
    var rows, init := SelectVersions(m, ids), ids[..|ids| - 1];
    assert rows[..|rows| - 1] == SelectVersions(m, init);
    if ids[|ids| - 1] != id {
      VersionsAsMap(m, init, id);
    }
  }

  lemma {:induction false} SessionsAsMap(m: Main, ids: seq<string>, id: string)
    ensures RowIn(MapOf(SelectSessions(m, ids)), id) == if id in ids then RowIn(m.sessions, id) else None
  {
    if ids != [] {
      var init, last := ids[..|ids| - 1], ids[|ids| - 1];
      SessionsAsMap(m, init, id);
      var rows := SelectSessions(m, ids);
      if last in m.sessions {
        assert rows[..|rows| - 1] == SelectSessions(m, init);
      } else {
        assert rows == SelectSessions(m, init);
      }
    }
  }

  lemma {:induction false} StarsForMembers(stars: seq<Star>, id: string, r: Star)
    ensures r in StarsFor(stars, id) <==> r in stars && r.id == id
  {
    if stars != [] { StarsForMembers(stars[..|stars| - 1], id, r); }
  }

  /** The entry read for a session carries what main shows for it, at main's version. */
  lemma EntryShows(m: Main, ids: seq<string>, stars: seq<Star>, id: string, e: Entry)
    requires id in ids && Lists(m, ids, stars) && id in m.versions
    requires e == Entry(id, m.versions[id], RowIn(MapOf(SelectSessions(m, ids)), id), StarsFor(stars, id))
    ensures e.id == id && e.version == Version(m, id) && Carries(e) == MainShows(m, id) && OwnStars(e)
  {
    SessionsAsMap(m, ids, id);
    forall r ensures r in Carries(e).stars <==> r in MainShows(m, id).stars {
      StarsForMembers(stars, id, r);
    }
    forall r | r in e.stars ensures r.id == id {
      StarsForMembers(stars, id, r);
    }
  }

  /** An id without a version has no rows when main is as the triggers keep it. */
  lemma NoOrphan(w: World, ids: seq<string>, stars: seq<Star>, id: string)
    requires Inv(w) && id in ids && Lists(w.main, ids, stars)
    ensures !Orphan(MapOf(SelectVersions(w.main, ids)), MapOf(SelectSessions(w.main, ids)), stars, id)
    ensures id in w.main.versions ==> w.main.versions[id] >= 1
  {
    assert SessionInv(w, id);
    VersionsAsMap(w.main, ids, id);
    SessionsAsMap(w.main, ids, id);
    if id !in w.main.versions {
      assert (id, 0) !in w.history;
      assert MainShows(w.main, id) == NOTHING;
      var own := StarsFor(stars, id);
      assert own == [] || own[0] in own;
      forall r ensures r !in own {
        StarsForMembers(stars, id, r);
        assert r !in StarsIn(w.main.stars, id);
      }
    }
  }

  ghost predicate Distinct(ids: seq<string>) {
    forall i, j | 0 <= i < j < |ids| :: ids[i] != ids[j]
  }

  /** The entry is main's present state of one of the ids. */
  ghost predicate FromMain(m: Main, ids: seq<string>, e: Entry) {
    && e.id in ids && e.version >= 1 && e.version == Version(m, e.id)
    && Carries(e) == MainShows(m, e.id) && OwnStars(e)
  }

  ghost predicate HasEntry(es: seq<Entry>, id: string) {
    exists e :: e in es && e.id == id
  }

  /** What a snapshot read gives: one entry for each id main knows, each main's present state. */
  ghost predicate EntriesOfMain(m: Main, ids: seq<string>, es: seq<Entry>) {
    && DistinctIds(es)
    && (forall e | e in es :: FromMain(m, ids, e))
    && (forall id | id in ids && Version(m, id) > 0 :: HasEntry(es, id))
  }

  lemma FreshEntry(m: Main, ids: seq<string>, es: seq<Entry>, id: string, e: Entry)
    requires EntriesOfMain(m, ids, es) && id !in ids && FromMain(m, ids + [id], e) && e.id == id
    ensures EntriesOfMain(m, ids + [id], es + [e])
  {
    forall f | f in es + [e] ensures FromMain(m, ids + [id], f) && (f != e ==> f.id != id) {
      assert f != e ==> f in es && FromMain(m, ids, f);
    }
    forall i | 0 <= i < |es| ensures es[i].id != e.id {
      assert es[i] in es && FromMain(m, ids, es[i]);
    }
    forall o | o in ids + [id] && Version(m, o) > 0 ensures HasEntry(es + [e], o) {
      if o == id {
        assert e in es + [e];
      } else {
        assert HasEntry(es, o);
        var f :| f in es && f.id == o;
        assert f in es + [e];
      }
    }
  }

  lemma NoEntry(m: Main, ids: seq<string>, es: seq<Entry>, id: string)
    requires EntriesOfMain(m, ids, es) && Version(m, id) == 0
    ensures EntriesOfMain(m, ids + [id], es)
  {
  }

  lemma {:induction false} EntriesUpTo(w: World, ids: seq<string>, stars: seq<Star>, n: nat)
    requires Inv(w) && Distinct(ids) && Lists(w.main, ids, stars) && n <= |ids|
    ensures EntriesOfMain(w.main, ids[..n],
                          Entries(ids[..n], MapOf(SelectVersions(w.main, ids)),
                                  MapOf(SelectSessions(w.main, ids)), stars))
  {
    if n > 0 {
      var versions, sessions := MapOf(SelectVersions(w.main, ids)), MapOf(SelectSessions(w.main, ids));
      var id := ids[n - 1];
      EntriesUpTo(w, ids, stars, n - 1);
      assert ids[..n] == ids[..n - 1] + [id] && ids[..n][..n - 1] == ids[..n - 1];
      VersionsAsMap(w.main, ids, id);
      NoOrphan(w, ids, stars, id);
      var es := Entries(ids[..n - 1], versions, sessions, stars);
      if id in w.main.versions {
        var e := Entry(id, w.main.versions[id], RowIn(sessions, id), StarsFor(stars, id));
        EntryShows(w.main, ids, stars, id, e);
        FreshEntry(w.main, ids[..n - 1], es, id, e);
      } else {
        NoEntry(w.main, ids[..n - 1], es, id);
      }
    }
  }

  /** Reading a snapshot never fails on a main the triggers keep, and gives every known session's present state. */
  lemma SnapshotIsHonest(w: World, ids: seq<string>, stars: seq<Star>)
    requires Inv(w) && Distinct(ids) && Lists(w.main, ids, stars)
    ensures !HasOrphan(ids, MapOf(SelectVersions(w.main, ids)), MapOf(SelectSessions(w.main, ids)), stars)
    ensures EntriesOfMain(w.main, ids,
                          Entries(ids, MapOf(SelectVersions(w.main, ids)), MapOf(SelectSessions(w.main, ids)), stars))
  {
    forall i | 0 <= i < |ids|
      ensures !Orphan(MapOf(SelectVersions(w.main, ids)), MapOf(SelectSessions(w.main, ids)), stars, ids[i])
    {
      NoOrphan(w, ids, stars, ids[i]);
    }
    EntriesUpTo(w, ids, stars, |ids|);
    assert ids[..|ids|] == ids;
  }

  /** Entries read from main are well formed and honest. */
  lemma FromMainIsHonest(w: World, ids: seq<string>, es: seq<Entry>)
    requires Inv(w) && EntriesOfMain(w.main, ids, es)
    ensures WellFormed(es) && AllHonest(w, es)
  {
    forall e | e in es ensures Honest(w, e) && e.version >= 1 && OwnStars(e) {
      assert FromMain(w.main, ids, e);
      assert SessionInv(w, e.id);
    }
  }
}
