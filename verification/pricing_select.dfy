/** Which rows a pricing pass examines next: the first due rows in attempt order. */
module PricingSelect {
  import opened Wrappers
  import opened TextOrder
  import opened Sorting
  import opened TopMerge
  import opened PricingCost

  const PRICING_VERSION: nat := 3

  datatype Money = Money(input: real, output: real, cacheRead: real, write5m: real, write1h: real)

  /** A row of the usage table. */
  datatype Row = Row(id: int, session: string, model: Option<string>, ts: Option<string>, usage: Usage,
                     stored: Option<Money>, epoch: Option<string>, pricedAt: Option<string>, version: nat)

  datatype Candidate = Candidate(id: int, pricedAt: Option<string>)

  /** ORDER BY priced_at, id: NULL first. */
  predicate Before(a: Candidate, b: Candidate) {
    if a.pricedAt == b.pricedAt then a.id < b.id
    else if a.pricedAt.None? then true
    else if b.pricedAt.None? then false
    else Less(a.pricedAt.value, b.pricedAt.value)
  }

  function Order(): (Candidate, Candidate) -> bool { (a, b) => Before(a, b) }

  lemma OrderIsStrict()
    ensures Strict(Order())
  {
    forall a, b, c | Before(a, b) && Before(b, c) ensures Before(a, c) {
      if a.pricedAt.Some? && b.pricedAt.Some? && c.pricedAt.Some? {
        if a.pricedAt != b.pricedAt && b.pricedAt != c.pricedAt {
          LessIsTransitive(a.pricedAt.value, b.pricedAt.value, c.pricedAt.value);
          if a.pricedAt == c.pricedAt { LessIsIrreflexive(a.pricedAt.value); }
        }
      }
    }
  }

  ghost predicate DistinctIds(cs: seq<Candidate>) {
    forall i, j | 0 <= i < j < |cs| :: cs[i].id != cs[j].id
  }

  lemma IdsOrder(a: Candidate, b: Candidate)
    requires a.id != b.id
    ensures Before(a, b) || Before(b, a)
  {
    if a.pricedAt.Some? && b.pricedAt.Some? { LessIsTotal(a.pricedAt.value, b.pricedAt.value); }
  }

  lemma DistinctIdsOrder(cs: seq<Candidate>)
    requires DistinctIds(cs)
    ensures Orders(Order(), cs)
  {
    forall i, j | 0 <= i < |cs| && 0 <= j < |cs| && i != j ensures Order()(cs[i], cs[j]) || Order()(cs[j], cs[i]) {
      assert i < j ==> cs[i].id != cs[j].id;
      assert j < i ==> cs[j].id != cs[i].id;
      IdsOrder(cs[i], cs[j]);
    }
  }

  // ---- Due rows ----

  /** Which attempts of a version a range seeks. */
  datatype Range = Never | Earlier {
    predicate Holds(pricedAt: Option<string>, startedAt: string) {
      if Never? then pricedAt.None? else pricedAt.Some? && Less(pricedAt.value, startedAt)
    }
  }

  /** Not attempted since the pass started. */
  predicate Unattempted(r: Row, startedAt: string) {
    r.pricedAt.None? || Less(r.pricedAt.value, startedAt)
  }

  predicate InScope(r: Row, scope: Option<seq<string>>) {
    scope.None? || r.session in scope.value
  }

  predicate IsDue(r: Row, startedAt: string, scope: Option<seq<string>>, versions: nat) {
    r.version < versions && Unattempted(r, startedAt) && InScope(r, scope)
  }

  function CandidateOf(r: Row): Candidate { Candidate(r.id, r.pricedAt) }

  /** The candidates of the due rows, in table order. */
  function Due(rows: seq<Row>, startedAt: string, scope: Option<seq<string>>, versions: nat): seq<Candidate> {
    if rows == [] then []
    else
      Due(rows[..|rows| - 1], startedAt, scope, versions)
      + if IsDue(rows[|rows| - 1], startedAt, scope, versions) then [CandidateOf(rows[|rows| - 1])] else []
  }

  /** WHERE priced_version = ? AND the attempt range. */
  function Seek(rows: seq<Row>, startedAt: string, version: nat, range: Range): seq<Candidate> {
    if rows == [] then []
    else
      Seek(rows[..|rows| - 1], startedAt, version, range)
      + if rows[|rows| - 1].version == version && range.Holds(rows[|rows| - 1].pricedAt, startedAt)
        then [CandidateOf(rows[|rows| - 1])] else []
  }

  ghost predicate DistinctRows(rows: seq<Row>) {
    forall i, j | 0 <= i < j < |rows| :: rows[i].id != rows[j].id
  }

  // ---- The tree of bounded merges ----

  function Flat(parts: seq<seq<Candidate>>): seq<Candidate> {
    if parts == [] then [] else Flat(parts[..|parts| - 1]) + parts[|parts| - 1]
  }

  lemma {:induction false} FlatConcat(a: seq<seq<Candidate>>, b: seq<seq<Candidate>>)
    ensures Flat(a + b) == Flat(a) + Flat(b)
  {
    if b == [] {
      assert a + b == a;
    } else {
      assert (a + b)[..|a + b| - 1] == a + b[..|b| - 1];
      FlatConcat(a, b[..|b| - 1]);
    }
  }

  /** Each node of a level holds the bounded prefix of its part. */
  ghost predicate LevelOf(level: seq<seq<Candidate>>, parts: seq<seq<Candidate>>, limit: nat) {
    |level| == |parts| && forall i | 0 <= i < |level| :: level[i] == Top(Order(), parts[i], limit)
  }

  lemma PartsOrder(parts: seq<seq<Candidate>>, i: nat)
    requires i + 1 < |parts| && DistinctIds(Flat(parts))
    ensures Orders(Order(), parts[i] + parts[i + 1])
  {
    FlatAround(parts, i);
    Middle(Flat(parts[..i]), parts[i], parts[i + 1], Flat(parts[i + 2..]), Flat(parts));
    DistinctIdsOrder(parts[i] + parts[i + 1]);
  }

  lemma FlatAround(parts: seq<seq<Candidate>>, i: nat)
    requires i + 1 < |parts|
    ensures Flat(parts) == Flat(parts[..i]) + parts[i] + parts[i + 1] + Flat(parts[i + 2..])
  {
    var front, back := parts[..i + 2], parts[i + 2..];
    assert parts == front + back;
    FlatConcat(front, back);
    FlatLastTwo(front);
    assert front[..i] == parts[..i];
  }

  lemma FlatLastTwo(front: seq<seq<Candidate>>)
    requires |front| >= 2
    ensures Flat(front) == Flat(front[..|front| - 2]) + front[|front| - 2] + front[|front| - 1]
  {
    assert front[..|front| - 1][..|front| - 2] == front[..|front| - 2];
  }

  lemma FlatOne(p: seq<Candidate>)
    ensures Flat([p]) == p
  {
    assert [p][..0] == [];
    assert Flat([p][..0]) + p == p;
  }

  lemma Middle(a: seq<Candidate>, b: seq<Candidate>, c: seq<Candidate>, d: seq<Candidate>, all: seq<Candidate>)
    requires all == a + b + c + d && DistinctIds(all)
    ensures DistinctIds(b + c)
  {
    forall i, j | 0 <= i < j < |b + c| ensures (b + c)[i].id != (b + c)[j].id {
      assert all[|a| + i] == (b + c)[i] && all[|a| + j] == (b + c)[j];
    }
  }

  /** One level of pairwise merges; an odd node is carried up. */
  method MergeLevel(level: seq<seq<Candidate>>, limit: nat, ghost parts: seq<seq<Candidate>>)
    returns (next: seq<seq<Candidate>>, ghost nextParts: seq<seq<Candidate>>)
    requires |level| > 1 && LevelOf(level, parts, limit) && DistinctIds(Flat(parts))
    ensures LevelOf(next, nextParts, limit) && Flat(nextParts) == Flat(parts)
    ensures 0 < |next| < |level|
  {
    next, nextParts := [], [];
    var i := 0;
    ghost var done := 0;
    while i < |level|
      invariant 0 <= i <= |level| + 1 && (i == |level| + 1 ==> |level| % 2 == 1)
      invariant LevelOf(next, nextParts, limit) && 2 * |next| == i
      invariant 0 <= done <= |level| && done == (if i < |level| then i else |level|)
      invariant Flat(nextParts) == Flat(parts[..done])
    {
      var node;
      ghost var part;
      node, part := MergeNode(level, i, limit, parts);
      LevelAppend(next, nextParts, limit, node, part);
      ghost var n := if i + 1 == |level| then 1 else 2;
      LevelGrows(nextParts, parts, done, n, part);
      next, nextParts := next + [node], nextParts + [part];
      i, done := i + 2, done + n;
    }
    assert parts[..done] == parts;
  }

  method MergeNode(level: seq<seq<Candidate>>, i: nat, limit: nat, ghost parts: seq<seq<Candidate>>)
    returns (node: seq<Candidate>, ghost part: seq<Candidate>)
    requires i < |level| && LevelOf(level, parts, limit) && DistinctIds(Flat(parts))
    ensures part == if i + 1 == |level| then parts[i] else parts[i] + parts[i + 1]
    ensures node == Top(Order(), part, limit)
  {
    if i + 1 == |level| {
      node, part := level[i], parts[i];
    } else {
      part := parts[i] + parts[i + 1];
      node := MergePair(level, i, limit, parts);
    }
  }

  /** UNION ALL of two bounded prefixes, ordered and bounded again. */
  method MergePair(level: seq<seq<Candidate>>, i: nat, limit: nat, ghost parts: seq<seq<Candidate>>)
    returns (node: seq<Candidate>)
    requires i + 1 < |level| && LevelOf(level, parts, limit) && DistinctIds(Flat(parts))
    ensures node == Top(Order(), parts[i] + parts[i + 1], limit)
  {
    node := Top(Order(), level[i] + level[i + 1], limit);
    OrderIsStrict();
    PartsOrder(parts, i);
    TopOfTops(Order(), parts[i], parts[i + 1], limit);
  }

  lemma LevelGrows(nextParts: seq<seq<Candidate>>, parts: seq<seq<Candidate>>, i: nat, n: nat, node: seq<Candidate>)
    requires 1 <= n <= 2 && i + n <= |parts| && Flat(nextParts) == Flat(parts[..i])
    requires node == if n == 1 then parts[i] else parts[i] + parts[i + 1]
    ensures Flat(nextParts + [node]) == Flat(parts[..i + n])
  {
    FlatAppend(nextParts, node);
    FlatStep(parts, i);
    if n == 2 {
      FlatStep(parts, i + 1);
      Associate(Flat(parts[..i]), parts[i], parts[i + 1]);
    }
  }

  lemma Associate(a: seq<Candidate>, b: seq<Candidate>, c: seq<Candidate>)
    ensures a + b + c == a + (b + c)
  {
  }

  lemma FlatAppend(parts: seq<seq<Candidate>>, node: seq<Candidate>)
    ensures Flat(parts + [node]) == Flat(parts) + node
  {
    assert (parts + [node])[..|parts|] == parts;
  }

  lemma FlatStep(parts: seq<seq<Candidate>>, i: nat)
    requires i < |parts|
    ensures Flat(parts[..i + 1]) == Flat(parts[..i]) + parts[i]
  {
    assert parts[..i + 1][..i] == parts[..i];
  }

  /** Merging pairwise until one node is left gives the bounded prefix of everything. */
  method MergeTree(level0: seq<seq<Candidate>>, limit: nat, ghost parts0: seq<seq<Candidate>>)
    returns (root: seq<Candidate>)
    requires level0 != [] && LevelOf(level0, parts0, limit) && DistinctIds(Flat(parts0))
    ensures root == Top(Order(), Flat(parts0), limit)
  {
    var level := level0;
    ghost var parts := parts0;
    while |level| > 1
      invariant level != [] && LevelOf(level, parts, limit) && Flat(parts) == Flat(parts0)
      decreases |level|
    {
      level, parts := MergeLevel(level, limit, parts);
    }
    root := level[0];
    assert parts == [parts[0]];
    FlatOne(parts[0]);
  }

  // ---- The two ways of selecting ----

  function Both(rows: seq<Row>, startedAt: string, version: nat): seq<Candidate> {
    Seek(rows, startedAt, version, Never) + Seek(rows, startedAt, version, Earlier)
  }

  function Versions(rows: seq<Row>, startedAt: string, n: nat): seq<seq<Candidate>> {
    if n == 0 then [] else Versions(rows, startedAt, n - 1) + [Both(rows, startedAt, n - 1)]
  }

  lemma {:induction false} SeekStep(rows: seq<Row>, startedAt: string, n: nat)
    ensures multiset(Due(rows, startedAt, None, n + 1))
         == multiset(Due(rows, startedAt, None, n)) + multiset(Both(rows, startedAt, n))
  {
    if rows != [] {
      SeekStep(rows[..|rows| - 1], startedAt, n);
    }
  }

  lemma {:induction false} NothingBelowZero(rows: seq<Row>, startedAt: string)
    ensures Due(rows, startedAt, None, 0) == []
  {
    if rows != [] { NothingBelowZero(rows[..|rows| - 1], startedAt); }
  }

  ghost predicate RangesAre(rows: seq<Row>, startedAt: string, n: nat) {
    multiset(Flat(Versions(rows, startedAt, n))) == multiset(Due(rows, startedAt, None, n))
  }

  /** The ranges of all versions are the due rows. */
  lemma {:induction false} RangesAreDue(rows: seq<Row>, startedAt: string, n: nat)
    ensures RangesAre(rows, startedAt, n)
  {
    if n == 0 {
      NoVersions(rows, startedAt);
    } else {
      RangesAreDue(rows, startedAt, n - 1);
      OneMoreVersion(rows, startedAt, n - 1, n);
    }
  }

  lemma NoVersions(rows: seq<Row>, startedAt: string)
    ensures RangesAre(rows, startedAt, 0)
  {
    NothingBelowZero(rows, startedAt);
    assert Flat(Versions(rows, startedAt, 0)) == [];
  }

  lemma OneMoreVersion(rows: seq<Row>, startedAt: string, m: nat, n: nat)
    requires n == m + 1 && RangesAre(rows, startedAt, m)
    ensures RangesAre(rows, startedAt, n)
  {
    var parts, part := Versions(rows, startedAt, m), Both(rows, startedAt, m);
    SeekStep(rows, startedAt, m);
    MoreRanges(parts, part, Due(rows, startedAt, None, m), Due(rows, startedAt, None, n));
    assert Versions(rows, startedAt, n) == parts + [part];
  }

  lemma MoreRanges(parts: seq<seq<Candidate>>, part: seq<Candidate>, due: seq<Candidate>, due': seq<Candidate>)
    requires multiset(Flat(parts)) == multiset(due) && multiset(due') == multiset(due) + multiset(part)
    ensures multiset(Flat(parts + [part])) == multiset(due')
  {
    FlatAppend(parts, part);
  }

  lemma {:induction false} DueMembers(rows: seq<Row>, startedAt: string, scope: Option<seq<string>>, n: nat,
                                      c: Candidate)
    ensures c in Due(rows, startedAt, scope, n)
       <==> exists r :: r in rows && IsDue(r, startedAt, scope, n) && CandidateOf(r) == c
  {
    if rows != [] {
      DueMembers(rows[..|rows| - 1], startedAt, scope, n, c);
      assert rows == rows[..|rows| - 1] + [rows[|rows| - 1]];
    }
  }

  lemma {:induction false} DueDistinct(rows: seq<Row>, startedAt: string, scope: Option<seq<string>>, n: nat)
    requires DistinctRows(rows)
    ensures DistinctIds(Due(rows, startedAt, scope, n))
  {
    if rows != [] {
      var init, last := rows[..|rows| - 1], rows[|rows| - 1];
      DueDistinct(init, startedAt, scope, n);
      forall i | 0 <= i < |Due(init, startedAt, scope, n)| ensures Due(init, startedAt, scope, n)[i].id != last.id {
        DueMembers(init, startedAt, scope, n, Due(init, startedAt, scope, n)[i]);
      }
    }
  }

  lemma DistinctPermuted(a: seq<Candidate>, b: seq<Candidate>)
    requires DistinctIds(a) && multiset(a) == multiset(b)
    ensures DistinctIds(b)
  {
    forall i, j | 0 <= i < j < |b| ensures b[i].id != b[j].id {
      assert b[i] in multiset(a) && b[j] in multiset(a);
      var p :| 0 <= p < |a| && a[p] == b[i];
      var q :| 0 <= q < |a| && a[q] == b[j];
      if p == q {
        TwiceInMultiset(b, i, j);
        OnceInDistinct(a, p);
      }
    }
  }

  lemma OnceInDistinct(a: seq<Candidate>, p: nat)
    requires DistinctIds(a) && p < |a|
    ensures multiset(a)[a[p]] == 1
  {
    assert a == a[..p] + [a[p]] + a[p + 1..];
    assert a[p] !in a[..p] && a[p] !in a[p + 1..];
  }

  lemma TopOfPermutation(a: seq<Candidate>, b: seq<Candidate>, limit: nat)
    requires DistinctIds(a) && multiset(a) == multiset(b)
    ensures Top(Order(), a, limit) == Top(Order(), b, limit)
  {
    DistinctPermuted(a, b);
    OrderIsStrict();
    DistinctIdsOrder(a);
    DistinctIdsOrder(b);
    SortSorts(Order(), a);
    SortPermutes(Order(), a);
    SortSorts(Order(), b);
    SortPermutes(Order(), b);
    SortedUnique(Order(), Sort(Order(), a), Sort(Order(), b));
  }

  /** One version's two ranges, each bounded, then bounded together. */
  method SelectVersion(rows: seq<Row>, startedAt: string, version: nat, limit: nat, ghost versions: nat)
    returns (node: seq<Candidate>)
    requires version < versions && DistinctIds(Flat(Versions(rows, startedAt, versions)))
    ensures node == Top(Order(), Both(rows, startedAt, version), limit)
  {
    var never, earlier := Seek(rows, startedAt, version, Never), Seek(rows, startedAt, version, Earlier);
    BranchOrders(rows, startedAt, version, versions);
    OrderIsStrict();
    TopOfTops(Order(), never, earlier, limit);
    node := Top(Order(), Top(Order(), never, limit) + Top(Order(), earlier, limit), limit);
  }

  lemma LevelAppend(level: seq<seq<Candidate>>, parts: seq<seq<Candidate>>, limit: nat, node: seq<Candidate>,
                    part: seq<Candidate>)
    requires LevelOf(level, parts, limit) && node == Top(Order(), part, limit)
    ensures LevelOf(level + [node], parts + [part], limit)
  {
  }

  /** The candidates of a pass: the first `limit` due rows, however they are sought. */
  method SelectCandidates(rows: seq<Row>, startedAt: string, scope: Option<seq<string>>, limit: nat, versions: nat)
    returns (candidates: seq<Candidate>)
    requires DistinctRows(rows) && versions >= 1
    ensures candidates == Top(Order(), Due(rows, startedAt, scope, versions), limit)
  {
    if scope.Some? { return Top(Order(), Due(rows, startedAt, scope, versions), limit); }
    var level: seq<seq<Candidate>> := [];
    DueDistinct(rows, startedAt, None, versions);
    RangesAreDue(rows, startedAt, versions);
    DistinctPermuted(Due(rows, startedAt, None, versions), Flat(Versions(rows, startedAt, versions)));
    for version := 0 to versions
      invariant LevelOf(level, Versions(rows, startedAt, version), limit) && |level| == version
    {
      var node := SelectVersion(rows, startedAt, version, limit, versions);
      LevelAppend(level, Versions(rows, startedAt, version), limit, node, Both(rows, startedAt, version));
      level := level + [node];
    }
    candidates := MergeTree(level, limit, Versions(rows, startedAt, versions));
    TopOfPermutation(Flat(Versions(rows, startedAt, versions)), Due(rows, startedAt, None, versions), limit);
  }

  lemma {:induction false} VersionsAt(rows: seq<Row>, startedAt: string, version: nat, n: nat)
    requires version < n
    ensures |Versions(rows, startedAt, n)| == n
    ensures Versions(rows, startedAt, n)[version] == Both(rows, startedAt, version)
  {
    VersionsCount(rows, startedAt, n - 1);
    if version < n - 1 { VersionsAt(rows, startedAt, version, n - 1); }
  }

  lemma {:induction false} VersionsCount(rows: seq<Row>, startedAt: string, n: nat)
    ensures |Versions(rows, startedAt, n)| == n
  {
    if n > 0 { VersionsCount(rows, startedAt, n - 1); }
  }

  lemma BranchOrders(rows: seq<Row>, startedAt: string, version: nat, versions: nat)
    requires version < versions && DistinctIds(Flat(Versions(rows, startedAt, versions)))
    ensures Orders(Order(), Both(rows, startedAt, version))
  {
    var parts := Versions(rows, startedAt, versions);
    VersionsAt(rows, startedAt, version, versions);
    FlatStep(parts, version);
    assert parts == parts[..version + 1] + parts[version + 1..];
    FlatConcat(parts[..version + 1], parts[version + 1..]);
    Middle(Flat(parts[..version]), parts[version], [], Flat(parts[version + 1..]), Flat(parts));
    assert parts[version] + [] == parts[version];
    DistinctIdsOrder(parts[version]);
  }
}
