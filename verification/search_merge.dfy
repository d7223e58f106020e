/** The k-way merge of per-shard hit streams that are fetched in bounded pages. */
module SearchMerge {
  import opened Wrappers
  import opened Sorting
  import opened SearchOrder

  const SHARD_HIT_PAGE_SIZE: nat := 256

  type Shards = seq<seq<Hit>>

  function Flatten(xs: Shards): seq<Hit> {
    if xs == [] then [] else xs[0] + Flatten(xs[1..])
  }

  /** Every shard's matching hits in its own ORDER BY order. */
  ghost predicate ShardsSorted(shards: Shards, sort: Option<string>) {
    forall s | 0 <= s < |shards| :: Sorted(Order(sort), shards[s])
  }

  /** Block ids are unique across all shards. */
  ghost predicate UniqueIds(hits: seq<Hit>) {
    forall i, j | 0 <= i < j < |hits| :: hits[i].id != hits[j].id
  }

  /** What a search must return: sort everything, take a slice. */
  function Slice(all: seq<Hit>, offset: nat, count: nat): seq<Hit> {
    var from := if offset < |all| then offset else |all|;
    var to := if from + count < |all| then from + count else |all|;
    all[from..to]
  }

  function SortedHits(shards: Shards, sort: Option<string>): seq<Hit> {
    Sort(Order(sort), Flatten(shards))
  }

  // ---- The merge seen from outside: what was taken, and what each shard still holds ----

  ghost predicate AllPrecede(taken: seq<Hit>, rest: seq<Hit>, sort: Option<string>) {
    forall i, j | 0 <= i < |taken| && 0 <= j < |rest| :: Precedes(taken[i], rest[j], sort)
  }

  ghost predicate Merging(taken: seq<Hit>, rests: Shards, all: seq<Hit>, sort: Option<string>) {
    && Sorted(Order(sort), taken)
    && ShardsSorted(rests, sort)
    && multiset(taken) + multiset(Flatten(rests)) == multiset(all)
    && forall s | 0 <= s < |rests| :: AllPrecede(taken, rests[s], sort)
  }

  /** The head of shard s comes before the head of every other shard that has one. */
  ghost predicate IsLeast(rests: Shards, s: nat, sort: Option<string>)
    requires s < |rests| && rests[s] != []
  {
    forall t | 0 <= t < |rests| && t != s && rests[t] != [] :: Precedes(rests[s][0], rests[t][0], sort)
  }

  lemma {:induction false} FlattenTake(rests: Shards, s: nat)
    requires s < |rests| && rests[s] != []
    ensures multiset(Flatten(rests)) == multiset{rests[s][0]} + multiset(Flatten(rests[s := rests[s][1..]]))
  {
    if s == 0 {
      assert rests[0] == [rests[0][0]] + rests[0][1..];
    } else {
      FlattenTake(rests[1..], s - 1);
      assert rests[s := rests[s][1..]][1..] == rests[1..][s - 1 := rests[s][1..]];
    }
  }

  lemma {:induction false} FlattenMember(rests: Shards, y: Hit) returns (s: nat, j: nat)
    requires y in Flatten(rests)
    ensures s < |rests| && j < |rests[s]| && rests[s][j] == y
  {
    if y in rests[0] {
      s := 0;
      j :| 0 <= j < |rests[0]| && rests[0][j] == y;
    } else {
      var s', j' := FlattenMember(rests[1..], y);
      s, j := s' + 1, j';
    }
  }

  lemma LeastBeforeRest(rests: Shards, s: nat, t: nat, j: nat, sort: Option<string>)
    requires ShardsSorted(rests, sort) && s < |rests| && rests[s] != [] && IsLeast(rests, s, sort)
    requires t < |rests| && j < |rests[t]| && (t == s ==> j > 0)
    ensures Precedes(rests[s][0], rests[t][j], sort)
  {
    assert Sorted(Order(sort), rests[t]);
    if t == s {
      assert Order(sort)(rests[s][0], rests[s][j]);
    } else if j > 0 {
      assert Order(sort)(rests[t][0], rests[t][j]);
      PrecedesIsTransitive(rests[s][0], rests[t][0], rests[t][j], sort);
    }
  }

  /** Taking a least head keeps the merge right. */
  lemma TakeLeast(taken: seq<Hit>, rests: Shards, all: seq<Hit>, s: nat, sort: Option<string>)
    requires Merging(taken, rests, all, sort) && s < |rests| && rests[s] != [] && IsLeast(rests, s, sort)
    ensures Merging(taken + [rests[s][0]], rests[s := rests[s][1..]], all, sort)
  {
    var h, rests' := rests[s][0], rests[s := rests[s][1..]];
    FlattenTake(rests, s);
    forall t | 0 <= t < |rests'| ensures Sorted(Order(sort), rests'[t]) {
      assert Sorted(Order(sort), rests[t]);
    }
    forall t | 0 <= t < |rests'| ensures AllPrecede(taken + [h], rests'[t], sort) {
      assert AllPrecede(taken, rests[t], sort);
      forall j | 0 <= j < |rests'[t]| ensures Precedes(h, rests'[t][j], sort) {
        LeastBeforeRest(rests, s, t, if t == s then j + 1 else j, sort);
      }
    }
    assert AllPrecede(taken, rests[s], sort);
    SortedOneMore(taken, h, sort);
  }

  lemma SortedOneMore(taken: seq<Hit>, h: Hit, sort: Option<string>)
    requires Sorted(Order(sort), taken) && forall i | 0 <= i < |taken| :: Precedes(taken[i], h, sort)
    ensures Sorted(Order(sort), taken + [h])
  {
  }

  lemma UniqueIdsOrders(hits: seq<Hit>, sort: Option<string>)
    requires UniqueIds(hits)
    ensures Orders(Order(sort), hits)
  {
    forall i, j | 0 <= i < |hits| && 0 <= j < |hits| && i != j
      ensures Order(sort)(hits[i], hits[j]) || Order(sort)(hits[j], hits[i])
    {
      PrecedesIsTotal(hits[i], hits[j], sort);
    }
  }

  /** Whatever was taken so far is where the sorted whole begins. */
  lemma TakenIsPrefix(taken: seq<Hit>, rests: Shards, all: seq<Hit>, sort: Option<string>)
    requires Merging(taken, rests, all, sort) && UniqueIds(all)
    ensures taken <= Sort(Order(sort), all)
  {
    forall x, y | x in taken && y in Flatten(rests) ensures Order(sort)(x, y) {
      var s, j := FlattenMember(rests, y);
      var i :| 0 <= i < |taken| && taken[i] == x;
      assert AllPrecede(taken, rests[s], sort);
      assert Precedes(taken[i], rests[s][j], sort);
    }
    OrderIsStrict(sort);
    UniqueIdsOrders(all, sort);
    SortedPrefix(Order(sort), taken, Flatten(rests), all);
  }

  lemma {:induction false} FlattenEmpty(rests: Shards)
    requires forall s | 0 <= s < |rests| :: rests[s] == []
    ensures Flatten(rests) == []
  {
    if rests != [] { FlattenEmpty(rests[1..]); }
  }

  lemma DoneIsAll(taken: seq<Hit>, rests: Shards, all: seq<Hit>, sort: Option<string>)
    requires Merging(taken, rests, all, sort) && UniqueIds(all)
    requires forall s | 0 <= s < |rests| :: rests[s] == []
    ensures taken == Sort(Order(sort), all)
  {
    TakenIsPrefix(taken, rests, all, sort);
    FlattenEmpty(rests);
    SortPermutes(Order(sort), all);
    SameSize(taken, Sort(Order(sort), all));
  }

  // ---- Streams ----

  /** One shard's stream: the page at hand, the place in it, and where the next page starts. */
  datatype Stream = Stream(rows: seq<Hit>, position: nat, nextOffset: nat, done: bool)

  /** LIMIT pageSize + 1 OFFSET offset. */
  function PageAt(hits: seq<Hit>, offset: nat, pageSize: nat): seq<Hit> {
    Slice(hits, offset, pageSize + 1)
  }

  const NO_HIT := Hit(0, 0.0, None, 0.0, None)

  function Head(streams: seq<Stream>, s: nat): Hit {
    if s < |streams| && streams[s].position < |streams[s].rows| then streams[s].rows[streams[s].position] else NO_HIT
  }

  /** The stream has delivered everything of its shard but `rest`. */
  ghost predicate StreamAt(st: Stream, hits: seq<Hit>, rest: seq<Hit>) {
    && st.position <= |st.rows| && st.nextOffset <= |hits|
    && rest == st.rows[st.position..] + hits[st.nextOffset..]
    && (st.done ==> st.nextOffset == |hits|)
    && (st.position == |st.rows| ==> st.done)
  }

  ghost predicate StreamsAt(streams: seq<Stream>, shards: Shards, rests: Shards) {
    && |streams| == |shards| == |rests|
    && forall s | 0 <= s < |shards| :: StreamAt(streams[s], shards[s], rests[s])
  }

  function Opened(hits: seq<Hit>, pageSize: nat): Stream {
    var rows := PageAt(hits, 0, pageSize);
    Stream(rows, 0, |rows|, |rows| <= pageSize)
  }

  lemma OpenedAt(hits: seq<Hit>, pageSize: nat)
    requires pageSize >= 1
    ensures StreamAt(Opened(hits, pageSize), hits, hits)
  {
  }

  /** Some page of some shard cannot be read for this query. */
  ghost predicate Unreadable(shards: nat, readable: (nat, nat) -> bool) {
    exists s, o :: 0 <= s < shards && !readable(s, o)
  }

  /** Moves past the head; reads the next page when this one is used up and more may follow. */
  method Advance(st: Stream, hits: seq<Hit>, pageSize: nat, shard: nat, readable: (nat, nat) -> bool,
                 ghost rest: seq<Hit>)
    returns (next: Option<Stream>)
    requires StreamAt(st, hits, rest) && st.position < |st.rows| && pageSize >= 1
    ensures next.None? ==> !readable(shard, st.nextOffset)
    ensures next.Some? ==> rest != [] && StreamAt(next.value, hits, rest[1..])
  {
    assert rest[1..] == st.rows[st.position + 1..] + hits[st.nextOffset..];
    var position := st.position + 1;
    if position == |st.rows| && !st.done {
      if !readable(shard, st.nextOffset) { return None; }
      var rows := PageAt(hits, st.nextOffset, pageSize);
      next := Some(Stream(rows, 0, st.nextOffset + |rows|, |rows| <= pageSize));
    } else {
      next := Some(st.(position := position));
    }
  }

  // ---- The heap ----

  function ByHead(streams: seq<Stream>, sort: Option<string>): (nat, nat) -> bool {
    (a: nat, b: nat) => Precedes(Head(streams, a), Head(streams, b), sort)
  }

  ghost function Live(rests: Shards): set<nat> {
    set s: nat | s < |rests| && rests[s] != []
  }

  /** The heap holds each shard that has hits left, once. */
  ghost predicate HeapHolds(heap: seq<nat>, rests: Shards) {
    multiset(heap) == multiset(Live(rests))
  }

  /** No hit is in two shards. */
  ghost predicate Disjoint(rests: Shards) {
    forall s, t | 0 <= s < |rests| && 0 <= t < |rests| && s != t :: Apart(rests[s], rests[t])
  }

  ghost predicate Apart(a: seq<Hit>, b: seq<Hit>) {
    forall i, j | 0 <= i < |a| && 0 <= j < |b| :: a[i].id != b[j].id
  }

  ghost predicate Below(heap: seq<nat>, streams: seq<Stream>, sort: Option<string>, parent: nat, child: nat)
    requires parent < |heap| && child < |heap|
  {
    Precedes(Head(streams, heap[parent]), Head(streams, heap[child]), sort)
  }

  /** The array's edges: each parent's left and right child. */
  predicate Edge(parent: int, child: int) {
    0 <= parent && (child == 2 * parent + 1 || child == 2 * parent + 2)
  }

  /** The heap property on every edge except those out of `hole`. */
  ghost predicate HeapExcept(heap: seq<nat>, streams: seq<Stream>, sort: Option<string>, hole: int) {
    forall p, c | Edge(p, c) && c < |heap| && p != hole :: Below(heap, streams, sort, p, c)
  }

  /** Heads of different shards have different ids. */
  ghost predicate DistinctHeads(heap: seq<nat>, streams: seq<Stream>) {
    forall i, j | 0 <= i < j < |heap| :: Head(streams, heap[i]).id != Head(streams, heap[j]).id
  }

  lemma {:induction false} RootIsLeast(heap: seq<nat>, streams: seq<Stream>, sort: Option<string>, i: nat)
    requires HeapExcept(heap, streams, sort, -1) && 0 < i < |heap|
    ensures Below(heap, streams, sort, 0, i)
  {
    var parent := (i - 1) / 2;
    assert Edge(parent, i);
    assert Below(heap, streams, sort, parent, i);
    if parent > 0 {
      RootIsLeast(heap, streams, sort, parent);
      PrecedesIsTransitive(Head(streams, heap[0]), Head(streams, heap[parent]), Head(streams, heap[i]), sort);
    }
  }

  lemma SortedIsHeap(heap: seq<nat>, streams: seq<Stream>, sort: Option<string>)
    requires Sorted(ByHead(streams, sort), heap)
    ensures HeapExcept(heap, streams, sort, -1)
  {
    forall p, c | Edge(p, c) && c < |heap| ensures Below(heap, streams, sort, p, c) {
      assert ByHead(streams, sort)(heap[p], heap[c]);
    }
  }

  /** A child the sift-down may move up: it comes before its sibling. */
  ghost predicate LeastChild(heap: seq<nat>, streams: seq<Stream>, sort: Option<string>, parent: nat, child: nat) {
    && Edge(parent, child) && child < |heap|
    && forall c | Edge(parent, c) && c < |heap| && c != child :: Below(heap, streams, sort, child, c)
  }

  /** Every edge out of the hole goes from the hole's former parent to its children in the right order. */
  ghost predicate HoleCovered(heap: seq<nat>, streams: seq<Stream>, sort: Option<string>, hole: nat) {
    forall p, c | Edge(p, hole) && Edge(hole, c) && c < |heap| :: Below(heap, streams, sort, p, c)
  }

  lemma ChooseChild(heap: seq<nat>, streams: seq<Stream>, sort: Option<string>, parent: nat, child: nat)
    requires DistinctHeads(heap, streams)
    requires 2 * parent + 1 < |heap|
    requires child == if 2 * parent + 2 < |heap|
                         && CompareHits(Head(streams, heap[2 * parent + 2]),
                                        Head(streams, heap[2 * parent + 1]), sort) < 0.0
                      then 2 * parent + 2 else 2 * parent + 1
    ensures LeastChild(heap, streams, sort, parent, child)
  {
    if 2 * parent + 2 < |heap| {
      PrecedesIsTotal(Head(streams, heap[2 * parent + 1]), Head(streams, heap[2 * parent + 2]), sort);
    }
  }

  /** The parent already comes before its least child, hence before both. */
  lemma HoleFilled(heap: seq<nat>, streams: seq<Stream>, sort: Option<string>, parent: nat, child: nat)
    requires HeapExcept(heap, streams, sort, parent) && DistinctHeads(heap, streams)
    requires LeastChild(heap, streams, sort, parent, child)
    requires CompareHits(Head(streams, heap[parent]), Head(streams, heap[child]), sort) <= 0.0
    ensures HeapExcept(heap, streams, sort, -1)
  {
    ComparatorIsSqlOrder(Head(streams, heap[parent]), Head(streams, heap[child]), sort);
    assert Below(heap, streams, sort, parent, child);
    forall c | Edge(parent, c) && c < |heap| && c != child ensures Below(heap, streams, sort, parent, c) {
      assert Below(heap, streams, sort, child, c);
      PrecedesIsTransitive(Head(streams, heap[parent]), Head(streams, heap[child]), Head(streams, heap[c]), sort);
    }
  }

  /** Swapping the parent with a smaller least child moves the hole down and nothing else. */
  lemma HoleMoves(heap: seq<nat>, streams: seq<Stream>, sort: Option<string>, parent: nat, child: nat, heap': seq<nat>)
    requires HeapExcept(heap, streams, sort, parent) && DistinctHeads(heap, streams)
    requires HoleCovered(heap, streams, sort, parent) && LeastChild(heap, streams, sort, parent, child)
    requires CompareHits(Head(streams, heap[parent]), Head(streams, heap[child]), sort) > 0.0
    requires heap' == heap[parent := heap[child]][child := heap[parent]]
    ensures HeapExcept(heap', streams, sort, child) && HoleCovered(heap', streams, sort, child)
  {
    assert Below(heap', streams, sort, parent, child) by {
      PrecedesIsTotal(Head(streams, heap[parent]), Head(streams, heap[child]), sort);
    }
    forall p, c | Edge(p, c) && c < |heap'| && p != child ensures Below(heap', streams, sort, p, c) {
      if p == parent {
        if c != child { assert Below(heap, streams, sort, child, c); }
      } else if c == parent {
        assert Edge(p, parent) && Edge(parent, child);
        assert Below(heap, streams, sort, p, child);
      } else {
        assert Below(heap, streams, sort, p, c);
      }
    }
    forall p, c | Edge(p, child) && Edge(child, c) && c < |heap'| ensures Below(heap', streams, sort, p, c) {
      assert p == parent;
      assert Below(heap, streams, sort, child, c);
    }
  }

  lemma SwapPermutes(heap: seq<nat>, i: nat, j: nat)
    requires i < j < |heap|
    ensures multiset(heap[i := heap[j]][j := heap[i]]) == multiset(heap)
  {
  }

  /** Where a sift-down stands: the heap is right but for the edges out of `hole`. */
  ghost predicate Sifting(heap: seq<nat>, streams: seq<Stream>, sort: Option<string>, hole: nat) {
    HeapExcept(heap, streams, sort, hole) && HoleCovered(heap, streams, sort, hole) && DistinctHeads(heap, streams)
  }

  lemma DistinctSwapped(heap: seq<nat>, streams: seq<Stream>, i: nat, j: nat)
    requires DistinctHeads(heap, streams) && i < j < |heap|
    ensures DistinctHeads(heap[i := heap[j]][j := heap[i]], streams)
  {
  }

  /** One comparison of the sift-down: either the hole is filled, or it moves to the least child. */
  method SiftStep(heap0: seq<nat>, streams: seq<Stream>, sort: Option<string>, parent: nat)
    returns (heap: seq<nat>, hole: nat, settled: bool)
    requires Sifting(heap0, streams, sort, parent) && 2 * parent + 1 < |heap0|
    ensures multiset(heap) == multiset(heap0) && |heap| == |heap0|
    ensures settled ==> HeapExcept(heap, streams, sort, -1)
    ensures !settled ==> Sifting(heap, streams, sort, hole) && parent < hole < |heap|
  {
    heap, hole, settled := heap0, parent, false;
    var left := parent * 2 + 1;
    var right := left + 1;
    var child := if right < |heap| && CompareHits(Head(streams, heap[right]), Head(streams, heap[left]), sort) < 0.0
                 then right else left;
    ChooseChild(heap, streams, sort, parent, child);
    if CompareHits(Head(streams, heap[parent]), Head(streams, heap[child]), sort) <= 0.0 {
      HoleFilled(heap, streams, sort, parent, child);
      settled := true;
    } else {
      heap := heap[parent := heap[child]][child := heap[parent]];
      HoleMoves(heap0, streams, sort, parent, child, heap);
      SwapPermutes(heap0, parent, child);
      DistinctSwapped(heap0, streams, parent, child);
      hole := child;
    }
  }

  lemma LeafHole(heap: seq<nat>, streams: seq<Stream>, sort: Option<string>, hole: nat)
    requires Sifting(heap, streams, sort, hole) && 2 * hole + 1 >= |heap|
    ensures HeapExcept(heap, streams, sort, -1)
  {
  }

  lemma RootHole(heap: seq<nat>, streams: seq<Stream>, sort: Option<string>)
    requires HeapExcept(heap, streams, sort, 0) && DistinctHeads(heap, streams)
    ensures Sifting(heap, streams, sort, 0)
  {
  }

  /** Restores the heap after its root changed. */
  method SiftDown(heap0: seq<nat>, streams: seq<Stream>, sort: Option<string>) returns (heap: seq<nat>)
    requires HeapExcept(heap0, streams, sort, 0) && DistinctHeads(heap0, streams)
    ensures HeapExcept(heap, streams, sort, -1)
    ensures multiset(heap) == multiset(heap0)
  {
    heap := heap0;
    var parent: nat, settled := 0, false;
    RootHole(heap, streams, sort);
    while !settled && parent * 2 + 1 < |heap|
      invariant multiset(heap) == multiset(heap0)
      invariant settled ==> HeapExcept(heap, streams, sort, -1)
      invariant !settled ==> Sifting(heap, streams, sort, parent)
      decreases !settled, |heap| - parent
    {
      heap, parent, settled := SiftStep(heap, streams, sort, parent);
    }
    if !settled { LeafHole(heap, streams, sort, parent); }
  }

  // ---- One turn of the merge loop ----

  ghost predicate MergeInv(heap: seq<nat>, streams: seq<Stream>, shards: Shards, rests: Shards,
                           taken: seq<Hit>, all: seq<Hit>, sort: Option<string>) {
    && StreamsAt(streams, shards, rests)
    && HeapHolds(heap, rests)
    && HeapExcept(heap, streams, sort, -1)
    && Merging(taken, rests, all, sort)
    && Disjoint(rests)
  }

  lemma HeapMembers(heap: seq<nat>, rests: Shards)
    requires HeapHolds(heap, rests)
    ensures forall i | 0 <= i < |heap| :: heap[i] < |rests| && rests[heap[i]] != []
    ensures forall s: nat | s < |rests| && rests[s] != [] :: s in heap
    ensures forall i, j | 0 <= i < j < |heap| :: heap[i] != heap[j]
  {
    forall i | 0 <= i < |heap| ensures heap[i] in Live(rests) {
      assert heap[i] in multiset(heap);
    }
    forall s: nat | s < |rests| && rests[s] != [] ensures s in heap {
      assert s in multiset(Live(rests));
    }
    forall i, j | 0 <= i < j < |heap| ensures heap[i] != heap[j] {
      if heap[i] == heap[j] { TwiceInMultiset(heap, i, j); }
    }
  }

  lemma HeadOfRest(streams: seq<Stream>, shards: Shards, rests: Shards, s: nat)
    requires StreamsAt(streams, shards, rests) && s < |rests| && rests[s] != []
    ensures streams[s].position < |streams[s].rows| && Head(streams, s) == rests[s][0]
  {
    assert StreamAt(streams[s], shards[s], rests[s]);
  }

  lemma HeadsDistinct(heap: seq<nat>, streams: seq<Stream>, shards: Shards, rests: Shards)
    requires StreamsAt(streams, shards, rests) && HeapHolds(heap, rests) && Disjoint(rests)
    ensures DistinctHeads(heap, streams)
  {
    HeapMembers(heap, rests);
    forall i, j | 0 <= i < j < |heap| ensures Head(streams, heap[i]).id != Head(streams, heap[j]).id {
      HeadOfRest(streams, shards, rests, heap[i]);
      HeadOfRest(streams, shards, rests, heap[j]);
      assert Apart(rests[heap[i]], rests[heap[j]]);
    }
  }

  /** The heap's root names a least head of all shards. */
  lemma RootTakesLeast(heap: seq<nat>, streams: seq<Stream>, shards: Shards, rests: Shards, sort: Option<string>)
    requires StreamsAt(streams, shards, rests) && HeapHolds(heap, rests) && HeapExcept(heap, streams, sort, -1)
    requires heap != []
    ensures heap[0] < |rests| && rests[heap[0]] != [] && IsLeast(rests, heap[0], sort)
  {
    HeapMembers(heap, rests);
    HeadOfRest(streams, shards, rests, heap[0]);
    forall t | 0 <= t < |rests| && t != heap[0] && rests[t] != []
      ensures Precedes(rests[heap[0]][0], rests[t][0], sort)
    {
      var i :| 0 <= i < |heap| && heap[i] == t;
      RootIsLeast(heap, streams, sort, i);
      HeadOfRest(streams, shards, rests, t);
    }
  }

  lemma TailsDisjoint(rests: Shards, s: nat)
    requires Disjoint(rests) && s < |rests| && rests[s] != []
    ensures Disjoint(rests[s := rests[s][1..]])
  {
    var rests': Shards := rests[s := rests[s][1..]];
    forall t, u | 0 <= t < |rests'| && 0 <= u < |rests'| && t != u ensures Apart(rests'[t], rests'[u]) {
      assert Apart(rests[t], rests[u]);
    }
  }

  /** Removing the root: the last element takes its place. */
  lemma PopRoot(heap: seq<nat>)
    requires |heap| > 1
    ensures multiset(heap[..|heap| - 1][0 := heap[|heap| - 1]]) == multiset(heap) - multiset{heap[0]}
  {
    var last := |heap| - 1;
    assert heap == [heap[0]] + heap[1..last] + [heap[last]];
    assert heap[..last][0 := heap[last]] == [heap[last]] + heap[1..last];
  }

  lemma LiveAfterTake(rests: Shards, s: nat)
    requires s < |rests| && rests[s] != []
    ensures var rests' := rests[s := rests[s][1..]];
            multiset(Live(rests'))
            == if rests'[s] == [] then multiset(Live(rests)) - multiset{s} else multiset(Live(rests))
  {
    var rests' := rests[s := rests[s][1..]];
    assert Live(rests') == if rests'[s] == [] then Live(rests) - {s} else Live(rests);
  }

  /** Only the root's stream moved, so only edges at the root can be wrong. */
  lemma OnlyRootMoved(heap: seq<nat>, heap': seq<nat>, streams: seq<Stream>, streams': seq<Stream>,
                      sort: Option<string>)
    requires HeapExcept(heap, streams, sort, -1) && heap != []
    requires forall i, j | 0 <= i < j < |heap| :: heap[i] != heap[j]
    requires |heap'| <= |heap| && forall i | 0 < i < |heap'| :: heap'[i] == heap[i]
    requires |streams'| == |streams| && forall t | 0 <= t < |streams| && t != heap[0] :: streams'[t] == streams[t]
    ensures HeapExcept(heap', streams', sort, 0)
  {
    forall p, c | Edge(p, c) && c < |heap'| && p != 0 ensures Below(heap', streams', sort, p, c) {
      assert Below(heap, streams, sort, p, c);
      assert Head(streams', heap[p]) == Head(streams, heap[p]) && Head(streams', heap[c]) == Head(streams, heap[c]);
    }
  }

  /** Drops an exhausted root, then sifts the new root down. */
  method FixHeap(heap0: seq<nat>, streams0: seq<Stream>, streams: seq<Stream>, shards: Shards, sort: Option<string>,
                 ghost rests: Shards, ghost rests': Shards)
    returns (heap: seq<nat>)
    requires heap0 != [] && HeapHolds(heap0, rests) && HeapExcept(heap0, streams0, sort, -1)
    requires heap0[0] < |rests| && rests[heap0[0]] != [] && rests' == rests[heap0[0] := rests[heap0[0]][1..]]
    requires |streams| == |streams0| && forall t | 0 <= t < |streams| && t != heap0[0] :: streams[t] == streams0[t]
    requires StreamsAt(streams, shards, rests') && Disjoint(rests')
    ensures HeapHolds(heap, rests') && HeapExcept(heap, streams, sort, -1)
  {
    heap := heap0;
    var shard := heap[0];
    HeapMembers(heap0, rests);
    LiveAfterTake(rests, shard);
    assert StreamAt(streams[shard], shards[shard], rests'[shard]);
    if streams[shard].position == |streams[shard].rows| {
      var last := heap[|heap| - 1];
      heap := heap[..|heap| - 1];
      if heap == [] {
        assert heap0 == [shard];
        return;
      }
      heap := heap[0 := last];
      PopRoot(heap0);
    }
    OnlyRootMoved(heap0, heap, streams0, streams, sort);
    HeadsDistinct(heap, streams, shards, rests');
    heap := SiftDown(heap, streams, sort);
  }

  lemma StreamsAfterTake(streams: seq<Stream>, shards: Shards, rests: Shards, s: nat, next: Stream)
    requires StreamsAt(streams, shards, rests) && s < |rests| && rests[s] != []
    requires StreamAt(next, shards[s], rests[s][1..])
    ensures StreamsAt(streams[s := next], shards, rests[s := rests[s][1..]])
  {
  }

  /** Takes the root's head: advances its stream and restores the heap. */
  method TakeHead(heap0: seq<nat>, streams0: seq<Stream>, shards: Shards, sort: Option<string>, pageSize: nat,
                  readable: (nat, nat) -> bool, ghost rests: Shards, ghost taken: seq<Hit>, ghost all: seq<Hit>)
    returns (heap: seq<nat>, streams: seq<Stream>, ok: bool, ghost rests': Shards)
    requires MergeInv(heap0, streams0, shards, rests, taken, all, sort) && heap0 != [] && pageSize >= 1
    ensures !ok ==> Unreadable(|shards|, readable)
    ensures ok ==> MergeInv(heap, streams, shards, rests', taken + [Head(streams0, heap0[0])], all, sort)
    ensures |Flatten(rests')| < |Flatten(rests)|
  {
    heap, streams, ok := heap0, streams0, false;
    var shard := heap[0];
    RootTakesLeast(heap, streams, shards, rests, sort);
    HeadOfRest(streams, shards, rests, shard);
    rests' := rests[shard := rests[shard][1..]];
    TakeShrinks(rests, shard);
    assert StreamAt(streams[shard], shards[shard], rests[shard]);
    var next := Advance(streams[shard], shards[shard], pageSize, shard, readable, rests[shard]);
    if next.None? { return; }
    ok := true;
    streams := streams[shard := next.value];
    StreamsAfterTake(streams0, shards, rests, shard, next.value);
    TakeLeast(taken, rests, all, shard, sort);
    TailsDisjoint(rests, shard);
    heap := FixHeap(heap0, streams0, streams, shards, sort, rests, rests');
  }

  // ---- The whole merge ----

  method Nonempty(streams: seq<Stream>) returns (heap: seq<nat>)
    ensures multiset(heap) == multiset(set s: nat | s < |streams| && streams[s].rows != [])
  {
    heap := [];
    for s := 0 to |streams|
      invariant multiset(heap) == multiset(set t: nat | t < s && streams[t].rows != [])
    {
      assert (set t: nat | t < s + 1 && streams[t].rows != [])
          == (set t: nat | t < s && streams[t].rows != []) + if streams[s].rows != [] then {s} else {};
      if streams[s].rows != [] { heap := heap + [s]; }
    }
  }

  lemma ByHeadIsStrict(streams: seq<Stream>, sort: Option<string>)
    ensures Strict(ByHead(streams, sort))
  {
    forall a: nat, b: nat, c: nat | ByHead(streams, sort)(a, b) && ByHead(streams, sort)(b, c)
      ensures ByHead(streams, sort)(a, c)
    {
      PrecedesIsTransitive(Head(streams, a), Head(streams, b), Head(streams, c), sort);
    }
  }

  lemma ByHeadOrders(heap: seq<nat>, streams: seq<Stream>, sort: Option<string>)
    requires DistinctHeads(heap, streams)
    ensures Orders(ByHead(streams, sort), heap)
  {
    forall i, j | 0 <= i < |heap| && 0 <= j < |heap| && i != j
      ensures ByHead(streams, sort)(heap[i], heap[j]) || ByHead(streams, sort)(heap[j], heap[i])
    {
      PrecedesIsTotal(Head(streams, heap[i]), Head(streams, heap[j]), sort);
    }
  }

  lemma {:induction false} FlattenContains(shards: Shards, s: nat, i: nat)
    requires s < |shards| && i < |shards[s]|
    ensures shards[s][i] in Flatten(shards)
  {
    if s > 0 { FlattenContains(shards[1..], s - 1, i); }
  }

  lemma {:induction false} UniqueIdsDisjoint(shards: Shards)
    requires UniqueIds(Flatten(shards))
    ensures Disjoint(shards)
  {
    if shards != [] {
      var rest, flat := Flatten(shards[1..]), Flatten(shards);
      forall i, j | 0 <= i < j < |rest| ensures rest[i].id != rest[j].id {
        assert flat[|shards[0]| + i].id != flat[|shards[0]| + j].id;
      }
      UniqueIdsDisjoint(shards[1..]);
      forall t | 0 < t < |shards| ensures Apart(shards[0], shards[t]) && Apart(shards[t], shards[0]) {
        FirstApart(shards, t);
      }
      forall s, t | 0 <= s < |shards| && 0 <= t < |shards| && s != t ensures Apart(shards[s], shards[t]) {
        if s > 0 && t > 0 { assert Apart(shards[1..][s - 1], shards[1..][t - 1]); }
      }
    }
  }

  lemma FirstApart(shards: Shards, t: nat)
    requires UniqueIds(Flatten(shards)) && 0 < t < |shards|
    ensures Apart(shards[0], shards[t])
  {
    var rest, flat := Flatten(shards[1..]), Flatten(shards);
    forall i, j | 0 <= i < |shards[0]| && 0 <= j < |shards[t]| ensures shards[0][i].id != shards[t][j].id {
      FlattenContains(shards[1..], t - 1, j);
      var k :| 0 <= k < |rest| && rest[k] == shards[t][j];
      assert flat[|shards[0]| + k] == rest[k] && flat[i] == shards[0][i];
    }
  }

  /** Different places of the shards hold different blocks. */
  ghost predicate DistinctPlaces(shards: Shards) {
    forall s, i, t, j | 0 <= s < |shards| && 0 <= i < |shards[s]| && 0 <= t < |shards| && 0 <= j < |shards[t]|
                        && (s, i) != (t, j) ::
      shards[s][i].id != shards[t][j].id
  }

  lemma {:induction false} PlaceOf(shards: Shards, k: nat) returns (s: nat, i: nat)
    requires k < |Flatten(shards)|
    ensures s < |shards| && i < |shards[s]| && shards[s][i] == Flatten(shards)[k]
    ensures k < |shards[0]| ==> s == 0 && i == k
    ensures k >= |shards[0]| ==> s > 0
  {
    if k < |shards[0]| {
      s, i := 0, k;
    } else {
      s, i := PlaceOf(shards[1..], k - |shards[0]|);
      s := s + 1;
    }
  }

  /** Blocks of different shards and places that differ are unique over all shards. */
  lemma {:induction false} PlacesAreUnique(shards: Shards)
    requires DistinctPlaces(shards)
    ensures UniqueIds(Flatten(shards))
  {
    if shards != [] {
      var first, rest, all := shards[0], shards[1..], Flatten(shards);
      RestIsDistinct(shards);
      PlacesAreUnique(rest);
      forall k, l | 0 <= k < l < |all| ensures all[k].id != all[l].id {
        if l < |first| {
          assert shards[0][k].id != shards[0][l].id;
        } else if k < |first| {
          var s, i := PlaceOf(shards, l);
          assert shards[0][k].id != shards[s][i].id;
        } else {
          assert Flatten(rest)[k - |first|].id != Flatten(rest)[l - |first|].id;
        }
      }
    }
  }

  lemma RestIsDistinct(shards: Shards)
    requires DistinctPlaces(shards) && shards != []
    ensures DistinctPlaces(shards[1..])
  {
    var rest: seq<seq<Hit>> := shards[1..];
    forall s: nat, i: nat, t: nat, j: nat | s < |rest| && i < |rest[s]| && t < |rest| && j < |rest[t]|
                        && (s, i) != (t, j)
      ensures rest[s][i].id != rest[t][j].id
    {
      assert shards[s + 1][i].id != shards[t + 1][j].id;
    }
  }

  /** Any hits with such blocks can be searched: each shard's own ORDER BY sorts them. */
  lemma ShardsCanBeSorted(hits: seq<Hit>, sort: Option<string>)
    requires UniqueIds(hits)
    ensures ShardsSorted([Sort(Order(sort), hits)], sort)
  {
    forall i, j | 0 <= i < |hits| && 0 <= j < |hits| && i != j
      ensures Order(sort)(hits[i], hits[j]) || Order(sort)(hits[j], hits[i])
    {
      assert i < j ==> hits[i].id != hits[j].id;
      assert j < i ==> hits[j].id != hits[i].id;
      PrecedesIsTotal(hits[i], hits[j], sort);
    }
    OrderIsStrict(sort);
    SortSorts(Order(sort), hits);
  }

  /** Reads every shard's first page. The shards with a hit, sorted by their heads, are a heap. */
  method OpenStreams(shards: Shards, sort: Option<string>, pageSize: nat, readable: (nat, nat) -> bool)
    returns (streams: seq<Stream>, heap: seq<nat>, ok: bool)
    requires pageSize >= 1 && ShardsSorted(shards, sort) && UniqueIds(Flatten(shards))
    ensures !ok ==> Unreadable(|shards|, readable)
    ensures ok ==> MergeInv(heap, streams, shards, shards, [], Flatten(shards), sort)
  {
    streams, heap, ok := [], [], false;
    for s := 0 to |shards| {
      if !readable(s, 0) { return; }
    }
    ok := true;
    streams := seq(|shards|, s requires 0 <= s < |shards| => Opened(shards[s], pageSize));
    forall s | 0 <= s < |shards| ensures StreamAt(streams[s], shards[s], shards[s]) {
      OpenedAt(shards[s], pageSize);
    }
    var unsorted := Nonempty(streams);
    assert (set s: nat | s < |streams| && streams[s].rows != []) == Live(shards);
    UniqueIdsDisjoint(shards);
    HeadsDistinct(unsorted, streams, shards, shards);
    heap := Sort(ByHead(streams, sort), unsorted);
    ByHeadIsStrict(streams, sort);
    ByHeadOrders(unsorted, streams, sort);
    SortSorts(ByHead(streams, sort), unsorted);
    SortPermutes(ByHead(streams, sort), unsorted);
    SortedIsHeap(heap, streams, sort);
  }

  /** What has been collected after skipping the first `offset` hits. */
  function Tail(taken: seq<Hit>, offset: nat): seq<Hit> {
    if |taken| <= offset then [] else taken[offset..]
  }

  lemma TailGrows(taken: seq<Hit>, h: Hit, offset: nat)
    ensures Tail(taken + [h], offset) == if |taken| >= offset then Tail(taken, offset) + [h] else Tail(taken, offset)
    ensures |Tail(taken, offset)| == if |taken| <= offset then 0 else |taken| - offset
  {
  }

  lemma SliceOfPrefix(first: seq<Hit>, all: seq<Hit>, offset: nat, count: nat)
    requires first <= all && |first| == offset + count
    ensures Tail(first, offset) == Slice(all, offset, count)
  {
  }

  lemma SliceWithProbe(all: seq<Hit>, offset: nat, limit: nat)
    ensures var results := Slice(all, offset, limit + 1);
            && results[..if |results| < limit then |results| else limit] == Slice(all, offset, limit)
            && (|results| > limit <==> offset + limit < |all|)
  {
  }

  /** Once the last wanted hit is taken, the slice is settled. */
  lemma EnoughTaken(heap: seq<nat>, streams: seq<Stream>, shards: Shards, rests: Shards,
                    taken: seq<Hit>, all: seq<Hit>, sort: Option<string>, offset: nat, count: nat)
    requires MergeInv(heap, streams, shards, rests, taken, all, sort) && UniqueIds(all)
    requires heap != [] && |taken| + 1 == offset + count
    ensures Tail(taken + [Head(streams, heap[0])], offset) == Slice(Sort(Order(sort), all), offset, count)
  {
    RootTakesLeast(heap, streams, shards, rests, sort);
    var s := heap[0];
    HeadOfRest(streams, shards, rests, s);
    TakeLeast(taken, rests, all, s, sort);
    TakenIsPrefix(taken + [rests[s][0]], rests[s := rests[s][1..]], all, sort);
    SliceOfPrefix(taken + [rests[s][0]], Sort(Order(sort), all), offset, count);
  }

  lemma AllTaken(streams: seq<Stream>, shards: Shards, rests: Shards, taken: seq<Hit>, all: seq<Hit>,
                 sort: Option<string>, offset: nat, count: nat)
    requires MergeInv([], streams, shards, rests, taken, all, sort) && UniqueIds(all) && |taken| <= offset + count
    ensures Tail(taken, offset) == Slice(Sort(Order(sort), all), offset, count)
  {
    HeapMembers([], rests);
    DoneIsAll(taken, rests, all, sort);
  }

  /** Where the merge loop stands: what it consumed and what it collected. */
  ghost predicate RunInv(heap: seq<nat>, streams: seq<Stream>, shards: Shards, rests: Shards, taken: seq<Hit>,
                         sort: Option<string>, merged: seq<Hit>, consumed: nat, offset: nat, limit: nat) {
    && MergeInv(heap, streams, shards, rests, taken, Flatten(shards), sort)
    && consumed == |taken| <= offset + limit
    && merged == Tail(taken, offset)
  }

  /** The turn that collects one hit more than the limit has the slice. */
  lemma RunIsEnough(heap: seq<nat>, streams: seq<Stream>, shards: Shards, rests: Shards, taken: seq<Hit>,
                    sort: Option<string>, merged0: seq<Hit>, consumed0: nat, merged: seq<Hit>, offset: nat, limit: nat)
    requires RunInv(heap, streams, shards, rests, taken, sort, merged0, consumed0, offset, limit)
    requires UniqueIds(Flatten(shards)) && heap != []
    requires merged == Tail(taken + [Head(streams, heap[0])], offset) && |merged| == limit + 1
    ensures merged == Slice(SortedHits(shards, sort), offset, limit + 1)
  {
    EnoughTaken(heap, streams, shards, rests, taken, Flatten(shards), sort, offset, limit + 1);
  }

  /** One turn of the loop: collect the root's head, stop when enough are collected, else advance. */
  method MergeTurn(heap0: seq<nat>, streams0: seq<Stream>, merged0: seq<Hit>, consumed0: nat, shards: Shards,
                   sort: Option<string>, offset: nat, limit: nat, pageSize: nat, readable: (nat, nat) -> bool,
                   ghost rests: Shards, ghost taken: seq<Hit>)
    returns (heap: seq<nat>, streams: seq<Stream>, merged: seq<Hit>, consumed: nat, ok: bool, enough: bool,
             ghost rests': Shards, ghost taken': seq<Hit>)
    requires UniqueIds(Flatten(shards)) && limit >= 1 && pageSize >= 1 && heap0 != []
    requires RunInv(heap0, streams0, shards, rests, taken, sort, merged0, consumed0, offset, limit)
    ensures !ok ==> Unreadable(|shards|, readable)
    ensures enough ==> merged == Slice(SortedHits(shards, sort), offset, limit + 1)
    ensures ok && !enough ==> RunInv(heap, streams, shards, rests', taken', sort, merged, consumed, offset, limit)
    ensures ok && !enough ==> |Flatten(rests')| < |Flatten(rests)|
  {
    heap, streams, ok, rests' := heap0, streams0, true, rests;
    var head := Head(streams0, heap0[0]);
    taken' := taken + [head];
    merged := Collect(merged0, consumed0, head, offset, taken);
    consumed := consumed0 + 1;
    enough := |merged| == limit + 1;
    if enough {
      RunIsEnough(heap0, streams0, shards, rests, taken, sort, merged0, consumed0, merged, offset, limit);
      return;
    }
    heap, streams, ok, rests' := TakeHead(heap0, streams0, shards, sort, pageSize, readable, rests, taken,
                                          Flatten(shards));
    if ok { RunGoesOn(heap, streams, shards, rests', taken', sort, merged, consumed, offset, limit); }
  }

  /** Hits before the offset are consumed and not collected. */
  method Collect(merged0: seq<Hit>, consumed: nat, head: Hit, offset: nat, ghost taken: seq<Hit>)
    returns (merged: seq<Hit>)
    requires consumed == |taken| && merged0 == Tail(taken, offset)
    ensures merged == Tail(taken + [head], offset)
  {
    TailGrows(taken, head, offset);
    merged := if consumed >= offset then merged0 + [head] else merged0;
  }

  lemma RunGoesOn(heap: seq<nat>, streams: seq<Stream>, shards: Shards, rests: Shards, taken: seq<Hit>,
                  sort: Option<string>, merged: seq<Hit>, consumed: nat, offset: nat, limit: nat)
    requires MergeInv(heap, streams, shards, rests, taken, Flatten(shards), sort)
    requires consumed == |taken| <= offset + limit + 1
    requires merged == Tail(taken, offset) && |merged| != limit + 1
    ensures RunInv(heap, streams, shards, rests, taken, sort, merged, consumed, offset, limit)
  {
  }

  lemma RunStarts(heap: seq<nat>, streams: seq<Stream>, shards: Shards, sort: Option<string>, offset: nat, limit: nat)
    requires MergeInv(heap, streams, shards, shards, [], Flatten(shards), sort)
    ensures RunInv(heap, streams, shards, shards, [], sort, [], 0, offset, limit)
  {
  }

  lemma RunEnds(streams: seq<Stream>, shards: Shards, rests: Shards, taken: seq<Hit>, sort: Option<string>,
                merged: seq<Hit>, consumed: nat, offset: nat, limit: nat)
    requires RunInv([], streams, shards, rests, taken, sort, merged, consumed, offset, limit)
    requires UniqueIds(Flatten(shards))
    ensures merged == Slice(SortedHits(shards, sort), offset, limit + 1)
  {
    AllTaken(streams, shards, rests, taken, Flatten(shards), sort, offset, limit + 1);
  }

  /** The merge returns exactly the requested slice of the globally sorted hits, plus one hit that
      tells whether more follow; or nothing, and then some page could not be read. */
  method Run(shards: Shards, sort: Option<string>, offset: nat, limit: nat, pageSize: nat, readable: (nat, nat) -> bool)
    returns (result: Option<seq<Hit>>)
    requires ShardsSorted(shards, sort) && UniqueIds(Flatten(shards)) && limit >= 1 && pageSize >= 1
    ensures result.None? ==> exists s, page :: 0 <= s < |shards| && !readable(s, page)
    ensures result.Some? ==> result.value == Slice(SortedHits(shards, sort), offset, limit + 1)
  {
    var streams, heap, ok := OpenStreams(shards, sort, pageSize, readable);
    if !ok { return None; }
    ghost var rests, taken := shards, [];
    var merged, consumed: nat, enough := [], 0, false;
    RunStarts(heap, streams, shards, sort, offset, limit);
    while heap != []
      invariant RunInv(heap, streams, shards, rests, taken, sort, merged, consumed, offset, limit)
      decreases |Flatten(rests)|
    {
      heap, streams, merged, consumed, ok, enough, rests, taken :=
        MergeTurn(heap, streams, merged, consumed, shards, sort, offset, limit, pageSize, readable, rests, taken);
      if enough { return Some(merged); }
      if !ok { return None; }
    }
    RunEnds(streams, shards, rests, taken, sort, merged, consumed, offset, limit);
    result := Some(merged);
  }

  lemma TakeShrinks(rests: Shards, s: nat)
    requires s < |rests| && rests[s] != []
    ensures |Flatten(rests[s := rests[s][1..]])| < |Flatten(rests)|
  {
    FlattenTake(rests, s);
    var a, b := Flatten(rests), Flatten(rests[s := rests[s][1..]]);
    assert |multiset(a)| == |a| && |multiset(b)| == |b|;
  }

  // ---- Cursors ----

  /** One search response: a page of hits and, when more follow, the offset of the next page. */
  method RunSearch(shards: Shards, sort: Option<string>, offset: nat, limit: nat, readable: (nat, nat) -> bool)
    returns (result: Option<(seq<Hit>, Option<nat>)>)
    requires ShardsSorted(shards, sort) && UniqueIds(Flatten(shards)) && limit >= 1
    ensures result.None? ==> exists s, page :: 0 <= s < |shards| && !readable(s, page)
    ensures result.Some? ==> result.value == Response(SortedHits(shards, sort), offset, limit)
  {
    var pageSize := if offset + limit < SHARD_HIT_PAGE_SIZE then offset + limit else SHARD_HIT_PAGE_SIZE;
    var rows := Run(shards, sort, offset, limit, pageSize, readable);
    if rows.None? { return None; }
    var results := rows.value;
    SliceWithProbe(SortedHits(shards, sort), offset, limit);
    result := Some((results[..if |results| < limit then |results| else limit],
                    if |results| > limit then Some(offset + limit) else None));
  }

  function Response(all: seq<Hit>, offset: nat, limit: nat): (seq<Hit>, Option<nat>) {
    (Slice(all, offset, limit), if offset + limit < |all| then Some(offset + limit) else None)
  }

  /** Everything a client collects by following cursors from an offset. */
  function Follow(all: seq<Hit>, offset: nat, limit: nat): seq<Hit>
    requires limit >= 1
    decreases |all| - offset
  {
    var r := Response(all, offset, limit);
    r.0 + if r.1.Some? then Follow(all, r.1.value, limit) else []
  }

  lemma {:induction false} FollowFrom(all: seq<Hit>, offset: nat, limit: nat)
    requires limit >= 1
    ensures Follow(all, offset, limit) == all[if offset < |all| then offset else |all|..]
    decreases |all| - offset
  {
    var next := offset + limit;
    ResponseIs(all, offset, limit);
    if next < |all| {
      FollowFrom(all, next, limit);
      Resume(all, offset, next);
    }
  }

  lemma ResponseIs(all: seq<Hit>, offset: nat, limit: nat)
    ensures offset + limit < |all| ==>
      Response(all, offset, limit) == (all[offset..offset + limit], Some(offset + limit))
    ensures offset + limit >= |all| ==>
      Response(all, offset, limit) == (all[if offset < |all| then offset else |all|..], None)
  {
    if offset + limit >= |all| {
      var from := if offset < |all| then offset else |all|;
      var to := if from + limit < |all| then from + limit else |all|;
      assert to == |all|;
      assert all[from..to] == all[from..];
    }
  }

  lemma Resume(all: seq<Hit>, from: nat, to: nat)
    requires from <= to <= |all|
    ensures all[from..] == all[from..to] + all[to..]
  {
  }

  /** Following the emitted cursors from the start enumerates every hit of every shard once, in order. */
  lemma CursorsEnumerateAll(shards: Shards, sort: Option<string>, limit: nat)
    requires limit >= 1
    ensures Follow(SortedHits(shards, sort), 0, limit) == SortedHits(shards, sort)
    ensures multiset(Follow(SortedHits(shards, sort), 0, limit)) == multiset(Flatten(shards))
  {
    FollowFrom(SortedHits(shards, sort), 0, limit);
    SortPermutes(Order(sort), Flatten(shards));
  }
}
