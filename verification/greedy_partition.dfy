/** In-order partitions of a list into groups of bounded cost: the greedy one has the fewest groups. */
module GreedyPartition {
  function Cost<T(!new)>(xs: seq<T>, cost: T -> nat): nat {
    if xs == [] then 0 else Cost(xs[..|xs| - 1], cost) + cost(xs[|xs| - 1])
  }

  function Flat<T(!new)>(groups: seq<seq<T>>): seq<T> {
    if groups == [] then [] else Flat(groups[..|groups| - 1]) + groups[|groups| - 1]
  }

  ghost predicate Fits<T(!new)>(groups: seq<seq<T>>, cost: T -> nat, room: int) {
    forall i | 0 <= i < |groups| :: groups[i] != [] && Cost(groups[i], cost) <= room
  }

  /** No group could also take the next group's first element. */
  ghost predicate Greedy<T(!new)>(groups: seq<seq<T>>, cost: T -> nat, room: int) {
    forall i | 0 <= i < |groups| - 1 :: Full(groups[i], groups[i + 1], cost, room)
  }

  ghost predicate Full<T(!new)>(group: seq<T>, next: seq<T>, cost: T -> nat, room: int) {
    next != [] && Cost(group, cost) + cost(next[0]) > room
  }

  lemma {:induction false} CostConcat<T(!new)>(a: seq<T>, b: seq<T>, cost: T -> nat)
    ensures Cost(a + b, cost) == Cost(a, cost) + Cost(b, cost)
  {
    if b == [] {
      assert a + b == a;
    } else {
      assert (a + b)[..|a + b| - 1] == a + b[..|b| - 1];
      CostConcat(a, b[..|b| - 1], cost);
    }
  }

  /** A slice that covers another costs at least as much. */
  lemma SliceCost<T(!new)>(all: seq<T>, i: nat, j: nat, k: nat, l: nat, cost: T -> nat)
    requires i <= j <= k <= l <= |all|
    ensures Cost(all[j..k], cost) <= Cost(all[i..l], cost)
  {
    assert all[i..l] == all[i..j] + all[j..k] + all[k..l];
    CostConcat(all[i..j] + all[j..k], all[k..l], cost);
    CostConcat(all[i..j], all[j..k], cost);
  }

  /** How many elements the first n groups cover. */
  function Covered<T(!new)>(groups: seq<seq<T>>, n: nat): nat
    requires n <= |groups|
  {
    |Flat(groups[..n])|
  }

  lemma {:induction false} FlatPrefix<T(!new)>(groups: seq<seq<T>>, n: nat)
    requires n <= |groups|
    ensures Flat(groups[..n]) <= Flat(groups)
    decreases |groups|
  {
    if n == |groups| {
      assert groups[..n] == groups;
    } else {
      FlatPrefix(groups[..|groups| - 1], n);
      assert groups[..|groups| - 1][..n] == groups[..n];
    }
  }

  lemma CoveredStep<T(!new)>(groups: seq<seq<T>>, n: nat)
    requires n < |groups|
    ensures Flat(groups[..n + 1]) == Flat(groups[..n]) + groups[n]
  {
    assert groups[..n + 1][..n] == groups[..n];
  }

  lemma MiddlePart<T>(all: seq<T>, before: seq<T>, group: seq<T>)
    requires before + group <= all
    ensures |before + group| <= |all| && all[|before|..|before + group|] == group
  {
    assert all[..|before + group|] == before + group;
  }

  /** Group n is the part of the whole between what n and n + 1 groups cover. */
  lemma GroupIsSlice<T(!new)>(groups: seq<seq<T>>, n: nat)
    requires n < |groups|
    ensures Covered(groups, n + 1) == Covered(groups, n) + |groups[n]| <= |Flat(groups)|
    ensures groups[n] == Flat(groups)[Covered(groups, n)..Covered(groups, n + 1)]
  {
    FlatPrefix(groups, n + 1);
    CoveredStep(groups, n);
    MiddlePart(Flat(groups), Flat(groups[..n]), groups[n]);
  }

  /** A slice that reaches past a full group into the next one costs too much. */
  lemma PastFullGroup<T(!new)>(all: seq<T>, a: nat, b: nat, i: nat, l: nat, next: seq<T>, cost: T -> nat, room: int)
    requires i <= a <= b < l <= |all| && Full(all[a..b], next, cost, room) && all[b] == next[0]
    ensures Cost(all[i..l], cost) > room
  {
    SliceCost(all, i, a, b + 1, l, cost);
    assert all[a..b + 1][..b - a] == all[a..b];
  }

  /** The greedy partition is never behind another one. */
  lemma {:induction false} GreedyLeads<T(!new)>(greedy: seq<seq<T>>, other: seq<seq<T>>, cost: T -> nat, room: int,
                                                n: nat)
    requires Flat(greedy) == Flat(other) && Greedy(greedy, cost, room) && Fits(other, cost, room)
    requires n < |greedy| && n <= |other|
    ensures Covered(other, n) <= Covered(greedy, n)
  {
    if n > 0 {
      var m := n - 1;
      GreedyLeads(greedy, other, cost, room, m);
      GroupIsSlice(other, m);
      GroupIsSlice(greedy, m);
      GroupIsSlice(greedy, n);
      assert Full(greedy[m], greedy[m + 1], cost, room);
      if Covered(other, n) > Covered(greedy, n) {
        PastFullGroup(Flat(greedy), Covered(greedy, m), Covered(greedy, n), Covered(other, m), Covered(other, n),
                      greedy[n], cost, room);
      }
    }
  }

  /** Any in-order partition of the same list whose groups fit has at least as many groups. */
  lemma GreedyIsMinimal<T(!new)>(greedy: seq<seq<T>>, other: seq<seq<T>>, cost: T -> nat, room: int)
    requires Flat(greedy) == Flat(other) && Fits(greedy, cost, room) && Greedy(greedy, cost, room)
    requires Fits(other, cost, room)
    ensures |greedy| <= |other|
  {
    if |greedy| > |other| {
      var n := |other|;
      GreedyLeads(greedy, other, cost, room, n);
      assert other[..n] == other;
      GroupIsSlice(greedy, n);
    }
  }
}
