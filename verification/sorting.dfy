/** Sorting by a strict order, as the reference for everything the repository merges or pages. */
module Sorting {
  ghost predicate Strict<T(!new)>(lt: (T, T) -> bool) {
    && (forall a :: !lt(a, a))
    && (forall a, b, c :: lt(a, b) && lt(b, c) ==> lt(a, c))
  }

  /** Any two different elements are ordered. */
  ghost predicate Orders<T(!new)>(lt: (T, T) -> bool, xs: seq<T>) {
    forall i, j | 0 <= i < |xs| && 0 <= j < |xs| && i != j :: lt(xs[i], xs[j]) || lt(xs[j], xs[i])
  }

  ghost predicate Sorted<T(!new)>(lt: (T, T) -> bool, xs: seq<T>) {
    forall i, j | 0 <= i < j < |xs| :: lt(xs[i], xs[j])
  }

  function Insert<T(!new)>(lt: (T, T) -> bool, x: T, xs: seq<T>): seq<T> {
    if xs == [] then [x]
    else if lt(x, xs[0]) then [x] + xs
    else [xs[0]] + Insert(lt, x, xs[1..])
  }

  function Sort<T(!new)>(lt: (T, T) -> bool, xs: seq<T>): seq<T> {
    if xs == [] then [] else Insert(lt, xs[0], Sort(lt, xs[1..]))
  }

  lemma {:induction false} InsertPermutes<T(!new)>(lt: (T, T) -> bool, x: T, xs: seq<T>)
    ensures multiset(Insert(lt, x, xs)) == multiset{x} + multiset(xs)
  {
    if xs != [] {
      assert xs == [xs[0]] + xs[1..];
      if !lt(x, xs[0]) { InsertPermutes(lt, x, xs[1..]); }
    }
  }

  lemma {:induction false} SortPermutes<T(!new)>(lt: (T, T) -> bool, xs: seq<T>)
    ensures multiset(Sort(lt, xs)) == multiset(xs)
    ensures |Sort(lt, xs)| == |xs|
  {
    if xs != [] {
      assert xs == [xs[0]] + xs[1..];
      SortPermutes(lt, xs[1..]);
      InsertPermutes(lt, xs[0], Sort(lt, xs[1..]));
    }
    SameSize(Sort(lt, xs), xs);
  }

  lemma SameSize<T(!new)>(a: seq<T>, b: seq<T>)
    requires multiset(a) == multiset(b)
    ensures |a| == |b|
  {
    assert |multiset(a)| == |a| && |multiset(b)| == |b|;
  }

  lemma {:induction false} InsertSorts<T(!new)>(lt: (T, T) -> bool, x: T, xs: seq<T>)
    requires Strict(lt) && Sorted(lt, xs)
    requires forall y | y in xs :: lt(x, y) || lt(y, x)
    ensures Sorted(lt, Insert(lt, x, xs))
  {
    if xs != [] && !lt(x, xs[0]) {
      var rest := Insert(lt, x, xs[1..]);
      InsertSorts(lt, x, xs[1..]);
      InsertPermutes(lt, x, xs[1..]);
      forall y | y in rest ensures lt(xs[0], y) {
        assert y in multiset(rest);
        assert xs[0] in xs;
      }
    } else if xs != [] {
      forall y | y in xs ensures lt(x, y) {}
    }
  }

  lemma {:induction false} SortSorts<T(!new)>(lt: (T, T) -> bool, xs: seq<T>)
    requires Strict(lt) && Orders(lt, xs)
    ensures Sorted(lt, Sort(lt, xs))
  {
    if xs != [] {
      SortSorts(lt, xs[1..]);
      SortPermutes(lt, xs[1..]);
      forall y | y in Sort(lt, xs[1..]) ensures lt(xs[0], y) || lt(y, xs[0]) {
        assert y in multiset(xs[1..]);
      }
      InsertSorts(lt, xs[0], Sort(lt, xs[1..]));
    }
  }

  lemma SameFirst<T(!new)>(lt: (T, T) -> bool, a: seq<T>, b: seq<T>)
    requires Strict(lt) && Sorted(lt, a) && Sorted(lt, b) && multiset(a) == multiset(b) && a != []
    ensures b != [] && a[0] == b[0]
  {
    SameSize(a, b);
    assert a[0] in multiset(b) && b[0] in multiset(a);
  }

  lemma TailMultiset<T(!new)>(a: seq<T>)
    requires a != []
    ensures multiset(a[1..]) == multiset(a) - multiset{a[0]}
  {
    assert a == [a[0]] + a[1..];
  }

  /** A multiset has at most one sorted arrangement. */
  lemma {:induction false} SortedUnique<T(!new)>(lt: (T, T) -> bool, a: seq<T>, b: seq<T>)
    requires Strict(lt) && Sorted(lt, a) && Sorted(lt, b) && multiset(a) == multiset(b)
    ensures a == b
  {
    SameSize(a, b);
    if a != [] {
      SameFirst(lt, a, b);
      TailMultiset(a);
      TailMultiset(b);
      SortedUnique(lt, a[1..], b[1..]);
      assert a == [a[0]] + a[1..] && b == [b[0]] + b[1..];
    }
  }

  lemma OrdersPermuted<T(!new)>(lt: (T, T) -> bool, xs: seq<T>, ys: seq<T>)
    requires Strict(lt) && Orders(lt, xs) && multiset(xs) == multiset(ys)
    ensures Orders(lt, ys)
  {
    SortSorts(lt, xs);
    SortPermutes(lt, xs);
    SortedOrders(lt, Sort(lt, xs), ys);
  }

  lemma SortedOrders<T(!new)>(lt: (T, T) -> bool, xs: seq<T>, ys: seq<T>)
    requires Strict(lt) && Sorted(lt, xs) && multiset(xs) == multiset(ys)
    ensures Orders(lt, ys)
  {
    forall i, j | 0 <= i < |ys| && 0 <= j < |ys| && i != j ensures lt(ys[i], ys[j]) || lt(ys[j], ys[i]) {
      assert ys[i] in multiset(xs) && ys[j] in multiset(xs);
      var a :| 0 <= a < |xs| && xs[a] == ys[i];
      var b :| 0 <= b < |xs| && xs[b] == ys[j];
      if a == b {
        TwiceInMultiset(ys, i, j);
        OnceInSorted(lt, xs, a);
      }
    }
  }

  lemma TwiceInMultiset<T(!new)>(ys: seq<T>, i: nat, j: nat)
    requires i < |ys| && j < |ys| && i != j && ys[i] == ys[j]
    ensures multiset(ys)[ys[i]] >= 2
  {
    var lo, hi := if i < j then i else j, if i < j then j else i;
    assert ys == ys[..lo] + [ys[lo]] + ys[lo + 1..hi] + [ys[hi]] + ys[hi + 1..];
  }

  lemma {:induction false} OnceInSorted<T(!new)>(lt: (T, T) -> bool, xs: seq<T>, a: nat)
    requires Strict(lt) && Sorted(lt, xs) && a < |xs|
    ensures multiset(xs)[xs[a]] == 1
  {
    assert xs == xs[..a] + [xs[a]] + xs[a + 1..];
    assert xs[a] !in xs[..a];
    assert xs[a] !in xs[a + 1..];
  }

  /** A sorted list whose elements all come before everything else starts the sorted whole. */
  lemma SortedPrefix<T(!new)>(lt: (T, T) -> bool, first: seq<T>, rest: seq<T>, all: seq<T>)
    requires Strict(lt) && Orders(lt, all)
    requires Sorted(lt, first) && multiset(first) + multiset(rest) == multiset(all)
    requires forall x, y | x in first && y in rest :: lt(x, y)
    ensures first <= Sort(lt, all)
  {
    OrdersPermuted(lt, all, first + rest);
    OrdersSuffix(lt, first, rest);
    SortSorts(lt, rest);
    SortPermutes(lt, rest);
    var whole := first + Sort(lt, rest);
    forall i, j | 0 <= i < j < |whole| ensures lt(whole[i], whole[j]) {
      if i < |first| <= j {
        assert whole[j] in multiset(Sort(lt, rest));
      }
    }
    SortSorts(lt, all);
    SortPermutes(lt, all);
    SortedUnique(lt, whole, Sort(lt, all));
  }

  lemma OrdersSuffix<T(!new)>(lt: (T, T) -> bool, first: seq<T>, rest: seq<T>)
    requires Orders(lt, first + rest)
    ensures Orders(lt, rest)
  {
    forall i, j | 0 <= i < |rest| && 0 <= j < |rest| && i != j ensures lt(rest[i], rest[j]) || lt(rest[j], rest[i]) {
      var all := first + rest;
      assert all[|first| + i] == rest[i] && all[|first| + j] == rest[j];
    }
  }
}
