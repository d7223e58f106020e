/** The first n of a sorted whole, from the first n of its sorted parts. */
module TopMerge {
  import opened Sorting

  function First<T>(xs: seq<T>, n: nat): seq<T> {
    if |xs| <= n then xs else xs[..n]
  }

  /** ORDER BY ... LIMIT n. */
  function Top<T(!new)>(lt: (T, T) -> bool, xs: seq<T>, n: nat): seq<T> {
    First(Sort(lt, xs), n)
  }

  function Merge<T>(lt: (T, T) -> bool, a: seq<T>, b: seq<T>): seq<T> {
    if a == [] then b
    else if b == [] then a
    else if lt(a[0], b[0]) then [a[0]] + Merge(lt, a[1..], b)
    else [b[0]] + Merge(lt, a, b[1..])
  }

  lemma {:induction false} MergePermutes<T>(lt: (T, T) -> bool, a: seq<T>, b: seq<T>)
    ensures multiset(Merge(lt, a, b)) == multiset(a) + multiset(b)
  {
    if a != [] && b != [] {
      if lt(a[0], b[0]) {
        MergePermutes(lt, a[1..], b);
        assert a == [a[0]] + a[1..];
      } else {
        MergePermutes(lt, a, b[1..]);
        assert b == [b[0]] + b[1..];
      }
    }
  }

  /** Any element of one list and any of the other are ordered. */
  ghost predicate Crossed<T(!new)>(lt: (T, T) -> bool, a: seq<T>, b: seq<T>) {
    forall x, y | x in a && y in b :: lt(x, y) || lt(y, x)
  }

  lemma FirstIsLeast<T(!new)>(lt: (T, T) -> bool, x: T, a: seq<T>, b: seq<T>, m: seq<T>)
    requires Strict(lt) && Sorted(lt, a) && Sorted(lt, b) && b != [] && lt(x, b[0])
    requires forall y | y in a :: lt(x, y)
    requires multiset(m) == multiset(a) + multiset(b) && Sorted(lt, m)
    ensures Sorted(lt, [x] + m)
  {
    forall y | y in m ensures lt(x, y) {
      assert y in multiset(m);
      if y in b && y != b[0] {
        var i :| 0 <= i < |b| && b[i] == y;
        assert lt(b[0], b[i]);
      }
    }
  }

  lemma TailSorted<T(!new)>(lt: (T, T) -> bool, a: seq<T>)
    requires Sorted(lt, a) && a != []
    ensures Sorted(lt, a[1..]) && forall y | y in a[1..] :: lt(a[0], y)
  {
    forall y | y in a[1..] ensures lt(a[0], y) {
      var i :| 0 <= i < |a| - 1 && a[1..][i] == y;
      assert lt(a[0], a[i + 1]);
    }
  }

  lemma {:induction false} MergeSorts<T(!new)>(lt: (T, T) -> bool, a: seq<T>, b: seq<T>)
    requires Strict(lt) && Sorted(lt, a) && Sorted(lt, b) && Crossed(lt, a, b)
    ensures Sorted(lt, Merge(lt, a, b))
  {
    if a != [] && b != [] {
      assert lt(a[0], b[0]) || lt(b[0], a[0]) by { assert a[0] in a && b[0] in b; }
      TailSorted(lt, a);
      TailSorted(lt, b);
      if lt(a[0], b[0]) {
        MergeSorts(lt, a[1..], b);
        MergePermutes(lt, a[1..], b);
        FirstIsLeast(lt, a[0], a[1..], b, Merge(lt, a[1..], b));
      } else {
        MergeSorts(lt, a, b[1..]);
        MergePermutes(lt, a, b[1..]);
        FirstIsLeast(lt, b[0], b[1..], a, Merge(lt, a, b[1..]));
      }
    }
  }

  lemma FirstCons<T>(x: T, m: seq<T>, n: nat)
    requires n > 0
    ensures First([x] + m, n) == [x] + First(m, n - 1)
  {
  }

  lemma FirstTail<T>(a: seq<T>, n: nat)
    requires n > 0 && a != []
    ensures First(a, n) != [] && First(a, n)[0] == a[0] && First(a, n)[1..] == First(a[1..], n - 1)
    ensures First(First(a, n), n - 1) == First(a, n - 1)
  {
  }

  /** Truncating both inputs first does not change what the merge starts with. */
  lemma {:induction false} FirstOfMerge<T>(lt: (T, T) -> bool, a: seq<T>, b: seq<T>, n: nat)
    ensures First(Merge(lt, a, b), n) == First(Merge(lt, First(a, n), First(b, n)), n)
    decreases n, |a| + |b|
  {
    if n > 0 && a != [] && b != [] {
      var ta, tb := First(a, n), First(b, n);
      FirstTail(a, n);
      FirstTail(b, n);
      if lt(a[0], b[0]) {
        FirstOfMerge(lt, a[1..], b, n - 1);
        FirstOfMerge(lt, ta[1..], tb, n - 1);
        FirstFirst(a[1..], n - 1);
        FirstCons(a[0], Merge(lt, a[1..], b), n);
        FirstCons(a[0], Merge(lt, ta[1..], tb), n);
      } else {
        FirstOfMerge(lt, a, b[1..], n - 1);
        FirstOfMerge(lt, ta, tb[1..], n - 1);
        FirstFirst(b[1..], n - 1);
        FirstCons(b[0], Merge(lt, a, b[1..]), n);
        FirstCons(b[0], Merge(lt, ta, tb[1..]), n);
      }
    }
  }

  lemma FirstFirst<T>(a: seq<T>, n: nat)
    ensures First(First(a, n), n) == First(a, n)
  {
  }

  lemma OrdersParts<T(!new)>(lt: (T, T) -> bool, a: seq<T>, b: seq<T>)
    requires Orders(lt, a + b)
    ensures Orders(lt, a) && Orders(lt, b) && Crossed(lt, a, b)
  {
    var all := a + b;
    OrdersSuffix(lt, a, b);
    forall i, j | 0 <= i < |a| && 0 <= j < |a| && i != j ensures lt(a[i], a[j]) || lt(a[j], a[i]) {
      assert all[i] == a[i] && all[j] == a[j];
    }
    forall x, y | x in a && y in b ensures lt(x, y) || lt(y, x) {
      var i :| 0 <= i < |a| && a[i] == x;
      var j :| 0 <= j < |b| && b[j] == y;
      assert all[i] == x && all[|a| + j] == y;
    }
  }

  lemma CrossedSub<T(!new)>(lt: (T, T) -> bool, a: seq<T>, b: seq<T>, a': seq<T>, b': seq<T>)
    requires Crossed(lt, a, b) && (forall x | x in a' :: x in multiset(a)) && forall y | y in b' :: y in multiset(b)
    ensures Crossed(lt, a', b')
  {
  }

  lemma SortIsMerge<T(!new)>(lt: (T, T) -> bool, a: seq<T>, b: seq<T>, whole: seq<T>)
    requires Strict(lt) && Sorted(lt, a) && Sorted(lt, b) && Crossed(lt, a, b) && Orders(lt, whole)
    requires multiset(whole) == multiset(a) + multiset(b)
    ensures Sort(lt, whole) == Merge(lt, a, b)
  {
    MergeSorts(lt, a, b);
    MergePermutes(lt, a, b);
    SortSorts(lt, whole);
    SortPermutes(lt, whole);
    SortedUnique(lt, Sort(lt, whole), Merge(lt, a, b));
  }

  lemma FirstSorted<T(!new)>(lt: (T, T) -> bool, a: seq<T>, n: nat)
    requires Sorted(lt, a)
    ensures Sorted(lt, First(a, n)) && forall x | x in First(a, n) :: x in a
  {
  }

  lemma SortedConcatOrders<T(!new)>(lt: (T, T) -> bool, a: seq<T>, b: seq<T>)
    requires Sorted(lt, a) && Sorted(lt, b) && Crossed(lt, a, b)
    ensures Orders(lt, a + b)
  {
    var all := a + b;
    forall i, j | 0 <= i < |all| && 0 <= j < |all| && i != j ensures lt(all[i], all[j]) || lt(all[j], all[i]) {
      if i < |a| <= j { assert all[i] in a && all[j] in b; }
      if j < |a| <= i { assert all[j] in a && all[i] in b; }
    }
  }

  /** The bounded merge of two bounded parts is the bounded whole. */
  lemma TopOfTops<T(!new)>(lt: (T, T) -> bool, a: seq<T>, b: seq<T>, n: nat)
    requires Strict(lt) && Orders(lt, a + b)
    ensures Top(lt, Top(lt, a, n) + Top(lt, b, n), n) == Top(lt, a + b, n)
  {
    OrdersParts(lt, a, b);
    var sa, sb := Sort(lt, a), Sort(lt, b);
    SortSorts(lt, a);
    SortPermutes(lt, a);
    SortSorts(lt, b);
    SortPermutes(lt, b);
    forall x | x in sa ensures x in multiset(a) { assert x in multiset(sa); }
    forall y | y in sb ensures y in multiset(b) { assert y in multiset(sb); }
    CrossedSub(lt, a, b, sa, sb);
    SortIsMerge(lt, sa, sb, a + b);
    TopsMerge(lt, sa, sb, n);
  }

  lemma TopsMerge<T(!new)>(lt: (T, T) -> bool, sa: seq<T>, sb: seq<T>, n: nat)
    requires Strict(lt) && Sorted(lt, sa) && Sorted(lt, sb) && Crossed(lt, sa, sb)
    ensures Top(lt, First(sa, n) + First(sb, n), n) == First(Merge(lt, sa, sb), n)
  {
    var ta, tb := First(sa, n), First(sb, n);
    FirstSorted(lt, sa, n);
    FirstSorted(lt, sb, n);
    SortedConcatOrders(lt, ta, tb);
    SortIsMerge(lt, ta, tb, ta + tb);
    FirstOfMerge(lt, sa, sb, n);
  }
}
