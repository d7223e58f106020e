/** The pending events of the collector: rows in id order, their sums per key, and window compaction. */
module EventRows {
  import opened Wrappers

  /** Events with the same key are the same event; an absent store is not an empty one. */
  datatype Key = Key(level: string, code: string, message: string, store: Option<string>)

  datatype Row = Row(id: int, key: Key, count: int)

  /** The table, in the order of its ids. */
  ghost predicate Ascending(rows: seq<Row>) {
    (forall i, j | 0 <= i < j < |rows| :: rows[i].id < rows[j].id) && forall i | 0 <= i < |rows| :: rows[i].id >= 1
  }

  function SumOf(rows: seq<Row>, key: Key): int {
    if rows == [] then 0
    else SumOf(rows[..|rows| - 1], key) + if rows[|rows| - 1].key == key then rows[|rows| - 1].count else 0
  }

  function Abs(n: int): nat { if n < 0 then -n else n }

  /** The largest any sum of these counts can be. */
  function TotalAbs(rows: seq<Row>): nat {
    if rows == [] then 0 else TotalAbs(rows[..|rows| - 1]) + Abs(rows[|rows| - 1].count)
  }

  lemma {:induction false} SumConcat(a: seq<Row>, b: seq<Row>, key: Key)
    ensures SumOf(a + b, key) == SumOf(a, key) + SumOf(b, key)
  {
    if b == [] {
      assert a + b == a;
    } else {
      assert (a + b)[..|a + b| - 1] == a + b[..|b| - 1];
      SumConcat(a, b[..|b| - 1], key);
    }
  }

  lemma {:induction false} TotalAbsConcat(a: seq<Row>, b: seq<Row>)
    ensures TotalAbs(a + b) == TotalAbs(a) + TotalAbs(b)
  {
    if b == [] {
      assert a + b == a;
    } else {
      assert (a + b)[..|a + b| - 1] == a + b[..|b| - 1];
      TotalAbsConcat(a, b[..|b| - 1]);
    }
  }

  lemma {:induction false} SumWithinAbs(rows: seq<Row>, key: Key)
    ensures Abs(SumOf(rows, key)) <= TotalAbs(rows)
  {
    if rows != [] { SumWithinAbs(rows[..|rows| - 1], key); }
  }

  // ---- Ranges of ids ----

  /** How many rows have an id up to `id`. */
  function UpTo(rows: seq<Row>, id: int): (n: nat)
    ensures n <= |rows|
  {
    if rows == [] then 0
    else if rows[|rows| - 1].id <= id then |rows|
    else UpTo(rows[..|rows| - 1], id)
  }

  lemma {:induction false} UpToSplits(rows: seq<Row>, id: int)
    requires Ascending(rows)
    ensures forall i | 0 <= i < |rows| :: rows[i].id <= id <==> i < UpTo(rows, id)
  {
    if rows != [] && rows[|rows| - 1].id > id {
      UpToSplits(rows[..|rows| - 1], id);
    }
  }

  /** WHERE id > after AND id <= through. */
  function Window(rows: seq<Row>, after: int, through: int): seq<Row> {
    if UpTo(rows, after) <= UpTo(rows, through) then rows[UpTo(rows, after)..UpTo(rows, through)] else []
  }

  // ---- Compaction ----

  /** No earlier row of the window has the key: MIN(id) of its group. */
  predicate First(window: seq<Row>, i: nat)
    requires i < |window|
  {
    forall j | 0 <= j < i :: window[j].key != window[i].key
  }

  /** The first rows of their groups among the first n rows, each with its group's sum over the whole window. */
  function Kept(window: seq<Row>, n: nat): seq<Row>
    requires n <= |window|
  {
    if n == 0 then []
    else Kept(window, n - 1)
         + if First(window, n - 1) then [window[n - 1].(count := SumOf(window, window[n - 1].key))] else []
  }

  function Compacted(window: seq<Row>): seq<Row> { Kept(window, |window|) }

  ghost predicate DistinctKeys(rows: seq<Row>) {
    forall i, j | 0 <= i < j < |rows| :: rows[i].key != rows[j].key
  }

  /** A kept row comes from the first row of its group. */
  ghost predicate Represents(window: seq<Row>, n: nat, r: Row)
    requires n <= |window|
  {
    exists i :: 0 <= i < n && IsKept(window, i, r)
  }

  ghost predicate IsKept(window: seq<Row>, i: nat, r: Row)
    requires i < |window|
  {
    First(window, i) && r == window[i].(count := SumOf(window, window[i].key))
  }

  lemma {:induction false} KeptRepresents(window: seq<Row>, n: nat)
    requires n <= |window|
    ensures forall r | r in Kept(window, n) :: Represents(window, n, r)
  {
    if n > 0 {
      KeptRepresents(window, n - 1);
      forall r | r in Kept(window, n) ensures Represents(window, n, r) {
        if r in Kept(window, n - 1) {
          assert Represents(window, n - 1, r);
        } else {
          assert IsKept(window, n - 1, r);
        }
      }
    }
  }

  lemma {:induction false} KeptFinds(window: seq<Row>, n: nat, i: nat) returns (r: Row)
    requires i < n <= |window|
    ensures r in Kept(window, n) && r.key == window[i].key
  {
    if i < n - 1 {
      r := KeptFinds(window, n - 1, i);
    } else if First(window, i) {
      r := window[i].(count := SumOf(window, window[i].key));
    } else {
      var j :| 0 <= j < i && window[j].key == window[i].key;
      r := KeptFinds(window, n - 1, j);
    }
  }

  lemma {:induction false} KeptDistinct(window: seq<Row>, n: nat)
    requires n <= |window|
    ensures DistinctKeys(Kept(window, n))
  {
    if n > 0 {
      KeptDistinct(window, n - 1);
      KeptRepresents(window, n - 1);
      var init := Kept(window, n - 1);
      if First(window, n - 1) {
        forall k | 0 <= k < |init| ensures init[k].key != window[n - 1].key {
          assert Represents(window, n - 1, init[k]);
        }
      }
    }
  }

  lemma {:induction false} SumOfAbsent(rows: seq<Row>, key: Key)
    requires forall r | r in rows :: r.key != key
    ensures SumOf(rows, key) == 0
  {
    if rows != [] {
      assert rows[|rows| - 1] in rows;
      forall r | r in rows[..|rows| - 1] ensures r.key != key { assert r in rows; }
      SumOfAbsent(rows[..|rows| - 1], key);
    }
  }

  lemma {:induction false} SumOfOne(rows: seq<Row>, i: nat)
    requires DistinctKeys(rows) && i < |rows|
    ensures SumOf(rows, rows[i].key) == rows[i].count
  {
    var init := rows[..|rows| - 1];
    if i == |rows| - 1 {
      forall x | x in init ensures x.key != rows[i].key {
        var j :| 0 <= j < |init| && init[j] == x;
        assert rows[j].key != rows[i].key;
      }
      SumOfAbsent(init, rows[i].key);
    } else {
      assert rows[|rows| - 1].key != rows[i].key;
      SumOfOne(init, i);
    }
  }

  /** Compaction keeps the sum of every key, and leaves one row for each key of the window. */
  lemma CompactionConserves(window: seq<Row>, key: Key)
    ensures SumOf(Compacted(window), key) == SumOf(window, key)
    ensures DistinctKeys(Compacted(window))
    ensures (exists r :: r in Compacted(window) && r.key == key) <==> (exists r :: r in window && r.key == key)
  {
    KeptDistinct(window, |window|);
    KeptRepresents(window, |window|);
    if r :| r in window && r.key == key {
      var i :| 0 <= i < |window| && window[i] == r;
      var k := KeptFinds(window, |window|, i);
      assert Represents(window, |window|, k);
      var m :| 0 <= m < |Compacted(window)| && Compacted(window)[m] == k;
      SumOfOne(Compacted(window), m);
    } else {
      forall k | k in Compacted(window) ensures k.key != key {
        assert Represents(window, |window|, k);
        var i :| 0 <= i < |window| && IsKept(window, i, k);
        assert window[i] in window;
      }
      SumOfAbsent(window, key);
      SumOfAbsent(Compacted(window), key);
    }
  }

  lemma {:induction false} KeptAscends(window: seq<Row>, n: nat)
    requires Ascending(window) && n <= |window|
    ensures Ascending(Kept(window, n)) && |Kept(window, n)| <= n
  {
    if n > 0 {
      var init := Kept(window, n - 1);
      KeptAscends(window, n - 1);
      if First(window, n - 1) {
        var last := window[n - 1].(count := SumOf(window, window[n - 1].key));
        forall r | r in init ensures r.id < last.id {
          KeptBefore(window, n - 1, r);
        }
        assert last.id >= 1;
        AscendingAppend(init, last);
      }
    }
  }

  lemma {:induction false} KeptStarts(window: seq<Row>, n: nat)
    requires 0 < n <= |window|
    ensures Kept(window, n) != [] && Kept(window, n)[0].id == window[0].id
  {
    if n > 1 {
      KeptStarts(window, n - 1);
    } else {
      assert Kept(window, 0) == [];
    }
  }

  lemma KeptBefore(window: seq<Row>, n: nat, r: Row)
    requires Ascending(window) && n < |window| && r in Kept(window, n)
    ensures r.id < window[n].id
  {
    KeptRepresents(window, n);
    assert Represents(window, n, r);
  }

  lemma AscendingAppend(rows: seq<Row>, r: Row)
    requires Ascending(rows) && r.id >= 1 && forall x | x in rows :: x.id < r.id
    ensures Ascending(rows + [r])
  {
    forall i | 0 <= i < |rows| ensures rows[i].id < r.id { assert rows[i] in rows; }
  }

  // ---- No sum outgrows the absolute total ----

  function KeysOf(rows: seq<Row>): seq<Key> {
    seq(|rows|, i requires 0 <= i < |rows| => rows[i].key)
  }

  ghost predicate Unrepeated(keys: seq<Key>) {
    forall i, j | 0 <= i < j < |keys| :: keys[i] != keys[j]
  }

  function AbsSums(keys: seq<Key>, rows: seq<Row>): nat {
    if keys == [] then 0 else AbsSums(keys[..|keys| - 1], rows) + Abs(SumOf(rows, keys[|keys| - 1]))
  }

  lemma {:induction false} OneMoreRow(keys: seq<Key>, rows: seq<Row>, r: Row)
    requires Unrepeated(keys)
    ensures AbsSums(keys, rows + [r]) <= AbsSums(keys, rows) + if r.key in keys then Abs(r.count) else 0
  {
    if keys != [] {
      var init, last := keys[..|keys| - 1], keys[|keys| - 1];
      OneMoreRow(init, rows, r);
      assert (rows + [r])[..|rows|] == rows;
      assert last !in init;
      assert r.key in keys <==> r.key in init || r.key == last;
    }
  }

  lemma {:induction false} SumsWithinTotal(keys: seq<Key>, rows: seq<Row>)
    requires Unrepeated(keys)
    ensures AbsSums(keys, rows) <= TotalAbs(rows)
  {
    if rows == [] {
      NoSums(keys);
    } else {
      SumsWithinTotal(keys, rows[..|rows| - 1]);
      assert rows == rows[..|rows| - 1] + [rows[|rows| - 1]];
      OneMoreRow(keys, rows[..|rows| - 1], rows[|rows| - 1]);
    }
  }

  lemma {:induction false} NoSums(keys: seq<Key>)
    ensures AbsSums(keys, []) == 0
  {
    if keys != [] {
      NoSums(keys[..|keys| - 1]);
      assert SumOf([], keys[|keys| - 1]) == 0;
    }
  }

  lemma {:induction false} KeptTotal(window: seq<Row>, n: nat)
    requires n <= |window|
    ensures TotalAbs(Kept(window, n)) == AbsSums(KeysOf(Kept(window, n)), window)
  {
    if n == 0 {
      assert KeysOf([]) == [];
    } else {
      KeptTotal(window, n - 1);
      var init, all := Kept(window, n - 1), Kept(window, n);
      if First(window, n - 1) {
        assert all[..|all| - 1] == init && KeysOf(all)[..|all| - 1] == KeysOf(init);
        assert KeysOf(all)[|all| - 1] == window[n - 1].key;
      } else {
        assert all == init;
      }
    }
  }

  /** Merging can only lower the absolute total. */
  lemma CompactionShrinksTotal(window: seq<Row>)
    ensures TotalAbs(Compacted(window)) <= TotalAbs(window)
  {
    KeptTotal(window, |window|);
    KeptDistinct(window, |window|);
    SumsWithinTotal(KeysOf(Compacted(window)), window);
  }
}
