/** The order of search hits: the comparator the merge uses and the ORDER BY each shard uses. */
module SearchOrder {
  import opened Wrappers
  import opened Sorting

  datatype Hit = Hit(id: int, rank: real, duration: Option<real>, tokens: real, usd: Option<real>)

  function CompareNumber(a: Option<real>, b: Option<real>): real {
    if a == b then 0.0
    else if a.None? then -1.0
    else if b.None? then 1.0
    else a.value - b.value
  }

  /** The comparator: a zero falls through to the next criterion. */
  function CompareHits(a: Hit, b: Hit, sort: Option<string>): real {
    var primary :=
      if sort == Some("session_time") then CompareNumber(b.duration, a.duration)
      else if sort == Some("total_tokens") then CompareNumber(Some(b.tokens), Some(a.tokens))
      else if sort == Some("cost") then CompareNumber(b.usd, a.usd)
      else 0.0;
    var byRank := CompareNumber(Some(a.rank), Some(b.rank));
    if primary != 0.0 then primary
    else if byRank != 0.0 then byRank
    else a.id as real - b.id as real
  }

  predicate Precedes(a: Hit, b: Hit, sort: Option<string>) { CompareHits(a, b, sort) < 0.0 }

  function Order(sort: Option<string>): (Hit, Hit) -> bool {
    (a, b) => Precedes(a, b, sort)
  }

  /** SQLite's DESC: larger first, NULL (which sorts before every number) last. For the cost sort this
      is also (usd IS NULL) ASC, usd DESC. */
  predicate DescBefore(a: Option<real>, b: Option<real>) {
    a.Some? && (b.None? || a.value > b.value)
  }

  function SortColumn(h: Hit, sort: Option<string>): Option<real> {
    if sort == Some("session_time") then h.duration
    else if sort == Some("total_tokens") then Some(h.tokens)
    else if sort == Some("cost") then h.usd
    else None
  }

  /** ORDER BY <column> DESC, rank, id. */
  predicate SqlBefore(a: Hit, b: Hit, sort: Option<string>) {
    var x, y := SortColumn(a, sort), SortColumn(b, sort);
    DescBefore(x, y) || (x == y && (a.rank < b.rank || (a.rank == b.rank && a.id < b.id)))
  }

  /** The merge compares hits in exactly the order every shard sorts them. */
  lemma ComparatorIsSqlOrder(a: Hit, b: Hit, sort: Option<string>)
    ensures Precedes(a, b, sort) <==> SqlBefore(a, b, sort)
    ensures CompareHits(a, b, sort) == 0.0 ==> a.id == b.id
    ensures CompareHits(a, b, sort) <= 0.0 && a.id != b.id ==> Precedes(a, b, sort)
  {
    var x, y := SortColumn(a, sort), SortColumn(b, sort);
    assert CompareNumber(y, x) < 0.0 <==> DescBefore(x, y);
    assert CompareNumber(y, x) == 0.0 <==> x == y;
  }

  /** The comparator is a strict order, total on hits with different ids. */
  lemma OrderIsStrict(sort: Option<string>)
    ensures Strict(Order(sort))
  {
    forall a, b, c | Precedes(a, b, sort) && Precedes(b, c, sort) ensures Precedes(a, c, sort) {
      PrecedesIsTransitive(a, b, c, sort);
    }
  }

  lemma PrecedesIsTransitive(a: Hit, b: Hit, c: Hit, sort: Option<string>)
    requires Precedes(a, b, sort) && Precedes(b, c, sort)
    ensures Precedes(a, c, sort)
  {
    ComparatorIsSqlOrder(a, b, sort);
    ComparatorIsSqlOrder(b, c, sort);
    ComparatorIsSqlOrder(a, c, sort);
  }

  lemma PrecedesIsTotal(a: Hit, b: Hit, sort: Option<string>)
    requires a.id != b.id
    ensures Precedes(a, b, sort) <==> !Precedes(b, a, sort)
  {
    ComparatorIsSqlOrder(a, b, sort);
    ComparatorIsSqlOrder(b, a, sort);
  }
}
