/** Order numbers held by the rows of a table. */
module Numbering {

  ghost predicate Unique<K(!new)>(orders: map<K, int>) {
    forall a, b :: a in orders && b in orders && a != b ==> orders[a] != orders[b]
  }

  /** Distinct numbers from 1 to the number of rows. */
  ghost predicate Numbered<K(!new)>(orders: map<K, int>) {
    Unique(orders) && forall k <- orders :: 1 <= orders[k] <= |orders|
  }

  lemma {:induction false} AtMostAsMany<K(!new)>(orders: map<K, int>, bound: set<int>)
    requires Unique(orders) && forall k <- orders :: orders[k] in bound
    ensures |orders| <= |bound|
    decreases |orders|
  {
    if orders != map[] {
      var k :| k in orders;
      AtMostAsMany(orders - {k}, bound - {orders[k]});
      assert (orders - {k}).Keys == orders.Keys - {k};
    }
  }

  function Range(n: nat): (r: set<int>)
    ensures forall i :: i in r <==> 1 <= i <= n
    ensures |r| == n
  {
    if n == 0 then {} else Range(n - 1) + {n}
  }

  /** Then every number from 1 to the number of rows is taken. */
  lemma EveryNumberTaken<K(!new)>(orders: map<K, int>, n: int)
    requires Numbered(orders) && 1 <= n <= |orders|
    ensures exists k :: k in orders && orders[k] == n
  {
    if forall k <- orders :: orders[k] != n {
      AtMostAsMany(orders, Range(|orders|) - {n});
      assert false;
    }
  }

  /** The next number is free, and a row that takes it keeps the numbering. */
  lemma NextIsFree<K(!new)>(orders: map<K, int>, k: K)
    requires Numbered(orders) && k !in orders
    ensures (forall x <- orders :: orders[x] != |orders| + 1) && Numbered(orders[k := |orders| + 1])
  {
    assert orders[k := |orders| + 1].Keys == orders.Keys + {k};
    assert |orders[k := |orders| + 1].Keys| == |orders.Keys| + 1;
  }
}
