/** The sum of a finite map's values. */
module MapSum {

  ghost function Sum<K(!new)>(m: map<K, nat>): nat
    decreases |m|
  {
    if m == map[] then 0
    else
      var k :| k in m;
      m[k] + Sum(m - {k})
  }

  /** The sum does not depend on the order the keys are taken in. */
  lemma {:induction false} SumWithout<K(!new)>(m: map<K, nat>, k: K)
    requires k in m
    ensures Sum(m) == m[k] + Sum(m - {k})
    decreases |m|
  {
    var first :| first in m && Sum(m) == m[first] + Sum(m - {first});
    if first != k {
      SumWithout(m - {first}, k);
      SumWithout(m - {k}, first);
      assert m - {first} - {k} == m - {k} - {first};
    }
  }

  lemma SumSet<K(!new)>(m: map<K, nat>, k: K, v: nat)
    ensures Sum(m[k := v]) == v + Sum(m - {k})
    ensures Sum(m[k := v]) == Sum(m) + v - (if k in m then m[k] else 0)
  {
    SumWithout(m[k := v], k);
    assert m[k := v] - {k} == m - {k};
    if k in m { SumWithout(m, k); } else { assert m - {k} == m; }
  }

  /** Fewer keys with smaller values sum up to less. */
  lemma {:induction false} SumMonotone<K(!new)>(a: map<K, nat>, b: map<K, nat>)
    requires forall k <- a :: k in b && a[k] <= b[k]
    ensures Sum(a) <= Sum(b)
    decreases |a|
  {
    if a != map[] {
      var k :| k in a;
      SumWithout(a, k);
      SumWithout(b, k);
      SumMonotone(a - {k}, b - {k});
    }
  }

  ghost predicate Parts<K(!new)>(whole: map<K, nat>, a: map<K, nat>, b: map<K, nat>) {
    a.Keys !! b.Keys && whole == a + b
  }

  lemma PartsWithout<K(!new)>(whole: map<K, nat>, a: map<K, nat>, b: map<K, nat>, k: K)
    requires Parts(whole, a, b) && k in b
    ensures k in whole && whole[k] == b[k] && Parts(whole - {k}, a, b - {k})
  {
  }

  /** A map split in two parts sums up to both. */
  lemma {:induction false} SumParts<K(!new)>(whole: map<K, nat>, a: map<K, nat>, b: map<K, nat>)
    requires Parts(whole, a, b)
    ensures Sum(whole) == Sum(a) + Sum(b)
    decreases |b|
  {
    if b == map[] {
      assert whole == a;
    } else {
      var k :| k in b;
      PartsWithout(whole, a, b, k);
      SumParts(whole - {k}, a, b - {k});
      SumWithout(b, k);
      SumWithout(whole, k);
    }
  }
}
