/** The runtime's stable sort, as a function of the list and a strict order: sorted, with the same elements, equal ones in their previous order. */
module Sorting {
  import opened Prelude

  /** The comparator is consistent: a strict weak order. */
  ghost predicate StrictWeak<T(!new)>(before: (T, T) -> bool) {
    && (forall a, b :: before(a, b) ==> !before(b, a))
    && (forall a, b, c :: !before(b, a) && !before(c, b) ==> !before(c, a))
  }

  ghost predicate Sorted<T>(s: seq<T>, before: (T, T) -> bool) {
    forall i, j :: 0 <= i < j < |s| ==> !before(s[j], s[i])
  }

  function Insert<T>(x: T, s: seq<T>, before: (T, T) -> bool): (r: seq<T>)
    ensures |r| == |s| + 1
  {
    if s != [] && before(s[0], x) then [s[0]] + Insert(x, s[1..], before) else [x] + s
  }

  function Sort<T>(s: seq<T>, before: (T, T) -> bool): (r: seq<T>)
    ensures |r| == |s|
  {
    if s == [] then [] else Insert(s[0], Sort(s[1..], before), before)
  }

  lemma {:induction false} InsertPermutes<T>(x: T, s: seq<T>, before: (T, T) -> bool)
    ensures multiset(Insert(x, s, before)) == multiset([x] + s)
  {
    if s != [] && before(s[0], x) {
      InsertPermutes(x, s[1..], before);
      assert [s[0]] + s[1..] == s;
      assert multiset(s) == multiset([s[0]]) + multiset(s[1..]);
    }
  }

  lemma {:induction false} SortPermutes<T>(s: seq<T>, before: (T, T) -> bool)
    ensures multiset(Sort(s, before)) == multiset(s)
  {
    if s != [] {
      SortPermutes(s[1..], before);
      InsertPermutes(s[0], Sort(s[1..], before), before);
      assert [s[0]] + s[1..] == s;
    }
  }

  lemma SamePermuted<T>(a: seq<T>, b: seq<T>)
    requires multiset(a) == multiset(b)
    ensures forall x :: x in a <==> x in b
  {
    assert forall x :: x in a <==> x in multiset(a);
    assert forall x :: x in b <==> x in multiset(b);
  }

  lemma SortedCons<T>(x: T, s: seq<T>, before: (T, T) -> bool)
    requires Sorted(s, before) && forall y <- s :: !before(y, x)
    ensures Sorted([x] + s, before)
  {
    forall i, j | 0 <= i < j < |[x] + s| ensures !before(([x] + s)[j], ([x] + s)[i]) {
      assert ([x] + s)[j] == s[j - 1];
    }
  }

  lemma {:induction false} InsertSorts<T(!new)>(x: T, s: seq<T>, before: (T, T) -> bool)
    requires StrictWeak(before) && Sorted(s, before)
    ensures Sorted(Insert(x, s, before), before)
  {
    hide StrictWeak;
    if s != [] && before(s[0], x) {
      var rest := Insert(x, s[1..], before);
      InsertSorts(x, s[1..], before);
      InsertPermutes(x, s[1..], before);
      SamePermuted(rest, [x] + s[1..]);
      Asymmetric(s[0], x, before);
      forall y | y in rest ensures !before(y, s[0]) { assert y in [x] + s[1..]; }
      SortedCons(s[0], rest, before);
    } else {
      forall y | y in s ensures !before(y, x) {
        var k :| 0 <= k < |s| && s[k] == y;
        if k > 0 { Transitive(x, s[0], y, before); }
      }
      SortedCons(x, s, before);
    }
  }

  lemma Asymmetric<T(!new)>(a: T, b: T, before: (T, T) -> bool)
    requires StrictWeak(before) && before(a, b)
    ensures !before(b, a)
  {
  }

  lemma Transitive<T(!new)>(a: T, b: T, c: T, before: (T, T) -> bool)
    requires StrictWeak(before) && !before(b, a) && !before(c, b)
    ensures !before(c, a)
  {
  }

  lemma {:induction false} SortSorts<T(!new)>(s: seq<T>, before: (T, T) -> bool)
    requires StrictWeak(before)
    ensures Sorted(Sort(s, before), before)
  {
    hide StrictWeak;
    if s != [] {
      SortSorts(s[1..], before);
      InsertSorts(s[0], Sort(s[1..], before), before);
    }
  }

  /** A list without repetitions is one whose elements all count once. */
  lemma {:induction false} OnceEach<T>(s: seq<T>)
    ensures NoDup(s) <==> forall x :: multiset(s)[x] <= 1
  {
    if s != [] {
      var n := |s| - 1;
      OnceEach(s[..n]);
      assert s == s[..n] + [s[n]];
      if NoDup(s) { assert s[n] !in s[..n]; }
      if forall x :: multiset(s)[x] <= 1 {
        assert multiset(s)[s[n]] <= 1;
        assert multiset(s) == multiset(s[..n]) + multiset{s[n]};
        assert forall x :: multiset(s[..n])[x] <= multiset(s)[x];
        assert NoDup(s[..n]);
        forall i, j | 0 <= i < j < |s| ensures s[i] != s[j] {
          if j == n { assert s[i] in s[..n]; } else { assert s[..n][i] != s[..n][j]; }
        }
      }
    }
  }
}
