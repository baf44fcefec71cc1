/** Lists of times without their expired front. */
module SlidingWindow {

  ghost predicate Ascending(s: seq<int>) {
    forall i, j :: 0 <= i <= j < |s| ==> s[i] <= s[j]
  }

  /** The list without its expired front. */
  function Recent(hits: seq<int>, cutoff: int): (kept: seq<int>)
    ensures |kept| <= |hits|
  {
    if hits != [] && hits[0] <= cutoff then Recent(hits[1..], cutoff) else hits
  }

  /** How many of the times lie after `lo` and not after `hi`. */
  function CountIn(s: seq<int>, lo: int, hi: int): (n: nat)
    ensures n <= |s|
  {
    if s == [] then 0
    else CountIn(s[..|s| - 1], lo, hi) + (if lo < s[|s| - 1] <= hi then 1 else 0)
  }

  /** `kept` is what is left of `full` after cutting off expired times at its front. */
  ghost predicate Prunes(full: seq<int>, kept: seq<int>, cutoff: int) {
    && |kept| <= |full| && full[|full| - |kept|..] == kept
    && forall i :: 0 <= i < |full| - |kept| ==> full[i] <= cutoff
  }

  lemma {:induction false} RecentIsSuffix(hits: seq<int>, cutoff: int)
    ensures var kept := Recent(hits, cutoff);
      && Prunes(hits, kept, cutoff)
      && (kept != [] ==> kept[0] > cutoff)
  {
    if hits != [] && hits[0] <= cutoff {
      RecentIsSuffix(hits[1..], cutoff);
      var kept := Recent(hits, cutoff);
      assert hits[|hits| - |kept|..] == hits[1..][|hits| - 1 - |kept|..];
      assert forall i :: 0 < i < |hits| - |kept| ==> hits[i] == hits[1..][i - 1];
    }
  }

  /** The pruned list answers like the full one, now and at every later cutoff. */
  lemma {:induction false} PrunedAnswers(full: seq<int>, kept: seq<int>, before: int, cutoff: int)
    requires Prunes(full, kept, before) && before <= cutoff
    ensures Recent(full, cutoff) == Recent(kept, cutoff) && Prunes(full, Recent(kept, cutoff), cutoff)
    decreases |full|
  {
    if |kept| == |full| {
      RecentIsSuffix(full, cutoff);
    } else {
      assert full[0] <= cutoff;
      assert full[1..][|full| - 1 - |kept|..] == full[|full| - |kept|..];
      PrunedAnswers(full[1..], kept, before, cutoff);
      RecentIsSuffix(full, cutoff);
    }
  }

  lemma PrunesLater(full: seq<int>, kept: seq<int>, before: int, cutoff: int)
    requires Prunes(full, kept, before) && before <= cutoff
    ensures Prunes(full, kept, cutoff)
  {
  }

  lemma PushPrunes(full: seq<int>, kept: seq<int>, cutoff: int, now: int)
    requires Prunes(full, kept, cutoff)
    ensures Prunes(full + [now], kept + [now], cutoff)
  {
    var k := |full| - |kept|;
    assert (full + [now])[k..] == full[k..] + [now];
  }

  /** A list whose last time is expired may be dropped altogether. */
  lemma AllExpired(full: seq<int>, kept: seq<int>, before: int, cutoff: int)
    requires Prunes(full, kept, before) && before <= cutoff && Ascending(full)
    requires kept == [] || kept[|kept| - 1] <= cutoff
    ensures Prunes(full, [], cutoff)
  {
    if kept != [] { assert full[|full| - 1] == kept[|kept| - 1]; }
  }

  lemma {:induction false} CountAll(s: seq<int>, lo: int, hi: int)
    requires forall i :: 0 <= i < |s| ==> lo < s[i] <= hi
    ensures CountIn(s, lo, hi) == |s|
  {
    if s != [] { CountAll(s[..|s| - 1], lo, hi); }
  }

  lemma {:induction false} CountNone(s: seq<int>, lo: int, hi: int)
    requires forall i :: 0 <= i < |s| ==> s[i] <= lo
    ensures CountIn(s, lo, hi) == 0
  {
    if s != [] { CountNone(s[..|s| - 1], lo, hi); }
  }

  lemma {:induction false} CountConcat(a: seq<int>, b: seq<int>, lo: int, hi: int)
    ensures CountIn(a + b, lo, hi) == CountIn(a, lo, hi) + CountIn(b, lo, hi)
  {
    if b == [] {
      assert a + b == a;
    } else {
      assert (a + b)[..|a + b| - 1] == a + b[..|b| - 1];
      CountConcat(a, b[..|b| - 1], lo, hi);
    }
  }

  lemma AscendingPush(s: seq<int>, now: int)
    requires Ascending(s) && (s == [] || s[|s| - 1] <= now)
    ensures Ascending(s + [now])
  {
  }

  lemma AscendingWithin(s: seq<int>, lo: int, hi: int)
    requires Ascending(s) && (s != [] ==> lo < s[0] && s[|s| - 1] <= hi)
    ensures forall i :: 0 <= i < |s| ==> lo < s[i] <= hi
  {
  }

  lemma SuffixAscends(s: seq<int>, k: nat)
    requires Ascending(s) && k <= |s|
    ensures Ascending(s[k..]) && (k < |s| ==> s[k..][|s| - k - 1] == s[|s| - 1])
  {
  }

  /** In an ascending list the pruned length is the number of times inside the window. */
  lemma RecentCounts(s: seq<int>, cutoff: int, now: int)
    requires Ascending(s) && (s == [] || s[|s| - 1] <= now)
    ensures |Recent(s, cutoff)| == CountIn(s, cutoff, now)
  {
    hide Recent, CountIn, Ascending;
    RecentIsSuffix(s, cutoff);
    var kept := Recent(s, cutoff);
    var k := |s| - |kept|;
    assert s == s[..k] + kept;
    CountConcat(s[..k], kept, cutoff, now);
    CountNone(s[..k], cutoff, now);
    SuffixAscends(s, k);
    AscendingWithin(kept, cutoff, now);
    CountAll(kept, cutoff, now);
  }

  lemma {:induction false} CountGrows(s: seq<int>, lo: int, lo': int, hi: int, hi': int)
    requires lo' <= lo && hi <= hi'
    ensures CountIn(s, lo, hi) <= CountIn(s, lo', hi')
  {
    if s != [] { CountGrows(s[..|s| - 1], lo, lo', hi, hi'); }
  }

  /** Each time was let in when fewer than `limit` lay in the `window` before it. */
  ghost predicate Limited(s: seq<int>, window: nat, limit: nat) {
    s == [] ||
    (var now := s[|s| - 1];
     Limited(s[..|s| - 1], window, limit) && CountIn(s[..|s| - 1], now - window, now) < limit)
  }

  lemma LimitedPush(s: seq<int>, now: int, window: nat, limit: nat)
    requires Limited(s, window, limit) && CountIn(s, now - window, now) < limit
    ensures Limited(s + [now], window, limit)
  {
    hide CountIn;
    assert (s + [now])[..|s|] == s;
  }

  lemma CountLast(s: seq<int>, lo: int, hi: int)
    requires s != []
    ensures CountIn(s, lo, hi) == CountIn(s[..|s| - 1], lo, hi) + (if lo < s[|s| - 1] <= hi then 1 else 0)
  {
  }

  /** Then no window of that length, wherever it starts, holds more than `limit`. */
  lemma {:induction false} WindowHolds(s: seq<int>, window: nat, limit: nat, lo: int)
    requires Ascending(s) && Limited(s, window, limit)
    ensures CountIn(s, lo, lo + window) <= limit
  {
    hide CountIn;
    if s == [] {
      CountNone(s, lo, lo + window);
    } else {
      var n := |s| - 1;
      var now := s[n];
      WindowHolds(s[..n], window, limit, lo);
      CountLast(s, lo, lo + window);
      if lo < now <= lo + window {
        AtMostNow(s[..n], lo, lo + window, now);
        CountGrows(s[..n], lo, now - window, now, now);
      }
    }
  }

  lemma {:induction false} AtMostNow(s: seq<int>, lo: int, hi: int, now: int)
    requires forall i :: 0 <= i < |s| ==> s[i] <= now
    requires now <= hi
    ensures CountIn(s, lo, hi) == CountIn(s, lo, now)
  {
    if s != [] { AtMostNow(s[..|s| - 1], lo, hi, now); }
  }
}
