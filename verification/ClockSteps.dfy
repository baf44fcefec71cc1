/** What one synchronisation of web/src/clockSync.js measures and adopts, in terms of its attempts alone. */
module ClockSteps {
  import opened Prelude
  import opened Sorting
  import opened ClockModel
  import opened ClockBounds

  // ---- samples ----

  /** The four time stamps give the time on the wire and the mean of the two differences; an older reply the middle of the exchange. */
  predicate Measures(e: Exchange, s: Sample) {
    match e.reply
    case Stamped(t1, t2) => s.rtt == (e.t3 - e.t0) - (t2 - t1) && 2.0 * s.offset == (t1 - e.t0) + (t2 - e.t3)
    case Legacy(utc) => s.rtt == e.t3 - e.t0 && 2.0 * (utc - s.offset) == e.t0 + e.t3
  }

  /** The samples of a round are those of its answered attempts, in their order. */
  ghost predicate Collected(attempts: seq<Option<Exchange>>, samples: seq<Sample>, ks: seq<nat>) {
    && |ks| == |samples|
    && (forall a, b :: 0 <= a < b < |ks| ==> ks[a] < ks[b])
    && (forall j :: 0 <= j < |ks| ==> ks[j] < |attempts| && attempts[ks[j]].Some? && Measures(attempts[ks[j]].value, samples[j]))
    && (forall i: nat :: i < |attempts| && attempts[i].Some? ==> i in ks)
  }

  lemma MeasureMeasures(e: Exchange)
    ensures Measures(e, Measure(e))
  {
  }

  lemma {:induction false} CollectCollects(attempts: seq<Option<Exchange>>) returns (ks: seq<nat>)
    ensures Collected(attempts, Collect(attempts), ks)
  {
    hide Measure, Measures, Collected;
    if attempts == [] {
      ks := [];
      NothingCollected();
    } else {
      var n := |attempts| - 1;
      var before := CollectCollects(attempts[..n]);
      if attempts[n].Some? {
        MeasureMeasures(attempts[n].value);
        ks := before + [n];
        CollectedOneMore(attempts, Collect(attempts[..n]), before, Measure(attempts[n].value));
        assert Collect(attempts) == Collect(attempts[..n]) + [Measure(attempts[n].value)];
      } else {
        ks := before;
        CollectedNoMore(attempts, Collect(attempts[..n]), before);
        assert Collect(attempts) == Collect(attempts[..n]);
      }
    }
  }

  lemma NothingCollected()
    ensures Collected([], [], [])
  {
  }

  lemma CollectedNoMore(attempts: seq<Option<Exchange>>, samples: seq<Sample>, ks: seq<nat>)
    requires attempts != [] && attempts[|attempts| - 1].None? && Collected(attempts[..|attempts| - 1], samples, ks)
    ensures Collected(attempts, samples, ks)
  {
    hide Measures;
    var n := |attempts| - 1;
    assert forall i :: 0 <= i < n ==> attempts[..n][i] == attempts[i];
  }

  lemma CollectedOneMore(attempts: seq<Option<Exchange>>, samples: seq<Sample>, ks: seq<nat>, s: Sample)
    requires attempts != [] && attempts[|attempts| - 1].Some? && Measures(attempts[|attempts| - 1].value, s)
    requires Collected(attempts[..|attempts| - 1], samples, ks)
    ensures Collected(attempts, samples + [s], ks + [|attempts| - 1])
  {
    hide Measures;
    var n := |attempts| - 1;
    assert forall i :: 0 <= i < n ==> attempts[..n][i] == attempts[i];
    var more := ks + [n];
    assert more[|ks|] == n;
    forall i: nat | i < |attempts| && attempts[i].Some? ensures i in more { if i < n { assert attempts[..n][i].Some? && i in ks; } }
  }

  // ---- jitter ----

  function RttSquares(samples: seq<Sample>): real {
    if samples == [] then 0.0 else RttSquares(samples[..|samples| - 1]) + samples[|samples| - 1].rtt * samples[|samples| - 1].rtt
  }

  lemma SquareOfDifference(x: real, mean: real)
    ensures (x - mean) * (x - mean) == x * x - 2.0 * mean * x + mean * mean
  {
  }

  /** The right-hand side below. */
  function Spread(n: real, mean: real, sum: real, squares: real): real {
    squares - 2.0 * mean * sum + n * mean * mean
  }

  lemma SquareStep(x: real, mean: real, sum: real, squares: real, n: real)
    ensures Spread(n, mean, sum, squares) + (x - mean) * (x - mean) == Spread(n + 1.0, mean, sum + x, squares + x * x)
  {
    SquareOfDifference(x, mean);
    assert 2.0 * mean * (sum + x) == 2.0 * mean * sum + 2.0 * mean * x;
    assert (n + 1.0) * mean * mean == n * mean * mean + mean * mean;
  }

  lemma {:induction false} SquareSumIs(samples: seq<Sample>, mean: real)
    ensures SquareSum(samples, mean) == Spread(|samples| as real, mean, RttSum(samples), RttSquares(samples))
  {
    hide Spread;
    if samples == [] {
      NoSpread(mean);
    } else {
      var n := |samples| - 1;
      SquareSumIs(samples[..n], mean);
      var x, sum, squares := samples[n].rtt, RttSum(samples[..n]), RttSquares(samples[..n]);
      SquareStep(x, mean, sum, squares, n as real);
      assert SquareSum(samples, mean) == SquareSum(samples[..n], mean) + (x - mean) * (x - mean);
      assert |samples| as real == n as real + 1.0;
      assert RttSum(samples) == sum + x;
      assert RttSquares(samples) == squares + x * x;
      assert Spread(|samples| as real, mean, RttSum(samples), RttSquares(samples)) == Spread(n as real + 1.0, mean, sum + x, squares + x * x);
    }
  }

  lemma NoSpread(mean: real)
    ensures Spread(0.0, mean, 0.0, 0.0) == 0.0
  {
  }

  /** The sum of the squared deviations, times n. */
  lemma DeviationTimes(n: real, sum: real, squares: real, mean: real)
    requires n * mean == sum
    ensures n * Spread(n, mean, sum, squares) == n * squares - sum * sum
  {
    assert n * (2.0 * mean * sum) == 2.0 * (n * mean) * sum == 2.0 * (sum * sum);
    assert n * (n * mean * mean) == (n * mean) * (n * mean) == sum * sum;
  }

  /** Extra samples are taken when the round trips deviate by 100 ms or more: n times their squares less the square of their sum reaches (100 n) squared. */
  lemma JitterIs(samples: seq<Sample>)
    ensures Jittery(samples) <==>
      |samples| >= 2 &&
      |samples| as real * RttSquares(samples) - RttSum(samples) * RttSum(samples) >= 10_000.0 * Times(|samples| as real, |samples| as real)
  {
    hide SquareSum, RttSquares, RttSum, Spread, Times;
    if |samples| >= 2 {
      var n, sum := |samples| as real, RttSum(samples);
      var mean := sum / n;
      var deviation := SquareSum(samples, mean);
      SquareSumIs(samples, mean);
      Quotient(sum, n);
      DeviationTimes(n, sum, RttSquares(samples), mean);
      Quotient(deviation, n);
      Threshold(Variance(samples), deviation, n, n * RttSquares(samples) - sum * sum);
      assert Jittery(samples) <==> Variance(samples) >= 10_000.0 by { JitterThreshold(samples); }
    }
  }

  lemma JitterThreshold(samples: seq<Sample>)
    ensures Jittery(samples) <==> Variance(samples) >= 10_000.0
  {
    hide Variance;
  }

  lemma Quotient(a: real, n: real)
    requires n > 0.0
    ensures n * (a / n) == a
  {
  }

  lemma Threshold(variance: real, deviation: real, n: real, numerator: real)
    requires n > 0.0 && n * variance == deviation && n * deviation == numerator
    ensures variance >= 10_000.0 <==> numerator >= 10_000.0 * Times(n, n)
  {
    hide Times;
    TimesPositive(n, n);
    Regroup(variance, n);
    CompareScaled(variance, 10_000.0, Times(n, n));
  }

  function Times(x: real, y: real): real { x * y }

  lemma TimesPositive(a: real, b: real)
    requires a > 0.0 && b > 0.0
    ensures Times(a, b) > 0.0
  {
  }

  lemma Regroup(a: real, n: real)
    ensures n * (n * a) == a * Times(n, n)
  {
  }

  lemma CompareScaled(a: real, b: real, c: real)
    requires c > 0.0
    ensures a >= b <==> a * c >= b * c
  {
    MoreTimes(a, b, c);
    MoreTimes(b, a, c);
  }

  lemma MoreTimes(a: real, b: real, n: real)
    requires n > 0.0
    ensures (a <= b ==> a * n <= b * n) && (a < b ==> a * n < b * n)
  {
    if a < b {
      PositiveTimes(b - a, n);
      assert b * n == (b - a) * n + a * n;
    }
  }

  lemma PositiveTimes(a: real, b: real)
    requires a > 0.0 && b > 0.0
    ensures a * b > 0.0
  {
  }

  lemma ScaledStrictly(a: real, b: real, n: real)
    requires a < b && n > 0.0
    ensures a * (n * n) < b * (n * n)
  {
    MoreTimes(a, b, n);
    MoreTimes(a * n, b * n, n);
    assert a * (n * n) == (a * n) * n && b * (n * n) == (b * n) * n;
  }

  // ---- the sample chosen ----

  /** The sample chosen is the first of the fastest. */
  lemma {:induction false} FirstFastest(samples: seq<Sample>) returns (k: nat)
    requires samples != []
    ensures k < |samples| && samples[k] == Best(samples)
    ensures forall j :: 0 <= j < k ==> samples[j].rtt > samples[k].rtt
    ensures forall j :: k <= j < |samples| ==> samples[j].rtt >= samples[k].rtt
  {
    if |samples| == 1 {
      k := 0;
      assert Sort(samples[1..], Faster) == [];
    } else {
      var later := FirstFastest(samples[1..]);
      assert forall j :: 0 < j < |samples| ==> samples[j] == samples[1..][j - 1];
      k := if samples[later + 1].rtt < samples[0].rtt then later + 1 else 0;
    }
  }

  /** What a synchronisation adopts, and from which sample. */
  ghost predicate Adopts(c: Clock, t: Clock, b: Sample) {
    && t.rtt == Some(b.rtt) && t.hasSynced && t.state == Synced
    && (if !c.hasSynced || b.offset - c.offset >= 500.0 || c.offset - b.offset >= 500.0
        then t.offset == b.offset else 2.0 * t.offset == c.offset + b.offset)
  }

  /** The samples of a round: the first five attempts', and three more attempts' on a jittery line. */
  ghost predicate RoundSamples(r: Round, samples: seq<Sample>, ks: seq<nat>, ls: seq<nat>, split: nat) {
    && split <= |samples| && Collected(r.first, samples[..split], ks)
    && (if Jittery(samples[..split]) then Collected(r.extra, samples[split..], ls) else split == |samples|)
  }

  /**
    * A synchronisation in a tab: it fails and changes nothing when no attempt was answered; otherwise the tab adopts the first
    * of its fastest samples, at once the first time and when half a second or more off, else half way, and broadcasts it.
    */
  lemma SyncAdopts(b: Browser, tab: nat, r: Round) returns (samples: seq<Sample>, ks: seq<nat>, ls: seq<nat>, split: nat, k: nat)
    requires tab in b.tabs
    ensures var t := Step(b, SyncDone(tab, r));
      RoundSamples(r, samples, ks, ls, split) &&
      if (forall i :: 0 <= i < |r.first| ==> r.first[i].None?) then t == b
      else
        && k < |samples| && (forall j :: 0 <= j < k ==> samples[j].rtt > samples[k].rtt)
        && (forall j :: k <= j < |samples| ==> samples[j].rtt >= samples[k].rtt)
        && t.tabs.Keys == b.tabs.Keys && (forall x <- b.tabs :: x != tab ==> t.tabs[x] == b.tabs[x])
        && Adopts(b.tabs[tab], t.tabs[tab], samples[k])
        && t.sent == b.sent + {Message(t.tabs[tab].offset, samples[k].rtt)}
  {
    hide Collect, Jittery, Collected, Best;
    samples, split, k, ls := Samples(r), |Collect(r.first)|, 0, [];
    ks := CollectCollects(r.first);
    assert samples[..split] == Collect(r.first);
    if Jittery(Collect(r.first)) {
      ls := CollectCollects(r.extra);
      assert samples[split..] == Collect(r.extra);
    } else {
      assert samples == Collect(r.first);
    }
    SomeAnswered(r.first, ks);
    if Collect(r.first) != [] { k := FirstFastest(samples); }
  }

  lemma SomeAnswered(attempts: seq<Option<Exchange>>, ks: seq<nat>)
    requires Collected(attempts, Collect(attempts), ks)
    ensures Collect(attempts) == [] <==> forall i :: 0 <= i < |attempts| ==> attempts[i].None?
  {
    hide Measures;
    if Collect(attempts) != [] { assert attempts[ks[0]].Some?; }
  }

  /** A broadcast that reaches a tab is taken over, a tab that shuts down starts anew with its offset, a new tab knows nothing. */
  lemma OtherClockEvents(b: Browser, tab: nat, m: Message)
    ensures Step(b, Open(tab)) == if tab in b.tabs then b else b.(tabs := b.tabs[tab := Clock(0.0, None, false, Unsynced)])
    ensures Step(b, Deliver(tab, m)) ==
      if tab in b.tabs && m in b.sent then b.(tabs := b.tabs[tab := Clock(m.offset, Some(m.rtt), true, Synced)]) else b
    ensures Step(b, Shutdown(tab)) ==
      if tab in b.tabs then b.(tabs := b.tabs[tab := b.tabs[tab].(hasSynced := false, state := Unsynced)]) else b
  {
  }
}
