/** How far the clock estimate can be from the truth. */
module ClockBounds {
  import opened Prelude
  import opened Sorting
  import opened ClockModel

  // ---- one exchange ----

  /**
    * The exchange happened: the server's clock is `theta` ahead of the tab's, no leg takes negative time, and the
    * older reply was stamped while the server had the request.
    */
  ghost predicate Happened(e: Exchange, theta: real) {
    match e.reply
    case Stamped(t1, t2) => e.t0 + theta <= t1 <= t2 <= e.t3 + theta
    case Legacy(utc) => e.t0 + theta <= utc <= e.t3 + theta
  }

  /** A sample whose error is at most half its round trip. */
  ghost predicate Truthful(s: Sample, theta: real) {
    s.rtt >= 0.0 && Abs(s.offset - theta) <= s.rtt / 2.0
  }

  /** The round trip is the time on the wire, and the offset errs by half the difference of the two legs. */
  lemma MeasureIsExact(t0: real, outward: real, stay: real, back: real, theta: real)
    requires outward >= 0.0 && stay >= 0.0 && back >= 0.0
    ensures var t1 := t0 + outward + theta;
      var e := Exchange(t0, t0 + outward + stay + back, Stamped(t1, t1 + stay));
      && Happened(e, theta)
      && Measure(e).rtt == outward + back && Measure(e).offset - theta == (outward - back) / 2.0
  {
  }

  lemma MeasureIsTruthful(e: Exchange, theta: real)
    requires Happened(e, theta)
    ensures Truthful(Measure(e), theta)
  {
  }

  ghost predicate AllHappened(attempts: seq<Option<Exchange>>, theta: real) {
    forall i :: 0 <= i < |attempts| && attempts[i].Some? ==> Happened(attempts[i].value, theta)
  }

  ghost predicate AllTruthful(samples: seq<Sample>, theta: real) {
    forall i :: 0 <= i < |samples| ==> Truthful(samples[i], theta)
  }

  lemma {:induction false} CollectIsTruthful(attempts: seq<Option<Exchange>>, theta: real)
    requires AllHappened(attempts, theta)
    ensures AllTruthful(Collect(attempts), theta)
  {
    hide Measure, Happened, Truthful;
    if attempts != [] {
      var n := |attempts| - 1;
      assert forall i :: 0 <= i < n ==> attempts[..n][i] == attempts[i];
      CollectIsTruthful(attempts[..n], theta);
      if attempts[n].Some? { MeasureIsTruthful(attempts[n].value, theta); }
    }
  }

  // ---- the best sample ----

  lemma FasterIsStrict()
    ensures StrictWeak(Faster)
  {
  }

  /** The sample chosen is one of those collected, and none has a shorter round trip. */
  lemma BestIsFastest(samples: seq<Sample>)
    requires samples != []
    ensures Best(samples) in samples && forall s <- samples :: Best(samples).rtt <= s.rtt
  {
    hide StrictWeak;
    var sorted := Sort(samples, Faster);
    FasterIsStrict();
    SortSorts(samples, Faster);
    SortPermutes(samples, Faster);
    SamePermuted(sorted, samples);
    assert sorted[0] in sorted;
    forall s | s in samples ensures Best(samples).rtt <= s.rtt {
      var k :| 0 <= k < |sorted| && sorted[k] == s;
      if k > 0 { assert !Faster(sorted[k], sorted[0]); }
    }
  }

  /** The extra samples of a jittery line are added to the first ones and can only shorten the best round trip. */
  lemma ExtraSamplesOnlyHelp(r: Round)
    requires ValidRound(r) && Collect(r.first) != []
    ensures Best(Samples(r)).rtt <= Best(Collect(r.first)).rtt
    ensures |r.first| == 5 && |r.extra| == 3 && |Samples(r)| <= 8
  {
    hide Best, Collect, Jittery;
    BestIsFastest(Collect(r.first));
    BestIsFastest(Samples(r));
    CollectSize(r.first);
    CollectSize(r.extra);
  }

  lemma {:induction false} CollectSize(attempts: seq<Option<Exchange>>)
    ensures |Collect(attempts)| <= |attempts|
  {
    if attempts != [] { CollectSize(attempts[..|attempts| - 1]); }
  }

  ghost predicate RoundHappened(r: Round, theta: real) {
    AllHappened(r.first, theta) && AllHappened(r.extra, theta)
  }

  lemma BestIsTruthful(r: Round, theta: real)
    requires RoundHappened(r, theta) && Collect(r.first) != []
    ensures Truthful(Best(Samples(r)), theta)
  {
    hide Best, Collect, Jittery, Truthful, AllHappened;
    CollectIsTruthful(r.first, theta);
    CollectIsTruthful(r.extra, theta);
    BestIsFastest(Samples(r));
    var k :| 0 <= k < |Samples(r)| && Samples(r)[k] == Best(Samples(r));
  }

  // ---- the bound over every run ----

  /** A synchronised estimate is within half of `R` of the truth. */
  ghost predicate Within(offset: real, theta: real, R: real) {
    Abs(offset - theta) <= R / 2.0
  }

  lemma AdjustStaysWithin(c: Clock, best: Sample, theta: real, R: real)
    requires Truthful(best, theta) && best.rtt <= R && (c.hasSynced ==> Within(c.offset, theta, R))
    ensures Within(Adjust(c, best).offset, theta, R)
  {
  }

  /** Every synchronisation so far happened, with a best round trip of at most `R`. */
  ghost predicate Fair(events: seq<Event>, theta: real, R: real) {
    forall i :: 0 <= i < |events| && events[i].SyncDone? ==>
      && RoundHappened(events[i].round, theta)
      && (Collect(events[i].round.first) != [] ==> Best(Samples(events[i].round)).rtt <= R)
  }

  ghost predicate Inv(b: Browser, theta: real, R: real) {
    && (forall t <- b.tabs :: b.tabs[t].hasSynced ==> Within(b.tabs[t].offset, theta, R))
    && (forall m <- b.sent :: Within(m.offset, theta, R))
  }

  lemma StepKeeps(b: Browser, e: Event, theta: real, R: real)
    requires Inv(b, theta, R)
    requires e.SyncDone? ==> RoundHappened(e.round, theta) && (Collect(e.round.first) != [] ==> Best(Samples(e.round)).rtt <= R)
    ensures Inv(Step(b, e), theta, R)
  {
    hide Within, Collect, Jittery, Best, Adjust, RoundHappened, Truthful;
    if e.SyncDone? && e.tab in b.tabs && Collect(e.round.first) != [] {
      BestIsTruthful(e.round, theta);
      AdjustStaysWithin(b.tabs[e.tab], Best(Samples(e.round)), theta, R);
    }
  }

  /** In every run of any number of tabs, every synchronised tab is within half of the worst best round trip, from its first synchronisation on. */
  lemma {:induction false} EveryTabWithinHalfRtt(events: seq<Event>, theta: real, R: real)
    requires Fair(events, theta, R)
    ensures Inv(Run(events), theta, R)
  {
    if events != [] {
      var n := |events| - 1;
      assert forall i :: 0 <= i < n ==> events[..n][i] == events[i];
      EveryTabWithinHalfRtt(events[..n], theta, R);
      StepKeeps(Run(events[..n]), events[n], theta, R);
    }
  }

  // ---- convergence ----

  function Halved(e: real, n: nat): real { if n == 0 then e else Halved(e, n - 1) / 2.0 }

  function SyncAll(c: Clock, rounds: seq<Round>): Clock {
    if rounds == [] then c
    else
      var before := SyncAll(c, rounds[..|rounds| - 1]);
      Sync(before, rounds[|rounds| - 1]).GetOr(before)
  }

  lemma AdjustHalvesError(c: Clock, best: Sample, theta: real, r: real, e: real)
    requires Truthful(best, theta) && best.rtt <= r && Abs(c.offset - theta) <= r / 2.0 + e && e >= 0.0
    ensures Abs(Adjust(c, best).offset - theta) <= r / 2.0 + e / 2.0
  {
  }

  lemma {:induction false} HalvedNonNegative(e: real, n: nat)
    requires e >= 0.0
    ensures Halved(e, n) >= 0.0
  {
    if n > 0 { HalvedNonNegative(e, n - 1); }
  }

  /**
    * From any error, n further synchronisations with best round trips of at most r leave at most r/2 plus a 2^n-th of
    * that error, through both the jumps and the smoothing.
    */
  lemma {:induction false} ErrorHalvesEachTime(c: Clock, rounds: seq<Round>, theta: real, r: real)
    requires r >= 0.0
    requires forall i :: 0 <= i < |rounds| ==>
      RoundHappened(rounds[i], theta) && Collect(rounds[i].first) != [] && Best(Samples(rounds[i])).rtt <= r
    ensures Abs(SyncAll(c, rounds).offset - theta) <= r / 2.0 + Halved(Abs(c.offset - theta), |rounds|)
  {
    hide Collect, Jittery, Best, Adjust, RoundHappened, Truthful;
    if rounds != [] {
      var n := |rounds| - 1;
      var before := SyncAll(c, rounds[..n]);
      assert forall i :: 0 <= i < n ==> rounds[..n][i] == rounds[i];
      ErrorHalvesEachTime(c, rounds[..n], theta, r);
      BestIsTruthful(rounds[n], theta);
      HalvedNonNegative(Abs(c.offset - theta), n);
      AdjustHalvesError(before, Best(Samples(rounds[n])), theta, r, Halved(Abs(c.offset - theta), n));
    }
  }
}
