/** The translation queue: four jobs at once, so many a minute. */
module TranslationQueue {
  import opened Prelude
  import opened SlidingWindow

  const CONCURRENCY := 4
  const WINDOW_MS := 60_000

  type Job = nat

  // `jobs` are the running ones; `admitted` (the time of every admitted job, by number) and `begun` are history.
  datatype State = State(
    running: int,
    waiting: seq<Job>,
    started: seq<int>,
    jobs: set<Job>,
    admitted: seq<int>,
    begun: seq<Job>)

  const INITIAL := State(0, [], [], {}, [], [])

  datatype Verdict = Admitted(job: Job) | Refused(retryAfterMs: int)

  datatype Event = Submit | Finish(job: Job)

  function Acquire(s: State, job: Job): State {
    if s.running < CONCURRENCY then s.(running := s.running + 1, jobs := s.jobs + {job}, begun := s.begun + [job])
    else s.(waiting := s.waiting + [job])
  }

  function OnSubmit(s: State, rpm: nat, now: int): (State, Verdict)
    requires rpm >= 1
  {
    var started := Recent(s.started, now - WINDOW_MS);
    var pruned := s.(started := started);
    if |started| >= rpm then (pruned, Refused(Max(1, started[0] + WINDOW_MS - now)))
    else
      var job := |s.admitted|;
      (Acquire(pruned.(started := started + [now], admitted := s.admitted + [now]), job), Admitted(job))
  }

  /** A running job ends, whether it succeeds or throws; the first waiter, if any, runs. */
  function OnFinish(s: State, job: Job): State {
    if job !in s.jobs then s
    else
      var left := s.(running := s.running - 1, jobs := s.jobs - {job});
      if s.waiting == [] then left
      else
        left.(running := left.running + 1, waiting := s.waiting[1..],
              jobs := left.jobs + {s.waiting[0]}, begun := s.begun + [s.waiting[0]])
  }

  function Step(s: State, rpm: nat, e: Event, now: int): State
    requires rpm >= 1
  {
    match e
    case Submit => OnSubmit(s, rpm, now).0
    case Finish(job) => OnFinish(s, job)
  }

  function Run(rpm: nat, events: seq<(int, Event)>): State
    requires rpm >= 1
    decreases |events|
  {
    if events == [] then INITIAL
    else
      var last := events[|events| - 1];
      Step(Run(rpm, events[..|events| - 1]), rpm, last.1, last.0)
  }

  // ---- what every run keeps ----

  /** The jobs begun and then the jobs waiting are the admitted jobs in the order of their admission. */
  ghost predicate InOrder(s: State) {
    && |s.begun| + |s.waiting| == |s.admitted|
    && (forall i :: 0 <= i < |s.begun| ==> s.begun[i] == i)
    && (forall i :: 0 <= i < |s.waiting| ==> s.waiting[i] == |s.begun| + i)
  }

  ghost predicate SlotsHold(s: State) {
    && s.running == |s.jobs| <= CONCURRENCY
    && (s.waiting != [] ==> s.running == CONCURRENCY)
    && (forall j <- s.jobs :: j < |s.begun|)
  }

  ghost predicate RateHolds(s: State, rpm: nat, clock: int) {
    && Ascending(s.admitted) && (s.admitted == [] || s.admitted[|s.admitted| - 1] <= clock)
    && Prunes(s.admitted, s.started, clock - WINDOW_MS)
    && |s.started| <= rpm
    && Limited(s.admitted, WINDOW_MS, rpm)
  }

  ghost predicate Inv(s: State, rpm: nat, clock: int) {
    InOrder(s) && SlotsHold(s) && RateHolds(s, rpm, clock)
  }

  lemma PruneKeepsRate(s: State, rpm: nat, clock: int, now: int)
    requires RateHolds(s, rpm, clock) && clock <= now
    ensures RateHolds(s.(started := Recent(s.started, now - WINDOW_MS)), rpm, now)
  {
    hide CountIn, Recent, Limited, Prunes, Ascending;
    PrunedAnswers(s.admitted, s.started, clock - WINDOW_MS, now - WINDOW_MS);
  }

  /** An admission into a window that is not full. */
  lemma PushKeepsRate(s: State, t: State, rpm: nat, now: int)
    requires RateHolds(s, rpm, now) && s.started == Recent(s.admitted, now - WINDOW_MS) && |s.started| < rpm
    requires t.admitted == s.admitted + [now] && t.started == s.started + [now]
    ensures RateHolds(t, rpm, now)
  {
    hide CountIn, Recent, Limited, Prunes, Ascending;
    PushPrunes(s.admitted, s.started, now - WINDOW_MS, now);
    RecentCounts(s.admitted, now - WINDOW_MS, now);
    LimitedPush(s.admitted, now, WINDOW_MS, rpm);
    AscendingPush(s.admitted, now);
  }

  lemma SubmitKeepsWindow(s: State, rpm: nat, clock: int, now: int)
    requires rpm >= 1 && RateHolds(s, rpm, clock) && clock <= now
    ensures RateHolds(OnSubmit(s, rpm, now).0, rpm, now)
  {
    hide RateHolds, Recent, Prunes;
    var pruned := s.(started := Recent(s.started, now - WINDOW_MS));
    PruneKeepsRate(s, rpm, clock, now);
    if |pruned.started| < rpm {
      RatePrunes(s, rpm, clock);
      PrunedAnswers(s.admitted, s.started, clock - WINDOW_MS, now - WINDOW_MS);
      PushKeepsRate(pruned, OnSubmit(s, rpm, now).0, rpm, now);
    }
  }

  lemma RatePrunes(s: State, rpm: nat, clock: int)
    requires RateHolds(s, rpm, clock)
    ensures Prunes(s.admitted, s.started, clock - WINDOW_MS)
  {
    hide Prunes, Limited, Ascending;
  }

  lemma SubmitKeepsSlots(s: State, rpm: nat, now: int)
    requires rpm >= 1 && InOrder(s) && SlotsHold(s)
    ensures InOrder(OnSubmit(s, rpm, now).0) && SlotsHold(OnSubmit(s, rpm, now).0)
  {
    var job := |s.admitted|;
    assert job !in s.jobs;
  }

  lemma FinishKeepsSlots(s: State, job: Job)
    requires InOrder(s) && SlotsHold(s)
    ensures InOrder(OnFinish(s, job)) && SlotsHold(OnFinish(s, job))
  {
    if job in s.jobs && s.waiting != [] {
      assert s.waiting[0] !in s.jobs;
      assert |s.jobs - {job} + {s.waiting[0]}| == |s.jobs|;
    }
  }

  /** The clock does not run backwards. */
  ghost predicate Timely(events: seq<(int, Event)>) {
    forall i, j :: 0 <= i <= j < |events| ==> events[i].0 <= events[j].0
  }

  function Clock(events: seq<(int, Event)>): int {
    if events == [] then 0 else events[|events| - 1].0
  }

  lemma StepKeeps(s: State, rpm: nat, e: Event, clock: int, now: int)
    requires rpm >= 1 && Inv(s, rpm, clock) && clock <= now
    ensures Inv(Step(s, rpm, e, now), rpm, now)
  {
    hide InOrder, SlotsHold, RateHolds, OnSubmit, OnFinish;
    match e
    case Submit => SubmitKeepsWindow(s, rpm, clock, now); SubmitKeepsSlots(s, rpm, now);
    case Finish(job) => FinishKeepsSlots(s, job); FinishKeepsRate(s, rpm, job, clock, now);
  }

  lemma FinishKeepsRate(s: State, rpm: nat, job: Job, clock: int, now: int)
    requires RateHolds(s, rpm, clock) && clock <= now
    ensures RateHolds(OnFinish(s, job), rpm, now)
  {
    hide Limited, Ascending, Prunes, OnFinish;
    FinishLeavesWindow(s, job);
    PrunesLater(s.admitted, s.started, clock - WINDOW_MS, now - WINDOW_MS);
  }

  lemma FinishLeavesWindow(s: State, job: Job)
    ensures OnFinish(s, job).admitted == s.admitted && OnFinish(s, job).started == s.started
  {
  }

  lemma NothingSubmitted(rpm: nat, now: int)
    ensures Inv(INITIAL, rpm, now)
  {
  }

  lemma {:induction false} RunKeeps(rpm: nat, events: seq<(int, Event)>)
    requires rpm >= 1 && Timely(events)
    ensures Inv(Run(rpm, events), rpm, Clock(events))
  {
    hide Inv, Step;
    if events == [] {
      NothingSubmitted(rpm, 0);
    } else {
      var n := |events| - 1;
      var now := events[n].0;
      RunKeeps(rpm, events[..n]);
      if n == 0 { NothingSubmitted(rpm, now); }
      StepKeeps(Run(rpm, events[..n]), rpm, events[n].1, if n == 0 then now else Clock(events[..n]), now);
    }
  }

  /** In every run at most four jobs run, and a job waits only while four run. */
  lemma AtMostFourRun(rpm: nat, events: seq<(int, Event)>)
    requires rpm >= 1 && Timely(events)
    ensures var s := Run(rpm, events);
      s.running == |s.jobs| <= 4 && (s.waiting != [] ==> |s.jobs| == 4)
  {
    RunKeeps(rpm, events);
  }

  /** Jobs begin in the order in which they were admitted, and none is skipped. */
  lemma FirstInFirstOut(rpm: nat, events: seq<(int, Event)>)
    requires rpm >= 1 && Timely(events)
    ensures var s := Run(rpm, events);
      |s.begun + s.waiting| == |s.admitted| && forall i :: 0 <= i < |s.admitted| ==> (s.begun + s.waiting)[i] == i
  {
    RunKeeps(rpm, events);
  }

  /** Any 60,000 ms window admits at most rpm jobs. */
  lemma AtMostRpm(rpm: nat, events: seq<(int, Event)>, lo: int)
    requires rpm >= 1 && Timely(events)
    ensures CountIn(Run(rpm, events).admitted, lo, lo + 60_000) <= rpm
  {
    hide CountIn, Run, Prunes;
    RunKeeps(rpm, events);
    WindowHolds(Run(rpm, events).admitted, WINDOW_MS, rpm, lo);
  }

  /** A submission is refused exactly when the window that ends with it already holds rpm admissions. */
  lemma RefusedWhenFull(rpm: nat, events: seq<(int, Event)>, now: int)
    requires rpm >= 1 && Timely(events) && (events == [] || Clock(events) <= now)
    ensures OnSubmit(Run(rpm, events), rpm, now).1.Refused? <==> CountIn(Run(rpm, events).admitted, now - 60_000, now) == rpm
  {
    hide CountIn, Recent, Limited, Prunes, Run, Ascending;
    RunKeeps(rpm, events);
    var s := Run(rpm, events);
    if events == [] {
      NothingAdmitted(rpm, now);
    } else {
      PrunedAnswers(s.admitted, s.started, Clock(events) - WINDOW_MS, now - WINDOW_MS);
      RecentCounts(s.admitted, now - WINDOW_MS, now);
    }
  }

  lemma NothingAdmitted(rpm: nat, now: int)
    requires rpm >= 1
    ensures Recent(Run(rpm, []).started, now - WINDOW_MS) == [] && CountIn(Run(rpm, []).admitted, now - WINDOW_MS, now) == 0
  {
  }

  /** An admitted job is the next in number and begins at once when fewer than four run. */
  lemma SubmittedJob(rpm: nat, events: seq<(int, Event)>, now: int)
    requires rpm >= 1 && Timely(events)
    ensures var s := Run(rpm, events); var (t, verdict) := OnSubmit(s, rpm, now); var job := |s.admitted|;
      if verdict.Refused? then t == s.(started := t.started)
      else
        && verdict == Admitted(job) && t.admitted == s.admitted + [now]
        && (if |s.jobs| < 4 then t.jobs == s.jobs + {job} && t.waiting == s.waiting && t.begun == s.begun + [job]
            else t.jobs == s.jobs && t.waiting == s.waiting + [job] && t.begun == s.begun)
  {
    hide Recent, Run;
    RunKeeps(rpm, events);
  }

  /** A job that ends hands its slot to the job that waited longest. */
  lemma FinishedJob(rpm: nat, events: seq<(int, Event)>, job: Job)
    requires rpm >= 1 && Timely(events) && job in Run(rpm, events).jobs
    ensures var s := Run(rpm, events); var t := OnFinish(s, job);
      && t.admitted == s.admitted && t.started == s.started
      && (if s.waiting == [] then t.jobs == s.jobs - {job} && t.begun == s.begun && t.waiting == []
          else t.jobs == s.jobs - {job} + {s.waiting[0]} && t.begun == s.begun + [s.waiting[0]] && t.waiting == s.waiting[1..])
  {
    hide Run;
  }

  /** The wait that a refusal returns is exact: with no other admission, a retry is admitted from then on and not before. */
  lemma RetryAfterIsExact(rpm: nat, events: seq<(int, Event)>, now: int, wait: nat)
    requires rpm >= 1 && Timely(events) && (events == [] || Clock(events) <= now)
    requires OnSubmit(Run(rpm, events), rpm, now).1.Refused?
    ensures var (s, refusal) := OnSubmit(Run(rpm, events), rpm, now);
      refusal.retryAfterMs >= 1 && (OnSubmit(s, rpm, now + wait).1.Admitted? <==> wait >= refusal.retryAfterMs)
  {
    hide RateHolds, Recent, Run, Acquire;
    RunKeeps(rpm, events);
    StartedFits(rpm, events);
    var started := Run(rpm, events).started;
    RecentIsSuffix(started, now - WINDOW_MS);
    RetryOfFull(Recent(started, now - WINDOW_MS), rpm, now, wait);
  }

  lemma StartedFits(rpm: nat, events: seq<(int, Event)>)
    requires rpm >= 1 && Timely(events)
    ensures |Run(rpm, events).started| <= rpm
  {
    hide Run;
    RunKeeps(rpm, events);
  }

  lemma RetryOfFull(started: seq<int>, rpm: nat, now: int, wait: nat)
    requires 1 <= rpm == |started| && started[0] > now - WINDOW_MS
    ensures |Recent(started, now + wait - WINDOW_MS)| < rpm <==> wait >= started[0] + WINDOW_MS - now
  {
    RecentIsSuffix(started, now + wait - WINDOW_MS);
    if started[0] > now + wait - WINDOW_MS { assert Recent(started, now + wait - WINDOW_MS) == started; }
  }

  class TranslationQueueService {
    const rpm: nat
    var running: int
    var waiting: seq<Job>
    var started: seq<int>
    ghost var jobs: set<Job>
    ghost var begun: seq<Job>
    var admitted: seq<int>

    ghost function View(): State
      reads this
    {
      State(running, waiting, started, jobs, admitted, begun)
    }

    constructor (rpm: nat)
      requires rpm >= 1
      ensures this.rpm == rpm && View() == INITIAL
    {
      this.rpm := rpm;
      running, waiting, started, jobs, admitted, begun := 0, [], [], {}, [], [];
    }

    method Prune(now: int)
      modifies this
      ensures View() == old(View()).(started := Recent(old(started), now - WINDOW_MS))
    {
      var cutoff := now - WINDOW_MS;
      while |started| > 0 && started[0] <= cutoff
        invariant View() == old(View()).(started := started)
        invariant Recent(old(started), cutoff) == Recent(started, cutoff)
      {
        started := started[1..];
      }
    }

    method AcquireSlot(job: Job)
      modifies this
      ensures View() == Acquire(old(View()), job)
    {
      if running < CONCURRENCY {
        running := running + 1;
        jobs, begun := jobs + {job}, begun + [job];
        return;
      }
      waiting := waiting + [job];
    }

    /** run up to the call of its job. */
    method Submit(now: int) returns (verdict: Verdict)
      requires rpm >= 1
      modifies this
      ensures (View(), verdict) == OnSubmit(old(View()), rpm, now)
    {
      Prune(now);
      if |started| >= rpm { return Refused(Max(1, started[0] + WINDOW_MS - now)); }
      started := started + [now];
      var job := |admitted|;
      admitted := admitted + [now];
      AcquireSlot(job);
      return Admitted(job);
    }

    /** The finally block of run. */
    method Release(job: Job)
      requires job in jobs
      modifies this
      ensures View() == OnFinish(old(View()), job)
    {
      running := running - 1;
      jobs := jobs - {job};
      if |waiting| > 0 {
        var next := waiting[0];
        waiting := waiting[1..];
        running := running + 1;
        jobs, begun := jobs + {next}, begun + [next];
      }
    }
  }
}
