/** What every run of the countdown protocol keeps. */
module CountdownInvariants {
  import opened Prelude
  import opened BusyLockModel
  import opened CountdownModel

  function CallbackOf(h: Holder): Callback {
    match h
    case Countdown => ExpireCountdown
    case Rally(groupId) => IdleRally(groupId)
  }

  /** The lock is held exactly while one timer is live: the one it knows, armed for this very acquisition. */
  ghost predicate LockHolds(l: Lock) {
    && (forall id <- l.live :: id < l.nextId)
    && if l.holder.None? then l.timer.None? && l.live == map[]
       else
         && l.timer.Some? && l.live.Keys == {l.timer.value}
         && l.live[l.timer.value].epoch == l.epoch
         && l.live[l.timer.value].callback == Some(CallbackOf(l.holder.value))
  }

  ghost predicate Inv(s: State) {
    && LockHolds(s.lock)
    && (forall h <- s.probing :: h < s.nextHandler && 1 <= s.probing[h] <= 600 && h in s.acquiredAt && s.acquiredAt[h] <= s.lock.epoch)
    && (s.countdown.active ==> s.lock.holder == Some(Countdown) && 1 <= s.countdown.totalSeconds <= 600)
    && (!s.countdown.active ==> s.countdown == IDLE)
  }

  lemma StartKeeps(s: State, totalSeconds: Option<int>, now: int)
    requires Inv(s)
    ensures Inv(OnStart(s, totalSeconds, now))
  {
  }

  lemma ProbeDoneKeeps(s: State, handler: nat, startedAt: int, now: int)
    requires Inv(s)
    ensures Inv(OnProbeDone(s, handler, startedAt, now))
  {
  }

  lemma TimerKeeps(s: State, id: nat, now: int)
    requires Inv(s)
    ensures Inv(OnTimer(s, id, now))
  {
  }

  lemma EndKeeps(s: State, groupId: string)
    requires Inv(s)
    ensures Inv(OnStop(s)) && Inv(OnRallyRelease(s, groupId))
  {
  }

  lemma RallyStartKeeps(s: State, groupId: string, maxMarch: nat, now: int)
    requires Inv(s)
    ensures Inv(OnRallyStart(s, groupId, maxMarch, now))
  {
  }

  lemma StepKeeps(s: State, e: Event, now: int)
    requires Inv(s)
    ensures Inv(Step(s, e, now))
  {
    hide Inv, OnStart, OnProbeDone, OnStop, OnTimer, OnRallyStart, OnRallyRelease;
    match e
    case Start(totalSeconds) => StartKeeps(s, totalSeconds, now);
    case ProbeDone(handler, startedAt) => ProbeDoneKeeps(s, handler, startedAt, now);
    case Stop => EndKeeps(s, "");
    case TimerFires(id) => TimerKeeps(s, id, now);
    case RallyStart(groupId, maxMarch) => RallyStartKeeps(s, groupId, maxMarch, now);
    case RallyRelease(groupId) => EndKeeps(s, groupId);
  }

  lemma {:induction false} RunKeeps(events: seq<(int, Event)>)
    ensures Inv(Run(INITIAL, events))
  {
    if events != [] {
      var last := events[|events| - 1];
      RunKeeps(events[..|events| - 1]);
      StepKeeps(Run(INITIAL, events[..|events| - 1]), last.1, last.0);
    }
  }

  // ---- mutual exclusion ----

  /** In every run an active countdown holds the lock with its automatic release armed. */
  lemma ActiveHoldsLock(events: seq<(int, Event)>)
    ensures var s := Run(INITIAL, events);
      s.countdown.active ==>
      && s.lock.holder == Some(Countdown)
      && s.lock.timer.Some? && s.lock.live.Keys == {s.lock.timer.value}
      && s.lock.live[s.lock.timer.value].callback == Some(ExpireCountdown)
  {
    RunKeeps(events);
  }

  /** No rally acquires the lock while a countdown is active, and none becomes active while a rally holds it. */
  lemma NoOverlap(events: seq<(int, Event)>, e: Event, now: int)
    ensures var s, t := Run(INITIAL, events), Step(Run(INITIAL, events), e, now);
      && (t.lock.holder.Some? && t.lock.holder.value.Rally? && t.lock.epoch > s.lock.epoch ==> !s.countdown.active && s.lock.holder.None?)
      && (t.countdown.active && !s.countdown.active ==> s.lock.holder == Some(Countdown))
      && !(t.countdown.active && t.lock.holder.Some? && t.lock.holder.value.Rally?)
  {
    RunKeeps(events);
    StepKeeps(Run(INITIAL, events), e, now);
  }

  /** A start that finds the lock taken changes nothing, and the lock is never lost: it is free exactly when no timer is live. */
  lemma FreeIffNothingArmed(events: seq<(int, Event)>)
    ensures var l := Run(INITIAL, events).lock; l.holder.None? <==> l.live == map[]
  {
    RunKeeps(events);
  }

  // ---- how a countdown ends ----

  /**
    * The firing of the armed timer leaves an active countdown running exactly when it comes before
    * startedAt + totalSeconds * 1000 + 1000, and then arms the next one for that very moment.
    */
  lemma FiringEndsItAtItsTime(events: seq<(int, Event)>, id: nat, now: int)
    requires Run(INITIAL, events).countdown.active && id in Run(INITIAL, events).lock.live
    ensures var s, t := Run(INITIAL, events), Step(Run(INITIAL, events), TimerFires(id), now);
      && (t.countdown.active <==> s.countdown.startedAt != 0 && now < s.countdown.startedAt + s.countdown.totalSeconds * 1_000 + 1_000)
      && (t.countdown.active ==>
          && t.countdown == s.countdown && t.lock.holder == Some(Countdown) && t.lock.timer.Some?
          && t.lock.timer.value in t.lock.live
          && t.lock.live[t.lock.timer.value].dueAt == s.countdown.startedAt + s.countdown.totalSeconds * 1_000 + 1_000)
      && (!t.countdown.active ==> t.countdown == IDLE && t.lock.holder.None?)
  {
    RunKeeps(events);
  }

  /** The step ends a countdown by hand or by a firing in its own time. */
  ghost predicate Ends(s: State, e: Event, now: int) {
    e.Stop? ||
    (e.TimerFires? && e.id in s.lock.live &&
     (now >= s.countdown.startedAt + s.countdown.totalSeconds * 1_000 + 1_000 || s.countdown.startedAt == 0))
  }

  /** Nothing else ends it. */
  lemma EndsInTime(s: State, e: Event, now: int)
    requires Inv(s) && s.countdown.active
    ensures Step(s, e, now).countdown.active <==> !Ends(s, e, now)
  {
  }

  ghost predicate EndsAt(events: seq<(int, Event)>, k: nat)
    requires k < |events|
  {
    var s := Run(INITIAL, events[..k]);
    s.countdown.active && Ends(s, events[k].1, events[k].0)
  }

  /** An active countdown that is over some events later was stopped, or ended by a firing in its own time. */
  lemma {:induction false} EndedInTime(events: seq<(int, Event)>, i: nat)
    requires i <= |events| && Run(INITIAL, events[..i]).countdown.active && !Run(INITIAL, events).countdown.active
    ensures exists k :: i <= k < |events| && EndsAt(events, k)
  {
    var n := |events| - 1;
    assert events[..|events|] == events;
    if i == |events| {
      assert false;
    } else if Run(INITIAL, events[..n]).countdown.active {
      RunKeeps(events[..n]);
      EndsInTime(Run(INITIAL, events[..n]), events[n].1, events[n].0);
      assert EndsAt(events, n);
    } else {
      assert events[..n][..i] == events[..i];
      EndedInTime(events[..n], i);
      var k :| i <= k < n && EndsAt(events[..n], k);
      assert events[..n][..k] == events[..k];
      assert EndsAt(events, k);
    }
  }

  // ---- timers and acquisitions ----

  /** A timer is live only during the acquisition it was armed for. */
  lemma StepKeepsTimers(s: State, e: Event, now: int, id: nat)
    requires Inv(s) && id < s.lock.nextId
    ensures var t := Step(s, e, now); id < t.lock.nextId && s.lock.epoch <= t.lock.epoch
    ensures var t := Step(s, e, now);
      id in t.lock.live ==>
        && id in s.lock.live && t.lock.live[id] == s.lock.live[id]
        && t.lock.epoch == s.lock.epoch && t.lock.holder == s.lock.holder
  {
  }

  /** Between two moments at which the same timer is live the lock was not acquired again: no timer outlives its acquisition. */
  lemma {:induction false} TimerDiesWithAcquisition(events: seq<(int, Event)>, i: nat, id: nat)
    requires i <= |events| && id in Run(INITIAL, events[..i]).lock.live
    ensures var s, t := Run(INITIAL, events[..i]), Run(INITIAL, events);
      && id < t.lock.nextId
      && (id in t.lock.live ==> t.lock.epoch == s.lock.epoch && t.lock.holder == s.lock.holder)
  {
    RunKeeps(events[..i]);
    if i == |events| {
      assert events[..i] == events;
    } else {
      var n := |events| - 1;
      assert events[..n][..i] == events[..i];
      TimerDiesWithAcquisition(events[..n], i, id);
      RunKeeps(events[..n]);
      StepKeepsTimers(Run(INITIAL, events[..n]), events[n].1, events[n].0, id);
    }
  }

  /** A rally's lock ends only by that rally's release or by the timer armed for it. */
  lemma RallyEnds(events: seq<(int, Event)>, e: Event, now: int, groupId: string)
    requires Run(INITIAL, events).lock.holder == Some(Rally(groupId))
    ensures var s, t := Run(INITIAL, events), Step(Run(INITIAL, events), e, now);
      t.lock.holder == s.lock.holder && t.lock.live == s.lock.live <==>
      e != RallyRelease(groupId) && !(e.TimerFires? && e.id in s.lock.live)
  {
    RunKeeps(events);
  }

  // ---- when the timer is due ----

  /** Every probe is answered before the countdown it starts would be over. */
  ghost predicate Prompt(events: seq<(int, Event)>) {
    forall k :: 0 <= k < |events| && events[k].1.ProbeDone? ==> events[k].0 < events[k].1.startedAt
  }

  ghost predicate DueAtEnd(s: State) {
    s.countdown.active ==>
      && s.lock.timer.Some? && s.lock.timer.value in s.lock.live
      && s.lock.live[s.lock.timer.value].dueAt == s.countdown.startedAt + s.countdown.totalSeconds * 1_000 + 1_000
  }

  lemma StepKeepsDue(s: State, e: Event, now: int)
    requires Inv(s) && DueAtEnd(s) && (e.ProbeDone? ==> now < e.startedAt)
    ensures DueAtEnd(Step(s, e, now))
  {
  }

  /** With probes answered ahead of their start, the armed timer of an active countdown is due exactly when the countdown ends. */
  lemma {:induction false} TimerDueAtEnd(events: seq<(int, Event)>)
    requires Prompt(events)
    ensures DueAtEnd(Run(INITIAL, events))
  {
    if events != [] {
      var n := |events| - 1;
      assert forall k :: 0 <= k < n ==> events[..n][k] == events[k];
      TimerDueAtEnd(events[..n]);
      RunKeeps(events[..n]);
      StepKeepsDue(Run(INITIAL, events[..n]), events[n].1, events[n].0);
    }
  }

  // ---- stop and restart during a probe ----

  /** The handler's own acquisition of the lock is the current one. */
  ghost predicate StillOwns(s: State, handler: nat) {
    handler in s.acquiredAt && s.acquiredAt[handler] == s.lock.epoch && s.lock.holder == Some(Countdown)
  }

  /**
    * A start that lost its own acquisition while it was suspended takes the countdown over all the same exactly
    * when the lock is held by a countdown, which is then a later start's.
    */
  lemma LostStartTakesOver(events: seq<(int, Event)>, handler: nat, startedAt: int, now: int)
    requires handler in Run(INITIAL, events).probing && !StillOwns(Run(INITIAL, events), handler)
    ensures var s, t := Run(INITIAL, events), Step(Run(INITIAL, events), ProbeDone(handler, startedAt), now);
      && (t.countdown == CountdownState(true, startedAt, s.probing[handler]) <==> s.lock.holder == Some(Countdown))
      && (s.lock.holder == Some(Countdown) ==> handler in s.acquiredAt && s.acquiredAt[handler] < s.lock.epoch)
      && (s.lock.holder != Some(Countdown) ==> t == s.(probing := s.probing - {handler}))
  {
    RunKeeps(events);
  }

  /** A start whose acquisition still stands becomes the countdown. */
  lemma OwnStartBegins(events: seq<(int, Event)>, handler: nat, startedAt: int, now: int)
    requires handler in Run(INITIAL, events).probing && StillOwns(Run(INITIAL, events), handler)
    ensures var s, t := Run(INITIAL, events), Step(Run(INITIAL, events), ProbeDone(handler, startedAt), now);
      && t.countdown == CountdownState(true, startedAt, s.probing[handler])
      && t.lock.holder == Some(Countdown) && t.lock.epoch == s.lock.epoch
  {
    RunKeeps(events);
  }

  /** So a start that was stopped during its probe comes back once another start holds the lock. */
  lemma StoppedStartComesBack()
    ensures var events := [(0, Start(Some(5))), (1, Stop), (2, Start(Some(60)))];
      var s := Run(INITIAL, events);
      && 0 in s.probing && !StillOwns(s, 0) && StillOwns(s, 1)
      && Step(s, ProbeDone(0, 203), 3).countdown == CountdownState(true, 203, 5)
  {
    var events := [(0, Start(Some(5))), (1, Stop), (2, Start(Some(60)))];
    assert events[..2] == [(0, Start(Some(5))), (1, Stop)] && events[..2][..1] == [(0, Start(Some(5)))] ;
    assert Run(INITIAL, []) == INITIAL;
    assert Run(INITIAL, events[..1]) == Step(INITIAL, Start(Some(5)), 0);
    assert Run(INITIAL, events[..2]) == Step(Run(INITIAL, events[..1]), Stop, 1);
  }
}
