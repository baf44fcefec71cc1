/** What each countdown and rally event does to the lock (server/src/realtime/busy-lock.service.ts), field by field. */
module CountdownSteps {
  import opened Prelude
  import opened BusyLockModel
  import opened CountdownModel
  import opened CountdownInvariants

  /** Held by `holder` in a new acquisition, with one live timer due at `dueAt` that will do `callback`. */
  ghost predicate Taken(l: Lock, m: Lock, holder: Holder, dueAt: int, callback: Callback) {
    && m.holder == Some(holder) && m.epoch == l.epoch + 1
    && m.timer == Some(l.nextId) && m.nextId == l.nextId + 1
    && m.live == map[l.nextId := Timer(dueAt, Some(callback), m.epoch)]
  }

  /** Free, with no timer left. */
  ghost predicate Freed(l: Lock, m: Lock) {
    m == l.(holder := None, timer := None, live := map[])
  }

  /** A start of 1 to 600 whole seconds takes a free lock for that time and one second more; any other start does nothing. */
  lemma StartTakesLock(events: seq<(int, Event)>, totalSeconds: Option<int>, now: int)
    ensures var s, t := Run(INITIAL, events), Step(Run(INITIAL, events), Start(totalSeconds), now);
      if totalSeconds.Some? && 1 <= totalSeconds.value <= 600 && s.lock.holder.None? then
        && Taken(s.lock, t.lock, Countdown, now + totalSeconds.value * 1_000 + 1_000, ExpireCountdown)
        && t == s.(lock := t.lock, probing := s.probing[s.nextHandler := totalSeconds.value],
                   acquiredAt := s.acquiredAt[s.nextHandler := t.lock.epoch], nextHandler := s.nextHandler + 1)
      else t == s
  {
    hide Run;
    RunKeeps(events);
  }

  /** An answered probe makes its start the countdown while a countdown holds the lock, with the timer due at the countdown's end. */
  lemma ProbeBegins(events: seq<(int, Event)>, handler: nat, startedAt: int, now: int)
    requires handler in Run(INITIAL, events).probing
    ensures var s, t := Run(INITIAL, events), Step(Run(INITIAL, events), ProbeDone(handler, startedAt), now);
      var total := s.probing[handler];
      var end := startedAt + total * 1_000 + 1_000;
      if s.lock.holder != Some(Countdown) then t == s.(probing := s.probing - {handler})
      else
        && t == s.(probing := s.probing - {handler}, countdown := CountdownState(true, startedAt, total), lock := t.lock)
        && (if end <= now then t.lock == s.lock
            else t.lock == s.lock.(timer := Some(s.lock.nextId), nextId := s.lock.nextId + 1,
                                   live := map[s.lock.nextId := Timer(end, Some(ExpireCountdown), s.lock.epoch)]))
  {
    hide Run;
    RunKeeps(events);
    var s := Run(INITIAL, events);
    if s.lock.holder == Some(Countdown) { assert s.lock.live - {s.lock.timer.value} == map[]; }
  }

  /** A stop frees the lock and ends the countdown, unless a rally holds it. */
  lemma StopFrees(events: seq<(int, Event)>, now: int)
    ensures var s, t := Run(INITIAL, events), Step(Run(INITIAL, events), Stop, now);
      if s.lock.holder.Some? && s.lock.holder.value.Rally? then t == s
      else Freed(s.lock, t.lock) && t == s.(lock := t.lock, countdown := CountdownState(false, 0, 0))
  {
    hide Run;
    RunKeeps(events);
    var s := Run(INITIAL, events);
    if s.lock.holder == Some(Countdown) { assert s.lock.live - {s.lock.timer.value} == map[]; }
  }

  /** A rally takes a free lock for seven seconds, its longest march and five seconds. */
  lemma RallyTakesLock(events: seq<(int, Event)>, groupId: string, maxMarch: nat, now: int)
    ensures var s, t := Run(INITIAL, events), Step(Run(INITIAL, events), RallyStart(groupId, maxMarch), now);
      if s.lock.holder.None? then
        Taken(s.lock, t.lock, Rally(groupId), now + 7_000 + maxMarch * 1_000 + 5_000, IdleRally(groupId)) && t == s.(lock := t.lock)
      else t == s
  {
    hide Run;
    RunKeeps(events);
  }

  /** A rally's release frees the lock that this very rally holds. */
  lemma RallyFrees(events: seq<(int, Event)>, groupId: string, now: int)
    ensures var s, t := Run(INITIAL, events), Step(Run(INITIAL, events), RallyRelease(groupId), now);
      if s.lock.holder == Some(Rally(groupId)) then Freed(s.lock, t.lock) && t == s.(lock := t.lock) else t == s
  {
    hide Run;
    RunKeeps(events);
    var s := Run(INITIAL, events);
    if s.lock.holder == Some(Rally(groupId)) { assert s.lock.live - {s.lock.timer.value} == map[]; }
  }

  /** A rally's own timer frees its lock, whenever it fires. */
  lemma RallyTimerFrees(events: seq<(int, Event)>, id: nat, now: int)
    requires id in Run(INITIAL, events).lock.live && Run(INITIAL, events).lock.holder.Some? && Run(INITIAL, events).lock.holder.value.Rally?
    ensures var s, t := Run(INITIAL, events), Step(Run(INITIAL, events), TimerFires(id), now);
      Freed(s.lock, t.lock) && t == s.(lock := t.lock)
  {
    hide Run;
    RunKeeps(events);
    assert Run(INITIAL, events).lock.live - {id} == map[];
  }

  /** A countdown's timer that fires before the probe is answered frees the lock, with no countdown begun. */
  lemma TimerBeforeProbe(events: seq<(int, Event)>, id: nat, now: int)
    requires id in Run(INITIAL, events).lock.live && Run(INITIAL, events).lock.holder == Some(Countdown) && !Run(INITIAL, events).countdown.active
    ensures var s, t := Run(INITIAL, events), Step(Run(INITIAL, events), TimerFires(id), now);
      t.lock.holder.None? && t.lock.timer.None? && t.lock.live == map[] && t == s.(lock := t.lock)
  {
    hide Run;
    RunKeeps(events);
    assert Run(INITIAL, events).lock.live - {id} == map[];
  }
}
