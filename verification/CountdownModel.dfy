/** The countdown handlers and the rally's use of the lock, as transitions between awaits (server/src/realtime/realtime.gateway.ts). */
module CountdownModel {
  import opened Prelude
  import opened BusyLockModel

  const AUTO_RELEASE_GRACE_MS := 1_000
  const COUNTDOWN_LEAD_MS := 7_000
  const RALLY_AUTO_IDLE_GRACE_SECONDS := 5

  datatype CountdownState = CountdownState(active: bool, startedAt: int, totalSeconds: int)

  const IDLE := CountdownState(false, 0, 0)

  // `probing` holds the start handlers suspended at their probe, each with its totalSeconds;
  // `acquiredAt` records which acquisition of the lock each of them made.
  datatype State = State(lock: Lock, countdown: CountdownState, probing: map<nat, int>, acquiredAt: map<nat, nat>, nextHandler: nat)

  const INITIAL := State(FREE, IDLE, map[], map[], 0)

  datatype Event =
    | Start(totalSeconds: Option<int>)                      // None: not an integer
    | ProbeDone(handler: nat, startedAt: int)
    | Stop
    | TimerFires(id: nat)
    | RallyStart(groupId: string, maxMarch: nat)
    | RallyRelease(groupId: string)

  /** When the automatic release of a countdown is meant to fire. */
  function EndOf(c: CountdownState): int {
    c.startedAt + c.totalSeconds * 1000 + AUTO_RELEASE_GRACE_MS
  }

  predicate ValidTotal(totalSeconds: Option<int>) {
    totalSeconds.Some? && 1 <= totalSeconds.value <= 600
  }

  /** Up to the probe. */
  function OnStart(s: State, totalSeconds: Option<int>, now: int): State {
    if !ValidTotal(totalSeconds) then s
    else
      var ms := totalSeconds.value * 1000 + AUTO_RELEASE_GRACE_MS;
      var (lock, acquired) := TryAcquire(s.lock, Countdown, Some(ms), Some(ExpireCountdown), now);
      if !acquired then s
      else
        s.(lock := lock, probing := s.probing[s.nextHandler := totalSeconds.value],
           acquiredAt := s.acquiredAt[s.nextHandler := lock.epoch], nextHandler := s.nextHandler + 1)
  }

  /** From the probe's answer on: only the type of the holder is checked again. */
  function OnProbeDone(s: State, handler: nat, startedAt: int, now: int): State {
    if handler !in s.probing then s
    else
      var resumed := s.(probing := s.probing - {handler});
      if s.lock.holder != Some(Countdown) then resumed
      else
        var countdown := CountdownState(true, startedAt, s.probing[handler]);
        var (lock, _) := Reschedule(s.lock, Countdown, Some(EndOf(countdown) - now), Some(ExpireCountdown), now);
        resumed.(lock := lock, countdown := countdown)
  }

  function OnStop(s: State): State {
    if s.lock.holder.Some? && !s.lock.holder.value.Countdown? then s
    else s.(lock := Release(s.lock, Countdown), countdown := IDLE)
  }

  function RemainingMs(c: CountdownState, now: int): int {
    if !c.active || c.startedAt == 0 || c.totalSeconds == 0 then 0 else EndOf(c) - now
  }

  function AutoExpire(s: State, now: int): State {
    var ms := RemainingMs(s.countdown, now);
    var (lock, acquired) := TryAcquire(s.lock, Countdown, Some(ms), Some(ExpireCountdown), now);
    if ms > 0 && acquired then s.(lock := lock) else s.(countdown := IDLE)
  }

  /** A live timer fires, early or late. */
  function OnTimer(s: State, id: nat, now: int): State {
    if id !in s.lock.live then s
    else
      var freed := s.(lock := Expire(s.lock, id));
      if s.lock.live[id].callback == Some(ExpireCountdown) then AutoExpire(freed, now) else freed
  }

  function RallyAutoReleaseMs(maxMarch: int): int {
    COUNTDOWN_LEAD_MS + maxMarch * 1000 + RALLY_AUTO_IDLE_GRACE_SECONDS * 1000
  }

  function OnRallyStart(s: State, groupId: string, maxMarch: nat, now: int): State {
    s.(lock := TryAcquire(s.lock, Rally(groupId), Some(RallyAutoReleaseMs(maxMarch)), Some(IdleRally(groupId)), now).0)
  }

  function OnRallyRelease(s: State, groupId: string): State {
    s.(lock := Release(s.lock, Rally(groupId)))
  }

  function Step(s: State, e: Event, now: int): State {
    match e
    case Start(totalSeconds) => OnStart(s, totalSeconds, now)
    case ProbeDone(handler, startedAt) => OnProbeDone(s, handler, startedAt, now)
    case Stop => OnStop(s)
    case TimerFires(id) => OnTimer(s, id, now)
    case RallyStart(groupId, maxMarch) => OnRallyStart(s, groupId, maxMarch, now)
    case RallyRelease(groupId) => OnRallyRelease(s, groupId)
  }

  function Run(s: State, events: seq<(int, Event)>): State
    decreases |events|
  {
    if events == [] then s
    else
      var last := events[|events| - 1];
      Step(Run(s, events[..|events| - 1]), last.1, last.0)
  }
}
