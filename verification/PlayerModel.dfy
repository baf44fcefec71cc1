/** The countdown player: schedules, waiting buffers and started sources (web/src/components/Battle/countdownPlayer.js). */
module PlayerModel {
  import opened Prelude

  const MAX_OUTPUT_LATENCY_SEC := 0.5
  const LATE_SEC := 0.2

  datatype Key = Number(n: int) | March

  // startedAt and timeOffset in milliseconds; None for a marchSeconds that is no integer.
  datatype Params = Params(totalSeconds: int, startedAt: real, timeOffset: real, marchSeconds: Option<int>)

  // What a schedule fixed when it took its anchor: seconds on the audio clock.
  datatype Plan = Plan(anchor: real, totalSeconds: int, march: Option<int>)

  // A slot whose buffer is still loading.
  datatype Wait = Wait(schedule: nat, key: Key)

  // A source that was started, and the audio time it was started for.
  datatype Source = Source(schedule: nat, key: Key, when: real)

  datatype State = State(
    latest: nat,                    // latestScheduleId
    pending: Option<Params>,        // pendingSchedule
    warming: map<nat, Params>,      // scheduleCountdown calls at an await, by their schedule id
    plans: map<nat, Plan>,          // history: the anchor each schedule took
    waits: set<Wait>,
    active: set<Source>,            // activeSources
    started: seq<Source>)           // history of the starts

  const INITIAL := State(0, None, map[], map[], {}, {}, [])

  predicate Schedules(p: Params) {
    p.startedAt != 0.0 && p.totalSeconds >= 2
  }

  function MarchSlot(p: Params): Option<int> {
    if p.marchSeconds.None? then None
    else if p.marchSeconds.value < 1 || p.marchSeconds.value > 180 || p.marchSeconds.value > p.totalSeconds then None
    else p.marchSeconds
  }

  /** A reported latency that is usable; None stands for a value that is no finite number. */
  function Pick(v: Option<real>): real { if v.Some? && v.value > 0.0 then v.value else 0.0 }

  function OutputLatency(output: Option<real>, base: Option<real>): real {
    var raw := if Pick(output) != 0.0 then Pick(output) else Pick(base);
    if raw <= 0.0 then 0.0 else if raw < MAX_OUTPUT_LATENCY_SEC then raw else MAX_OUTPUT_LATENCY_SEC
  }

  /** The audio time of the moment the countdown starts. */
  function Anchor(now: real, startedAt: real, serverNow: real, latency: real): real {
    now + (startedAt - serverNow) / 1000.0 - latency
  }

  predicate HasSlot(plan: Plan, key: Key) {
    match key
    case Number(n) => 1 <= n <= plan.totalSeconds
    case March => plan.march.Some?
  }

  /** The audio time of a slot. */
  function SlotAt(plan: Plan, key: Key): real
    requires HasSlot(plan, key)
  {
    match key
    case Number(n) => plan.anchor + (plan.totalSeconds - n) as real
    case March => plan.anchor + (plan.totalSeconds - plan.march.value) as real
  }

  function OnStop(s: State): State {
    s.(latest := s.latest + 1, pending := None, active := {})
  }

  /** scheduleCountdown up to its first await. */
  function OnSchedule(s: State, p: Params): State {
    if !Schedules(p) then s
    else
      var stopped := OnStop(s);
      var id := stopped.latest + 1;
      stopped.(latest := id, pending := Some(p), warming := s.warming[id := p])
  }

  /** The buffer of a slot is there: it is started unless its schedule is over or the slot lies too far back. */
  function StartSource(s: State, id: nat, key: Key, at: real, now: real): State {
    if id != s.latest || at < now - LATE_SEC then s
    else
      var source := Source(id, key, if at < now then now else at);
      s.(active := s.active + {source}, started := s.started + [source])
  }

  /** schedulePlay: `ready` are the keys whose buffers are decoded already. */
  function SchedulePlay(s: State, id: nat, key: Key, at: real, ready: set<Key>, now: real): State {
    if key in ready then StartSource(s, id, key, at, now) else s.(waits := s.waits + {Wait(id, key)})
  }

  /** The loop over the numbers from `n` down. */
  function ScheduleNumbers(s: State, id: nat, plan: Plan, n: int, ready: set<Key>, now: real): State
    requires n <= plan.totalSeconds
    decreases n
  {
    if n < 1 then s
    else ScheduleNumbers(SchedulePlay(s, id, Number(n), SlotAt(plan, Number(n)), ready, now), id, plan, n - 1, ready, now)
  }

  /** scheduleCountdown after its awaits: dropped when its schedule is over or the audio clock stands still. */
  function OnWarmed(s: State, id: nat, running: bool, now: real, serverNow: real, latency: real, ready: set<Key>): State {
    if id !in s.warming then s
    else
      var p := s.warming[id];
      var resumed := s.(warming := s.warming - {id});
      if id != s.latest || !running then resumed
      else
        var plan := Plan(Anchor(now, p.startedAt, serverNow, latency), p.totalSeconds, MarchSlot(p));
        var planned := resumed.(plans := s.plans[id := plan]);
        var numbered := ScheduleNumbers(planned, id, plan, p.totalSeconds, ready, now);
        if plan.march.None? then numbered else SchedulePlay(numbered, id, March, SlotAt(plan, March), ready, now)
  }

  /** A loading buffer arrives, or fails to. */
  function OnBuffer(s: State, w: Wait, loaded: bool, now: real): State {
    if w !in s.waits then s
    else
      var left := s.(waits := s.waits - {w});
      if !loaded || w.schedule !in s.plans || !HasSlot(s.plans[w.schedule], w.key) then left
      else StartSource(left, w.schedule, w.key, SlotAt(s.plans[w.schedule], w.key), now)
  }

  function OnEnded(s: State, source: Source): State { s.(active := s.active - {source}) }

  /** The audio clock runs again. */
  function OnRunning(s: State): State {
    if s.pending.None? then s else OnSchedule(s, s.pending.value)
  }

  datatype Event =
    | Schedule(params: Params)
    | Warmed(id: nat, running: bool, serverNow: real, outputLatency: Option<real>, baseLatency: Option<real>, ready: set<Key>)
    | BufferArrives(wait: Wait, loaded: bool)
    | Ended(source: Source)
    | ClockRuns
    | Stop

  /** `now` is the audio clock when the event is handled. */
  function Step(s: State, e: Event, now: real): State {
    match e
    case Schedule(params) => OnSchedule(s, params)
    case Warmed(id, running, serverNow, output, base, ready) =>
      OnWarmed(s, id, running, now, serverNow, OutputLatency(output, base), ready)
    case BufferArrives(wait, loaded) => OnBuffer(s, wait, loaded, now)
    case Ended(source) => OnEnded(s, source)
    case ClockRuns => OnRunning(s)
    case Stop => OnStop(s)
  }

  function Run(s: State, events: seq<(real, Event)>): State
    decreases |events|
  {
    if events == [] then s
    else
      var last := events[|events| - 1];
      Step(Run(s, events[..|events| - 1]), last.1, last.0)
  }
}
