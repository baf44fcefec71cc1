/** The player's module variables and functions (web/src/components/Battle/countdownPlayer.js), each function proved against the model. */
module CountdownPlayer {
  import opened Prelude
  import opened M = PlayerModel

  class Player {
    var latestScheduleId: nat
    var pendingSchedule: Option<Params>
    var warming: map<nat, Params>
    var waits: set<Wait>
    var activeSources: set<Source>
    var plans: map<nat, Plan>
    ghost var started: seq<Source>

    ghost function View(): State
      reads this
    {
      State(latestScheduleId, pendingSchedule, warming, plans, waits, activeSources, started)
    }

    constructor ()
      ensures View() == INITIAL
    {
      latestScheduleId, pendingSchedule, warming, waits, activeSources, plans, started := 0, None, map[], {}, {}, map[], [];
    }

    method StopCountdownAudio()
      modifies this
      ensures View() == M.OnStop(old(View()))
    {
      latestScheduleId := latestScheduleId + 1;
      pendingSchedule := None;
      while activeSources != {}
        invariant View() == M.OnStop(old(View())).(active := activeSources)
        decreases |activeSources|
      {
        var src :| src in activeSources;
        activeSources := activeSources - {src};
      }
    }

    /** scheduleCountdown up to its first await; the result is the call's schedule id, if it goes on. */
    method ScheduleCountdown(p: Params) returns (id: Option<nat>)
      modifies this
      ensures View() == M.OnSchedule(old(View()), p)
      ensures id.Some? <==> Schedules(p)
      ensures id.Some? ==> id.value == latestScheduleId && id.value in warming
    {
      if p.startedAt == 0.0 || p.totalSeconds == 0 { return None; }
      if p.totalSeconds < 2 { return None; }
      StopCountdownAudio();
      latestScheduleId := latestScheduleId + 1;
      pendingSchedule := Some(p);
      warming := warming[latestScheduleId := p];
      return Some(latestScheduleId);
    }

    method StartSource(id: nat, key: Key, ctxTimeAtPlay: real, now: real)
      modifies this`activeSources, this`started
      ensures View() == M.StartSource(old(View()), id, key, ctxTimeAtPlay, now)
    {
      if id != latestScheduleId { return; }
      if ctxTimeAtPlay < now - LATE_SEC { return; }
      var src := Source(id, key, if ctxTimeAtPlay < now then now else ctxTimeAtPlay);
      activeSources := activeSources + {src};
      started := started + [src];
    }

    method SchedulePlay(id: nat, key: Key, ctxTimeAtPlay: real, ready: set<Key>, now: real)
      modifies this`activeSources, this`started, this`waits
      ensures View() == M.SchedulePlay(old(View()), id, key, ctxTimeAtPlay, ready, now)
    {
      if key in ready { StartSource(id, key, ctxTimeAtPlay, now); return; }
      waits := waits + {Wait(id, key)};
    }

    /** scheduleCountdown from its awaits on. */
    method Warmed(id: nat, running: bool, now: real, serverNow: real, outputLatency: Option<real>, baseLatency: Option<real>, ready: set<Key>)
      requires id in warming
      modifies this
      ensures View() == M.OnWarmed(old(View()), id, running, now, serverNow, OutputLatency(outputLatency, baseLatency), ready)
    {
      hide M.ScheduleNumbers, M.SchedulePlay, SlotAt, Anchor, OutputLatency, MarchSlot;
      var p := warming[id];
      warming := warming - {id};
      if id != latestScheduleId { return; }
      if !running { return; }
      var latencySec := OutputLatency(outputLatency, baseLatency);
      var plan := Plan(Anchor(now, p.startedAt, serverNow, latencySec), p.totalSeconds, MarchSlot(p));
      plans := plans[id := plan];
      ScheduleNumbers(id, plan, ready, now);
      if plan.march.Some? { SchedulePlay(id, March, SlotAt(plan, March), ready, now); }
    }

    method ScheduleNumbers(id: nat, plan: Plan, ready: set<Key>, now: real)
      modifies this`activeSources, this`started, this`waits
      ensures View() == M.ScheduleNumbers(old(View()), id, plan, plan.totalSeconds, ready, now)
    {
      hide M.SchedulePlay;
      var n := plan.totalSeconds;
      while n >= 1
        invariant n <= plan.totalSeconds
        invariant M.ScheduleNumbers(old(View()), id, plan, plan.totalSeconds, ready, now) == M.ScheduleNumbers(View(), id, plan, n, ready, now)
        decreases n
      {
        SchedulePlay(id, Number(n), SlotAt(plan, Number(n)), ready, now);
        n := n - 1;
      }
    }

    /** The continuation of a slot whose buffer was loading. */
    method BufferArrives(w: Wait, loaded: bool, now: real)
      requires w in waits
      modifies this
      ensures View() == M.OnBuffer(old(View()), w, loaded, now)
    {
      hide M.StartSource;
      waits := waits - {w};
      if !loaded { return; }
      if w.schedule !in plans || !HasSlot(plans[w.schedule], w.key) { return; }
      StartSource(w.schedule, w.key, SlotAt(plans[w.schedule], w.key), now);
    }

    method SourceEnded(src: Source)
      modifies this`activeSources
      ensures View() == M.OnEnded(old(View()), src)
    {
      activeSources := activeSources - {src};
    }

    /** The statechange listener, once the audio clock runs. */
    method ClockRuns()
      modifies this
      ensures View() == M.OnRunning(old(View()))
    {
      if pendingSchedule.None? { return; }
      var _ := ScheduleCountdown(pendingSchedule.value);
    }
  }
}
