/** What each event of the countdown player (web/src/components/Battle/countdownPlayer.js) changes, field by field. */
module PlayerSteps {
  import opened Prelude
  import opened PlayerModel
  import opened PlayerInvariants

  /** The player stops what it had and waits for its buffers under the second next id. */
  ghost predicate Begun(s: State, t: State, p: Params) {
    t == s.(latest := s.latest + 2, pending := Some(p), active := {}, warming := s.warming[s.latest + 2 := p])
  }

  /** A countdown with a start and at least two seconds replaces the one before it; any other call does nothing. */
  lemma ScheduleBegins(s: State, p: Params, now: real)
    ensures var t := Step(s, Schedule(p), now);
      if p.startedAt != 0.0 && p.totalSeconds >= 2 then Begun(s, t, p) else t == s
  {
  }

  /** When the audio clock runs again the countdown that is still wanted is scheduled anew. */
  lemma ClockReschedules(events: seq<(real, Event)>, now: real)
    ensures var s, t := Run(INITIAL, events), Step(Run(INITIAL, events), ClockRuns, now);
      if s.pending.Some? then Begun(s, t, s.pending.value) else t == s
  {
    hide Run;
    RunKeeps(events);
  }

  /** A stop silences everything, under a new id. */
  lemma StopSilences(s: State, now: real)
    ensures Step(s, Stop, now) == s.(latest := s.latest + 1, pending := None, active := {})
  {
  }

  lemma EndedLeaves(s: State, source: Source, now: real)
    ensures Step(s, Ended(source), now) == s.(active := s.active - {source})
  {
  }

  // ---- anchors ----

  /** The output latency: the reported one, else the base one, else none, and at most half a second. */
  predicate Latency(output: Option<real>, base: Option<real>, latency: real) {
    var reported := if output.Some? && output.value > 0.0 then output.value else if base.Some? && base.value > 0.0 then base.value else 0.0;
    if reported < 0.5 then latency == reported else latency == 0.5
  }

  /** A march from 1 to 180 seconds that fits the countdown. */
  predicate MarchFits(p: Params, march: Option<int>) {
    if p.marchSeconds.Some? && 1 <= p.marchSeconds.value <= 180 && p.marchSeconds.value <= p.totalSeconds
    then march == p.marchSeconds else march == None
  }

  /** The plan a schedule takes when its awaits are over. */
  predicate Anchored(p: Params, now: real, serverNow: real, latency: real, plan: Plan) {
    && (plan.anchor - now + latency) * 1000.0 == p.startedAt - serverNow
    && plan.totalSeconds == p.totalSeconds && MarchFits(p, plan.march)
  }

  lemma PlanIsAnchored(p: Params, now: real, serverNow: real, output: Option<real>, base: Option<real>)
    ensures Latency(output, base, OutputLatency(output, base))
    ensures Anchored(p, now, serverNow, OutputLatency(output, base),
                     Plan(Anchor(now, p.startedAt, serverNow, OutputLatency(output, base)), p.totalSeconds, MarchSlot(p)))
  {
  }

  // ---- sources ----

  /** The audio time of a slot: so many seconds behind the anchor as the countdown has passed. */
  predicate SlotTime(plan: Plan, key: Key, at: real) {
    match key
    case Number(n) => 1 <= n <= plan.totalSeconds && at == plan.anchor + (plan.totalSeconds - n) as real
    case March => plan.march.Some? && at == plan.anchor + (plan.totalSeconds - plan.march.value) as real
  }

  /** A source started at `now`: for its slot's time, or at once when that is no more than 0.2 s back. */
  ghost predicate StartedRight(plan: Plan, source: Source, now: real) {
    exists at :: SlotTime(plan, source.key, at) && at >= now - 0.2 && source.when == if at < now then now else at
  }

  /** The step only adds sources of one schedule, each started right and sounding. */
  ghost predicate Starts(s: State, t: State, id: nat, plan: Plan, now: real) {
    && s.started <= t.started && s.active <= t.active
    && (forall i :: |s.started| <= i < |t.started| ==>
          t.started[i].schedule == id && StartedRight(plan, t.started[i], now) && t.started[i] in t.active)
    && (forall source <- t.active :: source in s.active || source in t.started[|s.started|..])
  }

  lemma StartsNothing(s: State, t: State, id: nat, plan: Plan, now: real)
    requires t.started == s.started && t.active == s.active
    ensures Starts(s, t, id, plan, now)
  {
  }

  lemma StartsOne(s: State, id: nat, key: Key, plan: Plan, now: real)
    requires HasSlot(plan, key)
    ensures Starts(s, StartSource(s, id, key, SlotAt(plan, key), now), id, plan, now)
  {
    var at := SlotAt(plan, key);
    var t := StartSource(s, id, key, at, now);
    assert SlotTime(plan, key, at);
    if t != s { assert t.started[..|s.started|] == s.started && t.started[|s.started|] in t.started[|s.started|..]; }
  }

  lemma StartsThen(s: State, m: State, t: State, id: nat, plan: Plan, now: real)
    requires Starts(s, m, id, plan, now) && Starts(m, t, id, plan, now)
    ensures Starts(s, t, id, plan, now)
  {
    hide StartedRight;
    forall i | |s.started| <= i < |t.started| ensures t.started[i].schedule == id && StartedRight(plan, t.started[i], now) && t.started[i] in t.active {
      if i < |m.started| { assert t.started[i] == m.started[i]; }
    }
    forall source | source in t.active ensures source in s.active || source in t.started[|s.started|..] {
      if source in m.active && source !in s.active {
        var k :| 0 <= k < |m.started[|s.started|..]| && m.started[|s.started|..][k] == source;
        assert t.started[|s.started| + k] == source;
        assert t.started[|s.started|..][k] == source;
      } else if source !in s.active {
        var k :| 0 <= k < |t.started[|m.started|..]| && t.started[|m.started|..][k] == source;
        assert t.started[|s.started|..][|m.started| - |s.started| + k] == source;
      }
    }
  }

  lemma PlayStarts(s: State, id: nat, key: Key, plan: Plan, ready: set<Key>, now: real)
    requires HasSlot(plan, key)
    ensures Starts(s, SchedulePlay(s, id, key, SlotAt(plan, key), ready, now), id, plan, now)
  {
    hide Starts, StartSource;
    if key in ready { StartsOne(s, id, key, plan, now); }
    else { StartsNothing(s, SchedulePlay(s, id, key, SlotAt(plan, key), ready, now), id, plan, now); }
  }

  lemma {:induction false} NumbersStart(s: State, id: nat, plan: Plan, n: int, ready: set<Key>, now: real)
    requires n <= plan.totalSeconds
    ensures Starts(s, ScheduleNumbers(s, id, plan, n, ready, now), id, plan, now)
    decreases n
  {
    hide Starts, SchedulePlay, SlotAt;
    if n >= 1 {
      var m := SchedulePlay(s, id, Number(n), SlotAt(plan, Number(n)), ready, now);
      PlayStarts(s, id, Number(n), plan, ready, now);
      NumbersStart(m, id, plan, n - 1, ready, now);
      StartsThen(s, m, ScheduleNumbers(s, id, plan, n, ready, now), id, plan, now);
    } else {
      StartsNothing(s, s, id, plan, now);
    }
  }

  /**
    * The end of the awaits: a superseded call and one whose clock stands still leave nothing. The latest one takes its anchor,
    * so that its slots are heard at the server's seconds, and starts what is ready.
    */
  lemma WarmedPlans(s: State, id: nat, running: bool, now: real, serverNow: real, output: Option<real>, base: Option<real>, ready: set<Key>)
    requires id in s.warming
    ensures var p := s.warming[id];
      var t := Step(s, Warmed(id, running, serverNow, output, base, ready), now);
      if id != s.latest || !running then t == s.(warming := s.warming - {id})
      else
        && id in t.plans && t.plans == s.plans[id := t.plans[id]]
        && (exists latency :: Latency(output, base, latency) && Anchored(p, now, serverNow, latency, t.plans[id]))
        && t == s.(warming := s.warming - {id}, plans := t.plans, waits := t.waits, active := t.active, started := t.started)
        && Starts(s, t, id, t.plans[id], now)
  {
    hide Starts, ScheduleNumbers, Anchor, OutputLatency, SlotAt, MarchSlot, Anchored, Latency;
    var p := s.warming[id];
    var latency := OutputLatency(output, base);
    PlanIsAnchored(p, now, serverNow, output, base);
    if id == s.latest && running {
      var plan := Plan(Anchor(now, p.startedAt, serverNow, latency), p.totalSeconds, MarchSlot(p));
      WarmedStarts(s, id, plan, p.totalSeconds, ready, now);
    }
  }

  /** The slots of a plan, played or left waiting. */
  lemma WarmedStarts(s: State, id: nat, plan: Plan, total: int, ready: set<Key>, now: real)
    requires plan.totalSeconds == total
    ensures var planned := s.(warming := s.warming - {id}, plans := s.plans[id := plan]);
      var numbered := ScheduleNumbers(planned, id, plan, total, ready, now);
      var t := if plan.march.None? then numbered else SchedulePlay(numbered, id, March, SlotAt(plan, March), ready, now);
      && t.plans == planned.plans
      && t == s.(warming := planned.warming, plans := planned.plans, waits := t.waits, active := t.active, started := t.started)
      && Starts(s, t, id, plan, now)
  {
    hide Starts, SlotAt, ScheduleNumbers;
    var planned := s.(warming := s.warming - {id}, plans := s.plans[id := plan]);
    var numbered := ScheduleNumbers(planned, id, plan, total, ready, now);
    StartsNothing(s, planned, id, plan, now);
    NumbersStart(planned, id, plan, total, ready, now);
    NumbersFrame(planned, id, plan, total, ready, now);
    StartsThen(s, planned, numbered, id, plan, now);
    if plan.march.Some? {
      PlayStarts(numbered, id, March, plan, ready, now);
      StartsThen(s, numbered, SchedulePlay(numbered, id, March, SlotAt(plan, March), ready, now), id, plan, now);
    }
  }

  lemma {:induction false} NumbersFrame(s: State, id: nat, plan: Plan, n: int, ready: set<Key>, now: real)
    requires n <= plan.totalSeconds
    ensures var t := ScheduleNumbers(s, id, plan, n, ready, now);
      t == s.(waits := t.waits, active := t.active, started := t.started)
    decreases n
  {
    if n >= 1 { NumbersFrame(SchedulePlay(s, id, Number(n), SlotAt(plan, Number(n)), ready, now), id, plan, n - 1, ready, now); }
  }

  /** A buffer that arrives for a waiting slot ends the wait; it is started if it was loaded, its schedule stands and the slot is not more than 0.2 s back. */
  lemma BufferStarts(events: seq<(real, Event)>, w: Wait, loaded: bool, now: real, at: real)
    requires w in Run(INITIAL, events).waits
    requires w.schedule in Run(INITIAL, events).plans && SlotTime(Run(INITIAL, events).plans[w.schedule], w.key, at)
    ensures var s, t := Run(INITIAL, events), Step(Run(INITIAL, events), BufferArrives(w, loaded), now);
      var source := Source(w.schedule, w.key, if at < now then now else at);
      if loaded && w.schedule == s.latest && at >= now - 0.2
      then t == s.(waits := s.waits - {w}, active := s.active + {source}, started := s.started + [source])
      else t == s.(waits := s.waits - {w})
  {
    hide Run;
    RunKeeps(events);
  }

  /** Then every second of the countdown, and the march, has been started, waits for its buffer, or lies more than 0.2 s back. */
  lemma WarmedServes(s: State, id: nat, now: real, serverNow: real, output: Option<real>, base: Option<real>, ready: set<Key>, key: Key, at: real)
    requires id in s.warming && id == s.latest && s.warming[id].startedAt != 0.0 && s.warming[id].totalSeconds >= 2
    ensures var t := Step(s, Warmed(id, true, serverNow, output, base, ready), now);
      id in t.plans &&
      (SlotTime(t.plans[id], key, at) ==> Started(t.started, id, key) || Wait(id, key) in t.waits || at < now - 0.2)
  {
    hide Starts, ScheduleNumbers, Anchor, OutputLatency, MarchSlot, Anchored, Latency, Started, StartedRight;
    var p, latency := s.warming[id], OutputLatency(output, base);
    var plan := Plan(Anchor(now, p.startedAt, serverNow, latency), p.totalSeconds, MarchSlot(p));
    WarmedPlans(s, id, true, now, serverNow, output, base, ready);
    WarmedStarts(s, id, plan, p.totalSeconds, ready, now);
    assert Step(s, Warmed(id, true, serverNow, output, base, ready), now).plans[id] == plan;
    if SlotTime(plan, key, at) {
      assert HasSlot(plan, key) && SlotAt(plan, key) == at;
      EverySlotIsServed(s, id, now, serverNow, latency, ready, key);
    }
  }
}
