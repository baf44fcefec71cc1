/** What the countdown player keeps in every run, under any loading delays. */
module PlayerInvariants {
  import opened Prelude
  import opened PlayerModel

  /** A source of a planned slot, started for the slot's time or at most 0.2 s after it. */
  ghost predicate OnTime(plans: map<nat, Plan>, source: Source) {
    && source.schedule in plans && HasSlot(plans[source.schedule], source.key)
    && var at := SlotAt(plans[source.schedule], source.key); at <= source.when <= at + LATE_SEC
  }

  ghost predicate Started(started: seq<Source>, id: nat, key: Key) {
    exists i :: 0 <= i < |started| && started[i].schedule == id && started[i].key == key
  }

  /** Each slot of each schedule was started once at most. */
  ghost predicate OnceEach(started: seq<Source>) {
    forall i, j :: 0 <= i < j < |started| ==> !(started[i].schedule == started[j].schedule && started[i].key == started[j].key)
  }

  ghost predicate StartsHold(s: State) {
    && (forall i :: 0 <= i < |s.started| ==> OnTime(s.plans, s.started[i]))
    && OnceEach(s.started)
  }

  ghost predicate WaitsHold(s: State) {
    forall w <- s.waits ::
      && w.schedule in s.plans && HasSlot(s.plans[w.schedule], w.key)
      && !Started(s.started, w.schedule, w.key)
  }

  ghost predicate IdsHold(s: State) {
    && (forall id <- s.plans :: id <= s.latest)
    && (forall id <- s.warming :: id <= s.latest && id !in s.plans)
    && (forall source <- s.active :: source.schedule == s.latest && source in s.started)
  }

  ghost predicate Inv(s: State) { StartsHold(s) && WaitsHold(s) && IdsHold(s) }

  // ---- starting a source ----

  lemma StartKeeps(s: State, id: nat, key: Key, now: real)
    requires Inv(s) && id in s.plans && HasSlot(s.plans[id], key)
    requires Wait(id, key) !in s.waits && !Started(s.started, id, key)
    ensures var t := StartSource(s, id, key, SlotAt(s.plans[id], key), now);
      && Inv(t) && t.plans == s.plans && t.waits == s.waits && t.latest == s.latest && t.warming == s.warming
      && (forall k :: k != key ==> (Started(t.started, id, k) <==> Started(s.started, id, k)))
  {
    var t := StartSource(s, id, key, SlotAt(s.plans[id], key), now);
    if t != s {
      assert t.started[..|s.started|] == s.started;
      forall i: nat, k: Key ensures Started(t.started, i, k) <==> Started(s.started, i, k) || (i == id && k == key) {
        StartedPush(s.started, t.started[|s.started|], i, k);
      }
      assert OnTime(s.plans, t.started[|s.started|]);
    }
  }

  lemma StartedPush(started: seq<Source>, source: Source, id: nat, key: Key)
    ensures Started(started + [source], id, key) <==> Started(started, id, key) || (source.schedule == id && source.key == key)
  {
    var all := started + [source];
    if Started(started, id, key) {
      var i :| 0 <= i < |started| && started[i].schedule == id && started[i].key == key;
      assert all[i] == started[i];
    } else if source.schedule == id && source.key == key {
      assert all[|started|] == source;
    }
  }

  lemma PlayKeeps(s: State, id: nat, key: Key, ready: set<Key>, now: real)
    requires Inv(s) && id in s.plans && HasSlot(s.plans[id], key)
    requires Wait(id, key) !in s.waits && !Started(s.started, id, key)
    ensures var t := SchedulePlay(s, id, key, SlotAt(s.plans[id], key), ready, now);
      && Inv(t) && t.plans == s.plans && t.latest == s.latest && t.warming == s.warming
      && (forall k :: k != key ==> (Started(t.started, id, k) <==> Started(s.started, id, k)) && (Wait(id, k) in t.waits <==> Wait(id, k) in s.waits))
  {
    if key in ready { StartKeeps(s, id, key, now); }
  }

  /** Nothing of the schedule from number `n` down, nor its march, has been begun. */
  ghost predicate Untouched(s: State, id: nat, n: int) {
    forall k: Key :: (k.March? || k.n <= n) ==> Wait(id, k) !in s.waits && !Started(s.started, id, k)
  }

  lemma {:induction false} NumbersKeep(s: State, id: nat, n: int, ready: set<Key>, now: real)
    requires Inv(s) && id in s.plans && 0 <= n <= s.plans[id].totalSeconds && Untouched(s, id, n)
    ensures var t := ScheduleNumbers(s, id, s.plans[id], n, ready, now);
      Inv(t) && t.plans == s.plans && t.latest == s.latest && t.warming == s.warming && Untouched(t, id, 0)
    decreases n
  {
    hide Inv, Started, SlotAt;
    if n >= 1 {
      PlayKeeps(s, id, Number(n), ready, now);
      NumbersKeep(SchedulePlay(s, id, Number(n), SlotAt(s.plans[id], Number(n)), ready, now), id, n - 1, ready, now);
    }
  }

  /** A schedule that takes its anchor had nothing waiting or started. */
  lemma PlanKeeps(s: State, id: nat, plan: Plan)
    requires Inv(s) && id in s.warming
    ensures var t := s.(warming := s.warming - {id}, plans := s.plans[id := plan]);
      Inv(t) && Untouched(t, id, plan.totalSeconds)
  {
    var t := s.(warming := s.warming - {id}, plans := s.plans[id := plan]);
    assert id !in s.plans;
    forall i | 0 <= i < |s.started| ensures OnTime(t.plans, s.started[i]) && s.started[i].schedule != id { assert OnTime(s.plans, s.started[i]); }
  }

  lemma WarmedKeeps(s: State, id: nat, running: bool, now: real, serverNow: real, latency: real, ready: set<Key>)
    requires Inv(s) && (forall i <- s.warming :: Schedules(s.warming[i]))
    ensures Inv(OnWarmed(s, id, running, now, serverNow, latency, ready))
  {
    hide StartsHold, WaitsHold, Untouched;
    if id in s.warming && id == s.latest && running {
      var p := s.warming[id];
      var plan := Plan(Anchor(now, p.startedAt, serverNow, latency), p.totalSeconds, MarchSlot(p));
      PlanKeeps(s, id, plan);
      var planned := s.(warming := s.warming - {id}, plans := s.plans[id := plan]);
      NumbersKeep(planned, id, p.totalSeconds, ready, now);
      var numbered := ScheduleNumbers(planned, id, plan, p.totalSeconds, ready, now);
      if plan.march.Some? {
        MarchUntouched(numbered, id);
        PlayKeeps(numbered, id, March, ready, now);
      }
    } else if id in s.warming {
      DropWarming(s, id);
    }
  }

  lemma MarchUntouched(s: State, id: nat)
    requires Untouched(s, id, 0)
    ensures Wait(id, March) !in s.waits && !Started(s.started, id, March)
  {
  }

  lemma DropWarming(s: State, id: nat)
    requires Inv(s)
    ensures Inv(s.(warming := s.warming - {id}))
  {
  }

  lemma BufferKeeps(s: State, w: Wait, loaded: bool, now: real)
    requires Inv(s)
    ensures Inv(OnBuffer(s, w, loaded, now))
  {
    if w in s.waits {
      var left := s.(waits := s.waits - {w});
      assert Inv(left);
      assert Wait(w.schedule, w.key) == w;
      StartKeeps(left, w.schedule, w.key, now);
    }
  }

  lemma ScheduleKeeps(s: State, p: Params)
    requires Inv(s)
    ensures Inv(OnSchedule(s, p))
  {
  }

  /** Every suspended call has parameters that schedule something. */
  ghost predicate WarmingHolds(s: State) {
    && (forall i <- s.warming :: Schedules(s.warming[i]))
    && (s.pending.Some? ==> Schedules(s.pending.value))
  }

  lemma {:induction false} NumbersLeave(s: State, id: nat, plan: Plan, n: int, ready: set<Key>, now: real)
    requires n <= plan.totalSeconds
    ensures var t := ScheduleNumbers(s, id, plan, n, ready, now); t.warming == s.warming && t.pending == s.pending
    decreases n
  {
    if n >= 1 { NumbersLeave(SchedulePlay(s, id, Number(n), SlotAt(plan, Number(n)), ready, now), id, plan, n - 1, ready, now); }
  }

  lemma StepKeepsWarming(s: State, e: Event, now: real)
    requires WarmingHolds(s)
    ensures WarmingHolds(Step(s, e, now))
  {
    hide ScheduleNumbers, Anchor, OutputLatency, SlotAt;
    if e.Warmed? && e.id in s.warming && e.id == s.latest && e.running {
      var p := s.warming[e.id];
      var plan := Plan(Anchor(now, p.startedAt, e.serverNow, OutputLatency(e.outputLatency, e.baseLatency)), p.totalSeconds, MarchSlot(p));
      NumbersLeave(s.(warming := s.warming - {e.id}, plans := s.plans[e.id := plan]), e.id, plan, p.totalSeconds, e.ready, now);
    }
  }

  lemma StepKeeps(s: State, e: Event, now: real)
    requires Inv(s) && WarmingHolds(s)
    ensures Inv(Step(s, e, now)) && WarmingHolds(Step(s, e, now))
  {
    hide OnWarmed, OnBuffer, StartsHold, WaitsHold;
    StepKeepsWarming(s, e, now);
    match e
    case Schedule(params) => ScheduleKeeps(s, params);
    case Warmed(id, running, serverNow, output, base, ready) =>
      WarmedKeeps(s, id, running, now, serverNow, OutputLatency(output, base), ready);
    case BufferArrives(wait, loaded) => BufferKeeps(s, wait, loaded, now);
    case Ended(source) => EndedKeeps(s, source);
    case ClockRuns => if s.pending.Some? { ScheduleKeeps(s, s.pending.value); }
    case Stop => StopKeeps(s);
  }

  lemma EndedKeeps(s: State, source: Source)
    requires Inv(s)
    ensures Inv(OnEnded(s, source))
  {
  }

  lemma StopKeeps(s: State)
    requires Inv(s)
    ensures Inv(OnStop(s))
  {
  }

  lemma {:induction false} RunKeeps(events: seq<(real, Event)>)
    ensures Inv(Run(INITIAL, events)) && WarmingHolds(Run(INITIAL, events))
  {
    if events != [] {
      var n := |events| - 1;
      RunKeeps(events[..n]);
      StepKeeps(Run(INITIAL, events[..n]), events[n].1, events[n].0);
    }
  }

  // ---- what the listener hears ----

  /** In every run, whenever the buffers arrive, each number of a schedule is started once at most, and at most 0.2 s after its slot. */
  lemma OnceAndOnTime(events: seq<(real, Event)>)
    ensures var s := Run(INITIAL, events);
      && OnceEach(s.started)
      && forall i :: 0 <= i < |s.started| ==> OnTime(s.plans, s.started[i])
  {
    RunKeeps(events);
  }

  /** Of two numbers of one schedule the larger sounds first, and at least 0.8 s before the smaller. */
  lemma NumbersDescend(events: seq<(real, Event)>, i: nat, j: nat)
    requires i < |Run(INITIAL, events).started| && j < |Run(INITIAL, events).started|
    ensures var a, b := Run(INITIAL, events).started[i], Run(INITIAL, events).started[j];
      a.schedule == b.schedule && a.key.Number? && b.key.Number? && a.key.n > b.key.n ==>
      a.when + 0.8 <= b.when && a.when + (a.key.n - b.key.n) as real - LATE_SEC <= b.when
  {
    RunKeeps(events);
    var s := Run(INITIAL, events);
    var a, b := s.started[i], s.started[j];
    assert OnTime(s.plans, a) && OnTime(s.plans, b);
    if a.schedule == b.schedule && a.key.Number? && b.key.Number? && a.key.n > b.key.n {
      assert (a.key.n - b.key.n) as real >= 1.0;
    }
  }

  /** Only sources of the latest schedule are left to sound: whatever an older one had started has been stopped or has ended. */
  lemma OnlyLatestSounds(events: seq<(real, Event)>)
    ensures var s := Run(INITIAL, events); forall source <- s.active :: source.schedule == s.latest
  {
    RunKeeps(events);
  }

  /** An arriving buffer is played exactly when its schedule still stands and its slot is not more than 0.2 s back. */
  lemma PlayedUnlessStale(events: seq<(real, Event)>, w: Wait, loaded: bool, now: real)
    requires w in Run(INITIAL, events).waits
    ensures var s, t := Run(INITIAL, events), Step(Run(INITIAL, events), BufferArrives(w, loaded), now);
      && w.schedule in s.plans && HasSlot(s.plans[w.schedule], w.key)
      && (Started(t.started, w.schedule, w.key) <==>
          loaded && w.schedule == s.latest && now <= SlotAt(s.plans[w.schedule], w.key) + LATE_SEC)
  {
    RunKeeps(events);
    var s, t := Run(INITIAL, events), Step(Run(INITIAL, events), BufferArrives(w, loaded), now);
    if t.started != s.started { StartedPush(s.started, t.started[|s.started|], w.schedule, w.key); }
  }

  lemma {:induction false} NumbersStartOnlyOwn(s: State, id: nat, plan: Plan, n: int, ready: set<Key>, now: real)
    requires n <= plan.totalSeconds
    ensures var t := ScheduleNumbers(s, id, plan, n, ready, now);
      t.latest == s.latest && (id != s.latest ==> t.started == s.started) && s.started <= t.started &&
      forall i :: |s.started| <= i < |t.started| ==> t.started[i].schedule == s.latest
    decreases n
  {
    if n >= 1 { NumbersStartOnlyOwn(SchedulePlay(s, id, Number(n), SlotAt(plan, Number(n)), ready, now), id, plan, n - 1, ready, now); }
  }

  /** Whatever a step starts belongs to the schedule that is the latest at that moment. */
  lemma StepStartsLatest(s: State, e: Event, now: real)
    ensures var t := Step(s, e, now);
      s.started <= t.started && s.latest <= t.latest &&
      forall i :: |s.started| <= i < |t.started| ==> t.started[i].schedule == s.latest == t.latest
  {
    hide ScheduleNumbers, Anchor, OutputLatency, SlotAt;
    if e.Warmed? && e.id in s.warming && e.id == s.latest && e.running {
      var p := s.warming[e.id];
      var plan := Plan(Anchor(now, p.startedAt, e.serverNow, OutputLatency(e.outputLatency, e.baseLatency)), p.totalSeconds, MarchSlot(p));
      NumbersStartOnlyOwn(s.(warming := s.warming - {e.id}, plans := s.plans[e.id := plan]), e.id, plan, p.totalSeconds, e.ready, now);
    }
  }

  /** After a stop or a reschedule no source of an older schedule starts, however late its buffer or its warm-up ends. */
  lemma {:induction false} OlderNeverStartAgain(events: seq<(real, Event)>, i: nat, k: nat)
    requires i <= |events| && |Run(INITIAL, events[..i]).started| <= k < |Run(INITIAL, events).started|
    ensures Run(INITIAL, events).started[k].schedule >= Run(INITIAL, events[..i]).latest
    ensures Run(INITIAL, events).latest >= Run(INITIAL, events[..i]).latest
  {
    LatestGrows(events, i);
    var n := |events| - 1;
    assert events[..|events|] == events;
    if i < |events| {
      assert events[..n][..i] == events[..i];
      var before := Run(INITIAL, events[..n]);
      LatestGrows(events[..n], i);
      StepStartsLatest(before, events[n].1, events[n].0);
      if k < |before.started| { OlderNeverStartAgain(events[..n], i, k); }
    }
  }

  lemma {:induction false} LatestGrows(events: seq<(real, Event)>, i: nat)
    requires i <= |events|
    ensures Run(INITIAL, events[..i]).latest <= Run(INITIAL, events).latest
  {
    var n := |events| - 1;
    assert events[..|events|] == events;
    if i < |events| {
      assert events[..n][..i] == events[..i];
      LatestGrows(events[..n], i);
      StepStartsLatest(Run(INITIAL, events[..n]), events[n].1, events[n].0);
    }
  }

  /** A stopped player: nothing pending, nothing sounding, and every suspended call and plan is older than the latest id. */
  ghost predicate Silent(s: State) {
    && s.pending.None? && s.active == {}
    && s.latest !in s.warming && s.latest !in s.plans
  }

  /** After a stop nothing sounds until the next schedule, even when the audio clock comes back to life. */
  lemma {:induction false} SilentUntilScheduled(events: seq<(real, Event)>, more: seq<(real, Event)>)
    requires forall i :: 0 <= i < |more| ==> !more[i].1.Schedule?
    ensures var s := Step(Run(INITIAL, events), Stop, 0.0); var t := Run(s, more);
      Inv(t) && WarmingHolds(t) && Silent(t) && t.started == s.started
    decreases |more|
  {
    hide Inv, WarmingHolds;
    var s := Step(Run(INITIAL, events), Stop, 0.0);
    if more == [] {
      RunKeeps(events);
      StepKeeps(Run(INITIAL, events), Stop, 0.0);
      StopIsSilent(Run(INITIAL, events));
    } else {
      var n := |more| - 1;
      assert forall i :: 0 <= i < n ==> more[..n][i] == more[i];
      SilentUntilScheduled(events, more[..n]);
      StepKeeps(Run(s, more[..n]), more[n].1, more[n].0);
      StaysSilent(Run(s, more[..n]), more[n].1, more[n].0);
    }
  }

  lemma StopIsSilent(s: State)
    requires Inv(s)
    ensures Silent(OnStop(s))
  {
  }

  lemma StaysSilent(s: State, e: Event, now: real)
    requires Inv(s) && Silent(s) && !e.Schedule?
    ensures Silent(Step(s, e, now)) && Step(s, e, now).started == s.started
  {
    if e.Stop? { StopIsSilent(s); }
  }

  /**
    * A source that starts for its slot leaves the loudspeaker, `latency` later, when the server's clock shows the
    * slot's second: both clocks running alike since the anchor was taken at `now` and `serverNow`.
    */
  lemma SlotMatchesServerClock(plan: Plan, n: int, now: real, startedAt: real, serverNow: real, latency: real)
    requires plan.anchor == Anchor(now, startedAt, serverNow, latency) && 1 <= n <= plan.totalSeconds
    ensures serverNow + (SlotAt(plan, Number(n)) + latency - now) * 1000.0 == startedAt + (plan.totalSeconds - n) as real * 1000.0
    ensures plan.march == Some(n) ==> SlotAt(plan, March) == SlotAt(plan, Number(n))
  {
  }

  // ---- no slot is forgotten ----

  /** The slot was started, waits for its buffer, or was too late already. */
  ghost predicate Served(s: State, id: nat, plan: Plan, key: Key, now: real)
    requires HasSlot(plan, key)
  {
    Started(s.started, id, key) || Wait(id, key) in s.waits || SlotAt(plan, key) < now - LATE_SEC
  }

  lemma PlayServes(s: State, id: nat, plan: Plan, key: Key, ready: set<Key>, now: real, other: Key)
    requires HasSlot(plan, key) && HasSlot(plan, other) && id == s.latest
    requires other == key || Served(s, id, plan, other, now)
    ensures Served(SchedulePlay(s, id, key, SlotAt(plan, key), ready, now), id, plan, other, now)
  {
    var t := SchedulePlay(s, id, key, SlotAt(plan, key), ready, now);
    if t.started != s.started { StartedPush(s.started, t.started[|s.started|], id, other); }
  }

  lemma {:induction false} NumbersServe(s: State, id: nat, plan: Plan, n: int, ready: set<Key>, now: real, k: int)
    requires n <= plan.totalSeconds && 1 <= k <= plan.totalSeconds && id == s.latest
    requires k <= n || Served(s, id, plan, Number(k), now)
    ensures Served(ScheduleNumbers(s, id, plan, n, ready, now), id, plan, Number(k), now)
    decreases n
  {
    hide Served;
    if n >= 1 {
      PlayServes(s, id, plan, Number(n), ready, now, if k < n then Number(n) else Number(k));
      NumbersServe(SchedulePlay(s, id, Number(n), SlotAt(plan, Number(n)), ready, now), id, plan, n - 1, ready, now, k);
    }
  }

  /**
    * A schedule that gets past its awaits on a running clock takes care of every number from its total down to 1, and
    * of the march: started, waiting for its buffer, or more than 0.2 s past.
    */
  lemma EverySlotIsServed(s: State, id: nat, now: real, serverNow: real, latency: real, ready: set<Key>, key: Key)
    requires id in s.warming && id == s.latest && Schedules(s.warming[id])
    ensures var p := s.warming[id];
      var plan := Plan(Anchor(now, p.startedAt, serverNow, latency), p.totalSeconds, MarchSlot(p));
      HasSlot(plan, key) ==> Served(OnWarmed(s, id, true, now, serverNow, latency, ready), id, plan, key, now)
  {
    hide Served, Anchor, SlotAt, MarchSlot, ScheduleNumbers, SchedulePlay;
    var p := s.warming[id];
    var plan := Plan(Anchor(now, p.startedAt, serverNow, latency), p.totalSeconds, MarchSlot(p));
    var planned := s.(warming := s.warming - {id}, plans := s.plans[id := plan]);
    var numbered := ScheduleNumbers(planned, id, plan, p.totalSeconds, ready, now);
    NumbersStartOnlyOwn(planned, id, plan, p.totalSeconds, ready, now);
    if HasSlot(plan, key) {
      if key.Number? { NumbersServe(planned, id, plan, p.totalSeconds, ready, now, key.n); }
      if plan.march.Some? { PlayServes(numbered, id, plan, March, ready, now, key); }
    }
  }
}
