/** The clock estimate of a browser tab over the reals (web/src/clockSync.js); the on-wire arithmetic is that of section 8 of RFC 5905. */
module ClockModel {
  import opened Prelude
  import opened Sorting

  const SAMPLE_COUNT := 5
  const EXTRA_SAMPLE_COUNT := 3
  const RTT_STDDEV_RESAMPLE_THRESHOLD_MS := 100.0
  const JUMP_THRESHOLD_MS := 500.0

  // t1: the request reached the server, t2: the reply left it, both on the server's clock; utc: the older reply.
  datatype Reply = Stamped(t1: real, t2: real) | Legacy(utc: real)

  // One answered request: sent at t0 and answered at t3, both on the tab's clock.
  datatype Exchange = Exchange(t0: real, t3: real, reply: Reply)

  datatype Sample = Sample(rtt: real, offset: real)

  function Measure(e: Exchange): Sample {
    match e.reply
    case Stamped(t1, t2) => Sample(e.t3 - e.t0 - (t2 - t1), (t1 - e.t0 + (t2 - e.t3)) / 2.0)
    case Legacy(utc) => Sample(e.t3 - e.t0, utc - (e.t0 + e.t3) / 2.0)
  }

  /** The samples of a round of attempts; a failed attempt leaves none. */
  function Collect(attempts: seq<Option<Exchange>>): seq<Sample> {
    if attempts == [] then []
    else
      var last := attempts[|attempts| - 1];
      Collect(attempts[..|attempts| - 1]) + (if last.Some? then [Measure(last.value)] else [])
  }

  function RttSum(samples: seq<Sample>): real {
    if samples == [] then 0.0 else RttSum(samples[..|samples| - 1]) + samples[|samples| - 1].rtt
  }

  function SquareSum(samples: seq<Sample>, mean: real): real {
    if samples == [] then 0.0
    else
      var d := samples[|samples| - 1].rtt - mean;
      SquareSum(samples[..|samples| - 1], mean) + d * d
  }

  function Variance(samples: seq<Sample>): real {
    if |samples| < 2 then 0.0 else SquareSum(samples, RttSum(samples) / |samples| as real) / |samples| as real
  }

  /** The standard deviation of the RTTs reaches 100 ms: their variance reaches its square. */
  predicate Jittery(samples: seq<Sample>) {
    Variance(samples) >= RTT_STDDEV_RESAMPLE_THRESHOLD_MS * RTT_STDDEV_RESAMPLE_THRESHOLD_MS
  }

  predicate Faster(a: Sample, b: Sample) { a.rtt < b.rtt }

  // The attempts of one synchronisation; `extra` is used only on a jittery line.
  datatype Round = Round(first: seq<Option<Exchange>>, extra: seq<Option<Exchange>>)

  predicate ValidRound(r: Round) {
    |r.first| == SAMPLE_COUNT && |r.extra| == EXTRA_SAMPLE_COUNT
  }

  function Samples(r: Round): seq<Sample> {
    Collect(r.first) + (if Jittery(Collect(r.first)) then Collect(r.extra) else [])
  }

  function Best(samples: seq<Sample>): Sample
    requires samples != []
  {
    Sort(samples, Faster)[0]
  }

  datatype SyncState = Unsynced | Synced

  datatype Clock = Clock(offset: real, rtt: Option<real>, hasSynced: bool, state: SyncState)

  const STARTING := Clock(0.0, None, false, Unsynced)

  function Abs(x: real): real { if x < 0.0 then -x else x }

  function Adjust(c: Clock, best: Sample): Clock {
    var delta := best.offset - c.offset;
    var offset :=
      if !c.hasSynced || Abs(delta) >= JUMP_THRESHOLD_MS then best.offset
      else c.offset * 0.5 + best.offset * 0.5;
    Clock(offset, Some(best.rtt), true, Synced)
  }

  /** A synchronisation fails, and changes nothing, when the first round brought no sample. */
  function Sync(c: Clock, r: Round): Option<Clock> {
    if Collect(r.first) == [] then None else Some(Adjust(c, Best(Samples(r))))
  }

  // ---- several tabs of one browser ----

  datatype Message = Message(offset: real, rtt: real)

  // `sent` are the broadcasts so far; each may reach each tab late, repeatedly or never, its channel open or not.
  datatype Browser = Browser(tabs: map<nat, Clock>, sent: set<Message>)

  datatype Event =
    | Open(tab: nat)
    | SyncDone(tab: nat, round: Round)
    | Deliver(tab: nat, message: Message)
    | Shutdown(tab: nat)

  function OnMessage(c: Clock, m: Message): Clock { Clock(m.offset, Some(m.rtt), true, Synced) }

  function OnShutdown(c: Clock): Clock { c.(hasSynced := false, state := Unsynced) }

  function Step(b: Browser, e: Event): Browser {
    match e
    case Open(tab) => if tab in b.tabs then b else b.(tabs := b.tabs[tab := STARTING])
    case SyncDone(tab, round) =>
      if tab !in b.tabs || Sync(b.tabs[tab], round).None? then b
      else
        var c := Sync(b.tabs[tab], round).value;
        Browser(b.tabs[tab := c], b.sent + {Message(c.offset, c.rtt.GetOr(0.0))})
    case Deliver(tab, m) => if tab !in b.tabs || m !in b.sent then b else b.(tabs := b.tabs[tab := OnMessage(b.tabs[tab], m)])
    case Shutdown(tab) => if tab !in b.tabs then b else b.(tabs := b.tabs[tab := OnShutdown(b.tabs[tab])])
  }

  function Run(events: seq<Event>): Browser {
    if events == [] then Browser(map[], {}) else Step(Run(events[..|events| - 1]), events[|events| - 1])
  }
}
