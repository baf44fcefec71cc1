/** The synchronisation as it runs in one tab (web/src/clockSync.js), its loop over the samples and its methods proved against the model. */
module ClockSync {
  import opened Prelude
  import opened Sorting
  import opened M = ClockModel

  class SyncClient {
    var timeOffset: real
    var timeSyncRtt: Option<real>
    var timeSyncState: SyncState
    var hasSynced: bool

    ghost function View(): Clock
      reads this
    {
      Clock(timeOffset, timeSyncRtt, hasSynced, timeSyncState)
    }

    constructor ()
      ensures View() == STARTING
    {
      timeOffset, timeSyncRtt, timeSyncState, hasSynced := 0.0, None, Unsynced, false;
    }

    /** The measured samples join those already collected. */
    static method CollectSamples(samples: seq<Sample>, attempts: seq<Option<Exchange>>) returns (collected: seq<Sample>)
      ensures collected == samples + Collect(attempts)
    {
      collected := samples;
      for i := 0 to |attempts|
        invariant collected == samples + Collect(attempts[..i])
      {
        assert attempts[..i + 1][..i] == attempts[..i];
        if attempts[i].Some? { collected := collected + [Measure(attempts[i].value)]; }
      }
      assert attempts[..|attempts|] == attempts;
    }

    method SyncTime(round: Round) returns (ok: bool)
      modifies this
      ensures ok <==> M.Sync(old(View()), round).Some?
      ensures View() == M.Sync(old(View()), round).GetOr(old(View()))
    {
      hide Collect, Jittery, Sort;
      var samples := CollectSamples([], round.first);
      assert samples == Collect(round.first);
      if |samples| == 0 { return false; }
      if Jittery(samples) { samples := CollectSamples(samples, round.extra); }
      assert samples == Samples(round);
      samples := Sort(samples, Faster);
      var best := samples[0];
      var delta := best.offset - timeOffset;
      if !hasSynced || Abs(delta) >= JUMP_THRESHOLD_MS {
        timeOffset := best.offset;
      } else {
        timeOffset := timeOffset * 0.5 + best.offset * 0.5;
      }
      hasSynced := true;
      timeSyncRtt := Some(best.rtt);
      timeSyncState := Synced;
      return true;
    }

    /** Another tab's result arrives. */
    method ReceiveOffset(m: Message)
      modifies this
      ensures View() == M.OnMessage(old(View()), m)
    {
      timeOffset := m.offset;
      timeSyncRtt := Some(m.rtt);
      timeSyncState := Synced;
      hasSynced := true;
    }

    method ShutDown()
      modifies this
      ensures View() == M.OnShutdown(old(View()))
    {
      hasSynced := false;
      timeSyncState := Unsynced;
    }
  }
}
