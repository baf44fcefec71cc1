/** The lock, the gateway and the rally's side of the lock as objects, proved against their transition functions. */
module CountdownService {
  import opened Prelude
  import opened BusyLockModel
  import opened CountdownModel

  /** The runtime's timers: armed, and neither fired nor cleared. */
  class Timers {
    var live: map<nat, Timer>
    var nextId: nat

    constructor ()
      ensures live == map[] && nextId == 0
    {
      live, nextId := map[], 0;
    }

    method SetTimeout(timer: Timer) returns (id: nat)
      modifies this
      ensures id == old(nextId) && nextId == id + 1 && live == old(live)[id := timer]
    {
      id := nextId;
      live, nextId := live[id := timer], id + 1;
    }

    method ClearTimeout(id: nat)
      modifies this
      ensures live == old(live) - {id} && nextId == old(nextId)
    {
      live := live - {id};
    }
  }

  class BusyLockService {
    const timers: Timers
    var holder: Option<Holder>
    var timer: Option<nat>
    var epoch: nat // counts acquisitions; only the proofs read it

    ghost function View(): Lock
      reads this, timers
    {
      Lock(holder, timer, timers.live, timers.nextId, epoch)
    }

    constructor ()
      ensures View() == FREE && fresh(timers)
    {
      timers := new Timers();
      holder, timer, epoch := None, None, 0;
    }

    method Arm(ms: int, callback: Option<Callback>, now: int)
      modifies this, timers
      ensures View() == BusyLockModel.Arm(old(View()), ms, callback, now)
    {
      var id := timers.SetTimeout(Timer(now + ms, callback, epoch));
      timer := Some(id);
    }

    method TryAcquire(h: Holder, ms: Option<int>, callback: Option<Callback>, now: int) returns (acquired: bool)
      modifies this, timers
      ensures (View(), acquired) == BusyLockModel.TryAcquire(old(View()), h, ms, callback, now)
    {
      if holder.Some? { return false; }
      holder := Some(h);
      epoch := epoch + 1;
      if ms.Some? && ms.value > 0 { Arm(ms.value, callback, now); }
      return true;
    }

    method Reschedule(h: Holder, ms: Option<int>, callback: Option<Callback>, now: int) returns (armed: bool)
      modifies this, timers
      ensures (View(), armed) == BusyLockModel.Reschedule(old(View()), h, ms, callback, now)
    {
      if holder.None? || !Matches(holder.value, h) { return false; }
      if ms.None? || ms.value <= 0 { return false; }
      if timer.Some? {
        timers.ClearTimeout(timer.value);
        timer := None;
      }
      Arm(ms.value, callback, now);
      return true;
    }

    method Release(h: Holder)
      modifies this, timers
      ensures View() == BusyLockModel.Release(old(View()), h)
    {
      if holder.None? || !Matches(holder.value, h) { return; }
      if timer.Some? {
        timers.ClearTimeout(timer.value);
        timer := None;
      }
      holder := None;
    }

    /** A timer leaves the runtime's table and its closure frees the lock; the callback is the caller's to run. */
    method Expire(id: nat) returns (callback: Option<Callback>)
      requires id in timers.live
      modifies this, timers
      ensures View() == BusyLockModel.Expire(old(View()), id) && callback == old(timers.live)[id].callback
    {
      callback := timers.live[id].callback;
      timers.ClearTimeout(id);
      holder := None;
      timer := None;
    }
  }

  datatype Ack = Started | Invalid | Busy(holder: Option<Holder>)

  class RealtimeGateway {
    const busyLock: BusyLockService
    var countdown: CountdownState
    var probing: map<nat, int>
    ghost var acquiredAt: map<nat, nat>
    var nextHandler: nat

    ghost function View(): State
      reads this, busyLock, busyLock.timers
    {
      State(busyLock.View(), countdown, probing, acquiredAt, nextHandler)
    }

    constructor ()
      ensures View() == INITIAL && fresh(busyLock) && fresh(busyLock.timers)
    {
      busyLock := new BusyLockService();
      countdown, probing, acquiredAt, nextHandler := IDLE, map[], map[], 0;
    }

    /** handleCountdownStart up to its await; None when the probe is under way. */
    method BeginStart(totalSeconds: Option<int>, now: int) returns (refused: Option<Ack>)
      modifies this, busyLock, busyLock.timers
      ensures View() == OnStart(old(View()), totalSeconds, now)
      ensures refused.None? <==> ValidTotal(totalSeconds) && old(busyLock.holder).None?
    {
      if totalSeconds.None? || totalSeconds.value < 1 || totalSeconds.value > 600 { return Some(Invalid); }
      var acquired := busyLock.TryAcquire(Countdown, Some(totalSeconds.value * 1000 + AUTO_RELEASE_GRACE_MS), Some(ExpireCountdown), now);
      if !acquired { return Some(Busy(busyLock.holder)); }
      probing := probing[nextHandler := totalSeconds.value];
      acquiredAt := acquiredAt[nextHandler := busyLock.epoch];
      nextHandler := nextHandler + 1;
      return None;
    }

    /** handleCountdownStart from its await on. */
    method FinishStart(handler: nat, startedAt: int, now: int) returns (ack: Ack)
      requires handler in probing
      modifies this, busyLock, busyLock.timers
      ensures View() == OnProbeDone(old(View()), handler, startedAt, now)
      ensures ack.Started? <==> old(busyLock.holder) == Some(Countdown)
    {
      var totalSeconds := probing[handler];
      probing := probing - {handler};
      var currentHolder := busyLock.holder;
      if currentHolder.None? || !currentHolder.value.Countdown? { return Busy(currentHolder); }
      var _ := busyLock.Reschedule(Countdown, Some(startedAt + totalSeconds * 1000 + AUTO_RELEASE_GRACE_MS - now),
                                   Some(ExpireCountdown), now);
      countdown := CountdownState(true, startedAt, totalSeconds);
      return Started;
    }

    method HandleStop() returns (ok: bool)
      modifies this, busyLock, busyLock.timers
      ensures View() == OnStop(old(View()))
      ensures ok <==> old(busyLock.holder).None? || old(busyLock.holder) == Some(Countdown)
    {
      if busyLock.holder.Some? && !busyLock.holder.value.Countdown? { return false; }
      busyLock.Release(Countdown);
      countdown := CountdownState(false, 0, 0);
      return true;
    }

    method HandleAutoExpire(now: int)
      modifies this, busyLock, busyLock.timers
      ensures View() == AutoExpire(old(View()), now)
    {
      var remainingMs := RemainingMs(countdown, now);
      if remainingMs > 0 {
        var acquired := busyLock.TryAcquire(Countdown, Some(remainingMs), Some(ExpireCountdown), now);
        if acquired { return; }
      }
      countdown := CountdownState(false, 0, 0);
    }

    /** The runtime fires a live timer of the lock. */
    method TimerFires(id: nat, now: int)
      requires id in busyLock.timers.live
      modifies this, busyLock, busyLock.timers
      ensures View() == OnTimer(old(View()), id, now)
    {
      var callback := busyLock.Expire(id);
      if callback == Some(ExpireCountdown) { HandleAutoExpire(now); }
    }

    /** The rally service takes the same lock. */
    method StartRally(groupId: string, maxMarch: nat, now: int) returns (acquired: bool)
      modifies busyLock, busyLock.timers
      ensures View() == OnRallyStart(old(View()), groupId, maxMarch, now)
      ensures acquired <==> old(busyLock.holder).None?
    {
      acquired := busyLock.TryAcquire(Rally(groupId), Some(RallyAutoReleaseMs(maxMarch)), Some(IdleRally(groupId)), now);
    }

    /** It releases its own lock when stopped, and when its start fails after the acquisition. */
    method StopRally(groupId: string)
      modifies busyLock, busyLock.timers
      ensures View() == OnRallyRelease(old(View()), groupId)
    {
      var holder := busyLock.holder;
      var ownsLock := holder.Some? && holder.value.Rally? && holder.value.groupId == groupId;
      if ownsLock { busyLock.Release(Rally(groupId)); }
    }
  }
}
