/** The busy lock and the runtime's timers as values (server/src/realtime/busy-lock.service.ts). */
module BusyLockModel {
  import opened Prelude

  datatype Holder = Countdown | Rally(groupId: string)

  // What runs when an automatic release fires.
  datatype Callback = ExpireCountdown | IdleRally(groupId: string)

  // An armed timer; the epoch says which acquisition of the lock it was armed for.
  datatype Timer = Timer(dueAt: int, callback: Option<Callback>, epoch: nat)

  // `live` is the runtime's table of timers neither fired nor cleared; `epoch` counts acquisitions.
  datatype Lock = Lock(holder: Option<Holder>, timer: Option<nat>, live: map<nat, Timer>, nextId: nat, epoch: nat)

  const FREE: Lock := Lock(None, None, map[], 0, 0)

  predicate Matches(a: Holder, b: Holder) {
    (a.Countdown? <==> b.Countdown?) && (a.Rally? && b.Rally? ==> a.groupId == b.groupId)
  }

  function Arm(l: Lock, ms: int, callback: Option<Callback>, now: int): Lock {
    l.(timer := Some(l.nextId), live := l.live[l.nextId := Timer(now + ms, callback, l.epoch)], nextId := l.nextId + 1)
  }

  function Disarm(l: Lock): Lock {
    if l.timer.None? then l else l.(timer := None, live := l.live - {l.timer.value})
  }

  /** `ms` is None when no finite number is given. */
  function TryAcquire(l: Lock, holder: Holder, ms: Option<int>, callback: Option<Callback>, now: int): (Lock, bool) {
    if l.holder.Some? then (l, false)
    else
      var held := l.(holder := Some(holder), epoch := l.epoch + 1);
      (if ms.Some? && ms.value > 0 then Arm(held, ms.value, callback, now) else held, true)
  }

  function Reschedule(l: Lock, holder: Holder, ms: Option<int>, callback: Option<Callback>, now: int): (Lock, bool) {
    if l.holder.None? || !Matches(l.holder.value, holder) then (l, false)
    else if ms.None? || ms.value <= 0 then (l, false)
    else (Arm(Disarm(l), ms.value, callback, now), true)
  }

  function Release(l: Lock, holder: Holder): Lock {
    if l.holder.None? || !Matches(l.holder.value, holder) then l else Disarm(l).(holder := None)
  }

  /** The timer's own closure, before its callback: whatever it was armed for, it frees the lock. */
  function Expire(l: Lock, id: nat): Lock {
    l.(holder := None, timer := None, live := l.live - {id})
  }
}
