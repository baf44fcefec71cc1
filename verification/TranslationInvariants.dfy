/** What every run of chat translation keeps. */
module TranslationInvariants {
  import opened Prelude
  import opened ChatStoreModel
  import opened TranslationModel

  // ---- the invariant ----

  function TotalChars(env: Env, ids: seq<Id>): nat {
    if ids == [] then 0 else TotalChars(env, ids[..|ids| - 1]) + |env.text(ids[|ids| - 1])|
  }

  /** A request within the limits: at most 20 items and 2000 characters, or a single item. */
  ghost predicate WithinLimits(env: Env, ids: seq<Id>) {
    && ids != [] && NoDup(ids)
    && (|ids| == 1 || (|ids| <= 20 && TotalChars(env, ids) <= 2_000))
  }

  ghost predicate QueueMatches(candidates: seq<Id>, candidateSet: set<Id>) {
    NoDup(candidates) && candidateSet == ToSet(candidates)
  }

  /** The history of requests: each within the limits, consecutive ones a second apart, the next not armed too soon. */
  ghost predicate Spaced(env: Env, sent: seq<Batch>, lastRequestAt: Option<int>, batchTimer: Option<int>) {
    && (forall b <- sent :: WithinLimits(env, b.ids))
    && (forall i :: 0 < i < |sent| ==> sent[i].at >= sent[i - 1].at + BATCH_MIN_INTERVAL_MS)
    && lastRequestAt == (if sent == [] then None else Some(sent[|sent| - 1].at))
    && (batchTimer.Some? && lastRequestAt.Some? ==> batchTimer.value >= lastRequestAt.value + BATCH_MIN_INTERVAL_MS)
  }

  ghost predicate FlightOk(st: State) {
    st.inFlight.Some? ==>
      && st.batchTimer.None?
      && st.myLang == Some(st.inFlight.value.lang)
      && st.inFlight.value.serial < st.serial
      && st.inFlight.value.ids != [] && NoDup(st.inFlight.value.ids)
      && ToSet(st.inFlight.value.ids) !! st.candidateSet
  }

  ghost predicate IdleWhenInactive(st: State) {
    !Active(st) ==>
      && st.store.pending == {} && st.pushWait == map[] && st.candidates == []
      && st.inFlight.None? && st.batchTimer.None?
  }

  ghost predicate PendingTranslatable(env: Env, lang: Lang, pending: set<Id>, messages: seq<Id>) {
    forall id <- pending :: id in messages && Translatable(env, lang, id)
  }

  ghost predicate AttemptsBounded(attempts: map<Id, nat>) {
    forall id <- attempts :: 1 <= attempts[id] <= |RETRY_DELAYS_MS|
  }

  ghost predicate Shape(env: Env, st: State) {
    && QueueMatches(st.candidates, st.candidateSet)
    && Spaced(env, st.sent, st.lastRequestAt, st.batchTimer)
    && FlightOk(st)
    && IdleWhenInactive(st)
    && (Active(st) ==> PendingTranslatable(env, st.myLang.value, st.store.pending, st.store.messages))
    && AttemptsBounded(st.attempts)
  }

  /** One of the four places that will still act on the id. */
  ghost predicate Placed(st: State, id: Id) {
    id in st.pushWait || id in st.candidateSet || Requested(st, id) || id in st.retryTimers
  }

  /** No orphaned "translating" mark, apart from the ids in `except`. */
  ghost predicate Tracked(st: State, except: set<Id>) {
    st.myLang.Some? ==> forall id <- st.store.pending :: id in except || HasMine(st, id) || Placed(st, id)
  }

  /** Somebody will look at the candidates. */
  ghost predicate Armed(st: State) {
    st.candidates != [] ==> st.inFlight.Some? || st.batchTimer.Some?
  }

  ghost predicate Inv(env: Env, st: State) {
    Shape(env, st) && Tracked(st, {}) && Armed(st)
  }

  // ---- batches ----

  lemma ShiftQueue(st: State)
    requires QueueMatches(st.candidates, st.candidateSet) && st.candidates != []
    ensures QueueMatches(st.candidates[1..], st.candidateSet - {st.candidates[0]})
  {
    var rest := st.candidates[1..];
    forall id ensures id in rest <==> id in st.candidateSet - {st.candidates[0]} {
      if id in rest { var k :| 0 <= k < |rest| && rest[k] == id; assert st.candidates[k + 1] == id; }
    }
  }

  lemma TakeOne(env: Env, items: seq<Id>, id: Id)
    requires NoDup(items) && id !in items && (items == [] || WithinLimits(env, items))
    requires items == [] || (|items| < BATCH_MAX_ITEMS && TotalChars(env, items) + |env.text(id)| <= BATCH_MAX_CHARS)
    ensures WithinLimits(env, items + [id]) && NoDup(items + [id]) && ToSet(items + [id]) == ToSet(items) + {id}
    ensures TotalChars(env, items + [id]) == TotalChars(env, items) + |env.text(id)|
  {
    var more := items + [id];
    assert more[..|more| - 1] == items;
  }

  /** What is taken leaves the queue in order, within the limits, and takeBatch changes nothing but the queue and marks. */
  lemma {:induction false} TakeBatchQueue(env: Env, st: State, items: seq<Id>, chars: nat)
    requires Active(st) && QueueMatches(st.candidates, st.candidateSet)
    requires NoDup(items) && ToSet(items) !! st.candidateSet && chars == TotalChars(env, items)
    requires items == [] || WithinLimits(env, items)
    ensures var (t, out) := TakeBatch(env, st, items, chars);
      && t == st.(candidates := t.candidates, candidateSet := t.candidateSet, store := t.store)
      && QueueMatches(t.candidates, t.candidateSet) && t.candidateSet <= st.candidateSet
      && ToSet(out) !! t.candidateSet
      && (if out == [] then t.candidates == [] else WithinLimits(env, out))
    decreases |st.candidates|
  {
    hide Eligible, WithinLimits, TotalChars;
    if st.candidates != [] {
      var id := st.candidates[0];
      var shifted := st.(candidates := st.candidates[1..], candidateSet := st.candidateSet - {id});
      ShiftQueue(st);
      assert id in st.candidateSet;
      if !Eligible(env, st, id) {
        TakeBatchQueue(env, ClearPending(shifted, {id}), items, chars);
      } else if items != [] && (|items| >= BATCH_MAX_ITEMS || chars + |env.text(id)| > BATCH_MAX_CHARS) {
      } else {
        TakeOne(env, items, id) by { assert id !in ToSet(items); }
        TakeBatchQueue(env, shifted, items + [id], chars + |env.text(id)|);
      }
    }
  }

  /** Exactly the eligible ids are asked for, and an id that leaves the queue unasked loses its mark. */
  lemma {:induction false} TakeBatchMarks(env: Env, st: State, items: seq<Id>, chars: nat)
    requires Active(st) && QueueMatches(st.candidates, st.candidateSet)
    ensures var (t, out) := TakeBatch(env, st, items, chars);
      && t.store == st.store.(pending := t.store.pending) && t.store.pending <= st.store.pending
      && items <= out
      && (forall id <- out[|items|..] :: id in st.candidateSet && Eligible(env, st, id))
      && (forall id <- st.store.pending :: id in t.store.pending || id in st.candidateSet)
      && (forall id <- t.store.pending :: id in st.candidateSet ==> id in t.candidateSet || id in out)
    decreases |st.candidates|
  {
    hide Translatable;
    if st.candidates != [] {
      var id := st.candidates[0];
      var shifted := st.(candidates := st.candidates[1..], candidateSet := st.candidateSet - {id});
      ShiftQueue(st);
      assert id in st.candidateSet;
      if !Eligible(env, st, id) {
        TakeBatchMarks(env, ClearPending(shifted, {id}), items, chars);
      } else if items != [] && (|items| >= BATCH_MAX_ITEMS || chars + |env.text(id)| > BATCH_MAX_CHARS) {
      } else {
        var out := TakeBatch(env, shifted, items + [id], chars + |env.text(id)|).1;
        TakeBatchMarks(env, shifted, items + [id], chars + |env.text(id)|);
        assert id == out[|items|] && out[|items|..] == [id] + out[|items + [id]|..];
      }
    }
  }

  lemma LimitsMeanOnce(env: Env, items: seq<Id>)
    requires WithinLimits(env, items)
    ensures NoDup(items)
  {
  }

  lemma NothingTaken(env: Env)
    ensures TotalChars(env, []) == 0
  {
  }

  lemma SentSpaced(env: Env, st: State, now: int, items: seq<Id>)
    requires Spaced(env, st.sent, st.lastRequestAt, None) && WithinLimits(env, items)
    requires st.lastRequestAt.Some? ==> now >= st.lastRequestAt.value + BATCH_MIN_INTERVAL_MS
    ensures Spaced(env, st.sent + [Batch(now, items)], Some(now), None)
  {
    hide WithinLimits;
  }

  lemma RunBatchKeeps(env: Env, st: State, now: int, except: set<Id>)
    requires Shape(env, st) && st.batchTimer.None? && Tracked(st, except)
    requires st.lastRequestAt.Some? ==> now >= st.lastRequestAt.value + BATCH_MIN_INTERVAL_MS
    ensures var t := RunBatch(env, st, now); Shape(env, t) && Tracked(t, except) && Armed(t)
  {
    hide TakeBatch, Eligible, WithinLimits, Spaced, TotalChars, Translatable;
    if Active(st) && st.inFlight.None? {
      NothingTaken(env);
      TakeBatchQueue(env, st, [], 0);
      TakeBatchMarks(env, st, [], 0);
      var items := TakeBatch(env, st, [], 0).1;
      if items != [] {
        SentSpaced(env, st, now, items);
        assert NoDup(items) by { LimitsMeanOnce(env, items); }
      }
    }
  }

  lemma ScheduleBatchKeeps(env: Env, st: State, delay: int, now: int, except: set<Id>)
    requires Shape(env, st) && Tracked(st, except)
    ensures var t := ScheduleBatch(env, st, delay, now); Shape(env, t) && Tracked(t, except) && Armed(t)
  {
    if !(st.disposed || st.inFlight.Some? || st.candidates == []) {
      var at := BatchDueAt(st, delay, now);
      if !(st.batchTimer.Some? && at >= st.batchTimer.value) && at <= now {
        RunBatchKeeps(env, st.(batchTimer := None), now, except);
      }
    }
  }

  lemma {:induction false} CollectPlaces(env: Env, st: State, ids: seq<Id>)
    requires Active(st) && QueueMatches(st.candidates, st.candidateSet) && FlightOk(st)
    ensures var t := Collect(env, st, ids);
      && t == st.(pushWait := t.pushWait, candidates := t.candidates, candidateSet := t.candidateSet)
      && QueueMatches(t.candidates, t.candidateSet) && FlightOk(t) && st.candidateSet <= t.candidateSet
      && (st.candidates != [] ==> t.candidates != [])
      && (t.candidateSet == st.candidateSet ==> t == st)
      && (forall id <- t.candidateSet - st.candidateSet :: id in ids && Eligible(env, st, id))
      && (forall id <- st.pushWait :: id in t.pushWait || id in t.candidateSet)
      && (forall id <- ids :: id in t.candidateSet || Requested(t, id) || !Eligible(env, st, id))
    decreases |ids|
  {
    if ids != [] {
      var id := ids[0];
      if id in st.candidateSet || Requested(st, id) || !Eligible(env, st, id) {
        CollectPlaces(env, st, ids[1..]);
      } else {
        var next := ClearWait(st, id).(candidateSet := st.candidateSet + {id}, candidates := st.candidates + [id]);
        assert id !in st.candidates;
        assert ToSet(next.candidates) == st.candidateSet + {id};
        CollectPlaces(env, next, ids[1..]);
        var t := Collect(env, st, ids);
        assert id in t.candidateSet;
        forall x <- t.candidateSet - st.candidateSet ensures x in ids && Eligible(env, st, x) {
          assert x == id || (x in ids[1..] && Eligible(env, next, x));
        }
      }
    }
  }

  lemma EnqueueKeeps(env: Env, st: State, ids: seq<Id>, delay: int, now: int, except: set<Id>)
    requires Shape(env, st) && Armed(st) && Tracked(st, except) && except <= ToSet(ids)
    ensures Inv(env, Enqueue(env, st, ids, delay, now))
  {
    if Active(st) {
      CollectPlaces(env, st, ids);
      var t := Collect(env, st, ids);
      var added := t.candidateSet - st.candidateSet;
      assert Tracked(t, {});
      if added == {} {
        assert t.candidateSet == st.candidateSet + added == st.candidateSet;
      } else {
        var marked := t.(store := t.store.(pending := t.store.pending + added));
        assert Shape(env, marked) && Tracked(marked, {});
        ScheduleBatchKeeps(env, marked, delay, now, {});
      }
    }
  }

  // ---- replies ----

  /** A change that leaves the queue, the history and the request alone and only takes marks away keeps the shape. */
  lemma ShapeFrame(env: Env, st: State, t: State)
    requires Shape(env, st)
    requires t.candidates == st.candidates && t.candidateSet == st.candidateSet && t.sent == st.sent
    requires t.lastRequestAt == st.lastRequestAt && t.batchTimer == st.batchTimer && t.serial == st.serial
    requires t.inFlight == st.inFlight || t.inFlight.None?
    requires t.myLang == st.myLang && t.auto == st.auto && t.disposed == st.disposed
    requires t.store.pending <= st.store.pending && t.store.messages == st.store.messages
    requires t.pushWait == st.pushWait || (t.pushWait.Keys <= st.pushWait.Keys)
    requires AttemptsBounded(t.attempts)
    ensures Shape(env, t)
  {
  }

  lemma RetryTracked(st: State, id: Id, override: Option<int>, now: int, except: set<Id>)
    requires Tracked(st, except)
    ensures Tracked(ScheduleRetry(st, id, override, now), except - {id})
  {
  }

  lemma RetryAttempts(st: State, id: Id, override: Option<int>, now: int)
    requires AttemptsBounded(st.attempts)
    ensures AttemptsBounded(ScheduleRetry(st, id, override, now).attempts)
  {
    if Tries(st, id) >= |RETRY_DELAYS_MS| {} else {}
  }

  lemma RetryFrame(st: State, id: Id, override: Option<int>, now: int)
    ensures var t := ScheduleRetry(st, id, override, now);
      && t == st.(attempts := t.attempts, retryTimers := t.retryTimers, store := t.store)
      && t.store.pending <= st.store.pending && t.store.messages == st.store.messages
  {
    if Tries(st, id) >= |RETRY_DELAYS_MS| {} else {}
  }

  lemma ScheduleRetryKeeps(env: Env, st: State, id: Id, override: Option<int>, now: int, except: set<Id>)
    requires Shape(env, st) && Tracked(st, except)
    ensures var t := ScheduleRetry(st, id, override, now);
      && Shape(env, t) && Tracked(t, except - {id}) && t.inFlight == st.inFlight && t.myLang == st.myLang
  {
    hide Tracked, ScheduleRetry;
    RetryFrame(st, id, override, now);
    RetryAttempts(st, id, override, now);
    RetryTracked(st, id, override, now, except);
    ShapeFrame(env, st, ScheduleRetry(st, id, override, now));
  }

  lemma {:induction false} ScheduleRetriesKeeps(env: Env, st: State, ids: seq<Id>, override: Option<int>, now: int, except: set<Id>)
    requires Shape(env, st) && Tracked(st, except)
    ensures var t := ScheduleRetries(st, ids, override, now);
      && Shape(env, t) && Tracked(t, except - ToSet(ids)) && t.inFlight == st.inFlight && t.myLang == st.myLang
    decreases |ids|
  {
    if ids != [] {
      var next := ScheduleRetry(st, ids[0], override, now);
      ScheduleRetryKeeps(env, st, ids[0], override, now, except);
      ScheduleRetriesKeeps(env, next, ids[1..], override, now, except - {ids[0]});
      assert except - {ids[0]} - ToSet(ids[1..]) == except - ToSet(ids) by {
        assert forall x :: x in ids <==> x == ids[0] || x in ids[1..];
      }
    } else {
      assert except - ToSet(ids) == except;
    }
  }

  lemma {:induction false} FailedOfIs(ids: seq<Id>, reply: Reply)
    requires reply.Answer?
    ensures ToSet(FailedOf(ids, reply)) == set id | id in ids && Unanswered(reply, id)
  {
    if ids != [] {
      var front := ids[..|ids| - 1];
      FailedOfIs(front, reply);
      assert ids == front + [ids[|ids| - 1]];
      assert forall x :: x in FailedOf(ids, reply) <==> x in FailedOf(front, reply) || (x == ids[|ids| - 1] && Unanswered(reply, x));
      assert forall x :: x in FailedOf(front, reply) <==> x in ToSet(FailedOf(front, reply));
    }
  }

  /** The state in which an answer's retries are scheduled, once its texts are merged and its done ids cleared. */
  function Answered(st: State, ids: seq<Id>, reply: Reply, lang: Lang): State
    requires reply.Answer?
  {
    var merged := st.(store := st.store.(translations := MergeAll(st.store.translations, EntriesOf(ids, reply, lang))));
    ClearPending(merged, DoneOf(ids, reply)).(attempts := st.attempts - DoneOf(ids, reply))
  }

  /** Without its request, an answer leaves untracked only the ids that failed. */
  lemma AnsweredKeeps(env: Env, st: State, reply: Reply)
    requires Shape(env, st) && Tracked(st, {}) && st.inFlight.Some? && reply.Answer?
    ensures var r := st.inFlight.value;
      var t := Answered(st, r.ids, reply, r.lang).(inFlight := None);
      Shape(env, t) && Tracked(t, ToSet(FailedOf(r.ids, reply)))
  {
    hide Shape, MergeAll, EntriesOf, FailedOf;
    var r := st.inFlight.value;
    var t := Answered(st, r.ids, reply, r.lang).(inFlight := None);
    ShapeFrame(env, st, t) by { AttemptsShrink(env, st, DoneOf(r.ids, reply)); }
    FailedOfIs(r.ids, reply);
    if st.myLang.Some? {
      forall id <- t.store.pending ensures id in ToSet(FailedOf(r.ids, reply)) || HasMine(t, id) || Placed(t, id) {
        if HasMine(st, id) { MergeKeeps(st.store.translations, EntriesOf(r.ids, reply, r.lang), id, st.myLang.value); }
      }
    }
  }

  lemma AttemptsShrink(env: Env, st: State, ids: set<Id>)
    requires Shape(env, st)
    ensures AttemptsBounded(st.attempts - ids)
  {
  }

  lemma LandedKeeps(env: Env, st: State)
    requires Shape(env, st) && Tracked(st, {}) && st.inFlight.Some?
    ensures Shape(env, st.(inFlight := None)) && Tracked(st.(inFlight := None), ToSet(st.inFlight.value.ids))
  {
    hide Shape;
    ShapeFrame(env, st, st.(inFlight := None)) by { AttemptsShrink(env, st, {}); assert st.attempts - {} == st.attempts; }
  }

  lemma SettleKeeps(env: Env, st: State, reply: Reply, now: int)
    requires Shape(env, st) && Tracked(st, {}) && st.inFlight.Some? && reply.Answer?
    ensures var t := Settle(st, st.inFlight.value.ids, reply, st.inFlight.value.lang, now).(inFlight := None);
      Shape(env, t) && Tracked(t, {})
  {
    hide Shape, Tracked, ScheduleRetries, MergeAll, EntriesOf, FailedOf, DoneOf;
    var r := st.inFlight.value;
    var answered, failed := Answered(st, r.ids, reply, r.lang), FailedOf(r.ids, reply);
    AnsweredKeeps(env, st, reply);
    ScheduleRetriesKeeps(env, answered.(inFlight := None), failed, None, now, ToSet(failed));
    RetriesIgnoreFlight(answered, failed, None, now);
    assert ToSet(failed) - ToSet(failed) == {};
  }

  lemma FailKeeps(env: Env, st: State, reply: Reply, now: int)
    requires Shape(env, st) && Tracked(st, {}) && st.inFlight.Some? && reply.Rejected?
    ensures var t := Fail(st, st.inFlight.value.ids, reply, now).(inFlight := None); Shape(env, t) && Tracked(t, {})
  {
    hide Shape, Tracked, ScheduleRetries;
    var ids := st.inFlight.value.ids;
    var override := if reply.rateLimited then Some(reply.retryAfterMs.GetOr(RETRY_DELAYS_MS[0])) else None;
    LandedKeeps(env, st);
    ScheduleRetriesKeeps(env, st.(inFlight := None), ids, override, now, ToSet(ids));
    RetriesIgnoreFlight(st, ids, override, now);
    assert ToSet(ids) - ToSet(ids) == {};
  }

  lemma OnReplyKeeps(env: Env, st: State, serial: nat, reply: Reply, now: int)
    requires Inv(env, st)
    ensures Inv(env, OnReply(env, st, serial, reply, now))
  {
    hide Shape, Tracked, Armed, Settle, Fail, ScheduleBatch;
    if st.inFlight.Some? && st.inFlight.value.serial == serial {
      var r := st.inFlight.value;
      var settled := if reply.Answer? then Settle(st, r.ids, reply, r.lang, now) else Fail(st, r.ids, reply, now);
      if reply.Answer? { SettleKeeps(env, st, reply, now); } else { FailKeeps(env, st, reply, now); }
      ScheduleBatchKeeps(env, settled.(inFlight := None), 0, now, {});
    }
  }

  /** Scheduling retries neither reads nor writes the request in flight. */
  lemma {:induction false} RetriesIgnoreFlight(st: State, ids: seq<Id>, override: Option<int>, now: int)
    ensures ScheduleRetries(st, ids, override, now).(inFlight := None) ==
            ScheduleRetries(st.(inFlight := None), ids, override, now)
    decreases |ids|
  {
    hide ScheduleRetry;
    if ids != [] {
      RetryIgnoresFlight(st, ids[0], override, now);
      RetriesIgnoreFlight(ScheduleRetry(st, ids[0], override, now), ids[1..], override, now);
    }
  }

  lemma RetryIgnoresFlight(st: State, id: Id, override: Option<int>, now: int)
    ensures ScheduleRetry(st, id, override, now).(inFlight := None) == ScheduleRetry(st.(inFlight := None), id, override, now)
  {
    hide ScheduleReenqueue;
    var n := Tries(st, id);
    if n < |RETRY_DELAYS_MS| {
      ReenqueueIgnoresFlight(st.(attempts := st.attempts[id := n + 1]), id, override.GetOr(RETRY_DELAYS_MS[n]), now);
    }
  }

  lemma ReenqueueIgnoresFlight(st: State, id: Id, delay: int, now: int)
    ensures ScheduleReenqueue(st, id, delay, now).(inFlight := None) == ScheduleReenqueue(st.(inFlight := None), id, delay, now)
  {
  }

  // ---- the other events ----

  lemma ScanStoreKeeps(env: Env, st: State, now: int)
    requires Inv(env, st)
    ensures Inv(env, ScanStore(env, st, now))
  {
    if st.auto && st.myLang.Some? {
      EnqueueKeeps(env, st, Recent(env, st), HISTORY_FIRST_BATCH_DELAY_MS, now, {});
    }
  }

  lemma {:induction false} WithoutRemoves(ids: seq<Id>, id: Id)
    requires NoDup(ids)
    ensures NoDup(Without(ids, id)) && ToSet(Without(ids, id)) == ToSet(ids) - {id}
  {
    if ids != [] {
      var front, last := ids[..|ids| - 1], ids[|ids| - 1];
      WithoutRemoves(front, id);
      assert last !in front && ToSet(ids) == ToSet(front) + {last};
      var kept := Without(front, id);
      assert last !in ToSet(kept);
      assert ToSet(kept + [last]) == ToSet(kept) + {last};
    }
  }

  lemma RemoveCandidateKeeps(env: Env, st: State, id: Id, except: set<Id>)
    requires Shape(env, st) && Armed(st) && Tracked(st, except) && id in except
    ensures var t := RemoveCandidate(st, id); Shape(env, t) && Armed(t) && Tracked(t, except)
  {
    WithoutRemoves(st.candidates, id);
  }

  /** Fewer waits and retries for one id leave only that id untracked. */
  lemma ForgetKeeps(env: Env, st: State, id: Id)
    requires Inv(env, st)
    ensures var t := ClearRetry(ClearWait(st, id), id); Shape(env, t) && Armed(t) && Tracked(t, {id})
  {
    ShapeFrame(env, st, ClearRetry(ClearWait(st, id), id));
  }

  /** Once the mark of the ids is gone, nothing about them can be orphaned. */
  lemma ClearPendingKeeps(env: Env, st: State, ids: set<Id>)
    requires Shape(env, st) && Armed(st) && Tracked(st, ids)
    ensures Inv(env, ClearPending(st, ids))
  {
    ShapeFrame(env, st, ClearPending(st, ids));
  }

  lemma MergeOneKeeps(env: Env, st: State, id: Id, texts: Payload)
    requires Inv(env, st)
    ensures Inv(env, st.(store := st.store.(translations := MergeOne(st.store.translations, id, texts))))
  {
    ShapeFrame(env, st, st.(store := st.store.(translations := MergeOne(st.store.translations, id, texts))));
  }

  /** A text in the reader's language ends every wait for that id. */
  lemma ArrivedKeeps(env: Env, st: State, id: Id)
    requires Inv(env, st)
    ensures var settled := RemoveCandidate(ClearRetry(ClearWait(st, id), id), id);
      Inv(env, ClearPending(settled.(attempts := st.attempts - {id}), {id}))
  {
    var forgotten := ClearRetry(ClearWait(st, id), id);
    ForgetKeeps(env, st, id);
    RemoveCandidateKeeps(env, forgotten, id, {id});
    var settled := RemoveCandidate(forgotten, id).(attempts := st.attempts - {id});
    ShapeFrame(env, RemoveCandidate(forgotten, id), settled);
    ClearPendingKeeps(env, settled, {id});
  }

  /** A translation reported as failed is tried again later, if anybody is to see it. */
  lemma FailedPushKeeps(env: Env, st: State, id: Id, now: int)
    requires Inv(env, st)
    ensures Inv(env, if st.auto then ScheduleReenqueue(ClearWait(st, id), id, PUSH_WAIT_MS, now) else ClearWait(st, id))
  {
    ShapeFrame(env, st, if st.auto then ScheduleReenqueue(ClearWait(st, id), id, PUSH_WAIT_MS, now) else ClearWait(st, id));
  }

  lemma EmptyPushKeeps(env: Env, st: State, id: Id)
    requires Inv(env, st)
    ensures Inv(env, ClearPending(ClearWait(st, id), {id}))
  {
    ShapeFrame(env, st, ClearWait(st, id));
    ClearPendingKeeps(env, ClearWait(st, id), {id});
  }

  lemma OnPushedKeeps(env: Env, st: State, id: Id, texts: Payload, failed: set<Lang>, now: int)
    requires Inv(env, st)
    ensures Inv(env, OnPushed(st, id, texts, failed, now))
  {
    hide Inv;
    if !st.disposed {
      var merged := st.(store := st.store.(translations := MergeOne(st.store.translations, id, texts)));
      MergeOneKeeps(env, st, id, texts);
      ArrivedKeeps(env, merged, id);
      FailedPushKeeps(env, merged, id, now);
      EmptyPushKeeps(env, merged, id);
    }
  }

  lemma StoreReplacedKeeps(env: Env, st: State, messages: seq<Id>, entries: seq<(Id, Payload)>)
    requires Inv(env, st)
    ensures Inv(env, st.(store := Replace(st.store, messages, entries)))
  {
    var t := st.(store := Replace(st.store, messages, entries));
    if st.myLang.Some? {
      forall id <- t.store.pending ensures HasMine(t, id) || Placed(t, id) {
        if HasMine(st, id) { MergeKeeps(st.store.translations, entries, id, st.myLang.value); }
      }
    }
  }

  /** A reset with no mark left starts over, whatever the language and the toggle became. */
  lemma ResetShape(env: Env, st: State, t: State)
    requires Inv(env, st)
    requires t.sent == st.sent && t.lastRequestAt == st.lastRequestAt && t.store.pending == {}
    ensures Inv(env, ResetWork(t))
  {
  }

  lemma OnConnectKeeps(env: Env, st: State, lang: Lang, on: bool, now: int)
    requires Inv(env, st)
    ensures Inv(env, OnConnect(env, st, lang, on, now))
  {
    if !st.disposed {
      var set_ := st.(myLang := Some(EffectiveLang(lang)), auto := on, connected := true, store := st.store.(pending := {}));
      ResetShape(env, st, set_);
      ScanStoreKeeps(env, ResetWork(set_), now);
    }
  }

  lemma OnHistoryKeeps(env: Env, st: State, now: int)
    requires Inv(env, st)
    ensures Inv(env, OnHistory(env, st, now))
  {
    if !st.disposed {
      var arrived := Arrived(st, st.pushWait.Keys);
      var waiting := st.(pushWait := st.pushWait - arrived);
      ShapeFrame(env, st, waiting);
      ClearPendingKeeps(env, waiting, arrived);
      ScanStoreKeeps(env, ClearPending(waiting, arrived), now);
    }
  }

  lemma OnMessageKeeps(env: Env, st: State, id: Id, now: int)
    requires Inv(env, st)
    ensures Inv(env, OnMessage(env, st, id, now))
  {
  }

  lemma OnSettingKeeps(env: Env, st: State, e: Event, now: int)
    requires Inv(env, st) && (e.LanguageChange? || e.AutoTranslateChange?)
    ensures Inv(env, Step(env, st, e, now))
  {
    if Step(env, st, e, now) != st {
      var changed := if e.LanguageChange? then st.(myLang := Some(EffectiveLang(e.lang))) else st.(auto := e.on);
      ResetShape(env, st, ResetStatus(changed));
      ScanStoreKeeps(env, ResetWork(ResetStatus(changed)), now);
    }
  }

  lemma OnRetryKeeps(env: Env, st: State, id: Id, now: int)
    requires Inv(env, st)
    ensures Inv(env, OnRetry(env, st, id, now))
  {
    if !st.disposed {
      var cleared := st.(store := st.store.(failed := st.store.failed - {id}), attempts := st.attempts - {id});
      ShapeFrame(env, st, ClearRetry(cleared, id));
      EnqueueKeeps(env, ClearRetry(cleared, id), [id], 0, now, {id});
    }
  }

  lemma OnTimerKeeps(env: Env, st: State, e: Event, now: int)
    requires Inv(env, st) && (e.PushTimer? || e.RetryTimer? || e.BatchTimer?)
    ensures Inv(env, Step(env, st, e, now))
  {
    hide Enqueue, RunBatch;
    if e.PushTimer? {
      if e.id in st.pushWait {
        ShapeFrame(env, st, ClearWait(st, e.id));
        EnqueueKeeps(env, ClearWait(st, e.id), [e.id], 0, now, {e.id});
      }
    } else if e.RetryTimer? {
      if e.id in st.retryTimers {
        ShapeFrame(env, st, ClearRetry(st, e.id));
        EnqueueKeeps(env, ClearRetry(st, e.id), [e.id], 0, now, {e.id});
      }
    } else if st.batchTimer.Some? && now >= st.batchTimer.value {
      RunBatchKeeps(env, st.(batchTimer := None), now, {});
    }
  }

  lemma OnScrolledKeeps(env: Env, st: State, ids: seq<Id>, now: int)
    requires Inv(env, st)
    ensures Inv(env, OnScrolledToOlder(env, st, ids, now))
  {
    hide Shape, Tracked, Armed;
    if !st.disposed {
      assert Tracked(st, {}) && {} <= ToSet(NotWaiting(st, ids));
      EnqueueKeeps(env, st, NotWaiting(st, ids), 0, now, {});
    }
  }

  lemma OnDisposeKeeps(env: Env, st: State)
    requires Inv(env, st)
    ensures Inv(env, OnDispose(st))
  {
    ResetShape(env, st, st.(disposed := true, connected := false, store := st.store.(pending := {})));
  }

  lemma StepKeeps(env: Env, st: State, e: Event, now: int)
    requires Inv(env, st)
    ensures Inv(env, Step(env, st, e, now))
  {
    hide Inv, OnConnect, OnHistory, OnMessage, OnPushed, OnScrolledToOlder, OnRetry, OnDispose, OnReply, Replace;
    match e
    case Connect(lang, on) => OnConnectKeeps(env, st, lang, on, now);
    case History => OnHistoryKeeps(env, st, now);
    case Message(id) => OnMessageKeeps(env, st, id, now);
    case Pushed(id, texts, failedLangs) => OnPushedKeeps(env, st, id, texts, failedLangs, now);
    case LanguageChange(_) => OnSettingKeeps(env, st, e, now);
    case AutoTranslateChange(_) => OnSettingKeeps(env, st, e, now);
    case Scrolled(ids) => OnScrolledKeeps(env, st, ids, now);
    case Retry(id) => OnRetryKeeps(env, st, id, now);
    case Dispose => OnDisposeKeeps(env, st);
    case PushTimer(_) => OnTimerKeeps(env, st, e, now);
    case RetryTimer(_) => OnTimerKeeps(env, st, e, now);
    case BatchTimer => OnTimerKeeps(env, st, e, now);
    case Replied(serial, reply) => OnReplyKeeps(env, st, serial, reply, now);
    case StoreReplaced(messages, entries) => StoreReplacedKeeps(env, st, messages, entries);
  }

  lemma {:induction false} RunKeeps(env: Env, events: seq<(int, Event)>)
    ensures Inv(env, Run(env, INITIAL, events))
  {
    if events != [] {
      RunKeeps(env, events[..|events| - 1]);
      var last := events[|events| - 1];
      StepKeeps(env, Run(env, INITIAL, events[..|events| - 1]), last.1, last.0);
    }
  }

  // ---- what a reader of the machine wants to know ----

  /** In every run, an id shown as "translating" without a text in the reader's language is still being worked on. */
  lemma NoOrphanedMark(env: Env, events: seq<(int, Event)>, id: Id)
    requires id in Run(env, INITIAL, events).store.pending
    ensures var st := Run(env, INITIAL, events);
      && st.myLang.Some?
      && (HasMine(st, id) || id in st.pushWait || id in st.candidates || Requested(st, id) || id in st.retryTimers)
  {
    RunKeeps(env, events);
  }

  /** In every run, waiting candidates have a request in flight or an armed timer; the queue has no duplicate and shares no id with the request. */
  lemma CandidatesAreServed(env: Env, events: seq<(int, Event)>)
    ensures var st := Run(env, INITIAL, events);
      && (st.candidates != [] ==> st.inFlight.Some? || st.batchTimer.Some?)
      && NoDup(st.candidates) && st.candidateSet == ToSet(st.candidates)
      && (forall id <- st.candidates :: !Requested(st, id))
  {
    RunKeeps(env, events);
    QueueApart(env, Run(env, INITIAL, events));
  }

  lemma QueueApart(env: Env, st: State)
    requires Inv(env, st)
    ensures st.candidates != [] ==> st.inFlight.Some? || st.batchTimer.Some?
    ensures NoDup(st.candidates) && st.candidateSet == ToSet(st.candidates)
    ensures forall id <- st.candidates :: !Requested(st, id)
  {
    forall id <- st.candidates ensures !Requested(st, id) {
      assert id in st.candidateSet;
      if st.inFlight.Some? { assert id !in ToSet(st.inFlight.value.ids); }
    }
  }

  /** In every run, whatever resets come between: requests are a second apart and within the limits. */
  lemma RequestsAreSpaced(env: Env, events: seq<(int, Event)>)
    ensures var sent := Run(env, INITIAL, events).sent;
      && (forall i, j :: 0 <= i < j < |sent| ==> sent[j].at - sent[i].at >= (j - i) * 1_000)
      && (forall b <- sent :: WithinLimits(env, b.ids))
  {
    RunKeeps(env, events);
    var sent := Run(env, INITIAL, events).sent;
    forall i, j | 0 <= i < j < |sent| ensures sent[j].at - sent[i].at >= (j - i) * BATCH_MIN_INTERVAL_MS {
      GapsAddUp(sent, i, j);
    }
  }

  lemma {:induction false} GapsAddUp(sent: seq<Batch>, i: nat, j: nat)
    requires i <= j < |sent|
    requires forall k :: 0 < k < |sent| ==> sent[k].at >= sent[k - 1].at + BATCH_MIN_INTERVAL_MS
    ensures sent[j].at - sent[i].at >= (j - i) * BATCH_MIN_INTERVAL_MS
    decreases j
  {
    if i < j { GapsAddUp(sent, i, j - 1); }
  }

  // ---- the retry budget ----

  function Tries(st: State, id: Id): nat { if id in st.attempts then st.attempts[id] else 0 }

  /** What became of an id whose translation failed after `n` retries. */
  ghost predicate Retried(st: State, t: State, id: Id, n: nat, override: Option<int>, now: int) {
    if n >= 2 then
      id in t.store.failed && id !in t.store.pending && id !in t.attempts &&
      (id in t.retryTimers <==> id in st.retryTimers)
    else
      id in t.retryTimers && t.retryTimers[id] == now + override.GetOr(RETRY_DELAYS_MS[n]) &&
      id in t.attempts && t.attempts[id] == n + 1 && (id in t.store.failed <==> id in st.store.failed)
  }

  ghost predicate SameFor(s: State, t: State, id: Id) {
    && (id in s.attempts <==> id in t.attempts) && (id in s.attempts ==> s.attempts[id] == t.attempts[id])
    && (id in s.retryTimers <==> id in t.retryTimers) && (id in s.retryTimers ==> s.retryTimers[id] == t.retryTimers[id])
    && (id in s.store.failed <==> id in t.store.failed) && (id in s.store.pending <==> id in t.store.pending)
  }

  lemma RetryLeavesOthers(st: State, id: Id, override: Option<int>, now: int, other: Id)
    requires other != id
    ensures SameFor(st, ScheduleRetry(st, id, override, now), other)
  {
  }

  lemma {:induction false} RetriesLeaveOthers(st: State, ids: seq<Id>, override: Option<int>, now: int, other: Id)
    requires other !in ids
    ensures SameFor(st, ScheduleRetries(st, ids, override, now), other)
    decreases |ids|
  {
    hide ScheduleRetry;
    if ids != [] {
      RetryLeavesOthers(st, ids[0], override, now, other);
      RetriesLeaveOthers(ScheduleRetry(st, ids[0], override, now), ids[1..], override, now, other);
    }
  }

  /** Each failed id is retried after 10 s, then after 30 s, or when the provider said; the third failure marks it failed and ends its mark. */
  lemma {:induction false} ThreeTries(st: State, ids: seq<Id>, override: Option<int>, now: int, id: Id)
    requires NoDup(ids) && id in ids
    ensures Retried(st, ScheduleRetries(st, ids, override, now), id, Tries(st, id), override, now)
    decreases |ids|
  {
    var next := ScheduleRetry(st, ids[0], override, now);
    if ids[0] == id {
      assert id !in ids[1..];
      RetriesLeaveOthers(next, ids[1..], override, now, id);
    } else {
      RetryLeavesOthers(st, ids[0], override, now, id);
      ThreeTries(next, ids[1..], override, now, id);
    }
  }

  /** In every run an id has been retried at most twice. */
  lemma AtMostTwoRetries(env: Env, events: seq<(int, Event)>, id: Id)
    ensures Tries(Run(env, INITIAL, events), id) <= 2
  {
    RunKeeps(env, events);
  }

  // ---- replies reach the store, and the newest messages come first ----

  lemma {:induction false} EntriesHold(ids: seq<Id>, reply: Reply, lang: Lang, id: Id) returns (k: nat)
    requires reply.Answer? && id in ids && id in reply.translated
    ensures var entries := EntriesOf(ids, reply, lang);
      k < |entries| && entries[k].0 == id && entries[k].1 == map[lang := Some(reply.translated[id])]
  {
    var n := |ids| - 1;
    var before := EntriesOf(ids[..n], reply, lang);
    if ids[n] == id {
      k := |before|;
    } else {
      k := EntriesHold(ids[..n], reply, lang, id);
      assert EntriesOf(ids, reply, lang)[k] == before[k];
    }
  }

  /** Settling a reply puts every text it brings for the request into the store, in the request's language. */
  lemma AnswersReachStore(st: State, ids: seq<Id>, reply: Reply, lang: Lang, now: int, id: Id)
    requires reply.Answer? && id in ids && id in reply.translated
    ensures HasText(Settle(st, ids, reply, lang, now).store, id, lang)
  {
    hide ScheduleRetries, EntriesOf, FailedOf, MergeAll;
    var entries := EntriesOf(ids, reply, lang);
    var k := EntriesHold(ids, reply, lang, id);
    assert lang in entries[k].1 && entries[k].1[lang].Some?;
    MergeAdds(st.store.translations, entries, id, lang);
    var merged := st.(store := st.store.(translations := MergeAll(st.store.translations, entries)));
    var cleared := ClearPending(merged, DoneOf(ids, reply)).(attempts := st.attempts - DoneOf(ids, reply));
    RetriesKeepTexts(cleared, FailedOf(ids, reply), None, now);
  }

  lemma {:induction false} RetriesKeepTexts(st: State, ids: seq<Id>, override: Option<int>, now: int)
    ensures ScheduleRetries(st, ids, override, now).store.translations == st.store.translations
    decreases |ids|
  {
    if ids != [] { RetriesKeepTexts(ScheduleRetry(st, ids[0], override, now), ids[1..], override, now); }
  }

  lemma {:induction false} EligibleConcat(env: Env, st: State, a: seq<Id>, b: seq<Id>)
    requires st.myLang.Some?
    ensures EligibleOf(env, st, a + b) == EligibleOf(env, st, a) + EligibleOf(env, st, b)
  {
    hide Eligible;
    if b == [] {
      assert a + b == a;
    } else {
      assert (a + b)[..|a + b| - 1] == a + b[..|b| - 1];
      EligibleConcat(env, st, a, b[..|b| - 1]);
    }
  }

  /** A scan takes at most 50 messages, and every eligible one behind which fewer than 50 eligible ones stand. */
  lemma NewestAreScanned(env: Env, st: State, i: nat)
    requires st.myLang.Some? && i < |st.store.messages| && Eligible(env, st, st.store.messages[i])
    requires |EligibleOf(env, st, st.store.messages[i + 1..])| < HISTORY_FIRST_BATCH_COUNT
    ensures |Recent(env, st)| <= HISTORY_FIRST_BATCH_COUNT && st.store.messages[i] in Recent(env, st)
  {
    hide Eligible;
    var messages := st.store.messages;
    var all, after := EligibleOf(env, st, messages), EligibleOf(env, st, messages[i + 1..]);
    assert messages == messages[..i + 1] + messages[i + 1..] && messages[..i + 1][..i] == messages[..i];
    EligibleConcat(env, st, messages[..i + 1], messages[i + 1..]);
    var k := |all| - |after| - 1;
    assert all[k] == messages[i];
    var recent := Recent(env, st);
    assert recent[|recent| - |after| - 1] == all[k];
  }
}
