/** The chat-translation store slice and sync machine as objects, proved against their transition functions. */
module TranslationSync {
  import opened Prelude
  import opened ChatStoreModel
  import opened M = TranslationModel

  class ChatStore {
    var chatMessages: seq<Id>
    var chatTranslations: map<Id, map<Lang, string>>
    var chatTranslationPending: set<Id>
    var chatTranslationFailed: set<Id>

    ghost function View(): Store
      reads this
    {
      Store(chatMessages, chatTranslations, chatTranslationPending, chatTranslationFailed)
    }

    constructor ()
      ensures View() == Store([], map[], {}, {})
    {
      chatMessages, chatTranslations, chatTranslationPending, chatTranslationFailed := [], map[], {}, {};
    }

    static method MergeTranslationMap(current: map<Id, map<Lang, string>>, entries: seq<(Id, Payload)>)
      returns (next: map<Id, map<Lang, string>>)
      ensures next == MergeAll(current, entries)
    {
      next := current;
      for i := 0 to |entries|
        invariant MergeAll(current, entries) == MergeAll(next, entries[i..])
      {
        var (id, texts) := entries[i];
        var strings := Strings(texts);
        if strings != map[] {
          var merged := if id in next then next[id] else map[];
          next := next[id := merged + strings];
        }
        assert entries[i..][1..] == entries[i + 1..];
      }
    }

    static method WithoutKeys(record: set<Id>, ids: seq<Id>) returns (out: set<Id>)
      ensures out == record - ToSet(ids)
    {
      out := record;
      for i := 0 to |ids|
        invariant out == record - ToSet(ids[..i])
      {
        out := out - {ids[i]};
        assert ids[..i + 1] == ids[..i] + [ids[i]];
      }
      assert ids[..|ids|] == ids;
    }

    /** setChatHistory and appendChatMessage, given the message list they arrive at. */
    method ReplaceMessages(messages: seq<Id>, entries: seq<(Id, Payload)>)
      modifies this
      ensures View() == Replace(old(View()), messages, entries)
    {
      var merged := MergeTranslationMap(chatTranslations, entries);
      chatMessages := messages;
      chatTranslations := map id | id in merged && id in messages :: merged[id];
      chatTranslationPending := set id | id in chatTranslationPending && id in messages;
      chatTranslationFailed := set id | id in chatTranslationFailed && id in messages;
    }

    method MergeChatTranslationsBulk(entries: seq<(Id, Payload)>)
      modifies this
      ensures View() == old(View()).(translations := MergeAll(old(chatTranslations), entries))
    {
      chatTranslations := MergeTranslationMap(chatTranslations, entries);
    }

    method MarkTranslationPending(ids: seq<Id>)
      modifies this
      ensures View() == old(View()).(pending := old(chatTranslationPending) + ToSet(ids))
    {
      chatTranslationPending := chatTranslationPending + set id | id in ids;
    }

    method ClearTranslationPending(ids: seq<Id>)
      modifies this
      ensures View() == old(View()).(pending := old(chatTranslationPending) - ToSet(ids))
    {
      chatTranslationPending := WithoutKeys(chatTranslationPending, ids);
    }

    method ClearAllPending()
      modifies this
      ensures View() == old(View()).(pending := {})
    {
      chatTranslationPending := {};
    }

    method MarkTranslationFailed(id: Id)
      modifies this
      ensures View() == old(View()).(failed := old(chatTranslationFailed) + {id}, pending := old(chatTranslationPending) - {id})
    {
      chatTranslationFailed := chatTranslationFailed + {id};
      chatTranslationPending := chatTranslationPending - {id};
    }

    method ClearTranslationFailed(id: Id)
      modifies this
      ensures View() == old(View()).(failed := old(chatTranslationFailed) - {id})
    {
      chatTranslationFailed := chatTranslationFailed - {id};
    }

    method ResetTranslationStatus()
      modifies this
      ensures View() == old(View()).(pending := {}, failed := {})
    {
      chatTranslationPending, chatTranslationFailed := {}, {};
    }
  }

  class Sync {
    const env: Env
    const store: ChatStore

    var myLang: Option<Lang>
    var autoTranslate: bool
    var connected: bool
    var disposed: bool
    var pushWait: map<Id, int>
    var retryTimers: map<Id, int>
    var attempts: map<Id, nat>
    var candidates: seq<Id>
    var candidateSet: set<Id>
    var inFlight: Option<Request>
    var batchTimer: bool
    var batchTimerAt: int
    var lastRequestAt: Option<int>
    var nextSerial: nat
    ghost var sent: seq<Batch>

    ghost function View(): State
      reads this, store
    {
      State(store.View(), myLang, autoTranslate, connected, disposed, pushWait, retryTimers, attempts,
            candidates, candidateSet, inFlight, if batchTimer then Some(batchTimerAt) else None,
            lastRequestAt, nextSerial, sent)
    }

    constructor (env: Env, store: ChatStore)
      requires store.View() == Store([], map[], {}, {})
      ensures this.env == env && this.store == store
      ensures View() == INITIAL
    {
      this.env, this.store := env, store;
      myLang, autoTranslate, connected, disposed := None, false, false, false;
      pushWait, retryTimers, attempts, candidates, candidateSet := map[], map[], map[], [], {};
      inFlight, batchTimer, batchTimerAt, lastRequestAt, nextSerial, sent := None, false, 0, None, 0, [];
    }

    predicate IsActive()
      reads this
    {
      !disposed && autoTranslate && myLang.Some?
    }

    predicate OwnText(id: Id)
      requires myLang.Some?
      reads this, store
    {
      id in store.chatTranslations && myLang.value in store.chatTranslations[id]
    }

    predicate IsEligible(id: Id): (eligible: bool)
      requires myLang.Some?
      reads this, store
      ensures eligible == Eligible(env, View(), id)
    {
      id in store.chatMessages && Translatable(env, myLang.value, id) && !OwnText(id)
    }

    predicate IsRequested(id: Id)
      reads this
    {
      inFlight.Some? && id in inFlight.value.ids
    }

    method DropWait(id: Id)
      modifies this
      ensures View() == ClearWait(old(View()), id)
    {
      if id in pushWait { pushWait := pushWait - {id}; }
    }

    method DropRetry(id: Id)
      modifies this
      ensures View() == ClearRetry(old(View()), id)
    {
      if id in retryTimers { retryTimers := retryTimers - {id}; }
    }

    method DropCandidate(id: Id)
      modifies this
      ensures View() == RemoveCandidate(old(View()), id)
    {
      if id !in candidateSet { return; }
      candidateSet := candidateSet - {id};
      var kept := [];
      for i := 0 to |candidates|
        invariant candidates == old(candidates)
        invariant View() == old(View()).(candidateSet := old(candidateSet) - {id})
        invariant kept == Without(candidates[..i], id)
      {
        if candidates[i] != id { kept := kept + [candidates[i]]; }
        assert candidates[..i + 1][..i] == candidates[..i];
      }
      assert candidates[..|candidates|] == candidates;
      candidates := kept;
    }

    method ShiftCandidate()
      requires candidates != []
      modifies this
      ensures View() == old(View()).(candidates := old(candidates[1..]), candidateSet := old(candidateSet) - {old(candidates[0])})
    {
      candidateSet := candidateSet - {candidates[0]};
      candidates := candidates[1..];
    }

    method TakeItems() returns (items: seq<Id>)
      requires myLang.Some?
      modifies this, store
      ensures (View(), items) == TakeBatch(env, old(View()), [], 0)
      ensures myLang == old(myLang)
    {
      hide Eligible, IsEligible;
      items := [];
      var chars: nat := 0;
      while candidates != []
        invariant myLang == old(myLang)
        invariant TakeBatch(env, old(View()), [], 0) == TakeBatch(env, View(), items, chars)
        decreases |candidates|
      {
        var id := candidates[0];
        if !IsEligible(id) {
          ShiftCandidate();
          store.ClearTranslationPending([id]);
          assert ToSet([id]) == {id};
          continue;
        }
        var text := env.text(id);
        if |items| > 0 && (|items| >= BATCH_MAX_ITEMS || chars + |text| > BATCH_MAX_CHARS) {
          break;
        }
        ShiftCandidate();
        items := items + [id];
        chars := chars + |text|;
      }
    }

    method SendBatch(now: int)
      modifies this, store
      ensures View() == RunBatch(env, old(View()), now)
    {
      hide TakeBatch;
      if disposed || inFlight.Some? || !autoTranslate || myLang.None? { return; }
      var items := TakeItems();
      if |items| > 0 { SendItems(items, now); }
    }

    method SendItems(items: seq<Id>, now: int)
      requires myLang.Some?
      modifies this
      ensures View() == Sent(old(View()), items, now)
    {
      inFlight := Some(Request(nextSerial, items, myLang.value));
      nextSerial := nextSerial + 1;
      lastRequestAt := Some(now);
      sent := sent + [Batch(now, items)];
    }

    method Schedule(delayMs: int, now: int)
      modifies this, store
      ensures View() == ScheduleBatch(env, old(View()), delayMs, now)
    {
      if disposed || inFlight.Some? || |candidates| == 0 { return; }
      var at := if lastRequestAt.None? then now + delayMs
                else Max(now + delayMs, lastRequestAt.value + BATCH_MIN_INTERVAL_MS);
      if batchTimer {
        if at >= batchTimerAt { return; }
        batchTimer := false;
      }
      if at <= now {
        SendBatch(now);
        return;
      }
      batchTimerAt := at;
      batchTimer := true;
    }

    method CollectOne(id: Id) returns (joined: bool)
      requires myLang.Some?
      modifies this
      ensures joined == old(Joins(env, View(), id)) && (joined ==> id !in old(candidateSet))
      ensures View() == if joined then Joined(old(View()), id) else old(View())
    {
      hide Eligible, IsEligible;
      if id in candidateSet || IsRequested(id) || !IsEligible(id) { return false; }
      joined := true;
      DropWait(id);
      candidateSet := candidateSet + {id};
      candidates := candidates + [id];
    }

    /** The loop of enqueue; `added` are the ids that joined the candidates. */
    method CollectIds(ids: seq<Id>) returns (added: seq<Id>)
      requires IsActive()
      modifies this
      ensures View() == Collect(env, old(View()), ids)
      ensures candidateSet - old(candidateSet) == ToSet(added)
    {
      hide Joins, Collect;
      added := [];
      for i := 0 to |ids|
        invariant myLang.Some?
        invariant Collect(env, old(View()), ids) == Collect(env, View(), ids[i..])
        invariant candidateSet == old(candidateSet) + ToSet(added) && ToSet(added) !! old(candidateSet)
      {
        var id := ids[i];
        assert ids[i..][0] == id && ids[i..][1..] == ids[i + 1..];
        CollectUnfolds(env, View(), ids[i..]);
        var joined := CollectOne(id);
        assert ToSet(added + [id]) == ToSet(added) + {id};
        if joined { added := added + [id]; }
      }
      CollectUnfolds(env, View(), ids[|ids|..]);
    }

    method EnqueueIds(ids: seq<Id>, delayMs: int, now: int)
      modifies this, store
      ensures View() == Enqueue(env, old(View()), ids, delayMs, now)
    {
      if disposed || !autoTranslate || myLang.None? { return; }
      var added := CollectIds(ids);
      if |added| == 0 { return; }
      assert added[0] in ToSet(added);
      store.MarkTranslationPending(added);
      Schedule(delayMs, now);
    }

    method Reenqueue(id: Id, delayMs: int, now: int)
      modifies this
      ensures View() == ScheduleReenqueue(old(View()), id, delayMs, now)
    {
      DropRetry(id);
      retryTimers := retryTimers[id := now + delayMs];
    }

    method RetryOne(id: Id, delayOverride: Option<int>, now: int)
      modifies this, store
      ensures View() == ScheduleRetry(old(View()), id, delayOverride, now)
    {
      var n := if id in attempts then attempts[id] else 0;
      if n >= |RETRY_DELAYS_MS| {
        attempts := attempts - {id};
        store.MarkTranslationFailed(id);
        return;
      }
      attempts := attempts[id := n + 1];
      Reenqueue(id, delayOverride.GetOr(RETRY_DELAYS_MS[n]), now);
    }

    method RetryLater(ids: seq<Id>, delayOverride: Option<int>, now: int)
      modifies this, store
      ensures View() == ScheduleRetries(old(View()), ids, delayOverride, now)
    {
      hide ScheduleRetry;
      for i := 0 to |ids|
        invariant ScheduleRetries(old(View()), ids, delayOverride, now) == ScheduleRetries(View(), ids[i..], delayOverride, now)
      {
        RetryOne(ids[i], delayOverride, now);
        assert ids[i..][1..] == ids[i + 1..];
      }
    }

    /** What a reply says of each item: the texts to merge, the ids that are done and the ids that failed. */
    static method ReadAnswer(items: seq<Id>, reply: Reply, lang: Lang)
      returns (entries: seq<(Id, Payload)>, done: seq<Id>, failedIds: seq<Id>)
      requires reply.Answer?
      ensures entries == EntriesOf(items, reply, lang) && failedIds == FailedOf(items, reply)
      ensures ToSet(done) == DoneOf(items, reply)
    {
      entries, done, failedIds := [], [], [];
      for i := 0 to |items|
        invariant entries == EntriesOf(items[..i], reply, lang)
        invariant failedIds == FailedOf(items[..i], reply)
        invariant ToSet(done) == DoneOf(items[..i], reply)
      {
        var id := items[i];
        assert items[..i + 1][..i] == items[..i] && items[..i + 1] == items[..i] + [id];
        assert DoneOf(items[..i + 1], reply) == DoneOf(items[..i], reply) + (if Unanswered(reply, id) then {} else {id});
        if id in reply.translated {
          entries := entries + [(id, map[lang := Some(reply.translated[id])])];
          done := done + [id];
        } else if id in reply.failed {
          failedIds := failedIds + [id];
        } else {
          done := done + [id];
        }
      }
      assert items[..|items|] == items;
    }

    method SettleItems(items: seq<Id>, reply: Reply, lang: Lang, now: int)
      requires reply.Answer?
      modifies this, store
      ensures View() == Settle(old(View()), items, reply, lang, now)
    {
      hide ScheduleRetries, EntriesOf, FailedOf, DoneOf, MergeAll;
      var entries, done, failedIds := ReadAnswer(items, reply, lang);
      store.MergeChatTranslationsBulk(entries);
      store.ClearTranslationPending(done);
      attempts := attempts - ToSet(done);
      RetryLater(failedIds, None, now);
    }

    /** The reply handlers and the finally handler of one request, which run together. */
    method HandleReply(serial: nat, reply: Reply, now: int)
      modifies this, store
      ensures View() == OnReply(env, old(View()), serial, reply, now)
    {
      if inFlight.None? || inFlight.value.serial != serial { return; }
      var request := inFlight.value;
      match reply {
        case Answer(_, _) => SettleItems(request.ids, reply, request.lang, now);
        case Rejected(rateLimited, retryAfterMs) =>
          if rateLimited {
            RetryLater(request.ids, Some(retryAfterMs.GetOr(RETRY_DELAYS_MS[0])), now);
          } else {
            RetryLater(request.ids, None, now);
          }
      }
      inFlight := None;
      Schedule(0, now);
    }

    method RecentIds() returns (recent: seq<Id>)
      requires myLang.Some?
      ensures recent == Recent(env, View())
    {
      hide Eligible, IsEligible;
      recent := [];
      for i := 0 to |store.chatMessages|
        invariant recent == EligibleOf(env, View(), store.chatMessages[..i])
      {
        assert store.chatMessages[..i + 1][..i] == store.chatMessages[..i];
        if IsEligible(store.chatMessages[i]) { recent := recent + [store.chatMessages[i]]; }
      }
      assert store.chatMessages[..|store.chatMessages|] == store.chatMessages;
      if |recent| > HISTORY_FIRST_BATCH_COUNT { recent := recent[|recent| - HISTORY_FIRST_BATCH_COUNT..]; }
    }

    method Scan(now: int)
      modifies this, store
      ensures View() == ScanStore(env, old(View()), now)
    {
      if !autoTranslate || myLang.None? { return; }
      var recent := RecentIds();
      EnqueueIds(recent, HISTORY_FIRST_BATCH_DELAY_MS, now);
    }

    method Reset()
      modifies this
      ensures View() == ResetWork(old(View()))
    {
      hide ChatStore.View;
      ghost var texts := store.View();
      pushWait, retryTimers, attempts := map[], map[], map[];
      batchTimer := false;
      inFlight := None;
      candidates, candidateSet := [], {};
      assert store.View() == texts;
    }

    method HandleConnect(lang: Lang, on: bool, now: int)
      modifies this, store
      ensures View() == OnConnect(env, old(View()), lang, on, now)
    {
      if disposed { return; }
      myLang := Some(EffectiveLang(lang));
      autoTranslate := on;
      connected := true;
      Reset();
      store.ClearAllPending();
      Scan(now);
    }

    method DropWaitIfArrived(id: Id)
      modifies this, store
      ensures View() == DropIfArrived(old(View()), id)
    {
      if myLang.Some? && OwnText(id) {
        DropWait(id);
        store.ClearTranslationPending([id]);
        assert ToSet([id]) == {id};
      }
    }

    /** The push waits that a history's translations have ended. */
    method DropArrivedWaits()
      modifies this, store
      ensures View() == DropArrived(old(View()), old(pushWait.Keys))
    {
      hide View, DropArrived, DropIfArrived;
      var keys := pushWait.Keys;
      ghost var before, waiting, done := View(), keys, {};
      DropArrivedNone(before);
      while keys != {}
        invariant View() == DropArrived(before, done)
        invariant keys !! done && keys + done == waiting
        decreases |keys|
      {
        var k :| k in keys;
        DropArrivedOne(before, done, k);
        DropWaitIfArrived(k);
        keys, done := keys - {k}, done + {k};
      }
    }

    method HandleHistory(now: int)
      modifies this, store
      ensures View() == OnHistory(env, old(View()), now)
    {
      if disposed { return; }
      DropArrivedWaits();
      Scan(now);
    }

    method HandleMessage(id: Id, now: int)
      modifies this, store
      ensures View() == OnMessage(env, old(View()), id, now)
    {
      if disposed || !autoTranslate || myLang.None? { return; }
      if !IsEligible(id) { return; }
      DropWait(id);
      store.MarkTranslationPending([id]);
      pushWait := pushWait[id := now + PUSH_WAIT_MS];
    }

    /** A text in the reader's language has arrived for the id. */
    method EndWaits(id: Id)
      modifies this, store
      ensures View() == ClearPending(
        RemoveCandidate(ClearRetry(ClearWait(old(View()), id), id), id).(attempts := old(attempts) - {id}), {id})
    {
      DropWait(id);
      DropRetry(id);
      DropCandidate(id);
      attempts := attempts - {id};
      store.ClearTranslationPending([id]);
    }

    method HandlePushed(id: Id, translations: Payload, failed: set<Lang>, now: int)
      modifies this, store
      ensures View() == OnPushed(old(View()), id, translations, failed, now)
    {
      if disposed { return; }
      store.MergeChatTranslationsBulk([(id, translations)]);
      assert MergeAll(old(store.chatTranslations), [(id, translations)]) == MergeOne(old(store.chatTranslations), id, translations);
      if myLang.None? { return; }
      if myLang.value in translations && translations[myLang.value].Some? {
        EndWaits(id);
        return;
      }
      if myLang.value in failed {
        DropWait(id);
        if autoTranslate { Reenqueue(id, PUSH_WAIT_MS, now); }
        return;
      }
      if translations == map[] && failed == {} {
        DropWait(id);
        store.ClearTranslationPending([id]);
      }
    }

    method HandleLanguageChange(lang: Lang, now: int)
      modifies this, store
      ensures View() == OnLanguageChange(env, old(View()), lang, now)
    {
      if disposed { return; }
      var next := Some(EffectiveLang(lang));
      if next == myLang { return; }
      myLang := next;
      Reset();
      store.ResetTranslationStatus();
      Scan(now);
    }

    method HandleAutoTranslateChange(on: bool, now: int)
      modifies this, store
      ensures View() == OnAutoTranslateChange(env, old(View()), on, now)
    {
      if disposed || on == autoTranslate { return; }
      autoTranslate := on;
      Reset();
      store.ResetTranslationStatus();
      Scan(now);
    }

    method HandleScrolledToOlder(ids: seq<Id>, now: int)
      modifies this, store
      ensures View() == OnScrolledToOlder(env, old(View()), ids, now)
    {
      if disposed { return; }
      var free := [];
      for i := 0 to |ids|
        invariant free == NotWaiting(View(), ids[..i])
      {
        assert ids[..i + 1][..i] == ids[..i];
        if ids[i] !in pushWait && ids[i] !in retryTimers { free := free + [ids[i]]; }
      }
      assert ids[..|ids|] == ids;
      EnqueueIds(free, 0, now);
    }

    method HandleRetry(id: Id, now: int)
      modifies this, store
      ensures View() == OnRetry(env, old(View()), id, now)
    {
      if disposed { return; }
      store.ClearTranslationFailed(id);
      attempts := attempts - {id};
      DropRetry(id);
      EnqueueIds([id], 0, now);
    }

    method HandleDispose()
      modifies this, store
      ensures View() == OnDispose(old(View()))
    {
      disposed := true;
      connected := false;
      Reset();
      store.ClearAllPending();
    }

    method PushTimerFires(id: Id, now: int)
      modifies this, store
      ensures View() == OnPushTimer(env, old(View()), id, now)
    {
      if id !in pushWait { return; }
      pushWait := pushWait - {id};
      EnqueueIds([id], 0, now);
    }

    method RetryTimerFires(id: Id, now: int)
      modifies this, store
      ensures View() == OnRetryTimer(env, old(View()), id, now)
    {
      if id !in retryTimers { return; }
      retryTimers := retryTimers - {id};
      EnqueueIds([id], 0, now);
    }

    method BatchTimerFires(now: int)
      modifies this, store
      ensures View() == OnBatchTimer(env, old(View()), now)
    {
      if !batchTimer || now < batchTimerAt { return; }
      batchTimer := false;
      SendBatch(now);
    }
  }
}
