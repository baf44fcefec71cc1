/** What messages, pushes and replies leave behind. */
module TranslationReplies {
  import opened Prelude
  import opened ChatStoreModel
  import opened TranslationModel
  import opened TranslationInvariants
  import opened TranslationSteps

  /** The texts of the store after a change that brings `text` for the id in the languages of `texts`, and nothing else. */
  ghost predicate TextsGrow(s: Store, t: Store, id: Id, texts: Payload) {
    forall x: Id, lang: Lang ::
      if x == id && lang in texts && texts[lang].Some? then HasText(t, x, lang) && t.translations[x][lang] == texts[lang].value
      else SameText(s, t, x, lang)
  }

  ghost predicate SameText(s: Store, t: Store, id: Id, lang: Lang) {
    (HasText(t, id, lang) <==> HasText(s, id, lang)) && (HasText(s, id, lang) ==> t.translations[id][lang] == s.translations[id][lang])
  }

  /** A wanted message waits 15 s for the server's push, marked. */
  lemma MessageWaits(env: Env, st: State, id: Id, now: int)
    ensures Step(env, st, Message(id), now) ==
      if Active(st) && Wanted(env, st.store, st.myLang.value, id)
      then st.(store := st.store.(pending := st.store.pending + {id}), pushWait := st.pushWait[id := now + 15_000])
      else st
  {
    if st.myLang.Some? { WantedIsEligible(env, st); }
    hide Wanted, Eligible;
  }

  lemma MergedTexts(s: Store, id: Id, texts: Payload)
    ensures TextsGrow(s, s.(translations := MergeOne(s.translations, id, texts)), id, texts)
  {
    hide MergeOne;
    var t := s.(translations := MergeOne(s.translations, id, texts));
    forall x: Id, lang: Lang
      ensures if x == id && lang in texts && texts[lang].Some? then HasText(t, x, lang) && t.translations[x][lang] == texts[lang].value
              else SameText(s, t, x, lang)
    {
      MergeOneTells(s.translations, (id, texts), x, lang);
    }
  }

  lemma TextsOnly(s: Store, t: Store, r: Store, id: Id, texts: Payload)
    requires TextsGrow(s, t, id, texts) && r.translations == t.translations
    ensures TextsGrow(s, r, id, texts)
  {
    forall x: Id, lang: Lang
      ensures if x == id && lang in texts && texts[lang].Some? then HasText(r, x, lang) && r.translations[x][lang] == texts[lang].value
              else SameText(s, r, x, lang)
    {
      assert HasText(t, x, lang) == HasText(r, x, lang);
      assert SameText(s, t, x, lang) ==> SameText(s, r, x, lang);
    }
  }

  lemma {:induction false} WithoutKeepsOrder(ids: seq<Id>, id: Id)
    ensures InListOrder(Without(ids, id), ids) && forall x :: x in Without(ids, id) <==> x in ids && x != id
  {
    if ids != [] {
      var n := |ids| - 1;
      WithoutKeepsOrder(ids[..n], id);
      var kept, all := Without(ids[..n], id), Without(ids, id);
      assert ids == ids[..n] + [ids[n]];
      forall k, l | 0 <= k < l < |all| ensures Precedes(ids, all[k], all[l]) {
        if l < |kept| { PrecedesInFront(ids[..n], ids[n], kept[k], kept[l]); }
        else { PrecedesLast(ids[..n], ids[n], kept[k]); }
      }
    }
  }

  lemma PrecedesInFront(list: seq<Id>, last: Id, a: Id, b: Id)
    requires Precedes(list, a, b)
    ensures Precedes(list + [last], a, b)
  {
    var i, j :| 0 <= i < j < |list| && list[i] == a && list[j] == b;
    assert (list + [last])[i] == a && (list + [last])[j] == b;
  }

  lemma PrecedesLast(list: seq<Id>, last: Id, a: Id)
    requires a in list
    ensures Precedes(list + [last], a, last)
  {
    var i :| 0 <= i < |list| && list[i] == a;
    assert (list + [last])[i] == a && (list + [last])[|list|] == last;
  }

  /** What a push does to the waits of its id, apart from its texts. */
  ghost predicate PushSettles(st: State, t: State, id: Id, texts: Payload, failed: set<Lang>, now: int)
    requires st.myLang.Some?
  {
    var lang := st.myLang.value;
    if lang in texts && texts[lang].Some? then
      && t == st.(store := t.store, pushWait := st.pushWait - {id}, retryTimers := st.retryTimers - {id}, attempts := st.attempts - {id},
                  candidates := t.candidates, candidateSet := st.candidateSet - {id})
      && t.store.pending == st.store.pending - {id}
      && InListOrder(t.candidates, st.candidates) && (forall x :: x in t.candidates <==> x in st.candidates && x != id)
    else if lang in failed then
      t == st.(store := t.store, pushWait := st.pushWait - {id},
               retryTimers := if st.auto then st.retryTimers[id := now + 15_000] else st.retryTimers)
      && t.store.pending == st.store.pending
    else if texts == map[] && failed == {} then
      t == st.(store := t.store, pushWait := st.pushWait - {id}) && t.store.pending == st.store.pending - {id}
    else t == st.(store := t.store) && t.store.pending == st.store.pending
  }

  /** A push: its strings go to the store, and a text, a failure or an empty push ends or renews the waits of its id. */
  lemma PushArrives(env: Env, st: State, id: Id, texts: Payload, failed: set<Lang>, now: int)
    requires !st.disposed && QueueMatches(st.candidates, st.candidateSet)
    ensures var t := Step(env, st, Pushed(id, texts, failed), now);
      && TextsGrow(st.store, t.store, id, texts)
      && t.store.messages == st.store.messages && t.store.failed == st.store.failed
      && (if st.myLang.None? then t == st.(store := t.store) && t.store.pending == st.store.pending
          else PushSettles(st, t, id, texts, failed, now))
  {
    hide TextsGrow, MergeOne, PushSettles;
    var merged := st.store.(translations := MergeOne(st.store.translations, id, texts));
    MergedTexts(st.store, id, texts);
    PushedMarks(st, id, texts, failed, now);
    TextsOnly(st.store, merged, OnPushed(st, id, texts, failed, now).store, id, texts);
    if st.myLang.Some? { PushSettled(st, id, texts, failed, now); }
  }

  /** A text in the reader's language. */
  lemma PushedText(st: State, id: Id, texts: Payload, failed: set<Lang>, now: int)
    requires !st.disposed && st.myLang.Some? && st.myLang.value in texts && texts[st.myLang.value].Some?
    ensures var left := RemoveCandidate(st, id);
      OnPushed(st, id, texts, failed, now) ==
      st.(store := st.store.(translations := MergeOne(st.store.translations, id, texts), pending := st.store.pending - {id}),
          pushWait := st.pushWait - {id}, retryTimers := st.retryTimers - {id}, attempts := st.attempts - {id},
          candidates := left.candidates, candidateSet := left.candidateSet)
  {
    hide MergeOne, Without;
  }

  /** No such text. */
  lemma PushedOther(st: State, id: Id, texts: Payload, failed: set<Lang>, now: int)
    requires !st.disposed && !(st.myLang.Some? && st.myLang.value in texts && texts[st.myLang.value].Some?)
    ensures var merged := st.store.(translations := MergeOne(st.store.translations, id, texts));
      OnPushed(st, id, texts, failed, now) ==
      if st.myLang.None? then st.(store := merged)
      else if st.myLang.value in failed then
        st.(store := merged, pushWait := st.pushWait - {id},
            retryTimers := if st.auto then st.retryTimers[id := now + 15_000] else st.retryTimers)
      else if texts == map[] && failed == {} then
        st.(store := merged.(pending := merged.pending - {id}), pushWait := st.pushWait - {id})
      else st.(store := merged)
  {
    hide MergeOne;
  }

  lemma PushedMarks(st: State, id: Id, texts: Payload, failed: set<Lang>, now: int)
    requires !st.disposed && QueueMatches(st.candidates, st.candidateSet)
    ensures OnPushed(st, id, texts, failed, now).store ==
      st.store.(translations := MergeOne(st.store.translations, id, texts), pending := OnPushed(st, id, texts, failed, now).store.pending)
    ensures st.myLang.None? ==> OnPushed(st, id, texts, failed, now) == st.(store := st.store.(translations := MergeOne(st.store.translations, id, texts)))
  {
    hide MergeOne, OnPushed, RemoveCandidate, QueueMatches;
    if st.myLang.Some? && st.myLang.value in texts && texts[st.myLang.value].Some? { PushedText(st, id, texts, failed, now); }
    else { PushedOther(st, id, texts, failed, now); }
  }

  lemma PushSettled(st: State, id: Id, texts: Payload, failed: set<Lang>, now: int)
    requires !st.disposed && st.myLang.Some? && QueueMatches(st.candidates, st.candidateSet)
    ensures PushSettles(st, OnPushed(st, id, texts, failed, now), id, texts, failed, now)
  {
    hide InListOrder, MergeOne, OnPushed, RemoveCandidate, QueueMatches, Without;
    if st.myLang.value in texts && texts[st.myLang.value].Some? {
      PushedText(st, id, texts, failed, now);
      CandidateLeaves(st, id);
      WithoutKeepsOrder(st.candidates, id);
      SameOrder(st.candidates);
    } else {
      PushedOther(st, id, texts, failed, now);
    }
  }

  lemma CandidateLeaves(st: State, id: Id)
    requires QueueMatches(st.candidates, st.candidateSet)
    ensures RemoveCandidate(st, id).candidateSet == st.candidateSet - {id}
    ensures RemoveCandidate(st, id).candidates == (if id in st.candidates then Without(st.candidates, id) else st.candidates)
  {
    assert id in st.candidates <==> id in st.candidateSet;
  }

  lemma SameOrder(ids: seq<Id>)
    ensures InListOrder(ids, ids)
  {
  }

  /** The end: nothing is waited for, marked or queued any more. */
  lemma DisposeEnds(env: Env, st: State, now: int)
    ensures Step(env, st, Dispose, now) ==
      st.(disposed := true, connected := false, pushWait := map[], retryTimers := map[], attempts := map[], batchTimer := None,
          inFlight := None, candidates := [], candidateSet := {}, store := st.store.(pending := {}))
  {
  }

  // ---- replies ----

  function Failures(st: State, id: Id): nat { if id in st.attempts then st.attempts[id] else 0 }

  /** One more failure: again after 10 s, then after 30 s, or when the provider said; the third is final. */
  ghost predicate FailedOnceMore(st: State, t: State, id: Id, wait: Option<int>, now: int) {
    if Failures(st, id) >= 2 then
      id in t.store.failed && id !in t.store.pending && id !in t.attempts && (id in t.retryTimers <==> id in st.retryTimers)
    else
      && id in t.retryTimers && id in t.attempts && t.attempts[id] == Failures(st, id) + 1
      && t.retryTimers[id] == now + (if wait.Some? then wait.value else if Failures(st, id) == 0 then 10_000 else 30_000)
      && (id in t.store.failed <==> id in st.store.failed)
  }

  /** Scheduling touches the queue, the request and marks only. */
  lemma ScheduleTouches(env: Env, st: State, now: int)
    requires QueueMatches(st.candidates, st.candidateSet)
    ensures var t := ScheduleBatch(env, st, 0, now);
      && t.attempts == st.attempts && t.retryTimers == st.retryTimers && t.pushWait == st.pushWait
      && t.store == st.store.(pending := t.store.pending) && t.store.pending <= st.store.pending
      && (t.inFlight == st.inFlight || (t.inFlight.Some? && t.inFlight.value.serial == st.serial))
  {
    hide RunBatch, Sending, Wanted;
    var at := BatchDueAt(st, 0, now);
    if Active(st) && st.inFlight.None? {
      var items, k := RunBatchSends(env, st.(batchTimer := None), now);
      SendingFrame(env, st.(batchTimer := None), RunBatch(env, st.(batchTimer := None), now), now, items, k);
      SendingMarks(env, st.(batchTimer := None), RunBatch(env, st.(batchTimer := None), now), now, items, k);
    } else {
      IdleBatch(env, st.(batchTimer := None), now);
    }
  }

  lemma SendingMarks(env: Env, st: State, t: State, now: int, items: seq<Id>, k: nat)
    requires st.myLang.Some? && Sending(env, st, t, now, items, k)
    ensures t.store.pending <= st.store.pending && (t.inFlight == st.inFlight || (t.inFlight.Some? && t.inFlight.value.serial == st.serial))
  {
    hide Wanted, WantedAmong;
  }

  lemma IdleBatch(env: Env, st: State, now: int)
    requires !(Active(st) && st.inFlight.None?)
    ensures RunBatch(env, st, now) == st
  {
  }

  lemma TriesAreFailures(st: State, t: State, id: Id, wait: Option<int>, now: int)
    requires Retried(st, t, id, Tries(st, id), wait, now)
    ensures FailedOnceMore(st, t, id, wait, now)
  {
  }

  /** Nothing of this is undone by what is scheduled afterwards. */
  lemma FailureStands(st: State, t: State, u: State, id: Id, wait: Option<int>, now: int)
    requires FailedOnceMore(st, t, id, wait, now)
    requires u.attempts == t.attempts && u.retryTimers == t.retryTimers && u.store.failed == t.store.failed && u.store.pending <= t.store.pending
    ensures FailedOnceMore(st, u, id, wait, now)
  {
  }

  /** A reply to another request than the one in flight is ignored. */
  lemma LateReplyIgnored(env: Env, st: State, serial: nat, reply: Reply, now: int)
    requires st.inFlight.None? || st.inFlight.value.serial != serial
    ensures Step(env, st, Replied(serial, reply), now) == st
  {
  }

  /** A request that failed as a whole: each of its ids has failed once more, after a 429 with the server's wait or 10 s. */
  lemma RejectionRetries(env: Env, st: State, reply: Reply, now: int, id: Id)
    requires Inv(env, st) && st.inFlight.Some? && reply.Rejected? && id in st.inFlight.value.ids
    ensures var t := Step(env, st, Replied(st.inFlight.value.serial, reply), now);
      var wait := if !reply.rateLimited then None else if reply.retryAfterMs.Some? then reply.retryAfterMs else Some(10_000);
      FailedOnceMore(st, t, id, wait, now)
  {
    hide ScheduleBatch, ScheduleRetries, Retried, FailedOnceMore;
    var r := st.inFlight.value;
    var wait := if !reply.rateLimited then None else if reply.retryAfterMs.Some? then reply.retryAfterMs else Some(10_000);
    var failed := ScheduleRetries(st, r.ids, wait, now);
    assert Fail(st, r.ids, reply, now) == failed;
    ThreeTries(st, r.ids, wait, now, id);
    TriesAreFailures(st, failed, id, wait, now);
    FailKeeps(env, st, reply, now);
    ScheduleTouches(env, failed.(inFlight := None), now);
    FailureStands(st, failed, Step(env, st, Replied(r.serial, reply), now), id, wait, now);
  }

  /** Whatever is merged for an id and a language, if it is always the same text, is that text. */
  lemma {:induction false} EntriesTell(ids: seq<Id>, reply: Reply, lang: Lang, k: nat)
    requires reply.Answer? && k < |EntriesOf(ids, reply, lang)|
    ensures var entry := EntriesOf(ids, reply, lang)[k];
      entry.0 in ids && entry.0 in reply.translated && entry.1 == map[lang := Some(reply.translated[entry.0])]
  {
    var n := |ids| - 1;
    if k < |EntriesOf(ids[..n], reply, lang)| { EntriesTell(ids[..n], reply, lang, k); }
  }

  lemma {:induction false} LastBringing(entries: seq<(Id, Payload)>, id: Id, lang: Lang, k: nat) returns (last: nat)
    requires k < |entries| && Brings(entries[k], id, lang)
    ensures last < |entries| && Brings(entries[last], id, lang) && forall j :: last < j < |entries| ==> !Brings(entries[j], id, lang)
    decreases |entries| - k
  {
    hide Brings;
    if j :| k < j < |entries| && Brings(entries[j], id, lang) { last := LastBringing(entries, id, lang, j); } else { last := k; }
  }

  /** The texts a reply leaves in the store: its own for the ids it was asked for, everything else as before. */
  lemma MergedAnswer(current: map<Id, map<Lang, string>>, ids: seq<Id>, reply: Reply, asked: Lang, id: Id, lang: Lang)
    requires reply.Answer?
    ensures var m := MergeAll(current, EntriesOf(ids, reply, asked));
      if id in ids && id in reply.translated && lang == asked then id in m && lang in m[id] && m[id][lang] == reply.translated[id]
      else (id in m && lang in m[id] <==> id in current && lang in current[id]) &&
           (id in current && lang in current[id] ==> m[id][lang] == current[id][lang])
  {
    hide EntriesOf, MergeAll;
    var entries := EntriesOf(ids, reply, asked);
    forall k | 0 <= k < |entries| && Brings(entries[k], id, lang)
      ensures id in ids && id in reply.translated && lang == asked && entries[k].1[lang] == Some(reply.translated[id])
    {
      EntriesTell(ids, reply, asked, k);
    }
    if id in ids && id in reply.translated && lang == asked {
      var k := EntriesHold(ids, reply, asked, id);
      var last := LastBringing(entries, id, lang, k);
      LastTextStays(current, entries, id, lang, last);
    } else {
      MergeLeaves(current, entries, id, lang);
    }
  }

  lemma {:induction false} FailedOnce(ids: seq<Id>, reply: Reply)
    requires reply.Answer? && NoDup(ids)
    ensures NoDup(FailedOf(ids, reply)) && forall id :: id in FailedOf(ids, reply) <==> id in ids && Unanswered(reply, id)
  {
    if ids != [] {
      var n := |ids| - 1;
      FailedOnce(ids[..n], reply);
      assert ids == ids[..n] + [ids[n]] && ids[n] !in ids[..n];
    }
  }

  /** What settling an answer leaves for an id of the request. */
  lemma SettledId(st: State, ids: seq<Id>, reply: Reply, lang: Lang, now: int, id: Id)
    requires reply.Answer? && NoDup(ids) && id in ids
    ensures var t := Settle(st, ids, reply, lang, now);
      if id !in reply.translated && id in reply.failed then FailedOnceMore(st, t, id, None, now)
      else id !in t.store.pending && id !in t.attempts
  {
    hide ScheduleRetries, EntriesOf, FailedOf, MergeAll, FailedOnceMore, Retried, NoDup;
    var answered, failed := Answered(st, ids, reply, lang), FailedOf(ids, reply);
    FailedOnce(ids, reply);
    var t := ScheduleRetries(answered, failed, None, now);
    assert Settle(st, ids, reply, lang, now) == t;
    if id in failed {
      ThreeTries(answered, failed, None, now, id);
      TriesAreFailures(answered, t, id, None, now);
      FailureFrom(answered, st, t, id, now);
    } else {
      RetriesLeaveOthers(answered, failed, None, now, id);
    }
  }

  lemma FailureFrom(answered: State, st: State, t: State, id: Id, now: int)
    requires FailedOnceMore(answered, t, id, None, now)
    requires Failures(answered, id) == Failures(st, id) && answered.retryTimers == st.retryTimers && answered.store.failed == st.store.failed
    ensures FailedOnceMore(st, t, id, None, now)
  {
  }

  lemma SettledTexts(st: State, ids: seq<Id>, reply: Reply, lang: Lang, now: int)
    requires reply.Answer?
    ensures Settle(st, ids, reply, lang, now).store.translations == MergeAll(st.store.translations, EntriesOf(ids, reply, lang))
  {
    hide ScheduleRetries, EntriesOf, FailedOf, MergeAll;
    RetriesKeepTexts(Answered(st, ids, reply, lang), FailedOf(ids, reply), None, now);
  }

  /**
    * A reply to the request in flight: an id it translates has its text, an id it says nothing of is done, and neither is
    * marked or counted any more; an id it reports as failed has failed once more.
    */
  lemma AnswerSettles(env: Env, st: State, reply: Reply, now: int, id: Id)
    requires Inv(env, st) && st.inFlight.Some? && reply.Answer? && id in st.inFlight.value.ids
    ensures var r, t := st.inFlight.value, Step(env, st, Replied(st.inFlight.value.serial, reply), now);
      if id in reply.translated then
        HasText(t.store, id, r.lang) && t.store.translations[id][r.lang] == reply.translated[id] && id !in t.store.pending && id !in t.attempts
      else if id in reply.failed then FailedOnceMore(st, t, id, None, now)
      else id !in t.store.pending && id !in t.attempts
  {
    hide ScheduleBatch, Settle, FailedOnceMore, EntriesOf, MergeAll;
    var r := st.inFlight.value;
    var settled := Settle(st, r.ids, reply, r.lang, now);
    SettledId(st, r.ids, reply, r.lang, now, id);
    SettledTexts(st, r.ids, reply, r.lang, now);
    MergedAnswer(st.store.translations, r.ids, reply, r.lang, id, r.lang);
    SettleKeeps(env, st, reply, now);
    ScheduleTouches(env, settled.(inFlight := None), now);
    if id !in reply.translated && id in reply.failed {
      FailureStands(st, settled, Step(env, st, Replied(r.serial, reply), now), id, None, now);
    }
  }

  /** Nothing but the ids asked for, in the language they were asked for, changes its text. */
  lemma AnswerLeavesOtherTexts(env: Env, st: State, reply: Reply, now: int, id: Id, lang: Lang)
    requires Inv(env, st) && st.inFlight.Some? && reply.Answer?
    requires !(id in st.inFlight.value.ids && lang == st.inFlight.value.lang && id in reply.translated)
    ensures SameText(st.store, Step(env, st, Replied(st.inFlight.value.serial, reply), now).store, id, lang)
  {
    hide ScheduleBatch, Settle, EntriesOf, MergeAll;
    var r := st.inFlight.value;
    SettledTexts(st, r.ids, reply, r.lang, now);
    MergedAnswer(st.store.translations, r.ids, reply, r.lang, id, lang);
    SettleKeeps(env, st, reply, now);
    ScheduleTouches(env, Settle(st, r.ids, reply, r.lang, now).(inFlight := None), now);
  }

  /** A new message list keeps exactly the marks and the texts of its ids, and the last text brought for an id is its text. */
  lemma ReplacedStore(env: Env, st: State, messages: seq<Id>, entries: seq<(Id, Payload)>, now: int, id: Id)
    ensures var t := Step(env, st, StoreReplaced(messages, entries), now);
      && t == st.(store := t.store) && t.store.messages == messages
      && (id in t.store.pending <==> id in st.store.pending && id in messages)
      && (id in t.store.failed <==> id in st.store.failed && id in messages)
      && (id !in messages ==> id !in t.store.translations)
      && (id in messages ==> forall lang: Lang ::
           (forall k :: 0 <= k < |entries| && LastToBring(entries, k, id, lang) ==>
              HasText(t.store, id, lang) && t.store.translations[id][lang] == TextBrought(entries[k], id, lang)) &&
           ((forall k :: 0 <= k < |entries| ==> !Brings(entries[k], id, lang)) ==> SameText(st.store, t.store, id, lang)))
  {
    hide MergeAll, Brings, LastToBring, TextBrought;
    var t := Step(env, st, StoreReplaced(messages, entries), now);
    var merged := MergeAll(st.store.translations, entries);
    assert t.store.translations == map x | x in merged && x in messages :: merged[x];
    forall lang: Lang, k | id in messages && 0 <= k < |entries| && LastToBring(entries, k, id, lang)
      ensures HasText(t.store, id, lang) && t.store.translations[id][lang] == TextBrought(entries[k], id, lang)
    {
      LastIsTold(st.store.translations, entries, k, id, lang);
    }
    forall lang: Lang | id in messages && forall k :: 0 <= k < |entries| ==> !Brings(entries[k], id, lang)
      ensures SameText(st.store, t.store, id, lang)
    {
      MergeLeaves(st.store.translations, entries, id, lang);
    }
  }

  ghost predicate LastToBring(entries: seq<(Id, Payload)>, k: nat, id: Id, lang: Lang)
    requires k < |entries|
  {
    Brings(entries[k], id, lang) && forall j :: k < j < |entries| ==> !Brings(entries[j], id, lang)
  }

  function TextBrought(entry: (Id, Payload), id: Id, lang: Lang): string {
    if Brings(entry, id, lang) then entry.1[lang].value else ""
  }

  lemma LastIsTold(current: map<Id, map<Lang, string>>, entries: seq<(Id, Payload)>, k: nat, id: Id, lang: Lang)
    requires k < |entries| && LastToBring(entries, k, id, lang)
    ensures var m := MergeAll(current, entries); id in m && lang in m[id] && m[id][lang] == TextBrought(entries[k], id, lang)
  {
    hide MergeAll;
    LastTextStays(current, entries, id, lang, k);
  }

  // ---- nobody waits long ----

  /** With a clock that has not run backwards: no request lies ahead, and the timer is due within the second. */
  ghost predicate Near(st: State, clock: int) {
    (st.lastRequestAt.Some? ==> st.lastRequestAt.value <= clock) && (st.batchTimer.Some? ==> st.batchTimer.value <= clock + 1_000)
  }

  lemma RunBatchNear(env: Env, st: State, now: int)
    requires Near(st, now)
    ensures Near(RunBatch(env, st, now), now)
  {
    hide TakeBatch;
    if Active(st) && st.inFlight.None? { BatchLeavesTimes(env, st, [], 0); }
  }

  lemma {:induction false} BatchLeavesTimes(env: Env, st: State, items: seq<Id>, chars: nat)
    requires st.myLang.Some?
    ensures var t := TakeBatch(env, st, items, chars).0; t.lastRequestAt == st.lastRequestAt && t.batchTimer == st.batchTimer
    decreases |st.candidates|
  {
    hide Eligible;
    if st.candidates != [] {
      var id := st.candidates[0];
      var shifted := st.(candidates := st.candidates[1..], candidateSet := st.candidateSet - {id});
      BatchLeavesTimes(env, ClearPending(shifted, {id}), items, chars);
      BatchLeavesTimes(env, shifted, items + [id], chars + |env.text(id)|);
    }
  }

  lemma ScheduleNear(env: Env, st: State, delay: int, now: int)
    requires Near(st, now) && delay <= 1_000
    ensures Near(ScheduleBatch(env, st, delay, now), now)
  {
    hide RunBatch;
    RunBatchNear(env, st.(batchTimer := None), now);
  }

  lemma {:induction false} CollectLeavesTimes(env: Env, st: State, ids: seq<Id>)
    requires st.myLang.Some?
    ensures var t := Collect(env, st, ids); t.lastRequestAt == st.lastRequestAt && t.batchTimer == st.batchTimer
    decreases |ids|
  {
    hide Joins;
    if ids != [] { CollectLeavesTimes(env, if Joins(env, st, ids[0]) then TranslationModel.Joined(st, ids[0]) else st, ids[1..]); }
  }

  lemma EnqueueNear(env: Env, st: State, ids: seq<Id>, delay: int, now: int)
    requires Near(st, now) && delay <= 1_000
    ensures Near(Enqueue(env, st, ids, delay, now), now)
  {
    hide Collect, ScheduleBatch;
    if Active(st) {
      CollectLeavesTimes(env, st, ids);
      var collected := Collect(env, st, ids);
      var added := collected.candidateSet - st.candidateSet;
      ScheduleNear(env, collected.(store := collected.store.(pending := collected.store.pending + added)), delay, now);
    }
  }

  lemma ScanNear(env: Env, st: State, now: int)
    requires Near(st, now)
    ensures Near(ScanStore(env, st, now), now)
  {
    hide Enqueue, Recent;
    if st.auto && st.myLang.Some? { EnqueueNear(env, st, Recent(env, st), HISTORY_FIRST_BATCH_DELAY_MS, now); }
  }

  lemma {:induction false} RetriesLeaveTimes(st: State, ids: seq<Id>, override: Option<int>, now: int)
    ensures var t := ScheduleRetries(st, ids, override, now); t.lastRequestAt == st.lastRequestAt && t.batchTimer == st.batchTimer
    decreases |ids|
  {
    if ids != [] { RetriesLeaveTimes(ScheduleRetry(st, ids[0], override, now), ids[1..], override, now); }
  }

  lemma ReplyNear(env: Env, st: State, serial: nat, reply: Reply, now: int)
    requires Near(st, now)
    ensures Near(OnReply(env, st, serial, reply, now), now)
  {
    hide ScheduleRetries, ScheduleBatch, MergeAll, EntriesOf, FailedOf, DoneOf;
    if st.inFlight.Some? && st.inFlight.value.serial == serial {
      var r := st.inFlight.value;
      var settled := if reply.Answer? then Settle(st, r.ids, reply, r.lang, now) else Fail(st, r.ids, reply, now);
      if reply.Answer? {
        RetriesLeaveTimes(Answered(st, r.ids, reply, r.lang), FailedOf(r.ids, reply), None, now);
      } else {
        var override := if reply.rateLimited then Some(reply.retryAfterMs.GetOr(RETRY_DELAYS_MS[0])) else None;
        RetriesLeaveTimes(st, r.ids, override, now);
      }
      ScheduleNear(env, settled.(inFlight := None), 0, now);
    }
  }

  lemma AskNear(env: Env, st: State, e: Event, now: int)
    requires Near(st, now) && Asks(e)
    ensures Near(Step(env, st, e, now), now)
  {
    hide Enqueue, Step;
    if st.disposed {
      DisposedAsks(env, st, e, now);
    } else {
      var ids := AskIsEnqueue(env, st, e, now);
      EnqueueNear(env, Noted(st, e), ids, 0, now);
    }
  }

  lemma DisposedAsks(env: Env, st: State, e: Event, now: int)
    requires st.disposed && Asks(e)
    ensures Step(env, st, e, now).lastRequestAt == st.lastRequestAt && Step(env, st, e, now).batchTimer == st.batchTimer
  {
  }

  lemma PushLeavesTimes(st: State, id: Id, texts: Payload, failed: set<Lang>, now: int)
    ensures var t := OnPushed(st, id, texts, failed, now); t.lastRequestAt == st.lastRequestAt && t.batchTimer == st.batchTimer
  {
    hide MergeOne, OnPushed, RemoveCandidate;
    if st.disposed { DisposedPush(st, id, texts, failed, now); }
    else if st.myLang.Some? && st.myLang.value in texts && texts[st.myLang.value].Some? { PushedText(st, id, texts, failed, now); }
    else { PushedOther(st, id, texts, failed, now); }
  }

  lemma DisposedPush(st: State, id: Id, texts: Payload, failed: set<Lang>, now: int)
    requires st.disposed
    ensures OnPushed(st, id, texts, failed, now) == st
  {
  }

  lemma MessageLeavesTimes(env: Env, st: State, id: Id, now: int)
    ensures var t := OnMessage(env, st, id, now); t.lastRequestAt == st.lastRequestAt && t.batchTimer == st.batchTimer
  {
    hide Eligible;
  }

  lemma StepNear(env: Env, st: State, e: Event, now: int)
    requires Near(st, now)
    ensures Near(Step(env, st, e, now), now)
  {
    if Restarts(st, e) {
      RestartScans(env, st, e, now);
      ScanNear(env, Cleared(st, e), now);
    } else if Asks(e) {
      AskNear(env, st, e, now);
    } else {
      hide ScanStore, OnReply, RunBatch, OnPushed, Replace, OnMessage;
      match e
      case History => if !st.disposed { ScanNear(env, DropArrived(st, st.pushWait.Keys), now); }
      case BatchTimer => RunBatchNear(env, st.(batchTimer := None), now);
      case Replied(serial, reply) => ReplyNear(env, st, serial, reply, now);
      case Message(id) => MessageLeavesTimes(env, st, id, now);
      case Pushed(id, texts, failed) => PushLeavesTimes(st, id, texts, failed, now);
      case StoreReplaced(_, _) =>
      case Dispose =>
      case _ => NoRestart(env, st, e, now);
    }
  }

  lemma NoRestart(env: Env, st: State, e: Event, now: int)
    requires !Restarts(st, e) && (e.Connect? || e.LanguageChange? || e.AutoTranslateChange?)
    ensures Step(env, st, e, now) == st
  {
    hide ScanStore;
    if e.LanguageChange? { assert EffectiveLang(e.lang) == Known(e.lang); }
  }

  ghost predicate Timely(events: seq<(int, Event)>) {
    forall i, j :: 0 <= i <= j < |events| ==> events[i].0 <= events[j].0
  }

  lemma {:induction false} RunNear(env: Env, events: seq<(int, Event)>)
    requires Timely(events)
    ensures events == [] ==> Run(env, INITIAL, events) == INITIAL
    ensures events != [] ==> Near(Run(env, INITIAL, events), events[|events| - 1].0)
  {
    hide Step;
    if events != [] {
      var n := |events| - 1;
      RunNear(env, events[..n]);
      StepNear(env, Run(env, INITIAL, events[..n]), events[n].1, events[n].0);
    }
  }

  /** In every run whose clock does not run backwards, queued ids wait for the request in flight or for a timer due within the second. */
  lemma QueueIsServedSoon(env: Env, events: seq<(int, Event)>)
    requires Timely(events) && Run(env, INITIAL, events).candidates != []
    ensures var st := Run(env, INITIAL, events);
      st.inFlight.Some? || (st.batchTimer.Some? && events != [] && st.batchTimer.value <= events[|events| - 1].0 + 1_000)
  {
    RunNear(env, events);
    CandidatesAreServed(env, events);
  }
}
