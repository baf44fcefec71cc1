/** The chat-translation sync machine as a transition function on values (web/src/chat/translationSync.js). */
module TranslationModel {
  import opened Prelude
  import opened ChatStoreModel

  const PUSH_WAIT_MS := 15_000
  const HISTORY_FIRST_BATCH_DELAY_MS := 1_000
  const HISTORY_FIRST_BATCH_COUNT := 50
  const BATCH_MAX_ITEMS := 20
  const BATCH_MAX_CHARS := 2_000
  const BATCH_MIN_INTERVAL_MS := 1_000
  const RETRY_DELAYS_MS := [10_000, 30_000]

  datatype Script = NoScript | Ko | Ja | Ru | Latin | Han | Mixed

  // The fixed text of each id, and the script test on texts, both left open.
  datatype Env = Env(text: Id -> string, script: string -> Script)

  // A batch request; the serial stands for the identity of the request object.
  datatype Request = Request(serial: nat, ids: seq<Id>, lang: Lang)

  // A request in the history of requests sent.
  datatype Batch = Batch(at: int, ids: seq<Id>)

  datatype Reply =
    | Answer(translated: map<Id, string>, failed: set<Id>)
    | Rejected(rateLimited: bool, retryAfterMs: Option<int>)

  datatype State = State(
    store: Store,
    myLang: Option<Lang>,
    auto: bool,
    connected: bool,
    disposed: bool,
    pushWait: map<Id, int>,      // id -> time the wait ends
    retryTimers: map<Id, int>,   // id -> time of the retry
    attempts: map<Id, nat>,
    candidates: seq<Id>,
    candidateSet: set<Id>,
    inFlight: Option<Request>,
    batchTimer: Option<int>,     // time the armed batch timer is due
    lastRequestAt: Option<int>,  // None before the first request
    serial: nat,
    sent: seq<Batch>)

  const INITIAL: State :=
    State(Store([], map[], {}, {}), None, false, false, false, map[], map[], map[], [], {}, None, None, None, 0, [])

  function UnambiguousLang(script: Script): Option<Lang> {
    match script
    case Ko => Some("ko")
    case Ja => Some("ja")
    case Ru => Some("ru")
    case _ => None
  }

  function EffectiveLang(language: Lang): Lang {
    if language in ["ko", "en", "ja", "zh", "ru"] then language else "en"
  }

  /** The text has letters and is not surely in the reader's language already. */
  predicate Translatable(env: Env, lang: Lang, id: Id) {
    env.script(env.text(id)) != NoScript && UnambiguousLang(env.script(env.text(id))) != Some(lang)
  }

  predicate Active(st: State) {
    !st.disposed && st.auto && st.myLang.Some?
  }

  predicate HasMine(st: State, id: Id)
    requires st.myLang.Some?
  {
    HasText(st.store, id, st.myLang.value)
  }

  predicate Eligible(env: Env, st: State, id: Id)
    requires st.myLang.Some?
  {
    id in st.store.messages && Translatable(env, st.myLang.value, id) && !HasMine(st, id)
  }

  predicate Requested(st: State, id: Id) {
    st.inFlight.Some? && id in st.inFlight.value.ids
  }

  function ClearPending(st: State, ids: set<Id>): State {
    st.(store := st.store.(pending := st.store.pending - ids))
  }

  function ClearWait(st: State, id: Id): State {
    st.(pushWait := st.pushWait - {id})
  }

  function ClearRetry(st: State, id: Id): State {
    st.(retryTimers := st.retryTimers - {id})
  }

  function RemoveCandidate(st: State, id: Id): State {
    if id !in st.candidateSet then st
    else st.(candidateSet := st.candidateSet - {id}, candidates := Without(st.candidates, id))
  }

  function Without(ids: seq<Id>, id: Id): seq<Id> {
    if ids == [] then []
    else Without(ids[..|ids| - 1], id) + (if ids[|ids| - 1] == id then [] else [ids[|ids| - 1]])
  }

  // ---- batches ----

  /** takeBatch: `items` so far, holding `chars` characters. */
  function TakeBatch(env: Env, st: State, items: seq<Id>, chars: nat): (r: (State, seq<Id>))
    requires st.myLang.Some?
    ensures r.0.myLang == st.myLang
    decreases |st.candidates|
  {
    if st.candidates == [] then (st, items)
    else
      var id := st.candidates[0];
      var shifted := st.(candidates := st.candidates[1..], candidateSet := st.candidateSet - {id});
      if !Eligible(env, st, id) then
        TakeBatch(env, ClearPending(shifted, {id}), items, chars)
      else if items != [] && (|items| >= BATCH_MAX_ITEMS || chars + |env.text(id)| > BATCH_MAX_CHARS) then
        (st, items)
      else
        TakeBatch(env, shifted, items + [id], chars + |env.text(id)|)
  }

  function RunBatch(env: Env, st: State, now: int): State {
    if !Active(st) || st.inFlight.Some? then st
    else
      var (taken, items) := TakeBatch(env, st, [], 0);
      if items == [] then taken else Sent(taken, items, now)
  }

  /** The request with the items of a batch is on its way. */
  function Sent(st: State, items: seq<Id>, now: int): State
    requires st.myLang.Some?
  {
    st.(inFlight := Some(Request(st.serial, items, st.myLang.value)),
        serial := st.serial + 1,
        lastRequestAt := Some(now),
        sent := st.sent + [Batch(now, items)])
  }

  function BatchDueAt(st: State, delay: int, now: int): int {
    match st.lastRequestAt
    case None => now + delay
    case Some(last) => Max(now + delay, last + BATCH_MIN_INTERVAL_MS)
  }

  function ScheduleBatch(env: Env, st: State, delay: int, now: int): State {
    if st.disposed || st.inFlight.Some? || st.candidates == [] then st
    else
      var at := BatchDueAt(st, delay, now);
      if st.batchTimer.Some? && at >= st.batchTimer.value then st
      else if at <= now then RunBatch(env, st.(batchTimer := None), now)
      else st.(batchTimer := Some(at))
  }

  /** The loop of enqueue: every eligible id that is neither a candidate nor in flight joins the candidates. */
  function Collect(env: Env, st: State, ids: seq<Id>): State
    requires st.myLang.Some?
    decreases |ids|
  {
    if ids == [] then st
    else
      Collect(env, if Joins(env, st, ids[0]) then Joined(st, ids[0]) else st, ids[1..])
  }

  predicate Joins(env: Env, st: State, id: Id)
    requires st.myLang.Some?
  {
    id !in st.candidateSet && !Requested(st, id) && Eligible(env, st, id)
  }

  function Joined(st: State, id: Id): State {
    ClearWait(st, id).(candidateSet := st.candidateSet + {id}, candidates := st.candidates + [id])
  }

  lemma CollectUnfolds(env: Env, st: State, ids: seq<Id>)
    requires st.myLang.Some?
    ensures ids == [] ==> Collect(env, st, ids) == st
    ensures ids != [] ==>
      Collect(env, st, ids) == Collect(env, if Joins(env, st, ids[0]) then Joined(st, ids[0]) else st, ids[1..])
  {
  }

  function Enqueue(env: Env, st: State, ids: seq<Id>, delay: int, now: int): State {
    if !Active(st) then st
    else
      var collected := Collect(env, st, ids);
      var added := collected.candidateSet - st.candidateSet;
      if added == {} then collected
      else
        ScheduleBatch(env, collected.(store := collected.store.(pending := collected.store.pending + added)), delay, now)
  }

  // ---- replies ----

  function ScheduleReenqueue(st: State, id: Id, delay: int, now: int): State {
    st.(retryTimers := st.retryTimers[id := now + delay])
  }

  function ScheduleRetry(st: State, id: Id, override: Option<int>, now: int): State {
    var n := if id in st.attempts then st.attempts[id] else 0;
    if n >= |RETRY_DELAYS_MS| then
      st.(attempts := st.attempts - {id},
          store := st.store.(failed := st.store.failed + {id}, pending := st.store.pending - {id}))
    else
      ScheduleReenqueue(st.(attempts := st.attempts[id := n + 1]), id, override.GetOr(RETRY_DELAYS_MS[n]), now)
  }

  function ScheduleRetries(st: State, ids: seq<Id>, override: Option<int>, now: int): State
    decreases |ids|
  {
    if ids == [] then st else ScheduleRetries(ScheduleRetry(st, ids[0], override, now), ids[1..], override, now)
  }

  predicate Unanswered(reply: Reply, id: Id)
    requires reply.Answer?
  {
    id !in reply.translated && id in reply.failed
  }

  function FailedOf(ids: seq<Id>, reply: Reply): seq<Id>
    requires reply.Answer?
  {
    if ids == [] then []
    else FailedOf(ids[..|ids| - 1], reply) + (if Unanswered(reply, ids[|ids| - 1]) then [ids[|ids| - 1]] else [])
  }

  function DoneOf(ids: seq<Id>, reply: Reply): set<Id>
    requires reply.Answer?
  {
    set id | id in ids && !Unanswered(reply, id)
  }

  function EntriesOf(ids: seq<Id>, reply: Reply, lang: Lang): seq<(Id, Payload)>
    requires reply.Answer?
  {
    if ids == [] then []
    else
      var id := ids[|ids| - 1];
      EntriesOf(ids[..|ids| - 1], reply, lang) +
      (if id in reply.translated then [(id, map[lang := Some(reply.translated[id])])] else [])
  }

  function Settle(st: State, ids: seq<Id>, reply: Reply, lang: Lang, now: int): State
    requires reply.Answer?
  {
    var merged := st.(store := st.store.(translations := MergeAll(st.store.translations, EntriesOf(ids, reply, lang))));
    var cleared := ClearPending(merged, DoneOf(ids, reply)).(attempts := st.attempts - DoneOf(ids, reply));
    ScheduleRetries(cleared, FailedOf(ids, reply), None, now)
  }

  function Fail(st: State, ids: seq<Id>, reply: Reply, now: int): State
    requires reply.Rejected?
  {
    if reply.rateLimited then ScheduleRetries(st, ids, Some(reply.retryAfterMs.GetOr(RETRY_DELAYS_MS[0])), now)
    else ScheduleRetries(st, ids, None, now)
  }

  /** A reply reaches its request: ignored unless that request is still the one in flight. */
  function OnReply(env: Env, st: State, serial: nat, reply: Reply, now: int): State {
    if st.inFlight.None? || st.inFlight.value.serial != serial then st
    else
      var r := st.inFlight.value;
      var settled := if reply.Answer? then Settle(st, r.ids, reply, r.lang, now) else Fail(st, r.ids, reply, now);
      ScheduleBatch(env, settled.(inFlight := None), 0, now)
  }

  // ---- events from the socket, the settings and the screen ----

  function ResetWork(st: State): State {
    st.(pushWait := map[], retryTimers := map[], attempts := map[], batchTimer := None, inFlight := None,
        candidates := [], candidateSet := {})
  }

  function Recent(env: Env, st: State): seq<Id>
    requires st.myLang.Some?
  {
    var eligible := EligibleOf(env, st, st.store.messages);
    if |eligible| <= HISTORY_FIRST_BATCH_COUNT then eligible else eligible[|eligible| - HISTORY_FIRST_BATCH_COUNT..]
  }

  function EligibleOf(env: Env, st: State, ids: seq<Id>): seq<Id>
    requires st.myLang.Some?
  {
    if ids == [] then []
    else EligibleOf(env, st, ids[..|ids| - 1]) + (if Eligible(env, st, ids[|ids| - 1]) then [ids[|ids| - 1]] else [])
  }

  function ScanStore(env: Env, st: State, now: int): State {
    if !st.auto || st.myLang.None? then st
    else Enqueue(env, st, Recent(env, st), HISTORY_FIRST_BATCH_DELAY_MS, now)
  }

  function OnConnect(env: Env, st: State, lang: Lang, on: bool, now: int): State {
    if st.disposed then st
    else
      var reset := ResetWork(st.(myLang := Some(EffectiveLang(lang)), auto := on, connected := true));
      ScanStore(env, reset.(store := st.store.(pending := {})), now)
  }

  function Arrived(st: State, ids: set<Id>): set<Id> {
    set id | id in ids && st.myLang.Some? && HasMine(st, id)
  }

  /** Among `ids`, those whose text in the reader's language is already in the store wait no longer. */
  function DropArrived(st: State, ids: set<Id>): State {
    ClearPending(st.(pushWait := st.pushWait - Arrived(st, ids)), Arrived(st, ids))
  }

  function DropIfArrived(st: State, id: Id): State {
    if st.myLang.Some? && HasMine(st, id) then ClearPending(ClearWait(st, id), {id}) else st
  }

  /** The waits may be dropped one by one, in any order. */
  lemma DropArrivedOne(st: State, ids: set<Id>, id: Id)
    ensures DropArrived(st, ids + {id}) == DropIfArrived(DropArrived(st, ids), id)
  {
    hide HasMine;
    ArrivedOne(st, ids, id);
    var arrived := Arrived(st, ids);
    assert st.pushWait - (arrived + {id}) == st.pushWait - arrived - {id};
    assert st.store.pending - (arrived + {id}) == st.store.pending - arrived - {id};
    SameTexts(st, DropArrived(st, ids), id);
  }

  lemma ArrivedOne(st: State, ids: set<Id>, id: Id)
    ensures Arrived(st, ids + {id}) == Arrived(st, ids) + (if st.myLang.Some? && HasMine(st, id) then {id} else {})
  {
  }

  lemma SameTexts(a: State, b: State, id: Id)
    requires a.myLang == b.myLang && a.store.translations == b.store.translations
    ensures a.myLang.Some? ==> HasMine(a, id) == HasMine(b, id)
  {
  }

  lemma DropArrivedNone(st: State)
    ensures DropArrived(st, {}) == st
  {
    assert st.pushWait - {} == st.pushWait;
  }

  function OnHistory(env: Env, st: State, now: int): State {
    if st.disposed then st else ScanStore(env, DropArrived(st, st.pushWait.Keys), now)
  }

  function OnMessage(env: Env, st: State, id: Id, now: int): State {
    if !Active(st) || !Eligible(env, st, id) then st
    else
      st.(store := st.store.(pending := st.store.pending + {id}), pushWait := st.pushWait[id := now + PUSH_WAIT_MS])
  }

  function OnPushed(st: State, id: Id, texts: Payload, failed: set<Lang>, now: int): State {
    if st.disposed then st
    else
      var merged := st.(store := st.store.(translations := MergeOne(st.store.translations, id, texts)));
      if st.myLang.None? then merged
      else if st.myLang.value in texts && texts[st.myLang.value].Some? then
        var settled := RemoveCandidate(ClearRetry(ClearWait(merged, id), id), id);
        ClearPending(settled.(attempts := st.attempts - {id}), {id})
      else if st.myLang.value in failed then
        if st.auto then ScheduleReenqueue(ClearWait(merged, id), id, PUSH_WAIT_MS, now) else ClearWait(merged, id)
      else if texts == map[] && failed == {} then
        ClearPending(ClearWait(merged, id), {id})
      else merged
  }

  function ResetStatus(st: State): State {
    st.(store := st.store.(pending := {}, failed := {}))
  }

  function OnLanguageChange(env: Env, st: State, lang: Lang, now: int): State {
    if st.disposed || st.myLang == Some(EffectiveLang(lang)) then st
    else ScanStore(env, ResetStatus(ResetWork(st.(myLang := Some(EffectiveLang(lang))))), now)
  }

  function OnAutoTranslateChange(env: Env, st: State, on: bool, now: int): State {
    if st.disposed || on == st.auto then st
    else ScanStore(env, ResetStatus(ResetWork(st.(auto := on))), now)
  }

  function NotWaiting(st: State, ids: seq<Id>): seq<Id> {
    if ids == [] then []
    else
      var id := ids[|ids| - 1];
      NotWaiting(st, ids[..|ids| - 1]) + (if id !in st.pushWait && id !in st.retryTimers then [id] else [])
  }

  function OnScrolledToOlder(env: Env, st: State, ids: seq<Id>, now: int): State {
    if st.disposed then st else Enqueue(env, st, NotWaiting(st, ids), 0, now)
  }

  function OnRetry(env: Env, st: State, id: Id, now: int): State {
    if st.disposed then st
    else
      var cleared := st.(store := st.store.(failed := st.store.failed - {id}), attempts := st.attempts - {id});
      Enqueue(env, ClearRetry(cleared, id), [id], 0, now)
  }

  function OnDispose(st: State): State {
    var reset := ResetWork(st.(disposed := true, connected := false));
    reset.(store := st.store.(pending := {}))
  }

  function OnPushTimer(env: Env, st: State, id: Id, now: int): State {
    if id !in st.pushWait then st else Enqueue(env, ClearWait(st, id), [id], 0, now)
  }

  function OnRetryTimer(env: Env, st: State, id: Id, now: int): State {
    if id !in st.retryTimers then st else Enqueue(env, ClearRetry(st, id), [id], 0, now)
  }

  /** The batch timer runs no earlier than the time it was armed for. */
  function OnBatchTimer(env: Env, st: State, now: int): State {
    if st.batchTimer.None? || now < st.batchTimer.value then st
    else RunBatch(env, st.(batchTimer := None), now)
  }

  datatype Event =
    | Connect(lang: Lang, on: bool)
    | History
    | Message(id: Id)
    | Pushed(id: Id, texts: Payload, failedLangs: set<Lang>)
    | LanguageChange(lang: Lang)
    | AutoTranslateChange(on: bool)
    | Scrolled(ids: seq<Id>)
    | Retry(id: Id)
    | Dispose
    | PushTimer(id: Id)
    | RetryTimer(id: Id)
    | BatchTimer
    | Replied(serial: nat, reply: Reply)
    | StoreReplaced(messages: seq<Id>, entries: seq<(Id, Payload)>)

  function Step(env: Env, st: State, e: Event, now: int): State {
    match e
    case Connect(lang, on) => OnConnect(env, st, lang, on, now)
    case History => OnHistory(env, st, now)
    case Message(id) => OnMessage(env, st, id, now)
    case Pushed(id, texts, failedLangs) => OnPushed(st, id, texts, failedLangs, now)
    case LanguageChange(lang) => OnLanguageChange(env, st, lang, now)
    case AutoTranslateChange(on) => OnAutoTranslateChange(env, st, on, now)
    case Scrolled(ids) => OnScrolledToOlder(env, st, ids, now)
    case Retry(id) => OnRetry(env, st, id, now)
    case Dispose => OnDispose(st)
    case PushTimer(id) => OnPushTimer(env, st, id, now)
    case RetryTimer(id) => OnRetryTimer(env, st, id, now)
    case BatchTimer => OnBatchTimer(env, st, now)
    case Replied(serial, reply) => OnReply(env, st, serial, reply, now)
    case StoreReplaced(messages, entries) => st.(store := Replace(st.store, messages, entries))
  }

  /** A run: events, each with the time it is handled at. */
  function Run(env: Env, st: State, events: seq<(int, Event)>): State
    decreases |events|
  {
    if events == [] then st
    else
      var before := Run(env, st, events[..|events| - 1]);
      var last := events[|events| - 1];
      Step(env, before, last.1, last.0)
  }
}
