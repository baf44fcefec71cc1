/** What each event leaves behind, field by field. */
module TranslationSteps {
  import opened Prelude
  import opened ChatStoreModel
  import opened TranslationModel
  import opened TranslationInvariants

  // ---- which messages want a translation ----

  /** The script alone tells that the text is in the language. */
  predicate InOwnScript(lang: Lang, script: Script) {
    (lang == "ko" && script.Ko?) || (lang == "ja" && script.Ja?) || (lang == "ru" && script.Ru?)
  }

  /** A message of the store with letters, not surely in the language, and without a text in it. */
  predicate Wanted(env: Env, s: Store, lang: Lang, id: Id) {
    && id in s.messages
    && env.script(env.text(id)) != NoScript && !InOwnScript(lang, env.script(env.text(id)))
    && !(id in s.translations && lang in s.translations[id])
  }

  lemma WantedIsEligible(env: Env, st: State)
    requires st.myLang.Some?
    ensures forall id :: Eligible(env, st, id) <==> Wanted(env, st.store, st.myLang.value, id)
  {
  }

  /** The places of the wanted messages behind a place of the list. */
  ghost function Behind(env: Env, s: Store, lang: Lang, i: nat): set<nat> {
    set j: nat | i < j < |s.messages| && Wanted(env, s, lang, s.messages[j])
  }

  /** One of the 50 newest wanted messages. */
  ghost predicate Newest(env: Env, s: Store, lang: Lang, id: Id) {
    Wanted(env, s, lang, id) && exists i: nat :: i < |s.messages| && s.messages[i] == id && |Behind(env, s, lang, i)| < 50
  }

  ghost function BehindUpTo(env: Env, s: Store, lang: Lang, i: nat, m: nat): set<nat>
    requires m <= |s.messages|
  {
    set j: nat | i < j < m && Wanted(env, s, lang, s.messages[j])
  }

  lemma {:induction false} BehindCount(env: Env, st: State, i: nat, m: nat)
    requires st.myLang.Some? && i < m <= |st.store.messages|
    ensures |BehindUpTo(env, st.store, st.myLang.value, i, m)| == |EligibleOf(env, st, st.store.messages[i + 1..m])|
    decreases m
  {
    hide Wanted, Eligible, BehindUpTo, EligibleOf;
    var messages, lang := st.store.messages, st.myLang.value;
    if m == i + 1 {
      NoneBehind(env, st, i);
      assert messages[i + 1..m] == [];
    } else {
      BehindCount(env, st, i, m - 1);
      WantedIsEligible(env, st);
      BehindPush(env, st.store, lang, i, m);
      assert messages[i + 1..m] == messages[i + 1..m - 1] + [messages[m - 1]];
      EligiblePush(env, st, messages[i + 1..m - 1], messages[m - 1]);
    }
  }

  lemma NoneBehind(env: Env, st: State, i: nat)
    requires st.myLang.Some? && i < |st.store.messages|
    ensures BehindUpTo(env, st.store, st.myLang.value, i, i + 1) == {} && EligibleOf(env, st, []) == []
  {
  }

  lemma BehindPush(env: Env, s: Store, lang: Lang, i: nat, m: nat)
    requires i + 1 < m <= |s.messages|
    ensures |BehindUpTo(env, s, lang, i, m)| ==
      |BehindUpTo(env, s, lang, i, m - 1)| + (if Wanted(env, s, lang, s.messages[m - 1]) then 1 else 0)
  {
    hide Wanted;
    assert BehindUpTo(env, s, lang, i, m) ==
      BehindUpTo(env, s, lang, i, m - 1) + (if Wanted(env, s, lang, s.messages[m - 1]) then {m - 1} else {});
  }

  lemma EligiblePush(env: Env, st: State, ids: seq<Id>, id: Id)
    requires st.myLang.Some?
    ensures EligibleOf(env, st, ids + [id]) == EligibleOf(env, st, ids) + (if Eligible(env, st, id) then [id] else [])
  {
    hide Eligible;
    assert (ids + [id])[..|ids|] == ids;
  }

  /** Where an eligible message stands among them. */
  lemma {:induction false} EligibleAt(env: Env, st: State, ids: seq<Id>, k: nat) returns (i: nat)
    requires st.myLang.Some? && k < |EligibleOf(env, st, ids)|
    ensures i < |ids| && ids[i] == EligibleOf(env, st, ids)[k] && Eligible(env, st, ids[i])
    ensures |EligibleOf(env, st, ids[..i])| == k
  {
    hide Eligible;
    var n := |ids| - 1;
    var before := EligibleOf(env, st, ids[..n]);
    if k < |before| {
      i := EligibleAt(env, st, ids[..n], k);
      assert ids[..n][..i] == ids[..i];
    } else {
      i := n;
    }
  }

  /** Split at a message that is eligible. */
  lemma EligibleSplit(env: Env, st: State, ids: seq<Id>, i: nat)
    requires st.myLang.Some? && i < |ids| && Eligible(env, st, ids[i])
    ensures EligibleOf(env, st, ids) == EligibleOf(env, st, ids[..i]) + [ids[i]] + EligibleOf(env, st, ids[i + 1..])
  {
    hide Eligible;
    assert ids == ids[..i + 1] + ids[i + 1..] && ids[..i + 1][..i] == ids[..i];
    EligibleConcat(env, st, ids[..i + 1], ids[i + 1..]);
  }

  /** A scan takes the 50 newest. */
  lemma RecentIsNewest(env: Env, st: State, id: Id)
    requires st.myLang.Some?
    ensures id in Recent(env, st) <==> Newest(env, st.store, st.myLang.value, id)
  {
    hide Wanted, Eligible, Behind;
    WantedIsEligible(env, st);
    var messages, lang := st.store.messages, st.myLang.value;
    var all, recent := EligibleOf(env, st, messages), Recent(env, st);
    if id in recent {
      var k :| 0 <= k < |recent| && recent[k] == id;
      var at := |all| - |recent| + k;
      assert all[at] == id;
      var i := EligibleAt(env, st, messages, at);
      EligibleSplit(env, st, messages, i);
      BehindAll(env, st, i);
      assert |Behind(env, st.store, lang, i)| < 50;
    }
    if Newest(env, st.store, lang, id) {
      var i: nat :| i < |messages| && messages[i] == id && |Behind(env, st.store, lang, i)| < 50;
      BehindAll(env, st, i);
      NewestAreScanned(env, st, i);
    }
  }

  lemma BehindAll(env: Env, st: State, i: nat)
    requires st.myLang.Some? && i < |st.store.messages|
    ensures |Behind(env, st.store, st.myLang.value, i)| == |EligibleOf(env, st, st.store.messages[i + 1..])|
  {
    hide Wanted, EligibleOf;
    var n := |st.store.messages|;
    BehindCount(env, st, i, n);
    assert st.store.messages[i + 1..n] == st.store.messages[i + 1..];
    assert Behind(env, st.store, st.myLang.value, i) == BehindUpTo(env, st.store, st.myLang.value, i, n);
  }

  // ---- what joins the queue ----

  /** Any two of `ids` stand in `list` in the same order. */
  ghost predicate InListOrder(ids: seq<Id>, list: seq<Id>) {
    forall k, l :: 0 <= k < l < |ids| ==> Precedes(list, ids[k], ids[l])
  }

  ghost predicate Precedes(list: seq<Id>, a: Id, b: Id) {
    exists i, j :: 0 <= i < j < |list| && list[i] == a && list[j] == b
  }

  lemma PrecedesLater(list: seq<Id>, first: Id, a: Id, b: Id)
    ensures Precedes(list, a, b) ==> Precedes([first] + list, a, b)
    ensures b in list ==> Precedes([first] + list, first, b)
  {
    var more := [first] + list;
    if Precedes(list, a, b) {
      var i, j :| 0 <= i < j < |list| && list[i] == a && list[j] == b;
      assert more[i + 1] == a && more[j + 1] == b;
    }
    if b in list {
      var j :| 0 <= j < |list| && list[j] == b;
      assert more[0] == first && more[j + 1] == b;
    }
  }

  /** The ids of the list that join the queue. */
  ghost predicate Joining(env: Env, st: State, ids: seq<Id>, id: Id)
    requires st.myLang.Some?
  {
    id in ids && id !in st.candidateSet && !Requested(st, id) && Wanted(env, st.store, st.myLang.value, id)
  }

  ghost predicate Grown(env: Env, st: State, t: State, ids: seq<Id>)
    requires st.myLang.Some?
  {
    && t == st.(pushWait := t.pushWait, candidates := t.candidates, candidateSet := t.candidateSet)
    && st.candidates <= t.candidates && st.candidateSet <= t.candidateSet
    && t.pushWait == st.pushWait - (t.candidateSet - st.candidateSet)
    && (forall id :: id in t.candidateSet - st.candidateSet <==> Joining(env, st, ids, id))
    && QueueMatches(t.candidates, t.candidateSet)
    && InListOrder(t.candidates[|st.candidates|..], ids)
    && (forall id <- t.candidates[|st.candidates|..] :: id in ids)
  }

  lemma GrownBySkip(env: Env, st: State, t: State, ids: seq<Id>)
    requires st.myLang.Some? && ids != [] && !Joining(env, st, ids, ids[0]) && Grown(env, st, t, ids[1..])
    ensures Grown(env, st, t, ids)
  {
    hide Wanted, QueueMatches, Precedes;
    assert ids == [ids[0]] + ids[1..];
    forall id ensures Joining(env, st, ids, id) <==> Joining(env, st, ids[1..], id) {}
    var added := t.candidates[|st.candidates|..];
    forall k, l | 0 <= k < l < |added| ensures Precedes(ids, added[k], added[l]) {
      PrecedesLater(ids[1..], ids[0], added[k], added[l]);
    }
  }

  lemma GrownByOne(env: Env, st: State, t: State, ids: seq<Id>)
    requires st.myLang.Some? && ids != [] && Joining(env, st, ids, ids[0]) && Grown(env, TranslationModel.Joined(st, ids[0]), t, ids[1..])
    ensures Grown(env, st, t, ids)
  {
    hide Wanted, QueueMatches, Precedes;
    var next := TranslationModel.Joined(st, ids[0]);
    assert ids == [ids[0]] + ids[1..];
    forall id ensures id in t.candidateSet - st.candidateSet <==> Joining(env, st, ids, id) {
      assert id in t.candidateSet - next.candidateSet <==> Joining(env, next, ids[1..], id);
    }
    assert t.pushWait == st.pushWait - (t.candidateSet - st.candidateSet);
    var added, more := t.candidates[|st.candidates|..], t.candidates[|next.candidates|..];
    assert t.candidates[..|next.candidates|] == next.candidates;
    assert added == [ids[0]] + more;
    forall k, l | 0 <= k < l < |added| ensures Precedes(ids, added[k], added[l]) {
      if k > 0 { assert Precedes(ids[1..], more[k - 1], more[l - 1]); }
      PrecedesLater(ids[1..], ids[0], added[k], added[l]);
    }
  }

  lemma {:induction false} CollectGrows(env: Env, st: State, ids: seq<Id>)
    requires st.myLang.Some? && QueueMatches(st.candidates, st.candidateSet)
    ensures Grown(env, st, Collect(env, st, ids), ids)
    decreases |ids|
  {
    hide Wanted, Eligible, Collect, Grown;
    CollectUnfolds(env, st, ids);
    WantedIsEligible(env, st);
    if ids == [] {
      NothingGrown(env, st);
    } else if Joins(env, st, ids[0]) {
      JoinedMatches(st, ids[0]);
      CollectGrows(env, TranslationModel.Joined(st, ids[0]), ids[1..]);
      GrownByOne(env, st, Collect(env, st, ids), ids);
    } else {
      CollectGrows(env, st, ids[1..]);
      GrownBySkip(env, st, Collect(env, st, ids), ids);
    }
  }

  lemma NothingGrown(env: Env, st: State)
    requires st.myLang.Some? && QueueMatches(st.candidates, st.candidateSet)
    ensures Grown(env, st, st, [])
  {
    assert st.pushWait - {} == st.pushWait;
  }

  lemma JoinedMatches(st: State, id: Id)
    requires QueueMatches(st.candidates, st.candidateSet) && id !in st.candidateSet
    ensures QueueMatches(TranslationModel.Joined(st, id).candidates, TranslationModel.Joined(st, id).candidateSet)
  {
    var more := st.candidates + [id];
    assert ToSet(more) == ToSet(st.candidates) + {id};
  }

  lemma {:induction false} EligibleCounts(env: Env, st: State, ids: seq<Id>, i: nat, j: nat)
    requires st.myLang.Some? && i <= j <= |ids|
    ensures |EligibleOf(env, st, ids[..i])| <= |EligibleOf(env, st, ids[..j])|
  {
    hide Eligible;
    assert ids[..j] == ids[..i] + ids[i..j];
    EligibleConcat(env, st, ids[..i], ids[i..j]);
  }

  lemma RecentInOrder(env: Env, st: State)
    requires st.myLang.Some?
    ensures InListOrder(Recent(env, st), st.store.messages)
  {
    hide Eligible, EligibleOf;
    var messages := st.store.messages;
    var all, recent := EligibleOf(env, st, messages), Recent(env, st);
    forall k, l | 0 <= k < l < |recent| ensures Precedes(messages, recent[k], recent[l]) {
      var skipped := |all| - |recent|;
      var i := EligibleAt(env, st, messages, skipped + k);
      var j := EligibleAt(env, st, messages, skipped + l);
      if j <= i { EligibleCounts(env, st, messages, j, i); }
    }
  }

  lemma OrderComposes(ids: seq<Id>, middle: seq<Id>, list: seq<Id>)
    requires InListOrder(ids, middle) && InListOrder(middle, list)
    ensures InListOrder(ids, list)
  {
    forall k, l | 0 <= k < l < |ids| ensures Precedes(list, ids[k], ids[l]) {
      assert Precedes(middle, ids[k], ids[l]);
      var i, j :| 0 <= i < j < |middle| && middle[i] == ids[k] && middle[j] == ids[l];
      assert Precedes(list, middle[i], middle[j]);
    }
  }

  // ---- scans ----

  /** When a request may go out that is to wait for at least `delay`. */
  function Soonest(now: int, delay: int, last: Option<int>): int {
    if last.Some? && last.value + 1_000 > now + delay then last.value + 1_000 else now + delay
  }

  /** A delay of a second always arms the timer, or leaves an earlier one. */
  lemma ArmedInASecond(env: Env, st: State, now: int)
    ensures ScheduleBatch(env, st, 1_000, now) ==
      if st.disposed || st.inFlight.Some? || st.candidates == [] then st
      else if st.batchTimer.Some? && st.batchTimer.value <= Soonest(now, 1_000, st.lastRequestAt) then st
      else st.(batchTimer := Some(Soonest(now, 1_000, st.lastRequestAt)))
  {
    hide RunBatch;
  }

  /** What a scan adds: the newest wanted messages, in the order of the list, marked, with a timer within the second. */
  ghost predicate Scanned(env: Env, st: State, t: State, now: int) {
    if !Active(st) then t == st
    else
      && t == st.(candidates := t.candidates, candidateSet := t.candidateSet, pushWait := t.pushWait,
                  store := st.store.(pending := t.store.pending), batchTimer := t.batchTimer)
      && st.candidates <= t.candidates && st.candidateSet <= t.candidateSet && QueueMatches(t.candidates, t.candidateSet)
      && (forall id :: id in t.candidateSet <==>
            id in st.candidateSet || (Newest(env, st.store, st.myLang.value, id) && !Requested(st, id)))
      && InListOrder(t.candidates[|st.candidates|..], st.store.messages)
      && t.pushWait == st.pushWait - (t.candidateSet - st.candidateSet)
      && t.store.pending == st.store.pending + (t.candidateSet - st.candidateSet)
      && t.batchTimer ==
         (if t.candidateSet == st.candidateSet || st.inFlight.Some? then st.batchTimer
          else if st.batchTimer.Some? && st.batchTimer.value <= Soonest(now, 1_000, st.lastRequestAt) then st.batchTimer
          else Some(Soonest(now, 1_000, st.lastRequestAt)))
  }

  lemma ScanIsScanned(env: Env, st: State, now: int)
    requires QueueMatches(st.candidates, st.candidateSet)
    ensures Scanned(env, st, ScanStore(env, st, now), now)
  {
    hide Recent, Newest, Wanted, Collect, InListOrder, Joining, ScheduleBatch;
    if Active(st) {
      var recent := Recent(env, st);
      var grown := Collect(env, st, recent);
      CollectGrows(env, st, recent);
      forall id ensures id in grown.candidateSet <==>
        id in st.candidateSet || (Newest(env, st.store, st.myLang.value, id) && !Requested(st, id))
      {
        RecentIsNewest(env, st, id);
        JoiningIs(env, st, recent, id);
        NewestIsWanted(env, st.store, st.myLang.value, id);
      }
      RecentInOrder(env, st);
      OrderComposes(grown.candidates[|st.candidates|..], recent, st.store.messages);
      var added := grown.candidateSet - st.candidateSet;
      assert grown.candidateSet == st.candidateSet + added;
      if added != {} {
        assert added <= grown.candidateSet;
        SomeCandidate(grown, added);
        ArmedInASecond(env, grown.(store := grown.store.(pending := grown.store.pending + added)), now);
      } else {
        SameSet(grown, st);
        assert st.store.pending + {} == st.store.pending;
      }
    } else {
      IdleScan(env, st, now);
    }
  }

  lemma SomeCandidate(st: State, ids: set<Id>)
    requires QueueMatches(st.candidates, st.candidateSet) && ids != {} && ids <= st.candidateSet
    ensures st.candidates != []
  {
    var id :| id in ids;
    assert id in ToSet(st.candidates);
  }

  lemma SameSet(t: State, st: State)
    requires QueueMatches(t.candidates, t.candidateSet) && QueueMatches(st.candidates, st.candidateSet)
    requires st.candidates <= t.candidates && t.candidateSet == st.candidateSet
    ensures t.candidates == st.candidates
  {
    assert ToSet(t.candidates) == ToSet(st.candidates);
    if |t.candidates| > |st.candidates| { NextIsNew(st.candidates, t.candidates); }
  }

  lemma NextIsNew(ids: seq<Id>, more: seq<Id>)
    requires NoDup(more) && ids < more
    ensures more[|ids|] in ToSet(more) - ToSet(ids)
  {
  }

  lemma IdleScan(env: Env, st: State, now: int)
    requires !Active(st)
    ensures ScanStore(env, st, now) == st
  {
    hide Recent, Collect, ScheduleBatch;
  }

  lemma JoiningIs(env: Env, st: State, ids: seq<Id>, id: Id)
    requires st.myLang.Some?
    ensures Joining(env, st, ids, id) <==>
      id in ids && id !in st.candidateSet && !Requested(st, id) && Wanted(env, st.store, st.myLang.value, id)
  {
  }

  lemma NewestIsWanted(env: Env, s: Store, lang: Lang, id: Id)
    ensures Newest(env, s, lang, id) ==> Wanted(env, s, lang, id)
  {
  }

  // ---- connections, settings and histories ----

  /** The five languages the tool knows; anything else reads English. */
  function Known(lang: Lang): Lang {
    if lang == "ko" || lang == "en" || lang == "ja" || lang == "zh" || lang == "ru" then lang else "en"
  }

  /** The event makes the machine start over. */
  predicate Restarts(st: State, e: Event) {
    !st.disposed && match e
      case Connect(_, _) => true
      case LanguageChange(lang) => st.myLang != Some(Known(lang))
      case AutoTranslateChange(on) => on != st.auto
      case _ => false
  }

  /**
    * A connection, a new language and a turned switch start over: the queue, the marks and the timer come from the newest
    * wanted messages alone, and nothing else is waited for. Only a connection keeps the failures.
    */
  lemma RestartQueuesNewest(env: Env, st: State, e: Event, now: int)
    requires Restarts(st, e)
    ensures var t := Step(env, st, e, now);
      && t.myLang == (if e.AutoTranslateChange? then st.myLang else Some(Known(e.lang)))
      && t.auto == (if e.LanguageChange? then st.auto else e.on)
      && t.connected == (st.connected || e.Connect?) && !t.disposed
      && t.pushWait == map[] && t.retryTimers == map[] && t.attempts == map[] && t.inFlight == None
      && t.sent == st.sent && t.lastRequestAt == st.lastRequestAt
      && t.store == st.store.(pending := t.candidateSet, failed := if e.Connect? then st.store.failed else {})
      && t.candidateSet == ToSet(t.candidates) && InListOrder(t.candidates, st.store.messages)
      && (forall id :: id in t.candidateSet <==> t.auto && t.myLang.Some? && Newest(env, st.store, t.myLang.value, id))
      && t.batchTimer == (if t.candidates == [] then None else Some(Soonest(now, 1_000, st.lastRequestAt)))
  {
    hide ScanStore, Newest, InListOrder, Scanned;
    var reset := Cleared(st, e);
    RestartScans(env, st, e, now);
    ScanIsScanned(env, reset, now);
    ScannedFromNothing(env, reset, ScanStore(env, reset, now), now);
    forall id ensures reset.myLang.Some? ==>
      (Newest(env, st.store, reset.myLang.value, id) <==> Newest(env, reset.store, reset.myLang.value, id))
    {
      if reset.myLang.Some? { SameNewest(env, st.store, reset.store, reset.myLang.value, id); }
    }
  }

  /** What a restart leaves before it scans. */
  function Cleared(st: State, e: Event): State
    requires Restarts(st, e)
  {
    st.(myLang := if e.AutoTranslateChange? then st.myLang else Some(Known(e.lang)),
        auto := if e.LanguageChange? then st.auto else e.on,
        connected := st.connected || e.Connect?,
        pushWait := map[], retryTimers := map[], attempts := map[], inFlight := None, batchTimer := None,
        candidates := [], candidateSet := {},
        store := st.store.(pending := {}, failed := if e.Connect? then st.store.failed else {}))
  }

  lemma RestartScans(env: Env, st: State, e: Event, now: int)
    requires Restarts(st, e)
    ensures Step(env, st, e, now) == ScanStore(env, Cleared(st, e), now)
  {
    hide ScanStore;
    match e
    case Connect(lang, on) => assert EffectiveLang(lang) == Known(lang);
    case LanguageChange(lang) => assert EffectiveLang(lang) == Known(lang);
    case AutoTranslateChange(on) =>
  }

  lemma ScannedFromNothing(env: Env, reset: State, t: State, now: int)
    requires Scanned(env, reset, t, now)
    requires reset.candidates == [] && reset.candidateSet == {} && reset.pushWait == map[] && reset.store.pending == {}
    requires reset.inFlight == None && reset.batchTimer == None
    ensures t == reset.(candidates := t.candidates, candidateSet := t.candidateSet,
                        store := reset.store.(pending := t.store.pending), batchTimer := t.batchTimer)
    ensures t.store.pending == t.candidateSet == ToSet(t.candidates) && InListOrder(t.candidates, reset.store.messages)
    ensures forall id :: id in t.candidateSet <==> Active(reset) && Newest(env, reset.store, reset.myLang.value, id)
    ensures t.batchTimer == if t.candidates == [] then None else Some(Soonest(now, 1_000, reset.lastRequestAt))
  {
    hide Newest, InListOrder;
    assert t.candidates[0..] == t.candidates;
    if t.candidates != [] { assert t.candidates[0] in t.candidateSet; }
    NothingInOrder(reset.store.messages);
  }

  lemma NothingInOrder(list: seq<Id>)
    ensures InListOrder([], list)
  {
  }

  /** Marks and failures have no say in what is wanted. */
  lemma SameNewest(env: Env, s: Store, r: Store, lang: Lang, id: Id)
    requires r.messages == s.messages && r.translations == s.translations
    ensures Newest(env, s, lang, id) <==> Newest(env, r, lang, id)
  {
    assert forall x :: Wanted(env, s, lang, x) == Wanted(env, r, lang, x);
    assert forall i: nat :: Behind(env, s, lang, i) == Behind(env, r, lang, i);
  }

  /** A history ends the push waits whose text it brought, and scans. */
  lemma HistoryQueuesNewest(env: Env, st: State, now: int)
    requires !st.disposed && QueueMatches(st.candidates, st.candidateSet)
    ensures var arrived := set id | id in st.pushWait && st.myLang.Some? && id in st.store.translations && st.myLang.value in st.store.translations[id];
      Scanned(env, st.(pushWait := st.pushWait - arrived, store := st.store.(pending := st.store.pending - arrived)),
              Step(env, st, History, now), now)
  {
    hide ScanStore, Scanned;
    var arrived := set id | id in st.pushWait && st.myLang.Some? && id in st.store.translations && st.myLang.value in st.store.translations[id];
    assert Arrived(st, st.pushWait.Keys) == arrived;
    ScanIsScanned(env, DropArrived(st, st.pushWait.Keys), now);
  }

  // ---- batches ----

  function WantedAmong(env: Env, s: Store, lang: Lang, ids: seq<Id>): seq<Id> {
    if ids == [] then []
    else (if Wanted(env, s, lang, ids[0]) then [ids[0]] else []) + WantedAmong(env, s, lang, ids[1..])
  }

  /**
    * A batch is what is wanted among the first `k` candidates. It ends with the queue, or in front of a wanted candidate
    * that would be its 21st or bring it over 2000 characters.
    */
  ghost predicate Taken(env: Env, st: State, t: State, items: seq<Id>, out: seq<Id>, k: nat)
    requires st.myLang.Some?
  {
    var lang := st.myLang.value;
    && k <= |st.candidates| && t.candidates == st.candidates[k..]
    && t.candidateSet == st.candidateSet - ToSet(st.candidates[..k])
    && out == items + WantedAmong(env, st.store, lang, st.candidates[..k])
    && (forall id :: id in t.store.pending <==>
          id in st.store.pending && (id in st.candidates[..k] ==> Wanted(env, st.store, lang, id)))
    && t == st.(candidates := t.candidates, candidateSet := t.candidateSet, store := st.store.(pending := t.store.pending))
    && (t.candidates == [] ||
        (out != [] && Wanted(env, st.store, lang, t.candidates[0]) &&
         (|out| >= 20 || TotalChars(env, out) + |env.text(t.candidates[0])| > 2_000)))
  }

  lemma TakenNothing(env: Env, st: State, items: seq<Id>)
    requires st.myLang.Some?
    requires st.candidates == [] ||
      (items != [] && Wanted(env, st.store, st.myLang.value, st.candidates[0]) &&
       (|items| >= 20 || TotalChars(env, items) + |env.text(st.candidates[0])| > 2_000))
    ensures Taken(env, st, st, items, items, 0)
  {
    assert st.candidates[..0] == [] && st.candidateSet - {} == st.candidateSet;
  }

  lemma TakenOneMore(env: Env, st: State, shifted: State, t: State, items: seq<Id>, more: seq<Id>, out: seq<Id>, k: nat)
    requires st.myLang.Some? && st.candidates != []
    requires shifted == st.(candidates := st.candidates[1..], candidateSet := st.candidateSet - {st.candidates[0]}, store := shifted.store)
    requires shifted.store == st.store.(pending := shifted.store.pending)
    requires if Wanted(env, st.store, st.myLang.value, st.candidates[0])
             then shifted.store.pending == st.store.pending && more == items + [st.candidates[0]]
             else shifted.store.pending == st.store.pending - {st.candidates[0]} && more == items
    requires st.candidates[0] !in st.candidates[1..]
    requires Taken(env, shifted, t, more, out, k)
    ensures Taken(env, st, t, items, out, k + 1)
  {
    var lang, id, rest := st.myLang.value, st.candidates[0], st.candidates[1..];
    assert st.candidates[..k + 1] == [id] + rest[..k] && st.candidates[..k + 1][1..] == rest[..k];
    SameWanted(env, st.store, shifted.store, lang, rest[..k]);
    forall x ensures Wanted(env, shifted.store, lang, x) == Wanted(env, st.store, lang, x) {}
    assert WantedAmong(env, st.store, lang, st.candidates[..k + 1]) ==
      (if Wanted(env, st.store, lang, id) then [id] else []) + WantedAmong(env, st.store, lang, rest[..k]);
    hide Wanted, WantedAmong;
    assert ToSet(st.candidates[..k + 1]) == {id} + ToSet(rest[..k]);
    forall x ensures x in t.store.pending <==>
      x in st.store.pending && (x in st.candidates[..k + 1] ==> Wanted(env, st.store, lang, x)) {}
  }

  lemma {:induction false} SameWanted(env: Env, s: Store, r: Store, lang: Lang, ids: seq<Id>)
    requires r.messages == s.messages && r.translations == s.translations
    ensures WantedAmong(env, s, lang, ids) == WantedAmong(env, r, lang, ids)
  {
    if ids != [] { SameWanted(env, s, r, lang, ids[1..]); }
  }

  lemma {:induction false} TakeBatchTakes(env: Env, st: State, items: seq<Id>, chars: nat) returns (k: nat)
    requires st.myLang.Some? && QueueMatches(st.candidates, st.candidateSet) && chars == TotalChars(env, items)
    ensures Taken(env, st, TakeBatch(env, st, items, chars).0, items, TakeBatch(env, st, items, chars).1, k)
    decreases |st.candidates|
  {
    hide Eligible, Wanted, Taken, TotalChars;
    WantedIsEligible(env, st);
    if st.candidates == [] {
      k := 0;
      TakenNothing(env, st, items);
    } else {
      var id := st.candidates[0];
      var shifted := st.(candidates := st.candidates[1..], candidateSet := st.candidateSet - {id});
      ShiftQueue(st);
      if !Eligible(env, st, id) {
        k := TakeBatchTakes(env, ClearPending(shifted, {id}), items, chars);
        TakenOneMore(env, st, ClearPending(shifted, {id}), TakeBatch(env, st, items, chars).0, items, items, TakeBatch(env, st, items, chars).1, k);
        k := k + 1;
      } else if items != [] && (|items| >= BATCH_MAX_ITEMS || chars + |env.text(id)| > BATCH_MAX_CHARS) {
        k := 0;
        TakenNothing(env, st, items);
      } else {
        TotalCharsPush(env, items, id);
        k := TakeBatchTakes(env, shifted, items + [id], chars + |env.text(id)|);
        TakenOneMore(env, st, shifted, TakeBatch(env, st, items, chars).0, items, items + [id], TakeBatch(env, st, items, chars).1, k);
        k := k + 1;
      }
    }
  }

  lemma TotalCharsPush(env: Env, items: seq<Id>, id: Id)
    ensures TotalChars(env, items + [id]) == TotalChars(env, items) + |env.text(id)|
  {
    assert (items + [id])[..|items|] == items;
  }

  /** The state after a request with `items`, or after a batch without any. */
  ghost predicate Sending(env: Env, st: State, t: State, now: int, items: seq<Id>, k: nat)
    requires st.myLang.Some?
  {
    && Taken(env, st, t.(inFlight := st.inFlight, serial := st.serial, lastRequestAt := st.lastRequestAt, sent := st.sent), [], items, k)
    && (if items == [] then
          t.inFlight == st.inFlight && t.lastRequestAt == st.lastRequestAt && t.sent == st.sent && t.serial == st.serial
        else
          && t.inFlight == Some(Request(st.serial, items, st.myLang.value)) && t.serial == st.serial + 1
          && t.lastRequestAt == Some(now) && t.sent == st.sent + [Batch(now, items)])
  }

  lemma RunBatchSends(env: Env, st: State, now: int) returns (items: seq<Id>, k: nat)
    requires Active(st) && st.inFlight.None? && QueueMatches(st.candidates, st.candidateSet)
    ensures Sending(env, st, RunBatch(env, st, now), now, items, k)
  {
    hide TakeBatch, Taken, TotalChars;
    NothingTaken(env);
    items := TakeBatch(env, st, [], 0).1;
    k := TakeBatchTakes(env, st, [], 0);
    var (taken, _) := TakeBatch(env, st, [], 0);
    assert taken.inFlight == st.inFlight && taken.serial == st.serial && taken.lastRequestAt == st.lastRequestAt && taken.sent == st.sent by {
      TakenFrame(env, st, taken, items, k);
    }
    var t := RunBatch(env, st, now);
    assert t.(inFlight := st.inFlight, serial := st.serial, lastRequestAt := st.lastRequestAt, sent := st.sent) == taken;
  }

  lemma TakenFrame(env: Env, st: State, t: State, out: seq<Id>, k: nat)
    requires st.myLang.Some? && Taken(env, st, t, [], out, k)
    ensures t == st.(candidates := t.candidates, candidateSet := t.candidateSet, store := st.store.(pending := t.store.pending))
  {
  }

  /** The batch timer sends what is wanted at the head of the queue, once it is due. */
  lemma BatchTimerSends(env: Env, st: State, now: int) returns (items: seq<Id>, k: nat)
    requires Active(st) && st.inFlight.None? && QueueMatches(st.candidates, st.candidateSet)
    requires st.batchTimer.Some? && now >= st.batchTimer.value
    ensures Sending(env, st.(batchTimer := None), Step(env, st, BatchTimer, now), now, items, k)
  {
    hide RunBatch, Sending;
    items, k := RunBatchSends(env, st.(batchTimer := None), now);
  }

  // ---- ids that are asked for at once ----

  /** The queue with the ids of the list that join it, each marked. */
  ghost predicate Marked(env: Env, st: State, t: State, ids: seq<Id>)
    requires st.myLang.Some?
  {
    Grown(env, st, t.(store := st.store), ids) &&
    t.store == st.store.(pending := st.store.pending + (t.candidateSet - st.candidateSet))
  }

  /** An earlier timer is left alone. */
  predicate TimerComesFirst(st: State, at: int) {
    st.batchTimer.Some? && st.batchTimer.value <= at
  }

  lemma EnqueuedNow(env: Env, st: State, ids: seq<Id>, now: int) returns (marked: State, items: seq<Id>, k: nat)
    requires Active(st) && QueueMatches(st.candidates, st.candidateSet)
    ensures Marked(env, st, marked, ids)
    ensures var t, at := Enqueue(env, st, ids, 0, now), Soonest(now, 0, st.lastRequestAt);
      if marked.candidateSet == st.candidateSet || st.inFlight.Some? || TimerComesFirst(st, at) then t == marked
      else if at > now then t == marked.(batchTimer := Some(at))
      else Sending(env, marked.(batchTimer := None), t, now, items, k)
  {
    hide Collect, Wanted, RunBatch, Sending, InListOrder, Joining;
    var grown := Collect(env, st, ids);
    CollectGrows(env, st, ids);
    var added := grown.candidateSet - st.candidateSet;
    marked := grown.(store := st.store.(pending := st.store.pending + added));
    assert marked.(store := st.store) == grown;
    assert grown.candidateSet == st.candidateSet + added;
    items, k := [], 0;
    if added == {} {
      SameSet(grown, st);
      assert st.store.pending + {} == st.store.pending;
    } else {
      assert added <= grown.candidateSet;
      SomeCandidate(grown, added);
      var at := Soonest(now, 0, st.lastRequestAt);
      if st.inFlight.None? && !TimerComesFirst(st, at) && at <= now {
        items, k := RunBatchSends(env, marked.(batchTimer := None), now);
      }
    }
  }

  /** A batch loses nothing that is wanted, and asks for something when anything is. */
  lemma SendingKeepsWanted(env: Env, st: State, t: State, now: int, items: seq<Id>, k: nat, id: Id)
    requires st.myLang.Some? && QueueMatches(st.candidates, st.candidateSet) && Sending(env, st, t, now, items, k)
    requires id in st.candidateSet && id in st.store.pending && Wanted(env, st.store, st.myLang.value, id)
    ensures id in t.store.pending && (id in t.candidateSet || id in items) && t.pushWait == st.pushWait
  {
    hide Wanted, WantedAmong;
    if id in st.candidates[..k] { WantedStays(env, st.store, st.myLang.value, st.candidates[..k], id); }
  }

  lemma {:induction false} WantedStays(env: Env, s: Store, lang: Lang, ids: seq<Id>, id: Id)
    requires id in ids && Wanted(env, s, lang, id)
    ensures id in WantedAmong(env, s, lang, ids)
  {
    if ids[0] != id { WantedStays(env, s, lang, ids[1..], id); }
  }

  /** What a scroll, a manual retry or a timer asks for. */
  predicate AsksFor(st: State, e: Event, id: Id) {
    match e
    case Scrolled(ids) => id in ids && id !in st.pushWait && id !in st.retryTimers
    case Retry(x) => id == x
    case PushTimer(x) => id == x && x in st.pushWait
    case RetryTimer(x) => id == x && x in st.retryTimers
    case _ => false
  }

  predicate Asks(e: Event) { e.Scrolled? || e.Retry? || e.PushTimer? || e.RetryTimer? }

  /** Its other effects: a timer that fired is gone, a manual retry forgets the failures. */
  function Noted(st: State, e: Event): State {
    match e
    case Retry(id) =>
      st.(store := st.store.(failed := st.store.failed - {id}), attempts := st.attempts - {id}, retryTimers := st.retryTimers - {id})
    case PushTimer(id) => st.(pushWait := st.pushWait - {id})
    case RetryTimer(id) => st.(retryTimers := st.retryTimers - {id})
    case _ => st
  }

  /** The id is to be queued by the event. */
  ghost predicate Due(env: Env, st: State, e: Event, id: Id) {
    && Active(st) && AsksFor(st, e, id) && id !in st.candidateSet && !Requested(st, id)
    && Wanted(env, st.store, st.myLang.value, id)
  }

  ghost predicate Sought(st: State, e: Event, ids: seq<Id>) {
    forall id :: id in ids <==> AsksFor(st, e, id)
  }

  lemma {:induction false} NotWaitingIs(st: State, ids: seq<Id>, id: Id)
    ensures id in NotWaiting(st, ids) <==> id in ids && id !in st.pushWait && id !in st.retryTimers
  {
    if ids != [] {
      var n := |ids| - 1;
      NotWaitingIs(st, ids[..n], id);
      assert ids == ids[..n] + [ids[n]];
    }
  }

  lemma AskIsEnqueue(env: Env, st: State, e: Event, now: int) returns (ids: seq<Id>)
    requires Asks(e) && !st.disposed
    ensures Sought(st, e, ids)
    ensures Step(env, st, e, now) == Enqueue(env, Noted(st, e), ids, 0, now) || (ids == [] && Step(env, st, e, now) == st == Noted(st, e))
  {
    hide Enqueue;
    match e
    case Scrolled(xs) =>
      ids := NotWaiting(st, xs);
      forall id ensures id in ids <==> AsksFor(st, e, id) { NotWaitingIs(st, xs, id); }
    case Retry(id) => ids := [id];
    case PushTimer(id) =>
      ids := if id in st.pushWait then [id] else [];
      if id !in st.pushWait { assert st.pushWait - {id} == st.pushWait; }
    case RetryTimer(id) =>
      ids := if id in st.retryTimers then [id] else [];
      if id !in st.retryTimers { assert st.retryTimers - {id} == st.retryTimers; }
  }

  /** What comes of the ids that an event queues. */
  ghost predicate Queued(env: Env, st: State, e: Event, t: State, now: int) {
    var at := Soonest(now, 0, st.lastRequestAt);
    && (forall id :: Due(env, st, e, id) ==>
         id in t.store.pending && (id in t.candidateSet || Requested(t, id)) && id !in t.pushWait)
    && (forall id <- t.candidateSet :: id in st.candidateSet || Due(env, st, e, id))
    && (t.inFlight.Some? || (t.batchTimer.Some? && t.batchTimer.value <= at))
    && (st.inFlight.None? && at <= now && !TimerComesFirst(st, at) ==> t.inFlight.Some? && t.lastRequestAt == Some(now))
    && t == Noted(st, e).(pushWait := t.pushWait, candidates := t.candidates, candidateSet := t.candidateSet,
                          store := Noted(st, e).store.(pending := t.store.pending), inFlight := t.inFlight,
                          batchTimer := t.batchTimer, lastRequestAt := t.lastRequestAt, serial := t.serial, sent := t.sent)
  }

  /** A scroll, a manual retry or the end of a wait queues and marks what it asks for, and a request is not far: at once if one may go out. */
  lemma AskedIsQueued(env: Env, st: State, e: Event, now: int)
    requires Asks(e) && !st.disposed && QueueMatches(st.candidates, st.candidateSet)
    ensures var t := Step(env, st, e, now);
      if exists id :: Due(env, st, e, id) then Queued(env, st, e, t, now) else t == Noted(st, e)
  {
    hide Enqueue, Step, Queued, Wanted, Marked, Sending;
    var ids := AskIsEnqueue(env, st, e, now);
    var p := Noted(st, e);
    if Active(st) {
      var marked, items, k := EnqueuedNow(env, p, ids, now);
      DueIsJoining(env, st, e, ids);
      if id :| Due(env, st, e, id) {
        assert Joining(env, p, ids, id);
        AskedOutcome(env, st, e, ids, marked, Step(env, st, e, now), now, items, k, id);
      } else {
        NothingMarked(env, p, marked, ids);
      }
    } else {
      IdleEnqueue(env, p, ids, now);
    }
  }

  /** A queue with something wanted in it makes a request. */
  lemma SendingSome(env: Env, st: State, t: State, now: int, items: seq<Id>, k: nat, id: Id)
    requires st.myLang.Some? && QueueMatches(st.candidates, st.candidateSet) && Sending(env, st, t, now, items, k)
    requires id in st.candidateSet && Wanted(env, st.store, st.myLang.value, id)
    ensures items != [] && t.inFlight.Some? && t.inFlight.value.ids == items && t.lastRequestAt == Some(now)
  {
    hide Wanted, WantedAmong;
    if t.candidates == [] {
      assert st.candidates[..k] == st.candidates;
      WantedStays(env, st.store, st.myLang.value, st.candidates, id);
    }
  }

  lemma MarkedFacts(env: Env, st: State, e: Event, marked: State, ids: seq<Id>)
    requires Active(st) && Sought(st, e, ids) && Marked(env, Noted(st, e), marked, ids)
    ensures QueueMatches(marked.candidates, marked.candidateSet)
    ensures forall id :: Due(env, st, e, id) ==> id in marked.store.pending && id in marked.candidateSet && id !in marked.pushWait
    ensures forall id <- marked.candidateSet :: id in st.candidateSet || Due(env, st, e, id)
    ensures marked == Noted(st, e).(pushWait := marked.pushWait, candidates := marked.candidates, candidateSet := marked.candidateSet,
                                    store := Noted(st, e).store.(pending := marked.store.pending))
  {
    hide Wanted, InListOrder, QueueMatches, Due, Joining, Sought;
    DueIsJoining(env, st, e, ids);
    DueIsNew(env, st, e);
    var grown := marked.(store := Noted(st, e).store);
    assert Grown(env, Noted(st, e), grown, ids) && grown.candidateSet == marked.candidateSet && grown.candidates == marked.candidates;
    forall id | Due(env, st, e, id) ensures id in marked.store.pending && id in marked.candidateSet && id !in marked.pushWait {
      assert id in grown.candidateSet - Noted(st, e).candidateSet;
    }
  }

  lemma DueIsNew(env: Env, st: State, e: Event)
    ensures forall id :: Due(env, st, e, id) ==> id !in st.candidateSet
    ensures Noted(st, e).candidateSet == st.candidateSet
  {
  }

  /** The three ways on from the marked queue. */
  lemma AskedOutcome(env: Env, st: State, e: Event, ids: seq<Id>, marked: State, t: State, now: int, items: seq<Id>, k: nat, id: Id)
    requires Asks(e) && Active(st) && Sought(st, e, ids) && Marked(env, Noted(st, e), marked, ids) && Due(env, st, e, id)
    requires var at := Soonest(now, 0, st.lastRequestAt);
      if marked.candidateSet == st.candidateSet || st.inFlight.Some? || TimerComesFirst(st, at) then t == marked
      else if at > now then t == marked.(batchTimer := Some(at))
      else Sending(env, marked.(batchTimer := None), t, now, items, k)
    ensures Queued(env, st, e, t, now)
  {
    hide Wanted, Marked, QueueMatches, Sending, Due, Sought;
    MarkedFacts(env, st, e, marked, ids);
    DueIsNew(env, st, e);
    assert id in marked.candidateSet && id !in st.candidateSet;
    var at := Soonest(now, 0, st.lastRequestAt);
    if st.inFlight.None? && !TimerComesFirst(st, at) && at <= now {
      SentOutcome(env, st, e, ids, marked.(batchTimer := None), t, now, items, k, id);
    }
  }

  lemma SentOutcome(env: Env, st: State, e: Event, ids: seq<Id>, m: State, t: State, now: int, items: seq<Id>, k: nat, id: Id)
    requires Asks(e) && Active(st) && Due(env, st, e, id) && st.inFlight.None?
    requires QueueMatches(m.candidates, m.candidateSet) && m.myLang.Some? && Sending(env, m, t, now, items, k)
    requires forall x :: Due(env, st, e, x) ==> x in m.store.pending && x in m.candidateSet && x !in m.pushWait
    requires forall x <- m.candidateSet :: x in st.candidateSet || Due(env, st, e, x)
    requires m == Noted(st, e).(pushWait := m.pushWait, candidates := m.candidates, candidateSet := m.candidateSet,
                                store := Noted(st, e).store.(pending := m.store.pending), batchTimer := None)
    ensures Queued(env, st, e, t, now)
  {
    hide Wanted, QueueMatches, Sending, Due;
    DueIsWanted(env, st, e, m.store);
    SendingSome(env, m, t, now, items, k, id);
    forall x | Due(env, st, e, x) ensures x in t.store.pending && (x in t.candidateSet || Requested(t, x)) && x !in t.pushWait {
      SendingKeepsWanted(env, m, t, now, items, k, x);
    }
    SendingFrame(env, m, t, now, items, k);
  }

  lemma SendingFrame(env: Env, st: State, t: State, now: int, items: seq<Id>, k: nat)
    requires st.myLang.Some? && Sending(env, st, t, now, items, k)
    ensures t.candidateSet <= st.candidateSet
    ensures t == st.(candidates := t.candidates, candidateSet := t.candidateSet, store := st.store.(pending := t.store.pending),
                     inFlight := t.inFlight, serial := t.serial, lastRequestAt := t.lastRequestAt, sent := t.sent)
  {
    hide Wanted, WantedAmong;
  }

  lemma DueIsWanted(env: Env, st: State, e: Event, s: Store)
    requires Active(st) && s.messages == st.store.messages && s.translations == st.store.translations
    ensures forall x :: Due(env, st, e, x) ==> Wanted(env, s, st.myLang.value, x)
  {
    assert forall x :: Wanted(env, s, st.myLang.value, x) == Wanted(env, st.store, st.myLang.value, x);
  }

  lemma IdleEnqueue(env: Env, st: State, ids: seq<Id>, now: int)
    requires !Active(st)
    ensures Enqueue(env, st, ids, 0, now) == st
  {
    hide Collect, ScheduleBatch;
  }

  lemma DueIsJoining(env: Env, st: State, e: Event, ids: seq<Id>)
    requires Active(st) && Sought(st, e, ids)
    ensures forall id :: Due(env, st, e, id) <==> Joining(env, Noted(st, e), ids, id)
  {
    assert forall id :: Wanted(env, st.store, st.myLang.value, id) == Wanted(env, Noted(st, e).store, st.myLang.value, id);
    hide Wanted;
  }

  lemma NothingMarked(env: Env, st: State, marked: State, ids: seq<Id>)
    requires st.myLang.Some? && Marked(env, st, marked, ids) && QueueMatches(st.candidates, st.candidateSet)
    requires forall id :: !Joining(env, st, ids, id)
    ensures marked == st && marked.candidateSet == st.candidateSet
  {
    hide Joining, InListOrder;
    var grown := marked.(store := st.store);
    forall id ensures id !in grown.candidateSet - st.candidateSet { assert !Joining(env, st, ids, id); }
    assert grown.candidateSet - st.candidateSet == {};
    assert grown.candidateSet == st.candidateSet + (grown.candidateSet - st.candidateSet);
    SameSet(grown, st);
    assert marked.candidateSet - st.candidateSet == {} && st.store.pending + {} == st.store.pending && st.pushWait - {} == st.pushWait;
  }
}
