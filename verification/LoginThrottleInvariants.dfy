/** The pruned lists answer like the full history, and what that bounds. */
module LoginThrottleInvariants {
  import opened Prelude
  import opened SlidingWindow
  import opened LoginThrottleModel

  /** The map's list of a key is the key's history without an expired front. */
  ghost predicate Tracks(full: seq<int>, attempts: Attempts, key: Key, clock: int) {
    Prunes(full, HitsOf(attempts, key), clock - WINDOW_MS)
  }

  ghost predicate AllTracked(s: State) {
    forall key :: Tracks(History(s, key), s.attempts, key, s.clock)
  }

  ghost predicate LogAscends(s: State) {
    && (forall i, j :: 0 <= i <= j < |s.log| ==> s.log[i].at <= s.log[j].at)
    && (s.log == [] || s.log[|s.log| - 1].at <= s.clock)
  }

  ghost predicate SizesHold(attempts: Attempts, sweepAt: nat) {
    SWEEP_FLOOR <= sweepAt <= 2 * MAX_TRACKED_KEYS && |attempts| < sweepAt
  }

  ghost predicate ForgottenHolds(s: State) {
    forall k <- s.forgotten :: s.forgotten[k] <= |s.log|
  }

  ghost predicate Inv(s: State) {
    AllTracked(s) && LogAscends(s) && SizesHold(s.attempts, s.sweepAt) && ForgottenHolds(s)
  }

  // ---- histories ----

  lemma TimesPush(log: seq<Hit>, h: Hit, key: Key)
    ensures Times(log + [h], key) == Times(log, key) + (if Touches(h, key) then [h.at] else [])
  {
    assert (log + [h])[..|log|] == log;
  }

  lemma {:induction false} TimesAscend(log: seq<Hit>, key: Key, clock: int)
    requires forall i, j :: 0 <= i <= j < |log| ==> log[i].at <= log[j].at
    requires log == [] || log[|log| - 1].at <= clock
    ensures var t := Times(log, key); Ascending(t) && (t == [] || t[|t| - 1] <= clock)
  {
    if log != [] {
      var n := |log| - 1;
      TimesAscend(log[..n], key, log[n].at);
      if Touches(log[n], key) { AscendingPush(Times(log[..n], key), log[n].at); }
    }
  }

  lemma HistoryAscends(s: State, key: Key)
    requires LogAscends(s)
    ensures var t := History(s, key); Ascending(t) && (t == [] || t[|t| - 1] <= s.clock)
  {
    if From(s, key) <= |s.log| { TimesAscend(s.log[From(s, key)..], key, s.clock); }
  }

  // ---- what one attempt does to the map ----

  lemma PrunedTracks(full: seq<int>, attempts: Attempts, key: Key, clock: int, now: int)
    requires Tracks(full, attempts, key, clock) && clock <= now
    ensures Tracks(full, Pruned(attempts, key, now), key, now)
    ensures HitsOf(Pruned(attempts, key, now), key) == Recent(full, now - WINDOW_MS)
  {
    hide Prunes, Recent;
    PrunedAnswers(full, HitsOf(attempts, key), clock - WINDOW_MS, now - WINDOW_MS);
    SameLength(HitsOf(attempts, key), now - WINDOW_MS);
  }

  lemma SameLength(hits: seq<int>, cutoff: int)
    ensures |Recent(hits, cutoff)| == |hits| ==> Recent(hits, cutoff) == hits
  {
  }

  lemma PrunedElsewhere(attempts: Attempts, key: Key, now: int, other: Key)
    requires other != key
    ensures HitsOf(Pruned(attempts, key, now), other) == HitsOf(attempts, other)
  {
  }

  lemma TracksLater(full: seq<int>, attempts: Attempts, key: Key, clock: int, now: int)
    requires Tracks(full, attempts, key, clock) && clock <= now
    ensures Tracks(full, attempts, key, now)
  {
    PrunesLater(full, HitsOf(attempts, key), clock - WINDOW_MS, now - WINDOW_MS);
  }

  /** After both prunings the two lists are exactly the recent part of the histories, and every key still follows its own. */
  lemma LookedTracks(s: State, account: string, ip: string, now: int, key: Key)
    requires Inv(s) && s.clock <= now
    ensures var a := Looked(s.attempts, account, ip, now);
      && Tracks(History(s, key), a, key, now)
      && (key in {Acct(account), Pair(account, ip)} ==> HitsOf(a, key) == Recent(History(s, key), now - WINDOW_MS))
  {
    hide Prunes, Pruned, Recent, History;
    var first := Pruned(s.attempts, Acct(account), now);
    assert Tracks(History(s, key), s.attempts, key, s.clock);
    if key == Acct(account) {
      PrunedTracks(History(s, key), s.attempts, key, s.clock, now);
      PrunedElsewhere(first, Pair(account, ip), now, key);
    } else {
      PrunedElsewhere(s.attempts, Acct(account), now, key);
      if key == Pair(account, ip) {
        PrunedTracks(History(s, key), first, key, s.clock, now);
      } else {
        PrunedElsewhere(first, Pair(account, ip), now, key);
        TracksLater(History(s, key), s.attempts, key, s.clock, now);
      }
    }
  }

  /** The throttle's answer is the answer of the full history, however often the lists were pruned or swept. */
  lemma AnswersAsHistory(s: State, account: string, ip: string, now: int)
    requires Inv(s) && s.clock <= now
    ensures Admits(s.attempts, account, ip, now) <==>
      Counted(s, Pair(account, ip), now) < PAIR_LIMIT &&
      (Counted(s, Acct(account), now) < ACCOUNT_LIMIT || Counted(s, Pair(account, ip), now) == 0)
  {
    hide Inv, Recent, History, CountIn, Looked, Ascending;
    LookedTracks(s, account, ip, now, Acct(account));
    LookedTracks(s, account, ip, now, Pair(account, ip));
    assert LogAscends(s) by { InvParts(s); }
    HistoryAscends(s, Acct(account));
    HistoryAscends(s, Pair(account, ip));
    RecentCounts(History(s, Acct(account)), now - WINDOW_MS, now);
    RecentCounts(History(s, Pair(account, ip)), now - WINDOW_MS, now);
  }

  lemma InvParts(s: State)
    requires Inv(s)
    ensures AllTracked(s) && LogAscends(s) && SizesHold(s.attempts, s.sweepAt) && ForgottenHolds(s)
  {
  }

  // ---- one step keeps everything ----

  /** The history of a key after one more attempt, before anything is forgotten. */
  function Longer(s: State, account: string, ip: string, now: int): State {
    s.(log := s.log + [Hit(now, account, ip)], clock := now)
  }

  lemma HistoryPush(s: State, account: string, ip: string, now: int, key: Key)
    requires ForgottenHolds(s)
    ensures History(Longer(s, account, ip, now), key) ==
      History(s, key) + (if key in {Acct(account), Pair(account, ip)} then [now] else [])
  {
    hide Times;
    var from := From(s, key);
    var h := Hit(now, account, ip);
    assert from <= |s.log|;
    assert (s.log + [h])[from..] == s.log[from..] + [h];
    TimesPush(s.log[from..], h, key);
  }

  lemma RecordedTracks(s: State, account: string, ip: string, now: int, key: Key)
    requires Inv(s) && s.clock <= now
    ensures Tracks(History(Longer(s, account, ip, now), key), Recorded(s.attempts, account, ip, now), key, now)
  {
    hide Inv, Prunes, History, Looked;
    InvParts(s);
    LookedTracks(s, account, ip, now, key);
    HistoryPush(s, account, ip, now, key);
    var looked := Looked(s.attempts, account, ip, now);
    if key in {Acct(account), Pair(account, ip)} {
      PushPrunes(History(s, key), HitsOf(looked, key), now - WINDOW_MS, now);
      assert HitsOf(Recorded(s.attempts, account, ip, now), key) == HitsOf(looked, key) + [now];
    } else {
      assert History(s, key) + [] == History(s, key);
    }
  }

  lemma LongerAscends(s: State, account: string, ip: string, now: int)
    requires LogAscends(s) && s.clock <= now
    ensures LogAscends(Longer(s, account, ip, now))
  {
  }

  lemma SweptTracks(full: seq<int>, attempts: Attempts, key: Key, now: int)
    requires Tracks(full, attempts, key, now) && Ascending(full)
    ensures Tracks(full, Swept(attempts, now), key, now)
  {
    var hits := HitsOf(attempts, key);
    if Expired(hits, now) { AllExpired(full, hits, now - WINDOW_MS, now - WINDOW_MS); }
  }

  lemma CapTracks(full: seq<int>, attempts: Attempts, sweepAt: nat, now: int, victims: set<Key>, key: Key)
    requires Tracks(full, attempts, key, now) && Ascending(full)
    ensures Tracks(if key in victims && Overfull(attempts, sweepAt, now) then [] else full, Cap(attempts, sweepAt, now, victims).0, key, now)
  {
    hide Swept;
    SweptTracks(full, attempts, key, now);
  }

  lemma CapSizes(attempts: Attempts, sweepAt: nat, now: int, victims: set<Key>)
    requires SWEEP_FLOOR <= sweepAt <= 2 * MAX_TRACKED_KEYS && ValidVictims(attempts, sweepAt, now, victims)
    ensures var (left, next) := Cap(attempts, sweepAt, now, victims); SizesHold(left, next)
  {
    hide Swept;
    if Overfull(attempts, sweepAt, now) {
      var swept := Swept(attempts, now);
      assert (swept - victims).Keys == swept.Keys - victims;
      assert |swept.Keys - victims| == |swept.Keys| - |victims|;
    }
  }

  lemma ForgetKeeps(s: State, keys: set<Key>, at: nat, key: Key)
    requires at == |s.log|
    ensures History(s.(forgotten := Forget(s.forgotten, keys, at)), key) == if key in keys then [] else History(s, key)
  {
    assert s.log[|s.log|..] == [];
  }

  lemma AdmittedState(s: State, account: string, ip: string, now: int, victims: set<Key>)
    requires Admits(s.attempts, account, ip, now)
    ensures var t, longer := OnConsume(s, account, ip, now, victims), Longer(s, account, ip, now);
      && t.attempts == Cap(Recorded(s.attempts, account, ip, now), s.sweepAt, now, victims).0
      && t.log == longer.log && t.forgotten == Forget(longer.forgotten, victims, |longer.log|)
  {
    hide Admits, Recorded, Cap, Forget;
  }

  lemma VictimsOfOverfull(attempts: Attempts, sweepAt: nat, now: int, victims: set<Key>)
    requires ValidVictims(attempts, sweepAt, now, victims)
    ensures victims != {} ==> Overfull(attempts, sweepAt, now)
  {
  }

  lemma AdmittedTracks(s: State, account: string, ip: string, now: int, victims: set<Key>, key: Key)
    requires Inv(s) && Allowed(s, Consume(account, ip, now, victims)) && Admits(s.attempts, account, ip, now)
    ensures var t := OnConsume(s, account, ip, now, victims); Tracks(History(t, key), t.attempts, key, now)
  {
    hide Inv, OnConsume, Recorded, History, ValidVictims, Admits, Tracks, Cap, Overfull, Forget, Ascending, LogAscends;
    InvParts(s);
    var longer, recorded := Longer(s, account, ip, now), Recorded(s.attempts, account, ip, now);
    RecordedTracks(s, account, ip, now, key);
    LongerAscends(s, account, ip, now);
    HistoryAscends(longer, key);
    CapTracks(History(longer, key), recorded, s.sweepAt, now, victims, key);
    ForgetKeeps(longer, victims, |longer.log|, key);
    AdmittedState(s, account, ip, now, victims);
    VictimsOfOverfull(recorded, s.sweepAt, now, victims);
    SameHistory(OnConsume(s, account, ip, now, victims), longer.(forgotten := Forget(longer.forgotten, victims, |longer.log|)), key);
  }

  lemma SameHistory(s: State, t: State, key: Key)
    requires s.log == t.log && s.forgotten == t.forgotten
    ensures History(s, key) == History(t, key)
  {
  }

  lemma ConsumeKeeps(s: State, account: string, ip: string, now: int, victims: set<Key>)
    requires Inv(s) && Allowed(s, Consume(account, ip, now, victims))
    ensures Inv(OnConsume(s, account, ip, now, victims))
  {
    hide Recorded, History, Oldest, Tracks, Looked, Cap;
    var t := OnConsume(s, account, ip, now, victims);
    if Admits(s.attempts, account, ip, now) {
      forall key ensures Tracks(History(t, key), t.attempts, key, now) {
        AdmittedTracks(s, account, ip, now, victims, key);
      }
      LongerAscends(s, account, ip, now);
      CapSizes(Recorded(s.attempts, account, ip, now), s.sweepAt, now, victims);
    } else {
      forall key ensures Tracks(History(t, key), t.attempts, key, now) {
        LookedTracks(s, account, ip, now, key);
        SameHistory(s, t, key);
      }
      LookedShrinks(s.attempts, account, ip, now);
    }
  }

  lemma PrunedShrinks(attempts: Attempts, key: Key, now: int)
    ensures Pruned(attempts, key, now).Keys <= attempts.Keys && |Pruned(attempts, key, now)| <= |attempts|
  {
    hide Recent;
    var after := Pruned(attempts, key, now);
    if |Recent(HitsOf(attempts, key), now - WINDOW_MS)| != |HitsOf(attempts, key)| {
      assert key in attempts;
      assert after.Keys <= attempts.Keys;
      assert |after.Keys| <= |attempts.Keys| by { Subset(after.Keys, attempts.Keys); }
    }
  }

  lemma Subset<T>(a: set<T>, b: set<T>)
    requires a <= b
    ensures |a| <= |b|
  {
    assert a + (b - a) == b;
  }

  lemma LookedShrinks(attempts: Attempts, account: string, ip: string, now: int)
    ensures |Looked(attempts, account, ip, now)| <= |attempts|
  {
    PrunedShrinks(attempts, Acct(account), now);
    PrunedShrinks(Pruned(attempts, Acct(account), now), Pair(account, ip), now);
  }

  lemma SuccessKeeps(s: State, account: string, ip: string)
    requires Inv(s)
    ensures Inv(OnSuccess(s, account, ip))
  {
    hide History, Tracks;
    var t := OnSuccess(s, account, ip);
    forall key ensures Tracks(History(t, key), t.attempts, key, t.clock) { SuccessTracks(s, account, ip, key); }
    Subset(t.attempts.Keys, s.attempts.Keys);
  }

  lemma SuccessTracks(s: State, account: string, ip: string, key: Key)
    requires AllTracked(s)
    ensures var t := OnSuccess(s, account, ip); Tracks(History(t, key), t.attempts, key, t.clock)
  {
    hide History, Forget;
    var t := OnSuccess(s, account, ip);
    assert Tracks(History(s, key), s.attempts, key, s.clock);
    ForgetKeeps(s, {Acct(account), Pair(account, ip)}, |s.log|, key);
    SameHistory(t, s.(forgotten := t.forgotten), key);
  }

  lemma {:induction false} RunKeeps(clock: int, events: seq<Event>)
    requires AllowedRun(Initial(clock), events)
    ensures Inv(Run(Initial(clock), events))
  {
    hide Inv, OnConsume, OnSuccess;
    if events == [] {
      InitialHolds(clock);
    } else {
      var n := |events| - 1;
      RunKeeps(clock, events[..n]);
      match events[n] {
        case Consume(account, ip, now, victims) => ConsumeKeeps(Run(Initial(clock), events[..n]), account, ip, now, victims);
        case Success(account, ip) => SuccessKeeps(Run(Initial(clock), events[..n]), account, ip);
      }
    }
  }

  lemma InitialHolds(clock: int)
    ensures Inv(Initial(clock))
  {
  }

  // ---- what the throttle bounds ----

  /** No success cleared the key, and it was never evicted. */
  predicate Remembered(s: State, key: Key) { key !in s.forgotten }

  /** The account and all its pairs. */
  ghost predicate AccountRemembered(s: State, account: string) {
    Remembered(s, Acct(account)) && forall ip: string :: Remembered(s, Pair(account, ip))
  }

  lemma ForgetKeys(forgotten: map<Key, nat>, keys: set<Key>, at: nat)
    ensures Forget(forgotten, keys, at).Keys == forgotten.Keys + keys
  {
  }

  /** What is remembered after a step was remembered before it. */
  lemma RememberedBefore(s: State, e: Event)
    ensures forall key :: Remembered(Step(s, e), key) ==> Remembered(s, key)
  {
    hide Forget;
    if e.Success? {
      ForgetKeys(s.forgotten, {Acct(e.account), Pair(e.account, e.ip)}, |s.log|);
    } else {
      ForgetKeys(s.forgotten, e.victims, |s.log| + 1);
    }
  }

  /** In every run the answer to an attempt is the full history's: under 5 for the pair, and under 15 for the account or none for the pair. */
  lemma RunAnswersAsHistory(clock: int, events: seq<Event>, account: string, ip: string, now: int)
    requires AllowedRun(Initial(clock), events) && Run(Initial(clock), events).clock <= now
    ensures var s := Run(Initial(clock), events);
      Admits(s.attempts, account, ip, now) <==>
      Counted(s, Pair(account, ip), now) < 5 &&
      (Counted(s, Acct(account), now) < 15 || Counted(s, Pair(account, ip), now) == 0)
  {
    hide Inv, Counted, Admits, Run, AllowedRun;
    RunKeeps(clock, events);
    AnswersAsHistory(Run(Initial(clock), events), account, ip, now);
  }

  lemma PlainHistory(s: State, key: Key)
    requires Remembered(s, key)
    ensures History(s, key) == Times(s.log, key)
  {
    assert s.log[0..] == s.log;
  }

  lemma {:induction false} PairLimited(clock: int, events: seq<Event>, account: string, ip: string)
    requires AllowedRun(Initial(clock), events) && Remembered(Run(Initial(clock), events), Pair(account, ip))
    ensures Limited(Times(Run(Initial(clock), events).log, Pair(account, ip)), WINDOW_MS, PAIR_LIMIT)
  {
    hide Inv, Admits, Cap, Looked, Limited, Times;
    if events == [] {
      NothingLimited(account, ip);
    } else {
      var n := |events| - 1;
      var s, e := Run(Initial(clock), events[..n]), events[n];
      RememberedBefore(s, e);
      PairLimited(clock, events[..n], account, ip);
      RunKeeps(clock, events[..n]);
      if e.Consume? && Admits(s.attempts, e.account, e.ip, e.now) { OneMoreOfPair(s, e.account, e.ip, e.now, account, ip); }
    }
  }

  lemma OneMoreOfPair(s: State, tried: string, from: string, now: int, account: string, ip: string)
    requires Inv(s) && Remembered(s, Pair(account, ip)) && s.clock <= now && Admits(s.attempts, tried, from, now)
    requires Limited(Times(s.log, Pair(account, ip)), WINDOW_MS, PAIR_LIMIT)
    ensures Limited(Times(s.log + [Hit(now, tried, from)], Pair(account, ip)), WINDOW_MS, PAIR_LIMIT)
  {
    hide Inv, Admits, Limited, Times, CountIn, Counted;
    var before := Times(s.log, Pair(account, ip));
    TimesPush(s.log, Hit(now, tried, from), Pair(account, ip));
    if tried == account && from == ip {
      AnswersAsHistory(s, account, ip, now);
      CountedPlain(s, Pair(account, ip), now);
      LimitedPush(before, now, WINDOW_MS, PAIR_LIMIT);
    } else {
      assert before + [] == before;
    }
  }

  lemma NothingLimited(account: string, ip: string)
    ensures Limited(Times([], Pair(account, ip)), WINDOW_MS, PAIR_LIMIT)
  {
  }

  lemma CountedPlain(s: State, key: Key, now: int)
    requires Remembered(s, key)
    ensures Counted(s, key, now) == CountIn(Times(s.log, key), now - WINDOW_MS, now)
  {
    PlainHistory(s, key);
  }

  /** No window of 300,000 ms lets more than 5 attempts of one (account, IP) through, as long as that pair is remembered. */
  lemma AtMostFivePerPair(clock: int, events: seq<Event>, account: string, ip: string, lo: int)
    requires AllowedRun(Initial(clock), events) && Remembered(Run(Initial(clock), events), Pair(account, ip))
    ensures CountIn(Times(Run(Initial(clock), events).log, Pair(account, ip)), lo, lo + 300_000) <= 5
  {
    hide Inv, CountIn, Limited, Run, AllowedRun, History;
    RunKeeps(clock, events);
    var s := Run(Initial(clock), events);
    InvParts(s);
    HistoryAscends(s, Pair(account, ip));
    PlainHistory(s, Pair(account, ip));
    PairLimited(clock, events, account, ip);
    WindowHolds(Times(s.log, Pair(account, ip)), WINDOW_MS, PAIR_LIMIT, lo);
  }

  /** The IPs from which an account was tried in a window. */
  function Ips(log: seq<Hit>, account: string, lo: int, hi: int): set<string> {
    if log == [] then {}
    else
      var h := log[|log| - 1];
      Ips(log[..|log| - 1], account, lo, hi) + (if h.account == account && lo < h.at <= hi then {h.ip} else {})
  }

  lemma IpsPush(log: seq<Hit>, h: Hit, account: string, lo: int, hi: int)
    ensures Ips(log + [h], account, lo, hi) == Ips(log, account, lo, hi) + (if h.account == account && lo < h.at <= hi then {h.ip} else {})
  {
    assert (log + [h])[..|log|] == log;
  }

  /** An IP in the window has a hit there. */
  lemma {:induction false} IpHasHit(log: seq<Hit>, account: string, ip: string, lo: int, hi: int)
    requires ip in Ips(log, account, lo, hi)
    ensures CountIn(Times(log, Pair(account, ip)), lo, hi) > 0
  {
    var n := |log| - 1;
    TimesPush(log[..n], log[n], Pair(account, ip));
    assert log[..n] + [log[n]] == log;
    var before := Times(log[..n], Pair(account, ip));
    CountConcat(before, [log[n].at], lo, hi);
    if ip in Ips(log[..n], account, lo, hi) {
      IpHasHit(log[..n], account, ip, lo, hi);
      CountConcat(before, [], lo, hi);
      assert before + [] == before;
    } else {
      assert log[n].account == account && log[n].ip == ip;
      assert [log[n].at][..0] == [];
    }
  }

  /** One more attempt on an account that already had 15 in the window comes from an IP that had none. */
  lemma BeyondFifteen(s: State, account: string, ip: string, now: int, lo: int)
    requires Inv(s) && AccountRemembered(s, account) && s.clock <= now && lo < now <= lo + WINDOW_MS
    requires Admits(s.attempts, account, ip, now)
    requires CountIn(Times(s.log, Acct(account)), lo, lo + WINDOW_MS) >= ACCOUNT_LIMIT
    ensures ip !in Ips(s.log, account, lo, lo + WINDOW_MS)
  {
    hide Inv, Admits, CountIn, Times, Counted, Ips, History;
    AnswersAsHistory(s, account, ip, now);
    WindowEndsNow(s, Acct(account), lo, now);
    WindowEndsNow(s, Pair(account, ip), lo, now);
    if ip in Ips(s.log, account, lo, lo + WINDOW_MS) { IpHasHit(s.log, account, ip, lo, lo + WINDOW_MS); }
  }

  lemma WindowEndsNow(s: State, key: Key, lo: int, now: int)
    requires Inv(s) && Remembered(s, key) && s.clock <= now && lo < now <= lo + WINDOW_MS
    ensures CountIn(Times(s.log, key), lo, lo + WINDOW_MS) <= Counted(s, key, now)
  {
    hide CountIn, Times, History, AllTracked, Counted;
    HistoryAscends(s, key);
    PlainHistory(s, key);
    CountedPlain(s, key, now);
    var t := Times(s.log, key);
    AtMostNow(t, lo, lo + WINDOW_MS, now);
    CountGrows(t, lo, now - WINDOW_MS, now, now);
  }

  /** No window of 300,000 ms lets more than 15 attempts on a remembered account through, and one for each IP they come from. */
  lemma {:induction false} AtMostFifteenAndOnePerIp(clock: int, events: seq<Event>, account: string, lo: int)
    requires AllowedRun(Initial(clock), events) && AccountRemembered(Run(Initial(clock), events), account)
    ensures var log := Run(Initial(clock), events).log;
      CountIn(Times(log, Acct(account)), lo, lo + 300_000) <= 15 + |Ips(log, account, lo, lo + 300_000)|
  {
    hide Inv, Admits, Counted, Cap, Looked, CountIn, Times, Ips;
    var hi := lo + WINDOW_MS;
    if events == [] {
      NothingCounted(account, lo, hi);
    } else {
      var n := |events| - 1;
      var s, e := Run(Initial(clock), events[..n]), events[n];
      RememberedBefore(s, e);
      AtMostFifteenAndOnePerIp(clock, events[..n], account, lo);
      RunKeeps(clock, events[..n]);
      if e.Consume? && Admits(s.attempts, e.account, e.ip, e.now) {
        OneMoreHit(s, e.account, e.ip, e.now, account, lo);
      }
    }
  }

  lemma NothingCounted(account: string, lo: int, hi: int)
    ensures CountIn(Times([], Acct(account)), lo, hi) == 0 && Ips([], account, lo, hi) == {}
  {
  }

  lemma OneMoreHit(s: State, tried: string, ip: string, now: int, account: string, lo: int)
    requires Inv(s) && AccountRemembered(s, account) && s.clock <= now && Admits(s.attempts, tried, ip, now)
    requires CountIn(Times(s.log, Acct(account)), lo, lo + WINDOW_MS) <= ACCOUNT_LIMIT + |Ips(s.log, account, lo, lo + WINDOW_MS)|
    ensures var log := s.log + [Hit(now, tried, ip)];
      CountIn(Times(log, Acct(account)), lo, lo + WINDOW_MS) <= ACCOUNT_LIMIT + |Ips(log, account, lo, lo + WINDOW_MS)|
  {
    hide Inv, Admits, CountIn, Times, Ips;
    var hi := lo + WINDOW_MS;
    var h, before := Hit(now, tried, ip), Times(s.log, Acct(account));
    TimesPush(s.log, h, Acct(account));
    IpsPush(s.log, h, account, lo, hi);
    if tried == account {
      CountPush(before, now, lo, hi);
      if lo < now <= hi && CountIn(before, lo, hi) >= ACCOUNT_LIMIT { BeyondFifteen(s, account, ip, now, lo); }
    } else {
      assert before + [] == before;
    }
  }

  lemma CountPush(s: seq<int>, now: int, lo: int, hi: int)
    ensures CountIn(s + [now], lo, hi) == CountIn(s, lo, hi) + (if lo < now <= hi then 1 else 0)
  {
    assert (s + [now])[..|s|] == s;
  }

  // ---- memory, and getting in again ----

  /** In every run the map holds fewer than 20,000 keys after every call. */
  lemma FewerThanTwentyThousand(clock: int, events: seq<Event>)
    requires AllowedRun(Initial(clock), events)
    ensures var s := Run(Initial(clock), events); |s.attempts| < s.sweepAt <= 20_000
  {
    hide Inv, Run;
    RunKeeps(clock, events);
    InvParts(Run(Initial(clock), events));
  }

  /** While at most 10,000 keys are live no unexpired hit is lost: every key keeps its recent hits. */
  lemma NoLiveKeyLost(s: State, account: string, ip: string, now: int, victims: set<Key>, key: Key)
    requires Inv(s) && Allowed(s, Consume(account, ip, now, victims))
    requires |Swept(Recorded(s.attempts, account, ip, now), now)| <= MAX_TRACKED_KEYS
    ensures var kept := HitsOf(OnConsume(s, account, ip, now, victims).attempts, key);
      Recent(HitsOf(s.attempts, key), now - WINDOW_MS) <= Recent(kept, now - WINDOW_MS)
  {
    hide Inv, Recent, Swept, Recorded, Admits, Looked, History, Tracks;
    var t := OnConsume(s, account, ip, now, victims);
    var cutoff := now - WINDOW_MS;
    ConsumeKeeps(s, account, ip, now, victims);
    RecentFromHistory(s, key, now);
    RecentFromHistory(t, key, now);
    if Admits(s.attempts, account, ip, now) {
      InvParts(s);
      HistoryPush(s, account, ip, now, key);
      SameHistory(t, Longer(s, account, ip, now), key) by { assert Forget(s.forgotten, {}, |s.log| + 1) == s.forgotten; }
      RecentGrows(History(s, key), History(t, key), cutoff, now);
    } else {
      SameHistory(s, t, key);
    }
  }

  lemma RecentFromHistory(s: State, key: Key, now: int)
    requires Inv(s) && s.clock <= now
    ensures Recent(HitsOf(s.attempts, key), now - WINDOW_MS) == Recent(History(s, key), now - WINDOW_MS)
  {
    assert Tracks(History(s, key), s.attempts, key, s.clock);
    PrunedAnswers(History(s, key), HitsOf(s.attempts, key), s.clock - WINDOW_MS, now - WINDOW_MS);
  }

  lemma {:induction false} RecentGrows(a: seq<int>, b: seq<int>, cutoff: int, now: int)
    requires b == a || b == a + [now]
    ensures Recent(a, cutoff) <= Recent(b, cutoff)
  {
    if a != [] && a[0] <= cutoff {
      assert b[1..] == a[1..] || b[1..] == a[1..] + [now];
      RecentGrows(a[1..], b[1..], cutoff, now);
    }
  }

  /** A pair is let through again once its recorded hits are 300,000 ms old, whatever was blocked in between. */
  lemma LetInAgain(clock: int, events: seq<Event>, account: string, ip: string, now: int)
    requires AllowedRun(Initial(clock), events) && Run(Initial(clock), events).clock <= now
    requires forall h <- Run(Initial(clock), events).log :: h.account == account && h.ip == ip ==> h.at <= now - WINDOW_MS
    ensures Admits(Run(Initial(clock), events).attempts, account, ip, now)
  {
    hide Inv, Run, AllowedRun, Admits, CountIn;
    var s := Run(Initial(clock), events);
    RunAnswersAsHistory(clock, events, account, ip, now);
    if From(s, Pair(account, ip)) <= |s.log| {
      OldTimes(s.log[From(s, Pair(account, ip))..], account, ip, now - WINDOW_MS);
    }
    CountNone(History(s, Pair(account, ip)), now - WINDOW_MS, now);
  }

  lemma {:induction false} OldTimes(log: seq<Hit>, account: string, ip: string, cutoff: int)
    requires forall h <- log :: h.account == account && h.ip == ip ==> h.at <= cutoff
    ensures forall i :: 0 <= i < |Times(log, Pair(account, ip))| ==> Times(log, Pair(account, ip))[i] <= cutoff
  {
    if log != [] {
      OldTimes(log[..|log| - 1], account, ip, cutoff);
      assert log[|log| - 1] in log;
    }
  }

  /** A blocked attempt leaves no trace: every later attempt is answered as if it had not been made. */
  lemma BlockedLeavesNoTrace(s: State, account: string, ip: string, now: int, other: string, otherIp: string, later: int)
    requires Inv(s) && s.clock <= now <= later && !Admits(s.attempts, account, ip, now)
    ensures Admits(OnConsume(s, account, ip, now, {}).attempts, other, otherIp, later) <==> Admits(s.attempts, other, otherIp, later)
  {
    hide Inv, Admits, CountIn, History;
    var t := OnConsume(s, account, ip, now, {});
    ConsumeKeeps(s, account, ip, now, {});
    AnswersAsHistory(s, other, otherIp, later);
    AnswersAsHistory(t, other, otherIp, later);
    SameHistory(s, t, Acct(other));
    SameHistory(s, t, Pair(other, otherIp));
  }

  // ---- keys as strings ----

  lemma FirstLetter(k: Key)
    ensures |Encode(k)| >= 5 && Encode(k)[0] == if k.Acct? then 'a' else 'p'
    ensures Encode(k)[5..] == if k.Acct? then k.account else k.account + ['\0'] + k.ip
  {
    if k.Pair? { assert Encode(k) == "pair:" + (k.account + ['\0'] + k.ip); }
  }

  /** Different keys are different strings, as long as no IP holds a NUL; a nickname may. */
  lemma KeysDiffer(a: Key, b: Key)
    requires a.Pair? ==> '\0' !in a.ip
    requires b.Pair? ==> '\0' !in b.ip
    ensures Encode(a) == Encode(b) ==> a == b
  {
    hide Encode;
    FirstLetter(a);
    FirstLetter(b);
    if Encode(a) == Encode(b) && a.Pair? { SameSplit(a.account, a.ip, b.account, b.ip); }
  }

  lemma LastNul(a: string, x: string)
    requires '\0' !in x
    ensures var s := a + ['\0'] + x; s[|a|] == '\0' && forall k :: |a| < k < |s| ==> s[k] != '\0'
  {
    var s := a + ['\0'] + x;
    forall k | |a| < k < |s| ensures s[k] != '\0' { assert s[k] == x[k - |a| - 1]; }
  }

  lemma SameSplit(a: string, x: string, b: string, y: string)
    requires a + ['\0'] + x == b + ['\0'] + y && '\0' !in x && '\0' !in y
    ensures a == b && x == y
  {
    var s := a + ['\0'] + x;
    LastNul(a, x);
    LastNul(b, y);
    assert a == s[..|a|] && b == s[..|b|] && x == s[|a| + 1..] && y == s[|b| + 1..];
  }

  /** With a NUL in an IP two pairs share a counter. */
  lemma NulMixesKeys()
    ensures Encode(Pair(['a', '\0', 'b'], "c")) == Encode(Pair("a", ['b', '\0', 'c']))
  {
    assert "pair:" + ['a', '\0', 'b'] + ['\0'] + "c" == "pair:" + "a" + ['\0'] + ['b', '\0', 'c'];
  }
}
