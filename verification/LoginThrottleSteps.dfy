/** Attempts, successes and evictions of server/src/common/account-login-throttle.ts, one by one and in terms of the history alone. */
module LoginThrottleSteps {
  import opened Prelude
  import opened SlidingWindow
  import opened LoginThrottleModel
  import opened LoginThrottleInvariants

  // ---- counting in the history ----

  /** The attempt at this place of the history counts against the key. */
  predicate Concerns(h: Hit, key: Key, lo: int, hi: int) {
    h.account == key.account && (key.Pair? ==> h.ip == key.ip) && lo < h.at <= hi
  }

  function Places(log: seq<Hit>, from: nat, key: Key, lo: int, hi: int): set<nat> {
    set i: nat | from <= i < |log| && Concerns(log[i], key, lo, hi)
  }

  /** How many attempts of the last five minutes were let through for the key, since it was last forgotten. */
  function RecentHits(s: State, key: Key, now: int): nat {
    |Places(s.log, if key in s.forgotten then s.forgotten[key] else 0, key, now - 300_000, now)|
  }

  lemma {:induction false} TimesArePlaces(log: seq<Hit>, from: nat, key: Key, lo: int, hi: int)
    requires from <= |log|
    ensures CountIn(Times(log[from..], key), lo, hi) == |Places(log, from, key, lo, hi)|
    decreases |log|
  {
    hide Concerns, Touches;
    if from == |log| {
      assert log[from..] == [] && Places(log, from, key, lo, hi) == {};
    } else {
      var n := |log| - 1;
      TimesArePlaces(log[..n], from, key, lo, hi);
      assert log[from..] == log[..n][from..] + [log[n]];
      TimesPush(log[..n][from..], log[n], key);
      TouchCounts(Times(log[..n][from..], key), log[n], key, lo, hi);
      PlacesPush(log, from, key, lo, hi);
    }
  }

  lemma TouchCounts(times: seq<int>, h: Hit, key: Key, lo: int, hi: int)
    ensures CountIn(times + (if Touches(h, key) then [h.at] else []), lo, hi) ==
      CountIn(times, lo, hi) + (if Concerns(h, key, lo, hi) then 1 else 0)
  {
    assert Touches(h, key) <==> h.account == key.account && (key.Pair? ==> h.ip == key.ip);
    if Touches(h, key) { CountPush(times, h.at, lo, hi); } else { assert times + [] == times; }
  }

  lemma PlacesPush(log: seq<Hit>, from: nat, key: Key, lo: int, hi: int)
    requires from < |log|
    ensures var n := |log| - 1;
      |Places(log, from, key, lo, hi)| == |Places(log[..n], from, key, lo, hi)| + (if Concerns(log[n], key, lo, hi) then 1 else 0)
  {
    hide Concerns;
    var n := |log| - 1;
    assert forall i: nat :: i < n ==> log[..n][i] == log[i];
    assert Places(log, from, key, lo, hi) == Places(log[..n], from, key, lo, hi) + (if Concerns(log[n], key, lo, hi) then {n} else {});
  }

  lemma CountedIs(s: State, key: Key, now: int)
    requires ForgottenHolds(s)
    ensures Counted(s, key, now) == RecentHits(s, key, now)
  {
    hide Concerns, Touches, Places;
    TimesArePlaces(s.log, From(s, key), key, now - 300_000, now);
  }

  /**
    * In every run an attempt is let through, and recorded, exactly when fewer than 5 of its account and IP were in the last
    * five minutes, and fewer than 15 of its account or none of its IP.
    */
  lemma AttemptAnswered(clock: int, events: seq<Event>, account: string, ip: string, now: int, victims: set<Key>)
    requires AllowedRun(Initial(clock), events) && Allowed(Run(Initial(clock), events), Consume(account, ip, now, victims))
    ensures var s := Run(Initial(clock), events); var t := Step(s, Consume(account, ip, now, victims));
      var ofPair, ofAccount := RecentHits(s, Pair(account, ip), now), RecentHits(s, Acct(account), now);
      && t.log == s.log + (if ofPair < 5 && (ofAccount < 15 || ofPair == 0) then [Hit(now, account, ip)] else [])
      && t.clock == now && (t.log == s.log ==> t.forgotten == s.forgotten)
  {
    hide Run, AllowedRun, Counted, RecentHits, Cap, Recorded, Looked, Admits, Forget, Inv, ValidVictims;
    var s := Run(Initial(clock), events);
    RunKeeps(clock, events);
    InvParts(s);
    RunAnswersAsHistory(clock, events, account, ip, now);
    CountedIs(s, Pair(account, ip), now);
    CountedIs(s, Acct(account), now);
    assert s.log + [] == s.log;
  }

  lemma ForgetAt(forgotten: map<Key, nat>, keys: set<Key>, at: nat, key: Key)
    ensures var f := Forget(forgotten, keys, at);
      if key in keys then key in f && f[key] == at
      else (key in f <==> key in forgotten) && (key in f ==> f[key] == forgotten[key])
  {
  }

  /** A success clears what was recorded for its account and for its account and IP, and nothing else. */
  lemma SuccessClears(clock: int, events: seq<Event>, account: string, ip: string, key: Key, now: int)
    requires AllowedRun(Initial(clock), events)
    ensures var s := Run(Initial(clock), events); var t := Step(s, Success(account, ip));
      && t.log == s.log && t.clock == s.clock
      && RecentHits(t, key, now) == (if key == Acct(account) || key == Pair(account, ip) then 0 else RecentHits(s, key, now))
  {
    hide Run, AllowedRun, Forget, Concerns;
    var s := Run(Initial(clock), events);
    ForgetAt(s.forgotten, {Acct(account), Pair(account, ip)}, |s.log|, key);
    assert Places(s.log, |s.log|, key, now - 300_000, now) == {};
  }

  /** So the next attempt from there is let through. */
  lemma NextAfterSuccess(clock: int, events: seq<Event>, account: string, ip: string, now: int, victims: set<Key>)
    requires AllowedRun(Initial(clock), events)
    requires Allowed(Step(Run(Initial(clock), events), Success(account, ip)), Consume(account, ip, now, victims))
    ensures var t := Step(Run(Initial(clock), events), Success(account, ip));
      Step(t, Consume(account, ip, now, victims)).log == t.log + [Hit(now, account, ip)]
  {
    hide Run, AllowedRun, RecentHits, Step, Allowed;
    var all := events + [Success(account, ip)];
    assert all[..|events|] == events;
    RunOneMore(clock, events, Success(account, ip));
    SuccessClears(clock, events, account, ip, Pair(account, ip), now);
    SuccessClears(clock, events, account, ip, Acct(account), now);
    AttemptAnswered(clock, all, account, ip, now, victims);
  }

  lemma RunOneMore(clock: int, events: seq<Event>, e: Event)
    requires AllowedRun(Initial(clock), events) && e.Success?
    ensures var all := events + [e];
      AllowedRun(Initial(clock), all) && Run(Initial(clock), all) == Step(Run(Initial(clock), events), e)
  {
    var all := events + [e];
    assert all[..|events|] == events && all[|events|] == e;
  }

  // ---- the memory cap ----

  /** The key's last recorded attempt is younger than five minutes. */
  predicate Live(attempts: Attempts, key: Key, now: int) {
    key in attempts && attempts[key] != [] && attempts[key][|attempts[key]| - 1] > now - 300_000
  }

  /** What is left of the map when it has grown to the threshold: the live keys, or the 5000 youngest of more than 10,000. */
  ghost predicate Capped(attempts: Attempts, left: Attempts, now: int) {
    && (forall key <- left :: Live(attempts, key, now) && left[key] == attempts[key])
    && (var live := set key | key in attempts && Live(attempts, key, now);
        if |live| <= 10_000 then left.Keys == live
        else
          && |left| == 5_000
          && forall kept, gone :: kept in left && gone in live && gone !in left ==>
               attempts[gone][|attempts[gone]| - 1] <= attempts[kept][|attempts[kept]| - 1])
  }

  lemma SweptIs(attempts: Attempts, now: int)
    ensures Swept(attempts, now).Keys == set key | key in attempts && Live(attempts, key, now)
  {
  }

  lemma CapIsCapped(attempts: Attempts, sweepAt: nat, now: int, victims: set<Key>)
    requires ValidVictims(attempts, sweepAt, now, victims)
    ensures var (left, next) := Cap(attempts, sweepAt, now, victims);
      if |attempts| < sweepAt then left == attempts && next == sweepAt
      else Capped(attempts, left, now) && next == (if 2 * |left| < 2_000 then 2_000 else 2 * |left|)
  {
    hide Swept, Capped, Oldest;
    if |attempts| >= sweepAt {
      if Overfull(attempts, sweepAt, now) { EvictionCaps(attempts, now, victims); } else { SweepCaps(attempts, now); }
    }
  }

  lemma SweepCaps(attempts: Attempts, now: int)
    requires |Swept(attempts, now)| <= 10_000
    ensures Capped(attempts, Swept(attempts, now), now)
  {
    SweptIs(attempts, now);
    SweptValues(attempts, now);
    hide Swept, Live;
    assert |Swept(attempts, now).Keys| == |Swept(attempts, now)|;
  }

  lemma EvictionCaps(attempts: Attempts, now: int, victims: set<Key>)
    requires |Swept(attempts, now)| > 10_000 && Oldest(Swept(attempts, now), victims)
    ensures Capped(attempts, Swept(attempts, now) - victims, now)
  {
    SweptIs(attempts, now);
    SweptValues(attempts, now);
    var swept := Swept(attempts, now);
    var left := swept - victims;
    FewerLeft(swept, victims);
    hide Swept;
    forall kept, gone | kept in left && gone in swept && gone !in left
      ensures attempts[gone][|attempts[gone]| - 1] <= attempts[kept][|attempts[kept]| - 1]
    {
      assert LastHit(swept[gone]) <= LastHit(swept[kept]);
    }
  }

  lemma FewerLeft(swept: Attempts, victims: set<Key>)
    requires victims <= swept.Keys
    ensures |swept - victims| == |swept| - |victims| && |swept.Keys| == |swept|
  {
    assert (swept - victims).Keys == swept.Keys - victims;
    assert |swept.Keys - victims| == |swept.Keys| - |victims|;
  }

  lemma SweptValues(attempts: Attempts, now: int)
    ensures forall key <- Swept(attempts, now) :: Live(attempts, key, now) && Swept(attempts, now)[key] == attempts[key]
  {
  }

  /** After an attempt that was let through, its hit is recorded under both keys and the map is capped; what is evicted is forgotten from here on. */
  lemma RecordedAndCapped(s: State, account: string, ip: string, now: int, victims: set<Key>)
    requires Inv(s) && Allowed(s, Consume(account, ip, now, victims)) && Admits(s.attempts, account, ip, now)
    ensures var t, r := Step(s, Consume(account, ip, now, victims)), Recorded(s.attempts, account, ip, now);
      && (forall key :: key in {Acct(account), Pair(account, ip)} ==> key in r && r[key] == Recent(History(s, key), now - 300_000) + [now])
      && (if |r| < s.sweepAt then t.attempts == r && t.sweepAt == s.sweepAt
          else Capped(r, t.attempts, now) && t.sweepAt == (if 2 * |t.attempts| < 2_000 then 2_000 else 2 * |t.attempts|))
      && (forall key :: key in victims ==> key in t.forgotten && t.forgotten[key] == |t.log|)
      && (forall key :: key !in victims ==>
            (key in t.forgotten <==> key in s.forgotten) && (key in t.forgotten ==> t.forgotten[key] == s.forgotten[key]))
  {
    hide Inv, Admits, Looked, Cap, ValidVictims, Capped, Recent, History, Forget;
    LookedTracks(s, account, ip, now, Acct(account));
    LookedTracks(s, account, ip, now, Pair(account, ip));
    CapIsCapped(Recorded(s.attempts, account, ip, now), s.sweepAt, now, victims);
    forall key ensures var f := Forget(s.forgotten, victims, |s.log| + 1);
      if key in victims then key in f && f[key] == |s.log| + 1
      else (key in f <==> key in s.forgotten) && (key in f ==> f[key] == s.forgotten[key])
    {
      ForgetAt(s.forgotten, victims, |s.log| + 1, key);
    }
  }
}
