/** The login throttle as an object (server/src/common/account-login-throttle.ts), each method proved against its transition function. */
module LoginThrottle {
  import opened Prelude
  import opened SlidingWindow
  import opened Sorting
  import opened M = LoginThrottleModel

  type Entry = (Key, int)

  predicate SeenBefore(a: Entry, b: Entry) { a.1 < b.1 }

  /** Each key once, with the time of its last attempt. */
  ghost predicate Lists(entries: seq<Entry>, attempts: Attempts) {
    && (forall k <- attempts :: (k, LastHit(attempts[k])) in entries)
    && (forall e <- entries :: e.0 in attempts && e.1 == LastHit(attempts[e.0]))
    && (forall i, j :: 0 <= i < j < |entries| ==> entries[i].0 != entries[j].0)
  }

  function KeysOf(entries: seq<Entry>): set<Key> { set e | e in entries :: e.0 }

  lemma {:induction false} KeysCount(entries: seq<Entry>)
    requires forall i, j :: 0 <= i < j < |entries| ==> entries[i].0 != entries[j].0
    ensures |KeysOf(entries)| == |entries|
  {
    if entries != [] {
      var n := |entries| - 1;
      KeysCount(entries[..n]);
      assert entries == entries[..n] + [entries[n]];
      assert KeysOf(entries) == KeysOf(entries[..n]) + {entries[n].0};
      assert entries[n].0 !in KeysOf(entries[..n]);
    }
  }

  lemma SortLists(entries: seq<Entry>, attempts: Attempts)
    requires Lists(entries, attempts)
    ensures Lists(Sort(entries, SeenBefore), attempts)
  {
    var sorted := Sort(entries, SeenBefore);
    SortPermutes(entries, SeenBefore);
    SamePermuted(sorted, entries);
    OnceEach(entries);
    OnceEach(sorted);
  }

  lemma ListsCount(entries: seq<Entry>, attempts: Attempts)
    requires Lists(entries, attempts)
    ensures |entries| == |attempts| && KeysOf(entries) == attempts.Keys
  {
    KeysCount(entries);
    forall k | k in attempts ensures k in KeysOf(entries) { assert (k, LastHit(attempts[k])).0 == k; }
    assert KeysOf(entries) == attempts.Keys;
  }

  /** An entry outside the first ones comes after each of them. */
  lemma LaterEntry(sorted: seq<Entry>, attempts: Attempts, excess: nat, v: Key, k: Key)
    requires Lists(sorted, attempts) && Sorted(sorted, SeenBefore) && excess <= |sorted|
    requires v in KeysOf(sorted[..excess]) && k in attempts && k !in KeysOf(sorted[..excess])
    ensures v in attempts && LastHit(attempts[v]) <= LastHit(attempts[k])
  {
    hide LastHit;
    var first := sorted[..excess];
    var i :| 0 <= i < excess && first[i].0 == v;
    assert sorted[i] in sorted;
    var j :| 0 <= j < |sorted| && sorted[j] == (k, LastHit(attempts[k]));
    assert forall x :: 0 <= x < excess ==> first[x].0 in KeysOf(first);
    assert !SeenBefore(sorted[j], sorted[i]);
  }

  /** The first entries in the order of last attempts are a valid choice of victims. */
  lemma FirstAreOldest(entries: seq<Entry>, attempts: Attempts, excess: nat)
    requires Lists(entries, attempts) && excess == |attempts| - MAX_TRACKED_KEYS / 2
    ensures |entries| == |attempts| && Oldest(attempts, KeysOf(Sort(entries, SeenBefore)[..excess]))
  {
    hide Lists, Sort, Sorted, KeysOf;
    var sorted := Sort(entries, SeenBefore);
    ListsCount(entries, attempts);
    SortLists(entries, attempts);
    ListsCount(sorted, attempts);
    SortSorts(entries, SeenBefore);
    FirstCount(sorted, attempts, excess);
    forall v, k | v in KeysOf(sorted[..excess]) && k in attempts && k !in KeysOf(sorted[..excess])
      ensures LastHit(attempts[v]) <= LastHit(attempts[k])
    {
      LaterEntry(sorted, attempts, excess, v, k);
    }
  }

  lemma FirstCount(entries: seq<Entry>, attempts: Attempts, excess: nat)
    requires Lists(entries, attempts) && excess <= |entries|
    ensures |KeysOf(entries[..excess])| == excess && KeysOf(entries[..excess]) <= attempts.Keys
  {
    KeysCount(entries[..excess]);
    assert forall e <- entries[..excess] :: e in entries;
  }

  class AccountLoginThrottle {
    var attempts: Attempts
    var sweepAt: nat
    ghost var log: seq<Hit>
    ghost var forgotten: map<Key, nat>
    ghost var clock: int

    ghost function View(): State
      reads this
    {
      State(attempts, sweepAt, log, forgotten, clock)
    }

    constructor (ghost start: int)
      ensures View() == Initial(start)
    {
      attempts, sweepAt, log, forgotten, clock := map[], SWEEP_FLOOR, [], map[], start;
    }

    method RecentHits(key: Key, now: int) returns (hits: seq<int>)
      modifies this`attempts
      ensures attempts == Pruned(old(attempts), key, now)
      ensures hits == HitsOf(attempts, key)
    {
      if key !in attempts { return []; }
      hits := attempts[key];
      var cutoff := now - WINDOW_MS;
      var dropped := 0;
      while dropped < |hits| && hits[dropped] <= cutoff
        invariant 0 <= dropped <= |hits|
        invariant Recent(hits, cutoff) == Recent(hits[dropped..], cutoff)
      {
        dropped := dropped + 1;
      }
      assert hits[dropped..] == Recent(hits, cutoff);
      if dropped == 0 { return; }
      var kept := hits[dropped..];
      if |kept| == 0 { attempts := attempts - {key}; } else { attempts := attempts[key := kept]; }
      return kept;
    }

    /** The loop of enforceMemoryCap over all keys. */
    method Sweep(now: int)
      modifies this`attempts
      ensures attempts == Swept(old(attempts), now)
    {
      var keys := attempts.Keys;
      while keys != {}
        invariant keys <= old(attempts).Keys
        invariant attempts == map k | k in old(attempts) && (k in keys || !Expired(old(attempts)[k], now)) :: old(attempts)[k]
        decreases |keys|
      {
        var k :| k in keys;
        keys := keys - {k};
        if Expired(attempts[k], now) { attempts := attempts - {k}; }
      }
    }

    /** The entries of the map, in the order in which it is walked. */
    method Entries() returns (entries: seq<Entry>)
      ensures Lists(entries, attempts)
    {
      entries := [];
      var keys := attempts.Keys;
      while keys != {}
        invariant keys <= attempts.Keys
        invariant Lists(entries, map k | k in attempts && k !in keys :: attempts[k])
        decreases |keys|
      {
        var k :| k in keys;
        keys := keys - {k};
        entries := entries + [(k, LastHit(attempts[k]))];
      }
      assert (map k | k in attempts && k !in keys :: attempts[k]) == attempts;
    }

    method EnforceMemoryCap(now: int) returns (ghost victims: set<Key>)
      modifies this`attempts, this`sweepAt
      ensures ValidVictims(old(attempts), old(sweepAt), now, victims)
      ensures (attempts, sweepAt) == Cap(old(attempts), old(sweepAt), now, victims)
    {
      victims := {};
      if |attempts| < sweepAt { return; }
      Sweep(now);
      if |attempts| > MAX_TRACKED_KEYS {
        var byLastSeen := Entries();
        var excess := |attempts| - MAX_TRACKED_KEYS / 2;
        FirstAreOldest(byLastSeen, attempts, excess);
        byLastSeen := Sort(byLastSeen, SeenBefore);
        victims := KeysOf(byLastSeen[..excess]);
        Evict(byLastSeen[..excess]);
      }
      sweepAt := Max(SWEEP_FLOOR, |attempts| * 2);
    }

    method Evict(entries: seq<Entry>)
      modifies this`attempts
      ensures attempts == old(attempts) - KeysOf(entries)
    {
      for i := 0 to |entries|
        invariant attempts == old(attempts) - KeysOf(entries[..i])
      {
        attempts := attempts - {entries[i].0};
        assert KeysOf(entries[..i + 1]) == KeysOf(entries[..i]) + {entries[i].0} by {
          assert entries[..i + 1] == entries[..i] + [entries[i]];
        }
      }
      assert entries[..|entries|] == entries;
    }

    method Consume(account: string, ip: string, now: int) returns (allowed: bool, ghost victims: set<Key>)
      modifies this
      ensures allowed == Admits(old(attempts), account, ip, now)
      ensures if allowed then ValidVictims(Recorded(old(attempts), account, ip, now), old(sweepAt), now, victims) else victims == {}
      ensures View() == OnConsume(old(View()), account, ip, now, victims)
    {
      hide Cap, ValidVictims, Pruned;
      victims := {};
      var accountHits := RecentHits(Acct(account), now);
      ghost var first := attempts;
      var pairHits := RecentHits(Pair(account, ip), now);
      assert HitsOf(attempts, Acct(account)) == accountHits by { PrunedKeeps(first, Pair(account, ip), now, Acct(account)); }
      clock := now;
      if Blocked(accountHits, pairHits) { return false, victims; }
      attempts := attempts[Acct(account) := accountHits + [now]];
      attempts := attempts[Pair(account, ip) := pairHits + [now]];
      victims := EnforceMemoryCap(now);
      log := log + [Hit(now, account, ip)];
      forgotten := Forget(forgotten, victims, |log|);
      return true, victims;
    }

    lemma PrunedKeeps(m: Attempts, key: Key, now: int, other: Key)
      requires other != key
      ensures HitsOf(Pruned(m, key, now), other) == HitsOf(m, other)
    {
    }

    method RecordSuccess(account: string, ip: string)
      modifies this
      ensures View() == OnSuccess(old(View()), account, ip)
    {
      attempts := attempts - {Acct(account)};
      attempts := attempts - {Pair(account, ip)};
      forgotten := Forget(forgotten, {Acct(account), Pair(account, ip)}, |log|);
    }
  }
}
