/** The per-account login throttle as a transition function on values (server/src/common/account-login-throttle.ts). */
module LoginThrottleModel {
  import opened Prelude
  import opened SlidingWindow

  const WINDOW_MS := 300_000
  const ACCOUNT_LIMIT := 15
  const PAIR_LIMIT := 5
  const SWEEP_FLOOR := 2_000
  const MAX_TRACKED_KEYS := 10_000

  datatype Key = Acct(account: string) | Pair(account: string, ip: string)

  /** The key as the string under which the map holds it. */
  function Encode(k: Key): string {
    match k
    case Acct(account) => "acct:" + account
    case Pair(account, ip) => "pair:" + account + ['\0'] + ip
  }

  // An attempt that was let through.
  datatype Hit = Hit(at: int, account: string, ip: string)

  type Attempts = map<Key, seq<int>>

  // `log` is the full history of attempts let through; `forgotten` says from where on it counts for a key
  // that a success cleared or the memory cap evicted; `clock` is the time of the last attempt.
  datatype State = State(attempts: Attempts, sweepAt: nat, log: seq<Hit>, forgotten: map<Key, nat>, clock: int)

  function Initial(clock: int): State { State(map[], SWEEP_FLOOR, [], map[], clock) }

  function HitsOf(attempts: Attempts, key: Key): seq<int> {
    if key in attempts then attempts[key] else []
  }

  /** recent: the expired front of a key's list goes, and the key with it when nothing is left. */
  function Pruned(attempts: Attempts, key: Key, now: int): Attempts {
    var hits := HitsOf(attempts, key);
    var kept := Recent(hits, now - WINDOW_MS);
    if |kept| == |hits| then attempts
    else if kept == [] then attempts - {key}
    else attempts[key := kept]
  }

  predicate Blocked(accountHits: seq<int>, pairHits: seq<int>) {
    |pairHits| >= PAIR_LIMIT || (|accountHits| >= ACCOUNT_LIMIT && |pairHits| >= 1)
  }

  predicate Expired(hits: seq<int>, now: int) {
    hits == [] || hits[|hits| - 1] <= now - WINDOW_MS
  }

  function Swept(attempts: Attempts, now: int): Attempts {
    map k | k in attempts && !Expired(attempts[k], now) :: attempts[k]
  }

  predicate Overfull(attempts: Attempts, sweepAt: nat, now: int) {
    |attempts| >= sweepAt && |Swept(attempts, now)| > MAX_TRACKED_KEYS
  }

  function CapLimit(attempts: Attempts): nat {
    Max(SWEEP_FLOOR, |attempts| * 2)
  }

  /** enforceMemoryCap; `victims` are the keys evicted when the swept map is still overfull. */
  function Cap(attempts: Attempts, sweepAt: nat, now: int, victims: set<Key>): (Attempts, nat) {
    if |attempts| < sweepAt then (attempts, sweepAt)
    else
      var left := if Overfull(attempts, sweepAt, now) then Swept(attempts, now) - victims else Swept(attempts, now);
      (left, CapLimit(left))
  }

  function LastHit(hits: seq<int>): int {
    if hits == [] then 0 else hits[|hits| - 1]
  }

  /** Down to half the limit, oldest last attempt first; equally old keys go in any order. */
  ghost predicate Oldest(attempts: Attempts, victims: set<Key>) {
    && victims <= attempts.Keys && |victims| == |attempts| - MAX_TRACKED_KEYS / 2
    && forall v, k :: v in victims && k in attempts && k !in victims ==> LastHit(attempts[v]) <= LastHit(attempts[k])
  }

  ghost predicate ValidVictims(attempts: Attempts, sweepAt: nat, now: int, victims: set<Key>) {
    if Overfull(attempts, sweepAt, now) then Oldest(Swept(attempts, now), victims) else victims == {}
  }

  /** The map as an attempt finds it, both its lists pruned. */
  function Looked(attempts: Attempts, account: string, ip: string, now: int): Attempts {
    Pruned(Pruned(attempts, Acct(account), now), Pair(account, ip), now)
  }

  predicate Admits(attempts: Attempts, account: string, ip: string, now: int) {
    var looked := Looked(attempts, account, ip, now);
    !Blocked(HitsOf(looked, Acct(account)), HitsOf(looked, Pair(account, ip)))
  }

  function Recorded(attempts: Attempts, account: string, ip: string, now: int): Attempts {
    var looked := Looked(attempts, account, ip, now);
    looked[Acct(account) := HitsOf(looked, Acct(account)) + [now]]
          [Pair(account, ip) := HitsOf(looked, Pair(account, ip)) + [now]]
  }

  function Forget(forgotten: map<Key, nat>, keys: set<Key>, at: nat): map<Key, nat> {
    map k | k in forgotten.Keys + keys :: if k in keys then at else forgotten[k]
  }

  function OnConsume(s: State, account: string, ip: string, now: int, victims: set<Key>): State {
    if !Admits(s.attempts, account, ip, now) then s.(attempts := Looked(s.attempts, account, ip, now), clock := now)
    else
      var (attempts, sweepAt) := Cap(Recorded(s.attempts, account, ip, now), s.sweepAt, now, victims);
      State(attempts, sweepAt, s.log + [Hit(now, account, ip)], Forget(s.forgotten, victims, |s.log| + 1), now)
  }

  function OnSuccess(s: State, account: string, ip: string): State {
    var keys := {Acct(account), Pair(account, ip)};
    s.(attempts := s.attempts - keys, forgotten := Forget(s.forgotten, keys, |s.log|))
  }

  datatype Event = Consume(account: string, ip: string, now: int, victims: set<Key>) | Success(account: string, ip: string)

  /** Time does not run backwards, and the keys evicted are the oldest. */
  ghost predicate Allowed(s: State, e: Event) {
    match e
    case Consume(account, ip, now, victims) =>
      && s.clock <= now
      && (if Admits(s.attempts, account, ip, now)
          then ValidVictims(Recorded(s.attempts, account, ip, now), s.sweepAt, now, victims)
          else victims == {})
    case Success(_, _) => true
  }

  function Step(s: State, e: Event): State {
    match e
    case Consume(account, ip, now, victims) => OnConsume(s, account, ip, now, victims)
    case Success(account, ip) => OnSuccess(s, account, ip)
  }

  function Run(s: State, events: seq<Event>): State
    decreases |events|
  {
    if events == [] then s else Step(Run(s, events[..|events| - 1]), events[|events| - 1])
  }

  ghost predicate AllowedRun(s: State, events: seq<Event>)
    decreases |events|
  {
    events == [] ||
    (AllowedRun(s, events[..|events| - 1]) && Allowed(Run(s, events[..|events| - 1]), events[|events| - 1]))
  }

  // ---- the full history ----

  predicate Touches(h: Hit, key: Key) {
    key == Acct(h.account) || key == Pair(h.account, h.ip)
  }

  /** The times at which the key was hit. */
  function Times(log: seq<Hit>, key: Key): seq<int> {
    if log == [] then []
    else Times(log[..|log| - 1], key) + (if Touches(log[|log| - 1], key) then [log[|log| - 1].at] else [])
  }

  function From(s: State, key: Key): nat {
    if key in s.forgotten then s.forgotten[key] else 0
  }

  /** Everything the history holds on a key, nothing pruned. */
  function History(s: State, key: Key): seq<int> {
    if From(s, key) <= |s.log| then Times(s.log[From(s, key)..], key) else []
  }

  /** How many attempts the history counts against a key in the window before `now`. */
  function Counted(s: State, key: Key, now: int): nat {
    CountIn(History(s, key), now - WINDOW_MS, now)
  }
}
