/** The translation engine: chunks, halving, budgets (server/src/translate/translate-engine.service.ts). The provider's replies are left open. */
module TranslateEngineModel {
  import opened Prelude
  import opened Whitespace

  const MAX_OUTPUT_TOKENS_CAP := 1500
  const OUTPUT_TOKENS_OVERHEAD := 100
  const CHUNK_TOKENS := MAX_OUTPUT_TOKENS_CAP - OUTPUT_TOKENS_OVERHEAD

  type Lang = string

  // A UTF-16 code unit; a text to translate is as long as it has units.
  type Unit = u: int | 0 <= u < 0x1_0000

  type Text = seq<Unit>

  const SOURCE_LANGS: seq<Lang> := ["ko", "en", "ja", "zh", "ru"]

  // Failure: the call throws. Incomplete: the output was cut off. Unreadable: no JSON object in it.
  // `texts` holds the fields that are strings.
  datatype Reply = Failure | Incomplete | Unreadable | Parsed(source: Option<string>, texts: map<Lang, string>)

  // The provider: its reply to the n-th call.
  type Replies = nat -> Reply

  datatype Call = Call(targets: seq<Lang>, maxOutputTokens: int, reply: Reply)

  // None stands for the source 'unknown'.
  datatype Multi = Multi(source: Option<Lang>, translations: map<Lang, string>)

  datatype Outcome = Done(result: Multi) | Thrown

  const NOTHING := Multi(None, map[])

  /** ceil(2.5 * chars) */
  function EstimateTokens(chars: nat): nat { (5 * chars + 1) / 2 }

  function NormalizeSource(source: Option<string>): Option<Lang> {
    if source.Some? && source.value in SOURCE_LANGS then source else None
  }

  function Distinct(targets: seq<Lang>): seq<Lang> {
    if targets == [] then []
    else
      var last := targets[|targets| - 1];
      var before := Distinct(targets[..|targets| - 1]);
      if last in before then before else before + [last]
  }

  /** How many targets one call takes; all of them when a target needs no tokens. */
  function PerCall(chars: nat, total: nat): (n: nat)
    ensures n >= 1
  {
    if EstimateTokens(chars) == 0 then Max(1, total) else Max(1, CHUNK_TOKENS / EstimateTokens(chars))
  }

  function Chunks(targets: seq<Lang>, perCall: nat): seq<seq<Lang>>
    requires perCall >= 1
    decreases |targets|
  {
    if targets == [] then []
    else if |targets| <= perCall then [targets]
    else [targets[..perCall]] + Chunks(targets[perCall..], perCall)
  }

  ghost predicate NoneEmpty<T>(chunks: seq<seq<T>>) {
    forall i :: 0 <= i < |chunks| ==> chunks[i] != []
  }

  ghost predicate AtMost<T>(chunks: seq<seq<T>>, size: nat) {
    forall i :: 0 <= i < |chunks| ==> |chunks[i]| <= size
  }

  function Budget(chars: nat, targets: nat): int {
    Min(Max(MAX_OUTPUT_TOKENS_CAP, EstimateTokens(chars) + OUTPUT_TOKENS_OVERHEAD),
        targets * EstimateTokens(chars) + OUTPUT_TOKENS_OVERHEAD)
  }

  /** What a readable reply brings for the targets of its call. */
  function TextsOf(targets: seq<Lang>, reply: Reply): map<Lang, string> {
    if !reply.Parsed? then map[]
    else map l | l in targets && l in reply.texts && Trim(reply.texts[l]) != "" :: Trim(reply.texts[l])
  }

  /** translateMultiChunk: its outcome and its calls; `replies` answers the calls in the order they are made, from `from` on. */
  function MultiChunk(chars: nat, targets: seq<Lang>, replies: Replies, from: nat): (Outcome, seq<Call>)
    requires targets != []
    decreases |targets|, 1
  {
    var reply := replies(from);
    var call := Call(targets, Budget(chars, |targets|), reply);
    match reply
    case Failure => (Thrown, [call])
    case Unreadable => (Thrown, [call])
    case Parsed(source, _) => (Done(Multi(NormalizeSource(source), TextsOf(targets, reply))), [call])
    case Incomplete =>
      if |targets| == 1 then (Done(NOTHING), [call])
      else
        var (outcome, calls) := Halves(chars, targets, replies, from + 1);
        (outcome, [call] + calls)
  }

  /** After an incomplete reply: the first half, rounded up, and then the second. */
  function Halves(chars: nat, targets: seq<Lang>, replies: Replies, from: nat): (Outcome, seq<Call>)
    requires |targets| > 1
    decreases |targets|, 0
  {
    var mid := (|targets| + 1) / 2;
    var (left, leftCalls) := MultiChunk(chars, targets[..mid], replies, from);
    if left.Thrown? then (Thrown, leftCalls)
    else
      var (right, rightCalls) := MultiChunk(chars, targets[mid..], replies, from + |leftCalls|);
      (if right.Thrown? then Thrown else Done(Joined(left.result, right.result)), leftCalls + rightCalls)
  }

  function Joined(left: Multi, right: Multi): Multi {
    Multi(if left.source.Some? then left.source else right.source, left.translations + right.translations)
  }

  function Added(result: Multi, partial: Multi): Multi {
    Multi(if partial.source.Some? then partial.source else result.source, result.translations + partial.translations)
  }

  /** The loop over the chunks. */
  function MultiChunks(chars: nat, chunks: seq<seq<Lang>>, replies: Replies, from: nat, result: Multi): (Outcome, seq<Call>)
    requires NoneEmpty(chunks)
    decreases |chunks|
  {
    if chunks == [] then (Done(result), [])
    else
      var (partial, calls) := MultiChunk(chars, chunks[0], replies, from);
      if partial.Thrown? then (Thrown, calls)
      else
        var (rest, restCalls) := MultiChunks(chars, chunks[1..], replies, from + |calls|, Added(result, partial.result));
        (rest, calls + restCalls)
  }

  lemma {:induction false} ChunksAreFilled(targets: seq<Lang>, perCall: nat)
    requires perCall >= 1
    ensures NoneEmpty(Chunks(targets, perCall)) && AtMost(Chunks(targets, perCall), perCall)
    decreases |targets|
  {
    if |targets| > perCall { ChunksAreFilled(targets[perCall..], perCall); }
  }

  function TranslateMulti(hasClient: bool, text: Text, targets: seq<Lang>, replies: Replies, from: nat): (Outcome, seq<Call>) {
    var unique := Distinct(targets);
    if unique == [] then (Done(NOTHING), [])
    else if !hasClient then (Thrown, [])
    else
      var perCall := PerCall(|text|, |unique|);
      ChunksAreFilled(unique, perCall);
      MultiChunks(|text|, Chunks(unique, perCall), replies, from, NOTHING)
  }

  // ---- batches ----

  datatype Item = Item(id: int, text: Text)

  datatype Entry = Entry(id: int, source: Option<string>, text: Option<string>)

  // Malformed: no JSON object with an `items` array; entries that are no objects with a number id are left out.
  datatype BatchReply = BatchFailure | BatchIncomplete | Malformed | Entries(entries: seq<Entry>)

  type BatchReplies = nat -> BatchReply

  datatype BatchCall = BatchCall(items: seq<Item>, maxOutputTokens: int, reply: BatchReply)

  datatype Translated = Translated(source: Option<Lang>, text: Option<string>)

  type Results = map<int, Translated>

  const MISSING := Translated(None, None)

  datatype BatchOutcome = BatchDone(results: Results) | BatchThrown

  function Tokens(items: seq<Item>): nat {
    if items == [] then 0 else Tokens(items[..|items| - 1]) + EstimateTokens(|items[|items| - 1].text|)
  }

  lemma NoTokens()
    ensures Tokens([]) == 0
  {
  }

  lemma TokensPush(items: seq<Item>, item: Item)
    ensures Tokens(items + [item]) == Tokens(items) + EstimateTokens(|item.text|)
  {
    assert (items + [item])[..|items|] == items;
  }

  /** The chunks still to come when `current` is being filled. */
  function Fill(items: seq<Item>, current: seq<Item>): seq<seq<Item>>
    decreases |items|
  {
    if items == [] then (if current == [] then [] else [current])
    else if current != [] && Tokens(current) + EstimateTokens(|items[0].text|) > CHUNK_TOKENS then
      [current] + Fill(items[1..], [items[0]])
    else Fill(items[1..], current + [items[0]])
  }

  lemma FillUnfolds(items: seq<Item>, current: seq<Item>)
    ensures items == [] ==> Fill(items, current) == (if current == [] then [] else [current])
    ensures items != [] ==>
      Fill(items, current) ==
      (if current != [] && Tokens(current) + EstimateTokens(|items[0].text|) > CHUNK_TOKENS
       then [current] + Fill(items[1..], [items[0]])
       else Fill(items[1..], current + [items[0]]))
  {
  }

  function BatchBudget(items: seq<Item>): int {
    Min(MAX_OUTPUT_TOKENS_CAP, Tokens(items) + OUTPUT_TOKENS_OVERHEAD)
  }

  function Unanswered(items: seq<Item>): Results {
    if items == [] then map[] else Unanswered(items[..|items| - 1])[items[|items| - 1].id := MISSING]
  }

  predicate Wanted(items: seq<Item>, id: int) {
    exists i :: 0 <= i < |items| && items[i].id == id
  }

  function ReadEntry(e: Entry): Translated {
    Translated(NormalizeSource(e.source), if e.text.Some? && Trim(e.text.value) != "" then Some(Trim(e.text.value)) else None)
  }

  /** The entries of a reply, each in the place of an item that was asked for. */
  function ReadEntries(items: seq<Item>, entries: seq<Entry>, results: Results): Results {
    if entries == [] then results
    else
      var before := ReadEntries(items, entries[..|entries| - 1], results);
      var e := entries[|entries| - 1];
      if Wanted(items, e.id) then before[e.id := ReadEntry(e)] else before
  }

  /** One call for one item, not repeated. */
  function OneItem(item: Item, replies: BatchReplies, from: nat): (BatchOutcome, seq<BatchCall>) {
    var reply := replies(from);
    var call := BatchCall([item], BatchBudget([item]), reply);
    match reply
    case BatchFailure => (BatchThrown, [call])
    case Entries(entries) => (BatchDone(ReadEntries([item], entries, Unanswered([item]))), [call])
    case _ => (BatchDone(Unanswered([item])), [call])
  }

  function PerItem(items: seq<Item>, replies: BatchReplies, from: nat, results: Results): (BatchOutcome, seq<BatchCall>)
    decreases |items|
  {
    if items == [] then (BatchDone(results), [])
    else
      var (one, calls) := OneItem(items[0], replies, from);
      if one.BatchThrown? then (BatchThrown, calls)
      else
        var (rest, restCalls) := PerItem(items[1..], replies, from + |calls|, results + one.results);
        (rest, calls + restCalls)
  }

  /** translateBatchChunk with one repetition allowed. */
  function BatchChunk(items: seq<Item>, replies: BatchReplies, from: nat): (BatchOutcome, seq<BatchCall>)
    requires items != []
  {
    var reply := replies(from);
    var call := BatchCall(items, BatchBudget(items), reply);
    var (again, moreCalls) := PerItem(items, replies, from + 1, Unanswered(items));
    match reply
    case BatchFailure => (BatchThrown, [call])
    case BatchIncomplete => if |items| > 1 then (again, [call] + moreCalls) else (BatchDone(Unanswered(items)), [call])
    case Malformed => if |items| > 1 then (again, [call] + moreCalls)
      else var (one, oneCalls) := OneItem(items[0], replies, from + 1); (one, [call] + oneCalls)
    case Entries(entries) => (BatchDone(ReadEntries(items, entries, Unanswered(items))), [call])
  }

  function BatchChunks(chunks: seq<seq<Item>>, replies: BatchReplies, from: nat, results: Results): (BatchOutcome, seq<BatchCall>)
    requires NoneEmpty(chunks)
    decreases |chunks|
  {
    if chunks == [] then (BatchDone(results), [])
    else
      var (one, calls) := BatchChunk(chunks[0], replies, from);
      if one.BatchThrown? then (BatchThrown, calls)
      else
        var (rest, restCalls) := BatchChunks(chunks[1..], replies, from + |calls|, results + one.results);
        (rest, calls + restCalls)
  }

  lemma {:induction false} FillLeavesNoneEmpty(items: seq<Item>, current: seq<Item>)
    ensures NoneEmpty(Fill(items, current))
    decreases |items|
  {
    if items != [] {
      FillLeavesNoneEmpty(items[1..], [items[0]]);
      FillLeavesNoneEmpty(items[1..], current + [items[0]]);
    }
  }

  function TranslateBatch(hasClient: bool, items: seq<Item>, replies: BatchReplies, from: nat): (BatchOutcome, seq<BatchCall>) {
    if items == [] then (BatchDone(map[]), [])
    else if !hasClient then (BatchThrown, [])
    else
      FillLeavesNoneEmpty(items, []);
      BatchChunks(Fill(items, []), replies, from, Unanswered(items))
  }
}
