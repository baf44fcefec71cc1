/** What the translation engine asks for, how often, and what it makes of the replies, whatever they are. */
module TranslateEngineProofs {
  import opened Prelude
  import opened Whitespace
  import opened TranslateEngineModel

  /** The estimate is the least whole number not under two and a half tokens a character. */
  lemma EstimateIsCeiling(chars: nat, n: int)
    ensures EstimateTokens(chars) <= n <==> 2.5 * chars as real <= n as real
  {
    assert 2.5 * chars as real <= n as real <==> (5 * chars) as real <= (2 * n) as real;
  }

  function Flat<T>(parts: seq<seq<T>>): seq<T> {
    if parts == [] then [] else parts[0] + Flat(parts[1..])
  }

  lemma {:induction false} FlatConcat<T>(a: seq<seq<T>>, b: seq<seq<T>>)
    ensures Flat(a + b) == Flat(a) + Flat(b)
  {
    if a == [] {
      assert a + b == b;
    } else {
      assert (a + b)[1..] == a[1..] + b;
      FlatConcat(a[1..], b);
    }
  }

  // ---- the targets ----

  lemma {:induction false} DistinctIsSet(targets: seq<Lang>)
    ensures NoDup(Distinct(targets)) && ToSet(Distinct(targets)) == ToSet(targets)
  {
    if targets != [] {
      var n := |targets| - 1;
      DistinctIsSet(targets[..n]);
      assert targets == targets[..n] + [targets[n]];
      assert ToSet(targets) == ToSet(targets[..n]) + {targets[n]};
      if targets[n] !in Distinct(targets[..n]) {
        assert ToSet(Distinct(targets)) == ToSet(Distinct(targets[..n])) + {targets[n]};
      } else {
        assert targets[n] in ToSet(Distinct(targets[..n]));
      }
    }
  }

  /** The chunks are the targets in their order, cut up. */
  lemma {:induction false} ChunksPartition(targets: seq<Lang>, perCall: nat)
    requires perCall >= 1
    ensures Flat(Chunks(targets, perCall)) == targets
    decreases |targets|
  {
    if targets != [] && |targets| <= perCall {
      assert Flat([targets]) == targets + Flat([][..]) by { assert [targets][1..] == []; }
    } else if targets != [] {
      ChunksPartition(targets[perCall..], perCall);
      var rest := Chunks(targets[perCall..], perCall);
      assert ([targets[..perCall]] + rest)[1..] == rest;
    }
  }

  // ---- one chunk ----

  /** The call was final: it was not repeated for the halves of its targets. */
  predicate Final(c: Call) {
    !(c.reply.Incomplete? && |c.targets| > 1)
  }

  function FinalTargets(calls: seq<Call>): seq<Lang> {
    if calls == [] then []
    else FinalTargets(calls[..|calls| - 1]) + (if Final(calls[|calls| - 1]) then calls[|calls| - 1].targets else [])
  }

  lemma {:induction false} FinalConcat(a: seq<Call>, b: seq<Call>)
    ensures FinalTargets(a + b) == FinalTargets(a) + FinalTargets(b)
  {
    if b == [] {
      assert a + b == a;
    } else {
      assert (a + b)[..|a + b| - 1] == a + b[..|b| - 1];
      FinalConcat(a, b[..|b| - 1]);
    }
  }

  /** What the replies to these calls bring, language by language. */
  function Answers(calls: seq<Call>): map<Lang, string> {
    if calls == [] then map[]
    else Answers(calls[..|calls| - 1]) + TextsOf(calls[|calls| - 1].targets, calls[|calls| - 1].reply)
  }

  lemma AnswersPush(calls: seq<Call>, call: Call)
    ensures Answers(calls + [call]) == Answers(calls) + TextsOf(call.targets, call.reply)
  {
    assert (calls + [call])[..|calls|] == calls;
  }

  lemma NoAnswers()
    ensures Answers([]) == map[]
  {
  }

  lemma MergeRegroups(a: map<Lang, string>, b: map<Lang, string>, c: map<Lang, string>)
    ensures a + b + c == a + (b + c) && a + map[] == a && map[] + a == a
  {
  }

  lemma {:induction false} AnswersConcat(a: seq<Call>, b: seq<Call>)
    ensures Answers(a + b) == Answers(a) + Answers(b)
  {
    hide Answers, TextsOf;
    if b == [] {
      assert a + b == a;
      NoAnswers();
      MergeRegroups(Answers(a), map[], map[]);
    } else {
      var n := |b| - 1;
      var front, last := b[..n], b[n];
      assert a + b == (a + front) + [last] && b == front + [last];
      AnswersConcat(a, front);
      AnswersPush(a + front, last);
      AnswersPush(front, last);
      MergeRegroups(Answers(a), Answers(front), TextsOf(last.targets, last.reply));
    }
  }

  /** A chunk of k targets takes at least one and at most 2k - 1 calls. */
  lemma {:induction false} AtMostTwiceAsManyCalls(chars: nat, targets: seq<Lang>, replies: Replies, from: nat)
    requires targets != []
    ensures 1 <= |MultiChunk(chars, targets, replies, from).1| <= 2 * |targets| - 1
    decreases |targets|
  {
    if replies(from).Incomplete? && |targets| > 1 {
      var mid := (|targets| + 1) / 2;
      AtMostTwiceAsManyCalls(chars, targets[..mid], replies, from + 1);
      var leftCalls := MultiChunk(chars, targets[..mid], replies, from + 1).1;
      AtMostTwiceAsManyCalls(chars, targets[mid..], replies, from + 1 + |leftCalls|);
    }
  }

  /** The final calls of a chunk that is done cover its targets, each once and in order; the result is what the replies brought. */
  lemma {:induction false} ChunkCovers(chars: nat, targets: seq<Lang>, replies: Replies, from: nat)
    requires targets != [] && MultiChunk(chars, targets, replies, from).0.Done?
    ensures var (outcome, calls) := MultiChunk(chars, targets, replies, from);
      FinalTargets(calls) == targets && outcome.result.translations == Answers(calls)
    decreases |targets|
  {
    hide TextsOf, Budget, FinalTargets, Answers;
    var reply := replies(from);
    var call := Call(targets, Budget(chars, |targets|), reply);
    OneCall(call);
    if reply.Incomplete? && |targets| > 1 {
      var mid := (|targets| + 1) / 2;
      var leftCalls := MultiChunk(chars, targets[..mid], replies, from + 1).1;
      var rightCalls := MultiChunk(chars, targets[mid..], replies, from + 1 + |leftCalls|).1;
      ChunkCovers(chars, targets[..mid], replies, from + 1);
      ChunkCovers(chars, targets[mid..], replies, from + 1 + |leftCalls|);
      AfterSplit(call, leftCalls, rightCalls);
      assert targets == targets[..mid] + targets[mid..];
    } else if reply.Incomplete? {
      NoTexts(targets, reply);
    }
  }

  lemma AfterSplit(call: Call, left: seq<Call>, right: seq<Call>)
    requires call.reply.Incomplete? && |call.targets| > 1
    ensures FinalTargets([call] + (left + right)) == FinalTargets(left) + FinalTargets(right)
    ensures Answers([call] + (left + right)) == Answers(left) + Answers(right)
  {
    hide FinalTargets, Answers, TextsOf;
    SplitIsNotFinal(call, left + right);
    SplitBringsNothing(call, left + right);
    FinalConcat(left, right);
    AnswersConcat(left, right);
  }

  lemma SplitIsNotFinal(call: Call, calls: seq<Call>)
    requires call.reply.Incomplete? && |call.targets| > 1
    ensures FinalTargets([call] + calls) == FinalTargets(calls)
  {
    hide FinalTargets, Answers, TextsOf;
    OneCall(call);
    FinalConcat([call], calls);
  }

  lemma SplitBringsNothing(call: Call, calls: seq<Call>)
    requires !call.reply.Parsed?
    ensures Answers([call] + calls) == Answers(calls)
  {
    hide Answers, TextsOf;
    OneCall(call);
    NoTexts(call.targets, call.reply);
    AnswersConcat([call], calls);
    MergeRegroups(Answers(calls), map[], map[]);
  }

  lemma OneCall(call: Call)
    ensures FinalTargets([call]) == if Final(call) then call.targets else []
    ensures Answers([call]) == TextsOf(call.targets, call.reply)
  {
    assert [call][..0] == [];
  }

  lemma NoTexts(targets: seq<Lang>, reply: Reply)
    requires !reply.Parsed?
    ensures TextsOf(targets, reply) == map[]
  {
  }

  /** The call asks for as much as its targets are estimated to need: the cap has not lowered it. */
  ghost predicate FullBudget(chars: nat, call: Call) {
    call.maxOutputTokens == |call.targets| * EstimateTokens(chars) + OUTPUT_TOKENS_OVERHEAD
  }

  /** Up to this many targets a call needs no more than the cap. */
  lemma PerCallFits(chars: nat, k: nat, total: nat)
    requires 1 <= k <= PerCall(chars, total)
    ensures Budget(chars, k) == k * EstimateTokens(chars) + OUTPUT_TOKENS_OVERHEAD
  {
    var e := EstimateTokens(chars);
    if e > 0 && k > 1 {
      assert k <= CHUNK_TOKENS / e;
      assert k * e <= (CHUNK_TOKENS / e) * e <= CHUNK_TOKENS by { Scaled(k, CHUNK_TOKENS / e, e); }
    }
  }

  lemma Scaled(a: nat, b: nat, c: nat)
    requires a <= b
    ensures a * c <= b * c
  {
  }

  lemma {:induction false} ChunkKeepsBudget(chars: nat, targets: seq<Lang>, replies: Replies, from: nat, total: nat)
    requires 1 <= |targets| <= PerCall(chars, total)
    ensures forall c <- MultiChunk(chars, targets, replies, from).1 :: FullBudget(chars, c)
    decreases |targets|
  {
    hide PerCall, Budget, EstimateTokens, TextsOf;
    PerCallFits(chars, |targets|, total);
    if replies(from).Incomplete? && |targets| > 1 {
      var mid := (|targets| + 1) / 2;
      ChunkKeepsBudget(chars, targets[..mid], replies, from + 1, total);
      var leftCalls := MultiChunk(chars, targets[..mid], replies, from + 1).1;
      ChunkKeepsBudget(chars, targets[mid..], replies, from + 1 + |leftCalls|, total);
    }
  }

  // ---- all chunks ----

  lemma {:induction false} ChunksCover(chars: nat, chunks: seq<seq<Lang>>, replies: Replies, from: nat, result: Multi)
    requires NoneEmpty(chunks) && MultiChunks(chars, chunks, replies, from, result).0.Done?
    ensures var (outcome, calls) := MultiChunks(chars, chunks, replies, from, result);
      FinalTargets(calls) == Flat(chunks) && outcome.result.translations == result.translations + Answers(calls)
    decreases |chunks|
  {
    hide MultiChunk, FinalTargets, Answers;
    if chunks == [] {
      NoCalls();
    } else {
      var (partial, calls) := MultiChunk(chars, chunks[0], replies, from);
      var added := Added(result, partial.result);
      var restCalls := MultiChunks(chars, chunks[1..], replies, from + |calls|, added).1;
      ChunkCovers(chars, chunks[0], replies, from);
      ChunksCover(chars, chunks[1..], replies, from + |calls|, added);
      FinalConcat(calls, restCalls);
      AnswersConcat(calls, restCalls);
      MergeRegroups(result.translations, Answers(calls), Answers(restCalls));
    }
  }

  lemma {:induction false} ChunksKeepBudget(chars: nat, chunks: seq<seq<Lang>>, replies: Replies, from: nat, result: Multi, total: nat)
    requires NoneEmpty(chunks) && AtMost(chunks, PerCall(chars, total))
    ensures forall c <- MultiChunks(chars, chunks, replies, from, result).1 :: FullBudget(chars, c)
    ensures |MultiChunks(chars, chunks, replies, from, result).1| <= 2 * |Flat(chunks)| - |chunks|
    decreases |chunks|
  {
    hide MultiChunk, PerCall, FullBudget;
    if chunks != [] {
      var (partial, calls) := MultiChunk(chars, chunks[0], replies, from);
      ChunkKeepsBudget(chars, chunks[0], replies, from, total);
      AtMostTwiceAsManyCalls(chars, chunks[0], replies, from);
      if partial.Done? {
        ChunksKeepBudget(chars, chunks[1..], replies, from + |calls|, Added(result, partial.result), total);
      } else {
        NonEmptyParts(chunks[1..]);
      }
    }
  }

  lemma {:induction false} NonEmptyParts<T>(parts: seq<seq<T>>)
    requires NoneEmpty(parts)
    ensures |Flat(parts)| >= |parts|
  {
    if parts != [] { NonEmptyParts(parts[1..]); }
  }

  // ---- translateMulti ----

  /**
    * The final calls of translateMulti ask for every distinct target once, in order, and its result holds exactly
    * what their replies brought, the last reply counting.
    */
  lemma EveryTargetAskedOnce(text: Text, targets: seq<Lang>, replies: Replies, from: nat)
    requires TranslateMulti(true, text, targets, replies, from).0.Done?
    ensures var (outcome, calls) := TranslateMulti(true, text, targets, replies, from);
      && FinalTargets(calls) == Distinct(targets) && NoDup(FinalTargets(calls)) && ToSet(FinalTargets(calls)) == ToSet(targets)
      && outcome.result.translations == Answers(calls)
  {
    hide MultiChunks, Chunks, PerCall, Answers, FinalTargets;
    DistinctIsSet(targets);
    var unique := Distinct(targets);
    if unique == [] {
      NoCalls();
    } else {
      var perCall := PerCall(|text|, |unique|);
      ChunksAreFilled(unique, perCall);
      ChunksPartition(unique, perCall);
      ChunksCover(|text|, Chunks(unique, perCall), replies, from, NOTHING);
      assert map[] + Answers(TranslateMulti(true, text, targets, replies, from).1) == Answers(TranslateMulti(true, text, targets, replies, from).1);
    }
  }

  lemma NoCalls()
    ensures FinalTargets([]) == [] && Answers([]) == map[]
  {
  }

  /** It makes fewer than two calls a distinct target, and the cap lowers the budget of none of them. */
  lemma CallsAndBudgets(text: Text, targets: seq<Lang>, replies: Replies, from: nat)
    ensures var calls := TranslateMulti(true, text, targets, replies, from).1;
      && (forall c <- calls :: FullBudget(|text|, c))
      && (targets != [] ==> |calls| <= 2 * |Distinct(targets)| - 1)
  {
    hide MultiChunks, PerCall, FullBudget;
    var unique := Distinct(targets);
    if unique != [] {
      var perCall := PerCall(|text|, |unique|);
      ChunksAreFilled(unique, perCall);
      ChunksPartition(unique, perCall);
      ChunksKeepBudget(|text|, Chunks(unique, perCall), replies, from, NOTHING, |unique|);
    }
  }

  predicate Brings(call: Call, lang: Lang, text: string) {
    lang in TextsOf(call.targets, call.reply) && TextsOf(call.targets, call.reply)[lang] == text
  }

  lemma {:induction false} AnswerComesFromCall(calls: seq<Call>, lang: Lang)
    requires lang in Answers(calls)
    ensures exists i :: 0 <= i < |calls| && Brings(calls[i], lang, Answers(calls)[lang])
  {
    hide TextsOf;
    var n := |calls| - 1;
    if lang in TextsOf(calls[n].targets, calls[n].reply) {
      assert Brings(calls[n], lang, Answers(calls)[lang]);
    } else {
      AnswerComesFromCall(calls[..n], lang);
      var i :| 0 <= i < n && Brings(calls[..n][i], lang, Answers(calls[..n])[lang]);
      assert Brings(calls[i], lang, Answers(calls)[lang]);
    }
  }

  lemma {:induction false} FinalHasTargets(calls: seq<Call>, i: nat, lang: Lang)
    requires i < |calls| && Final(calls[i]) && lang in calls[i].targets
    ensures lang in FinalTargets(calls)
  {
    var n := |calls| - 1;
    if i < n { FinalHasTargets(calls[..n], i, lang); }
  }

  /** Only requested languages come back, each with a trimmed text that is not blank. */
  lemma OnlyRequestedLanguages(text: Text, targets: seq<Lang>, replies: Replies, from: nat, lang: Lang)
    requires TranslateMulti(true, text, targets, replies, from).0.Done?
    requires lang in TranslateMulti(true, text, targets, replies, from).0.result.translations
    ensures lang in targets
    ensures var t := TranslateMulti(true, text, targets, replies, from).0.result.translations[lang]; t != "" && Trimmed(t)
  {
    hide TranslateMulti, Trim;
    var (outcome, calls) := TranslateMulti(true, text, targets, replies, from);
    EveryTargetAskedOnce(text, targets, replies, from);
    AnswerComesFromCall(calls, lang);
    var i :| 0 <= i < |calls| && Brings(calls[i], lang, Answers(calls)[lang]);
    FinalHasTargets(calls, i, lang);
    assert lang in ToSet(targets);
    var before, after := TrimSplits(calls[i].reply.texts[lang]);
  }

  // ---- batches ----

  /** The chunks are the items in their order, cut up. */
  lemma {:induction false} FillPartitions(items: seq<Item>, current: seq<Item>)
    ensures Flat(Fill(items, current)) == current + items
    decreases |items|
  {
    if items == [] {
      if current != [] { assert [current][1..] == [] && Flat([current]) == current + []; }
    } else if current != [] && Tokens(current) + EstimateTokens(|items[0].text|) > CHUNK_TOKENS {
      FillPartitions(items[1..], [items[0]]);
      var rest := Fill(items[1..], [items[0]]);
      assert ([current] + rest)[1..] == rest;
      assert [items[0]] + items[1..] == items;
    } else {
      FillPartitions(items[1..], current + [items[0]]);
      assert current + [items[0]] + items[1..] == current + items;
    }
  }

  ghost predicate FitsOrSingle(chunk: seq<Item>) {
    Tokens(chunk) <= CHUNK_TOKENS || |chunk| == 1
  }

  /** Each chunk is estimated at 1400 tokens at most, or is a single item. */
  lemma {:induction false} FillFits(items: seq<Item>, current: seq<Item>)
    requires current == [] || FitsOrSingle(current)
    ensures forall i :: 0 <= i < |Fill(items, current)| ==> FitsOrSingle(Fill(items, current)[i])
    decreases |items|
  {
    hide Tokens;
    if items != [] {
      TokensPush(current, items[0]);
      if current != [] && Tokens(current) + EstimateTokens(|items[0].text|) > CHUNK_TOKENS {
        FillFits(items[1..], [items[0]]);
      } else {
        FillFits(items[1..], current + [items[0]]);
      }
    }
  }

  /** A chunk begins with `start`. */
  ghost predicate BeginsWith(chunks: seq<seq<Item>>, start: seq<Item>) {
    chunks != [] && start <= chunks[0]
  }

  /** No chunk ended early: the first item of the next one would not have fitted. */
  lemma {:induction false} FillIsGreedy(items: seq<Item>, current: seq<Item>, i: nat)
    requires i + 1 < |Fill(items, current)|
    ensures var chunks := Fill(items, current);
      chunks[i + 1] != [] && Tokens(chunks[i]) + EstimateTokens(|chunks[i + 1][0].text|) > CHUNK_TOKENS
    decreases |items|
  {
    hide Tokens;
    if current != [] && Tokens(current) + EstimateTokens(|items[0].text|) > CHUNK_TOKENS {
      if i == 0 { FillKeepsStart(items[1..], [items[0]]); } else { FillIsGreedy(items[1..], [items[0]], i - 1); }
    } else {
      FillIsGreedy(items[1..], current + [items[0]], i);
    }
  }

  lemma {:induction false} FillKeepsStart(items: seq<Item>, current: seq<Item>)
    requires current != []
    ensures BeginsWith(Fill(items, current), current)
    decreases |items|
  {
    if items != [] && !(Tokens(current) + EstimateTokens(|items[0].text|) > CHUNK_TOKENS) {
      FillKeepsStart(items[1..], current + [items[0]]);
    }
  }

  /** The chunks of translateBatch: all items in order, each chunk within 1400 tokens or a single item. */
  lemma BatchChunksPartition(items: seq<Item>)
    ensures var chunks := Fill(items, []);
      Flat(chunks) == items && NoneEmpty(chunks) && forall i :: 0 <= i < |chunks| ==> FitsOrSingle(chunks[i])
  {
    hide Fill;
    FillPartitions(items, []);
    FillFits(items, []);
    FillLeavesNoneEmpty(items, []);
    assert [] + items == items;
  }

  /** The cap lowers the budget of a chunk exactly when it is a single item estimated above 1400 tokens. */
  lemma BatchBudgetLowered(items: seq<Item>, i: nat)
    requires i < |Fill(items, [])|
    ensures var chunk := Fill(items, [])[i];
      BatchBudget(chunk) < Tokens(chunk) + OUTPUT_TOKENS_OVERHEAD <==>
      |chunk| == 1 && EstimateTokens(|chunk[0].text|) > CHUNK_TOKENS
  {
    hide Fill;
    BatchChunksPartition(items);
    var chunk := Fill(items, [])[i];
    if |chunk| == 1 { assert chunk == [] + [chunk[0]]; TokensPush([], chunk[0]); }
  }

  lemma {:induction false} FlatHolds<T>(parts: seq<seq<T>>, i: nat, x: T)
    requires i < |parts| && x in parts[i]
    ensures x in Flat(parts)
  {
    if i > 0 { FlatHolds(parts[1..], i - 1, x); }
  }

  /** The longest text whose estimate fits a chunk, in UTF-16 units. */
  const FITTING_UNITS := 560

  /** No budget is lowered when every text has at most 560 units. */
  lemma FittingItemsKeepBudget(items: seq<Item>, i: nat)
    requires i < |Fill(items, [])| && forall item <- items :: |item.text| <= FITTING_UNITS
    ensures BatchBudget(Fill(items, [])[i]) == Tokens(Fill(items, [])[i]) + OUTPUT_TOKENS_OVERHEAD
  {
    hide Fill;
    BatchBudgetLowered(items, i);
    BatchChunksPartition(items);
    var chunk := Fill(items, [])[i];
    if |chunk| == 1 { FlatHolds(Fill(items, []), i, chunk[0]); }
  }

  /** The cap has lowered the budget of this call. */
  predicate Lowered(c: BatchCall) {
    c.maxOutputTokens < Tokens(c.items) + OUTPUT_TOKENS_OVERHEAD
  }

  /** The call is for one item, too long for its budget. */
  predicate ForOneLong(c: BatchCall) {
    |c.items| == 1 && |c.items[0].text| > FITTING_UNITS
  }

  ghost predicate LoweredWhenLong(calls: seq<BatchCall>) {
    forall c <- calls :: Lowered(c) <==> ForOneLong(c)
  }

  lemma SingleTokens(item: Item)
    ensures Tokens([item]) == EstimateTokens(|item.text|)
  {
    TokensPush([], item);
    assert [] + [item] == [item];
  }

  lemma LoweredCall(items: seq<Item>, reply: BatchReply)
    requires FitsOrSingle(items)
    ensures LoweredWhenLong([BatchCall(items, BatchBudget(items), reply)])
  {
    if |items| == 1 {
      SingleTokens(items[0]);
      assert items == [items[0]];
    }
  }

  lemma OneItemLowered(item: Item, replies: BatchReplies, from: nat)
    ensures LoweredWhenLong(OneItem(item, replies, from).1)
  {
    hide Lowered, ForOneLong, FitsOrSingle;
    LoweredCall([item], replies(from)) by { assert FitsOrSingle([item]) by { SingleFits(item); } }
  }

  lemma SingleFits(item: Item)
    ensures FitsOrSingle([item])
  {
  }

  lemma {:induction false} PerItemLowered(items: seq<Item>, replies: BatchReplies, from: nat, results: Results)
    ensures LoweredWhenLong(PerItem(items, replies, from, results).1)
    decreases |items|
  {
    hide OneItem, Lowered, ForOneLong;
    if items != [] {
      OneItemLowered(items[0], replies, from);
      var (one, calls) := OneItem(items[0], replies, from);
      if one.BatchDone? { PerItemLowered(items[1..], replies, from + |calls|, results + one.results); }
    }
  }

  lemma BatchChunkLowered(items: seq<Item>, replies: BatchReplies, from: nat)
    requires items != [] && FitsOrSingle(items)
    ensures LoweredWhenLong(BatchChunk(items, replies, from).1)
    ensures var calls := BatchChunk(items, replies, from).1; calls != [] && calls[0].items == items
  {
    hide OneItem, PerItem, Lowered, ForOneLong, FitsOrSingle, BatchBudget;
    LoweredCall(items, replies(from));
    PerItemLowered(items, replies, from + 1, Unanswered(items));
    OneItemLowered(items[0], replies, from + 1);
  }

  ghost predicate AskedFor(calls: seq<BatchCall>, items: seq<Item>) {
    exists c <- calls :: c.items == items
  }

  lemma {:induction false} BatchChunksLowered(chunks: seq<seq<Item>>, replies: BatchReplies, from: nat, results: Results)
    requires NoneEmpty(chunks) && forall chunk <- chunks :: FitsOrSingle(chunk)
    ensures var (outcome, calls) := BatchChunks(chunks, replies, from, results);
      LoweredWhenLong(calls) && (outcome.BatchDone? ==> forall chunk <- chunks :: AskedFor(calls, chunk))
    decreases |chunks|
  {
    hide BatchChunk, Lowered, ForOneLong, FitsOrSingle;
    if chunks != [] {
      BatchChunkLowered(chunks[0], replies, from);
      var (one, calls) := BatchChunk(chunks[0], replies, from);
      if one.BatchDone? {
        BatchChunksLowered(chunks[1..], replies, from + |calls|, results + one.results);
        var (rest, restCalls) := BatchChunks(chunks[1..], replies, from + |calls|, results + one.results);
        if rest.BatchDone? {
          forall chunk <- chunks ensures AskedFor(calls + restCalls, chunk) {
            if chunk == chunks[0] { assert (calls + restCalls)[0].items == chunk && calls[0] in calls + restCalls; }
            else { assert chunk in chunks[1..] && AskedFor(restCalls, chunk); AskedForStill(calls, restCalls, chunk); }
          }
        }
      }
    }
  }

  lemma AskedForStill(before: seq<BatchCall>, calls: seq<BatchCall>, items: seq<Item>)
    requires AskedFor(calls, items)
    ensures AskedFor(before + calls, items)
  {
    var c :| c in calls && c.items == items;
    assert c in before + calls;
  }

  /** Whatever the provider replies, repetitions included: a call's budget is lowered exactly when it is for one item of more than 560 units. */
  lemma BatchCallsLowered(hasClient: bool, items: seq<Item>, replies: BatchReplies, from: nat)
    ensures forall c <- TranslateBatch(hasClient, items, replies, from).1 ::
      Lowered(c) <==> |c.items| == 1 && |c.items[0].text| > FITTING_UNITS
  {
    hide Fill, BatchChunks, FitsOrSingle, Lowered;
    BatchChunksPartition(items);
    BatchChunksLowered(Fill(items, []), replies, from, Unanswered(items));
  }

  lemma {:induction false} ItemInTokens(items: seq<Item>, item: Item)
    requires item in items
    ensures EstimateTokens(|item.text|) <= Tokens(items)
  {
    hide EstimateTokens;
    var n := |items| - 1;
    if items[n] != item { assert item in items[..n]; ItemInTokens(items[..n], item); }
  }

  lemma {:induction false} InSomePart<T>(parts: seq<seq<T>>, x: T)
    requires x in Flat(parts)
    ensures exists part <- parts :: x in part
  {
    if parts != [] && x !in parts[0] {
      InSomePart(parts[1..], x);
      var part :| part in parts[1..] && x in part;
      assert part in parts;
    }
  }

  /** A long item is a chunk of its own. */
  lemma LongIsAlone(items: seq<Item>, item: Item)
    requires item in items && |item.text| > FITTING_UNITS
    ensures [item] in Fill(items, [])
  {
    hide Fill, Tokens;
    BatchChunksPartition(items);
    InSomePart(Fill(items, []), item);
    var chunk :| chunk in Fill(items, []) && item in chunk;
    ItemInTokens(chunk, item);
    assert FitsOrSingle(chunk);
    assert chunk == [item];
  }

  /** When a batch is done, an item was asked for with a lowered budget exactly when it has more than 560 units. */
  lemma LongItemsLowered(items: seq<Item>, replies: BatchReplies, from: nat, item: Item)
    requires item in items && TranslateBatch(true, items, replies, from).0.BatchDone?
    ensures (exists c <- TranslateBatch(true, items, replies, from).1 :: item in c.items && Lowered(c)) <==> |item.text| > FITTING_UNITS
  {
    hide Fill, BatchChunks, FitsOrSingle, Lowered;
    BatchCallsLowered(true, items, replies, from);
    if |item.text| > FITTING_UNITS {
      LongIsAlone(items, item);
      BatchChunksPartition(items);
      BatchChunksLowered(Fill(items, []), replies, from, Unanswered(items));
      assert AskedFor(TranslateBatch(true, items, replies, from).1, [item]);
      var c :| c in TranslateBatch(true, items, replies, from).1 && c.items == [item];
      assert item in c.items && Lowered(c);
    }
  }

  // ---- what a batch returns ----

  function IdsOf(items: seq<Item>): set<int> { set i | 0 <= i < |items| :: items[i].id }

  lemma {:induction false} UnansweredKeys(items: seq<Item>)
    ensures Unanswered(items).Keys == IdsOf(items)
  {
    if items != [] {
      var n := |items| - 1;
      UnansweredKeys(items[..n]);
      assert items == items[..n] + [items[n]];
      assert IdsOf(items) == IdsOf(items[..n]) + {items[n].id};
    }
  }

  lemma {:induction false} ReadKeepsKeys(items: seq<Item>, entries: seq<Entry>, results: Results)
    requires results.Keys == IdsOf(items)
    ensures ReadEntries(items, entries, results).Keys == IdsOf(items)
  {
    if entries != [] { ReadKeepsKeys(items, entries[..|entries| - 1], results); }
  }

  lemma OneItemKeys(item: Item, replies: BatchReplies, from: nat)
    ensures var (outcome, calls) := OneItem(item, replies, from);
      |calls| == 1 && calls[0].items == [item] && (outcome.BatchDone? ==> outcome.results.Keys == {item.id})
  {
    UnansweredKeys([item]);
    assert IdsOf([item]) == {item.id};
    if replies(from).Entries? { ReadKeepsKeys([item], replies(from).entries, Unanswered([item])); }
  }

  lemma {:induction false} PerItemKeys(items: seq<Item>, replies: BatchReplies, from: nat, results: Results)
    ensures var (outcome, calls) := PerItem(items, replies, from, results);
      |calls| <= |items| && (outcome.BatchDone? ==> |calls| == |items| && outcome.results.Keys == results.Keys + IdsOf(items))
    decreases |items|
  {
    hide OneItem;
    if items != [] {
      OneItemKeys(items[0], replies, from);
      var (one, calls) := OneItem(items[0], replies, from);
      if one.BatchDone? {
        PerItemKeys(items[1..], replies, from + |calls|, results + one.results);
        assert items == [items[0]] + items[1..];
        assert IdsOf(items) == {items[0].id} + IdsOf(items[1..]);
      }
    }
  }

  /** A batch of k items takes at most k + 1 calls and, if it does not throw, answers for exactly its items. */
  lemma BatchChunkAnswers(items: seq<Item>, replies: BatchReplies, from: nat)
    requires items != []
    ensures var (outcome, calls) := BatchChunk(items, replies, from);
      1 <= |calls| <= |items| + 1 && (outcome.BatchDone? ==> outcome.results.Keys == IdsOf(items))
  {
    hide PerItem, OneItem, ReadEntries, Unanswered;
    UnansweredKeys(items);
    PerItemKeys(items, replies, from + 1, Unanswered(items));
    assert IdsOf(items) + IdsOf(items) == IdsOf(items);
    OneItemKeys(items[0], replies, from + 1);
    if |items| == 1 { assert IdsOf(items) == {items[0].id}; }
    if replies(from).Entries? { ReadKeepsKeys(items, replies(from).entries, Unanswered(items)); }
  }

  lemma {:induction false} BatchChunksAnswer(chunks: seq<seq<Item>>, replies: BatchReplies, from: nat, results: Results)
    requires NoneEmpty(chunks)
    ensures var (outcome, calls) := BatchChunks(chunks, replies, from, results);
      |calls| <= |Flat(chunks)| + |chunks| && (outcome.BatchDone? ==> outcome.results.Keys == results.Keys + IdsOf(Flat(chunks)))
    decreases |chunks|
  {
    hide BatchChunk;
    if chunks == [] {
      assert IdsOf([]) == {};
    } else {
      var (one, calls) := BatchChunk(chunks[0], replies, from);
      BatchChunkAnswers(chunks[0], replies, from);
      if one.BatchDone? {
        BatchChunksAnswer(chunks[1..], replies, from + |calls|, results + one.results);
        IdsConcat(chunks[0], Flat(chunks[1..]));
      }
    }
  }

  lemma IdsConcat(a: seq<Item>, b: seq<Item>)
    ensures IdsOf(a + b) == IdsOf(a) + IdsOf(b)
  {
    forall id | id in IdsOf(a) + IdsOf(b) ensures id in IdsOf(a + b) {
      if id in IdsOf(a) { var i :| 0 <= i < |a| && a[i].id == id; assert (a + b)[i].id == id; }
      else { var i :| 0 <= i < |b| && b[i].id == id; assert (a + b)[|a| + i].id == id; }
    }
  }

  /** translateBatch answers for exactly the items it was given, whatever the replies name, in at most two calls an item. */
  lemma BatchAnswersItsItems(items: seq<Item>, replies: BatchReplies, from: nat)
    ensures var (outcome, calls) := TranslateBatch(true, items, replies, from);
      |calls| <= 2 * |items| && (outcome.BatchDone? ==> outcome.results.Keys == IdsOf(items))
  {
    hide BatchChunks, Fill;
    UnansweredKeys(items);
    if items == [] {
      assert IdsOf(items) == {};
    } else {
      BatchChunksPartition(items);
      BatchChunksAnswer(Fill(items, []), replies, from, Unanswered(items));
      NonEmptyParts(Fill(items, []));
    }
  }

  /** The reply to this call holds an entry for an item of the call that reads as `t`. */
  ghost predicate Said(call: BatchCall, id: int, t: Translated) {
    && call.reply.Entries? && Wanted(call.items, id)
    && exists j :: 0 <= j < |call.reply.entries| && call.reply.entries[j].id == id && ReadEntry(call.reply.entries[j]) == t
  }

  ghost predicate Backed(results: Results, calls: seq<BatchCall>) {
    forall id <- results :: results[id] == MISSING || exists i :: 0 <= i < |calls| && Said(calls[i], id, results[id])
  }

  lemma BackedWithin(results: Results, before: seq<BatchCall>, calls: seq<BatchCall>, after: seq<BatchCall>)
    requires Backed(results, calls)
    ensures Backed(results, before + calls + after)
  {
    hide Said;
    var all := before + calls + after;
    forall id | id in results && results[id] != MISSING ensures exists i :: 0 <= i < |all| && Said(all[i], id, results[id]) {
      var i :| 0 <= i < |calls| && Said(calls[i], id, results[id]);
      assert all[|before| + i] == calls[i];
    }
  }

  lemma BackedBoth(a: Results, b: Results, calls: seq<BatchCall>)
    requires Backed(a, calls) && Backed(b, calls)
    ensures Backed(a + b, calls)
  {
  }

  lemma {:induction false} UnansweredIsBacked(items: seq<Item>, calls: seq<BatchCall>)
    ensures Backed(Unanswered(items), calls)
  {
    hide Said;
    if items != [] { UnansweredIsBacked(items[..|items| - 1], calls); }
  }

  lemma {:induction false} ReadIsBacked(items: seq<Item>, entries: seq<Entry>, call: BatchCall, n: nat)
    requires call.reply == Entries(entries) && call.items == items && n <= |entries|
    ensures Backed(ReadEntries(items, entries[..n], Unanswered(items)), [call])
  {
    hide ReadEntry, Wanted;
    if n == 0 {
      UnansweredIsBacked(items, [call]);
    } else {
      ReadIsBacked(items, entries, call, n - 1);
      assert entries[..n][..n - 1] == entries[..n - 1] && entries[..n][n - 1] == entries[n - 1];
      var e := entries[n - 1];
      if Wanted(items, e.id) { assert Said([call][0], e.id, ReadEntry(e)); }
    }
  }

  lemma OneItemIsBacked(item: Item, replies: BatchReplies, from: nat)
    requires OneItem(item, replies, from).0.BatchDone?
    ensures Backed(OneItem(item, replies, from).0.results, OneItem(item, replies, from).1)
  {
    hide ReadEntries, Backed, Unanswered;
    var call := BatchCall([item], BatchBudget([item]), replies(from));
    UnansweredIsBacked([item], [call]);
    if replies(from).Entries? {
      var entries := replies(from).entries;
      ReadIsBacked([item], entries, call, |entries|);
      assert entries[..|entries|] == entries;
    }
  }

  lemma {:induction false} PerItemBacked(items: seq<Item>, replies: BatchReplies, from: nat, results: Results, before: seq<BatchCall>)
    requires PerItem(items, replies, from, results).0.BatchDone? && Backed(results, before)
    ensures Backed(PerItem(items, replies, from, results).0.results, before + PerItem(items, replies, from, results).1)
    decreases |items|
  {
    hide OneItem, Backed;
    if items == [] {
      assert before + [] == before;
    } else {
      var (one, calls) := OneItem(items[0], replies, from);
      OneItemIsBacked(items[0], replies, from);
      BackedWithin(one.results, before, calls, []);
      BackedWithin(results, [], before, calls);
      assert before + calls + [] == before + calls && [] + before + calls == before + calls;
      BackedBoth(results, one.results, before + calls);
      PerItemBacked(items[1..], replies, from + |calls|, results + one.results, before + calls);
      var restCalls := PerItem(items[1..], replies, from + |calls|, results + one.results).1;
      assert before + calls + restCalls == before + (calls + restCalls);
    }
  }

  lemma BatchChunkIsBacked(items: seq<Item>, replies: BatchReplies, from: nat)
    requires items != [] && BatchChunk(items, replies, from).0.BatchDone?
    ensures Backed(BatchChunk(items, replies, from).0.results, BatchChunk(items, replies, from).1)
  {
    hide OneItem, Backed, PerItem, ReadEntries, Unanswered;
    var reply := replies(from);
    var call := BatchCall(items, BatchBudget(items), reply);
    UnansweredIsBacked(items, [call]);
    if reply.Entries? {
      ReadIsBacked(items, reply.entries, call, |reply.entries|);
      assert reply.entries[..|reply.entries|] == reply.entries;
    } else if |items| > 1 {
      PerItemBacked(items, replies, from + 1, Unanswered(items), [call]);
    } else if reply.Malformed? {
      OneItemIsBacked(items[0], replies, from + 1);
      var (one, calls) := OneItem(items[0], replies, from + 1);
      BackedWithin(one.results, [call], calls, []);
      assert [call] + calls + [] == [call] + calls;
    }
  }

  lemma {:induction false} BatchChunksAreBacked(chunks: seq<seq<Item>>, replies: BatchReplies, from: nat, results: Results, before: seq<BatchCall>)
    requires NoneEmpty(chunks) && BatchChunks(chunks, replies, from, results).0.BatchDone? && Backed(results, before)
    ensures Backed(BatchChunks(chunks, replies, from, results).0.results, before + BatchChunks(chunks, replies, from, results).1)
    decreases |chunks|
  {
    hide BatchChunk, Backed;
    if chunks == [] {
      assert before + [] == before;
    } else {
      var (one, calls) := BatchChunk(chunks[0], replies, from);
      BatchChunkIsBacked(chunks[0], replies, from);
      BackedWithin(one.results, before, calls, []);
      BackedWithin(results, [], before, calls);
      assert before + calls + [] == before + calls && [] + before + calls == before + calls;
      BackedBoth(results, one.results, before + calls);
      BatchChunksAreBacked(chunks[1..], replies, from + |calls|, results + one.results, before + calls);
      var restCalls := BatchChunks(chunks[1..], replies, from + |calls|, results + one.results).1;
      assert before + calls + restCalls == before + (calls + restCalls);
    }
  }

  /** Every translation translateBatch returns stands in a reply to a call that asked for that very item. */
  lemma BatchSaysOnlyWhatWasSaid(items: seq<Item>, replies: BatchReplies, from: nat)
    requires TranslateBatch(true, items, replies, from).0.BatchDone?
    ensures Backed(TranslateBatch(true, items, replies, from).0.results, TranslateBatch(true, items, replies, from).1)
  {
    hide Backed, Fill, BatchChunks;
    UnansweredIsBacked(items, []);
    if items == [] {
      assert Unanswered(items) == map[];
    } else {
      FillLeavesNoneEmpty(items, []);
      BatchChunksAreBacked(Fill(items, []), replies, from, Unanswered(items), []);
      var calls := BatchChunks(Fill(items, []), replies, from, Unanswered(items)).1;
      assert [] + calls == calls;
    }
  }
}
