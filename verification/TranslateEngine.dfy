/** The engine's methods, proved against the model. The provider answers the n-th call with the n-th reply, whatever it is. */
module TranslateEngine {
  import opened Prelude
  import opened M = TranslateEngineModel

  class Provider {
    const replies: Replies
    const batchReplies: BatchReplies
    var made: seq<Call>
    var batchMade: seq<BatchCall>

    constructor (replies: Replies, batchReplies: BatchReplies)
      ensures made == [] && batchMade == [] && this.replies == replies && this.batchReplies == batchReplies
    {
      this.replies, this.batchReplies, made, batchMade := replies, batchReplies, [], [];
    }

    method Ask(targets: seq<Lang>, maxOutputTokens: int) returns (reply: Reply)
      modifies this`made
      ensures reply == replies(|old(made)|) && made == old(made) + [Call(targets, maxOutputTokens, reply)]
    {
      reply := replies(|made|);
      made := made + [Call(targets, maxOutputTokens, reply)];
    }

    method AskBatch(items: seq<Item>, maxOutputTokens: int) returns (reply: BatchReply)
      modifies this`batchMade
      ensures reply == batchReplies(|old(batchMade)|) && batchMade == old(batchMade) + [BatchCall(items, maxOutputTokens, reply)]
    {
      reply := batchReplies(|batchMade|);
      batchMade := batchMade + [BatchCall(items, maxOutputTokens, reply)];
    }
  }

  class TranslateEngineService {
    const client: Provider
    const hasClient: bool

    constructor (client: Provider, hasClient: bool)
      ensures this.client == client && this.hasClient == hasClient
    {
      this.client, this.hasClient := client, hasClient;
    }

    method TranslateMultiChunk(text: Text, targets: seq<Lang>) returns (outcome: Outcome)
      requires targets != []
      modifies client`made
      ensures var (o, calls) := MultiChunk(|text|, targets, client.replies, |old(client.made)|);
        outcome == o && client.made == old(client.made) + calls
      decreases |targets|, 1
    {
      hide Halves, TextsOf, NormalizeSource, Budget;
      var maxOutputTokens := OutputBudget(text, |targets|);
      var reply := client.Ask(targets, maxOutputTokens);
      if reply.Failure? { return Thrown; }
      if reply.Incomplete? {
        if |targets| > 1 {
          outcome := TranslateHalves(text, targets);
          return;
        }
        return Done(NOTHING);
      }
      if reply.Unreadable? { return Thrown; }
      return Done(Multi(NormalizeSource(reply.source), TextsOf(targets, reply)));
    }

    method OutputBudget(text: Text, targets: nat) returns (maxOutputTokens: int)
      ensures maxOutputTokens == Budget(|text|, targets)
    {
      var perTarget := EstimateTokens(|text|);
      var cap := Max(MAX_OUTPUT_TOKENS_CAP, perTarget + OUTPUT_TOKENS_OVERHEAD);
      maxOutputTokens := Min(cap, targets * perTarget + OUTPUT_TOKENS_OVERHEAD);
    }

    /** After an incomplete reply: the first half, rounded up, and then the second. */
    method TranslateHalves(text: Text, targets: seq<Lang>) returns (outcome: Outcome)
      requires |targets| > 1
      modifies client`made
      ensures var (o, calls) := Halves(|text|, targets, client.replies, |old(client.made)|);
        outcome == o && client.made == old(client.made) + calls
      decreases |targets|, 0
    {
      hide MultiChunk, Joined;
      var mid := (|targets| + 1) / 2;
      var left := TranslateMultiChunk(text, targets[..mid]);
      if left.Thrown? { return Thrown; }
      var right := TranslateMultiChunk(text, targets[mid..]);
      if right.Thrown? { return Thrown; }
      return Done(Joined(left.result, right.result));
    }

    method CutTargets(unique: seq<Lang>, perCall: nat) returns (chunks: seq<seq<Lang>>)
      requires perCall >= 1
      ensures chunks == Chunks(unique, perCall)
    {
      chunks := [];
      var i := 0;
      while i < |unique|
        invariant 0 <= i
        invariant i <= |unique| ==> Chunks(unique, perCall) == chunks + Chunks(unique[i..], perCall)
        invariant i > |unique| ==> Chunks(unique, perCall) == chunks
      {
        if i + perCall < |unique| {
          assert unique[i..][..perCall] == unique[i..i + perCall] && unique[i..][perCall..] == unique[i + perCall..];
          chunks := chunks + [unique[i..i + perCall]];
        } else {
          assert unique[|unique|..] == [];
          chunks := chunks + [unique[i..]];
        }
        i := i + perCall;
      }
    }

    method TranslateMulti(text: Text, targets: seq<Lang>) returns (outcome: Outcome)
      modifies client`made
      ensures var (o, calls) := M.TranslateMulti(hasClient, text, targets, client.replies, |old(client.made)|);
        outcome == o && client.made == old(client.made) + calls
    {
      hide MultiChunk, PerCall, Chunks, Distinct, Added;
      var unique := Distinct(targets);
      if |unique| == 0 { return Done(NOTHING); }
      if !hasClient { return Thrown; }
      var perCall := PerCall(|text|, |unique|);
      ChunksAreFilled(unique, perCall);
      var chunks := CutTargets(unique, perCall);
      outcome := RunChunks(text, chunks);
    }

    method RunChunks(text: Text, chunks: seq<seq<Lang>>) returns (outcome: Outcome)
      requires NoneEmpty(chunks)
      modifies client`made
      ensures var (o, calls) := MultiChunks(|text|, chunks, client.replies, |old(client.made)|, NOTHING);
        outcome == o && client.made == old(client.made) + calls
    {
      hide MultiChunk, Added;
      var result := NOTHING;
      ghost var before := client.made;
      for i := 0 to |chunks|
        invariant |before| <= |client.made| && client.made[..|before|] == before
        invariant var (whole, calls) := MultiChunks(|text|, chunks, client.replies, |before|, NOTHING);
          var (rest, restCalls) := MultiChunks(|text|, chunks[i..], client.replies, |client.made|, result);
          whole == rest && before + calls == client.made + restCalls
      {
        assert chunks[i..][0] == chunks[i] && chunks[i..][1..] == chunks[i + 1..];
        ghost var made := client.made;
        ghost var calls := MultiChunk(|text|, chunks[i], client.replies, |made|).1;
        var partial := TranslateMultiChunk(text, chunks[i]);
        if partial.Thrown? { return Thrown; }
        ghost var restCalls := MultiChunks(|text|, chunks[i + 1..], client.replies, |client.made|, Added(result, partial.result)).1;
        assert made + (calls + restCalls) == made + calls + restCalls;
        result := Added(result, partial.result);
      }
      outcome := Done(result);
    }

    // ---- batches ----

    method ReadReply(items: seq<Item>, entries: seq<Entry>, blank: Results) returns (results: Results)
      ensures results == ReadEntries(items, entries, blank)
    {
      results := blank;
      for i := 0 to |entries|
        invariant results == ReadEntries(items, entries[..i], blank)
      {
        assert entries[..i + 1][..i] == entries[..i];
        var e := entries[i];
        if Wanted(items, e.id) { results := results[e.id := ReadEntry(e)]; }
      }
      assert entries[..|entries|] == entries;
    }

    method Blank(items: seq<Item>) returns (results: Results)
      ensures results == Unanswered(items)
    {
      results := map[];
      for i := 0 to |items|
        invariant results == Unanswered(items[..i])
      {
        assert items[..i + 1][..i] == items[..i];
        results := results[items[i].id := MISSING];
      }
      assert items[..|items|] == items;
    }

    /** translateBatchChunk without a repetition, which is only ever called for one item. */
    method TranslateItem(item: Item) returns (outcome: BatchOutcome)
      modifies client`batchMade
      ensures var (o, calls) := OneItem(item, client.batchReplies, |old(client.batchMade)|);
        outcome == o && client.batchMade == old(client.batchMade) + calls
    {
      hide ReadEntries, Unanswered;
      var results := Blank([item]);
      var reply := client.AskBatch([item], BatchBudget([item]));
      if reply.BatchFailure? { return BatchThrown; }
      if reply.BatchIncomplete? || reply.Malformed? { return BatchDone(results); }
      results := ReadReply([item], reply.entries, results);
      return BatchDone(results);
    }

    method SplitPerItem(items: seq<Item>, blank: Results) returns (outcome: BatchOutcome)
      modifies client`batchMade
      ensures var (o, calls) := PerItem(items, client.batchReplies, |old(client.batchMade)|, blank);
        outcome == o && client.batchMade == old(client.batchMade) + calls
    {
      hide OneItem;
      var results := blank;
      ghost var before := client.batchMade;
      for i := 0 to |items|
        invariant var (whole, calls) := PerItem(items, client.batchReplies, |before|, blank);
          var (rest, restCalls) := PerItem(items[i..], client.batchReplies, |client.batchMade|, results);
          whole == rest && before + calls == client.batchMade + restCalls
      {
        assert items[i..][0] == items[i] && items[i..][1..] == items[i + 1..];
        ghost var made := client.batchMade;
        ghost var calls := OneItem(items[i], client.batchReplies, |made|).1;
        var one := TranslateItem(items[i]);
        if one.BatchThrown? { return BatchThrown; }
        ghost var restCalls := PerItem(items[i + 1..], client.batchReplies, |client.batchMade|, results + one.results).1;
        assert made + (calls + restCalls) == made + calls + restCalls;
        results := results + one.results;
      }
      outcome := BatchDone(results);
    }

    /** translateBatchChunk with its one repetition. */
    method TranslateBatchChunk(items: seq<Item>) returns (outcome: BatchOutcome)
      requires items != []
      modifies client`batchMade
      ensures var (o, calls) := BatchChunk(items, client.batchReplies, |old(client.batchMade)|);
        outcome == o && client.batchMade == old(client.batchMade) + calls
    {
      hide ReadEntries, Unanswered, PerItem, OneItem;
      ghost var made := client.batchMade;
      var results := Blank(items);
      var reply := client.AskBatch(items, BatchBudget(items));
      ghost var call := BatchCall(items, BatchBudget(items), reply);
      if reply.BatchFailure? { return BatchThrown; }
      if reply.BatchIncomplete? {
        if |items| > 1 {
          outcome := SplitPerItem(items, results);
          ghost var calls := PerItem(items, client.batchReplies, |made| + 1, results).1;
          assert made + [call] + calls == made + ([call] + calls);
          return;
        }
        return BatchDone(results);
      }
      if reply.Malformed? {
        if |items| > 1 {
          outcome := SplitPerItem(items, results);
          ghost var calls := PerItem(items, client.batchReplies, |made| + 1, results).1;
          assert made + [call] + calls == made + ([call] + calls);
          return;
        }
        outcome := TranslateItem(items[0]);
        ghost var calls := OneItem(items[0], client.batchReplies, |made| + 1).1;
        assert made + [call] + calls == made + ([call] + calls);
        return;
      }
      results := ReadReply(items, reply.entries, results);
      return BatchDone(results);
    }

    method CutItems(items: seq<Item>) returns (chunks: seq<seq<Item>>)
      ensures chunks == Fill(items, [])
    {
      hide Tokens, Fill, EstimateTokens;
      NoTokens();
      var budget := MAX_OUTPUT_TOKENS_CAP - OUTPUT_TOKENS_OVERHEAD;
      chunks := [];
      var current: seq<Item> := [];
      var currentTokens := 0;
      ghost var rest := Fill(items, []);
      assert items[0..] == items && [] + rest == rest;
      for i := 0 to |items|
        invariant currentTokens == Tokens(current)
        invariant rest == Fill(items[i..], current) && chunks + rest == Fill(items, [])
      {
        var item := items[i];
        assert items[i..][0] == item && items[i..][1..] == items[i + 1..];
        FillUnfolds(items[i..], current);
        var tokens := EstimateTokens(|item.text|);
        if |current| > 0 && currentTokens + tokens > budget {
          rest := Fill(items[i + 1..], [item]);
          Regroup(chunks, [current], rest);
          chunks := chunks + [current];
          current := [];
          currentTokens := 0;
          assert current + [item] == [item];
        }
        TokensPush(current, item);
        current := current + [item];
        currentTokens := currentTokens + tokens;
      }
      FillUnfolds(items[|items|..], current);
      if |current| > 0 { chunks := chunks + [current]; }
    }

    lemma Regroup(a: seq<seq<Item>>, b: seq<seq<Item>>, c: seq<seq<Item>>)
      ensures a + (b + c) == a + b + c
    {
    }

    method TranslateBatch(items: seq<Item>) returns (outcome: BatchOutcome)
      modifies client`batchMade
      ensures var (o, calls) := M.TranslateBatch(hasClient, items, client.batchReplies, |old(client.batchMade)|);
        outcome == o && client.batchMade == old(client.batchMade) + calls
    {
      hide BatchChunk, Fill, Unanswered;
      if |items| == 0 { return BatchDone(map[]); }
      if !hasClient { return BatchThrown; }
      FillLeavesNoneEmpty(items, []);
      var chunks := CutItems(items);
      var blank := Blank(items);
      outcome := RunBatches(chunks, blank);
    }

    method RunBatches(chunks: seq<seq<Item>>, blank: Results) returns (outcome: BatchOutcome)
      requires NoneEmpty(chunks)
      modifies client`batchMade
      ensures var (o, calls) := BatchChunks(chunks, client.batchReplies, |old(client.batchMade)|, blank);
        outcome == o && client.batchMade == old(client.batchMade) + calls
    {
      hide BatchChunk;
      var results := blank;
      ghost var before := client.batchMade;
      for i := 0 to |chunks|
        invariant var (whole, calls) := BatchChunks(chunks, client.batchReplies, |before|, blank);
          var (rest, restCalls) := BatchChunks(chunks[i..], client.batchReplies, |client.batchMade|, results);
          whole == rest && before + calls == client.batchMade + restCalls
      {
        assert chunks[i..][0] == chunks[i] && chunks[i..][1..] == chunks[i + 1..];
        ghost var made := client.batchMade;
        ghost var calls := BatchChunk(chunks[i], client.batchReplies, |made|).1;
        var one := TranslateBatchChunk(chunks[i]);
        if one.BatchThrown? { return BatchThrown; }
        ghost var restCalls := BatchChunks(chunks[i + 1..], client.batchReplies, |client.batchMade|, results + one.results).1;
        assert made + (calls + restCalls) == made + calls + restCalls;
        results := results + one.results;
      }
      outcome := BatchDone(results);
    }
  }
}
