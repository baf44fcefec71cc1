/** Which reply each item's text comes from when a batch is translated (server/src/translate/translate-engine.service.ts). */
module BatchAnswers {
  import opened Prelude
  import opened Whitespace
  import opened TranslateEngineModel
  import opened TranslateEngineProofs
  import TranslateAnswers

  /** What an entry says: a language the tool knows or none, and a text that is not blank, trimmed. */
  predicate ReadsAs(e: Entry, t: Translated) {
    && t.source == TranslateAnswers.Known(e.source)
    && t.text == (if e.text.Some? && Trim(e.text.value) != "" then Some(Trim(e.text.value)) else None)
  }

  predicate LastEntry(entries: seq<Entry>, k: nat, id: int)
    requires k < |entries|
  {
    entries[k].id == id && forall j :: k < j < |entries| ==> entries[j].id != id
  }

  ghost predicate Mentions(entries: seq<Entry>, id: int) {
    exists k :: 0 <= k < |entries| && entries[k].id == id
  }

  /** What a reply says of an id it was asked about: its last entry for the id, or nothing. */
  ghost predicate Tells(reply: BatchReply, id: int, t: Translated) {
    if reply.Entries? && Mentions(reply.entries, id) then forall k :: 0 <= k < |reply.entries| && LastEntry(reply.entries, k, id) ==> ReadsAs(reply.entries[k], t)
    else t == Translated(None, None)
  }

  predicate Asks(c: BatchCall, id: int) { Wanted(c.items, id) }

  /** The last call about the id. */
  ghost predicate LastAsk(calls: seq<BatchCall>, j: nat, id: int)
    requires j < |calls|
  {
    Asks(calls[j], id) && forall i :: j < i < |calls| ==> !Asks(calls[i], id)
  }

  ghost predicate Asked(calls: seq<BatchCall>, id: int) {
    exists i :: 0 <= i < |calls| && Asks(calls[i], id)
  }

  ghost predicate Told(calls: seq<BatchCall>, id: int, t: Translated) {
    exists j :: 0 <= j < |calls| && LastAsk(calls, j, id) && Tells(calls[j].reply, id, t)
  }

  /** The results so far: for an id that was asked about, what the last such reply says. */
  ghost predicate Settles(calls: seq<BatchCall>, results: Results) {
    && (forall id :: Asked(calls, id) ==> id in results && Told(calls, id, results[id]))
    && (forall id <- results :: !Asked(calls, id) ==> results[id] == Translated(None, None))
  }

  ghost predicate AllAsked(calls: seq<BatchCall>, results: Results) {
    forall id <- results :: Asked(calls, id)
  }

  lemma AskedConcat(a: seq<BatchCall>, b: seq<BatchCall>, id: int)
    ensures Asked(a + b, id) <==> Asked(a, id) || Asked(b, id)
  {
    hide Asks;
    if i :| 0 <= i < |a| && Asks(a[i], id) { assert (a + b)[i] == a[i]; }
    if i :| 0 <= i < |b| && Asks(b[i], id) { assert (a + b)[|a| + i] == b[i]; }
  }

  lemma ToldConcat(a: seq<BatchCall>, b: seq<BatchCall>, id: int, t: Translated)
    ensures Told(b, id, t) ==> Told(a + b, id, t)
    ensures Told(a, id, t) && !Asked(b, id) ==> Told(a + b, id, t)
  {
    hide Asks, Tells;
    var c := a + b;
    if Told(b, id, t) {
      var j :| 0 <= j < |b| && LastAsk(b, j, id) && Tells(b[j].reply, id, t);
      LastAskLater(a, b, j, id);
      assert c[|a| + j] == b[j];
    }
    if Told(a, id, t) && !Asked(b, id) {
      var j :| 0 <= j < |a| && LastAsk(a, j, id) && Tells(a[j].reply, id, t);
      LastAskStays(a, b, j, id);
      assert c[j] == a[j];
    }
  }

  lemma LastAskLater(a: seq<BatchCall>, b: seq<BatchCall>, j: nat, id: int)
    requires j < |b| && LastAsk(b, j, id)
    ensures LastAsk(a + b, |a| + j, id)
  {
    hide Asks;
    forall i | |a| + j < i < |a + b| ensures !Asks((a + b)[i], id) { assert (a + b)[i] == b[i - |a|]; }
  }

  lemma LastAskStays(a: seq<BatchCall>, b: seq<BatchCall>, j: nat, id: int)
    requires j < |a| && LastAsk(a, j, id) && !Asked(b, id)
    ensures LastAsk(a + b, j, id)
  {
    hide Asks;
    forall i | j < i < |a + b| ensures !Asks((a + b)[i], id) {
      if i < |a| { assert (a + b)[i] == a[i]; } else { assert (a + b)[i] == b[i - |a|]; }
    }
  }

  /** Later results come before earlier ones. */
  lemma SettlesBoth(a: seq<BatchCall>, x: Results, b: seq<BatchCall>, y: Results)
    requires Settles(a, x) && Settles(b, y) && AllAsked(b, y)
    ensures Settles(a + b, x + y)
    ensures AllAsked(a, x) ==> AllAsked(a + b, x + y)
  {
    hide Asked, Told;
    forall id ensures Asked(a + b, id) <==> Asked(a, id) || Asked(b, id) { AskedConcat(a, b, id); }
    forall id | Asked(a + b, id) ensures id in x + y && Told(a + b, id, (x + y)[id]) {
      if Asked(b, id) { ToldConcat(a, b, id, y[id]); } else { ToldConcat(a, b, id, x[id]); }
    }
  }

  // ---- one call ----

  lemma EntryReads(e: Entry)
    ensures ReadsAs(e, ReadEntry(e))
  {
    hide Trim;
  }

  lemma {:induction false} UnansweredIs(items: seq<Item>, id: int)
    ensures (id in Unanswered(items) <==> Wanted(items, id)) && (id in Unanswered(items) ==> Unanswered(items)[id] == Translated(None, None))
  {
    if items != [] {
      var n := |items| - 1;
      UnansweredIs(items[..n], id);
      WantedPush(items, id);
    }
  }

  lemma WantedPush(items: seq<Item>, id: int)
    requires items != []
    ensures var n := |items| - 1; Wanted(items, id) <==> Wanted(items[..n], id) || items[n].id == id
  {
    var n := |items| - 1;
    if i :| 0 <= i < |items| && items[i].id == id { if i < n { assert items[..n][i].id == id; } }
    if i :| 0 <= i < n && items[..n][i].id == id { assert items[i].id == id; }
  }

  lemma {:induction false} ReadTells(items: seq<Item>, entries: seq<Entry>, id: int)
    ensures var r := ReadEntries(items, entries, Unanswered(items));
      (id in r <==> Wanted(items, id)) && (Wanted(items, id) ==> Tells(Entries(entries), id, r[id]))
  {
    hide Wanted, ReadsAs, ReadEntry, Unanswered;
    UnansweredIs(items, id);
    if entries == [] {
    } else {
      var n := |entries| - 1;
      ReadTells(items, entries[..n], id);
      EntryReads(entries[n]);
      MentionsPush(entries, id);
      if entries[n].id != id { TellsMore(entries, id, ReadEntries(items, entries, Unanswered(items))); }
    }
  }

  lemma MentionsPush(entries: seq<Entry>, id: int)
    requires entries != []
    ensures var n := |entries| - 1; Mentions(entries, id) <==> Mentions(entries[..n], id) || entries[n].id == id
  {
    var n := |entries| - 1;
    if k :| 0 <= k < |entries| && entries[k].id == id { if k < n { assert entries[..n][k].id == id; } }
    if k :| 0 <= k < n && entries[..n][k].id == id { assert entries[k].id == id; }
  }

  /** An entry for another id changes nothing. */
  lemma TellsMore(entries: seq<Entry>, id: int, results: Results)
    requires entries != [] && entries[|entries| - 1].id != id
    ensures id in results && Tells(Entries(entries[..|entries| - 1]), id, results[id]) ==> Tells(Entries(entries), id, results[id])
  {
    hide ReadsAs;
    var n := |entries| - 1;
    MentionsPush(entries, id);
    assert forall k :: 0 <= k < n ==> entries[..n][k] == entries[k];
    forall k | 0 <= k < |entries| && LastEntry(entries, k, id) ensures k < n && LastEntry(entries[..n], k, id) {}
  }

  /** A single call settles its items. */
  lemma OneCallSettles(call: BatchCall, results: Results)
    requires forall id :: id in results <==> Asks(call, id)
    requires forall id <- results :: Tells(call.reply, id, results[id])
    ensures Settles([call], results) && AllAsked([call], results)
  {
    hide Asks, Tells;
    forall id ensures Asked([call], id) <==> Asks(call, id) { if Asks(call, id) { assert Asks([call][0], id); } }
    forall id | id in results ensures Told([call], id, results[id]) { assert LastAsk([call], 0, id) && Tells([call][0].reply, id, results[id]); }
  }

  lemma UnansweredSettles(items: seq<Item>, reply: BatchReply, tokens: int)
    requires !reply.Entries?
    ensures Settles([BatchCall(items, tokens, reply)], Unanswered(items)) && AllAsked([BatchCall(items, tokens, reply)], Unanswered(items))
  {
    hide Wanted, Unanswered;
    forall id ensures (id in Unanswered(items) <==> Wanted(items, id)) && (id in Unanswered(items) ==> Unanswered(items)[id] == Translated(None, None)) {
      UnansweredIs(items, id);
    }
    OneCallSettles(BatchCall(items, tokens, reply), Unanswered(items));
  }

  lemma EntriesSettle(items: seq<Item>, entries: seq<Entry>, tokens: int)
    ensures var call, r := BatchCall(items, tokens, Entries(entries)), ReadEntries(items, entries, Unanswered(items));
      Settles([call], r) && AllAsked([call], r)
  {
    hide Wanted, Unanswered, ReadEntries, Tells;
    var r := ReadEntries(items, entries, Unanswered(items));
    forall id ensures (id in r <==> Wanted(items, id)) && (Wanted(items, id) ==> Tells(Entries(entries), id, r[id])) { ReadTells(items, entries, id); }
    OneCallSettles(BatchCall(items, tokens, Entries(entries)), r);
  }

  // ---- batches ----

  lemma OneItemSettles(item: Item, replies: BatchReplies, from: nat)
    requires OneItem(item, replies, from).0.BatchDone?
    ensures var (outcome, calls) := OneItem(item, replies, from); Settles(calls, outcome.results) && AllAsked(calls, outcome.results)
  {
    hide Settles, AllAsked, ReadEntries, Unanswered;
    if replies(from).Entries? { EntriesSettle([item], replies(from).entries, BatchBudget([item])); }
    else { UnansweredSettles([item], replies(from), BatchBudget([item])); }
  }

  lemma {:induction false} PerItemSettles(items: seq<Item>, replies: BatchReplies, from: nat, results: Results, before: seq<BatchCall>)
    requires PerItem(items, replies, from, results).0.BatchDone? && Settles(before, results)
    ensures var (outcome, calls) := PerItem(items, replies, from, results);
      Settles(before + calls, outcome.results) && (AllAsked(before, results) ==> AllAsked(before + calls, outcome.results))
    decreases |items|
  {
    hide OneItem, Settles, AllAsked;
    if items == [] {
      assert before + [] == before;
    } else {
      var (one, calls) := OneItem(items[0], replies, from);
      OneItemSettles(items[0], replies, from);
      SettlesBoth(before, results, calls, one.results);
      PerItemSettles(items[1..], replies, from + |calls|, results + one.results, before + calls);
      var restCalls := PerItem(items[1..], replies, from + |calls|, results + one.results).1;
      assert before + calls + restCalls == before + (calls + restCalls);
    }
  }

  lemma BatchChunkSettles(items: seq<Item>, replies: BatchReplies, from: nat)
    requires items != [] && BatchChunk(items, replies, from).0.BatchDone?
    ensures var (outcome, calls) := BatchChunk(items, replies, from); Settles(calls, outcome.results) && AllAsked(calls, outcome.results)
  {
    hide OneItem, PerItem, Settles, AllAsked, ReadEntries, Unanswered;
    var reply := replies(from);
    var call := BatchCall(items, BatchBudget(items), reply);
    if reply.Entries? {
      EntriesSettle(items, reply.entries, BatchBudget(items));
    } else {
      UnansweredSettles(items, reply, BatchBudget(items));
      if |items| > 1 {
        PerItemSettles(items, replies, from + 1, Unanswered(items), [call]);
      } else if reply.Malformed? {
        OneItemSettles(items[0], replies, from + 1);
        var (one, calls) := OneItem(items[0], replies, from + 1);
        SettlesBoth([call], Unanswered(items), calls, one.results);
        SameIds(items, one.results, replies, from + 1);
      }
    }
  }

  /** One item's results are for that item alone. */
  lemma {:induction false} SameIds(items: seq<Item>, results: Results, replies: BatchReplies, from: nat)
    requires |items| == 1 && OneItem(items[0], replies, from).0 == BatchDone(results)
    ensures Unanswered(items) + results == results
  {
    OneItemKeys(items[0], replies, from);
    UnansweredKeys(items);
    assert IdsOf(items) == {items[0].id};
  }

  lemma {:induction false} BatchChunksSettle(chunks: seq<seq<Item>>, replies: BatchReplies, from: nat, results: Results, before: seq<BatchCall>)
    requires NoneEmpty(chunks) && BatchChunks(chunks, replies, from, results).0.BatchDone? && Settles(before, results)
    ensures Settles(before + BatchChunks(chunks, replies, from, results).1, BatchChunks(chunks, replies, from, results).0.results)
    decreases |chunks|
  {
    hide BatchChunk, Settles, AllAsked;
    if chunks == [] {
      assert before + [] == before;
    } else {
      var (one, calls) := BatchChunk(chunks[0], replies, from);
      BatchChunkSettles(chunks[0], replies, from);
      SettlesBoth(before, results, calls, one.results);
      BatchChunksSettle(chunks[1..], replies, from + |calls|, results + one.results, before + calls);
      var restCalls := BatchChunks(chunks[1..], replies, from + |calls|, results + one.results).1;
      assert before + calls + restCalls == before + (calls + restCalls);
    }
  }

  lemma NothingSettled(items: seq<Item>)
    ensures Settles([], Unanswered(items))
  {
    forall id ensures id in Unanswered(items) ==> Unanswered(items)[id] == Translated(None, None) { UnansweredIs(items, id); }
  }

  /**
    * When a batch is done, every item has the answer of the last call that asked about it: that reply's last entry for its
    * id, or nothing when the reply was cut off, was no list or did not mention the id.
    */
  lemma LastReplyCounts(items: seq<Item>, replies: BatchReplies, from: nat, item: Item)
    requires item in items && TranslateBatch(true, items, replies, from).0.BatchDone?
    ensures var (outcome, calls) := TranslateBatch(true, items, replies, from);
      item.id in outcome.results && Told(calls, item.id, outcome.results[item.id])
  {
    hide Fill, BatchChunks, Told, FitsOrSingle;
    NothingSettled(items);
    FillLeavesNoneEmpty(items, []);
    var (outcome, calls) := TranslateBatch(true, items, replies, from);
    BatchChunksSettle(Fill(items, []), replies, from, Unanswered(items), []);
    assert [] + calls == calls;
    BatchChunksPartition(items);
    BatchChunksLowered(Fill(items, []), replies, from, Unanswered(items));
    InSomePart(Fill(items, []), item);
    var chunk :| chunk in Fill(items, []) && item in chunk;
    AskedAbout(calls, chunk, item);
  }

  lemma AskedAbout(calls: seq<BatchCall>, chunk: seq<Item>, item: Item)
    requires AskedFor(calls, chunk) && item in chunk
    ensures Asked(calls, item.id)
  {
    var c :| c in calls && c.items == chunk;
    var i :| 0 <= i < |calls| && calls[i] == c;
    var k :| 0 <= k < |chunk| && chunk[k] == item;
    assert Asks(calls[i], item.id);
  }

  // ---- the calls ----

  /** The calls take the provider's replies in turn; the last one failed exactly when the batch was given up. */
  ghost predicate WellMade(calls: seq<BatchCall>, replies: BatchReplies, from: nat, thrown: bool) {
    && (forall k :: 0 <= k < |calls| ==> calls[k].reply == replies(from + k))
    && (forall k :: 0 <= k < |calls| - 1 ==> !calls[k].reply.BatchFailure?)
    && (thrown <==> calls != [] && calls[|calls| - 1].reply.BatchFailure?)
  }

  lemma MadeConcat(a: seq<BatchCall>, b: seq<BatchCall>, replies: BatchReplies, from: nat, thrown: bool)
    requires WellMade(a, replies, from, false) && WellMade(b, replies, from + |a|, thrown)
    ensures WellMade(a + b, replies, from, thrown)
  {
    var c := a + b;
    forall k | 0 <= k < |c| ensures c[k].reply == replies(from + k) && (k < |c| - 1 ==> !c[k].reply.BatchFailure?) {
      if k < |a| { assert c[k] == a[k]; } else { assert c[k] == b[k - |a|]; }
    }
    if b == [] { assert c == a; }
  }

  lemma OneCallMade(call: BatchCall, replies: BatchReplies, from: nat)
    requires call.reply == replies(from)
    ensures WellMade([call], replies, from, call.reply.BatchFailure?)
  {
  }

  lemma OneItemMade(item: Item, replies: BatchReplies, from: nat)
    ensures var (outcome, calls) := OneItem(item, replies, from); WellMade(calls, replies, from, outcome.BatchThrown?)
  {
    OneCallMade(BatchCall([item], BatchBudget([item]), replies(from)), replies, from);
    hide WellMade, ReadEntries, Unanswered;
  }

  lemma {:induction false} PerItemMade(items: seq<Item>, replies: BatchReplies, from: nat, results: Results)
    ensures var (outcome, calls) := PerItem(items, replies, from, results);
      && WellMade(calls, replies, from, outcome.BatchThrown?)
      && |calls| <= |items| && (outcome.BatchDone? ==> |calls| == |items|)
      && (forall i :: 0 <= i < |calls| ==> calls[i].items == [items[i]])
    decreases |items|
  {
    hide OneItem, WellMade;
    if items == [] {
      NothingMade(replies, from);
    } else {
      var (one, calls) := OneItem(items[0], replies, from);
      OneItemMade(items[0], replies, from);
      OneItemKeys(items[0], replies, from);
      if one.BatchDone? {
        PerItemMade(items[1..], replies, from + |calls|, results + one.results);
        var (rest, restCalls) := PerItem(items[1..], replies, from + |calls|, results + one.results);
        MadeConcat(calls, restCalls, replies, from, rest.BatchThrown?);
        forall i | 0 <= i < |calls + restCalls| ensures (calls + restCalls)[i].items == [items[i]] {
          if i > 0 { assert (calls + restCalls)[i] == restCalls[i - 1]; }
        }
      }
    }
  }

  lemma NothingMade(replies: BatchReplies, from: nat)
    ensures WellMade([], replies, from, false)
  {
  }

  /** After a reply that was cut off or no list, each item of the chunk is asked about once more by itself, a single cut-off one excepted. */
  ghost predicate Repeated(items: seq<Item>, calls: seq<BatchCall>) {
    && calls != [] && calls[0].items == items && |calls| <= 1 + |items|
    && (forall i :: 1 <= i < |calls| ==> calls[i].items == [items[i - 1]])
    && (|calls| == 1 || calls[0].reply.Malformed? || (calls[0].reply.BatchIncomplete? && |items| > 1))
    && (|calls| <= |items| ==> calls[|calls| - 1].reply.BatchFailure? || calls[0].reply.Entries? || (calls[0].reply.BatchIncomplete? && |items| == 1))
  }

  lemma BatchChunkMade(items: seq<Item>, replies: BatchReplies, from: nat)
    requires items != []
    ensures var (outcome, calls) := BatchChunk(items, replies, from);
      WellMade(calls, replies, from, outcome.BatchThrown?) && Repeated(items, calls)
  {
    hide OneItem, PerItem, WellMade, ReadEntries, Unanswered;
    var reply := replies(from);
    var call := BatchCall(items, BatchBudget(items), reply);
    OneCallMade(call, replies, from);
    if reply.BatchIncomplete? || reply.Malformed? {
      if |items| > 1 {
        PerItemMade(items, replies, from + 1, Unanswered(items));
        var (again, calls) := PerItem(items, replies, from + 1, Unanswered(items));
        MadeConcat([call], calls, replies, from, again.BatchThrown?);
        if again.BatchThrown? { LastFailed(calls, replies, from + 1, true); }
      } else if reply.Malformed? {
        OneItemMade(items[0], replies, from + 1);
        OneItemKeys(items[0], replies, from + 1);
        var (one, calls) := OneItem(items[0], replies, from + 1);
        MadeConcat([call], calls, replies, from, one.BatchThrown?);
        if one.BatchThrown? { LastFailed(calls, replies, from + 1, true); }
      }
    }
  }

  lemma LastFailed(calls: seq<BatchCall>, replies: BatchReplies, from: nat, thrown: bool)
    requires WellMade(calls, replies, from, thrown) && thrown
    ensures calls != [] && calls[|calls| - 1].reply.BatchFailure?
  {
  }

  lemma {:induction false} BatchChunksMade(chunks: seq<seq<Item>>, replies: BatchReplies, from: nat, results: Results) returns (parts: seq<seq<BatchCall>>)
    requires NoneEmpty(chunks)
    ensures var (outcome, calls) := BatchChunks(chunks, replies, from, results);
      && WellMade(calls, replies, from, outcome.BatchThrown?) && Flat(parts) == calls
      && |parts| <= |chunks| && (outcome.BatchDone? ==> |parts| == |chunks|)
      && (forall i :: 0 <= i < |parts| ==> Repeated(chunks[i], parts[i]))
    decreases |chunks|
  {
    hide BatchChunk, WellMade, Repeated;
    if chunks == [] {
      parts := [];
      NothingMade(replies, from);
    } else {
      var (one, calls) := BatchChunk(chunks[0], replies, from);
      BatchChunkMade(chunks[0], replies, from);
      if one.BatchDone? {
        var rest := BatchChunksMade(chunks[1..], replies, from + |calls|, results + one.results);
        var (outcome, restCalls) := BatchChunks(chunks[1..], replies, from + |calls|, results + one.results);
        MadeConcat(calls, restCalls, replies, from, outcome.BatchThrown?);
        parts := [calls] + rest;
        assert parts[1..] == rest;
        forall i | 0 <= i < |parts| ensures Repeated(chunks[i], parts[i]) { if i > 0 { assert Repeated(chunks[1..][i - 1], rest[i - 1]); } }
      } else {
        parts := [calls];
        assert parts[1..] == [] && calls + [] == calls;
        assert Flat(parts[1..]) == [];
      }
    }
  }

  /** A batch asks about its cuts one after the other, each repeated item by item when its reply is broken, and ends with the first call that fails. */
  lemma BatchCallsAreMade(items: seq<Item>, replies: BatchReplies, from: nat) returns (parts: seq<seq<BatchCall>>, chunks: seq<seq<Item>>)
    requires items != []
    ensures var (outcome, calls) := TranslateBatch(true, items, replies, from);
      && WellMade(calls, replies, from, outcome.BatchThrown?)
      && Flat(parts) == calls && Flat(chunks) == items && NoneEmpty(chunks)
      && |parts| <= |chunks| && (outcome.BatchDone? ==> |parts| == |chunks|)
      && (forall i :: 0 <= i < |parts| ==> Repeated(chunks[i], parts[i]))
  {
    hide Fill, BatchChunks, WellMade, Repeated;
    chunks := Fill(items, []);
    BatchChunksPartition(items);
    parts := BatchChunksMade(chunks, replies, from, Unanswered(items));
  }
}
