/** Which reply each text and each language comes from. */
module TranslateAnswers {
  import opened Prelude
  import opened Whitespace
  import opened TranslateEngineModel
  import opened TranslateEngineProofs

  // ---- texts for many languages ----

  /** A readable reply to a call for the language holds a text in it that is not blank. */
  predicate Says(c: Call, lang: Lang) {
    c.reply.Parsed? && lang in c.targets && lang in c.reply.texts && Trim(c.reply.texts[lang]) != ""
  }

  lemma TextsAreSaid(c: Call, lang: Lang)
    ensures lang in TextsOf(c.targets, c.reply) <==> Says(c, lang)
    ensures Says(c, lang) ==> TextsOf(c.targets, c.reply)[lang] == Trim(c.reply.texts[lang])
  {
    hide Trim;
  }

  lemma {:induction false} AnswersAreSaid(calls: seq<Call>, lang: Lang)
    requires NoDup(FinalTargets(calls))
    ensures lang in Answers(calls) <==> exists i :: 0 <= i < |calls| && Says(calls[i], lang)
    ensures forall i :: 0 <= i < |calls| && Says(calls[i], lang) ==> lang in Answers(calls) && Answers(calls)[lang] == Trim(calls[i].reply.texts[lang])
  {
    hide Trim, TextsOf, FinalTargets, NoDup;
    if calls == [] {
      NoCalls();
    } else {
      var n := |calls| - 1;
      FinalsOnce(calls);
      AnswersAreSaid(calls[..n], lang);
      TextsAreSaid(calls[n], lang);
      assert forall i :: 0 <= i < n ==> calls[..n][i] == calls[i];
      if Says(calls[n], lang) {
        forall i | 0 <= i < n ensures !Says(calls[i], lang) {
          if Says(calls[i], lang) { FinalHasTargets(calls[..n], i, lang); AlreadyAsked(FinalTargets(calls[..n]), calls[n].targets, lang); }
        }
      }
    }
  }

  lemma FinalsOnce(calls: seq<Call>)
    requires calls != [] && NoDup(FinalTargets(calls))
    ensures var n := |calls| - 1;
      NoDup(FinalTargets(calls[..n])) && (Final(calls[n]) ==> NoDup(FinalTargets(calls[..n]) + calls[n].targets))
  {
    var n := |calls| - 1;
    var before, all := FinalTargets(calls[..n]), FinalTargets(calls);
    forall i, j | 0 <= i < j < |before| ensures before[i] != before[j] { assert all[i] == before[i] && all[j] == before[j]; }
  }

  lemma AlreadyAsked(before: seq<Lang>, more: seq<Lang>, lang: Lang)
    requires NoDup(before + more) && lang in before
    ensures lang !in more
  {
    var k :| 0 <= k < |before| && before[k] == lang;
    forall l | 0 <= l < |more| ensures more[l] != lang { assert (before + more)[k] != (before + more)[|before| + l]; }
  }

  /**
    * When translateMulti is done, a language is in its result exactly when a readable reply to a call for that language
    * holds a text in that very language that is not blank, and the result is that text, trimmed.
    */
  lemma ResultIsSaid(text: Text, targets: seq<Lang>, replies: Replies, from: nat, lang: Lang)
    requires TranslateMulti(true, text, targets, replies, from).0.Done?
    ensures var (outcome, calls) := TranslateMulti(true, text, targets, replies, from);
      var t := outcome.result.translations;
      && (lang in t <==> exists i :: 0 <= i < |calls| && Says(calls[i], lang))
      && (forall i :: 0 <= i < |calls| && Says(calls[i], lang) ==> lang in t && t[lang] == Trim(calls[i].reply.texts[lang]))
  {
    hide TranslateMulti, Answers, FinalTargets, Says, Trim;
    EveryTargetAskedOnce(text, targets, replies, from);
    AnswersAreSaid(TranslateMulti(true, text, targets, replies, from).1, lang);
  }

  // ---- the calls ----

  /** The calls take the provider's replies one after the other. */
  ghost predicate InReplyOrder(calls: seq<Call>, replies: Replies, from: nat) {
    forall k :: 0 <= k < |calls| ==> calls[k].reply == replies(from + k)
  }

  /** A call whose output was cut off is followed by the call for the first half of its targets, rounded up. */
  ghost predicate Halving(calls: seq<Call>) {
    forall i :: 0 <= i < |calls| && calls[i].reply.Incomplete? && |calls[i].targets| > 1 ==>
      i + 1 < |calls| && calls[i + 1].targets == calls[i].targets[..(|calls[i].targets| + 1) / 2]
  }

  /** Only the last call may have failed or been unreadable. */
  ghost predicate BreaksOff(calls: seq<Call>, thrown: bool) {
    && (forall k :: 0 <= k < |calls| - 1 ==> !calls[k].reply.Failure? && !calls[k].reply.Unreadable?)
    && (thrown <==> calls != [] && (calls[|calls| - 1].reply.Failure? || calls[|calls| - 1].reply.Unreadable?))
  }

  lemma OrderConcat(a: seq<Call>, b: seq<Call>, replies: Replies, from: nat)
    requires InReplyOrder(a, replies, from) && InReplyOrder(b, replies, from + |a|)
    ensures InReplyOrder(a + b, replies, from)
  {
    forall k | 0 <= k < |a + b| ensures (a + b)[k].reply == replies(from + k) {
      if k >= |a| { assert (a + b)[k] == b[k - |a|]; }
    }
  }

  lemma HalvingConcat(a: seq<Call>, b: seq<Call>)
    requires Halving(a) && Halving(b)
    ensures Halving(a + b)
  {
    var c := a + b;
    forall i | 0 <= i < |c| && c[i].reply.Incomplete? && |c[i].targets| > 1
      ensures i + 1 < |c| && c[i + 1].targets == c[i].targets[..(|c[i].targets| + 1) / 2]
    {
      if i < |a| { assert c[i] == a[i] && c[i + 1] == a[i + 1]; } else { assert c[i] == b[i - |a|] && c[i + 1] == b[i - |a| + 1]; }
    }
  }

  lemma BreaksConcat(a: seq<Call>, b: seq<Call>, thrown: bool)
    requires BreaksOff(a, false) && BreaksOff(b, thrown)
    ensures BreaksOff(a + b, thrown)
  {
    var c := a + b;
    forall k | 0 <= k < |c| - 1 ensures !c[k].reply.Failure? && !c[k].reply.Unreadable? {
      if k < |a| { assert c[k] == a[k]; } else { assert c[k] == b[k - |a|]; }
    }
    if b == [] { assert c == a; }
  }

  ghost predicate WellMade(calls: seq<Call>, replies: Replies, from: nat, thrown: bool) {
    InReplyOrder(calls, replies, from) && Halving(calls) && BreaksOff(calls, thrown)
  }

  lemma MadeConcat(a: seq<Call>, b: seq<Call>, replies: Replies, from: nat, thrown: bool)
    requires WellMade(a, replies, from, false) && WellMade(b, replies, from + |a|, thrown)
    ensures WellMade(a + b, replies, from, thrown)
  {
    OrderConcat(a, b, replies, from);
    HalvingConcat(a, b);
    BreaksConcat(a, b, thrown);
  }

  lemma MadeAfterCut(call: Call, rest: seq<Call>, replies: Replies, from: nat, thrown: bool)
    requires WellMade(rest, replies, from + 1, thrown) && call.reply == replies(from) && call.reply.Incomplete? && |call.targets| > 1
    requires rest != [] && rest[0].targets == call.targets[..(|call.targets| + 1) / 2]
    ensures WellMade([call] + rest, replies, from, thrown)
  {
    OrderConcat([call], rest, replies, from);
    var c := [call] + rest;
    forall i | 0 <= i < |c| && c[i].reply.Incomplete? && |c[i].targets| > 1
      ensures i + 1 < |c| && c[i + 1].targets == c[i].targets[..(|c[i].targets| + 1) / 2]
    {
      if i > 0 { assert c[i] == rest[i - 1] && c[i + 1] == rest[i]; }
    }
    forall k | 0 <= k < |c| - 1 ensures !c[k].reply.Failure? && !c[k].reply.Unreadable? { if k > 0 { assert c[k] == rest[k - 1]; } }
  }

  lemma {:induction false} ChunkWellMade(chars: nat, targets: seq<Lang>, replies: Replies, from: nat)
    requires targets != []
    ensures var (outcome, calls) := MultiChunk(chars, targets, replies, from);
      WellMade(calls, replies, from, outcome.Thrown?) && calls != [] && calls[0].targets == targets
    decreases |targets|
  {
    hide TextsOf, Budget, WellMade;
    var reply := replies(from);
    var call := Call(targets, Budget(chars, |targets|), reply);
    if reply.Incomplete? && |targets| > 1 {
      var mid := (|targets| + 1) / 2;
      ChunkWellMade(chars, targets[..mid], replies, from + 1);
      var (left, leftCalls) := MultiChunk(chars, targets[..mid], replies, from + 1);
      if left.Done? {
        ChunkWellMade(chars, targets[mid..], replies, from + 1 + |leftCalls|);
        var (right, rightCalls) := MultiChunk(chars, targets[mid..], replies, from + 1 + |leftCalls|);
        MadeConcat(leftCalls, rightCalls, replies, from + 1, right.Thrown?);
        MadeAfterCut(call, leftCalls + rightCalls, replies, from, right.Thrown?);
      } else {
        MadeAfterCut(call, leftCalls, replies, from, true);
      }
    } else {
      OneCallMade(call, replies, from);
    }
  }

  lemma OneCallMade(call: Call, replies: Replies, from: nat)
    requires call.reply == replies(from) && (call.reply.Incomplete? ==> |call.targets| <= 1)
    ensures WellMade([call], replies, from, call.reply.Failure? || call.reply.Unreadable?)
  {
  }

  lemma {:induction false} ChunksWellMade(chars: nat, chunks: seq<seq<Lang>>, replies: Replies, from: nat, result: Multi)
    requires NoneEmpty(chunks)
    ensures var (outcome, calls) := MultiChunks(chars, chunks, replies, from, result);
      WellMade(calls, replies, from, outcome.Thrown?) && (chunks != [] ==> calls != [] && calls[0].targets == chunks[0])
    decreases |chunks|
  {
    hide MultiChunk, WellMade;
    if chunks == [] {
      NoCallsMade(replies, from);
    } else {
      ChunkWellMade(chars, chunks[0], replies, from);
      var (partial, calls) := MultiChunk(chars, chunks[0], replies, from);
      if partial.Done? {
        ChunksWellMade(chars, chunks[1..], replies, from + |calls|, Added(result, partial.result));
        var (rest, restCalls) := MultiChunks(chars, chunks[1..], replies, from + |calls|, Added(result, partial.result));
        MadeConcat(calls, restCalls, replies, from, rest.Thrown?);
      }
    }
  }

  lemma NoCallsMade(replies: Replies, from: nat)
    ensures WellMade([], replies, from, false)
  {
  }

  /** How many targets fit a call: as many as keep the estimate within 1400 tokens, but at least one. */
  ghost predicate FitsACall(chars: nat, k: nat) {
    k >= 1 && (k == 1 || k * ((5 * chars + 1) / 2) <= 1_400) && (chars > 0 ==> (k + 1) * ((5 * chars + 1) / 2) > 1_400)
  }

  lemma PerCallIsLargest(chars: nat, total: nat)
    ensures FitsACall(chars, PerCall(chars, total)) && (chars == 0 ==> PerCall(chars, total) >= total)
  {
    var e := (5 * chars + 1) / 2;
    if e > 0 {
      var q := 1_400 / e;
      assert q * e <= 1_400 < (q + 1) * e;
    }
  }

  /**
    * The calls of translateMulti take the replies in turn. The first one asks for as many distinct targets as fit a call, a
    * cut-off call is followed by its first half, and the whole fails exactly when its last call failed or was unreadable.
    */
  lemma CallsAreWellMade(text: Text, targets: seq<Lang>, replies: Replies, from: nat)
    requires targets != []
    ensures var (outcome, calls) := TranslateMulti(true, text, targets, replies, from);
      && WellMade(calls, replies, from, outcome.Thrown?) && calls != []
      && exists k: nat :: FitsACall(|text|, k) && (|text| == 0 ==> k >= |Distinct(targets)|) &&
           calls[0].targets == Distinct(targets)[..Min(k, |Distinct(targets)|)]
  {
    hide MultiChunks, PerCall, WellMade, FitsACall;
    DistinctIsSet(targets);
    var unique := Distinct(targets);
    assert targets[0] in ToSet(targets);
    var k := PerCall(|text|, |unique|);
    PerCallIsLargest(|text|, |unique|);
    ChunksAreFilled(unique, k);
    ChunksWellMade(|text|, Chunks(unique, k), replies, from, NOTHING);
    FirstChunk(unique, k);
  }

  lemma FirstChunk(targets: seq<Lang>, perCall: nat)
    requires targets != [] && perCall >= 1
    ensures Chunks(targets, perCall) != [] && Chunks(targets, perCall)[0] == targets[..Min(perCall, |targets|)]
  {
    if |targets| <= perCall { assert targets[..|targets|] == targets; }
  }

  // ---- the language of the text ----

  /** A language the tool knows, or none. */
  function Known(source: Option<string>): Option<Lang> {
    if source == Some("ko") || source == Some("en") || source == Some("ja") || source == Some("zh") || source == Some("ru")
    then source else None
  }

  function SourceOf(c: Call): Option<Lang> {
    if c.reply.Parsed? then Known(c.reply.source) else None
  }

  /** The first reply that knows the language. */
  function FirstKnown(calls: seq<Call>): Option<Lang> {
    if calls == [] then None else if SourceOf(calls[0]).Some? then SourceOf(calls[0]) else FirstKnown(calls[1..])
  }

  lemma {:induction false} FirstKnownConcat(a: seq<Call>, b: seq<Call>)
    ensures FirstKnown(a + b) == if FirstKnown(a).Some? then FirstKnown(a) else FirstKnown(b)
  {
    hide SourceOf;
    if a == [] {
      assert a + b == b;
    } else {
      assert (a + b)[0] == a[0] && (a + b)[1..] == a[1..] + b;
      FirstKnownConcat(a[1..], b);
    }
  }

  /** Within a chunk the first reply that knows the language counts. */
  lemma {:induction false} ChunkSource(chars: nat, targets: seq<Lang>, replies: Replies, from: nat)
    requires targets != [] && MultiChunk(chars, targets, replies, from).0.Done?
    ensures var (outcome, calls) := MultiChunk(chars, targets, replies, from); outcome.result.source == FirstKnown(calls)
    decreases |targets|
  {
    hide TextsOf, Budget, FirstKnown;
    var reply := replies(from);
    var call := Call(targets, Budget(chars, |targets|), reply);
    OneSource(call);
    if reply.Incomplete? && |targets| > 1 {
      var mid := (|targets| + 1) / 2;
      var leftCalls := MultiChunk(chars, targets[..mid], replies, from + 1).1;
      var rightCalls := MultiChunk(chars, targets[mid..], replies, from + 1 + |leftCalls|).1;
      ChunkSource(chars, targets[..mid], replies, from + 1);
      ChunkSource(chars, targets[mid..], replies, from + 1 + |leftCalls|);
      FirstKnownConcat([call], leftCalls + rightCalls);
      FirstKnownConcat(leftCalls, rightCalls);
    }
  }

  lemma OneSource(call: Call)
    ensures FirstKnown([call]) == SourceOf(call)
    ensures call.reply.Parsed? ==> SourceOf(call) == NormalizeSource(call.reply.source)
    ensures !call.reply.Parsed? ==> SourceOf(call) == None
  {
    assert FirstKnown([]) == None;
  }

  /** The last chunk with a reply that knows the language. */
  function LastKnown(parts: seq<seq<Call>>, before: Option<Lang>): Option<Lang> {
    if parts == [] then before else LastKnown(parts[1..], if FirstKnown(parts[0]).Some? then FirstKnown(parts[0]) else before)
  }

  lemma {:induction false} ChunksSource(chars: nat, chunks: seq<seq<Lang>>, replies: Replies, from: nat, result: Multi) returns (parts: seq<seq<Call>>)
    requires NoneEmpty(chunks) && MultiChunks(chars, chunks, replies, from, result).0.Done?
    ensures var (outcome, calls) := MultiChunks(chars, chunks, replies, from, result);
      && Flat(parts) == calls && |parts| == |chunks|
      && (forall i :: 0 <= i < |parts| ==> parts[i] != [] && parts[i][0].targets == chunks[i])
      && outcome.result.source == LastKnown(parts, result.source)
    decreases |chunks|
  {
    hide MultiChunk, FirstKnown, WellMade;
    if chunks == [] {
      parts := [];
    } else {
      var (partial, calls) := MultiChunk(chars, chunks[0], replies, from);
      ChunkSource(chars, chunks[0], replies, from);
      ChunkWellMade(chars, chunks[0], replies, from);
      var rest := ChunksSource(chars, chunks[1..], replies, from + |calls|, Added(result, partial.result));
      parts := [calls] + rest;
      assert parts[1..] == rest;
    }
  }

  /**
    * The calls of translateMulti fall into parts, each begun by the call for one cut of the distinct targets. The language
    * reported is that of the last part in which a reply knew it, and in that part of the first such reply.
    */
  lemma SourceIsReported(text: Text, targets: seq<Lang>, replies: Replies, from: nat) returns (parts: seq<seq<Call>>, chunks: seq<seq<Lang>>)
    requires TranslateMulti(true, text, targets, replies, from).0.Done?
    ensures var (outcome, calls) := TranslateMulti(true, text, targets, replies, from);
      && Flat(parts) == calls && Flat(chunks) == Distinct(targets) && |parts| == |chunks|
      && (forall i :: 0 <= i < |parts| ==> parts[i] != [] && parts[i][0].targets == chunks[i])
      && outcome.result.source == LastKnown(parts, None)
  {
    hide MultiChunks, PerCall, Chunks, LastKnown;
    var unique := Distinct(targets);
    if unique == [] {
      parts, chunks := [], [];
      assert LastKnown([], None) == None by { NothingKnown(); }
    } else {
      var perCall := PerCall(|text|, |unique|);
      ChunksAreFilled(unique, perCall);
      ChunksPartition(unique, perCall);
      chunks := Chunks(unique, perCall);
      parts := ChunksSource(|text|, chunks, replies, from, NOTHING);
    }
  }

  lemma NothingKnown()
    ensures LastKnown([], None) == None
  {
  }
}
