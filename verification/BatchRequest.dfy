/** What the batch request lets through, by the validator's count. */
module BatchRequest {
  import opened Prelude
  import opened TranslateEngineModel
  import opened TranslateEngineProofs

  const MAX_ITEMS := 20
  const MAX_ITEM_LENGTH := 500
  const MAX_TOTAL_LENGTH := 2000

  // ---- the validator's count ----

  predicate IsHigh(u: Unit) { 0xD800 <= u <= 0xDBFF }

  predicate IsLow(u: Unit) { 0xDC00 <= u <= 0xDFFF }

  predicate IsSelector(u: Unit) { u == 0xFE0E || u == 0xFE0F }

  predicate IsPair(a: Unit, b: Unit) { IsHigh(a) && IsLow(b) }

  /** A unit with the variation selector that says how to present it. */
  predicate IsPresented(a: Unit, b: Unit) { !IsSelector(a) && IsSelector(b) }

  /** How many times a pattern of two units matches, from left to right and without overlaps. */
  function Matches(text: Text, pattern: (Unit, Unit) -> bool): nat {
    if |text| < 2 then 0
    else if pattern(text[0], text[1]) then 1 + Matches(text[2..], pattern)
    else Matches(text[1..], pattern)
  }

  /** The length of a text as MinLength and MaxLength count it. */
  function Counted(text: Text): int {
    |text| - Matches(text, IsPresented) - Matches(text, IsPair)
  }

  // ---- the count by positions ----

  predicate Joins(a: Unit, b: Unit) { IsPair(a, b) || IsPresented(a, b) }

  predicate JoinedAt(text: Text, i: nat) {
    0 < i < |text| && Joins(text[i - 1], text[i])
  }

  /** The positions whose unit is counted together with the one before. */
  function Joined(text: Text): set<nat> {
    set i: nat | i < |text| && JoinedAt(text, i)
  }

  /** At how many positions the pattern stands, overlaps included. */
  function Hits(text: Text, pattern: (Unit, Unit) -> bool): nat {
    if |text| < 2 then 0 else (if pattern(text[0], text[1]) then 1 else 0) + Hits(text[1..], pattern)
  }

  lemma {:induction false} MatchesAreHits(text: Text, pattern: (Unit, Unit) -> bool)
    requires forall a: Unit, b: Unit, c: Unit :: !(pattern(a, b) && pattern(b, c))
    ensures Matches(text, pattern) == Hits(text, pattern)
  {
    if |text| >= 2 {
      if pattern(text[0], text[1]) {
        MatchesAreHits(text[2..], pattern);
        if |text| > 2 { assert text[1..][1..] == text[2..] && !pattern(text[1], text[2]); }
      } else {
        MatchesAreHits(text[1..], pattern);
      }
    }
  }

  /** Neither pattern can overlap itself. */
  lemma CountedIs(text: Text)
    ensures Counted(text) == |text| - Hits(text, IsPresented) - Hits(text, IsPair)
  {
    MatchesAreHits(text, IsPresented);
    MatchesAreHits(text, IsPair);
  }

  lemma {:induction false} HitsConcat(a: Text, b: Text, pattern: (Unit, Unit) -> bool)
    ensures Hits(a + b, pattern) ==
      Hits(a, pattern) + Hits(b, pattern) + (if a != [] && b != [] && pattern(a[|a| - 1], b[0]) then 1 else 0)
  {
    if a == [] {
      assert a + b == b;
    } else {
      assert (a + b)[1..] == a[1..] + b;
      HitsConcat(a[1..], b, pattern);
    }
  }

  /** The end of one text and the start of the other may be counted together, the rest adds up. */
  lemma CountedConcat(a: Text, b: Text)
    ensures Counted(a + b) == Counted(a) + Counted(b) - (if a != [] && b != [] && Joins(a[|a| - 1], b[0]) then 1 else 0)
  {
    CountedIs(a);
    CountedIs(b);
    CountedIs(a + b);
    HitsConcat(a, b, IsPresented);
    HitsConcat(a, b, IsPair);
  }

  /** A text counts every unit but the joined ones. */
  lemma {:induction false} CountedByPositions(text: Text)
    ensures Counted(text) == |text| - |Joined(text)|
  {
    hide Joins, Counted, Joined;
    if text == [] {
      CountedOne([]);
      assert Joined([]) == {} by { NoneJoined(); }
    } else {
      var n := |text| - 1;
      var front, last := text[..n], [text[n]];
      CountedByPositions(front);
      assert text == front + last;
      CountedConcat(front, last);
      CountedOne(last);
      JoinedPush(text);
    }
  }

  lemma NoneJoined()
    ensures Joined([]) == {}
  {
  }

  lemma JoinedPush(text: Text)
    requires text != []
    ensures var n := |text| - 1; |Joined(text)| == |Joined(text[..n])| + (if JoinedAt(text, n) then 1 else 0)
  {
    var n := |text| - 1;
    hide Joins;
    assert forall i: nat :: i < n ==> JoinedAt(text, i) == JoinedAt(text[..n], i);
    assert Joined(text) == Joined(text[..n]) + (if JoinedAt(text, n) then {n} else {});
  }

  lemma CountedOne(text: Text)
    requires |text| <= 1
    ensures Counted(text) == |text|
  {
  }

  /** At most three units are counted as one character: what can still be joined in front is as much as the first unit allows. */
  lemma {:induction false} CountedBound(text: Text)
    ensures |text| <= 3 * Counted(text)
    ensures text != [] && IsLow(text[0]) ==> |text| + 1 <= 3 * Counted(text)
    ensures text != [] && IsSelector(text[0]) ==> |text| + 2 <= 3 * Counted(text)
  {
    hide Counted;
    if |text| <= 1 {
      CountedOne(text);
    } else {
      CountedBound(text[1..]);
      CountedOne([text[0]]);
      assert text == [text[0]] + text[1..];
      CountedConcat([text[0]], text[1..]);
    }
  }

  // ---- the request ----

  function Units(items: seq<Item>): nat {
    if items == [] then 0 else Units(items[..|items| - 1]) + |items[|items| - 1].text|
  }

  /** The validation: the texts by their count, their sum in units. */
  predicate Accepted(items: seq<Item>) {
    && 1 <= |items| <= MAX_ITEMS
    && (forall item <- items :: 1 <= Counted(item.text) <= MAX_ITEM_LENGTH)
    && Units(items) <= MAX_TOTAL_LENGTH
  }

  /**
    * Of an accepted request some items reach the engine. When the batch is done, an item was asked for with a lowered
    * budget exactly when it has more than 560 units: at most 1500, of which more than 60 are counted with the one before.
    */
  lemma AcceptedLowered(request: seq<Item>, items: seq<Item>, replies: BatchReplies, from: nat, item: Item)
    requires Accepted(request) && (forall x <- items :: x in request) && item in items
    requires TranslateBatch(true, items, replies, from).0.BatchDone?
    ensures (exists c <- TranslateBatch(true, items, replies, from).1 :: item in c.items && Lowered(c)) <==> |item.text| > FITTING_UNITS
    ensures |item.text| <= 3 * MAX_ITEM_LENGTH
    ensures |item.text| > FITTING_UNITS ==> |Joined(item.text)| > FITTING_UNITS - MAX_ITEM_LENGTH
  {
    hide TranslateBatch, Lowered, Counted, Joined;
    LongItemsLowered(items, replies, from, item);
    CountedBound(item.text);
    CountedByPositions(item.text);
  }

  // ---- texts that are accepted and too long ----

  function Repeat(block: Text, n: nat): Text {
    if n == 0 then [] else block + Repeat(block, n - 1)
  }

  lemma {:induction false} RepeatCounts(block: Text, n: nat)
    requires block != [] && !Joins(block[|block| - 1], block[0])
    ensures var text := Repeat(block, n);
      |text| == n * |block| && Counted(text) == n * Counted(block) && (text != [] ==> text[0] == block[0])
  {
    hide Joins, Counted;
    if n == 0 {
      CountedOne([]);
    } else {
      RepeatCounts(block, n - 1);
      CountedConcat(block, Repeat(block, n - 1));
    }
  }

  lemma OneItemAccepted(item: Item)
    requires 1 <= Counted(item.text) <= MAX_ITEM_LENGTH && |item.text| <= MAX_TOTAL_LENGTH
    ensures Accepted([item]) && Tokens([item]) == EstimateTokens(|item.text|)
  {
    assert [item][..0] == [];
    SingleTokens(item);
  }

  const BOLD_A: Text := [0xD835, 0xDC00]

  const SMILE: Text := [0x263A, 0xFE0F]

  lemma BlocksCount()
    ensures Counted(BOLD_A) == Counted(SMILE) == Counted(BOLD_A + [0xFE0F]) == 1
  {
    assert BOLD_A[1..] == [0xDC00] && SMILE[1..] == [0xFE0F];
    assert Counted(BOLD_A) == 1 && Counted(SMILE) == 1;
    CountedConcat(BOLD_A, [0xFE0F]);
    CountedOne([0xFE0F]);
  }

  /** A batch of one item begins with the call for it, whatever the provider replies. */
  lemma SoleItemAsked(item: Item, replies: BatchReplies, from: nat)
    ensures var calls := TranslateBatch(true, [item], replies, from).1;
      calls != [] && calls[0] == BatchCall([item], BatchBudget([item]), replies(from))
  {
    hide OneItem, BatchBudget, Unanswered, ReadEntries;
    assert [item][1..] == [] && [] + [item] == [item] && [[item]][1..] == [];
    assert Fill([item], []) == [[item]];
  }

  /** Five hundred times U+1D400, a letter of two units: accepted, estimated at 2500 tokens and asked for with 1500. */
  lemma PairsLowerBudget(replies: BatchReplies, from: nat) returns (item: Item)
    ensures item.text == Repeat(BOLD_A, 500) && Counted(item.text) == 500 && |item.text| == 1000 && Accepted([item])
    ensures TranslateBatch(true, [item], replies, from).1 != []
    ensures TranslateBatch(true, [item], replies, from).1[0].maxOutputTokens == 1500 < Tokens([item]) + OUTPUT_TOKENS_OVERHEAD == 2600
  {
    hide Counted, Tokens, Repeat, Accepted, TranslateBatch;
    item := Item(1, Repeat(BOLD_A, 500));
    BlocksCount();
    RepeatCounts(BOLD_A, 500);
    OneItemAccepted(item);
    SoleItemAsked(item, replies, from);
  }

  /** The letter a and 281 times U+263A with a selector: no surrogate pair, accepted as 282 characters, estimated at 1408 tokens and 8 short. */
  lemma SelectorsLowerBudget(replies: BatchReplies, from: nat) returns (item: Item)
    ensures item.text == ['a' as int] + Repeat(SMILE, 281) && Counted(item.text) == 282 && |item.text| == 563 && Accepted([item])
    ensures TranslateBatch(true, [item], replies, from).1 != []
    ensures TranslateBatch(true, [item], replies, from).1[0].maxOutputTokens == 1500 < Tokens([item]) + OUTPUT_TOKENS_OVERHEAD == 1508
  {
    hide Counted, Tokens, Repeat, Accepted, TranslateBatch;
    item := Item(1, ['a' as int] + Repeat(SMILE, 281));
    BlocksCount();
    RepeatCounts(SMILE, 281);
    CountedOne(['a' as int]);
    CountedConcat(['a' as int], Repeat(SMILE, 281));
    OneItemAccepted(item);
    SoleItemAsked(item, replies, from);
  }

  /** The bound of 1500 units is reached: a letter of two units with a selector, five hundred times. */
  lemma LongestText() returns (item: Item)
    ensures Counted(item.text) == MAX_ITEM_LENGTH && |item.text| == 3 * MAX_ITEM_LENGTH && Accepted([item])
  {
    hide Counted, Tokens, Repeat, Accepted;
    var block := BOLD_A + [0xFE0F];
    item := Item(1, Repeat(block, 500));
    BlocksCount();
    RepeatCounts(block, 500);
    OneItemAccepted(item);
  }
}
