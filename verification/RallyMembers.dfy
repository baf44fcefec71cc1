/** Rally members as rows of a table with a unique index, and the methods that rewrite them, proved against the model. */
module RallyMembers {
  import opened Prelude
  import opened Numbering
  import opened Sorting
  import opened RallyModel
  import opened RallyIndex
  import RallyInvariants

  /** A member row as the service holds it in memory. */
  class RallyGroupMember {
    const id: Id
    const userId: int
    const marchSecondsOverride: Option<int>
    const userMarchSeconds: Option<int>
    var orderIndex: int

    constructor (id: Id, row: Row)
      ensures this.id == id && userId == row.userId && marchSecondsOverride == row.marchOverride
      ensures userMarchSeconds == row.userMarch && orderIndex == row.orderIndex
    {
      this.id, userId, orderIndex := id, row.userId, row.orderIndex;
      marchSecondsOverride, userMarchSeconds := row.marchOverride, row.userMarch;
    }

    function EffectiveMarch(): int { marchSecondsOverride.GetOr(userMarchSeconds.GetOr(0)) }
  }

  /** A member's place in the list read, with what it is sorted by. */
  datatype Weighed = Weighed(at: nat, effective: int, prevOrder: int)

  predicate SlowerFirst(a: Weighed, b: Weighed) {
    a.effective > b.effective || (a.effective == b.effective && a.prevOrder < b.prevOrder)
  }

  lemma SlowerFirstIsStrict()
    ensures StrictWeak(SlowerFirst)
  {
  }

  ghost predicate Listed(entries: seq<Weighed>, n: nat) {
    && |entries| == n && (forall i :: 0 <= i < n ==> entries[i].at < n)
    && (forall i, j :: 0 <= i < j < n ==> entries[i].at != entries[j].at)
  }

  lemma SortListed(entries: seq<Weighed>, n: nat)
    requires Listed(entries, n)
    ensures var sorted := Sort(entries, SlowerFirst); Listed(sorted, n) && forall e <- sorted :: e in entries
  {
    hide Sort, SlowerFirst;
    var sorted := Sort(entries, SlowerFirst);
    SortPermutes(entries, SlowerFirst);
    SamePermuted(sorted, entries);
    OnceEach(entries);
    OnceEach(sorted);
    assert forall i :: 0 <= i < n ==> sorted[i] in entries;
    forall i, j | 0 <= i < j < n ensures sorted[i].at != sorted[j].at {
      assert sorted[i] in entries && sorted[j] in entries && sorted[i] != sorted[j];
    }
  }

  /** The members with what they are sorted by. */
  method Weigh(members: seq<RallyGroupMember>) returns (entries: seq<Weighed>)
    ensures |entries| == |members|
    ensures forall k :: 0 <= k < |members| ==> entries[k] == Weighed(k, members[k].EffectiveMarch(), members[k].orderIndex)
  {
    entries := [];
    for i := 0 to |members|
      invariant |entries| == i
      invariant forall k :: 0 <= k < i ==> entries[k] == Weighed(k, members[k].EffectiveMarch(), members[k].orderIndex)
    {
      entries := entries + [Weighed(i, members[i].EffectiveMarch(), members[i].orderIndex)];
    }
  }

  /** Each member gets its place in the sorted list as its order number. */
  method Renumber(members: seq<RallyGroupMember>, entries: seq<Weighed>) returns (sorted: seq<RallyGroupMember>)
    requires NoDup(members) && Listed(entries, |members|)
    modifies members
    ensures |sorted| == |members|
    ensures forall i :: 0 <= i < |sorted| ==> sorted[i] == members[entries[i].at] && sorted[i].orderIndex == i + 1
  {
    sorted := [];
    for i := 0 to |entries|
      invariant |sorted| == i
      invariant forall k :: 0 <= k < i ==> sorted[k] == members[entries[k].at] && sorted[k].orderIndex == k + 1
    {
      var m := members[entries[i].at];
      assert forall k :: 0 <= k < i ==> sorted[k] != m;
      m.orderIndex := i + 1;
      sorted := sorted + [m];
    }
  }

  /** What the sort is by, for each place in the sorted list. */
  lemma SortedEntries(weighed: seq<Weighed>, n: nat)
    requires Listed(weighed, n) && forall k :: 0 <= k < n ==> weighed[k].at == k
    ensures var entries := Sort(weighed, SlowerFirst);
      && Listed(entries, n)
      && (forall i :: 0 <= i < n ==> entries[i] == weighed[entries[i].at])
      && forall i, j :: 0 <= i < j < n ==> !SlowerFirst(entries[j], entries[i])
  {
    hide Sort, SlowerFirst, StrictWeak;
    SortListed(weighed, n);
    SlowerFirstIsStrict();
    SortSorts(weighed, SlowerFirst);
    var entries := Sort(weighed, SlowerFirst);
    assert forall i :: 0 <= i < n ==> entries[i] in weighed;
  }

  /**
    * The same objects, slowest march first, ties in their previous order, renumbered 1..n in place. `entries` says
    * where in the list read each of them stood, and what it was sorted by.
    */
  method SortMembersByMarchDesc(members: seq<RallyGroupMember>) returns (sorted: seq<RallyGroupMember>, ghost entries: seq<Weighed>)
    requires NoDup(members)
    modifies members
    ensures |sorted| == |members| && Listed(entries, |members|)
    ensures forall i :: 0 <= i < |sorted| ==> sorted[i] == members[entries[i].at] && sorted[i].orderIndex == i + 1
    ensures forall i :: 0 <= i < |sorted| ==>
      entries[i] == Weighed(entries[i].at, sorted[i].EffectiveMarch(), old(members[entries[i].at].orderIndex))
    ensures forall i, j :: 0 <= i < j < |sorted| ==> !SlowerFirst(entries[j], entries[i])
  {
    hide Sort, SlowerFirst, RallyGroupMember.EffectiveMarch;
    var withEffective := Weigh(members);
    SortedEntries(withEffective, |members|);
    entries := Sort(withEffective, SlowerFirst);
    sorted := Renumber(members, Sort(withEffective, SlowerFirst));
  }

  function Ids(members: seq<RallyGroupMember>): seq<Id> {
    seq(|members|, i requires 0 <= i < |members| => members[i].id)
  }

  class RallyGroupsService {
    var rows: Table

    constructor ()
      ensures rows == map[]
    {
      rows := map[];
    }

    /** One update of an order number; the database refuses it when the index would break. */
    method UpdateOrder(id: Id, orderIndex: int)
      requires id in rows && IndexHolds(SetOrder(rows, id, orderIndex))
      modifies this
      ensures rows == SetOrder(old(rows), id, orderIndex)
    {
      rows := rows[id := rows[id].(orderIndex := orderIndex)];
    }

    /** The group's rows, in whatever order the database gives them. */
    method FindMembers(groupId: string) returns (members: seq<RallyGroupMember>)
      ensures NoDup(members) && fresh(members) && Reads(rows, groupId, Ids(members))
      ensures forall m <- members :: m.id in rows && m.orderIndex == rows[m.id].orderIndex && m.EffectiveMarch() == Effective(rows[m.id])
    {
      members := [];
      var rest := Members(rows, groupId);
      while rest != {}
        invariant fresh(members)
        invariant forall id :: id in Ids(members) || id in rest <==> id in rows && rows[id].groupId == groupId
        invariant forall i :: 0 <= i < |members| ==> Ids(members)[i] !in rest
        invariant NoDup(Ids(members)) && NoDup(members)
        invariant forall m <- members :: m.id in rows && m.orderIndex == rows[m.id].orderIndex && m.EffectiveMarch() == Effective(rows[m.id])
        decreases |rest|
      {
        var id :| id in rest;
        var m := new RallyGroupMember(id, rows[id]);
        ghost var before := Ids(members);
        members := members + [m];
        assert Ids(members) == before + [id];
        rest := rest - {id};
      }
    }

    /** The list written in the second phase holds the group's rows, sorted by march. */
    lemma SortedRows(table: Table, groupId: string, read: seq<Id>, entries: seq<Weighed>, sorted: seq<Id>)
      requires Reads(table, groupId, read) && Listed(entries, |read|) && |sorted| == |read|
      requires forall i :: 0 <= i < |read| ==> sorted[i] == read[entries[i].at]
      requires forall i :: 0 <= i < |read| ==>
        entries[i].effective == Effective(RowOf(table, sorted[i])) && entries[i].prevOrder == RowOf(table, sorted[i]).orderIndex
      requires forall i, j :: 0 <= i < j < |read| ==> !SlowerFirst(entries[j], entries[i])
      ensures Reads(table, groupId, sorted) && Sorted(sorted, ByMarch(table))
    {
      assert NoDup(sorted);
      assert forall id <- sorted :: id in read;
      Permutes(read, sorted);
      forall i, j | 0 <= i < j < |sorted| ensures !ByMarch(table)(sorted[j], sorted[i]) {
        assert !SlowerFirst(entries[j], entries[i]);
      }
    }

    lemma Permutes(read: seq<Id>, sorted: seq<Id>)
      requires NoDup(read) && NoDup(sorted) && |read| == |sorted| && forall id <- sorted :: id in read
      ensures forall id <- read :: id in sorted
    {
      RallyInvariants.DistinctCount(read);
      RallyInvariants.DistinctCount(sorted);
      SubsetFills(ToSet(sorted), ToSet(read));
      forall id | id in read ensures id in sorted { assert id in ToSet(read); }
    }

    lemma SubsetFills(a: set<Id>, b: set<Id>)
      requires a <= b && |a| == |b|
      ensures a == b
    {
      assert b == a + (b - a);
      assert b - a == {};
    }

    /** The two phases of writes: every one of them meets the index, and they leave each member on its rank. */
    method ReorderByMarchSeconds(groupId: string)
      requires IndexHolds(rows) && RallyInvariants.DistinctPositive(rows, groupId)
      modifies this
      ensures rows == Reordered(old(rows), groupId)
    {
      hide Unique, Reordered, RallyInvariants.DistinctPositive, SlowerFirst, Sorted;
      ghost var before := rows;
      var members := FindMembers(groupId);
      ghost var read := Ids(members);
      var sorted, entries := SortMembersByMarchDesc(members);
      ghost var order := Ids(sorted);
      SortedRows(before, groupId, read, entries, order);
      WritePhases(groupId, members, sorted);
      assert Unique(Orders(before, groupId));
      RallyInvariants.TwoPhasesReorder(before, groupId, read, order);
    }

    lemma ReadsAreRows(table: Table, groupId: string, ids: seq<Id>)
      requires Reads(table, groupId, ids)
      ensures forall id <- ids :: id in table
    {
    }

    method WritePhases(groupId: string, members: seq<RallyGroupMember>, sorted: seq<RallyGroupMember>)
      requires IndexHolds(rows) && RallyInvariants.DistinctPositive(rows, groupId)
      requires Reads(rows, groupId, Ids(members)) && Reads(rows, groupId, Ids(sorted))
      modifies this
      ensures rows == Placed(Parked(old(rows), Ids(members), |members|), Ids(sorted), |sorted|)
    {
      ghost var before := rows;
      Park(groupId, members);
      Place(before, groupId, members, sorted);
    }

    method Park(groupId: string, members: seq<RallyGroupMember>)
      requires IndexHolds(rows) && RallyInvariants.DistinctPositive(rows, groupId) && Reads(rows, groupId, Ids(members))
      modifies this
      ensures rows == Parked(old(rows), Ids(members), |members|)
    {
      hide IndexHolds, RallyInvariants.DistinctPositive, Reads;
      ghost var before, read := rows, Ids(members);
      ReadsAreRows(rows, groupId, read);
      for i := 0 to |members|
        invariant rows == Parked(before, read, i)
      {
        ParkedKeepsIndex(before, groupId, read, i + 1);
        UpdateOrder(members[i].id, -(i + 1));
      }
    }

    method Place(ghost before: Table, groupId: string, ghost members: seq<RallyGroupMember>, sorted: seq<RallyGroupMember>)
      requires IndexHolds(before) && RallyInvariants.DistinctPositive(before, groupId)
      requires Reads(before, groupId, Ids(members)) && Reads(before, groupId, Ids(sorted))
      requires rows == Parked(before, Ids(members), |members|)
      modifies this
      ensures rows == Placed(old(rows), Ids(sorted), |sorted|)
    {
      hide IndexHolds, RallyInvariants.DistinctPositive, Reads, Parked;
      ghost var parked, read, order := rows, Ids(members), Ids(sorted);
      ReadsAreRows(before, groupId, order);
      for i := 0 to |sorted|
        invariant rows == Placed(parked, order, i)
      {
        PlacedKeepsIndex(before, groupId, read, order, i + 1);
        UpdateOrder(sorted[i].id, i + 1);
      }
    }

    /** One insertion; the database refuses it when the index would break. */
    method InsertMember(id: Id, row: Row)
      requires id !in rows && IndexHolds(rows[id := row])
      modifies this
      ensures rows == old(rows)[id := row]
    {
      rows := rows[id := row];
    }

    method AddToGroup(groupId: string, id: Id, userId: int, userMarch: Option<int>) returns (outcome: Outcome)
      requires RallyInvariants.Inv(rows) && id !in rows
      modifies this
      ensures outcome == AddMember(old(rows), groupId, id, userId, userMarch)
      ensures rows == Kept(old(rows), outcome) && RallyInvariants.Inv(rows)
    {
      hide Unique, Numbered, Reordered, IndexHolds, RallyInvariants.Inv, RallyInvariants.DistinctPositive;
      RallyInvariants.AddKeeps(rows, groupId, id, userId, userMarch);
      var count := |Members(rows, groupId)|;
      if count >= MAX_GROUP_MEMBERS { return GroupFull; }
      if exists m <- rows :: rows[m].groupId == groupId && rows[m].userId == userId { return AlreadyInGroup; }
      InsertKeepsIndex(rows, groupId, id, Row(groupId, userId, count + 1, None, userMarch));
      InsertMember(id, Row(groupId, userId, count + 1, None, userMarch));
      ReorderByMarchSeconds(groupId);
      return Done(rows);
    }

    method RemoveFromGroup(groupId: string, id: Id) returns (outcome: Outcome)
      requires RallyInvariants.Inv(rows)
      modifies this
      ensures outcome == RemoveMember(old(rows), groupId, id)
      ensures rows == Kept(old(rows), outcome) && RallyInvariants.Inv(rows)
    {
      hide Unique, Numbered, Reordered, IndexHolds, RallyInvariants.Inv, RallyInvariants.DistinctPositive;
      RallyInvariants.RemoveKeeps(rows, groupId, id);
      if id !in rows || rows[id].groupId != groupId { return NotFound; }
      FewerKeepIndex(rows, groupId, id);
      rows := rows - {id};
      ReorderByMarchSeconds(groupId);
      return Done(rows);
    }

    method UpdateMarchOverride(id: Id, seconds: Option<int>) returns (outcome: Outcome)
      requires RallyInvariants.Inv(rows)
      modifies this
      ensures outcome == SetOverride(old(rows), id, seconds)
      ensures rows == Kept(old(rows), outcome) && RallyInvariants.Inv(rows)
    {
      hide Unique, Numbered, Reordered, IndexHolds, RallyInvariants.Inv, RallyInvariants.DistinctPositive;
      RallyInvariants.OverrideKeeps(rows, id, seconds);
      if id !in rows { return NotFound; }
      SameOrders(rows, rows[id := rows[id].(marchOverride := seconds)], rows[id].groupId);
      rows := rows[id := rows[id].(marchOverride := seconds)];
      ReorderByMarchSeconds(rows[id].groupId);
      return Done(rows);
    }
  }
}
