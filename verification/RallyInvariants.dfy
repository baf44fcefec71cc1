/** What every run of member changes keeps. */
module RallyInvariants {
  import opened Prelude
  import opened Numbering
  import opened Sorting
  import opened RallyModel

  // ---- single writes ----

  /** After `k` writes the first `k` rows of the list have their new numbers and every other row is as it was. */
  lemma {:induction false} ParkedRow(rows: Table, ids: seq<Id>, k: nat, j: nat)
    requires j < k <= |ids| && NoDup(ids) && forall id <- ids :: id in rows
    ensures Parked(rows, ids, k)[ids[j]] == rows[ids[j]].(orderIndex := -(j + 1))
  {
    if j < k - 1 { ParkedRow(rows, ids, k - 1, j); } else { ParkedElse(rows, ids, k - 1, ids[j]); }
  }

  lemma {:induction false} ParkedElse(rows: Table, ids: seq<Id>, k: nat, id: Id)
    requires k <= |ids| && (forall x <- ids :: x in rows) && id in rows && id !in ids[..k]
    ensures Parked(rows, ids, k)[id] == rows[id]
  {
    if k > 0 {
      assert id != ids[..k][k - 1] && ids[..k][..k - 1] == ids[..k - 1];
      ParkedElse(rows, ids, k - 1, id);
    }
  }

  lemma ParkedAt(rows: Table, ids: seq<Id>, k: nat)
    requires k <= |ids| && NoDup(ids) && forall id <- ids :: id in rows
    ensures forall j :: 0 <= j < k ==> Parked(rows, ids, k)[ids[j]] == rows[ids[j]].(orderIndex := -(j + 1))
    ensures forall id <- rows :: id !in ids[..k] ==> Parked(rows, ids, k)[id] == rows[id]
  {
    hide Parked;
    forall j | 0 <= j < k ensures Parked(rows, ids, k)[ids[j]] == rows[ids[j]].(orderIndex := -(j + 1)) { ParkedRow(rows, ids, k, j); }
    forall id | id in rows && id !in ids[..k] ensures Parked(rows, ids, k)[id] == rows[id] { ParkedElse(rows, ids, k, id); }
  }

  /** After `k` writes the first `k` rows of the list have their new numbers and every other row is as it was. */
  lemma {:induction false} PlacedRow(rows: Table, ids: seq<Id>, k: nat, j: nat)
    requires j < k <= |ids| && NoDup(ids) && forall id <- ids :: id in rows
    ensures Placed(rows, ids, k)[ids[j]] == rows[ids[j]].(orderIndex := j + 1)
  {
    if j < k - 1 { PlacedRow(rows, ids, k - 1, j); } else { PlacedElse(rows, ids, k - 1, ids[j]); }
  }

  lemma {:induction false} PlacedElse(rows: Table, ids: seq<Id>, k: nat, id: Id)
    requires k <= |ids| && (forall x <- ids :: x in rows) && id in rows && id !in ids[..k]
    ensures Placed(rows, ids, k)[id] == rows[id]
  {
    if k > 0 {
      assert id != ids[..k][k - 1] && ids[..k][..k - 1] == ids[..k - 1];
      PlacedElse(rows, ids, k - 1, id);
    }
  }

  lemma PlacedAt(rows: Table, ids: seq<Id>, k: nat)
    requires k <= |ids| && NoDup(ids) && forall id <- ids :: id in rows
    ensures forall j :: 0 <= j < k ==> Placed(rows, ids, k)[ids[j]] == rows[ids[j]].(orderIndex := j + 1)
    ensures forall id <- rows :: id !in ids[..k] ==> Placed(rows, ids, k)[id] == rows[id]
  {
    hide Placed;
    forall j | 0 <= j < k ensures Placed(rows, ids, k)[ids[j]] == rows[ids[j]].(orderIndex := j + 1) { PlacedRow(rows, ids, k, j); }
    forall id | id in rows && id !in ids[..k] ensures Placed(rows, ids, k)[id] == rows[id] { PlacedElse(rows, ids, k, id); }
  }

  /** The numbers a group starts a reorder with: distinct and positive, gaps allowed. */
  ghost predicate DistinctPositive(rows: Table, groupId: string) {
    Unique(Orders(rows, groupId)) && forall id <- Members(rows, groupId) :: rows[id].orderIndex > 0
  }

  /** After every single write of the first phase the group's numbers are distinct. */
  lemma ParkedUnique(rows: Table, groupId: string, ids: seq<Id>, k: nat)
    requires Reads(rows, groupId, ids) && DistinctPositive(rows, groupId) && k <= |ids|
    ensures Unique(Orders(Parked(rows, ids, k), groupId))
  {
    hide Parked, DistinctPositive;
    var after := Parked(rows, ids, k);
    var orders := Orders(after, groupId);
    forall a, b | a in orders && b in orders && a != b ensures orders[a] != orders[b] {
      NewOrParked(rows, groupId, ids, k, a);
      NewOrParked(rows, groupId, ids, k, b);
      StartUnique(rows, groupId, a, b);
    }
  }

  lemma StartUnique(rows: Table, groupId: string, a: Id, b: Id)
    requires DistinctPositive(rows, groupId) && a in rows && b in rows && a != b
    requires rows[a].groupId == groupId == rows[b].groupId
    ensures rows[a].orderIndex != rows[b].orderIndex
  {
    assert a in Orders(rows, groupId) && b in Orders(rows, groupId);
  }

  lemma NewOrParked(rows: Table, groupId: string, ids: seq<Id>, k: nat, id: Id)
    requires Reads(rows, groupId, ids) && DistinctPositive(rows, groupId) && k <= |ids| && id in Parked(rows, ids, k)
    requires Parked(rows, ids, k)[id].groupId == groupId
    ensures id in rows && rows[id].groupId == groupId
    ensures var n := Parked(rows, ids, k)[id].orderIndex;
      if n < 0 then -n - 1 < k && ids[-n - 1] == id else n == rows[id].orderIndex
  {
    hide Parked;
    ParkedAt(rows, ids, k);
    if id in ids[..k] { var j :| 0 <= j < k && ids[j] == id; }
    else { assert id in Members(rows, groupId) by { assert Parked(rows, ids, k)[id] == rows[id]; } }
  }

  /** Every group member stands on its negative place once the first phase is through. */
  lemma AllParked(rows: Table, groupId: string, ids: seq<Id>)
    requires Reads(rows, groupId, ids)
    ensures var p := Parked(rows, ids, |ids|);
      && (forall j :: 0 <= j < |ids| ==> p[ids[j]] == rows[ids[j]].(orderIndex := -(j + 1)))
      && (forall id <- rows :: rows[id].groupId != groupId ==> p[id] == rows[id])
      && (forall id <- rows :: p[id].groupId == rows[id].groupId)
  {
    ParkedAt(rows, ids, |ids|);
    assert ids[..|ids|] == ids;
    forall id | id in rows ensures Parked(rows, ids, |ids|)[id].groupId == rows[id].groupId {
      if id in ids { var j :| 0 <= j < |ids| && ids[j] == id; }
    }
  }

  lemma PlacedOrParked(rows: Table, groupId: string, ids: seq<Id>, sorted: seq<Id>, k: nat, id: Id)
    requires Reads(rows, groupId, ids) && Reads(rows, groupId, sorted) && k <= |sorted| && id in ids
    ensures var n := Placed(Parked(rows, ids, |ids|), sorted, k)[id].orderIndex;
      if n < 0 then -n - 1 < |ids| && ids[-n - 1] == id else 1 <= n <= k && sorted[n - 1] == id
  {
    hide Parked, Placed;
    var parked := Parked(rows, ids, |ids|);
    AllParked(rows, groupId, ids);
    PlacedAt(parked, sorted, k);
    var j :| 0 <= j < |ids| && ids[j] == id;
    if id in sorted[..k] { var i :| 0 <= i < k && sorted[i] == id; }
  }

  /** And after every single write of the second. */
  lemma PlacedUnique(rows: Table, groupId: string, ids: seq<Id>, sorted: seq<Id>, k: nat)
    requires Reads(rows, groupId, ids) && Reads(rows, groupId, sorted) && k <= |sorted|
    ensures Unique(Orders(Placed(Parked(rows, ids, |ids|), sorted, k), groupId))
  {
    var parked := Parked(rows, ids, |ids|);
    var orders := Orders(Placed(parked, sorted, k), groupId);
    forall id | id in orders ensures id in ids { PlacedGroup(rows, groupId, ids, sorted, k, id); }
    forall a, b | a in orders && b in orders && a != b ensures orders[a] != orders[b] {
      PlacedOrParked(rows, groupId, ids, sorted, k, a);
      PlacedOrParked(rows, groupId, ids, sorted, k, b);
    }
  }

  lemma PlacedGroup(rows: Table, groupId: string, ids: seq<Id>, sorted: seq<Id>, k: nat, id: Id)
    requires Reads(rows, groupId, ids) && Reads(rows, groupId, sorted) && k <= |sorted| && id in rows
    ensures Placed(Parked(rows, ids, |ids|), sorted, k)[id].groupId == rows[id].groupId
  {
    var parked := Parked(rows, ids, |ids|);
    AllParked(rows, groupId, ids);
    PlacedAt(parked, sorted, k);
    if id in sorted[..k] { var i :| 0 <= i < k && sorted[i] == id; }
  }

  // ---- what the writes come to ----

  lemma ByMarchIsStrict(rows: Table)
    ensures StrictWeak(ByMarch(rows))
  {
  }

  /** In a list sorted by march, the members before a place are the ones that go first. */
  lemma SortedRank(rows: Table, groupId: string, sorted: seq<Id>, i: nat)
    requires Reads(rows, groupId, sorted) && Unique(Orders(rows, groupId)) && Sorted(sorted, ByMarch(rows)) && i < |sorted|
    ensures Rank(rows, groupId, sorted[i]) == i + 1
  {
    var ahead := set x | x in Members(rows, groupId) && GoesFirst(RowOf(rows, x), RowOf(rows, sorted[i]));
    forall x ensures x in ahead <==> x in sorted[..i] { AheadIsBefore(rows, groupId, sorted, i, x); }
    assert ahead == ToSet(sorted[..i]);
    DistinctCount(sorted[..i]);
  }

  lemma AheadIsBefore(rows: Table, groupId: string, sorted: seq<Id>, i: nat, x: Id)
    requires Reads(rows, groupId, sorted) && Unique(Orders(rows, groupId)) && Sorted(sorted, ByMarch(rows)) && i < |sorted|
    ensures x in Members(rows, groupId) && GoesFirst(RowOf(rows, x), RowOf(rows, sorted[i])) <==> x in sorted[..i]
  {
    if x in sorted {
      var j :| 0 <= j < |sorted| && sorted[j] == x;
      var orders := Orders(rows, groupId);
      assert x in orders && sorted[i] in orders;
      assert ByMarch(rows)(x, sorted[i]) == GoesFirst(RowOf(rows, x), RowOf(rows, sorted[i]));
      assert ByMarch(rows)(sorted[i], x) == GoesFirst(RowOf(rows, sorted[i]), RowOf(rows, x));
      if j < i { assert sorted[..i][j] == x; }
    }
  }

  lemma {:induction false} DistinctCount<T>(s: seq<T>)
    requires NoDup(s)
    ensures |ToSet(s)| == |s|
  {
    if s != [] {
      var n := |s| - 1;
      DistinctCount(s[..n]);
      assert s == s[..n] + [s[n]];
      assert ToSet(s) == ToSet(s[..n]) + {s[n]};
    }
  }

  /**
    * The two phases of writes, for the rows in whatever order they are read, end with every member on its rank by
    * march time, and no row outside the group has changed.
    */
  lemma TwoPhasesReorder(rows: Table, groupId: string, ids: seq<Id>, sorted: seq<Id>)
    requires Reads(rows, groupId, ids) && Unique(Orders(rows, groupId))
    requires Reads(rows, groupId, sorted) && Sorted(sorted, ByMarch(rows))
    ensures Placed(Parked(rows, ids, |ids|), sorted, |sorted|) == Reordered(rows, groupId)
  {
    hide Rank, Sorted, Unique, Parked, Placed, Reordered;
    var parked := Parked(rows, ids, |ids|);
    var placed := Placed(parked, sorted, |sorted|);
    AllParked(rows, groupId, ids);
    PlacedAt(parked, sorted, |sorted|);
    assert sorted[..|sorted|] == sorted;
    ReorderedRow(rows, groupId);
    forall id | id in rows ensures placed[id] == Reordered(rows, groupId)[id] {
      if id in sorted {
        var i :| 0 <= i < |sorted| && sorted[i] == id;
        SortedRank(rows, groupId, sorted, i);
        var j :| 0 <= j < |ids| && ids[j] == id;
      }
    }
  }

  lemma ReorderedRow(rows: Table, groupId: string)
    ensures Reordered(rows, groupId).Keys == rows.Keys
    ensures forall id <- rows ::
      Reordered(rows, groupId)[id] ==
      if rows[id].groupId == groupId then rows[id].(orderIndex := Rank(rows, groupId, id)) else rows[id]
  {
    hide Rank;
  }

  /** The stable sort of the rows read is such a list. */
  lemma SortReads(rows: Table, groupId: string, ids: seq<Id>)
    requires Reads(rows, groupId, ids)
    ensures Reads(rows, groupId, Sort(ids, ByMarch(rows))) && Sorted(Sort(ids, ByMarch(rows)), ByMarch(rows))
  {
    hide StrictWeak;
    var sorted := Sort(ids, ByMarch(rows));
    ByMarchIsStrict(rows);
    SortSorts(ids, ByMarch(rows));
    SortPermutes(ids, ByMarch(rows));
    SamePermuted(sorted, ids);
    OnceEach(ids);
    OnceEach(sorted);
  }

  // ---- every run ----

  /** Every group's numbers run from 1 to its size. */
  ghost predicate AllNumbered(rows: Table) {
    forall groupId: string :: Numbered(Orders(rows, groupId))
  }

  /** No user is in a group twice. */
  ghost predicate UsersOnce(rows: Table) {
    forall a, b :: a in rows && b in rows && a != b && rows[a].groupId == rows[b].groupId ==> rows[a].userId != rows[b].userId
  }

  ghost predicate Inv(rows: Table) { AllNumbered(rows) && UsersOnce(rows) }

  lemma OrdersSize(rows: Table, groupId: string)
    ensures Orders(rows, groupId).Keys == Members(rows, groupId) && |Orders(rows, groupId)| == |Members(rows, groupId)|
  {
  }

  lemma {:induction false} Listing(ids: set<Id>) returns (list: seq<Id>)
    ensures NoDup(list) && forall id :: id in list <==> id in ids
    decreases |ids|
  {
    if ids == {} {
      list := [];
    } else {
      var id :| id in ids;
      var rest := Listing(ids - {id});
      list := rest + [id];
    }
  }

  lemma SortedListing(rows: Table, groupId: string) returns (sorted: seq<Id>)
    ensures Reads(rows, groupId, sorted) && Sorted(sorted, ByMarch(rows)) && |sorted| == |Members(rows, groupId)|
  {
    var ids := Listing(Members(rows, groupId));
    SortReads(rows, groupId, ids);
    sorted := Sort(ids, ByMarch(rows));
    DistinctCount(sorted);
    assert ToSet(sorted) == Members(rows, groupId);
  }

  /** From distinct numbers a reorder ends with exactly 1..n within the group. */
  lemma ReorderNumbers(rows: Table, groupId: string)
    requires Unique(Orders(rows, groupId))
    ensures Numbered(Orders(Reordered(rows, groupId), groupId))
  {
    hide Rank, Sorted, Unique, Reordered;
    var sorted := SortedListing(rows, groupId);
    var orders := Orders(Reordered(rows, groupId), groupId);
    ReorderedMembers(rows, groupId);
    OrdersSize(Reordered(rows, groupId), groupId);
    forall id | id in orders ensures 1 <= orders[id] <= |orders| && sorted[orders[id] - 1] == id {
      var i :| 0 <= i < |sorted| && sorted[i] == id;
      SortedRank(rows, groupId, sorted, i);
    }
    PlacesAreNumbers(orders, sorted);
  }

  lemma PlacesAreNumbers(orders: map<Id, int>, sorted: seq<Id>)
    requires |sorted| == |orders| && forall id <- orders :: 1 <= orders[id] <= |sorted| && sorted[orders[id] - 1] == id
    ensures Numbered(orders)
  {
  }

  lemma ReorderedMembers(rows: Table, groupId: string)
    ensures Members(Reordered(rows, groupId), groupId) == Members(rows, groupId)
    ensures forall id <- Members(rows, groupId) :: Reordered(rows, groupId)[id].orderIndex == Rank(rows, groupId, id)
  {
    hide Rank;
  }

  lemma ReorderElsewhere(rows: Table, groupId: string, other: string)
    requires other != groupId
    ensures Orders(Reordered(rows, groupId), other) == Orders(rows, other)
  {
    hide Rank;
  }

  /** In the reordered group a slower march never comes after a faster one. */
  lemma ReorderSorts(rows: Table, groupId: string, a: Id, b: Id)
    requires Unique(Orders(rows, groupId)) && a in Members(rows, groupId) && b in Members(rows, groupId) && a != b
    ensures var r := Reordered(rows, groupId);
      && (r[a].orderIndex < r[b].orderIndex <==> GoesFirst(rows[a], rows[b]))
      && (r[a].orderIndex < r[b].orderIndex ==> Effective(r[a]) >= Effective(r[b]))
  {
    hide Rank;
    var sorted := SortedListing(rows, groupId);
    var i :| 0 <= i < |sorted| && sorted[i] == a;
    var j :| 0 <= j < |sorted| && sorted[j] == b;
    SortedRank(rows, groupId, sorted, i);
    SortedRank(rows, groupId, sorted, j);
    assert a in Orders(rows, groupId) && b in Orders(rows, groupId);
    assert ByMarch(rows)(a, b) == GoesFirst(rows[a], rows[b]) && ByMarch(rows)(b, a) == GoesFirst(rows[b], rows[a]);
  }

  /** The number a new member is inserted with is always free, and its insertion keeps the index unique. */
  lemma NextIndexIsFree(rows: Table, groupId: string, id: Id, row: Row)
    requires Inv(rows) && id !in rows && row.groupId == groupId && row.orderIndex == |Members(rows, groupId)| + 1
    ensures forall m <- Members(rows, groupId) :: rows[m].orderIndex != row.orderIndex
    ensures Numbered(Orders(rows[id := row], groupId))
    ensures forall other: string :: other != groupId ==> Orders(rows[id := row], other) == Orders(rows, other)
  {
    hide Numbered, Unique;
    var orders := Orders(rows, groupId);
    OrdersSize(rows, groupId);
    NextIsFree(orders, id);
    assert Orders(rows[id := row], groupId) == orders[id := |orders| + 1];
    forall m | m in Members(rows, groupId) ensures rows[m].orderIndex != row.orderIndex { assert m in orders; }
  }

  /** A change that leaves the group's numbers distinct and the other groups alone, then a reorder. */
  lemma ReorderAfter(rows: Table, changed: Table, groupId: string)
    requires AllNumbered(rows) && Unique(Orders(changed, groupId)) && UsersOnce(changed)
    requires forall other: string :: other != groupId ==> Orders(changed, other) == Orders(rows, other)
    ensures Inv(Reordered(changed, groupId))
  {
    hide Numbered, Unique, Rank, Orders;
    ReorderNumbers(changed, groupId);
    forall other: string | other != groupId ensures Numbered(Orders(Reordered(changed, groupId), other)) {
      ReorderElsewhere(changed, groupId, other);
    }
  }

  lemma AddKeeps(rows: Table, groupId: string, id: Id, userId: int, userMarch: Option<int>)
    requires Inv(rows) && id !in rows
    ensures Inv(Kept(rows, AddMember(rows, groupId, id, userId, userMarch)))
  {
    hide Numbered, Unique, Reordered, AllNumbered;
    if AddMember(rows, groupId, id, userId, userMarch).Done? {
      var row := Row(groupId, userId, |Members(rows, groupId)| + 1, None, userMarch);
      NextIndexIsFree(rows, groupId, id, row);
      NumberedIsUnique(Orders(rows[id := row], groupId));
      ReorderAfter(rows, rows[id := row], groupId);
    }
  }

  lemma NumberedIsUnique(orders: map<Id, int>)
    requires Numbered(orders)
    ensures Unique(orders)
  {
  }

  lemma FewerIsUnique(rows: Table, groupId: string, id: Id)
    requires AllNumbered(rows)
    ensures Unique(Orders(rows - {id}, groupId))
  {
    var orders, fewer := Orders(rows, groupId), Orders(rows - {id}, groupId);
    assert Numbered(orders);
    assert forall k <- fewer :: k in orders && fewer[k] == orders[k];
  }

  lemma RemoveKeeps(rows: Table, groupId: string, id: Id)
    requires Inv(rows)
    ensures Inv(Kept(rows, RemoveMember(rows, groupId, id)))
  {
    hide Numbered, Unique, Reordered, AllNumbered;
    if RemoveMember(rows, groupId, id).Done? {
      FewerIsUnique(rows, groupId, id);
      assert forall other: string :: other != groupId ==> Orders(rows - {id}, other) == Orders(rows, other);
      ReorderAfter(rows, rows - {id}, groupId);
    }
  }

  lemma OverrideKeeps(rows: Table, id: Id, seconds: Option<int>)
    requires Inv(rows)
    ensures Inv(Kept(rows, SetOverride(rows, id, seconds)))
  {
    hide Numbered, Unique, Reordered;
    if id in rows {
      var groupId := rows[id].groupId;
      var changed := rows[id := rows[id].(marchOverride := seconds)];
      assert forall g: string :: Orders(changed, g) == Orders(rows, g);
      NumberedIsUnique(Orders(rows, groupId));
      ReorderAfter(rows, changed, groupId);
    }
  }

  lemma StepKeeps(rows: Table, e: Event)
    requires Inv(rows)
    ensures Inv(Step(rows, e))
  {
    hide Numbered, Unique, Reordered, AddMember, RemoveMember, SetOverride;
    match e
    case Add(groupId, id, userId, userMarch) => if id !in rows { AddKeeps(rows, groupId, id, userId, userMarch); }
    case Remove(groupId, id) => RemoveKeeps(rows, groupId, id);
    case Override(id, seconds) => OverrideKeeps(rows, id, seconds);
    case UserMarch(userId, seconds) =>
      assert forall g: string :: Orders(SetUserMarch(rows, userId, seconds), g) == Orders(rows, g);
    case Reorder(groupId) =>
      NumberedIsUnique(Orders(rows, groupId));
      ReorderAfter(rows, rows, groupId);
  }

  /** After any run of member changes every group is numbered exactly 1..n, with every number taken and each user once. */
  lemma {:induction false} RunKeeps(events: seq<Event>)
    ensures Inv(Run(events))
  {
    if events != [] {
      RunKeeps(events[..|events| - 1]);
      StepKeeps(Run(events[..|events| - 1]), events[|events| - 1]);
    }
  }
}
