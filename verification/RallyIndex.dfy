/** The unique index through every single write. */
module RallyIndex {
  import opened Prelude
  import opened Numbering
  import opened Sorting
  import opened RallyModel
  import opened RallyInvariants

  /** The unique index on (group, order number). */
  ghost predicate IndexHolds(rows: Table) {
    forall groupId: string :: Unique(Orders(rows, groupId))
  }

  lemma WriteKeepsIndex(rows: Table, after: Table, groupId: string)
    requires IndexHolds(rows) && Unique(Orders(after, groupId)) && after.Keys == rows.Keys
    requires forall id <- rows :: after[id].groupId == rows[id].groupId && (rows[id].groupId != groupId ==> after[id] == rows[id])
    ensures IndexHolds(after)
  {
    forall g: string | g != groupId ensures Unique(Orders(after, g)) { assert Orders(after, g) == Orders(rows, g); }
  }

  lemma ParkedKeepsIndex(rows: Table, groupId: string, ids: seq<Id>, k: nat)
    requires IndexHolds(rows) && Reads(rows, groupId, ids) && DistinctPositive(rows, groupId) && k <= |ids|
    ensures IndexHolds(Parked(rows, ids, k))
  {
    hide Unique;
    ParkedUnique(rows, groupId, ids, k);
    ParkedAt(rows, ids, k);
    forall id | id in rows
      ensures Parked(rows, ids, k)[id].groupId == rows[id].groupId
      ensures rows[id].groupId != groupId ==> Parked(rows, ids, k)[id] == rows[id]
    {
      if id in ids[..k] { var j :| 0 <= j < k && ids[j] == id; assert id in ids; }
    }
    WriteKeepsIndex(rows, Parked(rows, ids, k), groupId);
  }

  lemma PlacedKeepsIndex(rows: Table, groupId: string, ids: seq<Id>, sorted: seq<Id>, k: nat)
    requires IndexHolds(rows) && Reads(rows, groupId, ids) && Reads(rows, groupId, sorted) && k <= |sorted|
    ensures IndexHolds(Placed(Parked(rows, ids, |ids|), sorted, k))
  {
    hide Unique;
    var parked := Parked(rows, ids, |ids|);
    AllParked(rows, groupId, ids);
    PlacedUnique(rows, groupId, ids, sorted, k);
    PlacedAt(parked, sorted, k);
    forall id | id in rows
      ensures Placed(parked, sorted, k)[id].groupId == rows[id].groupId
      ensures rows[id].groupId != groupId ==> Placed(parked, sorted, k)[id] == rows[id]
    {
      if id in sorted[..k] { var j :| 0 <= j < k && sorted[j] == id; assert id in sorted; }
    }
    WriteKeepsIndex(rows, Placed(parked, sorted, k), groupId);
  }

  lemma NumberedIsPositive(table: Table, groupId: string)
    requires Numbered(Orders(table, groupId))
    ensures DistinctPositive(table, groupId)
  {
    forall id | id in Members(table, groupId) ensures table[id].orderIndex > 0 { assert id in Orders(table, groupId); }
  }

  lemma NumberedHasIndex(table: Table)
    requires AllNumbered(table)
    ensures IndexHolds(table)
  {
    forall g: string ensures Unique(Orders(table, g)) { NumberedIsUnique(Orders(table, g)); }
  }

  /** The insertion of a new member with the next number meets the index. */
  lemma InsertKeepsIndex(table: Table, groupId: string, id: Id, row: Row)
    requires Inv(table) && id !in table && row.groupId == groupId && row.orderIndex == |Members(table, groupId)| + 1
    ensures IndexHolds(table[id := row]) && DistinctPositive(table[id := row], groupId)
  {
    hide Numbered, Unique, Orders, Members;
    var added := table[id := row];
    NextIndexIsFree(table, groupId, id, row);
    NumberedIsPositive(added, groupId);
    forall g: string ensures Unique(Orders(added, g)) {
      if g != groupId { assert Numbered(Orders(table, g)) && Orders(added, g) == Orders(table, g); }
      NumberedIsUnique(Orders(added, g));
    }
  }

  lemma FewerKeepIndex(table: Table, groupId: string, id: Id)
    requires Inv(table)
    ensures IndexHolds(table - {id}) && DistinctPositive(table - {id}, groupId)
  {
    forall g: string ensures Unique(Orders(table - {id}, g)) { FewerIsUnique(table, g, id); }
    forall m | m in Members(table - {id}, groupId) ensures table[m].orderIndex > 0 { assert m in Orders(table, groupId); }
  }

  lemma SameOrders(table: Table, changed: Table, groupId: string)
    requires Inv(table) && changed.Keys == table.Keys
    requires forall id <- table :: changed[id].groupId == table[id].groupId && changed[id].orderIndex == table[id].orderIndex
    ensures IndexHolds(changed) && DistinctPositive(changed, groupId)
  {
    hide Unique, Numbered;
    assert forall g: string :: Orders(changed, g) == Orders(table, g);
    NumberedHasIndex(table);
    NumberedIsPositive(changed, groupId);
  }

  // ---- every write of every run ----

  /** The table an event leaves to be reordered, if it gets that far, with the group to reorder. */
  function Interim(rows: Table, e: Event): Option<(Table, string)> {
    match e
    case Add(groupId, id, userId, userMarch) =>
      if id !in rows && AddMember(rows, groupId, id, userId, userMarch).Done?
      then Some((Inserted(rows, groupId, id, userId, userMarch), groupId)) else None
    case Remove(groupId, id) => if RemoveMember(rows, groupId, id).Done? then Some((rows - {id}, groupId)) else None
    case Override(id, seconds) => if id in rows then Some((Overridden(rows, id, seconds), rows[id].groupId)) else None
    case UserMarch(_, _) => None
    case Reorder(groupId) => Some((rows, groupId))
  }

  /** What the event comes to is that table, reordered. */
  lemma StepReorders(rows: Table, e: Event)
    requires Interim(rows, e).Some?
    ensures var (table, groupId) := Interim(rows, e).value; Step(rows, e) == Reordered(table, groupId)
  {
    hide Reordered;
  }

  lemma InterimHolds(rows: Table, e: Event)
    requires Inv(rows) && Interim(rows, e).Some?
    ensures var (table, groupId) := Interim(rows, e).value; IndexHolds(table) && DistinctPositive(table, groupId)
  {
    hide Inv, IndexHolds, DistinctPositive, Reordered;
    match e
    case Add(groupId, id, userId, userMarch) =>
      InsertKeepsIndex(rows, groupId, id, Row(groupId, userId, |Members(rows, groupId)| + 1, None, userMarch));
    case Remove(groupId, id) => FewerKeepIndex(rows, groupId, id);
    case Override(id, seconds) => SameOrders(rows, Overridden(rows, id, seconds), rows[id].groupId);
    case UserMarch(_, _) =>
    case Reorder(groupId) => SameOrders(rows, rows, groupId);
  }

  /**
    * In every run, whatever event comes next and in whatever order its rows are read: the event's own insertion,
    * deletion or change, and then every single write of the reorder behind it, meets the unique index.
    */
  lemma EveryWriteKeepsIndex(events: seq<Event>, e: Event, ids: seq<Id>, sorted: seq<Id>, k: nat)
    requires Interim(Run(events), e).Some?
    requires var (table, groupId) := Interim(Run(events), e).value; Reads(table, groupId, ids) && Reads(table, groupId, sorted)
    requires k <= |ids| && k <= |sorted|
    ensures var (table, groupId) := Interim(Run(events), e).value;
      IndexHolds(table) && IndexHolds(Parked(table, ids, k)) && IndexHolds(Placed(Parked(table, ids, |ids|), sorted, k))
  {
    hide Interim, Run, IndexHolds, DistinctPositive, Parked, Placed;
    var (table, groupId) := Interim(Run(events), e).value;
    RunKeeps(events);
    InterimHolds(Run(events), e);
    ParkedKeepsIndex(table, groupId, ids, k);
    PlacedKeepsIndex(table, groupId, ids, sorted, k);
  }
}
