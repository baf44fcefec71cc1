/** Rally members, their order by march time and the fire schedule (server/src/rally-groups/rally-groups.service.ts). */
module RallyModel {
  import opened Prelude
  import opened Numbering
  import opened Sorting

  const MAX_GROUP_MEMBERS := 10

  type Id(==, !new, 0)

  datatype Row = Row(groupId: string, userId: int, orderIndex: int, marchOverride: Option<int>, userMarch: Option<int>)

  type Table = map<Id, Row>

  function Effective(r: Row): int { r.marchOverride.GetOr(r.userMarch.GetOr(0)) }

  /** Slower marches first; equal ones keep their order. */
  predicate GoesFirst(a: Row, b: Row) {
    Effective(a) > Effective(b) || (Effective(a) == Effective(b) && a.orderIndex < b.orderIndex)
  }

  function RowOf(rows: Table, id: Id): Row {
    if id in rows then rows[id] else Row("", 0, 0, None, None)
  }

  function ByMarch(rows: Table): (Id, Id) -> bool {
    (a: Id, b: Id) => GoesFirst(RowOf(rows, a), RowOf(rows, b))
  }

  function Members(rows: Table, groupId: string): set<Id> {
    set id | id in rows && rows[id].groupId == groupId
  }

  /** The order numbers within a group. */
  function Orders(rows: Table, groupId: string): map<Id, int> {
    map id | id in rows && rows[id].groupId == groupId :: rows[id].orderIndex
  }

  function SetOrder(rows: Table, id: Id, orderIndex: int): Table
    requires id in rows
  {
    rows[id := rows[id].(orderIndex := orderIndex)]
  }

  // ---- the two-phase rewrite ----

  /** The table after the first `k` writes of the first phase: the rows read move to negative numbers. */
  function Parked(rows: Table, ids: seq<Id>, k: nat): (r: Table)
    requires k <= |ids| && forall id <- ids :: id in rows
    ensures r.Keys == rows.Keys
  {
    if k == 0 then rows else SetOrder(Parked(rows, ids, k - 1), ids[k - 1], -(k as int))
  }

  /** The table after the first `k` writes of the second phase: the sorted rows get 1, 2, 3 and so on. */
  function Placed(rows: Table, sorted: seq<Id>, k: nat): (r: Table)
    requires k <= |sorted| && forall id <- sorted :: id in rows
    ensures r.Keys == rows.Keys
  {
    if k == 0 then rows else SetOrder(Placed(rows, sorted, k - 1), sorted[k - 1], k)
  }

  /** What the reorder must come to: each member's number is its rank, whatever order the rows were read in. */
  function Rank(rows: Table, groupId: string, id: Id): nat {
    1 + |set x | x in Members(rows, groupId) && GoesFirst(RowOf(rows, x), RowOf(rows, id))|
  }

  function Reordered(rows: Table, groupId: string): Table {
    map id | id in rows ::
      if rows[id].groupId == groupId then rows[id].(orderIndex := Rank(rows, groupId, id)) else rows[id]
  }

  /** The rows of the group, each once. */
  ghost predicate Reads(rows: Table, groupId: string, ids: seq<Id>) {
    NoDup(ids) && forall id :: id in ids <==> id in rows && rows[id].groupId == groupId
  }

  // ---- operations ----

  datatype Outcome = Done(rows: Table) | GroupFull | AlreadyInGroup | NotFound

  predicate HasUser(rows: Table, groupId: string, userId: int) {
    exists id :: id in rows && rows[id].groupId == groupId && rows[id].userId == userId
  }

  /** The new row comes with the next number; its march counts as the user's own. */
  function Inserted(rows: Table, groupId: string, id: Id, userId: int, userMarch: Option<int>): Table {
    rows[id := Row(groupId, userId, |Members(rows, groupId)| + 1, None, userMarch)]
  }

  function Overridden(rows: Table, id: Id, seconds: Option<int>): Table
    requires id in rows
  {
    rows[id := rows[id].(marchOverride := seconds)]
  }

  function AddMember(rows: Table, groupId: string, id: Id, userId: int, userMarch: Option<int>): Outcome {
    var count := |Members(rows, groupId)|;
    if count >= MAX_GROUP_MEMBERS then GroupFull
    else if HasUser(rows, groupId, userId) then AlreadyInGroup
    else Done(Reordered(Inserted(rows, groupId, id, userId, userMarch), groupId))
  }

  function RemoveMember(rows: Table, groupId: string, id: Id): Outcome {
    if id !in rows || rows[id].groupId != groupId then NotFound else Done(Reordered(rows - {id}, groupId))
  }

  function SetOverride(rows: Table, id: Id, seconds: Option<int>): Outcome {
    if id !in rows then NotFound
    else Done(Reordered(Overridden(rows, id, seconds), rows[id].groupId))
  }

  /** A user's own march time changes; the groups are reordered separately. */
  function SetUserMarch(rows: Table, userId: int, seconds: Option<int>): Table {
    map id | id in rows :: if rows[id].userId == userId then rows[id].(userMarch := seconds) else rows[id]
  }

  datatype Event =
    | Add(groupId: string, id: Id, userId: int, userMarch: Option<int>)
    | Remove(groupId: string, id: Id)
    | Override(id: Id, seconds: Option<int>)
    | UserMarch(userId: int, seconds: Option<int>)
    | Reorder(groupId: string)

  function Step(rows: Table, e: Event): Table {
    match e
    case Add(groupId, id, userId, userMarch) => Kept(rows, if id in rows then NotFound else AddMember(rows, groupId, id, userId, userMarch))
    case Remove(groupId, id) => Kept(rows, RemoveMember(rows, groupId, id))
    case Override(id, seconds) => Kept(rows, SetOverride(rows, id, seconds))
    case UserMarch(userId, seconds) => SetUserMarch(rows, userId, seconds)
    case Reorder(groupId) => Reordered(rows, groupId)
  }

  function Kept(rows: Table, o: Outcome): Table { if o.Done? then o.rows else rows }

  function Run(events: seq<Event>): Table {
    if events == [] then map[] else Step(Run(events[..|events| - 1]), events[|events| - 1])
  }

  // ---- the schedule ----

  datatype Fire = Fire(orderIndex: int, userId: int, offsetMs: int)

  function MaxMarch(marches: seq<int>): int {
    if marches == [] then 0 else Max(MaxMarch(marches[..|marches| - 1]), marches[|marches| - 1])
  }

  function MarchOf(effective: map<int, int>, userId: int): int {
    if userId in effective then effective[userId] else 0
  }

  function Marches(users: seq<int>, effective: map<int, int>): seq<int> {
    seq(|users|, i requires 0 <= i < |users| => MarchOf(effective, users[i]))
  }

  /** The march of each user, as startCountdown collects it from the member rows. */
  function EffectiveMap(members: seq<Row>): map<int, int> {
    if members == [] then map[]
    else EffectiveMap(members[..|members| - 1])[members[|members| - 1].userId := Effective(members[|members| - 1])]
  }

  function Users(members: seq<Row>): seq<int> {
    seq(|members|, i requires 0 <= i < |members| => members[i].userId)
  }

  function ScheduleMax(members: seq<Row>, effective: map<int, int>): int {
    MaxMarch(Marches(Users(members), effective))
  }

  function Schedule(members: seq<Row>, effective: map<int, int>): (fires: seq<Fire>)
    ensures |fires| == |members|
  {
    seq(|members|, i requires 0 <= i < |members| =>
      Fire(members[i].orderIndex, members[i].userId,
           (ScheduleMax(members, effective) - MarchOf(effective, members[i].userId)) * 1000))
  }
}
