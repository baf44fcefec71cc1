/** What each change of members does, march by march (server/src/rally-groups/rally-groups.service.ts). */
module RallySteps {
  import opened Prelude
  import opened Numbering
  import opened RallyModel
  import opened RallyIndex
  import opened RallyInvariants
  import RallySchedule

  /** A member marches for as long as its override says, else its user's own time, else not at all. */
  predicate MarchesFor(r: Row, seconds: int) {
    r.marchOverride == Some(seconds) || (r.marchOverride == None && r.userMarch == Some(seconds)) ||
    (r.marchOverride == None && r.userMarch == None && seconds == 0)
  }

  lemma MarchIs(r: Row)
    ensures forall seconds :: MarchesFor(r, seconds) <==> seconds == Effective(r)
  {
  }

  /** The event changes the members of a group: no eleventh member, no user twice, no unknown row. */
  ghost predicate Changes(s: Table, e: Event) {
    match e
    case Add(groupId, id, userId, _) =>
      && id !in s && |Members(s, groupId)| < 10
      && forall x <- s :: s[x].groupId == groupId ==> s[x].userId != userId
    case Remove(groupId, id) => id in s && s[id].groupId == groupId
    case Override(id, _) => id in s
    case Reorder(_) => true
    case UserMarch(_, _) => false
  }

  function GroupOf(s: Table, e: Event): string {
    match e
    case Add(groupId, _, _, _) => groupId
    case Remove(groupId, _) => groupId
    case Override(id, _) => if id in s then s[id].groupId else ""
    case Reorder(groupId) => groupId
    case UserMarch(_, _) => ""
  }

  /** The rows the event leaves to be put in order. */
  function Left(s: Table, e: Event): Table {
    match e
    case Add(groupId, id, userId, userMarch) => s[id := Row(groupId, userId, |Members(s, groupId)| + 1, None, userMarch)]
    case Remove(_, id) => s - {id}
    case Override(id, seconds) => if id in s then s[id := s[id].(marchOverride := seconds)] else s
    case _ => s
  }

  lemma InterimIsLeft(s: Table, e: Event)
    ensures Changes(s, e) <==> Interim(s, e).Some?
    ensures Changes(s, e) ==> Interim(s, e).value == (Left(s, e), GroupOf(s, e))
    ensures !Changes(s, e) && !e.UserMarch? ==> Step(s, e) == s
  {
    hide Reordered;
    if e.Add? {
      assert HasUser(s, e.groupId, e.userId) <==> exists x :: x in s && s[x].groupId == e.groupId && s[x].userId == e.userId;
    }
  }

  /** One row comes first when it marches longer, or as long and came first before. */
  ghost predicate OrderedByMarch(left: Table, t: Table, a: Id, b: Id)
    requires a in left && b in left && a in t && b in t
  {
    forall long, short :: MarchesFor(left[a], long) && MarchesFor(left[b], short) ==>
      (t[a].orderIndex < t[b].orderIndex <==> long > short || (long == short && left[a].orderIndex < left[b].orderIndex))
  }

  /**
    * A change of members leaves every row as it is but for its number, and in that group a member comes first exactly when
    * it marches longer, or as long and came first before; a new member came last.
    */
  lemma ChangeReorders(events: seq<Event>, e: Event)
    requires Changes(Run(events), e)
    ensures var s := Run(events); var t, left, groupId := Step(s, e), Left(s, e), GroupOf(s, e);
      && t.Keys == left.Keys
      && (forall x <- t :: t[x] == left[x].(orderIndex := t[x].orderIndex) && (left[x].groupId != groupId ==> t[x] == left[x]))
      && forall a, b :: a in t && b in t && a != b && t[a].groupId == groupId && t[b].groupId == groupId ==> OrderedByMarch(left, t, a, b)
  {
    hide Run, Step, Interim, Reordered, MarchesFor, DistinctPositive;
    var s := Run(events);
    RunKeeps(events);
    InterimIsLeft(s, e);
    StepReorders(s, e);
    InterimHolds(s, e);
    var t, left, groupId := Step(s, e), Left(s, e), GroupOf(s, e);
    ReorderedRow(left, groupId);
    RowsOnly(left, groupId);
    assert Unique(Orders(left, groupId)) by { DistinctIsUnique(left, groupId); }
    forall a, b | a in t && b in t && a != b && t[a].groupId == groupId && t[b].groupId == groupId ensures OrderedByMarch(left, t, a, b) {
      MarchIs(left[a]);
      MarchIs(left[b]);
      ReorderSorts(left, groupId, a, b);
    }
  }

  lemma DistinctIsUnique(rows: Table, groupId: string)
    requires DistinctPositive(rows, groupId)
    ensures Unique(Orders(rows, groupId))
  {
  }

  lemma RowsOnly(rows: Table, groupId: string)
    ensures forall x <- rows :: Reordered(rows, groupId)[x] == rows[x].(orderIndex := Reordered(rows, groupId)[x].orderIndex)
    ensures forall x <- rows :: rows[x].groupId != groupId ==> Reordered(rows, groupId)[x] == rows[x]
  {
    hide Rank;
  }

  /** A user's own time changes in all its rows, and nothing else does. */
  lemma UserMarchChanges(s: Table, userId: int, seconds: Option<int>)
    ensures var t := Step(s, UserMarch(userId, seconds));
      t.Keys == s.Keys && forall x <- s :: t[x] == if s[x].userId == userId then s[x].(userMarch := seconds) else s[x]
  {
  }

  /** The longest march, or 0 when all are negative. */
  ghost predicate Longest(members: seq<Row>, longest: int) {
    && longest >= 0
    && (forall i, m :: 0 <= i < |members| && MarchesFor(members[i], m) ==> m <= longest)
    && (longest == 0 || exists i :: 0 <= i < |members| && MarchesFor(members[i], longest))
  }

  /** Every member fires as much later as its march is shorter than the longest. */
  lemma FiresByMarch(members: seq<Row>, i: nat, march: int, longest: int)
    requires RallySchedule.DistinctUsers(members) && i < |members| && MarchesFor(members[i], march) && Longest(members, longest)
    ensures Schedule(members, EffectiveMap(members))[i] ==
      Fire(members[i].orderIndex, members[i].userId, (longest - march) * 1_000)
    ensures ScheduleMax(members, EffectiveMap(members)) == longest
  {
    hide MarchesFor, Effective, Schedule, ScheduleMax;
    forall k | 0 <= k < |members| ensures forall m :: MarchesFor(members[k], m) <==> m == Effective(members[k]) { MarchIs(members[k]); }
    RallySchedule.FireOf(members, i);
    RallySchedule.MaxIsAMarch(members);
    var most := ScheduleMax(members, EffectiveMap(members));
    forall k | 0 <= k < |members| ensures Effective(members[k]) <= most { RallySchedule.ArriveTogether(members, k); }
    if most != 0 {
      var k :| 0 <= k < |members| && Effective(members[k]) == most;
      assert MarchesFor(members[k], most);
    }
  }
}
