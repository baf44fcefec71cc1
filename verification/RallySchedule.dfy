/** The fire schedule of a reordered group: everybody arrives at the same moment. */
module RallySchedule {
  import opened Prelude
  import opened Numbering
  import opened RallyModel
  import opened CountdownModel
  import RallyInvariants

  ghost predicate DistinctUsers(members: seq<Row>) {
    forall i, j :: 0 <= i < j < |members| ==> members[i].userId != members[j].userId
  }

  lemma {:induction false} MaxBounds(marches: seq<int>)
    ensures MaxMarch(marches) >= 0 && forall i :: 0 <= i < |marches| ==> marches[i] <= MaxMarch(marches)
    ensures MaxMarch(marches) == 0 || MaxMarch(marches) in marches
  {
    if marches != [] { MaxBounds(marches[..|marches| - 1]); }
  }

  lemma {:induction false} MapGivesMarch(members: seq<Row>, i: nat)
    requires DistinctUsers(members) && i < |members|
    ensures MarchOf(EffectiveMap(members), members[i].userId) == Effective(members[i])
  {
    var n := |members| - 1;
    if i < n { MapGivesMarch(members[..n], i); }
  }

  /** The fire of each member, from the march of its own row. */
  lemma FireOf(members: seq<Row>, i: nat)
    requires DistinctUsers(members) && i < |members|
    ensures var effective := EffectiveMap(members);
      Schedule(members, effective)[i] ==
      Fire(members[i].orderIndex, members[i].userId, (ScheduleMax(members, effective) - Effective(members[i])) * 1000)
  {
    MapGivesMarch(members, i);
  }

  /** All arrive together: waiting and marching add up to the longest march, and nobody waits a negative time. */
  lemma ArriveTogether(members: seq<Row>, i: nat)
    requires DistinctUsers(members) && i < |members|
    ensures var effective := EffectiveMap(members);
      var fire := Schedule(members, effective)[i];
      fire.offsetMs + 1000 * Effective(members[i]) == 1000 * ScheduleMax(members, effective) && fire.offsetMs >= 0
  {
    var effective := EffectiveMap(members);
    FireOf(members, i);
    MapGivesMarch(members, i);
    MaxBounds(Marches(Users(members), effective));
    assert Marches(Users(members), effective)[i] == Effective(members[i]);
  }

  /** The longest march is the largest of the members', or 0. */
  lemma MaxIsAMarch(members: seq<Row>)
    requires DistinctUsers(members)
    ensures var longest := ScheduleMax(members, EffectiveMap(members));
      longest >= 0 && (longest == 0 || exists i :: 0 <= i < |members| && Effective(members[i]) == longest)
  {
    var effective := EffectiveMap(members);
    var marches := Marches(Users(members), effective);
    MaxBounds(marches);
    if ScheduleMax(members, effective) != 0 {
      var i :| 0 <= i < |marches| && marches[i] == ScheduleMax(members, effective);
      MapGivesMarch(members, i);
    }
  }

  /** The rows of a group, as they are after a reorder, in whatever order they are read. */
  ghost predicate ReadAfterReorder(rows: Table, groupId: string, members: seq<Row>, ids: seq<Id>) {
    && RallyInvariants.Inv(rows) && Reads(rows, groupId, ids) && |members| == |ids|
    && forall i :: 0 <= i < |ids| ==> members[i] == Reordered(rows, groupId)[ids[i]]
  }

  lemma ReadFacts(rows: Table, groupId: string, members: seq<Row>, ids: seq<Id>)
    requires ReadAfterReorder(rows, groupId, members, ids)
    ensures DistinctUsers(members) && Unique(Orders(rows, groupId)) && Numbered(Orders(Reordered(rows, groupId), groupId))
    ensures forall i :: 0 <= i < |ids| ==> ids[i] in Members(rows, groupId) && Effective(members[i]) == Effective(rows[ids[i]])
  {
    hide Rank;
    assert Numbered(Orders(rows, groupId));
    RallyInvariants.ReorderNumbers(rows, groupId);
    forall i, j | 0 <= i < j < |members| ensures members[i].userId != members[j].userId {
      assert ids[i] != ids[j] && ids[i] in ids && ids[j] in ids;
    }
  }

  /** The order numbers follow the schedule: a later number never fires earlier. */
  lemma OffsetsFollowOrder(rows: Table, groupId: string, members: seq<Row>, ids: seq<Id>, i: nat, j: nat)
    requires ReadAfterReorder(rows, groupId, members, ids) && i < |members| && j < |members|
    requires members[i].orderIndex < members[j].orderIndex
    ensures var fires := Schedule(members, EffectiveMap(members)); fires[i].offsetMs <= fires[j].offsetMs
  {
    hide Rank, Reordered, Schedule, ScheduleMax;
    ReadFacts(rows, groupId, members, ids);
    if ids[i] != ids[j] { RallyInvariants.ReorderSorts(rows, groupId, ids[i], ids[j]); }
    FireOf(members, i);
    FireOf(members, j);
  }

  /** The member with order number 1 fires at once exactly when somebody's march is not negative. */
  lemma FirstFiresAtOnce(rows: Table, groupId: string, members: seq<Row>, ids: seq<Id>, first: nat)
    requires ReadAfterReorder(rows, groupId, members, ids) && first < |members| && members[first].orderIndex == 1
    ensures Schedule(members, EffectiveMap(members))[first].offsetMs == 0 <==> exists i :: 0 <= i < |members| && Effective(members[i]) >= 0
  {
    hide Rank, Reordered, Schedule, ScheduleMax;
    ReadFacts(rows, groupId, members, ids);
    FireOf(members, first);
    ArriveTogether(members, first);
    MaxIsAMarch(members);
    forall i | 0 <= i < |members| ensures Effective(members[i]) <= Effective(members[first]) {
      NumberAtLeastOne(rows, groupId, members, ids, i);
      OneIsFirst(rows, groupId, members, ids, first, i);
    }
    if exists i :: 0 <= i < |members| && Effective(members[i]) >= 0 {
      MaxAboveAll(members, first);
    }
  }

  lemma MaxAboveAll(members: seq<Row>, first: nat)
    requires DistinctUsers(members) && first < |members| && Effective(members[first]) >= 0
    requires forall i :: 0 <= i < |members| ==> Effective(members[i]) <= Effective(members[first])
    ensures ScheduleMax(members, EffectiveMap(members)) == Effective(members[first])
  {
    MaxIsAMarch(members);
    ArriveTogether(members, first);
  }

  lemma NumberAtLeastOne(rows: Table, groupId: string, members: seq<Row>, ids: seq<Id>, i: nat)
    requires ReadAfterReorder(rows, groupId, members, ids) && i < |members|
    ensures members[i].orderIndex >= 1
  {
    assert members[i].orderIndex == Rank(rows, groupId, ids[i]) by { assert ids[i] in ids; }
  }

  lemma OneIsFirst(rows: Table, groupId: string, members: seq<Row>, ids: seq<Id>, first: nat, i: nat)
    requires ReadAfterReorder(rows, groupId, members, ids) && first < |members| && i < |members|
    requires members[first].orderIndex == 1 <= members[i].orderIndex
    ensures Effective(members[i]) <= Effective(members[first])
  {
    hide Rank;
    ReadFacts(rows, groupId, members, ids);
    if ids[i] != ids[first] {
      RallyInvariants.ReorderSorts(rows, groupId, ids[first], ids[i]);
      assert ids[i] in Orders(Reordered(rows, groupId), groupId) && ids[first] in Orders(Reordered(rows, groupId), groupId);
    }
  }

  /**
    * The lock taken at `acquired` is freed 5000 ms after the last fire, plus the shortest march, minus the time that
    * passed before the start was stamped: at least 5000 ms after it exactly when that time is within the shortest march.
    */
  lemma ReleaseAfterLastFire(members: seq<Row>, last: nat, acquired: int, stamped: int)
    requires DistinctUsers(members) && last < |members| && acquired <= stamped
    requires forall i :: 0 <= i < |members| ==> Effective(members[last]) <= Effective(members[i])
    ensures var effective := EffectiveMap(members);
      var lastFire := stamped + COUNTDOWN_LEAD_MS + Schedule(members, effective)[last].offsetMs;
      var release := acquired + RallyAutoReleaseMs(ScheduleMax(members, effective));
      && (forall i :: 0 <= i < |members| ==> stamped + COUNTDOWN_LEAD_MS + Schedule(members, effective)[i].offsetMs <= lastFire)
      && (release >= lastFire + 5_000 <==> stamped - acquired <= 1000 * Effective(members[last]))
  {
    hide Schedule, ScheduleMax, Effective, EffectiveMap;
    forall i | 0 <= i < |members|
      ensures Schedule(members, EffectiveMap(members))[i].offsetMs <= Schedule(members, EffectiveMap(members))[last].offsetMs
    {
      ArriveTogether(members, i);
      ArriveTogether(members, last);
    }
    ArriveTogether(members, last);
  }

  /** A march of 0, which an override may set, and one millisecond between acquisition and stamp leave 4999 ms. */
  lemma MarginFallsShort()
    ensures var members := [Row("group", 7, 1, Some(0), Some(60))];
      var effective := EffectiveMap(members);
      var (acquired, stamped) := (0, 1);
      DistinctUsers(members) && Schedule(members, effective)[0].offsetMs == 0 &&
      acquired + RallyAutoReleaseMs(ScheduleMax(members, effective)) == stamped + COUNTDOWN_LEAD_MS + 4_999
  {
    var members := [Row("group", 7, 1, Some(0), Some(60))];
    ArriveTogether(members, 0);
    MaxIsAMarch(members);
  }
}
