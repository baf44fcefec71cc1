/** The rally groups' display order: creation takes the next number, removal closes the gap (server/src/rally-groups/rally-groups.service.ts). */
module RallyGroups {
  import opened Prelude
  import opened Numbering
  import opened Sorting

  const MAX_GROUPS := 6

  type Id(==, !new, 0)

  datatype Group = Group(name: string, displayOrder: int)

  type Groups = map<Id, Group>

  function Decimal(n: nat): string {
    if n < 10 then [('0' as int + n) as char] else Decimal(n / 10) + Decimal(n % 10)
  }

  function FormatGroupName(displayOrder: int): string {
    (if displayOrder < 0 then "-" + Decimal(-displayOrder) else Decimal(displayOrder)) + "\U{BC88} \U{C9D1}\U{ACB0}\U{ADF8}\U{B8F9}"
  }

  function Numbers(groups: Groups): map<Id, int> { map id | id in groups :: groups[id].displayOrder }

  function Save(groups: Groups, id: Id, displayOrder: int): Groups {
    groups[id := Group(FormatGroupName(displayOrder), displayOrder)]
  }

  function Create(groups: Groups, id: Id): Option<Groups> {
    if |groups| >= MAX_GROUPS then None else Some(Save(groups, id, |groups| + 1))
  }

  function Lowered(g: Group): Group { Group(FormatGroupName(g.displayOrder - 1), g.displayOrder - 1) }

  /** What a removal comes to. */
  function Removed(groups: Groups, id: Id): Groups
    requires id in groups
  {
    map x | x in groups && x != id ::
      if groups[x].displayOrder > groups[id].displayOrder
      then Lowered(groups[x]) else groups[x]
  }

  /** The table after the first `k` saves of the rows behind the gap. */
  function Shifted(groups: Groups, tail: seq<Id>, k: nat): (r: Groups)
    requires k <= |tail| && forall id <- tail :: id in groups
    ensures r.Keys == groups.Keys
  {
    if k == 0 then groups else Save(Shifted(groups, tail, k - 1), tail[k - 1], groups[tail[k - 1]].displayOrder - 1)
  }

  /** The rows behind `gap`, in ascending display order. */
  ghost predicate Tail(groups: Groups, gap: int, tail: seq<Id>) {
    && (forall id :: id in tail <==> id in groups && groups[id].displayOrder > gap)
    && (forall i, j :: 0 <= i < j < |tail| ==> groups[tail[i]].displayOrder < groups[tail[j]].displayOrder)
  }

  /** The tail as far as it is read, with the rows still to come. */
  ghost predicate TailSoFar(groups: Groups, gap: int, tail: seq<Id>, rest: set<Id>) {
    && (forall id :: id in tail || id in rest <==> id in groups && groups[id].displayOrder > gap)
    && (forall i, j :: 0 <= i < j < |tail| ==> groups[tail[i]].displayOrder < groups[tail[j]].displayOrder)
    && (forall i, id :: 0 <= i < |tail| && id in rest ==> groups[tail[i]].displayOrder < groups[id].displayOrder)
  }

  lemma NoTail(groups: Groups, gap: int, rest: set<Id>)
    requires rest == set id | id in groups && groups[id].displayOrder > gap
    ensures TailSoFar(groups, gap, [], rest)
  {
  }

  lemma RestInTable(groups: Groups, gap: int, tail: seq<Id>, rest: set<Id>)
    requires TailSoFar(groups, gap, tail, rest)
    ensures forall id <- rest :: id in groups
  {
  }

  lemma TailGrows(groups: Groups, gap: int, tail: seq<Id>, rest: set<Id>, least: Id)
    requires Unique(Numbers(groups)) && TailSoFar(groups, gap, tail, rest) && least in rest
    requires forall id <- rest :: id in groups && groups[least].displayOrder <= groups[id].displayOrder
    ensures TailSoFar(groups, gap, tail + [least], rest - {least})
  {
    forall id | id in rest && id != least ensures groups[least].displayOrder < groups[id].displayOrder {
      assert Numbers(groups)[id] != Numbers(groups)[least];
    }
  }

  lemma TailDone(groups: Groups, gap: int, tail: seq<Id>)
    requires TailSoFar(groups, gap, tail, {})
    ensures Tail(groups, gap, tail)
  {
  }

  lemma TailIsDistinct(groups: Groups, gap: int, tail: seq<Id>)
    requires Tail(groups, gap, tail)
    ensures NoDup(tail) && forall id <- tail :: id in groups
  {
  }

  lemma {:induction false} ShiftedAt(groups: Groups, tail: seq<Id>, k: nat)
    requires NoDup(tail) && k <= |tail| && forall id <- tail :: id in groups
    ensures forall j :: 0 <= j < k ==> Shifted(groups, tail, k)[tail[j]] == Lowered(groups[tail[j]])
    ensures forall id <- groups :: id !in tail[..k] ==> Shifted(groups, tail, k)[id] == groups[id]
  {
    hide FormatGroupName;
    if k > 0 {
      ShiftedAt(groups, tail, k - 1);
      assert tail[..k] == tail[..k - 1] + [tail[k - 1]];
    }
  }

  lemma ShiftedNumber(groups: Groups, tail: seq<Id>, k: nat, gap: int, id: Id)
    requires Tail(groups, gap, tail) && k <= |tail| && id in groups
    ensures Shifted(groups, tail, k)[id].displayOrder == groups[id].displayOrder - (if id in tail[..k] then 1 else 0)
    ensures id in tail[..k] ==> groups[id].displayOrder > gap && forall other <- groups ::
      groups[other].displayOrder > gap && other !in tail[..k] ==> groups[id].displayOrder < groups[other].displayOrder
  {
    hide FormatGroupName;
    TailIsDistinct(groups, gap, tail);
    ShiftedAt(groups, tail, k);
    assert forall i :: 0 <= i < k ==> tail[..k][i] == tail[i];
    if id in tail[..k] {
      var j :| 0 <= j < k && tail[j] == id;
      assert id in tail;
      forall other | other in groups && groups[other].displayOrder > gap && other !in tail[..k]
        ensures groups[id].displayOrder < groups[other].displayOrder
      {
        var i :| 0 <= i < |tail| && tail[i] == other;
      }
    }
  }

  /** After every single save of a removal the display orders are distinct, although nothing in the table enforces it. */
  lemma ShiftedUnique(groups: Groups, tail: seq<Id>, k: nat, gap: int)
    requires Unique(Numbers(groups)) && Tail(groups, gap, tail) && k <= |tail|
    requires forall id <- groups :: groups[id].displayOrder != gap
    ensures Unique(Numbers(Shifted(groups, tail, k)))
  {
    hide Shifted;
    var before, after := Numbers(groups), Numbers(Shifted(groups, tail, k));
    forall a, b | a in after && b in after && a != b ensures after[a] != after[b] {
      ShiftedNumber(groups, tail, k, gap, a);
      ShiftedNumber(groups, tail, k, gap, b);
      assert a in before && b in before;
    }
  }

  /** All saves together close the gap. */
  lemma ShiftedCloses(groups: Groups, id: Id, tail: seq<Id>)
    requires id in groups && Tail(groups - {id}, groups[id].displayOrder, tail)
    ensures Shifted(groups - {id}, tail, |tail|) == Removed(groups, id)
  {
    hide Lowered, Shifted, Tail;
    var left := groups - {id};
    TailIsDistinct(left, groups[id].displayOrder, tail);
    ShiftedAt(left, tail, |tail|);
    assert tail[..|tail|] == tail;
    forall x | x in left ensures Shifted(left, tail, |tail|)[x] == Removed(groups, id)[x] {
      TailHas(left, groups[id].displayOrder, tail, x);
      if x in tail { var j :| 0 <= j < |tail| && tail[j] == x; }
    }
  }

  lemma TailHas(groups: Groups, gap: int, tail: seq<Id>, id: Id)
    requires Tail(groups, gap, tail)
    ensures id in tail <==> id in groups && groups[id].displayOrder > gap
  {
  }

  // ---- every run ----

  /** The display orders are exactly 1..N, and every name says its group's number. */
  ghost predicate Inv(groups: Groups) {
    && Numbered(Numbers(groups))
    && forall id <- groups :: groups[id].name == FormatGroupName(groups[id].displayOrder)
  }

  datatype Event = Add(id: Id) | Drop(id: Id)

  function Step(groups: Groups, e: Event): Groups {
    match e
    case Add(id) => if id in groups then groups else Create(groups, id).GetOr(groups)
    case Drop(id) => if id in groups then Removed(groups, id) else groups
  }

  function Run(events: seq<Event>): Groups {
    if events == [] then map[] else Step(Run(events[..|events| - 1]), events[|events| - 1])
  }

  lemma RemovedNumber(groups: Groups, id: Id, x: Id)
    requires id in groups && x in groups && x != id
    ensures x in Removed(groups, id)
    ensures var before, after := groups[x].displayOrder, Removed(groups, id)[x].displayOrder;
      after == before - (if before > groups[id].displayOrder then 1 else 0)
    ensures groups[x].name == FormatGroupName(groups[x].displayOrder) ==>
      Removed(groups, id)[x].name == FormatGroupName(Removed(groups, id)[x].displayOrder)
  {
    hide FormatGroupName;
  }

  lemma NumbersAt(groups: Groups)
    ensures Numbers(groups).Keys == groups.Keys && |Numbers(groups)| == |groups|
    ensures forall id <- groups :: Numbers(groups)[id] == groups[id].displayOrder
  {
  }

  lemma RemovedNumbered(groups: Groups, id: Id)
    requires Inv(groups) && id in groups
    ensures Inv(Removed(groups, id))
  {
    hide FormatGroupName, Removed, Numbers;
    var r := Removed(groups, id);
    RemovedKeys(groups, id);
    NumbersAt(groups);
    NumbersAt(r);
    forall k | k in r ensures 1 <= r[k].displayOrder <= |r| && r[k].name == FormatGroupName(r[k].displayOrder) {
      RemovedNumber(groups, id, k);
      assert Numbers(groups)[k] != Numbers(groups)[id];
    }
    RemovedUnique(groups, id);
  }

  lemma RemovedUnique(groups: Groups, id: Id)
    requires Unique(Numbers(groups)) && id in groups
    ensures Unique(Numbers(Removed(groups, id)))
  {
    hide FormatGroupName, Removed, Numbers;
    var before, after := Numbers(groups), Numbers(Removed(groups, id));
    RemovedKeys(groups, id);
    NumbersAt(groups);
    NumbersAt(Removed(groups, id));
    forall a, b | a in after && b in after && a != b ensures after[a] != after[b] {
      RemovedNumber(groups, id, a);
      RemovedNumber(groups, id, b);
      assert before[a] != before[b] && before[a] != before[id] && before[b] != before[id];
    }
  }

  lemma RemovedKeys(groups: Groups, id: Id)
    requires id in groups
    ensures Removed(groups, id).Keys == groups.Keys - {id} && |Removed(groups, id)| == |groups| - 1
  {
    assert Removed(groups, id).Keys == groups.Keys - {id};
  }

  lemma CreatedNumbered(groups: Groups, id: Id)
    requires Inv(groups) && id !in groups
    ensures Inv(Create(groups, id).GetOr(groups))
  {
    hide FormatGroupName, Numbers, Numbered;
    NumbersAt(groups);
    NextIsFree(Numbers(groups), id);
    if |groups| < MAX_GROUPS { NumbersAfterSave(groups, id); }
  }

  lemma NumbersAfterSave(groups: Groups, id: Id)
    ensures Numbers(Save(groups, id, |groups| + 1)) == Numbers(groups)[id := |groups| + 1]
  {
  }

  lemma {:induction false} RunKeeps(events: seq<Event>)
    ensures Inv(Run(events)) && |Run(events)| <= MAX_GROUPS
  {
    hide FormatGroupName, Removed, Create, Numbered, Numbers;
    if events == [] {
      NothingNumbered();
    } else {
      var groups := Run(events[..|events| - 1]);
      RunKeeps(events[..|events| - 1]);
      match events[|events| - 1] {
        case Add(id) => if id !in groups { CreatedNumbered(groups, id); CreateSize(groups, id); }
        case Drop(id) => if id in groups { RemovedNumbered(groups, id); RemovedKeys(groups, id); }
      }
    }
  }

  lemma NothingNumbered()
    ensures Inv(map[])
  {
  }

  lemma CreateSize(groups: Groups, id: Id)
    requires id !in groups && |groups| <= MAX_GROUPS
    ensures |Create(groups, id).GetOr(groups)| <= MAX_GROUPS
  {
    hide FormatGroupName;
    if |groups| < MAX_GROUPS { assert Create(groups, id).value.Keys == groups.Keys + {id}; }
  }

  /** In every run each of the numbers 1..N belongs to a group. */
  lemma NoGap(events: seq<Event>, n: int)
    requires 1 <= n <= |Run(events)|
    ensures exists id :: id in Run(events) && Run(events)[id].displayOrder == n
  {
    hide Run;
    RunKeeps(events);
    assert Numbers(Run(events)).Keys == Run(events).Keys;
    EveryNumberTaken(Numbers(Run(events)), n);
    var id :| id in Numbers(Run(events)) && Numbers(Run(events))[id] == n;
  }

  /** The name of the n-th group, as the tool shows it. */
  lemma NameOf(n: int)
    requires 1 <= n <= 6
    ensures FormatGroupName(n) == [if n == 1 then '1' else if n == 2 then '2' else if n == 3 then '3' else if n == 4 then '4' else if n == 5 then '5' else '6']
      + "\U{BC88} \U{C9D1}\U{ACB0}\U{ADF8}\U{B8F9}"
  {
  }

  /** In every run a creation takes the next number up to 6 and changes no other group; at 6 it is refused. */
  lemma CreationTakesNext(events: seq<Event>, id: Id)
    requires id !in Run(events)
    ensures var s, t := Run(events), Step(Run(events), Add(id));
      if |s| >= 6 then t == s
      else t.Keys == s.Keys + {id} && t[id].displayOrder == |s| + 1 && t[id].name == FormatGroupName(|s| + 1) && forall x <- s :: t[x] == s[x]
  {
    hide FormatGroupName, Run;
  }

  /** In every run a removal moves the groups behind the gap up by one, name and all, and leaves those before it. */
  lemma RemovalMovesUp(events: seq<Event>, id: Id)
    requires id in Run(events)
    ensures var s, t := Run(events), Step(Run(events), Drop(id));
      && t.Keys == s.Keys - {id}
      && forall x <- t ::
           if s[x].displayOrder > s[id].displayOrder
           then t[x].displayOrder == s[x].displayOrder - 1 && t[x].name == FormatGroupName(s[x].displayOrder - 1)
           else t[x] == s[x]
  {
    hide FormatGroupName, Run;
    RemovedKeys(Run(events), id);
  }

  class RallyGroupTable {
    var groups: Groups

    constructor ()
      ensures groups == map[]
    {
      groups := map[];
    }

    /** One save; no save may give two groups the same number. */
    method SaveGroup(id: Id, displayOrder: int)
      requires Unique(Numbers(Save(groups, id, displayOrder)))
      modifies this
      ensures groups == Save(old(groups), id, displayOrder)
    {
      groups := groups[id := Group(FormatGroupName(displayOrder), displayOrder)];
    }

    method CreateGroup(id: Id) returns (created: bool)
      requires Inv(groups) && id !in groups
      modifies this
      ensures created <==> Create(old(groups), id).Some?
      ensures groups == Create(old(groups), id).GetOr(old(groups)) && Inv(groups)
    {
      hide FormatGroupName;
      CreatedNumbered(groups, id);
      var count := |groups|;
      if count >= MAX_GROUPS { return false; }
      SaveGroup(id, count + 1);
      return true;
    }

    /** The rows behind a number, read in ascending order. */
    method FindTail(gap: int) returns (tail: seq<Id>)
      requires Unique(Numbers(groups))
      ensures Tail(groups, gap, tail)
    {
      hide Unique, Tail, TailSoFar;
      tail := [];
      var rest := set id | id in groups && groups[id].displayOrder > gap;
      NoTail(groups, gap, rest);
      while rest != {}
        invariant TailSoFar(groups, gap, tail, rest)
        decreases |rest|
      {
        RestInTable(groups, gap, tail, rest);
        var least := Least(rest);
        TailGrows(groups, gap, tail, rest, least);
        tail := tail + [least];
        rest := rest - {least};
      }
      TailDone(groups, gap, tail);
    }

    method Least(ids: set<Id>) returns (least: Id)
      requires ids != {} && forall id <- ids :: id in groups
      ensures least in ids && forall id <- ids :: groups[least].displayOrder <= groups[id].displayOrder
    {
      least :| least in ids;
      var rest := ids - {least};
      while rest != {}
        invariant rest <= ids && least in ids
        invariant forall id <- ids - rest :: groups[least].displayOrder <= groups[id].displayOrder
        decreases |rest|
      {
        var id :| id in rest;
        if groups[id].displayOrder < groups[least].displayOrder { least := id; }
        rest := rest - {id};
      }
    }

    method RemoveGroup(id: Id) returns (found: bool)
      requires Inv(groups)
      modifies this
      ensures found <==> id in old(groups)
      ensures groups == if found then Removed(old(groups), id) else old(groups)
      ensures Inv(groups)
    {
      hide FormatGroupName, Removed, Inv, Unique, Numbers, Shifted, Tail, Lowered;
      if id !in groups { return false; }
      RemovedNumbered(groups, id);
      var removedOrder := groups[id].displayOrder;
      GapIsFree(groups, id);
      groups := groups - {id};
      ghost var left := groups;
      var tail := FindTail(removedOrder);
      TailIsDistinct(left, removedOrder, tail);
      assert Shifted(left, tail, 0) == left by { NothingShifted(left, tail); }
      for i := 0 to |tail|
        invariant groups == Shifted(left, tail, i)
      {
        ShiftedUnique(left, tail, i + 1, removedOrder);
        ShiftStep(left, tail, i);
        SaveGroup(tail[i], groups[tail[i]].displayOrder - 1);
      }
      ShiftedCloses(old(groups), id, tail);
      return true;
    }

    lemma NothingShifted(left: Groups, tail: seq<Id>)
      requires forall id <- tail :: id in left
      ensures Shifted(left, tail, 0) == left
    {
    }

    lemma GapIsFree(m: Groups, id: Id)
      requires Inv(m) && id in m
      ensures Unique(Numbers(m - {id})) && forall x <- m - {id} :: m[x].displayOrder != m[id].displayOrder
    {
      assert id in Numbers(m);
      forall x | x in m - {id} ensures x in Numbers(m) && Numbers(m)[x] == Numbers(m - {id})[x] {}
    }

    lemma ShiftStep(left: Groups, tail: seq<Id>, i: nat)
      requires NoDup(tail) && i < |tail| && forall id <- tail :: id in left
      ensures var now := Shifted(left, tail, i);
        Shifted(left, tail, i + 1) == Save(now, tail[i], now[tail[i]].displayOrder - 1)
    {
      hide FormatGroupName;
      ShiftedAt(left, tail, i);
    }
  }
}
