/**
 * Overlap counting of `calculate_constraint_violations`: the timetable's
 * slots are grouped per teacher (or per room) in timetable order, and each
 * group counts its pairs of entries, earlier first, whose slots overlap.
 * The count equals the number of pairs of timetable entries, earlier first,
 * with the same teacher (or room) and overlapping slots.
 */
module Overlaps {
  import opened Sequences
  import opened Domain

  /** The resource an overlap check groups by: the room when `byRoom`, else the teacher. */
  function Resource(a: Assignment, byRoom: bool): Id {
    if byRoom then a.room else a.teacher
  }

  ghost predicate Covers(tt: Keyed<Assignment>, keys: seq<Id>) {
    forall c :: c in keys ==> c in tt.entries
  }

  /** `groups.setdefault(k, []).append(x)`: a new key goes last with `[x]`, an existing one gets `x` appended. */
  function AppendTo<V>(groups: Keyed<seq<V>>, k: Id, x: V): Keyed<seq<V>> {
    groups.Put(k, (if k in groups.entries then groups.entries[k] else []) + [x])
  }

  /** The grouping loop run over the courses `keys`: resource to the slots of its assignments, in order. */
  ghost function Group(tt: Keyed<Assignment>, keys: seq<Id>, byRoom: bool): Keyed<seq<Id>>
    requires Covers(tt, keys)
  {
    if keys == [] then EmptyKeyed()
    else
      var a := tt.entries[keys[|keys| - 1]];
      AppendTo(Group(tt, keys[..|keys| - 1], byRoom), Resource(a, byRoom), a.slot)
  }

  /** The slots, in order, of the courses among `keys` whose resource is `r`. */
  ghost function SlotsOf(tt: Keyed<Assignment>, keys: seq<Id>, r: Id, byRoom: bool): seq<Id>
    requires Covers(tt, keys)
  {
    if keys == [] then []
    else
      var a := tt.entries[keys[|keys| - 1]];
      SlotsOf(tt, keys[..|keys| - 1], r, byRoom) + (if Resource(a, byRoom) == r then [a.slot] else [])
  }

  /** The grouping has one entry per resource in use, holding exactly that resource's slots in order. */
  lemma {:induction false} GroupFacts(tt: Keyed<Assignment>, keys: seq<Id>, byRoom: bool)
    requires Covers(tt, keys)
    ensures Group(tt, keys, byRoom).Valid()
    ensures forall r :: r in Group(tt, keys, byRoom).entries <==> SlotsOf(tt, keys, r, byRoom) != []
    ensures forall r :: r in Group(tt, keys, byRoom).entries ==> Group(tt, keys, byRoom).entries[r] == SlotsOf(tt, keys, r, byRoom)
  {
    if keys != [] {
      GroupFacts(tt, keys[..|keys| - 1], byRoom);
    }
  }

  /** 1 when both slots are known and the first overlaps the second. */
  function Overlap(slots: map<Id, TimeSlot>, overlaps: (TimeSlot, TimeSlot) -> bool, x: Id, y: Id): nat {
    if x in slots && y in slots && overlaps(slots[x], slots[y]) then 1 else 0
  }

  /** The entries of `rest` whose slot `x` overlaps. */
  ghost function CountWith(slots: map<Id, TimeSlot>, overlaps: (TimeSlot, TimeSlot) -> bool, x: Id, rest: seq<Id>): nat {
    if rest == [] then 0
    else CountWith(slots, overlaps, x, rest[..|rest| - 1]) + Overlap(slots, overlaps, x, rest[|rest| - 1])
  }

  /** The overlapping pairs of `l` whose earlier entry is among the first `i`. */
  ghost function PairsBefore(slots: map<Id, TimeSlot>, overlaps: (TimeSlot, TimeSlot) -> bool, l: seq<Id>, i: nat): nat
    requires i <= |l|
  {
    if i == 0 then 0
    else PairsBefore(slots, overlaps, l, i - 1) + CountWith(slots, overlaps, l[i - 1], l[i..])
  }

  /** The overlapping pairs `(l[i], l[j])`, `i < j`, of one group. */
  ghost function PairCount(slots: map<Id, TimeSlot>, overlaps: (TimeSlot, TimeSlot) -> bool, l: seq<Id>): nat {
    PairsBefore(slots, overlaps, l, |l|)
  }

  /** The pair counts summed over the groups of `rs`. */
  ghost function GroupsTotal(slots: map<Id, TimeSlot>, overlaps: (TimeSlot, TimeSlot) -> bool,
                             lists: map<Id, seq<Id>>, rs: seq<Id>): nat
  {
    if rs == [] then 0
    else
      var r := rs[|rs| - 1];
      GroupsTotal(slots, overlaps, lists, rs[..|rs| - 1]) + (if r in lists then PairCount(slots, overlaps, lists[r]) else 0)
  }

  /** The entries of `l` that overlap slot `s`. */
  ghost function Earlier(slots: map<Id, TimeSlot>, overlaps: (TimeSlot, TimeSlot) -> bool, l: seq<Id>, s: Id): nat {
    if l == [] then 0
    else Earlier(slots, overlaps, l[..|l| - 1], s) + Overlap(slots, overlaps, l[|l| - 1], s)
  }

  /** The courses among `keys` with the resource of `c` whose slot overlaps that of `c`. */
  ghost function Matches(tt: Keyed<Assignment>, slots: map<Id, TimeSlot>, overlaps: (TimeSlot, TimeSlot) -> bool,
                         byRoom: bool, keys: seq<Id>, c: Id): nat
    requires Covers(tt, keys) && c in tt.entries
  {
    if keys == [] then 0
    else
      var a, b := tt.entries[keys[|keys| - 1]], tt.entries[c];
      Matches(tt, slots, overlaps, byRoom, keys[..|keys| - 1], c)
      + (if Resource(a, byRoom) == Resource(b, byRoom) then Overlap(slots, overlaps, a.slot, b.slot) else 0)
  }

  /**
   * The reference count: pairs of courses of `keys`, earlier first, with the
   * same resource, where the earlier one's slot overlaps the later one's.
   */
  ghost function SamePairCount(tt: Keyed<Assignment>, slots: map<Id, TimeSlot>, overlaps: (TimeSlot, TimeSlot) -> bool,
                               byRoom: bool, keys: seq<Id>): nat
    requires Covers(tt, keys)
  {
    if keys == [] then 0
    else
      var init := keys[..|keys| - 1];
      SamePairCount(tt, slots, overlaps, byRoom, init) + Matches(tt, slots, overlaps, byRoom, init, keys[|keys| - 1])
  }

  lemma {:induction false} PairsBeforeSnoc(slots: map<Id, TimeSlot>, overlaps: (TimeSlot, TimeSlot) -> bool,
                                           l: seq<Id>, s: Id, i: nat)
    requires i <= |l|
    ensures PairsBefore(slots, overlaps, l + [s], i) == PairsBefore(slots, overlaps, l, i) + Earlier(slots, overlaps, l[..i], s)
  {
    if i > 0 {
      PairsBeforeSnoc(slots, overlaps, l, s, i - 1);
      assert (l + [s])[i..] == l[i..] + [s];
      assert (l[i..] + [s])[..|l[i..]|] == l[i..];
      assert l[..i][..i - 1] == l[..i - 1];
    }
  }

  /** Appending slot `s` to a group adds one pair per earlier entry overlapping `s`. */
  lemma PairCountSnoc(slots: map<Id, TimeSlot>, overlaps: (TimeSlot, TimeSlot) -> bool, l: seq<Id>, s: Id)
    ensures PairCount(slots, overlaps, l + [s]) == PairCount(slots, overlaps, l) + Earlier(slots, overlaps, l, s)
  {
    PairsBeforeSnoc(slots, overlaps, l, s, |l|);
    assert l[..|l|] == l;
    assert (l + [s])[|l| + 1..] == [];
  }

  lemma {:induction false} MatchesAsEarlier(tt: Keyed<Assignment>, slots: map<Id, TimeSlot>,
                                            overlaps: (TimeSlot, TimeSlot) -> bool, byRoom: bool, keys: seq<Id>, c: Id)
    requires Covers(tt, keys) && c in tt.entries
    ensures Matches(tt, slots, overlaps, byRoom, keys, c)
         == Earlier(slots, overlaps, SlotsOf(tt, keys, Resource(tt.entries[c], byRoom), byRoom), tt.entries[c].slot)
  {
    if keys != [] {
      var init := keys[..|keys| - 1];
      var r := Resource(tt.entries[c], byRoom);
      MatchesAsEarlier(tt, slots, overlaps, byRoom, init, c);
      var a := tt.entries[keys[|keys| - 1]];
      var l := SlotsOf(tt, init, r, byRoom);
      if Resource(a, byRoom) == r {
        assert (l + [a.slot])[..|l|] == l;
      } else {
        assert l + [] == l;
      }
    }
  }

  lemma {:induction false} GroupsTotalFrame(slots: map<Id, TimeSlot>, overlaps: (TimeSlot, TimeSlot) -> bool,
                                            lists1: map<Id, seq<Id>>, lists2: map<Id, seq<Id>>, rs: seq<Id>)
    requires forall r :: r in rs ==> (r in lists1 <==> r in lists2) && (r in lists1 ==> lists1[r] == lists2[r])
    ensures GroupsTotal(slots, overlaps, lists1, rs) == GroupsTotal(slots, overlaps, lists2, rs)
  {
    if rs != [] {
      GroupsTotalFrame(slots, overlaps, lists1, lists2, rs[..|rs| - 1]);
    }
  }

  lemma {:induction false} GroupsTotalUpdate(slots: map<Id, TimeSlot>, overlaps: (TimeSlot, TimeSlot) -> bool,
                                             lists: map<Id, seq<Id>>, rs: seq<Id>, r: Id, l: seq<Id>)
    requires Distinct(rs) && r in rs && r in lists
    ensures GroupsTotal(slots, overlaps, lists[r := l], rs) + PairCount(slots, overlaps, lists[r])
         == GroupsTotal(slots, overlaps, lists, rs) + PairCount(slots, overlaps, l)
  {
    var init := rs[..|rs| - 1];
    assert Distinct(init);
    if rs[|rs| - 1] == r {
      assert r !in init;
      GroupsTotalFrame(slots, overlaps, lists[r := l], lists, init);
    } else {
      assert r in init;
      GroupsTotalUpdate(slots, overlaps, lists, init, r, l);
    }
  }

  /** `GroupFacts` for one resource. */
  lemma GroupAt(tt: Keyed<Assignment>, keys: seq<Id>, byRoom: bool, r: Id)
    requires Covers(tt, keys)
    ensures Distinct(Group(tt, keys, byRoom).order)
    ensures r in Group(tt, keys, byRoom).entries <==> r in Group(tt, keys, byRoom).order
    ensures r in Group(tt, keys, byRoom).entries ==> Group(tt, keys, byRoom).entries[r] == SlotsOf(tt, keys, r, byRoom)
    ensures r !in Group(tt, keys, byRoom).entries ==> SlotsOf(tt, keys, r, byRoom) == []
  {
    GroupFacts(tt, keys, byRoom);
  }

  /** Appending a slot to an existing group adds the pairs it closes with that group's earlier entries. */
  lemma ExistingGroupStep(slots: map<Id, TimeSlot>, overlaps: (TimeSlot, TimeSlot) -> bool,
                          lists: map<Id, seq<Id>>, order: seq<Id>, r: Id, s: Id)
    requires Distinct(order) && r in order && r in lists
    ensures GroupsTotal(slots, overlaps, lists[r := lists[r] + [s]], order)
         == GroupsTotal(slots, overlaps, lists, order) + Earlier(slots, overlaps, lists[r], s)
  {
    GroupsTotalUpdate(slots, overlaps, lists, order, r, lists[r] + [s]);
    PairCountSnoc(slots, overlaps, lists[r], s);
  }

  /** Opening a new group with one slot adds no pair. */
  lemma NewGroupStep(slots: map<Id, TimeSlot>, overlaps: (TimeSlot, TimeSlot) -> bool,
                     lists: map<Id, seq<Id>>, order: seq<Id>, r: Id, s: Id)
    requires r !in order
    ensures GroupsTotal(slots, overlaps, lists[r := [s]], order + [r]) == GroupsTotal(slots, overlaps, lists, order)
  {
    assert (order + [r])[..|order|] == order;
    GroupsTotalFrame(slots, overlaps, lists[r := [s]], lists, order);
    PairCountSnoc(slots, overlaps, [], s);
    assert [] + [s] == [s];
  }

  /** The grouping after one more course, spelled out. */
  lemma GroupSnoc(tt: Keyed<Assignment>, keys: seq<Id>, byRoom: bool)
    requires Covers(tt, keys) && keys != []
    ensures var a := tt.entries[keys[|keys| - 1]];
            var g := Group(tt, keys[..|keys| - 1], byRoom);
            var r := Resource(a, byRoom);
            Group(tt, keys, byRoom)
            == if r in g.entries then Keyed(g.order, g.entries[r := g.entries[r] + [a.slot]])
               else Keyed(g.order + [r], g.entries[r := [a.slot]])
  {
    var a := tt.entries[keys[|keys| - 1]];
    var r := Resource(a, byRoom);
    assert [] + [a.slot] == [a.slot];
  }

  /** One more course: the grouped count and the reference count grow alike. */
  lemma GroupedCountStep(tt: Keyed<Assignment>, slots: map<Id, TimeSlot>,
                         overlaps: (TimeSlot, TimeSlot) -> bool, byRoom: bool, keys: seq<Id>)
    requires Covers(tt, keys) && keys != []
    requires var g := Group(tt, keys[..|keys| - 1], byRoom);
             GroupsTotal(slots, overlaps, g.entries, g.order) == SamePairCount(tt, slots, overlaps, byRoom, keys[..|keys| - 1])
    ensures GroupsTotal(slots, overlaps, Group(tt, keys, byRoom).entries, Group(tt, keys, byRoom).order)
         == SamePairCount(tt, slots, overlaps, byRoom, keys)
  {
    var init, c := keys[..|keys| - 1], keys[|keys| - 1];
    var g := Group(tt, init, byRoom);
    var a := tt.entries[c];
    var r := Resource(a, byRoom);
    GroupAt(tt, init, byRoom, r);
    MatchesAsEarlier(tt, slots, overlaps, byRoom, init, c);
    GroupSnoc(tt, keys, byRoom);
    if r in g.entries {
      ExistingGroupStep(slots, overlaps, g.entries, g.order, r, a.slot);
    } else {
      NewGroupStep(slots, overlaps, g.entries, g.order, r, a.slot);
    }
  }

  /** Counting pairs group by group counts the same pairs as the reference count over the timetable. */
  lemma {:induction false} GroupedCountIsPairCount(tt: Keyed<Assignment>, slots: map<Id, TimeSlot>,
                                                   overlaps: (TimeSlot, TimeSlot) -> bool, byRoom: bool, keys: seq<Id>)
    requires Covers(tt, keys)
    ensures GroupsTotal(slots, overlaps, Group(tt, keys, byRoom).entries, Group(tt, keys, byRoom).order)
         == SamePairCount(tt, slots, overlaps, byRoom, keys)
  {
    if keys != [] {
      GroupedCountIsPairCount(tt, slots, overlaps, byRoom, keys[..|keys| - 1]);
      GroupedCountStep(tt, slots, overlaps, byRoom, keys);
    }
  }

  /** Every slot the timetable uses is a known time slot, as the source's lookups demand. */
  ghost predicate SlotsKnown(tt: Keyed<Assignment>, slots: map<Id, TimeSlot>) {
    forall c :: c in tt.entries ==> tt.entries[c].slot in slots
  }

  /** The grouping loop (`teacher_assignments`, `room_assignments`). */
  method GroupByResource(tt: Keyed<Assignment>, byRoom: bool) returns (groups: Keyed<seq<Id>>)
    requires tt.Valid()
    ensures groups == Group(tt, tt.order, byRoom)
  {
    groups := EmptyKeyed();
    for i := 0 to |tt.order|
      invariant groups == Group(tt, tt.order[..i], byRoom)
    {
      var a := tt.entries[tt.order[i]];
      var r := Resource(a, byRoom);
      ghost var before := groups;
      if r !in groups.entries {
        groups := groups.Put(r, []);
      }
      groups := groups.Put(r, groups.entries[r] + [a.slot]);
      SetDefaultAppend(before, r, a.slot, groups);
      assert tt.order[..i + 1][..i] == tt.order[..i];
      GroupSnoc(tt, tt.order[..i + 1], byRoom);
    }
    assert tt.order[..|tt.order|] == tt.order;
  }

  /** Creating an empty group when missing and then appending is `AppendTo`. */
  lemma SetDefaultAppend<V>(g: Keyed<seq<V>>, r: Id, x: V, result: Keyed<seq<V>>)
    requires var g' := if r in g.entries then g else g.Put(r, []);
             result == g'.Put(r, g'.entries[r] + [x])
    ensures result == AppendTo(g, r, x)
  {
  }

  /** The counting loop: for each group, each entry against every later one. */
  method CountOverlaps(groups: Keyed<seq<Id>>, slots: map<Id, TimeSlot>, overlaps: (TimeSlot, TimeSlot) -> bool)
    returns (n: nat)
    requires groups.Valid()
    requires forall r, x :: r in groups.entries && x in groups.entries[r] ==> x in slots
    ensures n == GroupsTotal(slots, overlaps, groups.entries, groups.order)
  {
    n := 0;
    for k := 0 to |groups.order|
      invariant n == GroupsTotal(slots, overlaps, groups.entries, groups.order[..k])
    {
      var l := groups.entries[groups.order[k]];
      ghost var before := n;
      for i := 0 to |l|
        invariant n == before + PairsBefore(slots, overlaps, l, i)
      {
        var ts1 := slots[l[i]];
        ghost var start := n;
        for j := i + 1 to |l|
          invariant n == start + CountWith(slots, overlaps, l[i], l[i + 1..j])
        {
          var ts2 := slots[l[j]];
          if overlaps(ts1, ts2) {
            n := n + 1;
          }
          assert l[i + 1..j + 1][..j - i - 1] == l[i + 1..j];
        }
        assert l[i + 1..] == l[i + 1..|l|];
      }
      assert groups.order[..k + 1][..k] == groups.order[..k];
    }
    assert groups.order[..|groups.order|] == groups.order;
  }

  /** `teacher_overlap` (or `room_overlap`): the reference count of overlapping same-resource pairs. */
  method CountResourceOverlaps(tt: Keyed<Assignment>, slots: map<Id, TimeSlot>, overlaps: (TimeSlot, TimeSlot) -> bool,
                               byRoom: bool) returns (groups: Keyed<seq<Id>>, n: nat)
    requires tt.Valid() && SlotsKnown(tt, slots)
    ensures groups == Group(tt, tt.order, byRoom)
    ensures n == SamePairCount(tt, slots, overlaps, byRoom, tt.order)
  {
    groups := GroupByResource(tt, byRoom);
    GroupFacts(tt, tt.order, byRoom);
    SlotsOfKnown(tt, slots, tt.order, byRoom);
    n := CountOverlaps(groups, slots, overlaps);
    GroupedCountIsPairCount(tt, slots, overlaps, byRoom, tt.order);
  }

  lemma {:induction false} SlotsOfKnown(tt: Keyed<Assignment>, slots: map<Id, TimeSlot>, keys: seq<Id>, byRoom: bool)
    requires Covers(tt, keys) && SlotsKnown(tt, slots)
    ensures forall r, x :: x in SlotsOf(tt, keys, r, byRoom) ==> x in slots
  {
    if keys != [] {
      SlotsOfKnown(tt, slots, keys[..|keys| - 1], byRoom);
    }
  }
}
