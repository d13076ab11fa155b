/**
 * `calculate_constraint_violations`: the five violation counts of a
 * timetable, each tied to an independent definition — pairs of timetable
 * entries for the overlaps, the annealing cost's mentor deviation for the
 * mentor groups, start-time-ordered days for back-to-back sessions and the
 * scaled standard deviation of the teachers' loads.
 */
module Violations {
  import opened Sequences
  import opened Domain
  import Annealing
  import opened Overlaps
  import opened BackToBack
  import opened TeachingLoad

  datatype ViolationCounts = ViolationCounts(
    teacherOverlap: nat, roomOverlap: nat, mentorGroupSize: nat,
    backToBackSessions: nat, equitableTeachingLoad: nat)

  /** A course taught by a mentor is known, and so are its student groups, as the source's lookups demand. */
  ghost predicate MentorLookups(data: Dataset, tt: Keyed<Assignment>) {
    forall c :: c in tt.entries && IsMentor(data, tt.entries[c].teacher) ==>
      c in data.courses.entries
      && forall g :: g in data.courses.entries[c].studentGroups ==> g in data.studentGroups.entries
  }

  predicate IsMentor(data: Dataset, t: Id) {
    t in data.teachers.entries && data.teachers.entries[t].isMentor
  }

  /** The mentors among `ts`, in order. */
  function Mentors(data: Dataset, ts: seq<Id>): seq<Id> {
    if ts == [] then []
    else Mentors(data, ts[..|ts| - 1]) + (if IsMentor(data, ts[|ts| - 1]) then [ts[|ts| - 1]] else [])
  }

  lemma {:induction false} MentorsFacts(data: Dataset, ts: seq<Id>)
    requires Distinct(ts)
    ensures Distinct(Mentors(data, ts))
    ensures forall t :: t in Mentors(data, ts) <==> t in ts && IsMentor(data, t)
  {
    if ts != [] {
      var init := ts[..|ts| - 1];
      assert Distinct(init);
      MentorsFacts(data, init);
      assert ts[|ts| - 1] !in init;
      assert forall t :: t in ts <==> t in init || t == ts[|ts| - 1];
    }
  }

  /** The students of the groups `gs`. */
  ghost function GroupStudents(data: Dataset, gs: seq<Id>): set<Id> {
    set g, s | g in gs && g in data.studentGroups.entries && s in data.studentGroups.entries[g].students :: s
  }

  /** The students mentor `m` reaches through the courses `keys`. */
  ghost function Reached(data: Dataset, tt: Keyed<Assignment>, keys: seq<Id>, m: Id): set<Id> {
    set c, g, s | c in keys && c in tt.entries && tt.entries[c].teacher == m && c in data.courses.entries
                  && g in data.courses.entries[c].studentGroups && g in data.studentGroups.entries
                  && s in data.studentGroups.entries[g].students :: s
  }

  function Elements(l: seq<Id>): set<Id> {
    set s | s in l
  }

  lemma ReachedSnoc(data: Dataset, tt: Keyed<Assignment>, keys: seq<Id>, c: Id, m: Id)
    ensures Reached(data, tt, keys + [c], m)
         == Reached(data, tt, keys, m)
            + (if c in tt.entries && tt.entries[c].teacher == m && c in data.courses.entries
               then GroupStudents(data, data.courses.entries[c].studentGroups) else {})
  {
    forall s | s in Reached(data, tt, keys + [c], m)
      ensures s in Reached(data, tt, keys, m) || (c in tt.entries && tt.entries[c].teacher == m && c in data.courses.entries
               && s in GroupStudents(data, data.courses.entries[c].studentGroups))
    {
      var c', g :| c' in keys + [c] && c' in tt.entries && tt.entries[c'].teacher == m && c' in data.courses.entries
                   && g in data.courses.entries[c'].studentGroups && g in data.studentGroups.entries
                   && s in data.studentGroups.entries[g].students;
      if c' != c {
        assert c' in keys;
      }
    }
  }

  lemma GroupStudentsSnoc(data: Dataset, gs: seq<Id>, g: Id)
    requires g in data.studentGroups.entries
    ensures GroupStudents(data, gs + [g]) == GroupStudents(data, gs) + Elements(data.studentGroups.entries[g].students)
  {
    forall s | s in GroupStudents(data, gs + [g])
      ensures s in GroupStudents(data, gs) + Elements(data.studentGroups.entries[g].students)
    {
      var g' :| g' in gs + [g] && g' in data.studentGroups.entries && s in data.studentGroups.entries[g'].students;
      if g' != g {
        assert g' in gs;
      }
    }
  }

  /** `mentor_students` before any course is read: an empty list per mentor, in teacher order. */
  method MentorLists(data: Dataset) returns (lists: Keyed<seq<Id>>)
    requires data.Valid()
    ensures lists.Valid() && lists.order == Mentors(data, data.teachers.order)
    ensures forall t :: t in lists.entries ==> lists.entries[t] == []
  {
    var teachers := data.teachers;
    lists := EmptyKeyed();
    for i := 0 to |teachers.order|
      invariant lists.order == Mentors(data, teachers.order[..i])
      invariant lists.Valid()
      invariant forall t :: t in lists.entries ==> lists.entries[t] == []
    {
      var t := teachers.order[i];
      MentorsFacts(data, teachers.order[..i]);
      NextOfDistinct(teachers.order, i);
      if teachers.entries[t].isMentor {
        lists := lists.Put(t, []);
      }
      assert teachers.order[..i + 1][..i] == teachers.order[..i];
    }
    assert teachers.order[..|teachers.order|] == teachers.order;
  }

  /** One course's groups, appended to its mentor's list. */
  method ExtendMentor(data: Dataset, lists: Keyed<seq<Id>>, t: Id, groups: seq<Id>) returns (lists': Keyed<seq<Id>>)
    requires lists.Valid() && t in lists.entries
    requires forall g :: g in groups ==> g in data.studentGroups.entries
    ensures lists'.Valid() && lists'.order == lists.order
    ensures lists'.entries == lists.entries[t := lists'.entries[t]]
    ensures Elements(lists'.entries[t]) == Elements(lists.entries[t]) + GroupStudents(data, groups)
  {
    lists' := lists;
    for j := 0 to |groups|
      invariant lists'.Valid() && lists'.order == lists.order
      invariant t in lists'.entries && lists'.entries == lists.entries[t := lists'.entries[t]]
      invariant Elements(lists'.entries[t]) == Elements(lists.entries[t]) + GroupStudents(data, groups[..j])
    {
      var studentGroup := data.studentGroups.entries[groups[j]];
      ghost var before := lists'.entries[t];
      lists' := lists'.Put(t, lists'.entries[t] + studentGroup.students);
      assert Elements(before + studentGroup.students) == Elements(before) + Elements(studentGroup.students);
      assert groups[..j + 1] == groups[..j] + [groups[j]];
      GroupStudentsSnoc(data, groups[..j], groups[j]);
    }
    assert groups[..|groups|] == groups;
  }

  /** One course more: its mentor's list gains the students of its groups, and every list still holds what it reached. */
  lemma ReachedStep(data: Dataset, tt: Keyed<Assignment>, i: nat, before: Keyed<seq<Id>>, after: Keyed<seq<Id>>)
    requires tt.Valid() && i < |tt.order| && MentorLookups(data, tt)
    requires forall m :: m in before.entries ==> Elements(before.entries[m]) == Reached(data, tt, tt.order[..i], m)
    requires after.entries.Keys == before.entries.Keys
    requires var c := tt.order[i]; var t := tt.entries[c].teacher;
      forall m :: m in after.entries && m != t ==> after.entries[m] == before.entries[m]
    requires var c := tt.order[i]; var t := tt.entries[c].teacher;
      t in after.entries ==>
        c in data.courses.entries
        && Elements(after.entries[t]) == Elements(before.entries[t]) + GroupStudents(data, data.courses.entries[c].studentGroups)
    ensures forall m :: m in after.entries ==> Elements(after.entries[m]) == Reached(data, tt, tt.order[..i + 1], m)
  {
    var c := tt.order[i];
    assert tt.order[..i + 1] == tt.order[..i] + [c];
    forall m | m in after.entries ensures Elements(after.entries[m]) == Reached(data, tt, tt.order[..i + 1], m) {
      ReachedSnoc(data, tt, tt.order[..i], c, m);
    }
  }

  /** The second loop: every course taught by a mentor adds the students of its groups to that mentor's list. */
  method CollectStudents(data: Dataset, tt: Keyed<Assignment>, lists: Keyed<seq<Id>>) returns (lists': Keyed<seq<Id>>)
    requires tt.Valid() && lists.Valid() && MentorLookups(data, tt)
    requires forall t :: t in lists.entries ==> lists.entries[t] == [] && IsMentor(data, t)
    ensures lists'.Valid() && lists'.order == lists.order && lists'.entries.Keys == lists.entries.Keys
    ensures forall t :: t in lists'.entries ==> Elements(lists'.entries[t]) == Reached(data, tt, tt.order, t)
  {
    lists' := lists;
    for i := 0 to |tt.order|
      invariant lists'.Valid() && lists'.order == lists.order && lists'.entries.Keys == lists.entries.Keys
      invariant forall t :: t in lists'.entries ==> Elements(lists'.entries[t]) == Reached(data, tt, tt.order[..i], t)
    {
      var c := tt.order[i];
      var t := tt.entries[c].teacher;
      ghost var before := lists';
      if t in lists'.entries {
        var course := data.courses.entries[c];
        lists' := ExtendMentor(data, lists', t, course.studentGroups);
      }
      ReachedStep(data, tt, i, before, lists');
    }
    assert tt.order[..|tt.order|] == tt.order;
  }

  lemma {:induction false} MentorDeviationSnoc(data: Dataset, sol: Solution, ts: seq<Id>, t: Id)
    requires forall x :: x in ts ==> x in data.teachers.entries
    requires t in data.teachers.entries
    ensures Annealing.MentorDeviation(data, sol, ts + [t])
         == Annealing.MentorDeviation(data, sol, ts) + Annealing.MentorDeviation(data, sol, [t])
  {
    if ts != [] {
      assert (ts + [t])[1..] == ts[1..] + [t];
      MentorDeviationSnoc(data, sol, ts[1..], t);
    }
  }

  /** Summing over the mentors alone gives the same deviation as summing over every teacher. */
  lemma {:induction false} MentorDeviationOfMentors(data: Dataset, sol: Solution, ts: seq<Id>)
    requires forall x :: x in ts ==> x in data.teachers.entries
    ensures forall x :: x in Mentors(data, ts) ==> x in data.teachers.entries
    ensures Annealing.MentorDeviation(data, sol, Mentors(data, ts)) == Annealing.MentorDeviation(data, sol, ts)
  {
    if ts != [] {
      var init, t := ts[..|ts| - 1], ts[|ts| - 1];
      MentorDeviationOfMentors(data, sol, init);
      assert ts == init + [t];
      MentorDeviationSnoc(data, sol, init, t);
      if IsMentor(data, t) {
        MentorDeviationSnoc(data, sol, Mentors(data, init), t);
      } else {
        assert Mentors(data, ts) == Mentors(data, init) + [] == Mentors(data, init);
        assert [t][1..] == [];
        assert Annealing.MentorDeviation(data, sol, [t]) == 0;
      }
    }
  }

  /** The third loop: each mentor adds |distinct students − 4| when that is not zero. */
  method SumDeviations(data: Dataset, tt: Keyed<Assignment>, lists: Keyed<seq<Id>>) returns (n: nat)
    requires lists.Valid()
    requires forall t :: t in lists.order ==> t in data.teachers.entries && data.teachers.entries[t].isMentor
    requires forall t :: t in lists.entries ==> Elements(lists.entries[t]) == Annealing.MentorStudents(data, tt.entries, t)
    ensures n == Annealing.MentorDeviation(data, tt.entries, lists.order)
  {
    n := 0;
    for k := 0 to |lists.order|
      invariant forall x :: x in lists.order[..k] ==> x in lists.order
      invariant n == Annealing.MentorDeviation(data, tt.entries, lists.order[..k])
    {
      var t := lists.order[k];
      var uniqueStudents := Elements(lists.entries[t]);
      if |uniqueStudents| != Annealing.MentorGroupTarget {
        n := n + Annealing.Abs(|uniqueStudents| - Annealing.MentorGroupTarget);
      }
      assert lists.order[..k + 1] == lists.order[..k] + [t];
      MentorDeviationSnoc(data, tt.entries, lists.order[..k], t);
    }
    assert lists.order[..|lists.order|] == lists.order;
  }

  lemma ReachedAll(data: Dataset, tt: Keyed<Assignment>, m: Id)
    requires tt.Valid()
    ensures Reached(data, tt, tt.order, m) == Annealing.MentorStudents(data, tt.entries, m)
  {
  }

  /** `mentor_group_size`: agrees with the deviation the annealing cost charges. */
  method MentorViolations(data: Dataset, tt: Keyed<Assignment>) returns (n: nat)
    requires data.Valid() && tt.Valid() && MentorLookups(data, tt)
    ensures n == Annealing.MentorDeviation(data, tt.entries, data.teachers.order)
  {
    var lists := MentorLists(data);
    MentorsFacts(data, data.teachers.order);
    lists := CollectStudents(data, tt, lists);
    forall t | t in lists.entries
      ensures Elements(lists.entries[t]) == Annealing.MentorStudents(data, tt.entries, t)
    {
      ReachedAll(data, tt, t);
    }
    n := SumDeviations(data, tt, lists);
    MentorDeviationOfMentors(data, tt.entries, data.teachers.order);
  }

  /**
   * The five counts. `overlaps` stands for `TimeSlot.overlaps_with` and
   * `toMinutes` for `TimeSlot._time_to_minutes`, which the time-slot model
   * does not define.
   */
  method CalculateConstraintViolations(data: Dataset, tt: Keyed<Assignment>,
                                       overlaps: (TimeSlot, TimeSlot) -> bool, toMinutes: string -> int)
    returns (v: ViolationCounts)
    requires data.Valid() && tt.Valid()
    requires SlotsKnown(tt, data.timeSlots.entries)
    requires MentorLookups(data, tt) && LoadLookups(data, tt)
    ensures v.teacherOverlap == SamePairCount(tt, data.timeSlots.entries, overlaps, false, tt.order)
    ensures v.roomOverlap == SamePairCount(tt, data.timeSlots.entries, overlaps, true, tt.order)
    ensures v.mentorGroupSize == Annealing.MentorDeviation(data, tt.entries, data.teachers.order)
    ensures v.backToBackSessions
         == GroupsBackToBack(data.timeSlots.entries, toMinutes, Group(tt, tt.order, false).entries, Group(tt, tt.order, false).order)
    ensures v.equitableTeachingLoad == EquitableLoad(LoadsOf(data, tt, data.teachers.order, tt.order))
  {
    var slots := data.timeSlots.entries;
    var teacherAssignments, teacherOverlap := CountResourceOverlaps(tt, slots, overlaps, false);
    var _, roomOverlap := CountResourceOverlaps(tt, slots, overlaps, true);
    var mentorGroupSize := MentorViolations(data, tt);
    GroupFacts(tt, tt.order, false);
    SlotsOfKnown(tt, slots, tt.order, false);
    var backToBack := BackToBackSessions(teacherAssignments, slots, toMinutes);
    var loads := TeachingLoads(data, tt);
    v := ViolationCounts(teacherOverlap, roomOverlap, mentorGroupSize, backToBack, EquitableLoad(loads));
  }
}
