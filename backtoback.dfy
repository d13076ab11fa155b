/**
 * Back-to-back counting of `calculate_constraint_violations`: for each
 * teacher, the teacher's sessions are grouped by day, each day is sorted by
 * start time, and every neighbouring pair where one session ends exactly
 * when the next starts is counted.
 */
module BackToBack {
  import opened Domain
  import opened Overlaps
  import Sorting
  import Strings

  function StartTime(ts: TimeSlot): string {
    ts.startTime
  }

  /** `day_slots` for one teacher: the known slots of `l` grouped by day, in order of first appearance. */
  ghost function DayGroups(slots: map<Id, TimeSlot>, l: seq<Id>): Keyed<seq<TimeSlot>> {
    if l == [] then EmptyKeyed()
    else
      var g, x := DayGroups(slots, l[..|l| - 1]), l[|l| - 1];
      if x in slots then AppendTo(g, slots[x].day, slots[x]) else g
  }

  /** The known slots of `l` that fall on day `d`, in order. */
  ghost function OnDay(slots: map<Id, TimeSlot>, l: seq<Id>, d: string): seq<TimeSlot> {
    if l == [] then []
    else
      var x := l[|l| - 1];
      OnDay(slots, l[..|l| - 1], d) + (if x in slots && slots[x].day == d then [slots[x]] else [])
  }

  /** Each day in the grouping holds exactly that day's sessions, in timetable order. */
  lemma {:induction false} DayGroupsFacts(slots: map<Id, TimeSlot>, l: seq<Id>)
    ensures DayGroups(slots, l).Valid()
    ensures forall d :: d in DayGroups(slots, l).entries <==> OnDay(slots, l, d) != []
    ensures forall d :: d in DayGroups(slots, l).entries ==> DayGroups(slots, l).entries[d] == OnDay(slots, l, d)
  {
    if l != [] {
      DayGroupsFacts(slots, l[..|l| - 1]);
    }
  }

  /** 1 when session `b` starts the very minute session `a` ends. */
  function Adjacent(toMinutes: string -> int, a: TimeSlot, b: TimeSlot): nat {
    if toMinutes(b.startTime) - toMinutes(a.endTime) == 0 then 1 else 0
  }

  /** The back-to-back neighbours `(l[k], l[k + 1])` with `k < i`. */
  ghost function AdjacentBefore(toMinutes: string -> int, l: seq<TimeSlot>, i: nat): nat
    requires i == 0 || i < |l|
  {
    if i == 0 then 0 else AdjacentBefore(toMinutes, l, i - 1) + Adjacent(toMinutes, l[i - 1], l[i])
  }

  /** The back-to-back neighbours of one day's sessions, taken in the order given. */
  ghost function AdjacentPairs(toMinutes: string -> int, l: seq<TimeSlot>): nat {
    if |l| <= 1 then 0 else AdjacentBefore(toMinutes, l, |l| - 1)
  }

  /** `slots.sort(key=lambda ts: ts.start_time)`: a stable sort by start time in string order. */
  function DayOrder(l: seq<TimeSlot>): seq<TimeSlot> {
    Sorting.SortBy(l, StartTime, Strings.LexLess)
  }

  ghost function DaysTotal(toMinutes: string -> int, days: map<string, seq<TimeSlot>>, ds: seq<string>): nat {
    if ds == [] then 0
    else
      var d := ds[|ds| - 1];
      DaysTotal(toMinutes, days, ds[..|ds| - 1]) + (if d in days then AdjacentPairs(toMinutes, DayOrder(days[d])) else 0)
  }

  /** One teacher's back-to-back count. */
  ghost function TeacherBackToBack(slots: map<Id, TimeSlot>, toMinutes: string -> int, l: seq<Id>): nat {
    var g := DayGroups(slots, l);
    DaysTotal(toMinutes, g.entries, g.order)
  }

  /** The back-to-back count summed over the teachers `ts`. */
  ghost function GroupsBackToBack(slots: map<Id, TimeSlot>, toMinutes: string -> int,
                                  lists: map<Id, seq<Id>>, ts: seq<Id>): nat
  {
    if ts == [] then 0
    else
      var t := ts[|ts| - 1];
      GroupsBackToBack(slots, toMinutes, lists, ts[..|ts| - 1])
      + (if t in lists then TeacherBackToBack(slots, toMinutes, lists[t]) else 0)
  }

  /** Each day's sessions are put in start-time order, as a stable rearrangement of that day's sessions. */
  lemma DayOrderFacts(l: seq<TimeSlot>)
    ensures Sorting.SortedBy(DayOrder(l), StartTime, Strings.LexLess)
    ensures multiset(DayOrder(l)) == multiset(l)
    ensures forall k :: Sorting.WithKey(DayOrder(l), StartTime, k) == Sorting.WithKey(l, StartTime, k)
  {
    Strings.LexOrder();
    Sorting.SortByFacts(l, StartTime, Strings.LexLess);
  }

  /**
   * When no two of a day's sessions share a start time, the day's count
   * depends only on which sessions it has, not on the order the timetable
   * listed them in.
   */
  lemma DayCountOrderFree(toMinutes: string -> int, l1: seq<TimeSlot>, l2: seq<TimeSlot>)
    requires multiset(l1) == multiset(l2) && Sorting.DistinctKeys(l1, StartTime)
    ensures DayOrder(l1) == DayOrder(l2)
    ensures AdjacentPairs(toMinutes, DayOrder(l1)) == AdjacentPairs(toMinutes, DayOrder(l2))
  {
    Strings.LexOrder();
    DayOrderFacts(l1);
    DayOrderFacts(l2);
    Sorting.SortByDistinctKeys(l1, StartTime, Strings.LexLess);
    Sorting.SortedUnique(DayOrder(l1), DayOrder(l2), StartTime, Strings.LexLess);
  }

  /** Groups one teacher's slots by day. */
  method GroupByDay(slots: map<Id, TimeSlot>, l: seq<Id>) returns (days: Keyed<seq<TimeSlot>>)
    requires forall x :: x in l ==> x in slots
    ensures days == DayGroups(slots, l)
  {
    days := EmptyKeyed();
    for i := 0 to |l|
      invariant days == DayGroups(slots, l[..i])
    {
      var ts := slots[l[i]];
      ghost var before := days;
      if ts.day !in days.entries {
        days := days.Put(ts.day, []);
      }
      days := days.Put(ts.day, days.entries[ts.day] + [ts]);
      SetDefaultAppend(before, ts.day, ts, days);
      assert l[..i + 1][..i] == l[..i];
    }
    assert l[..|l|] == l;
  }

  /** Counts one sorted day's back-to-back neighbours. */
  method CountAdjacent(toMinutes: string -> int, sorted: seq<TimeSlot>) returns (n: nat)
    ensures n == AdjacentPairs(toMinutes, sorted)
  {
    n := 0;
    if |sorted| > 1 {
      for i := 0 to |sorted| - 1
        invariant n == AdjacentBefore(toMinutes, sorted, i)
      {
        var endTime1 := toMinutes(sorted[i].endTime);
        var startTime2 := toMinutes(sorted[i + 1].startTime);
        if startTime2 - endTime1 == 0 {
          n := n + 1;
        }
      }
    }
  }

  /** Sorts each day by start time and counts its back-to-back neighbours. */
  method CountDays(toMinutes: string -> int, days: Keyed<seq<TimeSlot>>) returns (n: nat)
    requires days.Valid()
    ensures n == DaysTotal(toMinutes, days.entries, days.order)
  {
    n := 0;
    for k := 0 to |days.order|
      invariant n == DaysTotal(toMinutes, days.entries, days.order[..k])
    {
      var sorted := DayOrder(days.entries[days.order[k]]);
      var c := CountAdjacent(toMinutes, sorted);
      n := n + c;
      assert days.order[..k + 1][..k] == days.order[..k];
    }
    assert days.order[..|days.order|] == days.order;
  }

  /** `back_to_back_sessions`: every teacher's days, in the teacher grouping's order. */
  method BackToBackSessions(groups: Keyed<seq<Id>>, slots: map<Id, TimeSlot>, toMinutes: string -> int)
    returns (n: nat)
    requires groups.Valid()
    requires forall r, x :: r in groups.entries && x in groups.entries[r] ==> x in slots
    ensures n == GroupsBackToBack(slots, toMinutes, groups.entries, groups.order)
  {
    n := 0;
    for k := 0 to |groups.order|
      invariant n == GroupsBackToBack(slots, toMinutes, groups.entries, groups.order[..k])
    {
      var days := GroupByDay(slots, groups.entries[groups.order[k]]);
      DayGroupsFacts(slots, groups.entries[groups.order[k]]);
      var c := CountDays(toMinutes, days);
      n := n + c;
      assert groups.order[..k + 1][..k] == groups.order[..k];
    }
    assert groups.order[..|groups.order|] == groups.order;
  }
}
