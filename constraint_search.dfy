/**
 * Constraint programming over timetables: the hard-constraint check, the
 * recursive backtracking search with undo over one shared solution, the
 * iterative forward-checking loop, and the dispatch between them.
 */
module ConstraintSearch {
  import opened Wrappers
  import opened Sequences
  import opened Domain
  import opened Randomness
  import Sorting

  /** Both courses are known and some student group is listed by both. */
  predicate ShareGroup(data: Dataset, c1: Id, c2: Id) {
    && c1 in data.courses.entries && c2 in data.courses.entries
    && exists g :: g in data.courses.entries[c1].studentGroups && g in data.courses.entries[c2].studentGroups
  }

  /** Course `c1` at `a1` and course `c2` at `a2` clash on no teacher, room or student group. */
  predicate Compatible(data: Dataset, c1: Id, a1: Assignment, c2: Id, a2: Assignment) {
    && !(a1.teacher == a2.teacher && a1.slot == a2.slot)
    && !(a1.room == a2.room && a1.slot == a2.slot)
    && !(ShareGroup(data, c1, c2) && a1.slot == a2.slot)
  }

  /** No two assignments of `sol` clash. */
  ghost predicate Consistent(data: Dataset, sol: Solution) {
    forall c1, c2 :: c1 in sol && c2 in sol && c1 != c2 ==> Compatible(data, c1, sol[c1], c2, sol[c2])
  }

  /**
   * `_check_constraints`: the teacher is free at the slot, the room is free at
   * the slot, and, when the course is known, no known course already placed at
   * the slot lists one of its groups.
   */
  predicate CheckConstraints(data: Dataset, sol: Solution, c: Id, a: Assignment) {
    && (forall e :: e in sol ==> !(sol[e].teacher == a.teacher && sol[e].slot == a.slot))
    && (forall e :: e in sol ==> !(sol[e].room == a.room && sol[e].slot == a.slot))
    && (c in data.courses.entries ==>
          forall g, e :: g in data.courses.entries[c].studentGroups && e in sol ==>
            !(e in data.courses.entries && g in data.courses.entries[e].studentGroups && sol[e].slot == a.slot))
  }

  /** The check holds exactly when the new assignment is compatible with every existing one. */
  lemma CheckMeansCompatible(data: Dataset, sol: Solution, c: Id, a: Assignment)
    ensures CheckConstraints(data, sol, c, a) <==> forall e :: e in sol ==> Compatible(data, c, a, e, sol[e])
  {
    if !CheckConstraints(data, sol, c, a) {
      if c in data.courses.entries {
        if g, e :| g in data.courses.entries[c].studentGroups && e in sol
                   && e in data.courses.entries && g in data.courses.entries[e].studentGroups && sol[e].slot == a.slot {
          assert !Compatible(data, c, a, e, sol[e]);
        }
      }
    }
  }

  /**
   * Adding a course that is not yet placed keeps a consistent solution
   * consistent exactly when the check accepts the new assignment.
   */
  lemma ExtendConsistent(data: Dataset, sol: Solution, c: Id, a: Assignment)
    requires c !in sol && Consistent(data, sol)
    ensures Consistent(data, sol[c := a]) <==> CheckConstraints(data, sol, c, a)
  {
    CheckMeansCompatible(data, sol, c, a);
    var next := sol[c := a];
    if CheckConstraints(data, sol, c, a) {
      forall c1, c2 | c1 in next && c2 in next && c1 != c2 ensures Compatible(data, c1, next[c1], c2, next[c2]) {
        if c1 == c {
          assert Compatible(data, c, a, c2, sol[c2]);
        } else if c2 == c {
          assert Compatible(data, c, a, c1, sol[c1]);
        }
      }
    } else {
      var e :| e in sol && !Compatible(data, c, a, e, sol[e]);
      assert e in next && e != c;
      assert !Compatible(data, e, next[e], c, next[c]);
    }
  }

  /** `|eligible_teachers| * |preferred_rooms|`, the sort key of the backtracking order. */
  function ChoiceCount(data: Dataset, c: Id): int {
    if c in data.courses.entries
    then |data.courses.entries[c].eligibleTeachers| * |data.courses.entries[c].preferredRooms|
    else 0
  }

  /** `ChoiceCount` as the key function of the sort. */
  function ChoiceKey(data: Dataset): Id -> int {
    c => ChoiceCount(data, c)
  }

  function IntLess(): (int, int) -> bool {
    (a: int, b: int) => a < b
  }

  /** The order in which backtracking takes the courses: by ascending `ChoiceCount`, ties in insertion order. */
  function BacktrackOrder(data: Dataset): seq<Id> {
    Sorting.SortBy(data.courses.order, ChoiceKey(data), IntLess())
  }

  /** The backtracking order lists every course once, by non-decreasing choice count, keeping insertion order on ties. */
  lemma BacktrackOrderFacts(data: Dataset)
    requires data.Valid()
    ensures Distinct(BacktrackOrder(data))
    ensures forall c :: c in BacktrackOrder(data) <==> c in data.courses.entries
    ensures forall i, j :: 0 <= i < j < |BacktrackOrder(data)| ==>
      ChoiceCount(data, BacktrackOrder(data)[i]) <= ChoiceCount(data, BacktrackOrder(data)[j])
    ensures forall k :: Sorting.WithKey(BacktrackOrder(data), ChoiceKey(data), k)
                     == Sorting.WithKey(data.courses.order, ChoiceKey(data), k)
  {
    Sorting.IntOrder();
    Sorting.SortByFacts(data.courses.order, ChoiceKey(data), IntLess());
    PermutationDistinct(data.courses.order, BacktrackOrder(data));
  }

  /** `params`: max_iterations and max_unassigned of the forward-checking loop. */
  datatype CpParams = CpParams(maxIterations: int, maxUnassigned: int)

  const DefaultParams: CpParams := CpParams(1000, 0)

  /** The largest number of courses for which `run` tries backtracking first. */
  const BacktrackingLimit: int := 20

  /**
   * `after` extends `before` by exactly the courses of `unassigned`, keeps the
   * assignments `before` made, and is legal and clash-free.
   */
  ghost predicate Completes(data: Dataset, before: Solution, unassigned: seq<Id>, after: Solution) {
    && after.Keys == before.Keys + (set c | c in unassigned)
    && (forall c :: c in before ==> after[c] == before[c])
    && Legal(data, after) && Consistent(data, after)
  }

  /** The courses still to place are known, distinct and not yet placed. */
  ghost predicate Pending(data: Dataset, sol: Solution, unassigned: seq<Id>) {
    && Distinct(unassigned)
    && forall c :: c in unassigned ==> c in data.courses.entries && c !in sol
  }

  /** Placing the first pending course leaves the rest pending and the solution legal and clash-free. */
  lemma PlaceFirst(data: Dataset, sol: Solution, unassigned: seq<Id>, a: Assignment)
    requires Pending(data, sol, unassigned) && unassigned != []
    requires Legal(data, sol) && Consistent(data, sol)
    requires LegalFor(data, unassigned[0], a) && CheckConstraints(data, sol, unassigned[0], a)
    ensures Pending(data, sol[unassigned[0] := a], unassigned[1..])
    ensures Legal(data, sol[unassigned[0] := a]) && Consistent(data, sol[unassigned[0] := a])
  {
    ExtendConsistent(data, sol, unassigned[0], a);
    forall c | c in unassigned[1..] ensures c != unassigned[0] && c in unassigned {
      var m :| 0 <= m < |unassigned[1..]| && unassigned[1..][m] == c;
      assert unassigned[m + 1] == c;
    }
  }

  /** A completion after placing the first course is a completion of the original. */
  lemma CompletesStep(data: Dataset, sol: Solution, unassigned: seq<Id>, a: Assignment, after: Solution)
    requires Pending(data, sol, unassigned) && unassigned != []
    requires Completes(data, sol[unassigned[0] := a], unassigned[1..], after)
    ensures Completes(data, sol, unassigned, after)
  {
    assert forall c :: c in unassigned <==> c == unassigned[0] || c in unassigned[1..] by {
      assert unassigned == [unassigned[0]] + unassigned[1..];
    }
  }

  /** `if result:` in Python: a result counts as success when it is a non-empty solution. */
  predicate Succeeded(result: Option<Solution>) {
    result.Some? && result.value != map[]
  }

  /** No solution completes `before` over `unassigned`. */
  ghost predicate Unsolvable(data: Dataset, before: Solution, unassigned: seq<Id>) {
    forall after :: !Completes(data, before, unassigned, after)
  }

  /**
   * Placing course `c` at `a` next to `sol` is either refused (not legal, or
   * rejected by the check) or leads to no completion of the courses `rest`.
   */
  ghost predicate DeadEnd(data: Dataset, sol: Solution, c: Id, rest: seq<Id>, a: Assignment)
    requires c in data.courses.entries
  {
    !(LegalFor(data, c, a) && CheckConstraints(data, sol, c, a)) || Unsolvable(data, sol[c := a], rest)
  }

  /**
   * A completion of the pending courses places the first one at a legal
   * assignment the check accepts, and completes the rest from there.
   */
  lemma FirstOfCompletion(data: Dataset, sol: Solution, unassigned: seq<Id>, after: Solution)
    requires Pending(data, sol, unassigned) && unassigned != [] && Consistent(data, sol)
    requires Completes(data, sol, unassigned, after)
    ensures unassigned[0] in after
    ensures LegalFor(data, unassigned[0], after[unassigned[0]])
    ensures CheckConstraints(data, sol, unassigned[0], after[unassigned[0]])
    ensures Completes(data, sol[unassigned[0] := after[unassigned[0]]], unassigned[1..], after)
  {
    var c, rest := unassigned[0], unassigned[1..];
    assert forall x :: x in unassigned <==> x == c || x in rest by {
      assert unassigned == [c] + rest;
    }
    var a := after[c];
    forall e | e in sol ensures Compatible(data, c, a, e, sol[e]) {
      assert after[e] == sol[e] && e != c;
    }
    CheckMeansCompatible(data, sol, c, a);
  }

  /**
   * When every legal assignment of the first pending course is a dead end,
   * nothing completes the pending courses.
   */
  lemma NoCompletion(data: Dataset, sol: Solution, unassigned: seq<Id>)
    requires Pending(data, sol, unassigned) && unassigned != [] && Consistent(data, sol)
    requires forall a :: LegalFor(data, unassigned[0], a) ==> DeadEnd(data, sol, unassigned[0], unassigned[1..], a)
    ensures Unsolvable(data, sol, unassigned)
  {
    forall after ensures !Completes(data, sol, unassigned, after) {
      if Completes(data, sol, unassigned, after) {
        FirstOfCompletion(data, sol, unassigned, after);
      }
    }
  }

  /** Some timetable places every course legally without a clash. */
  ghost predicate Solvable(data: Dataset) {
    exists s :: Total(data, s) && Legal(data, s) && Consistent(data, s)
  }

  /** A solvable dataset has a completion of the empty solution over any listing of all courses. */
  lemma SolvableCompletes(data: Dataset, order: seq<Id>)
    requires forall c :: c in order <==> c in data.courses.entries
    requires Unsolvable(data, map[], order)
    ensures !Solvable(data)
  {
    if s :| Total(data, s) && Legal(data, s) && Consistent(data, s) {
      assert Completes(data, map[], order, s);
    }
  }

  /** Course `c` has no legal assignment that the check accepts next to `sol`. */
  ghost predicate Blocked(data: Dataset, sol: Solution, c: Id)
    requires c in data.courses.entries
  {
    forall a :: LegalFor(data, c, a) ==> !CheckConstraints(data, sol, c, a)
  }

  /** Placing another course cannot unblock a blocked one: the clash it had stays. */
  lemma BlockedGrows(data: Dataset, sol: Solution, c: Id, placed: Id, b: Assignment)
    requires c in data.courses.entries && placed !in sol && Blocked(data, sol, c)
    ensures Blocked(data, sol[placed := b], c)
  {
    forall a | LegalFor(data, c, a) ensures !CheckConstraints(data, sol[placed := b], c, a) {
      CheckMeansCompatible(data, sol, c, a);
      CheckMeansCompatible(data, sol[placed := b], c, a);
      var e :| e in sol && !Compatible(data, c, a, e, sol[e]);
      assert sol[placed := b][e] == sol[e];
    }
  }

  /**
   * One forward-checking pass over the courses `done` produced `solution`
   * and `unassigned`: each of them is in exactly one of the two, the
   * solution is legal and clash-free, and every course left out is known and
   * blocked by the solution.
   */
  ghost predicate Partition(data: Dataset, done: seq<Id>, solution: Solution, unassigned: seq<Id>) {
    && Distinct(unassigned)
    && (forall c :: c in done <==> c in solution || c in unassigned)
    && (forall c :: !(c in solution && c in unassigned))
    && |solution| + |unassigned| == |done|
    && Legal(data, solution) && Consistent(data, solution)
    && (forall c :: c in unassigned ==> c in data.courses.entries && Blocked(data, solution, c))
  }

  /** Placing one more course by a checked legal assignment keeps the partition. */
  lemma PartitionPlace(data: Dataset, done: seq<Id>, solution: Solution, unassigned: seq<Id>, c: Id, a: Assignment)
    requires Partition(data, done, solution, unassigned) && c !in done && c in data.courses.entries
    requires LegalFor(data, c, a) && CheckConstraints(data, solution, c, a)
    ensures Partition(data, done + [c], solution[c := a], unassigned)
  {
    ExtendConsistent(data, solution, c, a);
    forall u | u in unassigned ensures Blocked(data, solution[c := a], u) {
      BlockedGrows(data, solution, u, c, a);
    }
  }

  /** Leaving one more course unassigned keeps the partition. */
  lemma PartitionSkip(data: Dataset, done: seq<Id>, solution: Solution, unassigned: seq<Id>, c: Id)
    requires Partition(data, done, solution, unassigned) && c !in done
    requires c in data.courses.entries && Blocked(data, solution, c)
    ensures Partition(data, done + [c], solution, unassigned + [c])
  {
  }

  /** Legal, clash-free and over known courses only: what every answer of the search satisfies. */
  ghost predicate Sound(data: Dataset, sol: Solution) {
    Legal(data, sol) && Consistent(data, sol) && sol.Keys <= data.courses.entries.Keys
  }

  /** A pass over all courses places or leaves out each known course, and only those. */
  lemma PartitionCovers(data: Dataset, solution: Solution, unassigned: seq<Id>)
    requires data.Valid() && Partition(data, data.courses.order, solution, unassigned)
    ensures forall c :: c in data.courses.entries <==> c in solution || c in unassigned
    ensures solution.Keys <= data.courses.entries.Keys
    ensures |unassigned| == |data.courses.order| - |solution|
    ensures forall c :: c in unassigned ==> c in data.courses.entries && Blocked(data, solution, c)
  {
  }

  ghost predicate NonIncreasing(s: seq<int>) {
    forall i, j :: 0 <= i <= j < |s| ==> s[j] <= s[i]
  }


  /** The stopping rule of forward checking held after pass `n`: it improved the best count to at most `maxUnassigned`. */
  ghost predicate StopsAt(history: seq<int>, n: int, maxUnassigned: int)
    requires 1 <= n < |history|
  {
    history[n] < history[n - 1] && history[n] <= maxUnassigned
  }

  /**
   * What iterative forward checking guarantees of its answer `best` and of
   * `history`, the best unassigned count before the loop and after each
   * pass: the answer is sound and leaves the last count unassigned, the
   * counts never increase, no pass before the last met the stopping rule,
   * and a loop that ran fewer than `maxIterations` passes stopped because
   * the last pass met it.
   */
  ghost predicate ForwardChecked(data: Dataset, params: CpParams, best: Solution, history: seq<int>) {
    && Sound(data, best)
    && 1 <= |history| <= 1 + (if params.maxIterations < 0 then 0 else params.maxIterations)
    && history[0] == |data.courses.order|
    && history[|history| - 1] == |data.courses.order| - |best|
    && NonIncreasing(history)
    && (forall n :: 1 <= n < |history| - 1 ==> !StopsAt(history, n, params.maxUnassigned))
    && (|history| - 1 < params.maxIterations ==> |history| >= 2 && StopsAt(history, |history| - 1, params.maxUnassigned))
  }

  /**
   * Recording one more pass whose count is no larger keeps the history
   * non-increasing, keeps the earlier passes short of the stopping rule, and
   * the new pass meets the rule exactly when it improved to at most `maxUnassigned`.
   */
  lemma AppendHistory(history: seq<int>, x: int, maxUnassigned: int)
    requires history != [] && NonIncreasing(history) && x <= history[|history| - 1]
    requires forall n :: 1 <= n < |history| ==> !StopsAt(history, n, maxUnassigned)
    ensures NonIncreasing(history + [x])
    ensures forall n :: 1 <= n < |history| ==> !StopsAt(history + [x], n, maxUnassigned)
    ensures StopsAt(history + [x], |history|, maxUnassigned) <==> x < history[|history| - 1] && x <= maxUnassigned
  {
    forall n | 1 <= n < |history| ensures !StopsAt(history + [x], n, maxUnassigned) {
      assert !StopsAt(history, n, maxUnassigned);
      assert (history + [x])[n] == history[n] && (history + [x])[n - 1] == history[n - 1];
    }
  }

  class ConstraintProgramming {
    const data: Dataset
    const params: CpParams
    /** The solution dict that `_backtrack` extends and undoes in place. */
    var working: Solution

    /** `__init__`; `params` is None when the caller passes None or an empty dict. */
    constructor (data: Dataset, params: Option<CpParams>)
      requires data.Valid()
      ensures this.data == data && this.params == params.GetOr(DefaultParams)
      ensures working == map[]
    {
      this.data := data;
      this.params := params.GetOr(DefaultParams);
      working := map[];
    }

    /**
     * `_backtrack`: place the first unassigned course at the first compatible
     * (teacher, room, slot) in source order, recurse on the others, and undo the
     * placement when the recursion fails. A result counts as success only when
     * it is a non-empty solution. The loop over teachers is here; the loops
     * over rooms and slots are `BacktrackTeacher` and `BacktrackRoom`.
     */
    method Backtrack(unassigned: seq<Id>) returns (result: Option<Solution>)
      requires data.Valid()
      requires Pending(data, working, unassigned)
      requires Legal(data, working) && Consistent(data, working)
      modifies this`working
      ensures result.None? ==> working == old(working) && Unsolvable(data, old(working), unassigned)
      ensures result.Some? ==> result.value == working && Completes(data, old(working), unassigned, working)
      decreases |unassigned|, 3
    {
      if unassigned == [] {
        return Some(working);
      }
      var teachers := data.courses.entries[unassigned[0]].eligibleTeachers;
      for i := 0 to |teachers|
        invariant working == old(working)
        invariant forall a: Assignment :: a.teacher in teachers[..i] ==>
          DeadEnd(data, working, unassigned[0], unassigned[1..], a)
      {
        result := BacktrackTeacher(unassigned, teachers[i]);
        if Succeeded(result) {
          return result;
        }
        assert teachers[..i + 1] == teachers[..i] + [teachers[i]];
      }
      assert teachers[..|teachers|] == teachers;
      NoCompletion(data, working, unassigned);
      return None;
    }

    /** The loop of `_backtrack` over the preferred rooms, for one teacher. */
    method BacktrackTeacher(unassigned: seq<Id>, teacher: Id) returns (result: Option<Solution>)
      requires data.Valid()
      requires Pending(data, working, unassigned) && unassigned != []
      requires Legal(data, working) && Consistent(data, working)
      requires teacher in data.courses.entries[unassigned[0]].eligibleTeachers
      modifies this`working
      ensures Succeeded(result) ==> result.value == working && Completes(data, old(working), unassigned, working)
      ensures !Succeeded(result) ==> working == old(working)
      ensures !Succeeded(result) ==> forall a: Assignment :: a.teacher == teacher ==>
        DeadEnd(data, working, unassigned[0], unassigned[1..], a)
      decreases |unassigned|, 2
    {
      var rooms := data.courses.entries[unassigned[0]].preferredRooms;
      result := None;
      for j := 0 to |rooms|
        invariant working == old(working) && !Succeeded(result)
        invariant forall a: Assignment :: a.teacher == teacher && a.room in rooms[..j] ==>
          DeadEnd(data, working, unassigned[0], unassigned[1..], a)
      {
        result := BacktrackRoom(unassigned, teacher, rooms[j]);
        if Succeeded(result) {
          return result;
        }
        assert rooms[..j + 1] == rooms[..j] + [rooms[j]];
      }
      assert rooms[..|rooms|] == rooms;
    }

    /** The loop of `_backtrack` over the time slots, for one teacher and room. */
    method BacktrackRoom(unassigned: seq<Id>, teacher: Id, room: Id) returns (result: Option<Solution>)
      requires data.Valid()
      requires Pending(data, working, unassigned) && unassigned != []
      requires Legal(data, working) && Consistent(data, working)
      requires teacher in data.courses.entries[unassigned[0]].eligibleTeachers
      requires room in data.courses.entries[unassigned[0]].preferredRooms
      modifies this`working
      ensures Succeeded(result) ==> result.value == working && Completes(data, old(working), unassigned, working)
      ensures !Succeeded(result) ==> working == old(working)
      ensures !Succeeded(result) ==> forall a: Assignment :: a.teacher == teacher && a.room == room ==>
        DeadEnd(data, working, unassigned[0], unassigned[1..], a)
      decreases |unassigned|, 1
    {
      var slots := data.timeSlots.order;
      result := None;
      for k := 0 to |slots|
        invariant working == old(working) && !Succeeded(result)
        invariant forall a: Assignment :: a.teacher == teacher && a.room == room && a.slot in slots[..k] ==>
          DeadEnd(data, working, unassigned[0], unassigned[1..], a)
      {
        var a := Assignment(teacher, room, slots[k]);
        if CheckConstraints(data, working, unassigned[0], a) {
          result := Place(unassigned, a);
          if Succeeded(result) {
            return result;
          }
        }
        assert slots[..k + 1] == slots[..k] + [slots[k]];
      }
      assert slots[..|slots|] == slots;
    }

    /**
     * One placement of `_backtrack`: assign `a` to the first unassigned course
     * and recurse; on failure the assignment is removed again.
     */
    method Place(unassigned: seq<Id>, a: Assignment) returns (result: Option<Solution>)
      requires data.Valid()
      requires Pending(data, working, unassigned) && unassigned != []
      requires Legal(data, working) && Consistent(data, working)
      requires LegalFor(data, unassigned[0], a) && CheckConstraints(data, working, unassigned[0], a)
      modifies this`working
      ensures Succeeded(result) ==> result.value == working && Completes(data, old(working), unassigned, working)
      ensures !Succeeded(result) ==>
                working == old(working) && Unsolvable(data, old(working)[unassigned[0] := a], unassigned[1..])
      decreases |unassigned|, 0
    {
      var courseId := unassigned[0];
      PlaceFirst(data, working, unassigned, a);
      working := working[courseId := a];
      result := Backtrack(unassigned[1..]);
      if Succeeded(result) {
        CompletesStep(data, old(working), unassigned, a, working);
        return result;
      }
      working := working - {courseId};
      assert working == old(working) by {
        assert courseId !in old(working);
      }
    }

    /** `_backtracking_search`: backtrack from an empty solution over the courses in `BacktrackOrder`. */
    method BacktrackingSearch() returns (result: Option<Solution>)
      requires data.Valid()
      modifies this`working
      ensures result.Some? ==> Total(data, result.value) && Legal(data, result.value) && Consistent(data, result.value)
      ensures result.None? ==> !Solvable(data)
    {
      working := map[];
      var unassignedCourses := BacktrackOrder(data);
      BacktrackOrderFacts(data);
      result := Backtrack(unassignedCourses);
      if result.None? {
        SolvableCompletes(data, unassignedCourses);
      }
    }

    /**
     * Every legal assignment for course `c` that the check accepts next to
     * `sol`, in the order of the three nested loops.
     */
    method CompatibleAssignments(sol: Solution, c: Id) returns (assignments: seq<Assignment>)
      requires data.Valid() && c in data.courses.entries
      ensures forall a :: a in assignments <==> LegalFor(data, c, a) && CheckConstraints(data, sol, c, a)
    {
      var course := data.courses.entries[c];
      var slots := data.timeSlots.order;
      assignments := [];
      var i := 0;
      while i < |course.eligibleTeachers|
        invariant 0 <= i <= |course.eligibleTeachers|
        invariant forall a :: a in assignments <==>
          LegalFor(data, c, a) && CheckConstraints(data, sol, c, a) && a.teacher in course.eligibleTeachers[..i]
      {
        var j := 0;
        while j < |course.preferredRooms|
          invariant 0 <= j <= |course.preferredRooms|
          invariant forall a :: a in assignments <==>
            LegalFor(data, c, a) && CheckConstraints(data, sol, c, a)
            && (a.teacher in course.eligibleTeachers[..i]
                || (a.teacher == course.eligibleTeachers[i] && a.room in course.preferredRooms[..j]))
        {
          var k := 0;
          while k < |slots|
            invariant 0 <= k <= |slots|
            invariant forall a :: a in assignments <==>
              LegalFor(data, c, a) && CheckConstraints(data, sol, c, a)
              && (a.teacher in course.eligibleTeachers[..i]
                  || (a.teacher == course.eligibleTeachers[i] && a.room in course.preferredRooms[..j])
                  || (a.teacher == course.eligibleTeachers[i] && a.room == course.preferredRooms[j] && a.slot in slots[..k]))
          {
            var a := Assignment(course.eligibleTeachers[i], course.preferredRooms[j], slots[k]);
            if CheckConstraints(data, sol, c, a) {
              assignments := assignments + [a];
            }
            assert slots[..k + 1] == slots[..k] + [slots[k]];
            k := k + 1;
          }
          assert slots[..k] == slots;
          assert course.preferredRooms[..j + 1] == course.preferredRooms[..j] + [course.preferredRooms[j]];
          j := j + 1;
        }
        assert course.preferredRooms[..j] == course.preferredRooms;
        assert course.eligibleTeachers[..i + 1] == course.eligibleTeachers[..i] + [course.eligibleTeachers[i]];
        i := i + 1;
      }
      assert course.eligibleTeachers[..i] == course.eligibleTeachers;
    }

    /**
     * One pass of `_iterative_forward_checking`: each course in insertion order
     * gets a random compatible legal assignment, or joins `unassigned` when it
     * has none.
     */
    method ForwardPass() returns (solution: Solution, unassigned: seq<Id>)
      requires data.Valid()
      ensures Distinct(unassigned)
      ensures forall c :: c in data.courses.entries <==> c in solution || c in unassigned
      ensures forall c :: !(c in solution && c in unassigned)
      ensures Sound(data, solution) && |unassigned| == |data.courses.order| - |solution|
      ensures forall c :: c in unassigned ==> c in data.courses.entries && Blocked(data, solution, c)
    {
      var order := data.courses.order;
      solution, unassigned := map[], [];
      for i := 0 to |order|
        invariant Partition(data, order[..i], solution, unassigned)
      {
        var courseId := order[i];
        NextOfDistinct(order, i);
        var assignments := CompatibleAssignments(solution, courseId);
        if assignments != [] {
          var a := Choice(assignments);
          PartitionPlace(data, order[..i], solution, unassigned, courseId, a);
          solution := solution[courseId := a];
        } else {
          PartitionSkip(data, order[..i], solution, unassigned, courseId);
          unassigned := unassigned + [courseId];
        }
      }
      assert order[..|order|] == order;
      PartitionCovers(data, solution, unassigned);
    }

    /**
     * `_iterative_forward_checking`: up to `max_iterations` passes, keeping the
     * pass with the fewest unassigned courses and stopping once that number is
     * at most `max_unassigned`. `history` records `best_unassigned` before the
     * loop and after each pass.
     */
    method IterativeForwardChecking() returns (best: Solution, ghost history: seq<int>)
      requires data.Valid()
      ensures ForwardChecked(data, params, best, history)
    {
      KeyedSize(data.courses);
      best := map[];
      var bestUnassigned := |data.courses.order|;
      history := [bestUnassigned];
      var iteration := 0;
      var stop := false;
      while iteration < params.maxIterations && !stop
        invariant 0 <= iteration && |history| == iteration + 1
        invariant iteration <= params.maxIterations || iteration == 0
        invariant Sound(data, best)
        invariant history[0] == |data.courses.order| && history[iteration] == bestUnassigned
        invariant bestUnassigned == |data.courses.order| - |best|
        invariant NonIncreasing(history)
        invariant forall n :: 1 <= n < iteration ==> !StopsAt(history, n, params.maxUnassigned)
        invariant stop <==> iteration >= 1 && StopsAt(history, iteration, params.maxUnassigned)
        decreases params.maxIterations - iteration
      {
        var solution, unassigned := ForwardPass();
        var improved := |unassigned| < bestUnassigned;
        if improved {
          best := solution;
          bestUnassigned := |unassigned|;
        }
        AppendHistory(history, bestUnassigned, params.maxUnassigned);
        history := history + [bestUnassigned];
        iteration := iteration + 1;
        stop := improved && bestUnassigned <= params.maxUnassigned;
      }
    }

    /**
     * `run`: with at most 20 courses try backtracking, and return its result
     * when it is a non-empty solution; otherwise run forward checking.
     * `backtracked` says which of the two produced the answer, and `history`
     * is the forward-checking history when forward checking produced it.
     */
    method Run() returns (solution: Solution, ghost backtracked: bool, ghost history: seq<int>)
      requires data.Valid()
      modifies this`working
      ensures Legal(data, solution) && Consistent(data, solution) && solution.Keys <= data.courses.entries.Keys
      ensures backtracked ==> |data.courses.order| <= BacktrackingLimit && Total(data, solution) && solution != map[]
      ensures |data.courses.order| <= BacktrackingLimit && data.courses.order != [] && Solvable(data) ==> backtracked
      ensures !backtracked ==> ForwardChecked(data, params, solution, history)
    {
      backtracked, history := false, [];
      if |data.courses.order| <= BacktrackingLimit {
        var result := BacktrackingSearch();
        if Succeeded(result) {
          backtracked := true;
          solution := result.value;
          return;
        }
        if result.Some? && data.courses.order != [] {
          assert data.courses.order[0] in result.value;
        }
      }
      solution, history := IterativeForwardChecking();
    }
  }
}
