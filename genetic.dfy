/**
 * The genetic algorithm over timetables: random construction (no skipping),
 * the fitness, tournament selection, one-point crossover over the course
 * order, per-course mutation, elitism and the generation loop.
 *
 * Timetables are values here. In the source, crossover without a cut returns
 * `parent1.copy()` and elitism keeps `.copy()` of a member; both copies are
 * shallow, so mutation's writes into per-course dicts also reach the parent,
 * the elite and possibly the recorded best solution. The model does not
 * reproduce that sharing.
 */
module Genetic {
  import opened Wrappers
  import opened Sequences
  import opened Domain
  import opened Repetition
  import opened Randomness
  import Annealing

  /** Python's IndexError from `random.choice` on an empty sequence. */
  datatype IndexError = EmptySequence

  /** Every course has an eligible teacher and a preferred room, and some time slot exists. */
  ghost predicate Buildable(data: Dataset) {
    forall c :: c in data.courses.entries ==>
      data.courses.entries[c].eligibleTeachers != []
      && data.courses.entries[c].preferredRooms != []
      && data.timeSlots.order != []
  }

  /** A legal timetable for every course can exist only when every course is buildable. */
  lemma LegalTotalMeansBuildable(data: Dataset, t: Solution)
    requires data.Valid() && Total(data, t) && Legal(data, t)
    ensures Buildable(data)
  {
    forall c | c in data.courses.entries
      ensures data.courses.entries[c].eligibleTeachers != [] && data.courses.entries[c].preferredRooms != []
      ensures data.timeSlots.order != []
    {
      assert c in t && LegalFor(data, c, t[c]);
      assert t[c].slot in data.timeSlots.order;
    }
  }

  /** `_generate_random_timetable`: a legal assignment for every course, or IndexError when some course cannot get one. */
  method GenerateRandomTimetable(data: Dataset) returns (r: Result<Solution, IndexError>)
    requires data.Valid()
    ensures r.Success? <==> Buildable(data)
    ensures r.Success? ==> Total(data, r.value) && Legal(data, r.value)
  {
    var timetable: Solution := map[];
    var order := data.courses.order;
    var i := 0;
    while i < |order|
      invariant 0 <= i <= |order|
      invariant forall j :: 0 <= j < i ==> order[j] in timetable
      invariant Legal(data, timetable)
      invariant forall j :: 0 <= j < i ==> CourseBuildable(data, order[j])
    {
      var courseId := order[i];
      var course := data.courses.entries[courseId];
      if course.eligibleTeachers == [] {
        NotBuildable(data, courseId);
        return Failure(EmptySequence);
      }
      var teacher := Choice(course.eligibleTeachers);
      if course.preferredRooms == [] {
        NotBuildable(data, courseId);
        return Failure(EmptySequence);
      }
      var room := Choice(course.preferredRooms);
      if data.timeSlots.order == [] {
        NotBuildable(data, courseId);
        return Failure(EmptySequence);
      }
      var slot := Choice(data.timeSlots.order);
      timetable := timetable[courseId := Assignment(teacher, room, slot)];
      i := i + 1;
    }
    BuiltAll(data, timetable);
    return Success(timetable);
  }

  /** Course `c` has an eligible teacher and a preferred room, and some time slot exists. */
  ghost predicate CourseBuildable(data: Dataset, c: Id)
    requires c in data.courses.entries
  {
    data.courses.entries[c].eligibleTeachers != [] && data.courses.entries[c].preferredRooms != []
    && data.timeSlots.order != []
  }

  lemma NotBuildable(data: Dataset, c: Id)
    requires c in data.courses.entries && !CourseBuildable(data, c)
    ensures !Buildable(data)
  {
  }

  /** Once every course of the order has an entry, the timetable is total and every course was buildable. */
  lemma BuiltAll(data: Dataset, t: Solution)
    requires data.Valid() && Legal(data, t)
    requires forall j :: 0 <= j < |data.courses.order| ==> data.courses.order[j] in t
    requires forall j :: 0 <= j < |data.courses.order| ==> CourseBuildable(data, data.courses.order[j])
    ensures Total(data, t) && Buildable(data)
  {
    forall c | c in data.courses.entries ensures c in t && CourseBuildable(data, c) {
      var j :| 0 <= j < |data.courses.order| && data.courses.order[j] == c;
    }
  }

  /** The number of students per mentor the fitness aims for. */
  const MentorGroupTarget: int := 4

  /** The courses of `t` listed in `group.courses` and taught by `m`. */
  function TaughtInGroup(t: Solution, group: StudentGroup, m: Id): set<Id> {
    set c | c in t && c in group.courses && t[c].teacher == m
  }

  /**
   * The count for mentor `m` over the groups listed: `len(group.students)` once
   * for every course of the timetable that the group lists and `m` teaches.
   * Students are counted with multiplicity.
   */
  function MentorCount(data: Dataset, t: Solution, m: Id, groups: seq<Id>): nat
    requires forall g :: g in groups ==> g in data.studentGroups.entries
  {
    if groups == [] then 0
    else
      var group := data.studentGroups.entries[groups[0]];
      |group.students| * |TaughtInGroup(t, group, m)| + MentorCount(data, t, m, groups[1..])
  }

  /** Σ over the mentor teachers among `teachers` of |count − 4|. */
  function MentorPenalty(data: Dataset, t: Solution, teachers: seq<Id>): nat
    requires data.Valid()
    requires forall m :: m in teachers ==> m in data.teachers.entries
  {
    if teachers == [] then 0
    else
      var m := teachers[0];
      (if data.teachers.entries[m].isMentor
       then Annealing.Abs(MentorCount(data, t, m, data.studentGroups.order) - MentorGroupTarget)
       else 0)
      + MentorPenalty(data, t, teachers[1..])
  }

  /** Every mentor teacher's count is exactly four. */
  ghost predicate MentorCountsBalanced(data: Dataset, t: Solution)
    requires data.Valid()
  {
    forall m :: m in data.teachers.entries && data.teachers.entries[m].isMentor ==>
      MentorCount(data, t, m, data.studentGroups.order) == MentorGroupTarget
  }

  lemma {:induction false} MentorPenaltyZero(data: Dataset, t: Solution, teachers: seq<Id>)
    requires data.Valid()
    requires forall m :: m in teachers ==> m in data.teachers.entries
    ensures MentorPenalty(data, t, teachers) == 0
        <==> forall m :: m in teachers && data.teachers.entries[m].isMentor ==>
               MentorCount(data, t, m, data.studentGroups.order) == MentorGroupTarget
  {
    if teachers != [] {
      MentorPenaltyZero(data, t, teachers[1..]);
      assert forall m :: m in teachers <==> m == teachers[0] || m in teachers[1..];
    }
  }

  /**
   * `_calculate_fitness`: minus (100 per teacher repeat, 100 per room repeat,
   * 50 per unit of mentor-count deviation).
   */
  function Fitness(data: Dataset, t: Solution): (f: int)
    requires data.Valid()
    ensures f <= 0 && f % 50 == 0
    ensures f == 0 <==> ClashFree(t, false) && ClashFree(t, true) && MentorCountsBalanced(data, t)
  {
    MentorPenaltyZero(data, t, data.teachers.order);
    var teacherConflictPenalty := 100 * Repeats(t, false);
    var roomConflictPenalty := 100 * Repeats(t, true);
    var mentorGroupPenalty := 50 * MentorPenalty(data, t, data.teachers.order);
    -(teacherConflictPenalty + roomConflictPenalty + mentorGroupPenalty)
  }

  /** With no mentor teacher, the fitness is exactly the negated annealing cost. */
  lemma FitnessIsNegatedCostWithoutMentors(data: Dataset, t: Solution)
    requires data.Valid()
    requires forall m :: m in data.teachers.entries ==> !data.teachers.entries[m].isMentor
    ensures Fitness(data, t) == -Annealing.Cost(data, t)
  {
    MentorPenaltyZero(data, t, data.teachers.order);
    Annealing.MentorDeviationZero(data, t, data.teachers.order);
  }

  function PopulationFitness(data: Dataset, population: seq<Solution>): (r: seq<int>)
    requires data.Valid()
    ensures |r| == |population| && forall i :: 0 <= i < |r| ==> r[i] == Fitness(data, population[i])
  {
    seq(|population|, i requires 0 <= i < |population| => Fitness(data, population[i]))
  }

  /** `values.index(max(values))`: the first position of the largest value; `max` fails on an empty list. */
  method IndexOfMax(values: seq<int>) returns (w: nat)
    requires |values| > 0
    ensures w < |values|
    ensures forall i :: 0 <= i < |values| ==> values[i] <= values[w]
    ensures forall i :: 0 <= i < w ==> values[i] < values[w]
  {
    w := 0;
    var i := 1;
    while i < |values|
      invariant 1 <= i <= |values| && w < i
      invariant forall j :: 0 <= j < i ==> values[j] <= values[w]
      invariant forall j :: 0 <= j < w ==> values[j] < values[w]
    {
      if values[i] > values[w] {
        w := i;
      }
      i := i + 1;
    }
  }

  /**
   * The child of a crossover at `cut` over the courses in `order`: a course at
   * position below `cut` takes parent1's assignment, any other parent2's.
   */
  function Splice(order: seq<Id>, parent1: Solution, parent2: Solution, cut: int): (child: Solution)
    requires Distinct(order)
    requires forall c :: c in order ==> c in parent1 && c in parent2
    ensures child.Keys == set c | c in order
    ensures forall i :: 0 <= i < |order| ==>
      child[order[i]] == (if i < cut then parent1[order[i]] else parent2[order[i]])
    decreases |order|
  {
    if order == [] then map[]
    else
      var n := |order| - 1;
      var front := order[..n];
      assert forall c :: c in order <==> c in front || c == order[n];
      Splice(front, parent1, parent2, cut)[order[n] := if n < cut then parent1[order[n]] else parent2[order[n]]]
  }

  /**
   * `_crossover` with its random decisions as arguments: `draw` is the
   * `random.random()` value and `cut` the `random.randint(1, n - 1)` value,
   * used only when `draw` does not exceed the crossover rate. Indexing the
   * parents by every course id fails on a parent that lacks one.
   */
  function Crossover(data: Dataset, parent1: Solution, parent2: Solution, draw: real, crossoverRate: real, cut: int): (child: Solution)
    requires data.Valid()
    requires draw <= crossoverRate ==> 1 <= cut <= |data.courses.order| - 1
    requires draw <= crossoverRate ==> data.courses.entries.Keys <= parent1.Keys && data.courses.entries.Keys <= parent2.Keys
    ensures draw > crossoverRate ==> child == parent1
    ensures draw <= crossoverRate ==> Total(data, child)
    ensures draw <= crossoverRate ==> forall i :: 0 <= i < |data.courses.order| ==>
      child[data.courses.order[i]] == (if i < cut then parent1 else parent2)[data.courses.order[i]]
  {
    if draw > crossoverRate then parent1
    else
      var courses := data.courses.order;
      assert (set c | c in courses) == data.courses.entries.Keys;
      Splice(courses, parent1, parent2, cut)
  }

  /** A crossover of two legal parents is legal. */
  lemma CrossoverKeepsLegal(data: Dataset, parent1: Solution, parent2: Solution, draw: real, crossoverRate: real, cut: int)
    requires data.Valid()
    requires draw <= crossoverRate ==> 1 <= cut <= |data.courses.order| - 1
    requires Total(data, parent1) && Total(data, parent2)
    requires Legal(data, parent1) && Legal(data, parent2)
    ensures Legal(data, Crossover(data, parent1, parent2, draw, crossoverRate, cut))
  {
    var child := Crossover(data, parent1, parent2, draw, crossoverRate, cut);
    if draw <= crossoverRate {
      forall c | c in child ensures c in data.courses.entries && LegalFor(data, c, child[c]) {
        var i :| 0 <= i < |data.courses.order| && data.courses.order[i] == c;
        assert child[c] == (if i < cut then parent1 else parent2)[c];
      }
    }
  }

  /**
   * `_mutation`: each course, with probability `mutationRate`, has one of its
   * three fields redrawn from its legal set. The source visits the courses in
   * insertion order; each course is handled on its own, so the order does not
   * change which results are possible. The time-slot draw has no emptiness
   * guard and fails when there are no time slots.
   */
  method Mutation(data: Dataset, timetable: Solution, mutationRate: real) returns (mutated: Solution)
    requires data.Valid()
    requires timetable.Keys <= data.courses.entries.Keys
    requires timetable == map[] || data.timeSlots.order != [] || mutationRate <= 0.0
    ensures mutated.Keys == timetable.Keys
    ensures forall c :: c in timetable ==> LegalEdit(data, c, timetable[c], mutated[c])
    ensures Legal(data, timetable) ==> Legal(data, mutated)
  {
    mutated := timetable;
    var remaining := timetable.Keys;
    while remaining != {}
      invariant remaining <= timetable.Keys
      invariant mutated.Keys == timetable.Keys
      invariant forall c :: c in timetable && c !in remaining ==> LegalEdit(data, c, timetable[c], mutated[c])
      invariant forall c :: c in remaining ==> mutated[c] == timetable[c]
      decreases remaining
    {
      var courseId :| courseId in remaining;
      var draw := Random();
      if draw < mutationRate {
        var course := data.courses.entries[courseId];
        var mutationType := Choice([Annealing.TeacherField, Annealing.RoomField, Annealing.SlotField]);
        if mutationType == Annealing.TeacherField && course.eligibleTeachers != [] {
          var teacher := Choice(course.eligibleTeachers);
          mutated := mutated[courseId := mutated[courseId].(teacher := teacher)];
        } else if mutationType == Annealing.RoomField && course.preferredRooms != [] {
          var room := Choice(course.preferredRooms);
          mutated := mutated[courseId := mutated[courseId].(room := room)];
        } else if mutationType == Annealing.SlotField {
          var slot := Choice(data.timeSlots.order);
          mutated := mutated[courseId := mutated[courseId].(slot := slot)];
        }
      }
      remaining := remaining - {courseId};
    }
    if Legal(data, timetable) {
      forall c | c in mutated ensures c in data.courses.entries && LegalFor(data, c, mutated[c]) {
        LegalEditKeepsLegal(data, c, timetable[c], mutated[c]);
      }
    }
  }

  /** Position `p` of `rest` holds a largest value among the first `n`. */
  predicate LargestAt(values: seq<int>, rest: seq<nat>, n: nat, p: nat)
    requires n <= |rest| && forall q :: 0 <= q < |rest| ==> rest[q] < |values|
  {
    p < n && forall q :: 0 <= q < n ==> values[rest[q]] <= values[rest[p]]
  }

  /** Some position of `rest` holds a largest value. */
  lemma LargestExists(values: seq<int>, rest: seq<nat>)
    requires |rest| > 0
    requires forall q :: 0 <= q < |rest| ==> rest[q] < |values|
    ensures exists p: nat :: LargestAt(values, rest, |rest|, p)
  {
    var w := LargestAmong(values, rest, |rest|);
  }

  /** A position among the first `n` of `rest` holding the largest of their values. */
  lemma {:induction false} LargestAmong(values: seq<int>, rest: seq<nat>, n: nat) returns (p: nat)
    requires 0 < n <= |rest|
    requires forall q :: 0 <= q < |rest| ==> rest[q] < |values|
    ensures LargestAt(values, rest, n, p)
  {
    if n == 1 {
      p := 0;
    } else {
      p := LargestAmong(values, rest, n - 1);
      if values[rest[n - 1]] > values[rest[p]] {
        p := n - 1;
      }
    }
  }

  /** Removing position `p` of a distinct sequence removes exactly its element. */
  lemma Removal(rest: seq<nat>, p: nat)
    requires Distinct(rest) && p < |rest|
    ensures Distinct(rest[..p] + rest[p + 1..])
    ensures |rest[..p] + rest[p + 1..]| == |rest| - 1
    ensures forall k :: k in rest[..p] + rest[p + 1..] <==> k in rest && k != rest[p]
  {
    var remaining := rest[..p] + rest[p + 1..];
    assert forall q :: 0 <= q < |remaining| ==> remaining[q] == rest[if q < p then q else q + 1];
    forall q1, q2 | 0 <= q1 < q2 < |remaining| ensures remaining[q1] != remaining[q2] {
      assert remaining[q1] == rest[if q1 < p then q1 else q1 + 1];
      assert remaining[q2] == rest[if q2 < p then q2 else q2 + 1];
    }
    forall k | k in rest && k != rest[p] ensures k in remaining {
      var q :| 0 <= q < |rest| && rest[q] == k;
      assert q != p;
      assert remaining[if q < p then q else q - 1] == k;
    }
  }

  /** The positions of the `count` best values, best first. */
  ghost predicate TopRanked(values: seq<int>, elites: seq<nat>) {
    && Distinct(elites)
    && (forall i :: 0 <= i < |elites| ==> elites[i] < |values|)
    && (forall i, j :: 0 <= i < j < |elites| ==> values[elites[j]] <= values[elites[i]])
    && (forall i, k :: 0 <= i < |elites| && 0 <= k < |values| && k !in elites ==> values[k] <= values[elites[i]])
  }

  /** The loop state of `SelectElites`: `elites` ranked so far, `rest` the positions not yet ranked, none better than a ranked one. */
  ghost predicate Ranking(values: seq<int>, elites: seq<nat>, rest: seq<nat>) {
    && Distinct(rest)
    && |elites| + |rest| == |values|
    && TopRanked(values, elites)
    && (forall q :: 0 <= q < |rest| ==> rest[q] < |values|)
    && (forall k :: 0 <= k < |values| ==> (k in elites <==> k !in rest))
    && (forall i, q :: 0 <= i < |elites| && 0 <= q < |rest| ==> values[rest[q]] <= values[elites[i]])
  }

  /** Moving a largest remaining position to the end of the ranking keeps the loop state. */
  lemma RankingStep(values: seq<int>, elites: seq<nat>, rest: seq<nat>, p: nat)
    requires Ranking(values, elites, rest)
    requires p < |rest| && forall q :: 0 <= q < |rest| ==> values[rest[q]] <= values[rest[p]]
    ensures Ranking(values, elites + [rest[p]], rest[..p] + rest[p + 1..])
  {
    var picked := rest[p];
    var remaining := rest[..p] + rest[p + 1..];
    var next := elites + [picked];
    Removal(rest, p);
    assert picked < |values| && picked !in elites;
    assert forall k :: k in next <==> k in elites || k == picked;
    forall i, j | 0 <= i < j < |next| ensures next[i] != next[j] {
      if j == |elites| { assert next[i] in elites; }
    }
    forall q | 0 <= q < |remaining| ensures values[remaining[q]] <= values[picked] {
      assert remaining[q] in rest;
    }
  }

  /**
   * The first `count` entries of `np.argsort(values)[::-1]`: positions in
   * descending order of value. How ties are broken is left open.
   */
  method SelectElites(values: seq<int>, count: int) returns (elites: seq<nat>)
    requires count <= |values|
    ensures |elites| == (if count < 0 then 0 else count)
    ensures TopRanked(values, elites)
  {
    elites := [];
    var rest: seq<nat> := seq(|values|, k => k);
    forall k | 0 <= k < |values| ensures k in rest {
      assert rest[k] == k;
    }
    while |elites| < count
      invariant Ranking(values, elites, rest)
      invariant |elites| <= if count < 0 then 0 else count
      decreases |rest|
    {
      LargestExists(values, rest);
      var p: nat :| LargestAt(values, rest, |rest|, p);
      RankingStep(values, elites, rest, p);
      elites, rest := elites + [rest[p]], rest[..p] + rest[p + 1..];
    }
  }

  /**
   * `params`: population_size, generations, mutation_rate, crossover_rate,
   * tournament_size, elitism_count. The default's `selection_method` is never read.
   */
  datatype GaParams = GaParams(
    populationSize: int, generations: int, mutationRate: real, crossoverRate: real,
    tournamentSize: int, elitismCount: int)

  const DefaultParams: GaParams := GaParams(300, 500, 0.2, 0.8, 3, 5)

  /** `x` is the largest of the values in `s`. */
  ghost predicate IsMaximum(x: int, s: seq<int>) {
    x in s && forall y :: y in s ==> y <= x
  }

  /** The running best after one more batch is the maximum of everything evaluated so far. */
  lemma MaximumExtends(best: Option<int>, evaluated: seq<int>, fitness: seq<int>, w: nat)
    requires w < |fitness| && forall i :: 0 <= i < |fitness| ==> fitness[i] <= fitness[w]
    requires best.None? <==> evaluated == []
    requires best.Some? ==> IsMaximum(best.value, evaluated)
    ensures IsMaximum(if best.None? || fitness[w] > best.value then fitness[w] else best.value, evaluated + fitness)
  {
    var all := evaluated + fitness;
    assert forall y :: y in all <==> y in evaluated || y in fitness;
    assert fitness[w] in fitness;
  }

  lemma NonPositiveExtends(evaluated: seq<int>, fitness: seq<int>)
    requires forall v :: v in evaluated ==> v <= 0
    requires forall i :: 0 <= i < |fitness| ==> fitness[i] <= 0
    ensures forall v :: v in evaluated + fitness ==> v <= 0
  {
    assert forall y :: y in evaluated + fitness <==> y in evaluated || y in fitness;
  }

  /** Every member is a legal timetable for all courses. */
  ghost predicate LegalPopulation(data: Dataset, population: seq<Solution>) {
    forall i :: 0 <= i < |population| ==> Total(data, population[i]) && Legal(data, population[i])
  }

  lemma AppendLegal(data: Dataset, population: seq<Solution>, member: Solution)
    requires LegalPopulation(data, population) && Total(data, member) && Legal(data, member)
    ensures LegalPopulation(data, population + [member])
  {
  }

  lemma MemberLegal(data: Dataset, population: seq<Solution>, member: Solution)
    requires LegalPopulation(data, population) && member in population
    ensures Total(data, member) && Legal(data, member)
  {
  }

  /** A non-empty legal timetable uses some time slot, so time slots exist. */
  lemma SlotsExist(data: Dataset, t: Solution)
    requires data.Valid() && Legal(data, t)
    ensures t == map[] || data.timeSlots.order != []
  {
    if t != map[] {
      var c :| c in t;
      assert t[c].slot in data.timeSlots.entries;
    }
  }

  /** The elitism loop: copy the members at the `elites` positions, in that order. */
  method KeepElites(data: Dataset, population: seq<Solution>, elites: seq<nat>) returns (kept: seq<Solution>)
    requires LegalPopulation(data, population)
    requires forall i :: 0 <= i < |elites| ==> elites[i] < |population|
    ensures |kept| == |elites|
    ensures forall j :: 0 <= j < |elites| ==> kept[j] == population[elites[j]]
    ensures LegalPopulation(data, kept)
  {
    kept := [];
    for i := 0 to |elites|
      invariant |kept| == i
      invariant forall j :: 0 <= j < i ==> kept[j] == population[elites[j]]
      invariant LegalPopulation(data, kept)
    {
      kept := kept + [population[elites[i]]];
    }
  }

  /**
   * The part of the refill loop after selection: `_crossover` with a fresh
   * draw and cut point, then `_mutation`.
   */
  method Breed(data: Dataset, params: GaParams, parent1: Solution, parent2: Solution) returns (child: Solution)
    requires data.Valid()
    requires Total(data, parent1) && Legal(data, parent1) && Total(data, parent2) && Legal(data, parent2)
    requires |data.courses.order| >= 2 || params.crossoverRate < 0.0
    ensures Total(data, child) && Legal(data, child)
  {
    var draw := Random();
    var cut := 0;
    if draw <= params.crossoverRate {
      cut := RandInt(1, |data.courses.order| - 1);
    }
    CrossoverKeepsLegal(data, parent1, parent2, draw, params.crossoverRate, cut);
    var crossed := Crossover(data, parent1, parent2, draw, params.crossoverRate, cut);
    SlotsExist(data, crossed);
    child := Mutation(data, crossed, params.mutationRate);
  }

  /**
   * `winner` won a tournament over `sample`: `size` distinct positions of
   * `population`, and `winner` is a member at one of them with the largest
   * fitness among them.
   */
  ghost predicate TournamentWinner(data: Dataset, population: seq<Solution>, size: int, sample: seq<nat>, winner: Solution)
    requires data.Valid()
  {
    && |sample| == size && Distinct(sample)
    && (forall i :: 0 <= i < |sample| ==> sample[i] < |population|)
    && winner in population
    && (exists w :: 0 <= w < |sample| && winner == population[sample[w]])
    && (forall i :: 0 <= i < |sample| ==> Fitness(data, population[sample[i]]) <= Fitness(data, winner))
  }

  /**
   * One tournament of `_selection`: sample `size` distinct members, evaluate
   * them, and take the first one of the largest fitness.
   */
  method Tournament(data: Dataset, population: seq<Solution>, size: int) returns (winner: Solution, ghost sample: seq<nat>)
    requires data.Valid() && 1 <= size <= |population|
    ensures TournamentWinner(data, population, size, sample, winner)
  {
    var positions := Sample(|population|, size);
    sample := positions;
    var tournament := seq(|positions|, i requires 0 <= i < |positions| => population[positions[i]]);
    var fitnessValues := PopulationFitness(data, tournament);
    var w := IndexOfMax(fitnessValues);
    winner := tournament[w];
    assert forall i :: 0 <= i < |positions| ==> fitnessValues[i] == Fitness(data, population[positions[i]]);
  }

  class GeneticAlgorithm {
    const data: Dataset
    const params: GaParams
    var population: seq<Solution>
    var bestSolution: Option<Solution>
    /** `None` stands for the initial `float('-inf')`. */
    var bestFitness: Option<int>
    /** Every fitness value the generation loop has evaluated, in order. */
    ghost var evaluated: seq<int>

    /**
     * Every member and the best solution are legal timetables for all courses,
     * and the best fitness is the largest value evaluated so far, none of which
     * is positive.
     * `bestFitness == Fitness(bestSolution)` is deliberately absent: the
     * source's shallow copies do not keep it.
     */
    ghost predicate Valid()
      reads this
    {
      && data.Valid()
      && LegalPopulation(data, population)
      && (bestSolution.Some? ==> Total(data, bestSolution.value) && Legal(data, bestSolution.value))
      && bestSolution.Some? == bestFitness.Some?
      && (bestFitness.None? <==> evaluated == [])
      && (bestFitness.Some? ==> IsMaximum(bestFitness.value, evaluated))
      && (forall v :: v in evaluated ==> v <= 0)
    }

    /** Tournaments and crossover cuts can be drawn: what producing a child needs. */
    ghost predicate CanBreed()
      reads this
    {
      && 1 <= params.tournamentSize <= |population|
      && (|data.courses.order| >= 2 || params.crossoverRate < 0.0)
    }

    /** What a generation of `run` needs: `max` of a non-empty list, elites that exist, and children when elites do not fill the population. */
    ghost predicate CanRunGeneration()
      reads this
    {
      && 1 <= |population| == params.populationSize
      && params.elitismCount <= params.populationSize
      && (params.elitismCount < params.populationSize ==> CanBreed())
    }

    /** `__init__`; `params` is None when the caller passes None or an empty dict. */
    constructor (data: Dataset, params: Option<GaParams>)
      requires data.Valid()
      requires Buildable(data) || params.GetOr(DefaultParams).populationSize <= 0
      ensures this.data == data && this.params == params.GetOr(DefaultParams)
      ensures Valid()
      ensures |population| == if this.params.populationSize < 0 then 0 else this.params.populationSize
      ensures bestSolution == None && bestFitness == None && evaluated == []
    {
      this.data := data;
      this.params := params.GetOr(DefaultParams);
      bestSolution := None;
      bestFitness := None;
      evaluated := [];
      new;
      population := InitializePopulation();
    }

    /** `_initialize_population`: `population_size` random timetables. */
    method InitializePopulation() returns (pop: seq<Solution>)
      requires data.Valid()
      requires Buildable(data) || params.populationSize <= 0
      ensures |pop| == if params.populationSize < 0 then 0 else params.populationSize
      ensures forall i :: 0 <= i < |pop| ==> Total(data, pop[i]) && Legal(data, pop[i])
    {
      pop := [];
      var k := 0;
      while k < params.populationSize
        invariant |pop| == k && (k <= params.populationSize || k == 0)
        invariant forall i :: 0 <= i < |pop| ==> Total(data, pop[i]) && Legal(data, pop[i])
      {
        var r := GenerateRandomTimetable(data);
        pop := pop + [r.value];
        k := k + 1;
      }
    }

    /**
     * `_selection`: two tournaments over positions drawn by `random.sample`;
     * each parent is the first member of its sample with the largest fitness.
     */
    method Selection() returns (parent1: Solution, parent2: Solution, ghost sample1: seq<nat>, ghost sample2: seq<nat>)
      requires data.Valid()
      requires 1 <= params.tournamentSize <= |population|
      ensures TournamentWinner(data, population, params.tournamentSize, sample1, parent1)
      ensures TournamentWinner(data, population, params.tournamentSize, sample2, parent2)
    {
      parent1, sample1 := Tournament(data, population, params.tournamentSize);
      parent2, sample2 := Tournament(data, population, params.tournamentSize);
    }

    /** One child of the refill loop: select, cross over, mutate. */
    method ProduceChild() returns (child: Solution)
      requires data.Valid() && LegalPopulation(data, population) && CanBreed()
      ensures Total(data, child) && Legal(data, child)
    {
      var parent1, parent2, _, _ := Selection();
      MemberLegal(data, population, parent1);
      MemberLegal(data, population, parent2);
      child := Breed(data, params, parent1, parent2);
    }

    /**
     * The best-solution update at the top of each generation: the first member
     * with the largest fitness replaces the best when it is strictly better.
     */
    method UpdateBest(fitness: seq<int>)
      requires Valid() && |population| > 0
      requires fitness == PopulationFitness(data, population)
      modifies this`bestFitness, this`bestSolution, this`evaluated
      ensures Valid()
      ensures evaluated == old(evaluated) + fitness
      ensures bestFitness.Some? && IsMaximum(bestFitness.value, evaluated)
      ensures old(bestFitness).Some? ==> old(bestFitness).value <= bestFitness.value
    {
      var maxFitnessIdx := IndexOfMax(fitness);
      MaximumExtends(bestFitness, evaluated, fitness, maxFitnessIdx);
      NonPositiveExtends(evaluated, fitness);
      if bestFitness.None? || fitness[maxFitnessIdx] > bestFitness.value {
        bestFitness := Some(fitness[maxFitnessIdx]);
        bestSolution := Some(population[maxFitnessIdx]);
      }
      evaluated := evaluated + fitness;
    }

    /**
     * The new population of one generation: the `elitism_count` best members,
     * best first, then children until there are `population_size` members.
     */
    method NextGeneration(fitness: seq<int>) returns (ghost elites: seq<nat>)
      requires Valid() && CanRunGeneration()
      requires fitness == PopulationFitness(data, population)
      modifies this`population
      ensures Valid()
      ensures |population| == params.populationSize
      ensures |elites| == (if params.elitismCount < 0 then 0 else params.elitismCount)
      ensures TopRanked(fitness, elites)
      ensures forall i :: 0 <= i < |elites| ==> population[i] == old(population)[elites[i]]
    {
      var sortedIndices := SelectElites(fitness, params.elitismCount);
      elites := sortedIndices;
      var newPopulation := KeepElites(data, population, sortedIndices);
      while |newPopulation| < params.populationSize
        invariant population == old(population)
        invariant |elites| <= |newPopulation| <= params.populationSize
        invariant forall j :: 0 <= j < |elites| ==> newPopulation[j] == population[elites[j]]
        invariant LegalPopulation(data, newPopulation)
        decreases params.populationSize - |newPopulation|
      {
        assert params.elitismCount < params.populationSize;
        var child := ProduceChild();
        newPopulation := newPopulation + [child];
      }
      population := newPopulation;
    }

    /**
     * `run`: `generations` rounds of evaluation, best update and replacement.
     * Returns the best solution, None when no generation ran.
     */
    method Run() returns (best: Option<Solution>)
      requires Valid()
      requires params.generations > 0 ==> CanRunGeneration()
      modifies this
      ensures Valid()
      ensures best == bestSolution
      ensures params.generations > 0 ==> best.Some?
      ensures params.generations <= 0 ==> best == old(bestSolution)
      ensures old(bestFitness).Some? ==> bestFitness.Some? && old(bestFitness).value <= bestFitness.value
      ensures bestFitness.Some? ==> IsMaximum(bestFitness.value, evaluated)
      ensures |population| == |old(population)|
    {
      var generation := 0;
      while generation < params.generations
        invariant Valid()
        invariant 0 <= generation && (generation <= params.generations || generation == 0)
        invariant generation > 0 ==> bestSolution.Some?
        invariant generation == 0 ==> bestSolution == old(bestSolution) && bestFitness == old(bestFitness)
        invariant old(bestFitness).Some? ==> bestFitness.Some? && old(bestFitness).value <= bestFitness.value
        invariant |population| == |old(population)|
        invariant params.generations > 0 ==> CanRunGeneration()
        decreases params.generations - generation
      {
        var fitnessValues := PopulationFitness(data, population);
        UpdateBest(fitnessValues);
        var _ := NextGeneration(fitnessValues);
        generation := generation + 1;
      }
      best := bestSolution;
    }
  }
}
