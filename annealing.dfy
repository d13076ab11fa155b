/**
 * Simulated annealing over timetables: random construction that skips
 * unschedulable courses, the penalty cost, the one-field neighbour move,
 * the acceptance rule and the run loop with best-so-far tracking.
 *
 * Solutions are values here. In the source, `solution.copy()` is shallow, so
 * the neighbour move writes into per-course dicts it shares with the current
 * solution (and with the best one); the model does not reproduce that sharing.
 */
module Annealing {
  import opened Wrappers
  import opened Domain
  import opened Repetition
  import opened Randomness

  function Abs(x: int): nat {
    if x < 0 then -x else x
  }

  /** The number of students per mentor the cost aims for. */
  const MentorGroupTarget: int := 4

  /** A course the initial solution assigns: it has an eligible teacher and a preferred room, and some time slot exists. */
  predicate Schedulable(data: Dataset, c: Id)
    requires c in data.courses.entries
  {
    data.courses.entries[c].eligibleTeachers != []
    && data.courses.entries[c].preferredRooms != []
    && data.timeSlots.order != []
  }

  function SchedulableCourses(data: Dataset): set<Id> {
    set c | c in data.courses.entries && Schedulable(data, c)
  }

  /** `_generate_initial_solution`: a random legal assignment for every schedulable course; the others are skipped. */
  method GenerateInitialSolution(data: Dataset) returns (sol: Solution)
    requires data.Valid()
    ensures sol.Keys == SchedulableCourses(data)
    ensures Legal(data, sol)
  {
    sol := map[];
    var order := data.courses.order;
    var i := 0;
    while i < |order|
      invariant 0 <= i <= |order|
      invariant sol.Keys == set j | 0 <= j < i && Schedulable(data, order[j]) :: order[j]
      invariant Legal(data, sol)
    {
      var courseId := order[i];
      var course := data.courses.entries[courseId];
      if course.eligibleTeachers != [] {
        var teacher := Choice(course.eligibleTeachers);
        if course.preferredRooms != [] {
          var room := Choice(course.preferredRooms);
          if data.timeSlots.order != [] {
            var slot := Choice(data.timeSlots.order);
            sol := sol[courseId := Assignment(teacher, room, slot)];
          }
        }
      }
      i := i + 1;
    }
    assert forall c :: c in data.courses.entries <==> exists j :: 0 <= j < |order| && order[j] == c;
  }

  /**
   * The students reached by mentor `m`: those of every known group of every
   * known course the timetable gives to `m`. Unknown course or group ids are
   * skipped, as `dict.get` does.
   */
  function MentorStudents(data: Dataset, sol: Solution, m: Id): set<Id> {
    set c, g, s | c in sol && sol[c].teacher == m && c in data.courses.entries
                  && g in data.courses.entries[c].studentGroups && g in data.studentGroups.entries
                  && s in data.studentGroups.entries[g].students :: s
  }

  /** Σ over the mentor teachers among `teachers` of |distinct students − 4|. */
  function MentorDeviation(data: Dataset, sol: Solution, teachers: seq<Id>): nat
    requires forall t :: t in teachers ==> t in data.teachers.entries
  {
    if teachers == [] then 0
    else
      var t := teachers[0];
      (if data.teachers.entries[t].isMentor then Abs(|MentorStudents(data, sol, t)| - MentorGroupTarget) else 0)
      + MentorDeviation(data, sol, teachers[1..])
  }

  /** Every mentor teacher reaches exactly four distinct students. */
  ghost predicate MentorsBalanced(data: Dataset, sol: Solution) {
    forall t :: t in data.teachers.entries && data.teachers.entries[t].isMentor ==> |MentorStudents(data, sol, t)| == MentorGroupTarget
  }

  lemma {:induction false} MentorDeviationZero(data: Dataset, sol: Solution, teachers: seq<Id>)
    requires forall t :: t in teachers ==> t in data.teachers.entries
    ensures MentorDeviation(data, sol, teachers) == 0
        <==> forall t :: t in teachers && data.teachers.entries[t].isMentor ==> |MentorStudents(data, sol, t)| == MentorGroupTarget
  {
    if teachers != [] {
      MentorDeviationZero(data, sol, teachers[1..]);
      assert forall t :: t in teachers <==> t == teachers[0] || t in teachers[1..];
    }
  }

  /** A mentor who teaches nothing reaches nobody and adds 4 to the deviation. */
  lemma MentorWithoutCourses(data: Dataset, sol: Solution, m: Id)
    requires forall c :: c in sol ==> sol[c].teacher != m
    ensures MentorStudents(data, sol, m) == {}
    ensures Abs(|MentorStudents(data, sol, m)| - MentorGroupTarget) == 4
  {
  }

  /** The entries of `sol` whose course id is known. */
  function KnownCourses(data: Dataset, sol: Solution): (r: Solution)
    ensures r.Keys <= sol.Keys
  {
    map c | c in sol && c in data.courses.entries :: sol[c]
  }

  /** Entries for unknown course ids do not change whom a mentor reaches. */
  lemma UnknownCoursesIgnored(data: Dataset, sol: Solution, m: Id)
    ensures MentorStudents(data, sol, m) == MentorStudents(data, KnownCourses(data, sol), m)
  {
    var known := KnownCourses(data, sol);
    forall s | s in MentorStudents(data, sol, m) ensures s in MentorStudents(data, known, m) {
      var c, g :| c in sol && sol[c].teacher == m && c in data.courses.entries
                  && g in data.courses.entries[c].studentGroups && g in data.studentGroups.entries
                  && s in data.studentGroups.entries[g].students;
      assert c in known && known[c] == sol[c];
    }
  }

  /**
   * `_calculate_cost`: 100 per teacher repeat, per room repeat and per unit of
   * mentor deviation. The back-to-back and equitable-load counters start at 0
   * and are never incremented, so their weighted terms are always 0.
   */
  function Cost(data: Dataset, sol: Solution): (cost: int)
    requires data.Valid()
    ensures cost >= 0 && cost % 100 == 0
    ensures cost == 0 <==> ClashFree(sol, false) && ClashFree(sol, true) && MentorsBalanced(data, sol)
  {
    MentorDeviationZero(data, sol, data.teachers.order);
    var teacherOverlap := Repeats(sol, false);
    var roomOverlap := Repeats(sol, true);
    var mentorGroupSize := MentorDeviation(data, sol, data.teachers.order);
    var backToBackSessions, equitableTeachingLoad := 0, 0;
    var hardPenalty := 100 * teacherOverlap + 100 * roomOverlap + 100 * mentorGroupSize;
    var softPenalty := 50 * backToBackSessions + 40 * equitableTeachingLoad;
    hardPenalty + softPenalty
  }

  /** The three fields a move may change. */
  datatype Field = TeacherField | RoomField | SlotField

  /** `nb` keeps the keys of `sol` and differs from it in at most one field of at most one course, by a legal value. */
  ghost predicate IsNeighbor(data: Dataset, sol: Solution, nb: Solution) {
    && nb.Keys == sol.Keys
    && (forall c1, c2 :: c1 in sol && c2 in sol && nb[c1] != sol[c1] && nb[c2] != sol[c2] ==> c1 == c2)
    && (forall c :: c in sol && nb[c] != sol[c] ==> c in data.courses.entries && LegalEdit(data, c, sol[c], nb[c]))
  }

  lemma NeighborKeepsLegal(data: Dataset, sol: Solution, nb: Solution)
    requires Legal(data, sol) && IsNeighbor(data, sol, nb)
    ensures Legal(data, nb)
  {
    forall c | c in nb ensures c in data.courses.entries && LegalFor(data, c, nb[c]) {
      if nb[c] != sol[c] {
        LegalEditKeepsLegal(data, c, sol[c], nb[c]);
      }
    }
  }

  /**
   * `_generate_neighbor`. The source picks the course with `random.choice` over
   * the solution's keys, which fails when courses exist but the solution is empty.
   */
  method GenerateNeighbor(data: Dataset, sol: Solution) returns (neighbor: Solution)
    requires data.Valid()
    requires data.courses.entries != map[] ==> sol != map[]
    ensures IsNeighbor(data, sol, neighbor)
  {
    neighbor := sol;
    if data.courses.entries == map[] {
      return;
    }
    var courseId :| courseId in neighbor;
    if courseId !in data.courses.entries {
      return;
    }
    var course := data.courses.entries[courseId];
    var modification := Choice([TeacherField, RoomField, SlotField]);
    if modification == TeacherField && course.eligibleTeachers != [] {
      var teacher := Choice(course.eligibleTeachers);
      neighbor := neighbor[courseId := neighbor[courseId].(teacher := teacher)];
    } else if modification == RoomField && course.preferredRooms != [] {
      var room := Choice(course.preferredRooms);
      neighbor := neighbor[courseId := neighbor[courseId].(room := room)];
    } else if modification == SlotField && data.timeSlots.order != [] {
      var slot := Choice(data.timeSlots.order);
      neighbor := neighbor[courseId := neighbor[courseId].(slot := slot)];
    }
  }

  /**
   * `_acceptance_probability`. A cheaper neighbour gets exactly 1.0, and so does
   * an equally cheap one (`exp(0.0)`); for a dearer one the value of
   * exp((current - new) / temperature) is not modelled beyond lying in [0, 1].
   */
  method AcceptanceProbability(currentCost: int, newCost: int, temperature: real) returns (p: real)
    requires temperature > 0.0
    ensures newCost <= currentCost ==> p == 1.0
    ensures 0.0 <= p <= 1.0
  {
    if newCost < currentCost {
      return 1.0;
    }
    if newCost == currentCost {
      p := 1.0;
    } else {
      p :| 0.0 <= p <= 1.0;
    }
  }

  /** Every draw of `random.random()` lies below a probability of 1.0, so such a move is always taken. */
  lemma CertainAcceptance(p: real, draw: real)
    requires p == 1.0 && 0.0 <= draw < 1.0
    ensures p > draw
  {
  }

  /** `params`: initial_temperature, final_temperature, cooling_rate, max_iterations. */
  datatype SaParams = SaParams(initialTemperature: real, finalTemperature: real, coolingRate: real, maxIterations: int)

  const DefaultParams: SaParams := SaParams(1000.0, 1.0, 0.99, 100)

  class SimulatedAnnealing {
    const data: Dataset
    const params: SaParams
    var currentSolution: Solution
    var currentCost: int
    var bestSolution: Solution
    var bestCost: int

    /**
     * Both solutions are legal for the same courses, and the best cost never
     * exceeds the current one. `bestCost == Cost(bestSolution)` is deliberately
     * absent: the source's sharing of per-course dicts does not keep it.
     */
    ghost predicate Valid()
      reads this
    {
      && data.Valid()
      && Legal(data, currentSolution) && Legal(data, bestSolution)
      && bestSolution.Keys == currentSolution.Keys
      && bestCost <= currentCost
    }

    /** `__init__`; `params` is None when the caller passes None or an empty dict. */
    constructor (data: Dataset, params: Option<SaParams>)
      requires data.Valid()
      ensures this.data == data && this.params == params.GetOr(DefaultParams)
      ensures Valid()
      ensures currentSolution.Keys == SchedulableCourses(data)
      ensures bestSolution == currentSolution
      ensures currentCost == Cost(data, currentSolution) && bestCost == currentCost
    {
      this.data := data;
      this.params := params.GetOr(DefaultParams);
      var initial := GenerateInitialSolution(data);
      currentSolution := initial;
      bestSolution := initial;
      currentCost := Cost(data, initial);
      bestCost := Cost(data, initial);
    }

    /** Restart from `solution`, as the hybrid refinement does before stepping. */
    method Seed(solution: Solution)
      requires data.Valid() && Legal(data, solution)
      modifies this
      ensures Valid()
      ensures currentSolution == solution && bestSolution == solution
      ensures currentCost == Cost(data, solution) && bestCost == currentCost
    {
      currentSolution := solution;
      bestSolution := solution;
      currentCost := Cost(data, solution);
      bestCost := currentCost;
    }

    /**
     * One iteration of the run loop at the given temperature: draw a neighbour,
     * accept it or not, and record it as best when it beats the best cost.
     */
    method Step(temperature: real) returns (neighbor: Solution, accepted: bool)
      requires Valid()
      requires data.courses.entries != map[] ==> currentSolution != map[]
      requires temperature > 0.0
      modifies this
      ensures Valid()
      ensures IsNeighbor(data, old(currentSolution), neighbor)
      ensures Cost(data, neighbor) <= old(currentCost) ==> accepted
      ensures accepted ==> currentSolution == neighbor && currentCost == Cost(data, neighbor)
      ensures !accepted ==> currentSolution == old(currentSolution) && currentCost == old(currentCost)
      ensures if accepted && Cost(data, neighbor) < old(bestCost)
              then bestSolution == neighbor && bestCost == Cost(data, neighbor)
              else bestSolution == old(bestSolution) && bestCost == old(bestCost)
    {
      neighbor := GenerateNeighbor(data, currentSolution);
      NeighborKeepsLegal(data, currentSolution, neighbor);
      var neighborCost := Cost(data, neighbor);
      var probability := AcceptanceProbability(currentCost, neighborCost, temperature);
      var draw := Random();
      accepted := probability > draw;
      if accepted {
        currentSolution := neighbor;
        currentCost := neighborCost;
        if neighborCost < bestCost {
          bestSolution := neighbor;
          bestCost := neighborCost;
        }
      }
    }

    /**
     * `run`: iterate while the temperature is above the final one and fewer
     * than `max_iterations` iterations have run. The temperature is an exact
     * real here. `bestCosts` records the best cost before the loop and after
     * each iteration.
     */
    method Run() returns (best: Solution, ghost iterations: nat, ghost bestCosts: seq<int>)
      requires Valid()
      requires data.courses.entries != map[] ==> currentSolution != map[]
      requires params.finalTemperature >= 0.0 || (params.initialTemperature > 0.0 && params.coolingRate > 0.0)
      modifies this
      ensures Valid()
      ensures best == bestSolution && currentSolution.Keys == old(currentSolution).Keys
      ensures iterations <= if params.maxIterations < 0 then 0 else params.maxIterations
      ensures |bestCosts| == iterations + 1
      ensures bestCosts[0] == old(bestCost) && bestCosts[iterations] == bestCost
      ensures forall i, j :: 0 <= i <= j < |bestCosts| ==> bestCosts[j] <= bestCosts[i]
      ensures bestCost <= old(currentCost)
    {
      var temperature := params.initialTemperature;
      var iteration := 0;
      iterations, bestCosts := 0, [bestCost];
      while temperature > params.finalTemperature && iteration < params.maxIterations
        invariant Valid()
        invariant currentSolution.Keys == old(currentSolution).Keys
        invariant params.finalTemperature >= 0.0 || temperature > 0.0
        invariant iteration <= if params.maxIterations < 0 then 0 else params.maxIterations
        invariant iterations == iteration && |bestCosts| == iteration + 1
        invariant bestCosts[0] == old(bestCost) && bestCosts[iteration] == bestCost
        invariant forall i, j :: 0 <= i <= j < |bestCosts| ==> bestCosts[j] <= bestCosts[i]
        decreases params.maxIterations - iteration
      {
        var _, _ := Step(temperature);
        temperature := temperature * params.coolingRate;
        iteration := iteration + 1;
        iterations, bestCosts := iteration, bestCosts + [bestCost];
      }
      best := bestSolution;
    }
  }
}
