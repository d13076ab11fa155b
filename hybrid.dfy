/**
 * The hybrid algorithm: the genetic algorithm's generation loop, with a
 * short simulated-annealing refinement applied to some elites and children,
 * a stagnation counter that can end the loop early, and a final refinement
 * of the best solution.
 */
module Hybrid {
  import opened Wrappers
  import opened Domain
  import opened Randomness
  import Annealing
  import Genetic

  /** The change of the best fitness over the last ten entries, relative to the older one; 0 when that one is 0. */
  function RelativeChange(history: seq<int>): (change: real)
    requires |history| >= 10
    ensures change >= 0.0
    ensures change == 0.0 <==> history[|history| - 10] == 0 || history[|history| - 1] == history[|history| - 10]
  {
    var last, earlier := history[|history| - 1], history[|history| - 10];
    if earlier != 0 then (Annealing.Abs(last - earlier) as real) / (Annealing.Abs(earlier) as real) else 0.0
  }

  function Min(a: int, b: int): int {
    if a < b then a else b
  }

  ghost predicate NonDecreasing(s: seq<int>) {
    forall i, j :: 0 <= i <= j < |s| ==> s[i] <= s[j]
  }

  /**
   * Once the best fitness is non-positive and never decreases, as the genetic
   * algorithm's is, the relative change over ten entries is at most 1.
   */
  lemma ChangeAtMostOne(history: seq<int>)
    requires |history| >= 10 && NonDecreasing(history)
    requires forall i :: 0 <= i < |history| ==> history[i] <= 0
    ensures RelativeChange(history) <= 1.0
  {
    var last, earlier := history[|history| - 1], history[|history| - 10];
    if earlier != 0 {
      assert earlier <= last <= 0;
      RatioAtMostOne(Annealing.Abs(last - earlier), Annealing.Abs(earlier));
    }
  }

  /** `temperature *= cooling_rate`, with exact reals. */
  function Cool(temperature: real, coolingRate: real): (cooled: real)
    ensures temperature > 0.0 && coolingRate > 0.0 ==> cooled > 0.0
  {
    temperature * coolingRate
  }

  lemma RatioAtMostOne(a: nat, b: nat)
    requires 0 < b && a <= b
    ensures (a as real) / (b as real) <= 1.0
  {
  }

  /**
   * The value `stagnation_count` has after `_check_convergence` has run once
   * per entry of `history`, starting from 0: the number of most recent
   * entries, each with at least ten entries behind it, whose relative change
   * was below `threshold`.
   */
  function Streak(history: seq<int>, threshold: real): nat
  {
    if |history| < 10 then 0
    else if RelativeChange(history) < threshold then Streak(history[..|history| - 1], threshold) + 1
    else 0
  }

  /** The history as it stood `k` entries ago showed a change below `threshold`. */
  predicate SmallChangeAt(history: seq<int>, threshold: real, k: nat) {
    10 <= |history| - k && RelativeChange(history[..|history| - k]) < threshold
  }

  /** The streak reaches `n` exactly when each of the last `n` checks saw a change below the threshold. */
  lemma {:induction false} StreakMeans(history: seq<int>, threshold: real, n: nat)
    ensures Streak(history, threshold) >= n <==> forall k :: 0 <= k < n ==> SmallChangeAt(history, threshold, k)
    decreases n
  {
    if n > 0 && |history| >= 10 {
      var shorter := history[..|history| - 1];
      StreakMeans(shorter, threshold, n - 1);
      assert history[..|history| - 0] == history;
      forall k | 0 <= k < n - 1
        ensures SmallChangeAt(shorter, threshold, k) <==> SmallChangeAt(history, threshold, k + 1)
      {
        if 10 <= |shorter| - k {
          assert shorter[..|shorter| - k] == history[..|history| - (k + 1)];
        }
      }
      if Streak(history, threshold) >= n {
        forall k | 0 <= k < n ensures SmallChangeAt(history, threshold, k) {
          if k > 0 {
            assert SmallChangeAt(shorter, threshold, k - 1);
          }
        }
      }
      if forall k :: 0 <= k < n ==> SmallChangeAt(history, threshold, k) {
        forall k | 0 <= k < n - 1 ensures SmallChangeAt(shorter, threshold, k) {
          assert SmallChangeAt(history, threshold, k + 1);
        }
        assert SmallChangeAt(history, threshold, 0);
        assert Streak(history, threshold) == Streak(shorter, threshold) + 1;
      }
    } else if n > 0 {
      assert !SmallChangeAt(history, threshold, 0);
    }
  }

  /** The hybrid-only settings `run` and its helpers read. */
  datatype HybridParams = HybridParams(
    localSearchProbability: real,
    saIterationsPerGeneration: int,
    convergenceThreshold: real,
    maxStagnationGenerations: int)

  const DefaultHybridParams: HybridParams := HybridParams(0.3, 10, 0.001, 20)

  class HybridAlgorithm {
    const data: Dataset
    const gaParams: Genetic.GaParams
    const saParams: Annealing.SaParams
    const hybridParams: HybridParams
    const ga: Genetic.GeneticAlgorithm
    var bestFitnessHistory: seq<int>
    var stagnationCount: int

    /** The genetic-algorithm component is consistent and works on this instance's data and parameters. */
    ghost predicate GaReady()
      reads this, ga
    {
      ga.Valid() && ga.data == data && ga.params == gaParams
    }

    /**
     * The history of best fitness values never decreases, is non-positive,
     * ends with the component's best fitness, and the stagnation counter is
     * the streak the history determines.
     */
    ghost predicate HistoryValid()
      reads this, ga
    {
      && NonDecreasing(bestFitnessHistory)
      && (forall i :: 0 <= i < |bestFitnessHistory| ==> bestFitnessHistory[i] <= 0)
      && (bestFitnessHistory != [] ==>
            ga.bestFitness.Some? && bestFitnessHistory[|bestFitnessHistory| - 1] == ga.bestFitness.value)
      && stagnationCount == Streak(bestFitnessHistory, hybridParams.convergenceThreshold)
    }

    ghost predicate Valid()
      reads this, ga
    {
      GaReady() && HistoryValid()
    }

    /** The refinement never divides by a non-positive temperature. */
    predicate SaRunnable() {
      hybridParams.saIterationsPerGeneration <= 0
      || (saParams.initialTemperature > 0.0 && saParams.coolingRate > 0.0)
    }

    /**
     * `__init__`; a parameter group is None when it is absent from the
     * parameters, and then takes its defaults.
     */
    constructor (data: Dataset, gaParams: Option<Genetic.GaParams>, saParams: Option<Annealing.SaParams>,
                 hybridParams: Option<HybridParams>)
      requires data.Valid()
      requires Genetic.Buildable(data) || gaParams.GetOr(Genetic.DefaultParams).populationSize <= 0
      ensures Valid() && fresh(ga)
      ensures this.data == data && this.gaParams == gaParams.GetOr(Genetic.DefaultParams)
      ensures this.saParams == saParams.GetOr(Annealing.DefaultParams)
      ensures this.hybridParams == hybridParams.GetOr(DefaultHybridParams)
      ensures bestFitnessHistory == [] && stagnationCount == 0
    {
      this.data := data;
      this.gaParams := gaParams.GetOr(Genetic.DefaultParams);
      this.saParams := saParams.GetOr(Annealing.DefaultParams);
      this.hybridParams := hybridParams.GetOr(DefaultHybridParams);
      ga := new Genetic.GeneticAlgorithm(data, Some(gaParams.GetOr(Genetic.DefaultParams)));
      bestFitnessHistory := [];
      stagnationCount := 0;
    }

    /**
     * `_apply_sa_to_solution`: a fresh annealer seeded with `solution` runs
     * exactly `sa_iterations_per_generation` steps, cooling after each, and
     * its best solution is returned. `trackedBest` is the annealer's best
     * cost at the end; `steps` counts the steps.
     */
    method ApplySa(solution: Solution) returns (refined: Solution, ghost trackedBest: int, ghost steps: nat)
      requires data.Valid() && Legal(data, solution)
      requires data.courses.entries != map[] ==> solution != map[]
      requires SaRunnable()
      ensures refined.Keys == solution.Keys && Legal(data, refined)
      ensures steps == if hybridParams.saIterationsPerGeneration < 0 then 0 else hybridParams.saIterationsPerGeneration
      ensures trackedBest <= Annealing.Cost(data, solution)
    {
      var sa := new Annealing.SimulatedAnnealing(data, Some(saParams));
      sa.Seed(solution);
      ghost var startCost := sa.bestCost;
      var temperature := saParams.initialTemperature;
      var iterations := hybridParams.saIterationsPerGeneration;
      var k := 0;
      while k < iterations
        invariant 0 <= k && (k <= iterations || k == 0)
        invariant sa.Valid() && sa.data == data
        invariant sa.currentSolution.Keys == solution.Keys
        invariant sa.bestCost <= startCost
        invariant iterations > 0 ==> temperature > 0.0
        invariant iterations > 0 ==> saParams.coolingRate > 0.0
        decreases iterations - k
      {
        var _, _ := sa.Step(temperature);
        temperature := Cool(temperature, saParams.coolingRate);
        k := k + 1;
      }
      refined, trackedBest, steps := sa.bestSolution, sa.bestCost, k;
    }

    /**
     * `_check_convergence`, called once after each entry is appended to the
     * history: with ten or more entries, extend the stagnation streak when
     * the relative change is below the threshold and reset it otherwise;
     * report convergence once the streak reaches `max_stagnation_generations`.
     */
    method CheckConvergence() returns (converged: bool)
      requires |bestFitnessHistory| >= 1
      requires stagnationCount == Streak(bestFitnessHistory[..|bestFitnessHistory| - 1], hybridParams.convergenceThreshold)
      modifies this`stagnationCount
      ensures |bestFitnessHistory| < 10 ==> !converged && stagnationCount == old(stagnationCount)
      ensures stagnationCount == Streak(bestFitnessHistory, hybridParams.convergenceThreshold)
      ensures converged <==> |bestFitnessHistory| >= 10 && stagnationCount >= hybridParams.maxStagnationGenerations
    {
      converged := false;
      if |bestFitnessHistory| >= 10 {
        var fitnessChange := RelativeChange(bestFitnessHistory);
        if fitnessChange < hybridParams.convergenceThreshold {
          stagnationCount := stagnationCount + 1;
        } else {
          stagnationCount := 0;
        }
        converged := stagnationCount >= hybridParams.maxStagnationGenerations;
      }
    }

    /** What one generation needs: a non-empty population of the configured size, and parents when elites do not fill it. */
    ghost predicate GenerationRunnable()
      reads this, ga
    {
      && 1 <= |ga.population| == gaParams.populationSize
      && (gaParams.elitismCount < gaParams.populationSize ==> ga.CanBreed())
      && SaRunnable()
    }

    /**
     * The replacement step of one generation: the `min(elitism_count, len)`
     * best members, best first, each refined with some probability, then
     * children, each refined with some probability, until the population
     * has `population_size` members. `refinedElite[i]` says whether elite
     * `i` went through the refinement; one that did not is copied unchanged.
     */
    method NextPopulation(fitness: seq<int>) returns (ghost elites: seq<nat>, ghost refinedElite: seq<bool>)
      requires GaReady() && GenerationRunnable()
      requires fitness == Genetic.PopulationFitness(data, ga.population)
      modifies ga`population
      ensures GaReady()
      ensures |ga.population| == gaParams.populationSize
      ensures |elites| == if gaParams.elitismCount < 0 then 0 else Min(gaParams.elitismCount, |old(ga.population)|)
      ensures Genetic.TopRanked(fitness, elites)
      ensures |elites| <= |ga.population| && Carried(old(ga.population), elites, ga.population[..|elites|], refinedElite)
    {
      var population := ga.population;
      var count := Min(gaParams.elitismCount, |population|);
      var sortedIndices := Genetic.SelectElites(fitness, count);
      elites := sortedIndices;
      var newPopulation: seq<Solution> := [];
      refinedElite := [];
      for i := 0 to |sortedIndices|
        invariant ga.population == population
        invariant |newPopulation| == i
        invariant Genetic.LegalPopulation(data, newPopulation)
        invariant Carried(population, sortedIndices, newPopulation, refinedElite)
      {
        var eliteSolution := population[sortedIndices[i]];
        Genetic.MemberLegal(data, population, eliteSolution);
        var draw := Random();
        var refine := draw < hybridParams.localSearchProbability;
        if refine {
          eliteSolution := RefineMember(eliteSolution);
        }
        CarriedStep(population, sortedIndices, newPopulation, refinedElite, eliteSolution, refine);
        Genetic.AppendLegal(data, newPopulation, eliteSolution);
        newPopulation := newPopulation + [eliteSolution];
        refinedElite := refinedElite + [refine];
      }
      ghost var kept := newPopulation;
      while |newPopulation| < gaParams.populationSize
        invariant ga.population == population && GaReady()
        invariant |elites| <= |newPopulation| <= gaParams.populationSize
        invariant Genetic.LegalPopulation(data, newPopulation)
        invariant newPopulation[..|elites|] == kept
        decreases gaParams.populationSize - |newPopulation|
      {
        var child := ga.ProduceChild();
        var draw := Random();
        if draw < hybridParams.localSearchProbability {
          child := RefineMember(child);
        }
        PrefixKept(newPopulation, child, |elites|);
        Genetic.AppendLegal(data, newPopulation, child);
        newPopulation := newPopulation + [child];
      }
      ga.population := newPopulation;
    }

    /** `_apply_sa_to_solution` on a member: the result is again a legal timetable for all courses. */
    method RefineMember(member: Solution) returns (refined: Solution)
      requires data.Valid() && Total(data, member) && Legal(data, member) && SaRunnable()
      ensures Total(data, refined) && Legal(data, refined)
    {
      ghost var trackedBest, steps;
      refined, trackedBest, steps := ApplySa(member);
    }

    /** What `run` needs, beyond a consistent state. */
    ghost predicate RunRunnable()
      reads this, ga
    {
      && (Genetic.Buildable(data) || gaParams.populationSize <= 0)
      && (gaParams.generations >= 1 ==>
            && 1 <= gaParams.populationSize
            && (gaParams.elitismCount < gaParams.populationSize ==>
                  1 <= gaParams.tournamentSize <= gaParams.populationSize
                  && (|data.courses.order| >= 2 || gaParams.crossoverRate < 0.0)))
      && (gaParams.generations >= 1 || ga.bestSolution.Some?)
      && SaRunnable()
    }

    /** `_check_convergence` would report convergence on this best-fitness history. */
    ghost predicate ConvergedOn(history: seq<int>) {
      |history| >= 10 && Streak(history, hybridParams.convergenceThreshold) >= hybridParams.maxStagnationGenerations
    }

    /**
     * A history that did not converge at any length after `start` up to its
     * own, extended by one entry, did not converge at any length after
     * `start` short of the new one.
     */
    lemma NoEarlierConvergence(start: nat, before: seq<int>, after: seq<int>)
      requires start <= |before| && |after| == |before| + 1 && after[..|before|] == before
      requires forall n :: start < n < |before| ==> !ConvergedOn(before[..n])
      requires start < |before| ==> !ConvergedOn(before)
      ensures forall n :: start < n < |after| ==> !ConvergedOn(after[..n])
    {
      forall n | start < n < |after| ensures !ConvergedOn(after[..n]) {
        assert after[..n] == before[..n];
        if n < |before| {
          assert !ConvergedOn(before[..n]);
        } else {
          assert before[..n] == before;
        }
      }
    }

    /**
     * One pass of the generation loop of `run`: evaluate, update the best,
     * record it in the history, replace the population, and check for
     * convergence.
     */
    method Generation() returns (converged: bool)
      requires Valid() && GenerationRunnable()
      modifies this`bestFitnessHistory, this`stagnationCount, ga`population, ga`bestFitness, ga`bestSolution, ga`evaluated
      ensures Valid()
      ensures |bestFitnessHistory| == |old(bestFitnessHistory)| + 1
      ensures bestFitnessHistory[..|old(bestFitnessHistory)|] == old(bestFitnessHistory)
      ensures |ga.population| == gaParams.populationSize && ga.bestSolution.Some?
      ensures converged <==> ConvergedOn(bestFitnessHistory)
    {
      var fitnessValues := Genetic.PopulationFitness(data, ga.population);
      ghost var previous := bestFitnessHistory;
      ga.UpdateBest(fitnessValues);
      bestFitnessHistory := bestFitnessHistory + [ga.bestFitness.value];
      AppendBest(previous, ga.bestFitness.value, ga.evaluated);
      var _, _ := NextPopulation(fitnessValues);
      converged := CheckConvergence();
    }

    /**
     * `run`: reinitialise the population, then up to `generations`
     * generations of best update, history entry, replacement and
     * convergence check; finally refine the best solution, however the loop
     * ended. `generationsRun` counts the generations; `refinedFrom` is the
     * best solution the final refinement started from.
     */
    method Run() returns (finalSolution: Solution, ghost generationsRun: nat, ghost refinedFrom: Solution,
                          ghost trackedBest: int)
      requires Valid() && RunRunnable()
      modifies this, ga
      ensures Valid()
      ensures generationsRun <= if gaParams.generations < 0 then 0 else gaParams.generations
      ensures |bestFitnessHistory| == |old(bestFitnessHistory)| + generationsRun
      ensures bestFitnessHistory[..|old(bestFitnessHistory)|] == old(bestFitnessHistory)
      ensures generationsRun < gaParams.generations ==> ConvergedOn(bestFitnessHistory)
      ensures forall n :: |old(bestFitnessHistory)| < n < |bestFitnessHistory| ==> !ConvergedOn(bestFitnessHistory[..n])
      ensures gaParams.generations >= 1 ==> |ga.population| == gaParams.populationSize
      ensures ga.bestSolution == Some(refinedFrom)
      ensures Total(data, finalSolution) && Legal(data, finalSolution)
      ensures trackedBest <= Annealing.Cost(data, refinedFrom)
    {
      var initial := ga.InitializePopulation();
      ga.population := initial;
      var generation := 0;
      generationsRun := 0;
      var converged := false;
      while generation < gaParams.generations && !converged
        invariant Valid()
        invariant 0 <= generation && (generation <= gaParams.generations || generation == 0)
        invariant generationsRun == generation
        invariant |bestFitnessHistory| == |old(bestFitnessHistory)| + generation
        invariant bestFitnessHistory[..|old(bestFitnessHistory)|] == old(bestFitnessHistory)
        invariant gaParams.generations >= 1 ==> |ga.population| == gaParams.populationSize
        invariant generation > 0 || ga.bestSolution == old(ga.bestSolution)
        invariant generation > 0 ==> ga.bestSolution.Some?
        invariant converged ==> ConvergedOn(bestFitnessHistory)
        invariant !converged && generation > 0 ==> !ConvergedOn(bestFitnessHistory)
        invariant forall n :: |old(bestFitnessHistory)| < n < |bestFitnessHistory| ==> !ConvergedOn(bestFitnessHistory[..n])
        decreases gaParams.generations - generation
      {
        ghost var before := bestFitnessHistory;
        converged := Generation();
        assert bestFitnessHistory[..|before|] == before;
        NoEarlierConvergence(|old(bestFitnessHistory)|, before, bestFitnessHistory);
        generation := generation + 1;
        generationsRun := generation;
      }
      var best := ga.bestSolution.value;
      refinedFrom := best;
      ghost var steps;
      finalSolution, trackedBest, steps := ApplySa(best);
    }
  }

  /**
   * `kept[j]` carries the member at position `indices[j]` of `population`:
   * it has the same courses, and it is that member unchanged unless
   * `refined[j]` says it went through the refinement.
   */
  ghost predicate Carried(population: seq<Solution>, indices: seq<nat>, kept: seq<Solution>, refined: seq<bool>) {
    && |kept| == |refined| <= |indices|
    && (forall j :: 0 <= j < |indices| ==> indices[j] < |population|)
    && forall j :: 0 <= j < |kept| ==>
         kept[j].Keys == population[indices[j]].Keys && (!refined[j] ==> kept[j] == population[indices[j]])
  }

  lemma CarriedStep(population: seq<Solution>, indices: seq<nat>, kept: seq<Solution>, refined: seq<bool>,
                    next: Solution, refine: bool)
    requires Carried(population, indices, kept, refined) && |kept| < |indices|
    requires next.Keys == population[indices[|kept|]].Keys && (!refine ==> next == population[indices[|kept|]])
    ensures Carried(population, indices, kept + [next], refined + [refine])
  {
  }

  lemma PrefixKept<T>(s: seq<T>, x: T, n: nat)
    requires n <= |s|
    ensures (s + [x])[..n] == s[..n]
  {
  }

  /** Appending a best fitness that is the maximum of non-positive values evaluated keeps the history valid. */
  lemma AppendBest(previous: seq<int>, best: int, evaluated: seq<int>)
    requires NonDecreasing(previous) && forall i :: 0 <= i < |previous| ==> previous[i] <= 0
    requires previous != [] ==> previous[|previous| - 1] <= best
    requires Genetic.IsMaximum(best, evaluated) && forall v :: v in evaluated ==> v <= 0
    ensures NonDecreasing(previous + [best])
    ensures forall i :: 0 <= i < |previous + [best]| ==> (previous + [best])[i] <= 0
    ensures (previous + [best])[..|previous|] == previous
  {
  }
}
