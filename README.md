# Timetable generation: a Dafny model

This project models the core of a university timetable generator. A dataset
holds teachers, students, courses, rooms, time slots and student groups. A
timetable maps each course id to an assignment of a teacher, a room and a time
slot. The model covers the following parts.

- **Ingestion.** `parse_data` turns the raw JSON-like input into keyed
  collections: the first missing key raises a `KeyError`, and a later item with
  the same id replaces an earlier one. The `DataTransformer` rebuilds the same
  records with defaults for the optional keys. The `DataValidator` reports
  missing sections, missing fields, dangling references and wrongly sized
  student groups.
- **Search algorithms.** There are four of them:
  - simulated annealing (random construction, penalty cost, one-field
    neighbour move, acceptance rule, run loop with best-so-far tracking);
  - a genetic algorithm (fitness, tournament selection, one-point crossover,
    mutation, elitism, generation loop);
  - constraint programming (backtracking when there are at most 20 courses,
    otherwise iterative forward checking);
  - a hybrid that refines genetic-algorithm elites and the final best solution
    with simulated annealing, and stops early when fitness stagnates.
- **Violation report.** `calculate_constraint_violations` counts teacher and
  room overlaps, mentor group sizes, back-to-back sessions and the spread of
  teaching loads.

Pure logic is written as functions with lemmas. The parts that update state in
place are classes with `modifies` clauses: the algorithm objects, the
transformer's output dictionary and the validator. Loops are methods. Most
are proved equal to a specification function. Some are stated relationally
instead: the annealing and genetic runs, the forward-checking pass and loop,
the hybrid run and its annealing refinement. Their contracts say what the new
state satisfies, not which value it is. Randomness is a method whose
result is only constrained by its range (`Randomness`), so each algorithm's
properties hold for every sequence of random draws.

Modules by file:

- `domain.dfy`: records, insertion-ordered dictionaries (`Keyed`) and the
  legality of assignments.
- `raw.dfy`: the raw input records.
- `collecting.dfy`, `parsing.dfy`: `parse_data`.
- `transformation.dfy`: the transformer.
- `validation.dfy`: the validator.
- `pipeline.dfy`: how validation, transformation and parsing relate.
- `repeats.dfy`, `annealing.dfy`: simulated annealing.
- `genetic.dfy`: the genetic algorithm.
- `constraint_search.dfy`: constraint programming.
- `hybrid.dfy`: the hybrid algorithm.
- `overlaps.dfy`, `backtoback.dfy`, `violations.dfy`, `teaching_load.dfy`: the
  violation report.
- `sorting.dfy`, `strings.dfy`: Python's stable sort and string order.
- `sequences.dfy`, `wrappers.dfy`, `randomness.dfy`: support.

## Model

| member | source | states |
|---|---|---|
| Domain.Keyed.Put | src/basic_algorithm_implementations/utils.py:31 | Assigning `d[k] = v` keeps a dict well formed. The key gets the new value. A new key is appended to the insertion order and an existing key keeps its position. |
| Domain.EmptyKeyed | src/data_ingestion_process/data_transformer.py:35-44 | The empty dict is well formed and holds nothing. |
| Domain.LegalEditKeepsLegal | src/basic_algorithm_implementations/simulated_annealing.py:168-179 | Changing one field of an assignment to an eligible teacher, a preferred room or a known slot keeps the assignment legal. |
| Randomness.Random | src/basic_algorithm_implementations/genetic_algorithms.py:139 | `random.random()` lies in [0, 1). |
| Randomness.Choice | src/basic_algorithm_implementations/genetic_algorithms.py:46 | `random.choice` returns an element of a non-empty sequence. |
| Randomness.RandInt | src/basic_algorithm_implementations/genetic_algorithms.py:144 | `random.randint(lo, hi)` lies between its inclusive bounds. |
| Randomness.Sample | src/basic_algorithm_implementations/genetic_algorithms.py:126 | `random.sample(range(n), k)` returns k distinct indices below n. |
| Collecting.CollectOutcome | src/basic_algorithm_implementations/utils.py:29-31 | Building a dict from items succeeds iff every item builds. Otherwise the error is the first failing item's. |
| Collecting.CollectKeys | src/basic_algorithm_implementations/utils.py:29-31 | On success the dict is well formed and its keys are exactly the ids of the items. |
| Collecting.CollectLastWins | src/basic_algorithm_implementations/utils.py:29-31 | When two items share an id, the dict holds the later one. |
| Collecting.CollectHolds | src/basic_algorithm_implementations/utils.py:29-31 | Every entry of the built dict is the last item carrying its id. |
| Collecting.CollectFailsAt | src/basic_algorithm_implementations/utils.py:29-31 | If item i is the first to fail, the whole build fails with item i's error. |
| Collecting.CollectListFacts | src/basic_algorithm_implementations/utils.py:112-124 | Building a list succeeds iff every item builds. The list is then the built items, in order. |
| Parsing.FirstMissingFacts | src/basic_algorithm_implementations/utils.py:31-41 | Nothing is missing iff every required key is present. Otherwise the result is the first absent key in the order the constructor reads them. |
| Parsing.ParseTeacherOutcome | src/basic_algorithm_implementations/utils.py:29-42 | A teacher parses iff every required key is present, and otherwise fails with the first absent key. The id is kept, and `max_mentees` defaults to 4. |
| Parsing.ParseStudentOutcome | src/basic_algorithm_implementations/utils.py:45-55 | The same for a student; `special_requirements` defaults to the empty list. |
| Parsing.ParseCourseOutcome | src/basic_algorithm_implementations/utils.py:58-72 | The same for a course, with all eleven keys required. |
| Parsing.ParseRoomOutcome | src/basic_algorithm_implementations/utils.py:75-85 | The same for a room. |
| Parsing.ParseTimeSlotOutcome | src/basic_algorithm_implementations/utils.py:88-96 | The same for a time slot. |
| Parsing.ParseStudentGroupOutcome | src/basic_algorithm_implementations/utils.py:99-106 | The same for a student group. |
| Parsing.ParseConstraintOutcome | src/basic_algorithm_implementations/utils.py:112-117 | A constraint parses iff it has type, description and weight, and otherwise fails with the first absent key. |
| Parsing.ParseDataSucceeds | src/basic_algorithm_implementations/utils.py:22-136 | `parse_data` succeeds iff every item of every section parses. Missing sections count as empty. |
| Parsing.ParseDataContents | src/basic_algorithm_implementations/utils.py:22-136 | On success each collection is the dict of its parsed items, and both constraint lists are the parsed items in order. |
| Transformation.CreateTeacherOutcome | src/data_ingestion_process/data_transformer.py:77-90 | Creating a teacher fails iff `id` or `name` is absent, with the first absent key. |
| Transformation.CreateStudentOutcome | src/data_ingestion_process/data_transformer.py:101-111 | The same for a student. |
| Transformation.CreateCourseOutcome | src/data_ingestion_process/data_transformer.py:122-136 | The same for a course (`id`, `code`, `name`). |
| Transformation.CreateRoomOutcome | src/data_ingestion_process/data_transformer.py:147-157 | The same for a room. |
| Transformation.CreateTimeSlotOutcome | src/data_ingestion_process/data_transformer.py:168-176 | The same for a time slot (`id`, `day`, `start_time`, `end_time`). |
| Transformation.CreateStudentGroupOutcome | src/data_ingestion_process/data_transformer.py:187-194 | The same for a student group. |
| Transformation.MinimalTeacher | src/data_ingestion_process/data_transformer.py:77-90 | A teacher with only id and name gets the transformer's defaults: empty department and specialization, 8 hours a day, 40 a week, empty preferences and unavailability, no mentor, 4 mentees. |
| Transformation.MinimalStudent | src/data_ingestion_process/data_transformer.py:101-111 | The defaults for a student: empty batch, semester 1, no courses, no mentor need, no special requirements. |
| Transformation.MinimalCourse | src/data_ingestion_process/data_transformer.py:122-136 | The defaults for a course: 0 credits, 0 hours, 1 session of 1 hour, no lab, and no rooms, teachers or groups. |
| Transformation.MinimalRoom | src/data_ingestion_process/data_transformer.py:147-157 | The defaults for a room: type `Lecture Hall`, capacity 0, no facilities, empty building, floor 0. |
| Transformation.MinimalTimeSlot | src/data_ingestion_process/data_transformer.py:168-176 | The defaults for a time slot: type `Regular`. |
| Transformation.MinimalStudentGroup | src/data_ingestion_process/data_transformer.py:187-194 | The defaults for a student group: no students and no courses. |
| Transformation.TeacherAgrees | src/data_ingestion_process/data_transformer.py:77-90 | When every key `parse_data` requires is present, the transformer builds the same teacher as `parse_data`. |
| Transformation.StudentAgrees | src/data_ingestion_process/data_transformer.py:101-111 | The same agreement for students. |
| Transformation.CourseAgrees | src/data_ingestion_process/data_transformer.py:122-136 | The same agreement for courses. |
| Transformation.RoomAgrees | src/data_ingestion_process/data_transformer.py:147-157 | The same agreement for rooms. |
| Transformation.TimeSlotAgrees | src/data_ingestion_process/data_transformer.py:168-176 | The same agreement for time slots. |
| Transformation.StudentGroupAgrees | src/data_ingestion_process/data_transformer.py:187-194 | The same agreement for student groups. |
| Transformation.TransformedData.constructor | src/data_ingestion_process/data_transformer.py:35-44 | The output starts with six empty dicts, two empty constraint lists, no algorithm parameters and empty metadata. |
| Transformation.TransformedData.TransformTeachers | src/data_ingestion_process/data_transformer.py:68-75 | Fills the teacher dict with the built items, a later id overwriting an earlier one, or reports the first failing item's error. Nothing else changes. |
| Transformation.TransformedData.TransformStudents | src/data_ingestion_process/data_transformer.py:92-99 | The same for students. |
| Transformation.TransformedData.TransformCourses | src/data_ingestion_process/data_transformer.py:113-120 | The same for courses. |
| Transformation.TransformedData.TransformRooms | src/data_ingestion_process/data_transformer.py:138-145 | The same for rooms. |
| Transformation.TransformedData.TransformTimeSlots | src/data_ingestion_process/data_transformer.py:159-166 | The same for time slots. |
| Transformation.TransformedData.TransformStudentGroups | src/data_ingestion_process/data_transformer.py:178-185 | The same for student groups. |
| Transformation.TransformedData.TransformResources | src/data_ingestion_process/data_transformer.py:46-52 | The six resource passes, in order, stop at the first error. |
| Transformation.TransformedData.TransformConstraints | src/data_ingestion_process/data_transformer.py:196-216 | Hard and soft constraints become the parsed lists, or the first failing item's error. |
| Transformation.Transform | src/data_ingestion_process/data_transformer.py:23-66 | The transform equals the transform specification: resources, constraints, algorithm parameters when present, and the input's metadata. |
| Transformation.TransformSucceeds | src/data_ingestion_process/data_transformer.py:23-66 | The transform succeeds iff every resource item can be created and every constraint parses. |
| Transformation.TransformContents | src/data_ingestion_process/data_transformer.py:23-66 | On success every collection is the dict of its created items. Algorithm parameters are present iff they were given. The metadata is the input's, or empty. |
| Transformation.TransformExtendsParse | src/data_ingestion_process/data_transformer.py:23-66 | When `parse_data` succeeds, so does the transform, and it yields the same dataset plus the algorithm parameters. |
| Validation.SectionErrorsFacts | src/data_ingestion_process/data_validator.py:105-113 | Section errors report exactly the absent sections, at most one per section. |
| Validation.DefaultSectionsPass | src/data_ingestion_process/data_validator.py:29 | With the default configuration, the section check passes iff `metadata`, `resources` and `constraints` are all present. |
| Validation.MissingSectionsOnly | src/data_ingestion_process/data_validator.py:66-75 | If any section is absent, validation returns only the section errors and nothing else. |
| Validation.ItemErrorsEmpty | src/data_ingestion_process/data_validator.py:125-130 | An item has no field errors iff it has every required field. |
| Validation.ItemsErrorsMember | src/data_ingestion_process/data_validator.py:125-130 | A missing-field error for item i and field f is reported iff f is required and item i lacks it. |
| Validation.ItemsErrorsEmpty | src/data_ingestion_process/data_validator.py:125-130 | A resource list has no field errors iff every item is complete. |
| Validation.ResourceErrorsEmpty | src/data_ingestion_process/data_validator.py:115-132 | The resource check passes iff every required resource list is present and complete. |
| Validation.ConstraintErrorsEmpty | src/data_ingestion_process/data_validator.py:134-153 | The constraint check passes iff both lists are present and every constraint has type, description and weight. |
| Validation.DanglingMembers | src/data_ingestion_process/data_validator.py:161-186 | Every reference outside the known ids is reported, and nothing else. |
| Validation.DanglingCount | src/data_ingestion_process/data_validator.py:161-186 | One error is reported per unresolved position, so duplicates are reported twice. |
| Validation.DanglingEmpty | src/data_ingestion_process/data_validator.py:161-186 | There are no reference errors iff every reference resolves. |
| Validation.CourseErrorsEmpty | src/data_ingestion_process/data_validator.py:160-186 | Course checks pass iff every course's teachers (or groups) are known. |
| Validation.GroupErrorsEmpty | src/data_ingestion_process/data_validator.py:174-179 | Group checks pass iff every group's students are known. |
| Validation.RelationErrorsEmpty | src/data_ingestion_process/data_validator.py:155-188 | The relationship check passes iff all course and group references resolve. |
| Validation.SizeErrorsCount | src/data_ingestion_process/data_validator.py:199-204 | One error is reported per group whose size is not 4. |
| Validation.SizeErrorsEmpty | src/data_ingestion_process/data_validator.py:199-204 | There are no size errors iff every group has exactly 4 students. |
| Validation.ValidIff | src/data_ingestion_process/data_validator.py:52-103 | Data is valid iff all sections are present, the resources and constraints are complete, the references resolve and every group has 4 students. |
| Validation.CheckItem | src/data_ingestion_process/data_validator.py:127-130 | The field loop for one item yields that item's field errors. |
| Validation.CheckItems | src/data_ingestion_process/data_validator.py:125-130 | The loop over one resource list yields its field errors. |
| Validation.CheckKind | src/data_ingestion_process/data_validator.py:119-130 | One resource kind yields a missing-resource error or its items' field errors. |
| Validation.CheckConstraint | src/data_ingestion_process/data_validator.py:145-151 | One constraint yields its missing-key errors. |
| Validation.CheckConstraints | src/data_ingestion_process/data_validator.py:144-151 | A constraint list yields its items' errors in order. |
| Validation.CheckConstraintKind | src/data_ingestion_process/data_validator.py:139-151 | One constraint kind yields a missing-list error or its items' errors. |
| Validation.CheckRefs | src/data_ingestion_process/data_validator.py:162-165 | The reference loop yields the dangling-reference errors. |
| Validation.CheckCourses | src/data_ingestion_process/data_validator.py:161-165 | The course loop yields every course's dangling-reference errors. |
| Validation.CollectIds | src/data_ingestion_process/data_validator.py:161 | The id set comprehension collects the ids of the items. |
| Validation.DataValidator.constructor | src/data_ingestion_process/data_validator.py:20-40 | The validator starts with the default configuration. |
| Validation.DataValidator.Validate | src/data_ingestion_process/data_validator.py:52-103 | `validate` returns the validation errors, and `is_valid` holds iff there are none. |
| Validation.DataValidator.ValidateRequiredSections | src/data_ingestion_process/data_validator.py:105-113 | Returns the section errors. |
| Validation.DataValidator.ValidateResources | src/data_ingestion_process/data_validator.py:115-132 | Returns the resource errors for the configured kinds. |
| Validation.DataValidator.ValidateConstraints | src/data_ingestion_process/data_validator.py:134-153 | Returns the constraint errors for the configured kinds. |
| Validation.DataValidator.ValidateRelationships | src/data_ingestion_process/data_validator.py:155-188 | Returns the relationship errors. |
| Validation.DataValidator.ValidateMentorAssignments | src/data_ingestion_process/data_validator.py:190-206 | Returns one error per student group whose size is not 4. |
| Pipeline.TeachersCreatable | src/data_ingestion_process/data_validator.py:33 | Every teacher of valid data can be created by the transformer. |
| Pipeline.StudentsCreatable | src/data_ingestion_process/data_validator.py:34 | The same for students. |
| Pipeline.CoursesCreatable | src/data_ingestion_process/data_validator.py:35 | The same for courses. |
| Pipeline.RoomsCreatable | src/data_ingestion_process/data_validator.py:36 | The same for rooms. |
| Pipeline.TimeSlotsCreatable | src/data_ingestion_process/data_validator.py:37 | The same for time slots. |
| Pipeline.StudentGroupsCreatable | src/data_ingestion_process/data_validator.py:38 | The same for student groups. |
| Pipeline.ConstraintsParsable | src/data_ingestion_process/data_validator.py:144-151 | Constraints with type, description and weight all parse. |
| Pipeline.ValidTransforms | src/data_ingestion_process/data_validator.py:52-103 | Data the validator accepts always transforms without a `KeyError`. |
| Pipeline.ValidYetUnparsed | src/data_ingestion_process/data_validator.py:33 | The validator accepts a dataset whose only teacher lacks `specialization`. The transformer accepts it too, but `parse_data` fails on it with `KeyError('specialization')`. |
| Repetition.PairsCount | src/basic_algorithm_implementations/simulated_annealing.py:86-111 | There are never more distinct (resource, slot) pairs than courses, and equally many iff no two courses share a pair. |
| Repetition.Repeats | src/basic_algorithm_implementations/simulated_annealing.py:86-111 | The number of repeated pairs is zero iff the timetable is clash-free on that resource. |
| Repetition.ScanBalance | src/basic_algorithm_implementations/simulated_annealing.py:90-97 | Throughout the seen-set scan, repeats plus the distinct pairs seen equals the items scanned. |
| Repetition.ScanCountsRepeats | src/basic_algorithm_implementations/genetic_algorithms.py:68-94 | The scan in dict order counts exactly the repeats, whatever the iteration order. |
| Annealing.GenerateInitialSolution | src/basic_algorithm_implementations/simulated_annealing.py:36-69 | Exactly the courses with an eligible teacher, a preferred room and some slot are assigned, and every assignment is legal. |
| Annealing.MentorDeviationZero | src/basic_algorithm_implementations/simulated_annealing.py:113-133 | The mentor deviation is zero iff every mentor reaches exactly 4 distinct students. |
| Annealing.MentorWithoutCourses | src/basic_algorithm_implementations/simulated_annealing.py:114-133 | A mentor who teaches nothing reaches no students and adds 4 to the deviation. |
| Annealing.UnknownCoursesIgnored | src/basic_algorithm_implementations/simulated_annealing.py:120-129 | Assigned courses missing from the dataset reach no students. |
| Annealing.Cost | src/basic_algorithm_implementations/simulated_annealing.py:71-152 | The cost is a non-negative multiple of 100. It is zero iff there are no teacher clashes, no room clashes and every mentor has 4 students. |
| Annealing.NeighborKeepsLegal | src/basic_algorithm_implementations/simulated_annealing.py:154-181 | A neighbour of a legal solution is legal. |
| Annealing.GenerateNeighbor | src/basic_algorithm_implementations/simulated_annealing.py:154-181 | The neighbour has the same courses and differs in at most one course, by a legal one-field edit. |
| Annealing.AcceptanceProbability | src/basic_algorithm_implementations/simulated_annealing.py:183-193 | A move that is no worse is accepted with probability 1. Every probability lies in [0, 1]. |
| Annealing.CertainAcceptance | src/basic_algorithm_implementations/simulated_annealing.py:218 | A probability of 1 beats every draw of `random.random()`. |
| Annealing.SimulatedAnnealing.constructor | src/basic_algorithm_implementations/simulated_annealing.py:12-34 | The solver starts from the initial solution, with its cost as both current and best cost, and the default parameters when none are given. |
| Annealing.SimulatedAnnealing.Seed | src/basic_algorithm_implementations/hybrid_algorithm.py:66-70 | Overwriting the current and best solution sets both costs to the solution's cost. |
| Annealing.SimulatedAnnealing.Step | src/basic_algorithm_implementations/simulated_annealing.py:210-229 | One iteration: a move that is no worse is always accepted, and the state changes only on acceptance. The best is replaced iff the accepted cost is strictly lower. |
| Annealing.SimulatedAnnealing.Run | src/basic_algorithm_implementations/simulated_annealing.py:195-239 | At most `max_iterations` iterations. The best cost never increases and ends no higher than the starting cost. |
| Genetic.LegalTotalMeansBuildable | src/basic_algorithm_implementations/genetic_algorithms.py:44-57 | A legal timetable for all courses exists only if every course has teachers and rooms and there are slots. |
| Genetic.GenerateRandomTimetable | src/basic_algorithm_implementations/genetic_algorithms.py:39-59 | Raises `IndexError` iff some course has no teacher or no room, or there are no slots. Otherwise it assigns every course legally. |
| Genetic.MentorPenaltyZero | src/basic_algorithm_implementations/genetic_algorithms.py:96-114 | The mentor penalty is zero iff each mentor's count is exactly 4. The count is summed over all student groups: a group's size, once for each of its courses that the mentor teaches. |
| Genetic.Fitness | src/basic_algorithm_implementations/genetic_algorithms.py:61-119 | The fitness is a non-positive multiple of 50. It is zero iff the timetable is clash-free and the mentor counts balance. |
| Genetic.FitnessIsNegatedCostWithoutMentors | src/basic_algorithm_implementations/genetic_algorithms.py:61-119 | Without mentors, the fitness is the negated annealing cost. |
| Genetic.PopulationFitness | src/basic_algorithm_implementations/genetic_algorithms.py:176 | One fitness per member, in order. |
| Genetic.IndexOfMax | src/basic_algorithm_implementations/genetic_algorithms.py:179 | The first index holding the largest value. |
| Genetic.Splice | src/basic_algorithm_implementations/genetic_algorithms.py:142-150 | Courses before the cut come from the first parent, the rest from the second. |
| Genetic.Crossover | src/basic_algorithm_implementations/genetic_algorithms.py:137-152 | Above the crossover rate the child is the first parent. Otherwise every course takes the parent chosen by its position. |
| Genetic.CrossoverKeepsLegal | src/basic_algorithm_implementations/genetic_algorithms.py:137-152 | The child of legal parents is legal. |
| Genetic.Mutation | src/basic_algorithm_implementations/genetic_algorithms.py:154-170 | Same courses, each changed only by a legal one-field edit. Mutation keeps legality. |
| Genetic.SelectElites | src/basic_algorithm_implementations/genetic_algorithms.py:187-191 | Picks `elitism_count` distinct members in order of decreasing fitness. |
| Genetic.Tournament | src/basic_algorithm_implementations/genetic_algorithms.py:124-127 | The winner is a fittest member of a sample of distinct members. |
| Genetic.KeepElites | src/basic_algorithm_implementations/genetic_algorithms.py:189-191 | The elites are copied in rank order, and the result stays legal. |
| Genetic.Breed | src/basic_algorithm_implementations/genetic_algorithms.py:194-198 | The child of crossover and mutation assigns every course legally. |
| Genetic.GeneticAlgorithm.constructor | src/basic_algorithm_implementations/genetic_algorithms.py:7-29 | The default parameters apply, a legal population of the given size is built, and there is no best yet. |
| Genetic.GeneticAlgorithm.InitializePopulation | src/basic_algorithm_implementations/genetic_algorithms.py:31-37 | `population_size` random legal timetables for all courses. |
| Genetic.GeneticAlgorithm.Selection | src/basic_algorithm_implementations/genetic_algorithms.py:121-135 | Two tournament winners. |
| Genetic.GeneticAlgorithm.ProduceChild | src/basic_algorithm_implementations/genetic_algorithms.py:194-198 | A legal child for all courses. |
| Genetic.GeneticAlgorithm.UpdateBest | src/basic_algorithm_implementations/genetic_algorithms.py:176-182 | The best fitness is the maximum over everything evaluated and never decreases. |
| Genetic.GeneticAlgorithm.NextGeneration | src/basic_algorithm_implementations/genetic_algorithms.py:184-200 | The new population has the configured size and starts with the elites in rank order. |
| Genetic.GeneticAlgorithm.Run | src/basic_algorithm_implementations/genetic_algorithms.py:172-206 | Returns the best solution. The best fitness never decreases and is the maximum evaluated. |
| ConstraintSearch.CheckMeansCompatible | src/basic_algorithm_implementations/constraint_programming.py:30-54 | An assignment passes `_check_constraints` iff it is compatible with every assignment already made. |
| ConstraintSearch.ExtendConsistent | src/basic_algorithm_implementations/constraint_programming.py:30-54 | Adding a checked assignment to a consistent partial solution keeps it consistent, and only a checked one does. |
| ConstraintSearch.BacktrackOrderFacts | src/basic_algorithm_implementations/constraint_programming.py:62-66 | The search order lists every course once, by ascending number of choices, ties in dict order. |
| ConstraintSearch.ConstraintProgramming.constructor | src/basic_algorithm_implementations/constraint_programming.py:11-28 | The default parameters apply and the working solution is empty. |
| ConstraintSearch.ConstraintProgramming.Backtrack | src/basic_algorithm_implementations/constraint_programming.py:70-102 | Success extends the working solution consistently and legally to every pending course. Failure leaves it unchanged, and then no such extension exists. |
| ConstraintSearch.ConstraintProgramming.BacktrackTeacher | src/basic_algorithm_implementations/constraint_programming.py:83-100 | The room loop for one teacher. Success completes the search. Failure leaves the solution unchanged, and then every assignment with that teacher is refused or leads to no completion. |
| ConstraintSearch.ConstraintProgramming.BacktrackRoom | src/basic_algorithm_implementations/constraint_programming.py:84-100 | The slot loop for one teacher and room. Success completes the search. Failure leaves the solution unchanged, and then every assignment with that teacher and room is refused or leads to no completion. |
| ConstraintSearch.FirstOfCompletion | src/basic_algorithm_implementations/constraint_programming.py:70-102 | Any completion places the first pending course at a legal assignment the check accepts, and completes the rest from there. |
| ConstraintSearch.NoCompletion | src/basic_algorithm_implementations/constraint_programming.py:78-102 | When every legal assignment of the first pending course is a dead end, nothing completes the pending courses. |
| ConstraintSearch.SolvableCompletes | src/basic_algorithm_implementations/constraint_programming.py:56-68 | A complete, legal, clash-free timetable completes the empty solution over any listing of all courses. |
| ConstraintSearch.BlockedGrows | src/basic_algorithm_implementations/constraint_programming.py:119-141 | A course with no accepted legal assignment stays that way when another course is placed. |
| ConstraintSearch.AppendHistory | src/basic_algorithm_implementations/constraint_programming.py:143-151 | Recording a pass keeps the counts non-increasing and earlier passes short of the stopping rule. The new pass meets the rule iff it improved to at most `max_unassigned`. |
| ConstraintSearch.ConstraintProgramming.Place | src/basic_algorithm_implementations/constraint_programming.py:86-100 | Trying one value: a non-empty result completes the search. Anything else undoes the assignment, and then no completion starts with that value. |
| ConstraintSearch.ConstraintProgramming.BacktrackingSearch | src/basic_algorithm_implementations/constraint_programming.py:56-68 | A found solution assigns every course legally and consistently. `None` means that no such timetable exists. |
| ConstraintSearch.ConstraintProgramming.CompatibleAssignments | src/basic_algorithm_implementations/constraint_programming.py:125-130 | Exactly the legal assignments that pass the constraint check. |
| ConstraintSearch.ConstraintProgramming.ForwardPass | src/basic_algorithm_implementations/constraint_programming.py:119-141 | One pass splits the courses into a sound partial solution and the still unassigned courses. Every unassigned course has no legal assignment that the check accepts next to the final solution. |
| ConstraintSearch.ConstraintProgramming.IterativeForwardChecking | src/basic_algorithm_implementations/constraint_programming.py:104-156 | The result is sound and leaves the last recorded count unassigned. The counts never increase. No pass before the last improved the best count to at most `max_unassigned`. A loop that stopped before `max_iterations` passes stopped because its last pass did. |
| ConstraintSearch.ConstraintProgramming.Run | src/basic_algorithm_implementations/constraint_programming.py:158-171 | The result is legal and consistent. Backtracking answers only for at most 20 courses, and then it assigns all of them. With at most 20 courses, at least one course, and some complete legal clash-free timetable, backtracking answers. Otherwise forward checking answers, with its guarantees. |
| Hybrid.RelativeChange | src/basic_algorithm_implementations/hybrid_algorithm.py:105 | The change is non-negative. It is zero iff the value ten entries back is zero or equals the latest. |
| Hybrid.ChangeAtMostOne | src/basic_algorithm_implementations/hybrid_algorithm.py:105 | For a non-decreasing history of non-positive values, the change is at most 1. |
| Hybrid.Cool | src/basic_algorithm_implementations/hybrid_algorithm.py:94 | Cooling keeps a positive temperature positive. |
| Hybrid.StreakMeans | src/basic_algorithm_implementations/hybrid_algorithm.py:108-114 | The stagnation count reaches n iff the last n checks each saw a change below the threshold. |
| Hybrid.HybridAlgorithm.constructor | src/basic_algorithm_implementations/hybrid_algorithm.py:15-58 | Default parameters, a fresh genetic algorithm, an empty history and zero stagnation. |
| Hybrid.HybridAlgorithm.ApplySa | src/basic_algorithm_implementations/hybrid_algorithm.py:60-96 | `sa_iterations_per_generation` annealing steps. The refined solution is legal over the same courses, and the tracked best costs no more than the input. |
| Hybrid.HybridAlgorithm.CheckConvergence | src/basic_algorithm_implementations/hybrid_algorithm.py:98-116 | Below 10 entries there is no convergence and the count is unchanged. Otherwise the count is the current streak, and convergence holds iff it reaches `max_stagnation_generations`. |
| Hybrid.HybridAlgorithm.RefineMember | src/basic_algorithm_implementations/hybrid_algorithm.py:151-153 | A refined elite stays legal for all courses. |
| Hybrid.HybridAlgorithm.NextPopulation | src/basic_algorithm_implementations/hybrid_algorithm.py:142-169 | The population keeps its size and starts with the top-ranked elites, some refined, in rank order. |
| Hybrid.HybridAlgorithm.Generation | src/basic_algorithm_implementations/hybrid_algorithm.py:129-181 | One generation appends one entry to the history, keeps the earlier entries, and reports convergence as `_check_convergence` does. |
| Hybrid.HybridAlgorithm.Run | src/basic_algorithm_implementations/hybrid_algorithm.py:118-189 | At most `generations` generations, one history entry each. An early stop means convergence, and no earlier generation converged. The final solution is the best refined by annealing. |
| Hybrid.HybridAlgorithm.NoEarlierConvergence | src/basic_algorithm_implementations/hybrid_algorithm.py:178-181 | A history with no convergence after a starting length, extended by one generation, still has none short of the new length. |
| Hybrid.CarriedStep | src/basic_algorithm_implementations/hybrid_algorithm.py:146-156 | Carrying one more elite, refined or not, keeps the carried prefix faithful to the ranking. |
| Hybrid.AppendBest | src/basic_algorithm_implementations/hybrid_algorithm.py:139-140 | Appending the best fitness keeps the history non-decreasing and non-positive. |
| Overlaps.GroupFacts | src/basic_algorithm_implementations/utils.py:249-257 | Grouping by teacher (or room) gives a dict whose keys are exactly the resources in use, each holding its slots in timetable order. |
| Overlaps.GroupAt | src/basic_algorithm_implementations/utils.py:249-257 | The per-resource view of the grouping: a present resource holds its slots and an absent one has none. |
| Overlaps.GroupByResource | src/basic_algorithm_implementations/utils.py:249-257 | The grouping loop builds the grouping specification. |
| Overlaps.CountOverlaps | src/basic_algorithm_implementations/utils.py:259-266 | The nested loops count the overlapping pairs within every group. |
| Overlaps.GroupedCountIsPairCount | src/basic_algorithm_implementations/utils.py:249-266 | The count over groups equals the number of course pairs, in timetable order, that share the resource and have overlapping slots. |
| Overlaps.CountResourceOverlaps | src/basic_algorithm_implementations/utils.py:248-286 | The teacher (or room) overlap count is the number of same-resource pairs of courses with overlapping slots. |
| BackToBack.DayGroupsFacts | src/basic_algorithm_implementations/utils.py:313-318 | Grouping a teacher's slots by day gives exactly the days in use, each with its slots in order. |
| BackToBack.DayOrderFacts | src/basic_algorithm_implementations/utils.py:322 | Sorting by start time gives a sorted permutation that keeps slots with equal start times in their order. |
| BackToBack.DayCountOrderFree | src/basic_algorithm_implementations/utils.py:322-327 | Lists that are permutations of each other with distinct start times sort to the same list and give the same count. |
| BackToBack.GroupByDay | src/basic_algorithm_implementations/utils.py:313-318 | The day loop builds the day grouping. |
| BackToBack.CountAdjacent | src/basic_algorithm_implementations/utils.py:323-327 | The loop counts consecutive pairs where one ends as the next starts. |
| BackToBack.CountDays | src/basic_algorithm_implementations/utils.py:321-327 | The count summed over days. |
| BackToBack.BackToBackSessions | src/basic_algorithm_implementations/utils.py:310-327 | The count summed over every teacher's days. |
| Violations.MentorsFacts | src/basic_algorithm_implementations/utils.py:290-292 | The mentor list holds every mentor once, in teacher order. |
| Violations.MentorLists | src/basic_algorithm_implementations/utils.py:289-292 | Each mentor starts with an empty student list. |
| Violations.ExtendMentor | src/basic_algorithm_implementations/utils.py:299-301 | Extending a mentor's list adds exactly the groups' students, and no other list changes. |
| Violations.CollectStudents | src/basic_algorithm_implementations/utils.py:295-301 | Each mentor's students are those of the groups of the courses they teach. |
| Violations.ReachedAll | src/basic_algorithm_implementations/utils.py:295-301 | These are the same students the annealing cost counts. |
| Violations.MentorDeviationOfMentors | src/basic_algorithm_implementations/utils.py:304-308 | Summing over mentors only equals summing over all teachers. |
| Violations.SumDeviations | src/basic_algorithm_implementations/utils.py:304-308 | The loop sums each mentor's distance from 4 students. |
| Violations.MentorViolations | src/basic_algorithm_implementations/utils.py:288-308 | The mentor group size count equals the annealing cost's mentor deviation. |
| Violations.CalculateConstraintViolations | src/basic_algorithm_implementations/utils.py:235-346 | Each of the five counts equals its specification: same-teacher and same-room overlapping pairs, mentor deviation, back-to-back pairs, and the scaled load spread. |
| TeachingLoad.AccumulateLoads | src/basic_algorithm_implementations/utils.py:330-334 | Every known teacher's load is the weekly hours of the courses the timetable gives them. |
| TeachingLoad.TeachingLoads | src/basic_algorithm_implementations/utils.py:330-338 | The loads in teacher order. |
| TeachingLoad.LoadsAddUp | src/basic_algorithm_implementations/utils.py:330-334 | The loads add up to the total weekly hours of the timetabled courses. |
| TeachingLoad.Variance | src/basic_algorithm_implementations/utils.py:339-340 | The variance is non-negative. |
| TeachingLoad.ScaledStdDev | src/basic_algorithm_implementations/utils.py:341-344 | `int(sqrt(variance) * 10)` is the largest k whose square is at most 100 times the variance. |
| TeachingLoad.BalancedLoadsNoPenalty | src/basic_algorithm_implementations/utils.py:337-344 | Equal loads give a penalty of zero. |
| Sorting.SortByFacts | src/basic_algorithm_implementations/utils.py:322 | The stable sort is sorted, a permutation, and keeps the order of equal keys. |
| Sorting.SortedUnique | src/basic_algorithm_implementations/constraint_programming.py:65-66 | Two sorted permutations with distinct keys are equal. |
| Sorting.SortByDistinctKeys | src/basic_algorithm_implementations/constraint_programming.py:65-66 | Sorting keeps keys distinct. |
| Sorting.DistinctKeysByWithKey | src/basic_algorithm_implementations/constraint_programming.py:65-66 | Keys are distinct iff no key occurs twice. |
| Sorting.InsertStable | src/basic_algorithm_implementations/utils.py:322 | Insertion keeps the order among equal keys. |
| Sorting.InsertPermutes | src/basic_algorithm_implementations/utils.py:322 | Insertion adds exactly the inserted element. |
| Sorting.InsertSorted | src/basic_algorithm_implementations/utils.py:322 | Insertion keeps a list sorted. |
| Strings.LexOrder | src/basic_algorithm_implementations/utils.py:322 | String comparison of start times is a strict total order. |

## Left out

- File I/O, logging, progress bars, printing, plotting and saving timetables are left out. So are `load_json_data`, `save_timetable` and `visualize_timetable`.
- `models.py`, `main.py`, `run_all.py` and the package `__init__` dispatchers are not part of this model.
- `TimeSlot.overlaps_with` and `TimeSlot._time_to_minutes` are parameters of the violation counts, because `models.py` does not define them.
- Random draws are unconstrained beyond their range, so no distribution is modelled.
- Annealing.AcceptanceProbability: for a dearer move the value of `math.exp` is only bounded to [0, 1].
- Annealing.SimulatedAnnealing.Run: the float cooling schedule is modelled with exact reals, and termination rests on the iteration bound. The run requires a temperature that stays positive inside the loop (a final temperature of at least 0, or a positive start and cooling rate). A zero temperature would make `_acceptance_probability` divide by zero, and a negative one is not modelled.
- TeachingLoad.ScaledStdDev: the mean, variance and square root are computed with exact reals, not IEEE floats. So a float rounding that moves `int(std_dev * 10)` across an integer is not captured.
- Shallow copies are left out. `solution.copy()` and `.copy()` of members share per-course dicts, so mutation can reach a parent, an elite or the recorded best. The model works on values, so `best_cost` equals the cost of `best_solution` only where the values say so.
- Genetic.SelectElites: ties in fitness may be broken in any order, whereas `numpy.argsort` has its own tie order.
- Hybrid.HybridAlgorithm.constructor: `local_search_iterations` and `population_replacement_strategy` are read but never used, so they are not modelled.
- Parameter dictionaries are either absent (all defaults) or complete. A partial dictionary raising `KeyError` is not modelled, nor is the hybrid's failure when `ga_params` is an empty dict.
- The import at `hybrid_algorithm.py:11` names `.genetic_algorithm`, but the module is `genetic_algorithms`. The model assumes the import resolves to the genetic algorithm class.
- The validator's error strings are a `ValidationError` datatype with the same fields, and its unused `mentors` list is not modelled.
- Loading a custom validator configuration from a file is not modelled; the validator uses the default configuration.
- The transformer's `transformed_at` timestamp, and its write into the input's own metadata, are not modelled. Nor is the `TypeError` when the metadata is not an object.
- JSON type errors (a string where a list is expected, say) and extra keys are not modelled; raw items are typed records with optional keys.
- Inputs on which the validator itself would crash are excluded by the `Validatable` and `RelationsReadable` preconditions. Examples are a resource list absent once relationships are checked, an item without `id` whose id is read, and a course or group without `id` that has an error to report.
- Violations.CalculateConstraintViolations: requires the `SlotsKnown`, `MentorLookups` and `LoadLookups` conditions. Without them the source raises `KeyError` at `utils.py:262`, `264`, `282`, `284`, `298`, `300`, `315`, `333` and `334`, and that error is not modelled. `parse_data` does not check that an eligible teacher is a known teacher, so the error at `utils.py:334` can occur on parsed data.
- Overlaps.CountResourceOverlaps: requires `SlotsKnown`, so the `KeyError` for an unknown time slot at `utils.py:262`, `264`, `282` and `284` is not modelled.
- BackToBack.BackToBackSessions: requires every grouped slot to be known, so the `KeyError` at `utils.py:315` is not modelled.
- Violations.MentorViolations: requires `MentorLookups`, so the `KeyError` for an unknown course or student group at `utils.py:298` and `300` is not modelled.
- TeachingLoad.AccumulateLoads: requires `LoadLookups`, so the `KeyError` for an unknown course at `utils.py:333`, or for a teacher missing from `data['teachers']` at `utils.py:334`, is not modelled.
- TeachingLoad.TeachingLoads: requires `LoadLookups`, for the same `KeyError` at `utils.py:333` and `334`.
- Hybrid.HybridAlgorithm.Run: requires at least one generation or an existing best solution. With `generations <= 0` and no best, `hybrid_algorithm.py:187` passes `None` and `solution.copy()` at `hybrid_algorithm.py:67` raises `AttributeError`. That error is not modelled.
- Other algorithm crashes are excluded by preconditions:
  - `random.choice` on an empty list;
  - `randint` on an empty range;
  - a tournament larger than the population;
  - `max([])`;
  - `elitism_count` larger than the population.
- The annealing loop at `simulated_annealing.py:203-205` only counts iterations to size the progress bar, and is left out.
- Genetic.Fitness counts a mentor's students per group rather than over all their courses, so it is the negated annealing cost only without mentors (Genetic.FitnessIsNegatedCostWithoutMentors).
- The validator's required teacher fields omit keys that `parse_data` requires. Pipeline.ValidYetUnparsed exhibits a dataset that passes validation yet fails to parse.
