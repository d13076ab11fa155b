/**
 * `parse_data`: the raw document becomes keyed collections of records.
 * Every field is required except a teacher's `max_mentees` (default 4) and a
 * student's `special_requirements` (default []); the first absent field,
 * in the order the record's fields are read, raises `KeyError`.
 */
module Parsing {
  import opened Wrappers
  import opened Domain
  import opened Raw
  import opened Collecting

  /** The first of `required[i..]` that is absent. */
  function MissingFrom(required: seq<Field>, present: Field -> bool, i: nat): Option<Field>
    requires i <= |required|
    decreases |required| - i
  {
    if i == |required| then None
    else if !present(required[i]) then Some(required[i])
    else MissingFrom(required, present, i + 1)
  }

  /** The first of `required` that is absent: the key whose lookup raises. */
  function FirstMissing(required: seq<Field>, present: Field -> bool): Option<Field> {
    MissingFrom(required, present, 0)
  }

  /** `required[k]` is absent and every field read before it is present. */
  ghost predicate FirstAbsentAt(required: seq<Field>, present: Field -> bool, k: int) {
    0 <= k < |required| && !present(required[k]) && forall j :: 0 <= j < k ==> present(required[j])
  }

  lemma {:induction false} MissingFromFacts(required: seq<Field>, present: Field -> bool, i: nat)
    requires i <= |required| && forall j :: 0 <= j < i ==> present(required[j])
    ensures MissingFrom(required, present, i).None? <==> forall j :: 0 <= j < |required| ==> present(required[j])
    ensures MissingFrom(required, present, i).Some? ==>
              exists k :: FirstAbsentAt(required, present, k) && required[k] == MissingFrom(required, present, i).value
    decreases |required| - i
  {
    if i < |required| {
      if !present(required[i]) {
        assert FirstAbsentAt(required, present, i);
      } else {
        MissingFromFacts(required, present, i + 1);
      }
    }
  }

  lemma {:induction false} MissingFromAt(required: seq<Field>, present: Field -> bool, i: nat, k: int)
    requires i <= k && FirstAbsentAt(required, present, k)
    ensures MissingFrom(required, present, i) == Some(required[k])
    decreases k - i
  {
    if i < k {
      MissingFromAt(required, present, i + 1, k);
    }
  }

  /** The first absent field in reading order is the one reported missing. */
  lemma MissingAt(required: seq<Field>, present: Field -> bool, k: int)
    requires FirstAbsentAt(required, present, k)
    ensures FirstMissing(required, present) == Some(required[k])
  {
    MissingFromAt(required, present, 0, k);
  }

  /** No field is missing iff all are present; otherwise the first missing one is the first absent in reading order. */
  lemma FirstMissingFacts(required: seq<Field>, present: Field -> bool)
    ensures FirstMissing(required, present).None? <==> forall j :: 0 <= j < |required| ==> present(required[j])
    ensures FirstMissing(required, present).Some? ==>
              exists k :: FirstAbsentAt(required, present, k) && required[k] == FirstMissing(required, present).value
  {
    MissingFromFacts(required, present, 0);
  }

  /**
   * The outcome of reading the `required` keys in order: success iff all are
   * present, otherwise `KeyError` for the first absent one.
   */
  ghost predicate RaisesFirstAbsent<T>(res: Result<T, KeyError>, required: seq<Field>, present: Field -> bool) {
    && (res.Success? <==> forall j :: 0 <= j < |required| ==> present(required[j]))
    && (res.Failure? ==> exists k :: FirstAbsentAt(required, present, k) && res.error == KeyError(required[k].Text()))
  }

  const TeacherRequired: seq<Field> :=
    [FId, FName, FDepartment, FSpecialization, FMaxHoursPerDay, FMaxHoursPerWeek,
     FPreferences, FUnavailability, FIsMentor]
  const StudentRequired: seq<Field> := [FId, FName, FBatch, FSemester, FRegisteredCourses, FNeedsMentor]
  const CourseRequired: seq<Field> :=
    [FId, FCode, FName, FCredits, FHoursPerWeek, FSessionsPerWeek, FSessionDuration,
     FRequiresLab, FPreferredRooms, FEligibleTeachers, FStudentGroups]
  const RoomRequired: seq<Field> := [FId, FName, FType, FCapacity, FFacilities, FBuilding, FFloor]
  const TimeSlotRequired: seq<Field> := [FId, FDay, FStartTime, FEndTime, FType]
  const StudentGroupRequired: seq<Field> := [FId, FName, FStudents, FCourses]
  const ConstraintRequired: seq<Field> := [FType, FDescription, FWeight]

  function ParseTeacher(r: RawTeacher): Result<Teacher, KeyError> {
    match FirstMissing(TeacherRequired, r.Has)
    case Some(f) => Failure(KeyError(f.Text()))
    case None =>
      FirstMissingFacts(TeacherRequired, r.Has);
      Success(Teacher(r.id.value, r.name.value, r.department.value, r.specialization.value, r.maxHoursPerDay.value, r.maxHoursPerWeek.value, r.preferences.value, r.unavailability.value, r.isMentor.value, r.maxMentees.GetOr(4)))
  }

  function ParseStudent(r: RawStudent): Result<Student, KeyError> {
    match FirstMissing(StudentRequired, r.Has)
    case Some(f) => Failure(KeyError(f.Text()))
    case None =>
      FirstMissingFacts(StudentRequired, r.Has);
      Success(Student(r.id.value, r.name.value, r.batch.value, r.semester.value, r.registeredCourses.value, r.needsMentor.value, r.specialRequirements.GetOr([])))
  }

  /** When no key of `CourseRequired` is missing, every one of them is present. */
  lemma CourseGiven(r: RawCourse)
    requires FirstMissing(CourseRequired, r.Has).None?
    ensures r.id.Some? && r.code.Some? && r.name.Some? && r.credits.Some? && r.hoursPerWeek.Some?
    ensures r.sessionsPerWeek.Some? && r.sessionDuration.Some? && r.requiresLab.Some?
    ensures r.preferredRooms.Some? && r.eligibleTeachers.Some? && r.studentGroups.Some?
  {
    FirstMissingFacts(CourseRequired, r.Has);
    assert r.Has(CourseRequired[0]) && r.Has(CourseRequired[1]) && r.Has(CourseRequired[2]) && r.Has(CourseRequired[3]);
    assert r.Has(CourseRequired[4]) && r.Has(CourseRequired[5]) && r.Has(CourseRequired[6]) && r.Has(CourseRequired[7]);
    assert r.Has(CourseRequired[8]) && r.Has(CourseRequired[9]) && r.Has(CourseRequired[10]);
  }

  function ParseCourse(r: RawCourse): Result<Course, KeyError> {
    match FirstMissing(CourseRequired, r.Has)
    case Some(f) => Failure(KeyError(f.Text()))
    case None =>
      CourseGiven(r);
      Success(Course(r.id.value, r.code.value, r.name.value, r.credits.value, r.hoursPerWeek.value, r.sessionsPerWeek.value, r.sessionDuration.value, r.requiresLab.value, r.preferredRooms.value, r.eligibleTeachers.value, r.studentGroups.value))
  }

  function ParseRoom(r: RawRoom): Result<Room, KeyError> {
    match FirstMissing(RoomRequired, r.Has)
    case Some(f) => Failure(KeyError(f.Text()))
    case None =>
      FirstMissingFacts(RoomRequired, r.Has);
      Success(Room(r.id.value, r.name.value, r.roomType.value, r.capacity.value, r.facilities.value, r.building.value, r.floor.value))
  }

  function ParseTimeSlot(r: RawTimeSlot): Result<TimeSlot, KeyError> {
    match FirstMissing(TimeSlotRequired, r.Has)
    case Some(f) => Failure(KeyError(f.Text()))
    case None =>
      FirstMissingFacts(TimeSlotRequired, r.Has);
      Success(TimeSlot(r.id.value, r.day.value, r.startTime.value, r.endTime.value, r.slotType.value))
  }

  function ParseStudentGroup(r: RawStudentGroup): Result<StudentGroup, KeyError> {
    match FirstMissing(StudentGroupRequired, r.Has)
    case Some(f) => Failure(KeyError(f.Text()))
    case None =>
      FirstMissingFacts(StudentGroupRequired, r.Has);
      Success(StudentGroup(r.id.value, r.name.value, r.students.value, r.courses.value))
  }

  function ParseConstraint(r: RawConstraint): Result<Constraint, KeyError> {
    match FirstMissing(ConstraintRequired, r.Has)
    case Some(f) => Failure(KeyError(f.Text()))
    case None =>
      FirstMissingFacts(ConstraintRequired, r.Has);
      Success(Constraint(r.constraintType.value, r.description.value, r.weight.value))
  }

  function TeacherId(t: Teacher): Id { t.id }
  function StudentId(s: Student): Id { s.id }
  function CourseId(c: Course): Id { c.id }
  function RoomId(r: Room): Id { r.id }
  function TimeSlotId(t: TimeSlot): Id { t.id }
  function StudentGroupId(g: StudentGroup): Id { g.id }

  /** A teacher parses iff all its required keys are present, else raises on the first absent one; `max_mentees` defaults to 4. */
  lemma ParseTeacherOutcome(r: RawTeacher)
    ensures RaisesFirstAbsent(ParseTeacher(r), TeacherRequired, r.Has)
    ensures ParseTeacher(r).Success? ==> ParseTeacher(r).value.id == r.id.value
    ensures ParseTeacher(r).Success? ==> ParseTeacher(r).value.maxMentees == r.maxMentees.GetOr(4)
  {
    FirstMissingFacts(TeacherRequired, r.Has);
  }

  /** A student parses iff all its required keys are present, else raises on the first absent one; `special_requirements` defaults to []. */
  lemma ParseStudentOutcome(r: RawStudent)
    ensures RaisesFirstAbsent(ParseStudent(r), StudentRequired, r.Has)
    ensures ParseStudent(r).Success? ==> ParseStudent(r).value.id == r.id.value
    ensures ParseStudent(r).Success? ==> ParseStudent(r).value.specialRequirements == r.specialRequirements.GetOr([])
  {
    FirstMissingFacts(StudentRequired, r.Has);
  }

  /** A course parses iff all its required keys are present, else raises on the first absent one. */
  lemma ParseCourseOutcome(r: RawCourse)
    ensures RaisesFirstAbsent(ParseCourse(r), CourseRequired, r.Has)
    ensures ParseCourse(r).Success? ==> ParseCourse(r).value.id == r.id.value
  {
    FirstMissingFacts(CourseRequired, r.Has);
  }

  /** A room parses iff all its required keys are present, else raises on the first absent one. */
  lemma ParseRoomOutcome(r: RawRoom)
    ensures RaisesFirstAbsent(ParseRoom(r), RoomRequired, r.Has)
    ensures ParseRoom(r).Success? ==> ParseRoom(r).value.id == r.id.value
  {
    FirstMissingFacts(RoomRequired, r.Has);
  }

  /** A time slot parses iff all its required keys are present, else raises on the first absent one. */
  lemma ParseTimeSlotOutcome(r: RawTimeSlot)
    ensures RaisesFirstAbsent(ParseTimeSlot(r), TimeSlotRequired, r.Has)
    ensures ParseTimeSlot(r).Success? ==> ParseTimeSlot(r).value.id == r.id.value
  {
    FirstMissingFacts(TimeSlotRequired, r.Has);
  }

  /** A student group parses iff all its required keys are present, else raises on the first absent one. */
  lemma ParseStudentGroupOutcome(r: RawStudentGroup)
    ensures RaisesFirstAbsent(ParseStudentGroup(r), StudentGroupRequired, r.Has)
    ensures ParseStudentGroup(r).Success? ==> ParseStudentGroup(r).value.id == r.id.value
  {
    FirstMissingFacts(StudentGroupRequired, r.Has);
  }

  /** A constraint parses iff all its required keys are present, else raises on the first absent one. */
  lemma ParseConstraintOutcome(r: RawConstraint)
    ensures RaisesFirstAbsent(ParseConstraint(r), ConstraintRequired, r.Has)
  {
    FirstMissingFacts(ConstraintRequired, r.Has);
  }

  function Teachers(input: RawInput): seq<RawTeacher> { input.resources.GetOr(NoResources).teachers.GetOr([]) }
  function Students(input: RawInput): seq<RawStudent> { input.resources.GetOr(NoResources).students.GetOr([]) }
  function Courses(input: RawInput): seq<RawCourse> { input.resources.GetOr(NoResources).courses.GetOr([]) }
  function Rooms(input: RawInput): seq<RawRoom> { input.resources.GetOr(NoResources).rooms.GetOr([]) }
  function TimeSlots(input: RawInput): seq<RawTimeSlot> { input.resources.GetOr(NoResources).timeSlots.GetOr([]) }
  function StudentGroups(input: RawInput): seq<RawStudentGroup> {
    input.resources.GetOr(NoResources).studentGroups.GetOr([])
  }
  function HardConstraints(input: RawInput): seq<RawConstraint> { input.constraints.GetOr(NoConstraints).hard.GetOr([]) }
  function SoftConstraints(input: RawInput): seq<RawConstraint> { input.constraints.GetOr(NoConstraints).soft.GetOr([]) }

  /** The whole of `parse_data`; `algorithm_parameters` defaults to `{}`. */
  function ParseData(input: RawInput): Result<Dataset, KeyError> {
    var teachers :- Collect(Teachers(input), ParseTeacher, TeacherId);
    var students :- Collect(Students(input), ParseStudent, StudentId);
    var courses :- Collect(Courses(input), ParseCourse, CourseId);
    var rooms :- Collect(Rooms(input), ParseRoom, RoomId);
    var timeSlots :- Collect(TimeSlots(input), ParseTimeSlot, TimeSlotId);
    var studentGroups :- Collect(StudentGroups(input), ParseStudentGroup, StudentGroupId);
    var hard :- CollectList(HardConstraints(input), ParseConstraint);
    var soft :- CollectList(SoftConstraints(input), ParseConstraint);
    Success(Dataset(teachers, students, courses, rooms, timeSlots, studentGroups, hard, soft,
                    Some(input.algorithmParameters.GetOr(EmptyObject))))
  }

  /** Every record of the document, in every list present, parses. */
  ghost predicate AllParse(input: RawInput) {
    && AllMade(Teachers(input), ParseTeacher) && AllMade(Students(input), ParseStudent)
    && AllMade(Courses(input), ParseCourse) && AllMade(Rooms(input), ParseRoom)
    && AllMade(TimeSlots(input), ParseTimeSlot) && AllMade(StudentGroups(input), ParseStudentGroup)
    && AllMade(HardConstraints(input), ParseConstraint) && AllMade(SoftConstraints(input), ParseConstraint)
  }

  /** `parse_data` builds a dataset iff every record parses. */
  lemma ParseDataSucceeds(input: RawInput)
    ensures ParseData(input).Success? <==> AllParse(input)
  {
    CollectOutcome(Teachers(input), ParseTeacher, TeacherId);
    CollectOutcome(Students(input), ParseStudent, StudentId);
    CollectOutcome(Courses(input), ParseCourse, CourseId);
    CollectOutcome(Rooms(input), ParseRoom, RoomId);
    CollectOutcome(TimeSlots(input), ParseTimeSlot, TimeSlotId);
    CollectOutcome(StudentGroups(input), ParseStudentGroup, StudentGroupId);
    CollectListFacts(HardConstraints(input), ParseConstraint);
    CollectListFacts(SoftConstraints(input), ParseConstraint);
  }

  /**
   * A built dataset holds, per resource, exactly the parsed records under their
   * ids with the last duplicate winning; the constraint lists one record per
   * item in order; and `algorithm_parameters`, `{}` when absent.
   */
  lemma ParseDataContents(input: RawInput)
    requires AllParse(input)
    ensures ParseData(input).Success?
    ensures var d := ParseData(input).value;
      && d.Valid()
      && Holds(d.teachers, Teachers(input), ParseTeacher, TeacherId)
      && Holds(d.students, Students(input), ParseStudent, StudentId)
      && Holds(d.courses, Courses(input), ParseCourse, CourseId)
      && Holds(d.rooms, Rooms(input), ParseRoom, RoomId)
      && Holds(d.timeSlots, TimeSlots(input), ParseTimeSlot, TimeSlotId)
      && Holds(d.studentGroups, StudentGroups(input), ParseStudentGroup, StudentGroupId)
      && |d.hardConstraints| == |HardConstraints(input)|
      && (forall i :: 0 <= i < |d.hardConstraints| ==> d.hardConstraints[i] == ParseConstraint(HardConstraints(input)[i]).value)
      && |d.softConstraints| == |SoftConstraints(input)|
      && (forall i :: 0 <= i < |d.softConstraints| ==> d.softConstraints[i] == ParseConstraint(SoftConstraints(input)[i]).value)
      && d.algorithmParameters == Some(input.algorithmParameters.GetOr(EmptyObject))
  {
    CollectHolds(Teachers(input), ParseTeacher, TeacherId);
    CollectHolds(Students(input), ParseStudent, StudentId);
    CollectHolds(Courses(input), ParseCourse, CourseId);
    CollectHolds(Rooms(input), ParseRoom, RoomId);
    CollectHolds(TimeSlots(input), ParseTimeSlot, TimeSlotId);
    CollectHolds(StudentGroups(input), ParseStudentGroup, StudentGroupId);
    CollectListFacts(HardConstraints(input), ParseConstraint);
    CollectListFacts(SoftConstraints(input), ParseConstraint);
  }
}
