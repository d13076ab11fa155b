/**
 * The data transformer: the same ingestion loops as `parse_data`, but each
 * record needs only a few keys (its id and name, a course also its code, a
 * time slot its day and times) and every other field takes a default.
 * `algorithm_parameters` is copied only when the input has it.
 */
module Transformation {
  import opened Wrappers
  import opened Domain
  import opened Raw
  import opened Collecting
  import opened Parsing

  /*
   * The keys each `_create_*_object` subscripts, in reading order. The loop
   * reads `item["id"]` before calling the constructor, which reads it again
   * first, so `id` leads every list.
   */
  const TeacherKeys: seq<Field> := [FId, FName]
  const StudentKeys: seq<Field> := [FId, FName]
  const CourseKeys: seq<Field> := [FId, FCode, FName]
  const RoomKeys: seq<Field> := [FId, FName]
  const TimeSlotKeys: seq<Field> := [FId, FDay, FStartTime, FEndTime]
  const StudentGroupKeys: seq<Field> := [FId, FName]

  function CreateTeacher(r: RawTeacher): Result<Teacher, KeyError> {
    match FirstMissing(TeacherKeys, r.Has)
    case Some(f) => Failure(KeyError(f.Text()))
    case None =>
      FirstMissingFacts(TeacherKeys, r.Has);
      Success(Teacher(r.id.value, r.name.value, r.department.GetOr(""), r.specialization.GetOr([]),
                      r.maxHoursPerDay.GetOr(8), r.maxHoursPerWeek.GetOr(40), r.preferences.GetOr(EmptyObject),
                      r.unavailability.GetOr(EmptyArray), r.isMentor.GetOr(false), r.maxMentees.GetOr(4)))
  }

  function CreateStudent(r: RawStudent): Result<Student, KeyError> {
    match FirstMissing(StudentKeys, r.Has)
    case Some(f) => Failure(KeyError(f.Text()))
    case None =>
      FirstMissingFacts(StudentKeys, r.Has);
      Success(Student(r.id.value, r.name.value, r.batch.GetOr(""), r.semester.GetOr(1),
                      r.registeredCourses.GetOr([]), r.needsMentor.GetOr(false), r.specialRequirements.GetOr([])))
  }

  function CreateCourse(r: RawCourse): Result<Course, KeyError> {
    match FirstMissing(CourseKeys, r.Has)
    case Some(f) => Failure(KeyError(f.Text()))
    case None =>
      FirstMissingFacts(CourseKeys, r.Has);
      Success(Course(r.id.value, r.code.value, r.name.value, r.credits.GetOr(0), r.hoursPerWeek.GetOr(0),
                     r.sessionsPerWeek.GetOr(1), r.sessionDuration.GetOr(1), r.requiresLab.GetOr(false),
                     r.preferredRooms.GetOr([]), r.eligibleTeachers.GetOr([]), r.studentGroups.GetOr([])))
  }

  function CreateRoom(r: RawRoom): Result<Room, KeyError> {
    match FirstMissing(RoomKeys, r.Has)
    case Some(f) => Failure(KeyError(f.Text()))
    case None =>
      FirstMissingFacts(RoomKeys, r.Has);
      Success(Room(r.id.value, r.name.value, r.roomType.GetOr("Lecture Hall"), r.capacity.GetOr(0),
                   r.facilities.GetOr([]), r.building.GetOr(""), r.floor.GetOr(0)))
  }

  function CreateTimeSlot(r: RawTimeSlot): Result<TimeSlot, KeyError> {
    match FirstMissing(TimeSlotKeys, r.Has)
    case Some(f) => Failure(KeyError(f.Text()))
    case None =>
      FirstMissingFacts(TimeSlotKeys, r.Has);
      Success(TimeSlot(r.id.value, r.day.value, r.startTime.value, r.endTime.value, r.slotType.GetOr("Regular")))
  }

  function CreateStudentGroup(r: RawStudentGroup): Result<StudentGroup, KeyError> {
    match FirstMissing(StudentGroupKeys, r.Has)
    case Some(f) => Failure(KeyError(f.Text()))
    case None =>
      FirstMissingFacts(StudentGroupKeys, r.Has);
      Success(StudentGroup(r.id.value, r.name.value, r.students.GetOr([]), r.courses.GetOr([])))
  }

  /** A teacher is created iff it has `id` and `name`, else the first of them absent raises. */
  lemma CreateTeacherOutcome(r: RawTeacher)
    ensures RaisesFirstAbsent(CreateTeacher(r), TeacherKeys, r.Has)
  {
    FirstMissingFacts(TeacherKeys, r.Has);
  }

  lemma CreateStudentOutcome(r: RawStudent)
    ensures RaisesFirstAbsent(CreateStudent(r), StudentKeys, r.Has)
  {
    FirstMissingFacts(StudentKeys, r.Has);
  }

  lemma CreateCourseOutcome(r: RawCourse)
    ensures RaisesFirstAbsent(CreateCourse(r), CourseKeys, r.Has)
  {
    FirstMissingFacts(CourseKeys, r.Has);
  }

  lemma CreateRoomOutcome(r: RawRoom)
    ensures RaisesFirstAbsent(CreateRoom(r), RoomKeys, r.Has)
  {
    FirstMissingFacts(RoomKeys, r.Has);
  }

  lemma CreateTimeSlotOutcome(r: RawTimeSlot)
    ensures RaisesFirstAbsent(CreateTimeSlot(r), TimeSlotKeys, r.Has)
  {
    FirstMissingFacts(TimeSlotKeys, r.Has);
  }

  lemma CreateStudentGroupOutcome(r: RawStudentGroup)
    ensures RaisesFirstAbsent(CreateStudentGroup(r), StudentGroupKeys, r.Has)
  {
    FirstMissingFacts(StudentGroupKeys, r.Has);
  }

  /*
   * Where `parse_data` accepts a record, the transformer builds the same one:
   * every key it defaults is present, and the two `.get` defaults
   * (`max_mentees`, `special_requirements`) agree.
   */

  lemma TeacherAgrees(t: RawTeacher)
    requires ParseTeacher(t).Success?
    ensures CreateTeacher(t) == ParseTeacher(t)
  {
    FirstMissingFacts(TeacherRequired, t.Has);
    assert t.Has(TeacherRequired[0]) && t.Has(TeacherRequired[1]) && t.Has(TeacherRequired[2]) && t.Has(TeacherRequired[3]) && t.Has(TeacherRequired[4]) && t.Has(TeacherRequired[5]) && t.Has(TeacherRequired[6]) && t.Has(TeacherRequired[7]) && t.Has(TeacherRequired[8]);
  }

  lemma StudentAgrees(s: RawStudent)
    requires ParseStudent(s).Success?
    ensures CreateStudent(s) == ParseStudent(s)
  {
    FirstMissingFacts(StudentRequired, s.Has);
    assert s.Has(StudentRequired[0]) && s.Has(StudentRequired[1]) && s.Has(StudentRequired[2]) && s.Has(StudentRequired[3]) && s.Has(StudentRequired[4]) && s.Has(StudentRequired[5]);
  }

  lemma CourseFieldsPresent(c: RawCourse)
    requires ParseCourse(c).Success?
    ensures c.credits.Some? && c.hoursPerWeek.Some? && c.sessionsPerWeek.Some? && c.sessionDuration.Some?
    ensures c.requiresLab.Some? && c.preferredRooms.Some? && c.eligibleTeachers.Some? && c.studentGroups.Some?
  {
    FirstMissingFacts(CourseRequired, c.Has);
    assert c.Has(CourseRequired[3]) && c.Has(CourseRequired[4]) && c.Has(CourseRequired[5]) && c.Has(CourseRequired[6]);
    assert c.Has(CourseRequired[7]) && c.Has(CourseRequired[8]) && c.Has(CourseRequired[9]) && c.Has(CourseRequired[10]);
  }

  lemma CourseAgrees(c: RawCourse)
    requires ParseCourse(c).Success?
    ensures CreateCourse(c) == ParseCourse(c)
  {
    CourseFieldsPresent(c);
  }

  lemma RoomAgrees(r: RawRoom)
    requires ParseRoom(r).Success?
    ensures CreateRoom(r) == ParseRoom(r)
  {
    FirstMissingFacts(RoomRequired, r.Has);
    assert r.Has(RoomRequired[0]) && r.Has(RoomRequired[1]) && r.Has(RoomRequired[2]) && r.Has(RoomRequired[3]) && r.Has(RoomRequired[4]) && r.Has(RoomRequired[5]) && r.Has(RoomRequired[6]);
  }

  lemma TimeSlotAgrees(t: RawTimeSlot)
    requires ParseTimeSlot(t).Success?
    ensures CreateTimeSlot(t) == ParseTimeSlot(t)
  {
    FirstMissingFacts(TimeSlotRequired, t.Has);
    assert t.Has(TimeSlotRequired[0]) && t.Has(TimeSlotRequired[1]) && t.Has(TimeSlotRequired[2]) && t.Has(TimeSlotRequired[3]) && t.Has(TimeSlotRequired[4]);
  }

  lemma StudentGroupAgrees(g: RawStudentGroup)
    requires ParseStudentGroup(g).Success?
    ensures CreateStudentGroup(g) == ParseStudentGroup(g)
  {
    FirstMissingFacts(StudentGroupRequired, g.Has);
    assert g.Has(StudentGroupRequired[0]) && g.Has(StudentGroupRequired[1]) && g.Has(StudentGroupRequired[2]) && g.Has(StudentGroupRequired[3]);
  }

  /** The defaults: records carrying only their required keys. */
  lemma MinimalTeacher(id: Id, name: string)
    ensures CreateTeacher(RawTeacher(Some(id), Some(name), None, None, None, None, None, None, None, None))
            == Success(Teacher(id, name, "", [], 8, 40, EmptyObject, EmptyArray, false, 4))
  {
  }

  lemma MinimalStudent(id: Id, name: string)
    ensures CreateStudent(RawStudent(Some(id), Some(name), None, None, None, None, None))
            == Success(Student(id, name, "", 1, [], false, []))
  {
  }

  lemma MinimalCourse(id: Id, code: string, name: string)
    ensures CreateCourse(RawCourse(Some(id), Some(code), Some(name), None, None, None, None, None, None, None, None))
            == Success(Course(id, code, name, 0, 0, 1, 1, false, [], [], []))
  {
  }

  lemma MinimalRoom(id: Id, name: string)
    ensures CreateRoom(RawRoom(Some(id), Some(name), None, None, None, None, None))
            == Success(Room(id, name, "Lecture Hall", 0, [], "", 0))
  {
  }

  lemma MinimalTimeSlot(id: Id, day: string, start: string, end: string)
    ensures CreateTimeSlot(RawTimeSlot(Some(id), Some(day), Some(start), Some(end), None))
            == Success(TimeSlot(id, day, start, end, "Regular"))
  {
  }

  lemma MinimalStudentGroup(id: Id, name: string)
    ensures CreateStudentGroup(RawStudentGroup(Some(id), Some(name), None, None))
            == Success(StudentGroup(id, name, [], []))
  {
  }

  /** The transformer's output: the dataset and the `metadata` section, `{}` when absent. */
  datatype Transformed = Transformed(data: Dataset, metadata: Json)

  /** The six resource maps, with no constraints or parameters yet. */
  function ResourcesOf(input: RawInput): Result<Dataset, KeyError> {
    var teachers :- Collect(Teachers(input), CreateTeacher, TeacherId);
    var students :- Collect(Students(input), CreateStudent, StudentId);
    var courses :- Collect(Courses(input), CreateCourse, CourseId);
    var rooms :- Collect(Rooms(input), CreateRoom, RoomId);
    var timeSlots :- Collect(TimeSlots(input), CreateTimeSlot, TimeSlotId);
    var studentGroups :- Collect(StudentGroups(input), CreateStudentGroup, StudentGroupId);
    Success(Dataset(teachers, students, courses, rooms, timeSlots, studentGroups, [], [], None))
  }

  /** What `transform` returns, or the `KeyError` it raises. */
  function TransformOf(input: RawInput): Result<Transformed, KeyError> {
    var d :- ResourcesOf(input);
    var hard :- CollectList(HardConstraints(input), ParseConstraint);
    var soft :- CollectList(SoftConstraints(input), ParseConstraint);
    Success(Transformed(d.(hardConstraints := hard, softConstraints := soft,
                           algorithmParameters := input.algorithmParameters),
                        input.metadata.GetOr(EmptyObject)))
  }

  /** The `transformed_data` dict that `transform` fills in place. */
  class TransformedData {
    var teachers: Keyed<Teacher>
    var students: Keyed<Student>
    var courses: Keyed<Course>
    var rooms: Keyed<Room>
    var timeSlots: Keyed<TimeSlot>
    var studentGroups: Keyed<StudentGroup>
    var hardConstraints: seq<Constraint>
    var softConstraints: seq<Constraint>
    var algorithmParameters: Option<Json>
    var metadata: Json

    /** Six empty maps, two empty lists, no parameters yet. */
    constructor ()
      ensures teachers == EmptyKeyed() && students == EmptyKeyed() && courses == EmptyKeyed()
      ensures rooms == EmptyKeyed() && timeSlots == EmptyKeyed() && studentGroups == EmptyKeyed()
      ensures hardConstraints == [] && softConstraints == [] && algorithmParameters == None
      ensures metadata == EmptyObject
    {
      teachers, students, courses := EmptyKeyed(), EmptyKeyed(), EmptyKeyed();
      rooms, timeSlots, studentGroups := EmptyKeyed(), EmptyKeyed(), EmptyKeyed();
      hardConstraints, softConstraints := [], [];
      algorithmParameters, metadata := None, EmptyObject;
    }

    function Contents(): Transformed
      reads this
    {
      Transformed(Dataset(teachers, students, courses, rooms, timeSlots, studentGroups,
                          hardConstraints, softConstraints, algorithmParameters),
                  metadata)
    }

    /** `_transform_teachers`: put each teacher under its id, or stop at the first `KeyError`. */
    method TransformTeachers(input: RawInput) returns (err: Option<KeyError>)
      requires teachers == EmptyKeyed()
      modifies this`teachers
      ensures match Collect(Teachers(input), CreateTeacher, TeacherId)
              case Success(k) => err == None && teachers == k
              case Failure(e) => err == Some(e)
    {
      var items := Teachers(input);
      var i := 0;
      while i < |items|
        invariant 0 <= i <= |items|
        invariant Collect(items[..i], CreateTeacher, TeacherId) == Success(teachers)
      {
        var t := CreateTeacher(items[i]);
        if t.Failure? {
          CollectFailsAt(items, CreateTeacher, TeacherId, i);
          return Some(t.error);
        }
        CollectStep(items, CreateTeacher, TeacherId, i);
        teachers := teachers.Put(t.value.id, t.value);
        i := i + 1;
      }
      assert items[..i] == items;
      return None;
    }

    /** `_transform_students`. */
    method TransformStudents(input: RawInput) returns (err: Option<KeyError>)
      requires students == EmptyKeyed()
      modifies this`students
      ensures match Collect(Students(input), CreateStudent, StudentId)
              case Success(k) => err == None && students == k
              case Failure(e) => err == Some(e)
    {
      var items := Students(input);
      var i := 0;
      while i < |items|
        invariant 0 <= i <= |items|
        invariant Collect(items[..i], CreateStudent, StudentId) == Success(students)
      {
        var s := CreateStudent(items[i]);
        if s.Failure? {
          CollectFailsAt(items, CreateStudent, StudentId, i);
          return Some(s.error);
        }
        CollectStep(items, CreateStudent, StudentId, i);
        students := students.Put(s.value.id, s.value);
        i := i + 1;
      }
      assert items[..i] == items;
      return None;
    }

    /** `_transform_courses`. */
    method TransformCourses(input: RawInput) returns (err: Option<KeyError>)
      requires courses == EmptyKeyed()
      modifies this`courses
      ensures match Collect(Courses(input), CreateCourse, CourseId)
              case Success(k) => err == None && courses == k
              case Failure(e) => err == Some(e)
    {
      var items := Courses(input);
      var i := 0;
      while i < |items|
        invariant 0 <= i <= |items|
        invariant Collect(items[..i], CreateCourse, CourseId) == Success(courses)
      {
        var c := CreateCourse(items[i]);
        if c.Failure? {
          CollectFailsAt(items, CreateCourse, CourseId, i);
          return Some(c.error);
        }
        CollectStep(items, CreateCourse, CourseId, i);
        courses := courses.Put(c.value.id, c.value);
        i := i + 1;
      }
      assert items[..i] == items;
      return None;
    }

    /** `_transform_rooms`. */
    method TransformRooms(input: RawInput) returns (err: Option<KeyError>)
      requires rooms == EmptyKeyed()
      modifies this`rooms
      ensures match Collect(Rooms(input), CreateRoom, RoomId)
              case Success(k) => err == None && rooms == k
              case Failure(e) => err == Some(e)
    {
      var items := Rooms(input);
      var i := 0;
      while i < |items|
        invariant 0 <= i <= |items|
        invariant Collect(items[..i], CreateRoom, RoomId) == Success(rooms)
      {
        var r := CreateRoom(items[i]);
        if r.Failure? {
          CollectFailsAt(items, CreateRoom, RoomId, i);
          return Some(r.error);
        }
        CollectStep(items, CreateRoom, RoomId, i);
        rooms := rooms.Put(r.value.id, r.value);
        i := i + 1;
      }
      assert items[..i] == items;
      return None;
    }

    /** `_transform_time_slots`. */
    method TransformTimeSlots(input: RawInput) returns (err: Option<KeyError>)
      requires timeSlots == EmptyKeyed()
      modifies this`timeSlots
      ensures match Collect(TimeSlots(input), CreateTimeSlot, TimeSlotId)
              case Success(k) => err == None && timeSlots == k
              case Failure(e) => err == Some(e)
    {
      var items := TimeSlots(input);
      var i := 0;
      while i < |items|
        invariant 0 <= i <= |items|
        invariant Collect(items[..i], CreateTimeSlot, TimeSlotId) == Success(timeSlots)
      {
        var t := CreateTimeSlot(items[i]);
        if t.Failure? {
          CollectFailsAt(items, CreateTimeSlot, TimeSlotId, i);
          return Some(t.error);
        }
        CollectStep(items, CreateTimeSlot, TimeSlotId, i);
        timeSlots := timeSlots.Put(t.value.id, t.value);
        i := i + 1;
      }
      assert items[..i] == items;
      return None;
    }

    /** `_transform_student_groups`. */
    method TransformStudentGroups(input: RawInput) returns (err: Option<KeyError>)
      requires studentGroups == EmptyKeyed()
      modifies this`studentGroups
      ensures match Collect(StudentGroups(input), CreateStudentGroup, StudentGroupId)
              case Success(k) => err == None && studentGroups == k
              case Failure(e) => err == Some(e)
    {
      var items := StudentGroups(input);
      var i := 0;
      while i < |items|
        invariant 0 <= i <= |items|
        invariant Collect(items[..i], CreateStudentGroup, StudentGroupId) == Success(studentGroups)
      {
        var g := CreateStudentGroup(items[i]);
        if g.Failure? {
          CollectFailsAt(items, CreateStudentGroup, StudentGroupId, i);
          return Some(g.error);
        }
        CollectStep(items, CreateStudentGroup, StudentGroupId, i);
        studentGroups := studentGroups.Put(g.value.id, g.value);
        i := i + 1;
      }
      assert items[..i] == items;
      return None;
    }

    /** The six `_transform_*` calls for the resources, in order. */
    method TransformResources(input: RawInput) returns (err: Option<KeyError>)
      requires teachers == EmptyKeyed() && students == EmptyKeyed() && courses == EmptyKeyed()
      requires rooms == EmptyKeyed() && timeSlots == EmptyKeyed() && studentGroups == EmptyKeyed()
      modifies this`teachers, this`students, this`courses, this`rooms, this`timeSlots, this`studentGroups
      ensures match ResourcesOf(input)
              case Failure(e) => err == Some(e)
              case Success(d) =>
                && err == None && teachers == d.teachers && students == d.students && courses == d.courses
                && rooms == d.rooms && timeSlots == d.timeSlots && studentGroups == d.studentGroups
    {
      err := TransformTeachers(input);
      if err.Some? { return; }
      err := TransformStudents(input);
      if err.Some? { return; }
      err := TransformCourses(input);
      if err.Some? { return; }
      err := TransformRooms(input);
      if err.Some? { return; }
      err := TransformTimeSlots(input);
      if err.Some? { return; }
      err := TransformStudentGroups(input);
    }

    /** One of the two loops of `_transform_constraints`: append each constraint, in order. */
    static method CopyConstraints(items: seq<RawConstraint>, into: seq<Constraint>) returns (r: Result<seq<Constraint>, KeyError>)
      requires into == []
      ensures r == CollectList(items, ParseConstraint)
    {
      var out := into;
      var i := 0;
      while i < |items|
        invariant 0 <= i <= |items|
        invariant CollectList(items[..i], ParseConstraint) == Success(out)
      {
        var c := ParseConstraint(items[i]);
        if c.Failure? {
          CollectListFailsAt(items, ParseConstraint, i);
          return Failure(c.error);
        }
        CollectListStep(items, ParseConstraint, i);
        out := out + [c.value];
        i := i + 1;
      }
      assert items[..i] == items;
      return Success(out);
    }

    /** `_transform_constraints`: the hard list, then the soft list. */
    method TransformConstraints(input: RawInput) returns (err: Option<KeyError>)
      requires hardConstraints == [] && softConstraints == []
      modifies this`hardConstraints, this`softConstraints
      ensures match CollectList(HardConstraints(input), ParseConstraint)
              case Failure(e) => err == Some(e)
              case Success(h) =>
                hardConstraints == h &&
                match CollectList(SoftConstraints(input), ParseConstraint)
                case Failure(e) => err == Some(e)
                case Success(s) => err == None && softConstraints == s
    {
      var hard := CopyConstraints(HardConstraints(input), hardConstraints);
      if hard.Failure? {
        return Some(hard.error);
      }
      hardConstraints := hard.value;
      var soft := CopyConstraints(SoftConstraints(input), softConstraints);
      if soft.Failure? {
        return Some(soft.error);
      }
      softConstraints := soft.value;
      return None;
    }
  }

  /** `transform`: fill a fresh `transformed_data`, resource by resource, then the constraints and parameters. */
  method Transform(input: RawInput) returns (res: Result<Transformed, KeyError>)
    ensures res == TransformOf(input)
  {
    var t := new TransformedData();
    var e := t.TransformResources(input);
    if e.Some? { return Failure(e.value); }
    e := t.TransformConstraints(input);
    if e.Some? { return Failure(e.value); }
    if input.algorithmParameters.Some? {
      t.algorithmParameters := input.algorithmParameters;
    }
    t.metadata := input.metadata.GetOr(EmptyObject);
    return Success(t.Contents());
  }

  /** Items that all parse build the same collection either way. */
  lemma TeachersAgree(items: seq<RawTeacher>)
    requires AllMade(items, ParseTeacher)
    ensures Collect(items, CreateTeacher, TeacherId) == Collect(items, ParseTeacher, TeacherId)
  {
    forall i | 0 <= i < |items| { TeacherAgrees(items[i]); }
    CollectAgree(items, ParseTeacher, CreateTeacher, TeacherId);
  }

  lemma StudentsAgree(items: seq<RawStudent>)
    requires AllMade(items, ParseStudent)
    ensures Collect(items, CreateStudent, StudentId) == Collect(items, ParseStudent, StudentId)
  {
    forall i | 0 <= i < |items| { StudentAgrees(items[i]); }
    CollectAgree(items, ParseStudent, CreateStudent, StudentId);
  }

  lemma CoursesAgree(items: seq<RawCourse>)
    requires AllMade(items, ParseCourse)
    ensures Collect(items, CreateCourse, CourseId) == Collect(items, ParseCourse, CourseId)
  {
    forall i | 0 <= i < |items| { CourseAgrees(items[i]); }
    CollectAgree(items, ParseCourse, CreateCourse, CourseId);
  }

  lemma RoomsAgree(items: seq<RawRoom>)
    requires AllMade(items, ParseRoom)
    ensures Collect(items, CreateRoom, RoomId) == Collect(items, ParseRoom, RoomId)
  {
    forall i | 0 <= i < |items| { RoomAgrees(items[i]); }
    CollectAgree(items, ParseRoom, CreateRoom, RoomId);
  }

  lemma TimeSlotsAgree(items: seq<RawTimeSlot>)
    requires AllMade(items, ParseTimeSlot)
    ensures Collect(items, CreateTimeSlot, TimeSlotId) == Collect(items, ParseTimeSlot, TimeSlotId)
  {
    forall i | 0 <= i < |items| { TimeSlotAgrees(items[i]); }
    CollectAgree(items, ParseTimeSlot, CreateTimeSlot, TimeSlotId);
  }

  lemma StudentGroupsAgree(items: seq<RawStudentGroup>)
    requires AllMade(items, ParseStudentGroup)
    ensures Collect(items, CreateStudentGroup, StudentGroupId) == Collect(items, ParseStudentGroup, StudentGroupId)
  {
    forall i | 0 <= i < |items| { StudentGroupAgrees(items[i]); }
    CollectAgree(items, ParseStudentGroup, CreateStudentGroup, StudentGroupId);
  }

  /** Every record has the keys the transformer subscripts, and every constraint its three keys. */
  ghost predicate AllCreate(input: RawInput) {
    && AllMade(Teachers(input), CreateTeacher) && AllMade(Students(input), CreateStudent)
    && AllMade(Courses(input), CreateCourse) && AllMade(Rooms(input), CreateRoom)
    && AllMade(TimeSlots(input), CreateTimeSlot) && AllMade(StudentGroups(input), CreateStudentGroup)
    && AllMade(HardConstraints(input), ParseConstraint) && AllMade(SoftConstraints(input), ParseConstraint)
  }

  /** `transform` returns iff every record has its few required keys. */
  lemma TransformSucceeds(input: RawInput)
    ensures TransformOf(input).Success? <==> AllCreate(input)
  {
    CollectOutcome(Teachers(input), CreateTeacher, TeacherId);
    CollectOutcome(Students(input), CreateStudent, StudentId);
    CollectOutcome(Courses(input), CreateCourse, CourseId);
    CollectOutcome(Rooms(input), CreateRoom, RoomId);
    CollectOutcome(TimeSlots(input), CreateTimeSlot, TimeSlotId);
    CollectOutcome(StudentGroups(input), CreateStudentGroup, StudentGroupId);
    CollectListFacts(HardConstraints(input), ParseConstraint);
    CollectListFacts(SoftConstraints(input), ParseConstraint);
  }

  /**
   * The output holds, per resource, the created records under their ids with
   * the last duplicate winning (no entries at all when the input lacks the
   * list), the constraints in order, and `algorithm_parameters` exactly when
   * the input has it.
   */
  lemma TransformContents(input: RawInput)
    requires AllCreate(input)
    ensures TransformOf(input).Success?
    ensures var d := TransformOf(input).value.data;
      && d.Valid()
      && Holds(d.teachers, Teachers(input), CreateTeacher, TeacherId)
      && Holds(d.students, Students(input), CreateStudent, StudentId)
      && Holds(d.courses, Courses(input), CreateCourse, CourseId)
      && Holds(d.rooms, Rooms(input), CreateRoom, RoomId)
      && Holds(d.timeSlots, TimeSlots(input), CreateTimeSlot, TimeSlotId)
      && Holds(d.studentGroups, StudentGroups(input), CreateStudentGroup, StudentGroupId)
      && |d.hardConstraints| == |HardConstraints(input)|
      && (forall i :: 0 <= i < |d.hardConstraints| ==> d.hardConstraints[i] == ParseConstraint(HardConstraints(input)[i]).value)
      && |d.softConstraints| == |SoftConstraints(input)|
      && (forall i :: 0 <= i < |d.softConstraints| ==> d.softConstraints[i] == ParseConstraint(SoftConstraints(input)[i]).value)
      && (d.algorithmParameters.Some? <==> input.algorithmParameters.Some?)
      && (input.algorithmParameters.Some? ==> d.algorithmParameters == input.algorithmParameters)
    ensures TransformOf(input).value.metadata == input.metadata.GetOr(EmptyObject)
  {
    CollectHolds(Teachers(input), CreateTeacher, TeacherId);
    CollectHolds(Students(input), CreateStudent, StudentId);
    CollectHolds(Courses(input), CreateCourse, CourseId);
    CollectHolds(Rooms(input), CreateRoom, RoomId);
    CollectHolds(TimeSlots(input), CreateTimeSlot, TimeSlotId);
    CollectHolds(StudentGroups(input), CreateStudentGroup, StudentGroupId);
    CollectListFacts(HardConstraints(input), ParseConstraint);
    CollectListFacts(SoftConstraints(input), ParseConstraint);
  }

  /**
   * Whatever `parse_data` accepts, the transformer accepts too and builds the
   * same collections; only `algorithm_parameters` differs, `{}` there and
   * absent here when the input has none.
   */
  lemma TransformExtendsParse(input: RawInput)
    requires ParseData(input).Success?
    ensures TransformOf(input).Success?
    ensures TransformOf(input).value.data == ParseData(input).value.(algorithmParameters := input.algorithmParameters)
  {
    ParseDataSucceeds(input);
    TeachersAgree(Teachers(input));
    StudentsAgree(Students(input));
    CoursesAgree(Courses(input));
    RoomsAgree(Rooms(input));
    TimeSlotsAgree(TimeSlots(input));
    StudentGroupsAgree(StudentGroups(input));
  }
}
