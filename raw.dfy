/**
 * The input document as read from JSON, before ingestion: every record field
 * and every section may be absent. `Fields` gives the set of keys a record
 * holds, which is what `field in record` asks.
 */
module Raw {
  import opened Wrappers
  import opened Domain

  /** The JSON keys a record may carry. */
  datatype Field =
    | FId | FName | FDepartment | FSpecialization | FMaxHoursPerDay | FMaxHoursPerWeek | FPreferences
    | FUnavailability | FIsMentor | FMaxMentees | FBatch | FSemester | FRegisteredCourses | FNeedsMentor
    | FSpecialRequirements | FCode | FCredits | FHoursPerWeek | FSessionsPerWeek | FSessionDuration
    | FRequiresLab | FPreferredRooms | FEligibleTeachers | FStudentGroups | FType | FCapacity | FFacilities
    | FBuilding | FFloor | FDay | FStartTime | FEndTime | FStudents | FCourses | FDescription | FWeight
  {
    /** The key as spelled in the JSON document. */
    function Text(): string {
      match this
      case FId => "id"
      case FName => "name"
      case FDepartment => "department"
      case FSpecialization => "specialization"
      case FMaxHoursPerDay => "max_hours_per_day"
      case FMaxHoursPerWeek => "max_hours_per_week"
      case FPreferences => "preferences"
      case FUnavailability => "unavailability"
      case FIsMentor => "is_mentor"
      case FMaxMentees => "max_mentees"
      case FBatch => "batch"
      case FSemester => "semester"
      case FRegisteredCourses => "registered_courses"
      case FNeedsMentor => "needs_mentor"
      case FSpecialRequirements => "special_requirements"
      case FCode => "code"
      case FCredits => "credits"
      case FHoursPerWeek => "hours_per_week"
      case FSessionsPerWeek => "sessions_per_week"
      case FSessionDuration => "session_duration"
      case FRequiresLab => "requires_lab"
      case FPreferredRooms => "preferred_rooms"
      case FEligibleTeachers => "eligible_teachers"
      case FStudentGroups => "student_groups"
      case FType => "type"
      case FCapacity => "capacity"
      case FFacilities => "facilities"
      case FBuilding => "building"
      case FFloor => "floor"
      case FDay => "day"
      case FStartTime => "start_time"
      case FEndTime => "end_time"
      case FStudents => "students"
      case FCourses => "courses"
      case FDescription => "description"
      case FWeight => "weight"
    }
  }

  datatype RawTeacher = RawTeacher(
    id: Option<Id>, name: Option<string>, department: Option<string>, specialization: Option<seq<string>>,
    maxHoursPerDay: Option<int>, maxHoursPerWeek: Option<int>, preferences: Option<Json>,
    unavailability: Option<Json>, isMentor: Option<bool>, maxMentees: Option<int>)
  {
    /** Whether the record carries key `f`. */
    predicate Has(f: Field) {
      match f
      case FId => id.Some?
      case FName => name.Some?
      case FDepartment => department.Some?
      case FSpecialization => specialization.Some?
      case FMaxHoursPerDay => maxHoursPerDay.Some?
      case FMaxHoursPerWeek => maxHoursPerWeek.Some?
      case FPreferences => preferences.Some?
      case FUnavailability => unavailability.Some?
      case FIsMentor => isMentor.Some?
      case FMaxMentees => maxMentees.Some?
      case _ => false
    }
  }

  datatype RawStudent = RawStudent(
    id: Option<Id>, name: Option<string>, batch: Option<string>, semester: Option<int>,
    registeredCourses: Option<seq<Id>>, needsMentor: Option<bool>, specialRequirements: Option<seq<string>>)
  {
    /** Whether the record carries key `f`. */
    predicate Has(f: Field) {
      match f
      case FId => id.Some?
      case FName => name.Some?
      case FBatch => batch.Some?
      case FSemester => semester.Some?
      case FRegisteredCourses => registeredCourses.Some?
      case FNeedsMentor => needsMentor.Some?
      case FSpecialRequirements => specialRequirements.Some?
      case _ => false
    }
  }

  datatype RawCourse = RawCourse(
    id: Option<Id>, code: Option<string>, name: Option<string>, credits: Option<int>,
    hoursPerWeek: Option<int>, sessionsPerWeek: Option<int>, sessionDuration: Option<int>,
    requiresLab: Option<bool>, preferredRooms: Option<seq<Id>>, eligibleTeachers: Option<seq<Id>>,
    studentGroups: Option<seq<Id>>)
  {
    /** Whether the record carries key `f`. */
    predicate Has(f: Field) {
      match f
      case FId => id.Some?
      case FCode => code.Some?
      case FName => name.Some?
      case FCredits => credits.Some?
      case FHoursPerWeek => hoursPerWeek.Some?
      case FSessionsPerWeek => sessionsPerWeek.Some?
      case FSessionDuration => sessionDuration.Some?
      case FRequiresLab => requiresLab.Some?
      case FPreferredRooms => preferredRooms.Some?
      case FEligibleTeachers => eligibleTeachers.Some?
      case FStudentGroups => studentGroups.Some?
      case _ => false
    }
  }

  datatype RawRoom = RawRoom(
    id: Option<Id>, name: Option<string>, roomType: Option<string>, capacity: Option<int>,
    facilities: Option<seq<string>>, building: Option<string>, floor: Option<int>)
  {
    /** Whether the record carries key `f`. */
    predicate Has(f: Field) {
      match f
      case FId => id.Some?
      case FName => name.Some?
      case FType => roomType.Some?
      case FCapacity => capacity.Some?
      case FFacilities => facilities.Some?
      case FBuilding => building.Some?
      case FFloor => floor.Some?
      case _ => false
    }
  }

  datatype RawTimeSlot = RawTimeSlot(
    id: Option<Id>, day: Option<string>, startTime: Option<string>, endTime: Option<string>,
    slotType: Option<string>)
  {
    /** Whether the record carries key `f`. */
    predicate Has(f: Field) {
      match f
      case FId => id.Some?
      case FDay => day.Some?
      case FStartTime => startTime.Some?
      case FEndTime => endTime.Some?
      case FType => slotType.Some?
      case _ => false
    }
  }

  datatype RawStudentGroup = RawStudentGroup(
    id: Option<Id>, name: Option<string>, students: Option<seq<Id>>, courses: Option<seq<Id>>)
  {
    /** Whether the record carries key `f`. */
    predicate Has(f: Field) {
      match f
      case FId => id.Some?
      case FName => name.Some?
      case FStudents => students.Some?
      case FCourses => courses.Some?
      case _ => false
    }
  }

  datatype RawConstraint = RawConstraint(constraintType: Option<string>, description: Option<string>, weight: Option<int>)
  {
    /** Whether the record carries key `f`. */
    predicate Has(f: Field) {
      match f
      case FType => constraintType.Some?
      case FDescription => description.Some?
      case FWeight => weight.Some?
      case _ => false
    }
  }

  /** The `resources` section: each list may be absent. */
  datatype RawResources = RawResources(
    teachers: Option<seq<RawTeacher>>, students: Option<seq<RawStudent>>, courses: Option<seq<RawCourse>>,
    rooms: Option<seq<RawRoom>>, timeSlots: Option<seq<RawTimeSlot>>,
    studentGroups: Option<seq<RawStudentGroup>>)

  /** The `constraints` section. */
  datatype RawConstraints = RawConstraints(hard: Option<seq<RawConstraint>>, soft: Option<seq<RawConstraint>>)

  /** The whole input document. */
  datatype RawInput = RawInput(
    metadata: Option<Json>, resources: Option<RawResources>, constraints: Option<RawConstraints>,
    algorithmParameters: Option<Json>)

  /** `data.get('resources', {})`. */
  const NoResources := RawResources(None, None, None, None, None, None)

  /** `data.get('constraints', {})`. */
  const NoConstraints := RawConstraints(None, None)
}
