/**
 * How the validator's verdict relates to the two ingestion paths: a document
 * that passes the default validation always transforms, but `parse_data`
 * asks for more keys than the validator checks, so a valid document may
 * still fail to parse.
 */
module Pipeline {
  import opened Wrappers
  import opened Domain
  import opened Raw
  import opened Parsing
  import opened Collecting
  import opened Transformation
  import opened Validation

  /** Every teachers item the default validator accepts has the keys `CreateTeacher` needs. */
  lemma TeachersCreatable(input: RawInput)
    requires input.resources.Some? && ResourcesComplete(DefaultConfig, input.resources.value, DefaultConfig.requiredResources)
    ensures AllMade(Parsing.Teachers(input), CreateTeacher)
  {
    var res := input.resources.value;
    assert Teachers in DefaultConfig.requiredResources;
    forall i | 0 <= i < |res.teachers.value| ensures CreateTeacher(res.teachers.value[i]).Success? {
      assert ItemComplete(res, Teachers, i, FieldsFor(DefaultConfig, Teachers));
      assert FId in FieldsFor(DefaultConfig, Teachers) && FName in FieldsFor(DefaultConfig, Teachers);
      CreateTeacherOutcome(res.teachers.value[i]);
    }
  }

  /** Every students item the default validator accepts has the keys `CreateStudent` needs. */
  lemma StudentsCreatable(input: RawInput)
    requires input.resources.Some? && ResourcesComplete(DefaultConfig, input.resources.value, DefaultConfig.requiredResources)
    ensures AllMade(Parsing.Students(input), CreateStudent)
  {
    var res := input.resources.value;
    assert Students in DefaultConfig.requiredResources;
    forall i | 0 <= i < |res.students.value| ensures CreateStudent(res.students.value[i]).Success? {
      assert ItemComplete(res, Students, i, FieldsFor(DefaultConfig, Students));
      assert FId in FieldsFor(DefaultConfig, Students) && FName in FieldsFor(DefaultConfig, Students);
      CreateStudentOutcome(res.students.value[i]);
    }
  }

  /** Every courses item the default validator accepts has the keys `CreateCourse` needs. */
  lemma CoursesCreatable(input: RawInput)
    requires input.resources.Some? && ResourcesComplete(DefaultConfig, input.resources.value, DefaultConfig.requiredResources)
    ensures AllMade(Parsing.Courses(input), CreateCourse)
  {
    var res := input.resources.value;
    assert Courses in DefaultConfig.requiredResources;
    forall i | 0 <= i < |res.courses.value| ensures CreateCourse(res.courses.value[i]).Success? {
      assert ItemComplete(res, Courses, i, FieldsFor(DefaultConfig, Courses));
      assert FId in FieldsFor(DefaultConfig, Courses) && FCode in FieldsFor(DefaultConfig, Courses)
          && FName in FieldsFor(DefaultConfig, Courses);
      CreateCourseOutcome(res.courses.value[i]);
    }
  }

  /** Every rooms item the default validator accepts has the keys `CreateRoom` needs. */
  lemma RoomsCreatable(input: RawInput)
    requires input.resources.Some? && ResourcesComplete(DefaultConfig, input.resources.value, DefaultConfig.requiredResources)
    ensures AllMade(Parsing.Rooms(input), CreateRoom)
  {
    var res := input.resources.value;
    assert Rooms in DefaultConfig.requiredResources;
    forall i | 0 <= i < |res.rooms.value| ensures CreateRoom(res.rooms.value[i]).Success? {
      assert ItemComplete(res, Rooms, i, FieldsFor(DefaultConfig, Rooms));
      assert FId in FieldsFor(DefaultConfig, Rooms) && FName in FieldsFor(DefaultConfig, Rooms);
      CreateRoomOutcome(res.rooms.value[i]);
    }
  }

  /** Every timeSlots item the default validator accepts has the keys `CreateTimeSlot` needs. */
  lemma TimeSlotsCreatable(input: RawInput)
    requires input.resources.Some? && ResourcesComplete(DefaultConfig, input.resources.value, DefaultConfig.requiredResources)
    ensures AllMade(Parsing.TimeSlots(input), CreateTimeSlot)
  {
    var res := input.resources.value;
    assert TimeSlots in DefaultConfig.requiredResources;
    forall i | 0 <= i < |res.timeSlots.value| ensures CreateTimeSlot(res.timeSlots.value[i]).Success? {
      assert ItemComplete(res, TimeSlots, i, FieldsFor(DefaultConfig, TimeSlots));
      assert FId in FieldsFor(DefaultConfig, TimeSlots) && FDay in FieldsFor(DefaultConfig, TimeSlots)
          && FStartTime in FieldsFor(DefaultConfig, TimeSlots) && FEndTime in FieldsFor(DefaultConfig, TimeSlots);
      CreateTimeSlotOutcome(res.timeSlots.value[i]);
    }
  }

  /** Every studentGroups item the default validator accepts has the keys `CreateStudentGroup` needs. */
  lemma StudentGroupsCreatable(input: RawInput)
    requires input.resources.Some? && ResourcesComplete(DefaultConfig, input.resources.value, DefaultConfig.requiredResources)
    ensures AllMade(Parsing.StudentGroups(input), CreateStudentGroup)
  {
    var res := input.resources.value;
    assert StudentGroups in DefaultConfig.requiredResources;
    forall i | 0 <= i < |res.studentGroups.value| ensures CreateStudentGroup(res.studentGroups.value[i]).Success? {
      assert ItemComplete(res, StudentGroups, i, FieldsFor(DefaultConfig, StudentGroups));
      assert FId in FieldsFor(DefaultConfig, StudentGroups) && FName in FieldsFor(DefaultConfig, StudentGroups);
      CreateStudentGroupOutcome(res.studentGroups.value[i]);
    }
  }

  /** Every constraint item the default validator accepts has the keys `parse_constraint` needs. */
  lemma ConstraintsParsable(items: seq<RawConstraint>)
    requires forall c :: c in items ==> ConstraintComplete(c)
    ensures AllMade(items, ParseConstraint)
  {
    forall i | 0 <= i < |items| ensures ParseConstraint(items[i]).Success? {
      assert ConstraintComplete(items[i]);
      ParseConstraintOutcome(items[i]);
    }
  }

  /** A document the default validator accepts is always transformed without error. */
  lemma ValidTransforms(input: RawInput)
    requires Validatable(DefaultConfig, input) && ValidationErrors(DefaultConfig, input) == []
    ensures TransformOf(input).Success?
  {
    ValidIff(DefaultConfig, input);
    TeachersCreatable(input);
    StudentsCreatable(input);
    CoursesCreatable(input);
    RoomsCreatable(input);
    TimeSlotsCreatable(input);
    StudentGroupsCreatable(input);
    var cons := input.constraints.value;
    assert HardConstraints in DefaultConfig.requiredConstraints && SoftConstraints in DefaultConfig.requiredConstraints;
    ConstraintsParsable(cons.hard.value);
    ConstraintsParsable(cons.soft.value);
    TransformSucceeds(input);
  }

  /** A teacher record without `specialization`, which the validator does not require. */
  const Unspecialised := RawTeacher(Some("T1"), Some("Ada"), Some("CS"), None, None, None, None, None, Some(false), None)

  /** A document whose only record is `Unspecialised`, with every section and list present. */
  const LoneTeacher := RawInput(
    Some(EmptyObject),
    Some(RawResources(Some([Unspecialised]), Some([]), Some([]), Some([]), Some([]), Some([]))),
    Some(RawConstraints(Some([]), Some([]))),
    None)

  lemma LoneTeacherValidatable()
    ensures Validatable(DefaultConfig, LoneTeacher)
  {
    var res := LoneTeacher.resources.value;
    assert AllIds(res.teachers.value, TeacherIdOf) by {
      assert res.teachers.value == [Unspecialised];
    }
    assert AllIds(res.studentGroups.value, GroupIdOf) && AllIds(res.students.value, StudentIdOf)
        && AllIds(res.rooms.value, RoomIdOf) by {
      assert res.studentGroups.value == [] && res.students.value == [] && res.rooms.value == [];
    }
    assert res.courses.value == [] && res.studentGroups.value == [];
  }

  lemma LoneTeacherComplete()
    ensures ResourcesComplete(DefaultConfig, LoneTeacher.resources.value, DefaultConfig.requiredResources)
  {
    var res := LoneTeacher.resources.value;
    forall k | k in DefaultConfig.requiredResources
      ensures ResourceCount(res, k).Some?
      ensures forall i :: 0 <= i < ResourceCount(res, k).value ==> ItemComplete(res, k, i, FieldsFor(DefaultConfig, k))
    {
      if k == Teachers {
        assert FieldsFor(DefaultConfig, k) == [FId, FName, FDepartment, FIsMentor];
        assert ItemComplete(res, k, 0, FieldsFor(DefaultConfig, k));
      }
    }
  }

  lemma LoneTeacherValid()
    ensures Validatable(DefaultConfig, LoneTeacher) && ValidationErrors(DefaultConfig, LoneTeacher) == []
  {
    var res := LoneTeacher.resources.value;
    LoneTeacherValidatable();
    DefaultSectionsPass(LoneTeacher);
    LoneTeacherComplete();
    assert res.courses.value == [] && res.studentGroups.value == [];
    assert ConstraintsComplete(LoneTeacher.constraints.value, DefaultConfig.requiredConstraints);
    ValidIff(DefaultConfig, LoneTeacher);
  }

  lemma LoneTeacherUnparsed()
    ensures ParseData(LoneTeacher) == Failure(KeyError("specialization"))
  {
    assert Parsing.Teachers(LoneTeacher) == [Unspecialised];
    ParseTeacherOutcome(Unspecialised);
    CollectFailsAt([Unspecialised], ParseTeacher, TeacherId, 0);
  }

  /**
   * The validator does not ask teachers for `specialization`, which
   * `parse_data` does: `LoneTeacher` is valid and is transformed, yet
   * `parse_data` raises `KeyError` on it.
   */
  lemma ValidYetUnparsed()
    ensures Validatable(DefaultConfig, LoneTeacher)
    ensures ValidationErrors(DefaultConfig, LoneTeacher) == []
    ensures TransformOf(LoneTeacher).Success?
    ensures ParseData(LoneTeacher) == Failure(KeyError("specialization"))
  {
    LoneTeacherValid();
    ValidTransforms(LoneTeacher);
    LoneTeacherUnparsed();
  }
}
