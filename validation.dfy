/**
 * The data validator: checks the input document against a configuration of
 * required sections, resource types, constraint types and per-resource
 * fields, then checks cross-references and group sizes, and reports an
 * ordered list of errors; the input is valid iff that list is empty.
 */
module Validation {
  import opened Wrappers
  import opened Domain
  import opened Raw
  import opened Parsing

  datatype Section = Metadata | Resources | Constraints

  datatype ResourceKind = Teachers | Students | Courses | Rooms | TimeSlots | StudentGroups

  datatype ConstraintKind = HardConstraints | SoftConstraints

  /** What a dangling reference points at. */
  datatype RefKind = TeacherRef | StudentGroupRef | StudentRef | RoomRef

  /** One validation message, by its kind and the values it names. */
  datatype ValidationError =
    | MissingSection(section: Section)
    | MissingResourceType(resource: ResourceKind)
    | MissingResourceField(resource: ResourceKind, index: nat, field: Field)
    | MissingConstraintType(constraint: ConstraintKind)
    | MissingConstraintField(constraint: ConstraintKind, index: nat, field: Field)
    | UnknownReference(kind: RefKind, owner: Id, target: Id)
    | WrongGroupSize(group: Id)

  /** The validation configuration; a resource type without an entry in `requiredFields` needs no field. */
  datatype Config = Config(
    requiredSections: seq<Section>,
    requiredResources: seq<ResourceKind>,
    requiredConstraints: seq<ConstraintKind>,
    requiredFields: map<ResourceKind, seq<Field>>)

  const DefaultConfig: Config := Config(
    [Metadata, Resources, Constraints],
    [Teachers, Students, Courses, Rooms, TimeSlots, StudentGroups],
    [HardConstraints, SoftConstraints],
    map[
      Teachers := [FId, FName, FDepartment, FIsMentor],
      Students := [FId, FName, FBatch, FRegisteredCourses, FNeedsMentor],
      Courses := [FId, FCode, FName, FCredits, FEligibleTeachers, FStudentGroups],
      Rooms := [FId, FName, FType, FCapacity],
      TimeSlots := [FId, FDay, FStartTime, FEndTime],
      StudentGroups := [FId, FName, FStudents, FCourses]])

  /** `config["required_fields"].get(resource_type, [])`. */
  function FieldsFor(config: Config, k: ResourceKind): seq<Field> {
    if k in config.requiredFields then config.requiredFields[k] else []
  }

  // ---------------------------------------------------------------- sections

  predicate SectionPresent(input: RawInput, s: Section) {
    match s
    case Metadata => input.metadata.Some?
    case Resources => input.resources.Some?
    case Constraints => input.constraints.Some?
  }

  /** One error per absent section of `sections`, in order. */
  function SectionErrors(sections: seq<Section>, input: RawInput): seq<ValidationError> {
    if sections == [] then []
    else
      var s := sections[|sections| - 1];
      SectionErrors(sections[..|sections| - 1], input) + (if SectionPresent(input, s) then [] else [MissingSection(s)])
  }

  // --------------------------------------------------------------- resources

  /** The number of items of a resource list, `None` when the list is absent. */
  function ResourceCount(res: RawResources, k: ResourceKind): Option<nat> {
    match k
    case Teachers => if res.teachers.Some? then Some(|res.teachers.value|) else None
    case Students => if res.students.Some? then Some(|res.students.value|) else None
    case Courses => if res.courses.Some? then Some(|res.courses.value|) else None
    case Rooms => if res.rooms.Some? then Some(|res.rooms.value|) else None
    case TimeSlots => if res.timeSlots.Some? then Some(|res.timeSlots.value|) else None
    case StudentGroups => if res.studentGroups.Some? then Some(|res.studentGroups.value|) else None
  }

  /** `field in resources[k][i]`. */
  predicate ItemHas(res: RawResources, k: ResourceKind, i: nat, f: Field)
    requires ResourceCount(res, k).Some? && i < ResourceCount(res, k).value
  {
    match k
    case Teachers => res.teachers.value[i].Has(f)
    case Students => res.students.value[i].Has(f)
    case Courses => res.courses.value[i].Has(f)
    case Rooms => res.rooms.value[i].Has(f)
    case TimeSlots => res.timeSlots.value[i].Has(f)
    case StudentGroups => res.studentGroups.value[i].Has(f)
  }

  /** The errors for item `i` of list `k`: one per field of `fields` it lacks, in order. */
  function ItemErrors(res: RawResources, k: ResourceKind, i: nat, fields: seq<Field>): seq<ValidationError>
    requires ResourceCount(res, k).Some? && i < ResourceCount(res, k).value
  {
    if fields == [] then []
    else
      var f := fields[|fields| - 1];
      ItemErrors(res, k, i, fields[..|fields| - 1])
      + (if ItemHas(res, k, i, f) then [] else [MissingResourceField(k, i, f)])
  }

  /** The errors for the first `n` items of list `k`. */
  function ItemsErrors(res: RawResources, k: ResourceKind, fields: seq<Field>, n: nat): seq<ValidationError>
    requires ResourceCount(res, k).Some? && n <= ResourceCount(res, k).value
  {
    if n == 0 then [] else ItemsErrors(res, k, fields, n - 1) + ItemErrors(res, k, n - 1, fields)
  }

  /** One error when list `k` is absent, otherwise its items' field errors. */
  function KindErrors(config: Config, res: RawResources, k: ResourceKind): seq<ValidationError> {
    match ResourceCount(res, k)
    case None => [MissingResourceType(k)]
    case Some(n) => ItemsErrors(res, k, FieldsFor(config, k), n)
  }

  function ResourceErrors(config: Config, res: RawResources, kinds: seq<ResourceKind>): seq<ValidationError> {
    if kinds == [] then []
    else
      ResourceErrors(config, res, kinds[..|kinds| - 1]) + KindErrors(config, res, kinds[|kinds| - 1])
  }

  // ------------------------------------------------------------- constraints

  function ConstraintList(cons: RawConstraints, k: ConstraintKind): Option<seq<RawConstraint>> {
    match k
    case HardConstraints => cons.hard
    case SoftConstraints => cons.soft
  }

  /** A constraint item's errors: type, description, weight, each when absent. */
  function ConstraintItemErrors(k: ConstraintKind, i: nat, c: RawConstraint): seq<ValidationError> {
    (if c.constraintType.Some? then [] else [MissingConstraintField(k, i, FType)])
    + (if c.description.Some? then [] else [MissingConstraintField(k, i, FDescription)])
    + (if c.weight.Some? then [] else [MissingConstraintField(k, i, FWeight)])
  }

  /** The errors for the first `n` items of a constraint list. */
  function ConstraintItemsErrors(k: ConstraintKind, items: seq<RawConstraint>, n: nat): seq<ValidationError>
    requires n <= |items|
  {
    if n == 0 then [] else ConstraintItemsErrors(k, items, n - 1) + ConstraintItemErrors(k, n - 1, items[n - 1])
  }

  function ConstraintKindErrors(cons: RawConstraints, k: ConstraintKind): seq<ValidationError> {
    match ConstraintList(cons, k)
    case None => [MissingConstraintType(k)]
    case Some(items) => ConstraintItemsErrors(k, items, |items|)
  }

  function ConstraintErrors(cons: RawConstraints, kinds: seq<ConstraintKind>): seq<ValidationError> {
    if kinds == [] then []
    else ConstraintErrors(cons, kinds[..|kinds| - 1]) + ConstraintKindErrors(cons, kinds[|kinds| - 1])
  }

  // ----------------------------------------------------------- relationships

  /** The references an owner holds towards `kind`; `.get(..., [])` when absent. */
  function CourseRefs(c: RawCourse, kind: RefKind): seq<Id> {
    match kind
    case TeacherRef => c.eligibleTeachers.GetOr([])
    case StudentGroupRef => c.studentGroups.GetOr([])
    case RoomRef => c.preferredRooms.GetOr([])
    case StudentRef => []
  }

  /** Every reference is declared. */
  ghost predicate Resolved(refs: seq<Id>, known: set<Id>) {
    forall r :: r in refs ==> r in known
  }

  /** One error per reference of `refs` outside `known`, naming `owner`, which must exist when one is needed. */
  function Dangling(kind: RefKind, owner: Option<Id>, refs: seq<Id>, known: set<Id>): seq<ValidationError>
    requires Resolved(refs, known) || owner.Some?
  {
    if refs == [] then []
    else
      var r := refs[|refs| - 1];
      Dangling(kind, owner, refs[..|refs| - 1], known)
      + (if r in known then [] else [UnknownReference(kind, owner.value, r)])
  }

  /** A course that `CourseErrors` may have to name has an id. */
  ghost predicate CoursesNamed(courses: seq<RawCourse>, known: set<Id>, kind: RefKind) {
    forall i :: 0 <= i < |courses| ==> Resolved(CourseRefs(courses[i], kind), known) || courses[i].id.Some?
  }

  /** The dangling `kind` references of the first `n` courses, course by course. */
  function CourseErrors(courses: seq<RawCourse>, known: set<Id>, kind: RefKind, n: nat): seq<ValidationError>
    requires n <= |courses| && CoursesNamed(courses, known, kind)
  {
    if n == 0 then []
    else
      var c := courses[n - 1];
      CourseErrors(courses, known, kind, n - 1) + Dangling(kind, c.id, CourseRefs(c, kind), known)
  }

  ghost predicate GroupsNamed(groups: seq<RawStudentGroup>, known: set<Id>) {
    forall i :: 0 <= i < |groups| ==> Resolved(groups[i].students.GetOr([]), known) || groups[i].id.Some?
  }

  /** The dangling student references of the first `n` groups. */
  function GroupErrors(groups: seq<RawStudentGroup>, known: set<Id>, n: nat): seq<ValidationError>
    requires n <= |groups| && GroupsNamed(groups, known)
  {
    if n == 0 then []
    else
      var g := groups[n - 1];
      GroupErrors(groups, known, n - 1) + Dangling(StudentRef, g.id, g.students.GetOr([]), known)
  }

  ghost predicate AllIds<R>(items: seq<R>, id: R -> Option<Id>) {
    forall i :: 0 <= i < |items| ==> id(items[i]).Some?
  }

  function TeacherIdOf(t: RawTeacher): Option<Id> { t.id }
  function StudentIdOf(s: RawStudent): Option<Id> { s.id }
  function RoomIdOf(r: RawRoom): Option<Id> { r.id }
  function GroupIdOf(g: RawStudentGroup): Option<Id> { g.id }

  /** `set(item["id"] for item in items)`. */
  function Ids<R>(items: seq<R>, id: R -> Option<Id>): set<Id>
    requires AllIds(items, id)
  {
    set i | 0 <= i < |items| :: id(items[i]).value
  }

  // ------------------------------------------------------------ group sizes

  ghost predicate SizesNamed(groups: seq<RawStudentGroup>) {
    forall i :: 0 <= i < |groups| ==> |groups[i].students.GetOr([])| == 4 || groups[i].id.Some?
  }

  /** One error per group of the first `n` whose `students` list is not exactly 4 long. */
  function SizeErrors(groups: seq<RawStudentGroup>, n: nat): seq<ValidationError>
    requires n <= |groups| && SizesNamed(groups)
  {
    if n == 0 then []
    else
      var g := groups[n - 1];
      SizeErrors(groups, n - 1) + (if |g.students.GetOr([])| == 4 then [] else [WrongGroupSize(g.id.value)])
  }

  // ----------------------------------------------------------- whole check

  /**
   * What `_validate_relationships` and `_validate_mentor_assignments` need so
   * as not to raise: the five lists they subscript, an id on every teacher,
   * student, room and group, and an id on every course or group they report.
   */
  ghost predicate RelationsReadable(res: RawResources) {
    && res.teachers.Some? && res.courses.Some? && res.students.Some? && res.rooms.Some? && res.studentGroups.Some?
    && AllIds(res.teachers.value, TeacherIdOf) && AllIds(res.studentGroups.value, GroupIdOf)
    && AllIds(res.students.value, StudentIdOf) && AllIds(res.rooms.value, RoomIdOf)
    && CoursesNamed(res.courses.value, Ids(res.teachers.value, TeacherIdOf), TeacherRef)
    && CoursesNamed(res.courses.value, Ids(res.studentGroups.value, GroupIdOf), StudentGroupRef)
    && GroupsNamed(res.studentGroups.value, Ids(res.students.value, StudentIdOf))
    && CoursesNamed(res.courses.value, Ids(res.rooms.value, RoomIdOf), RoomRef)
    && SizesNamed(res.studentGroups.value)
  }

  /** `validate` raises nothing: once the sections pass, both sections it reads exist and are readable. */
  ghost predicate Validatable(config: Config, input: RawInput) {
    SectionErrors(config.requiredSections, input) == [] ==>
      && input.resources.Some? && input.constraints.Some?
      && RelationsReadable(input.resources.value)
  }

  function RelationErrors(res: RawResources): seq<ValidationError>
    requires RelationsReadable(res)
  {
    var courses := res.courses.value;
    CourseErrors(courses, Ids(res.teachers.value, TeacherIdOf), TeacherRef, |courses|)
    + CourseErrors(courses, Ids(res.studentGroups.value, GroupIdOf), StudentGroupRef, |courses|)
    + GroupErrors(res.studentGroups.value, Ids(res.students.value, StudentIdOf), |res.studentGroups.value|)
    + CourseErrors(courses, Ids(res.rooms.value, RoomIdOf), RoomRef, |courses|)
  }

  /** The full error list, in the order `validate` reports it. */
  function ValidationErrors(config: Config, input: RawInput): seq<ValidationError>
    requires Validatable(config, input)
  {
    var sections := SectionErrors(config.requiredSections, input);
    if sections != [] then sections
    else
      var res := input.resources.value;
      ResourceErrors(config, res, config.requiredResources)
      + ConstraintErrors(input.constraints.value, config.requiredConstraints)
      + RelationErrors(res)
      + SizeErrors(res.studentGroups.value, |res.studentGroups.value|)
  }

  // ----------------------------------------------------------- properties

  /** Each error names a required section that is absent, and each absent required section is named. */
  lemma {:induction false} SectionErrorsFacts(sections: seq<Section>, input: RawInput)
    ensures forall e :: e in SectionErrors(sections, input) ==>
              e.MissingSection? && e.section in sections && !SectionPresent(input, e.section)
    ensures forall s :: s in sections && !SectionPresent(input, s) ==> MissingSection(s) in SectionErrors(sections, input)
    ensures |SectionErrors(sections, input)| <= |sections|
  {
    if sections != [] {
      var init := sections[..|sections| - 1];
      SectionErrorsFacts(init, input);
      assert forall s :: s in sections <==> s in init || s == sections[|sections| - 1];
    }
  }

  /** With the default configuration, the sections pass iff `metadata`, `resources` and `constraints` are all present. */
  lemma DefaultSectionsPass(input: RawInput)
    ensures SectionErrors(DefaultConfig.requiredSections, input) == []
            <==> input.metadata.Some? && input.resources.Some? && input.constraints.Some?
  {
    var sections := DefaultConfig.requiredSections;
    SectionErrorsFacts(sections, input);
    if SectionErrors(sections, input) == [] {
      assert Metadata in sections && Resources in sections && Constraints in sections;
    } else {
      var e := SectionErrors(sections, input)[0];
      assert e in SectionErrors(sections, input);
    }
  }

  /**
   * A missing section stops validation: the errors are exactly the
   * missing-section errors, one per absent required section, and the input is
   * invalid.
   */
  lemma MissingSectionsOnly(config: Config, input: RawInput)
    requires Validatable(config, input)
    requires exists s :: s in config.requiredSections && !SectionPresent(input, s)
    ensures ValidationErrors(config, input) != []
    ensures forall e :: e in ValidationErrors(config, input) <==>
              e.MissingSection? && e.section in config.requiredSections && !SectionPresent(input, e.section)
  {
    SectionErrorsFacts(config.requiredSections, input);
    var s :| s in config.requiredSections && !SectionPresent(input, s);
    assert MissingSection(s) in SectionErrors(config.requiredSections, input);
  }

  /** Item `i` of list `k` has every field of `fields`. */
  ghost predicate ItemComplete(res: RawResources, k: ResourceKind, i: nat, fields: seq<Field>)
    requires ResourceCount(res, k).Some? && i < ResourceCount(res, k).value
  {
    forall f :: f in fields ==> ItemHas(res, k, i, f)
  }

  /** An item is reported as lacking `f` iff `f` is required and absent, and its errors name nothing else. */
  lemma {:induction false} ItemErrorsMember(res: RawResources, k: ResourceKind, i: nat, fields: seq<Field>, f: Field)
    requires ResourceCount(res, k).Some? && i < ResourceCount(res, k).value
    ensures MissingResourceField(k, i, f) in ItemErrors(res, k, i, fields) <==> f in fields && !ItemHas(res, k, i, f)
    ensures forall e :: e in ItemErrors(res, k, i, fields) ==> e.MissingResourceField? && e.resource == k && e.index == i
  {
    if fields != [] {
      var init := fields[..|fields| - 1];
      ItemErrorsMember(res, k, i, init, f);
      assert f in fields <==> f in init || f == fields[|fields| - 1];
    }
  }

  /** An item raises no error iff it has every required field. */
  lemma {:induction false} ItemErrorsEmpty(res: RawResources, k: ResourceKind, i: nat, fields: seq<Field>)
    requires ResourceCount(res, k).Some? && i < ResourceCount(res, k).value
    ensures ItemErrors(res, k, i, fields) == [] <==> ItemComplete(res, k, i, fields)
  {
    if fields != [] {
      var init := fields[..|fields| - 1];
      ItemErrorsEmpty(res, k, i, init);
      assert forall f :: f in fields <==> f in init || f == fields[|fields| - 1];
    }
  }

  /** Among the first `n` items, item `i` is reported as lacking `f` iff it does lack it. */
  lemma {:induction false} ItemsErrorsMember(res: RawResources, k: ResourceKind, fields: seq<Field>, n: nat, i: nat, f: Field)
    requires ResourceCount(res, k).Some? && n <= ResourceCount(res, k).value
    ensures MissingResourceField(k, i, f) in ItemsErrors(res, k, fields, n) <==>
              i < n && f in fields && !ItemHas(res, k, i, f)
  {
    if n > 0 {
      ItemsErrorsMember(res, k, fields, n - 1, i, f);
      ItemErrorsMember(res, k, n - 1, fields, f);
    }
  }

  /** The first `n` items raise no error iff each has all of `fields`. */
  lemma {:induction false} ItemsErrorsEmpty(res: RawResources, k: ResourceKind, fields: seq<Field>, n: nat)
    requires ResourceCount(res, k).Some? && n <= ResourceCount(res, k).value
    ensures ItemsErrors(res, k, fields, n) == [] <==> forall i :: 0 <= i < n ==> ItemComplete(res, k, i, fields)
  {
    if n > 0 {
      ItemsErrorsEmpty(res, k, fields, n - 1);
      ItemErrorsEmpty(res, k, n - 1, fields);
      assert ItemsErrors(res, k, fields, n) == ItemsErrors(res, k, fields, n - 1) + ItemErrors(res, k, n - 1, fields);
    }
  }

  /** Every list of `kinds` is present and every item has its required fields. */
  ghost predicate ResourcesComplete(config: Config, res: RawResources, kinds: seq<ResourceKind>) {
    forall k :: k in kinds ==>
      && ResourceCount(res, k).Some?
      && forall i :: 0 <= i < ResourceCount(res, k).value ==> ItemComplete(res, k, i, FieldsFor(config, k))
  }

  /** The resource check passes iff every required list is present and complete. */
  lemma {:induction false} ResourceErrorsEmpty(config: Config, res: RawResources, kinds: seq<ResourceKind>)
    ensures ResourceErrors(config, res, kinds) == [] <==> ResourcesComplete(config, res, kinds)
  {
    if kinds != [] {
      var init, k := kinds[..|kinds| - 1], kinds[|kinds| - 1];
      ResourceErrorsEmpty(config, res, init);
      assert forall x :: x in kinds <==> x in init || x == k;
      if ResourceCount(res, k).Some? {
        ItemsErrorsEmpty(res, k, FieldsFor(config, k), ResourceCount(res, k).value);
      }
    }
  }

  /** A constraint item with its three keys. */
  predicate ConstraintComplete(c: RawConstraint) {
    c.constraintType.Some? && c.description.Some? && c.weight.Some?
  }

  lemma {:induction false} ConstraintItemsEmpty(k: ConstraintKind, items: seq<RawConstraint>, n: nat)
    requires n <= |items|
    ensures ConstraintItemsErrors(k, items, n) == [] <==> forall i :: 0 <= i < n ==> ConstraintComplete(items[i])
  {
    if n > 0 {
      ConstraintItemsEmpty(k, items, n - 1);
    }
  }

  /** Every constraint list of `kinds` is present and every item has type, description and weight. */
  ghost predicate ConstraintsComplete(cons: RawConstraints, kinds: seq<ConstraintKind>) {
    forall k :: k in kinds ==>
      ConstraintList(cons, k).Some? && forall c :: c in ConstraintList(cons, k).value ==> ConstraintComplete(c)
  }

  lemma {:induction false} ConstraintErrorsEmpty(cons: RawConstraints, kinds: seq<ConstraintKind>)
    ensures ConstraintErrors(cons, kinds) == [] <==> ConstraintsComplete(cons, kinds)
  {
    if kinds != [] {
      var init, k := kinds[..|kinds| - 1], kinds[|kinds| - 1];
      ConstraintErrorsEmpty(cons, init);
      assert forall x :: x in kinds <==> x in init || x == k;
      if ConstraintList(cons, k).Some? {
        var items := ConstraintList(cons, k).value;
        ConstraintItemsEmpty(k, items, |items|);
        assert forall c :: c in items <==> exists i :: 0 <= i < |items| && items[i] == c;
      }
    }
  }

  /** Each error names a reference of `refs` that is undeclared, and each undeclared reference is named. */
  lemma {:induction false} DanglingMembers(kind: RefKind, owner: Option<Id>, refs: seq<Id>, known: set<Id>)
    requires Resolved(refs, known) || owner.Some?
    ensures forall e :: e in Dangling(kind, owner, refs, known) ==>
              e.UnknownReference? && e.kind == kind && owner == Some(e.owner) && e.target in refs && e.target !in known
    ensures forall r :: r in refs && r !in known ==> UnknownReference(kind, owner.value, r) in Dangling(kind, owner, refs, known)
  {
    if refs != [] {
      var init := refs[..|refs| - 1];
      assert forall r :: r in refs <==> r in init || r == refs[|refs| - 1];
      DanglingMembers(kind, owner, init, known);
    }
  }

  /** One error per position of `refs` that holds an undeclared id, so repeated references are reported repeatedly. */
  lemma {:induction false} DanglingCount(kind: RefKind, owner: Option<Id>, refs: seq<Id>, known: set<Id>)
    requires Resolved(refs, known) || owner.Some?
    ensures |Dangling(kind, owner, refs, known)| == |DanglingPositions(refs, known)|
  {
    if refs != [] {
      var init := refs[..|refs| - 1];
      DanglingCount(kind, owner, init, known);
      DanglingPositionsSnoc(refs, known);
      assert |refs| - 1 !in DanglingPositions(init, known);
    }
  }

  lemma DanglingPositionsSnoc(refs: seq<Id>, known: set<Id>)
    requires refs != []
    ensures DanglingPositions(refs, known) == DanglingPositions(refs[..|refs| - 1], known)
              + (if refs[|refs| - 1] in known then {} else {|refs| - 1})
  {
    var init := refs[..|refs| - 1];
    assert forall i :: 0 <= i < |init| ==> init[i] == refs[i];
  }

  /** No error iff every reference is declared. */
  lemma {:induction false} DanglingEmpty(kind: RefKind, owner: Option<Id>, refs: seq<Id>, known: set<Id>)
    requires Resolved(refs, known) || owner.Some?
    ensures Dangling(kind, owner, refs, known) == [] <==> Resolved(refs, known)
  {
    if refs != [] {
      var init := refs[..|refs| - 1];
      assert forall r :: r in refs <==> r in init || r == refs[|refs| - 1];
      DanglingEmpty(kind, owner, init, known);
    }
  }

  /** The positions of `refs` holding an undeclared id. */
  function DanglingPositions(refs: seq<Id>, known: set<Id>): set<nat> {
    set i | 0 <= i < |refs| && refs[i] !in known
  }

  /** No `kind` error among the first `n` courses means course `i` has no dangling `kind` reference. */
  lemma {:induction false} CourseErrorsNone(courses: seq<RawCourse>, known: set<Id>, kind: RefKind, n: nat, i: nat)
    requires n <= |courses| && CoursesNamed(courses, known, kind)
    requires CourseErrors(courses, known, kind, n) == [] && i < n
    ensures Resolved(CourseRefs(courses[i], kind), known)
  {
    var c := courses[n - 1];
    var rest, last := CourseErrors(courses, known, kind, n - 1), Dangling(kind, c.id, CourseRefs(c, kind), known);
    assert |rest + last| == |rest| + |last|;
    if i == n - 1 {
      DanglingEmpty(kind, c.id, CourseRefs(c, kind), known);
    } else {
      CourseErrorsNone(courses, known, kind, n - 1, i);
    }
  }

  /** Courses whose `kind` references all resolve raise no `kind` error. */
  lemma {:induction false} CourseErrorsResolved(courses: seq<RawCourse>, known: set<Id>, kind: RefKind, n: nat)
    requires n <= |courses| && CoursesNamed(courses, known, kind)
    requires forall i :: 0 <= i < n ==> Resolved(CourseRefs(courses[i], kind), known)
    ensures CourseErrors(courses, known, kind, n) == []
  {
    if n > 0 {
      var c := courses[n - 1];
      CourseErrorsResolved(courses, known, kind, n - 1);
      DanglingEmpty(kind, c.id, CourseRefs(c, kind), known);
    }
  }

  lemma CourseErrorsEmpty(courses: seq<RawCourse>, known: set<Id>, kind: RefKind, n: nat)
    requires n <= |courses| && CoursesNamed(courses, known, kind)
    ensures CourseErrors(courses, known, kind, n) == [] <==>
              forall i :: 0 <= i < n ==> Resolved(CourseRefs(courses[i], kind), known)
  {
    if CourseErrors(courses, known, kind, n) == [] {
      forall i | 0 <= i < n ensures Resolved(CourseRefs(courses[i], kind), known) {
        CourseErrorsNone(courses, known, kind, n, i);
      }
    } else if forall i :: 0 <= i < n ==> Resolved(CourseRefs(courses[i], kind), known) {
      CourseErrorsResolved(courses, known, kind, n);
    }
  }

  lemma {:induction false} GroupErrorsEmpty(groups: seq<RawStudentGroup>, known: set<Id>, n: nat)
    requires n <= |groups| && GroupsNamed(groups, known)
    ensures GroupErrors(groups, known, n) == [] <==> forall i :: 0 <= i < n ==> Resolved(groups[i].students.GetOr([]), known)
  {
    if n > 0 {
      var g := groups[n - 1];
      GroupErrorsEmpty(groups, known, n - 1);
      DanglingEmpty(StudentRef, g.id, g.students.GetOr([]), known);
      var rest, last := GroupErrors(groups, known, n - 1), Dangling(StudentRef, g.id, g.students.GetOr([]), known);
      assert GroupErrors(groups, known, n) == rest + last;
      assert rest + last == [] <==> rest == [] && last == [] by {
        assert |rest + last| == |rest| + |last|;
      }
    }
  }

  /** Every reference of every course and group is to a declared id. */
  ghost predicate RelationsResolve(res: RawResources)
    requires RelationsReadable(res)
  {
    var courses, groups := res.courses.value, res.studentGroups.value;
    && (forall i :: 0 <= i < |courses| ==> Resolved(CourseRefs(courses[i], TeacherRef), Ids(res.teachers.value, TeacherIdOf)))
    && (forall i :: 0 <= i < |courses| ==> Resolved(CourseRefs(courses[i], StudentGroupRef), Ids(groups, GroupIdOf)))
    && (forall i :: 0 <= i < |groups| ==> Resolved(groups[i].students.GetOr([]), Ids(res.students.value, StudentIdOf)))
    && (forall i :: 0 <= i < |courses| ==> Resolved(CourseRefs(courses[i], RoomRef), Ids(res.rooms.value, RoomIdOf)))
  }

  /** The relationship check passes iff every reference resolves. */
  lemma RelationErrorsEmpty(res: RawResources)
    requires RelationsReadable(res)
    ensures RelationErrors(res) == [] <==> RelationsResolve(res)
  {
    var courses, groups := res.courses.value, res.studentGroups.value;
    CourseErrorsEmpty(courses, Ids(res.teachers.value, TeacherIdOf), TeacherRef, |courses|);
    CourseErrorsEmpty(courses, Ids(groups, GroupIdOf), StudentGroupRef, |courses|);
    GroupErrorsEmpty(groups, Ids(res.students.value, StudentIdOf), |groups|);
    CourseErrorsEmpty(courses, Ids(res.rooms.value, RoomIdOf), RoomRef, |courses|);
  }

  /** The positions among the first `n` groups of those whose `students` list is not 4 long. */
  function MisSized(groups: seq<RawStudentGroup>, n: nat): set<nat> {
    set i | 0 <= i < n && i < |groups| && |groups[i].students.GetOr([])| != 4
  }

  /** One error per group whose size is not 4, whether or not any teacher is a mentor. */
  lemma {:induction false} SizeErrorsCount(groups: seq<RawStudentGroup>, n: nat)
    requires n <= |groups| && SizesNamed(groups)
    ensures |SizeErrors(groups, n)| == |MisSized(groups, n)|
  {
    if n > 0 {
      SizeErrorsCount(groups, n - 1);
      var g := groups[n - 1];
      assert MisSized(groups, n) == MisSized(groups, n - 1) + (if |g.students.GetOr([])| != 4 then {n - 1} else {});
    }
  }

  lemma {:induction false} SizeErrorsEmpty(groups: seq<RawStudentGroup>, n: nat)
    requires n <= |groups| && SizesNamed(groups)
    ensures SizeErrors(groups, n) == [] <==> forall i :: 0 <= i < n ==> |groups[i].students.GetOr([])| == 4
  {
    if n > 0 {
      SizeErrorsEmpty(groups, n - 1);
    }
  }

  /**
   * The input is valid iff the sections are present, every required list is
   * present with its fields, every constraint has its keys, every reference
   * resolves and every group has exactly 4 students.
   */
  lemma ValidIff(config: Config, input: RawInput)
    requires Validatable(config, input)
    ensures ValidationErrors(config, input) == [] <==>
      && SectionErrors(config.requiredSections, input) == []
      && ResourcesComplete(config, input.resources.value, config.requiredResources)
      && ConstraintsComplete(input.constraints.value, config.requiredConstraints)
      && RelationsResolve(input.resources.value)
      && forall g :: g in input.resources.value.studentGroups.value ==> |g.students.GetOr([])| == 4
  {
    if SectionErrors(config.requiredSections, input) == [] {
      var res := input.resources.value;
      var groups := res.studentGroups.value;
      ResourceErrorsEmpty(config, res, config.requiredResources);
      ConstraintErrorsEmpty(input.constraints.value, config.requiredConstraints);
      RelationErrorsEmpty(res);
      SizeErrorsEmpty(groups, |groups|);
      assert forall g :: g in groups <==> exists i :: 0 <= i < |groups| && groups[i] == g;
    }
  }

  // ------------------------------------------------------------ the loops

  /** The inner loop of `_validate_resources` for one item. */
  method CheckItem(res: RawResources, k: ResourceKind, i: nat, fields: seq<Field>) returns (errors: seq<ValidationError>)
    requires ResourceCount(res, k).Some? && i < ResourceCount(res, k).value
    ensures errors == ItemErrors(res, k, i, fields)
  {
    errors := [];
    var j := 0;
    while j < |fields|
      invariant 0 <= j <= |fields|
      invariant errors == ItemErrors(res, k, i, fields[..j])
    {
      assert fields[..j + 1][..j] == fields[..j];
      if !ItemHas(res, k, i, fields[j]) {
        errors := errors + [MissingResourceField(k, i, fields[j])];
      }
      j := j + 1;
    }
    assert fields[..j] == fields;
  }

  /** `for i, resource in enumerate(resources[k])`, for a list that is present. */
  method CheckItems(res: RawResources, k: ResourceKind, fields: seq<Field>) returns (errors: seq<ValidationError>)
    requires ResourceCount(res, k).Some?
    ensures errors == ItemsErrors(res, k, fields, ResourceCount(res, k).value)
  {
    var n := ResourceCount(res, k).value;
    errors := [];
    var i := 0;
    while i < n
      invariant 0 <= i <= n
      invariant errors == ItemsErrors(res, k, fields, i)
    {
      var e := CheckItem(res, k, i, fields);
      errors := errors + e;
      i := i + 1;
    }
  }

  /** The checks of one constraint item, in the source's order. */
  method CheckConstraint(k: ConstraintKind, i: nat, c: RawConstraint) returns (errors: seq<ValidationError>)
    ensures errors == ConstraintItemErrors(k, i, c)
  {
    errors := [];
    if c.constraintType.None? {
      errors := errors + [MissingConstraintField(k, i, FType)];
    }
    if c.description.None? {
      errors := errors + [MissingConstraintField(k, i, FDescription)];
    }
    if c.weight.None? {
      errors := errors + [MissingConstraintField(k, i, FWeight)];
    }
  }

  /** One resource type: its absence, or its items' missing fields. */
  method CheckKind(config: Config, res: RawResources, k: ResourceKind) returns (errors: seq<ValidationError>)
    ensures errors == KindErrors(config, res, k)
  {
    if ResourceCount(res, k).None? {
      errors := [MissingResourceType(k)];
    } else {
      errors := CheckItems(res, k, FieldsFor(config, k));
    }
  }

  /** One constraint type: its absence, or its items' missing keys. */
  method CheckConstraintKind(cons: RawConstraints, k: ConstraintKind) returns (errors: seq<ValidationError>)
    ensures errors == ConstraintKindErrors(cons, k)
  {
    var list := ConstraintList(cons, k);
    if list.None? {
      errors := [MissingConstraintType(k)];
    } else {
      errors := CheckConstraints(k, list.value);
    }
  }

  /** The inner loop of `_validate_constraints` over one constraint list. */
  method CheckConstraints(k: ConstraintKind, items: seq<RawConstraint>) returns (errors: seq<ValidationError>)
    ensures errors == ConstraintItemsErrors(k, items, |items|)
  {
    errors := [];
    var j := 0;
    while j < |items|
      invariant 0 <= j <= |items|
      invariant errors == ConstraintItemsErrors(k, items, j)
    {
      var e := CheckConstraint(k, j, items[j]);
      errors := errors + e;
      j := j + 1;
    }
  }

  /** The inner loop of `_validate_relationships` for one owner's references. */
  method CheckRefs(kind: RefKind, owner: Option<Id>, refs: seq<Id>, known: set<Id>) returns (errors: seq<ValidationError>)
    requires Resolved(refs, known) || owner.Some?
    ensures errors == Dangling(kind, owner, refs, known)
  {
    errors := [];
    var j := 0;
    while j < |refs|
      invariant 0 <= j <= |refs|
      invariant errors == Dangling(kind, owner, refs[..j], known)
    {
      assert refs[..j + 1][..j] == refs[..j];
      if refs[j] !in known {
        errors := errors + [UnknownReference(kind, owner.value, refs[j])];
      }
      j := j + 1;
    }
    assert refs[..j] == refs;
  }

  /** One pass of `_validate_relationships` over the courses. */
  method CheckCourses(courses: seq<RawCourse>, known: set<Id>, kind: RefKind) returns (errors: seq<ValidationError>)
    requires CoursesNamed(courses, known, kind)
    ensures errors == CourseErrors(courses, known, kind, |courses|)
  {
    errors := [];
    var i := 0;
    while i < |courses|
      invariant 0 <= i <= |courses|
      invariant errors == CourseErrors(courses, known, kind, i)
    {
      var e := CheckRefs(kind, courses[i].id, CourseRefs(courses[i], kind), known);
      errors := errors + e;
      i := i + 1;
    }
  }

  /** `set(item["id"] for item in items)`, built by a loop. */
  method CollectIds<R>(items: seq<R>, id: R -> Option<Id>) returns (ids: set<Id>)
    requires AllIds(items, id)
    ensures ids == Ids(items, id)
  {
    ids := {};
    var i := 0;
    while i < |items|
      invariant 0 <= i <= |items|
      invariant ids == set j | 0 <= j < i :: id(items[j]).value
    {
      ids := ids + {id(items[i]).value};
      i := i + 1;
    }
  }

  /** The validator, with its configuration fixed at construction. */
  class DataValidator {
    const config: Config

    /** The default configuration; loading a custom one from a file is not modelled. */
    constructor ()
      ensures config == DefaultConfig
    {
      config := DefaultConfig;
    }

    /** `validate`: the sections first; if any is missing, nothing else. */
    method Validate(input: RawInput) returns (isValid: bool, errors: seq<ValidationError>)
      requires Validatable(config, input)
      ensures errors == ValidationErrors(config, input)
      ensures isValid <==> errors == []
    {
      var sectionErrors := ValidateRequiredSections(input);
      if sectionErrors != [] {
        return false, sectionErrors;
      }
      var res := input.resources.value;
      var resourceErrors := ValidateResources(res);
      var constraintErrors := ValidateConstraints(input.constraints.value);
      var relationErrors := ValidateRelationships(res);
      var mentorErrors := ValidateMentorAssignments(res);
      errors := resourceErrors + constraintErrors + relationErrors + mentorErrors;
      isValid := |errors| == 0;
    }

    /** `_validate_required_sections`. */
    method ValidateRequiredSections(input: RawInput) returns (errors: seq<ValidationError>)
      ensures errors == SectionErrors(config.requiredSections, input)
    {
      var sections := config.requiredSections;
      errors := [];
      var i := 0;
      while i < |sections|
        invariant 0 <= i <= |sections|
        invariant errors == SectionErrors(sections[..i], input)
      {
        assert sections[..i + 1][..i] == sections[..i];
        if !SectionPresent(input, sections[i]) {
          errors := errors + [MissingSection(sections[i])];
        }
        i := i + 1;
      }
      assert sections[..i] == sections;
    }

    /** `_validate_resources`: a missing list is one error and its items are skipped. */
    method ValidateResources(res: RawResources) returns (errors: seq<ValidationError>)
      ensures errors == ResourceErrors(config, res, config.requiredResources)
    {
      var kinds := config.requiredResources;
      errors := [];
      var i := 0;
      while i < |kinds|
        invariant 0 <= i <= |kinds|
        invariant errors == ResourceErrors(config, res, kinds[..i])
      {
        assert kinds[..i + 1][..i] == kinds[..i];
        var kindErrors := CheckKind(config, res, kinds[i]);
        errors := errors + kindErrors;
        i := i + 1;
      }
      assert kinds[..i] == kinds;
    }

    /** `_validate_constraints`. */
    method ValidateConstraints(cons: RawConstraints) returns (errors: seq<ValidationError>)
      ensures errors == ConstraintErrors(cons, config.requiredConstraints)
    {
      var kinds := config.requiredConstraints;
      errors := [];
      var i := 0;
      while i < |kinds|
        invariant 0 <= i <= |kinds|
        invariant errors == ConstraintErrors(cons, kinds[..i])
      {
        assert kinds[..i + 1][..i] == kinds[..i];
        var kindErrors := CheckConstraintKind(cons, kinds[i]);
        errors := errors + kindErrors;
        i := i + 1;
      }
      assert kinds[..i] == kinds;
    }

    /** `_validate_relationships`: teachers, groups, students, then rooms. */
    method ValidateRelationships(res: RawResources) returns (errors: seq<ValidationError>)
      requires RelationsReadable(res)
      ensures errors == RelationErrors(res)
    {
      var courses := res.courses.value;
      var teacherIds := CollectIds(res.teachers.value, TeacherIdOf);
      errors := CheckCourses(courses, teacherIds, TeacherRef);
      var groupIds := CollectIds(res.studentGroups.value, GroupIdOf);
      var e := CheckCourses(courses, groupIds, StudentGroupRef);
      errors := errors + e;
      var studentIds := CollectIds(res.students.value, StudentIdOf);
      var groups := res.studentGroups.value;
      var groupErrors := [];
      var i := 0;
      while i < |groups|
        invariant 0 <= i <= |groups|
        invariant groupErrors == GroupErrors(groups, studentIds, i)
      {
        e := CheckRefs(StudentRef, groups[i].id, groups[i].students.GetOr([]), studentIds);
        groupErrors := groupErrors + e;
        i := i + 1;
      }
      errors := errors + groupErrors;
      var roomIds := CollectIds(res.rooms.value, RoomIdOf);
      e := CheckCourses(courses, roomIds, RoomRef);
      errors := errors + e;
    }

    /** `_validate_mentor_assignments`: every group must have exactly 4 students. */
    method ValidateMentorAssignments(res: RawResources) returns (errors: seq<ValidationError>)
      requires res.teachers.Some? && res.studentGroups.Some? && SizesNamed(res.studentGroups.value)
      ensures errors == SizeErrors(res.studentGroups.value, |res.studentGroups.value|)
    {
      var groups := res.studentGroups.value;
      errors := [];
      var i := 0;
      while i < |groups|
        invariant 0 <= i <= |groups|
        invariant errors == SizeErrors(groups, i)
      {
        if |groups[i].students.GetOr([])| != 4 {
          errors := errors + [WrongGroupSize(groups[i].id.value)];
        }
        i := i + 1;
      }
    }
  }
}
