/**
 * The records of the timetable system (teachers, students, courses, rooms,
 * time slots, student groups, constraints), the keyed collections that hold
 * them, and timetables: finite maps from course id to an assignment.
 */
module Domain {
  import opened Wrappers
  import opened Sequences

  type Id = string

  /** A JSON value carried through unchanged (preferences, unavailability, algorithm parameters). */
  datatype Json =
    | JNull
    | JBool(b: bool)
    | JInt(i: int)
    | JString(s: string)
    | JArray(items: seq<Json>)
    | JObject(fields: map<string, Json>)

  const EmptyObject: Json := JObject(map[])
  const EmptyArray: Json := JArray([])

  datatype Teacher = Teacher(
    id: Id, name: string, department: string, specialization: seq<string>,
    maxHoursPerDay: int, maxHoursPerWeek: int, preferences: Json, unavailability: Json,
    isMentor: bool, maxMentees: int)

  datatype Student = Student(
    id: Id, name: string, batch: string, semester: int, registeredCourses: seq<Id>,
    needsMentor: bool, specialRequirements: seq<string>)

  datatype Course = Course(
    id: Id, code: string, name: string, credits: int, hoursPerWeek: int,
    sessionsPerWeek: int, sessionDuration: int, requiresLab: bool,
    preferredRooms: seq<Id>, eligibleTeachers: seq<Id>, studentGroups: seq<Id>)

  datatype Room = Room(
    id: Id, name: string, roomType: string, capacity: int, facilities: seq<string>,
    building: string, floor: int)

  datatype TimeSlot = TimeSlot(id: Id, day: string, startTime: string, endTime: string, slotType: string)

  datatype StudentGroup = StudentGroup(id: Id, name: string, students: seq<Id>, courses: seq<Id>)

  datatype Constraint = Constraint(constraintType: string, description: string, weight: int)

  /** Python's `KeyError(key)`: a subscript on a key the dict does not hold. */
  datatype KeyError = KeyError(key: string)

  /**
   * A Python dict with its insertion order: `order` lists the keys in the order
   * they were first inserted, `entries` maps each key to its current value.
   */
  datatype Keyed<V> = Keyed(order: seq<Id>, entries: map<Id, V>) {
    ghost predicate Valid() {
      && Distinct(order)
      && (forall k :: k in entries <==> k in order)
    }

    /** `d[k] = v`: a new key goes last, an existing key keeps its place and gets the new value. */
    function Put(k: Id, v: V): (r: Keyed<V>)
      ensures Valid() ==> r.Valid()
      ensures r.entries == entries[k := v]
      ensures |r.order| == |order| + (if k in entries then 0 else 1)
      ensures forall i :: 0 <= i < |order| ==> r.order[i] == order[i]
    {
      if k in entries then Keyed(order, entries[k := v]) else Keyed(order + [k], entries[k := v])
    }
  }

  function EmptyKeyed<V>(): (r: Keyed<V>)
    ensures r.Valid() && r.order == [] && r.entries == map[]
  {
    Keyed([], map[])
  }

  /** The collections `parse_data` and the data transformer produce and the algorithms read. */
  datatype Dataset = Dataset(
    teachers: Keyed<Teacher>,
    students: Keyed<Student>,
    courses: Keyed<Course>,
    rooms: Keyed<Room>,
    timeSlots: Keyed<TimeSlot>,
    studentGroups: Keyed<StudentGroup>,
    hardConstraints: seq<Constraint>,
    softConstraints: seq<Constraint>,
    algorithmParameters: Option<Json>)
  {
    ghost predicate Valid() {
      && teachers.Valid() && students.Valid() && courses.Valid()
      && rooms.Valid() && timeSlots.Valid() && studentGroups.Valid()
    }
  }

  /** One timetable entry: `{'teacher_id', 'room_id', 'time_slot_id'}`. */
  datatype Assignment = Assignment(teacher: Id, room: Id, slot: Id)

  /** A timetable: course id to assignment. */
  type Solution = map<Id, Assignment>

  /** The assignment takes its teacher from the course's eligible teachers, its room from the course's preferred rooms and its slot from the time slots. */
  ghost predicate LegalFor(data: Dataset, c: Id, a: Assignment)
    requires c in data.courses.entries
  {
    && a.teacher in data.courses.entries[c].eligibleTeachers
    && a.room in data.courses.entries[c].preferredRooms
    && a.slot in data.timeSlots.entries
  }

  /** Every entry is for a known course and draws each field from its legal set. */
  ghost predicate Legal(data: Dataset, sol: Solution) {
    forall c :: c in sol ==> c in data.courses.entries && LegalFor(data, c, sol[c])
  }

  /** The timetable has exactly one entry per course. */
  ghost predicate Total(data: Dataset, sol: Solution) {
    sol.Keys == data.courses.entries.Keys
  }

  /**
   * `b` is `a` with at most one field replaced, and a replaced field takes a
   * value from that field's legal set for course `c`.
   */
  ghost predicate LegalEdit(data: Dataset, c: Id, a: Assignment, b: Assignment)
    requires c in data.courses.entries
  {
    && ((a.room == b.room && a.slot == b.slot)
        || (a.teacher == b.teacher && a.slot == b.slot)
        || (a.teacher == b.teacher && a.room == b.room))
    && (b.teacher == a.teacher || b.teacher in data.courses.entries[c].eligibleTeachers)
    && (b.room == a.room || b.room in data.courses.entries[c].preferredRooms)
    && (b.slot == a.slot || b.slot in data.timeSlots.entries)
  }

  lemma LegalEditKeepsLegal(data: Dataset, c: Id, a: Assignment, b: Assignment)
    requires c in data.courses.entries
    requires LegalFor(data, c, a) && LegalEdit(data, c, a, b)
    ensures LegalFor(data, c, b)
  {
  }

  /** Both the order and the entries of a valid keyed collection have one element per key. */
  lemma KeyedSize<V>(k: Keyed<V>)
    requires k.Valid()
    ensures |k.entries| == |k.order|
  {
    assert k.entries.Keys == set x | x in k.order;
    DistinctCardinality(k.order);
  }
}
