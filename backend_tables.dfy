/** The backend's relational tables (backend/db/sql_db.py, the SQLModel classes)
    held in memory: each table is the sequence of its rows in insertion order,
    which is also ascending id order. */
module Tables {
  import opened Wrappers
  import opened Seqs

  /** `LessonType` (backend/db/main_db.py). */
  datatype LessonType = Lecture | Lab

  /** A structural division: a university (no parent), a faculty (a child of a
      university) or a department (a child of a faculty). */
  datatype Division = Division(id: int, name: string, shortName: Option<string>, parentId: Option<int>)

  datatype Specialty = Specialty(id: int, name: string, departmentId: int)

  datatype Group = Group(id: int, name: string, course: string, specialtyId: int, studentCount: int)

  /** A row of the many-to-many link between flows and groups. */
  datatype FlowGroupLink = FlowGroupLink(flowId: int, groupId: int)

  /** A room; `departmentId` is absent for a room of the faculty itself. */
  datatype Classroom = Classroom(id: int, name: string, capacity: int, facultyId: int, departmentId: Option<int>)

  datatype Subject = Subject(id: int, name: string, shortName: string)

  datatype Teacher = Teacher(id: int, fullName: string, departmentId: int)

  /** A curriculum entry: a subject taught for `hours` per semester to one group
      or to one flow. */
  datatype Curriculum = Curriculum(
    id: int, subjectId: int, hours: int, primaryTeacherId: int, secondaryTeacherId: Option<int>,
    groupId: Option<int>, flowId: Option<int>)

  /** A timetable entry: a curriculum entry at (week, day, pair) in a room. */
  datatype Lesson = Lesson(
    id: int, week: int, day: int, pair: int, classroomId: int, curriculumId: int, lessonType: LessonType)

  /** The flow table has no column besides its id. */
  datatype Tables = Tables(
    divisions: seq<Division>, specialties: seq<Specialty>, groups: seq<Group>,
    flows: seq<int>, links: seq<FlowGroupLink>, classrooms: seq<Classroom>,
    subjects: seq<Subject>, teachers: seq<Teacher>, curricula: seq<Curriculum>, lessons: seq<Lesson>)

  const Empty := Tables([], [], [], [], [], [], [], [], [], [])

  /** Python truthiness of an optional id: `None` and `0` are false. */
  predicate Truthy(x: Option<int>) {
    x.Some? && x.value != 0
  }

  function DivisionId(d: Division): int { d.id }
  function DivisionName(d: Division): string { d.name }
  function SpecialtyId(s: Specialty): int { s.id }
  function SpecialtyName(s: Specialty): string { s.name }
  function SpecialtyDepartment(s: Specialty): int { s.departmentId }
  function GroupId(g: Group): int { g.id }
  function GroupName(g: Group): string { g.name }
  function GroupSpecialty(g: Group): int { g.specialtyId }
  function FlowOf(l: FlowGroupLink): int { l.flowId }
  function GroupOf(l: FlowGroupLink): int { l.groupId }
  function FlowKey(f: int): int { f }
  function ClassroomId(c: Classroom): int { c.id }
  function ClassroomName(c: Classroom): string { c.name }
  function ClassroomFaculty(c: Classroom): int { c.facultyId }
  function ClassroomDepartment(c: Classroom): Option<int> { c.departmentId }
  function SubjectId(s: Subject): int { s.id }
  function SubjectName(s: Subject): string { s.name }
  function TeacherId(t: Teacher): int { t.id }
  function TeacherName(t: Teacher): string { t.fullName }
  function TeacherDepartment(t: Teacher): int { t.departmentId }
  function CurriculumId(c: Curriculum): int { c.id }
  function CurriculumSubject(c: Curriculum): int { c.subjectId }
  function CurriculumPrimary(c: Curriculum): int { c.primaryTeacherId }
  function CurriculumSecondary(c: Curriculum): Option<int> { c.secondaryTeacherId }
  function CurriculumGroup(c: Curriculum): Option<int> { c.groupId }
  function CurriculumFlow(c: Curriculum): Option<int> { c.flowId }
  function LessonId(l: Lesson): int { l.id }
  function LessonClassroom(l: Lesson): int { l.classroomId }
  function LessonCurriculum(l: Lesson): int { l.curriculumId }

  /** Every row of `xs` refers, through `ref`, to a row of `ys`. */
  ghost predicate RefersTo<T, U>(xs: seq<T>, ref: T -> int, ys: seq<U>, key: U -> int) {
    forall i :: 0 <= i < |xs| ==> HasKey(ys, key, ref(xs[i]))
  }

  /** Every row of `xs` whose optional reference is truthy refers to a row of
      `ys`: the reference is checked only when `if ref:` holds. */
  ghost predicate TruthyRefersTo<T, U>(xs: seq<T>, ref: T -> Option<int>, ys: seq<U>, key: U -> int) {
    forall i :: 0 <= i < |xs| ==> Truthy(ref(xs[i])) ==> HasKey(ys, key, ref(xs[i]).value)
  }

  /** The ids a column can reference through a nullable, truthiness-tested
      foreign key are positive, as the database assigns them: a falsy reference
      (`None` or `0`) never names a row. */
  ghost predicate PositiveKeys<T>(xs: seq<T>, key: T -> int) {
    forall i :: 0 <= i < |xs| ==> key(xs[i]) >= 1
  }

  /** A division's parent is checked whenever it is given (`is not None`). */
  ghost predicate ParentsExist(ds: seq<Division>) {
    forall i :: 0 <= i < |ds| && ds[i].parentId.Some? ==> HasKey(ds, DivisionId, ds[i].parentId.value)
  }

  /** A curriculum entry names exactly one of a group and a flow, and no two
      entries share subject, group and flow. */
  ghost predicate CurriculaWellFormed(cs: seq<Curriculum>) {
    (forall i :: 0 <= i < |cs| ==> Truthy(cs[i].groupId) != Truthy(cs[i].flowId)) &&
    (forall i, j :: 0 <= i < j < |cs| ==>
       (cs[i].subjectId, cs[i].groupId, cs[i].flowId) != (cs[j].subjectId, cs[j].groupId, cs[j].flowId))
  }

  /** A timetable entry lies in week 1 or 2, on day 1..6, at pair 1..8. */
  predicate InGrid(week: int, day: int, pair: int) {
    1 <= week <= 2 && 1 <= day <= 6 && 1 <= pair <= 8
  }

  ghost predicate LessonsInGrid(ls: seq<Lesson>) {
    forall i :: 0 <= i < |ls| ==> InGrid(ls[i].week, ls[i].day, ls[i].pair)
  }

  /** The invariant every operation keeps: primary keys and unique names are
      distinct, references resolve, and the validated rules hold. */
  ghost predicate Valid(t: Tables) {
    DistinctKeys(t.divisions, DivisionId) && DistinctKeys(t.divisions, DivisionName) && ParentsExist(t.divisions) &&
    DistinctKeys(t.specialties, SpecialtyId) && DistinctKeys(t.specialties, SpecialtyName) &&
    RefersTo(t.specialties, SpecialtyDepartment, t.divisions, DivisionId) &&
    DistinctKeys(t.groups, GroupId) && DistinctKeys(t.groups, GroupName) && PositiveKeys(t.groups, GroupId) &&
    RefersTo(t.groups, GroupSpecialty, t.specialties, SpecialtyId) &&
    DistinctKeys(t.flows, FlowKey) && PositiveKeys(t.flows, FlowKey) &&
    RefersTo(t.links, FlowOf, t.flows, FlowKey) && RefersTo(t.links, GroupOf, t.groups, GroupId) &&
    DistinctKeys(t.classrooms, ClassroomId) && DistinctKeys(t.classrooms, ClassroomName) &&
    RefersTo(t.classrooms, ClassroomFaculty, t.divisions, DivisionId) &&
    TruthyRefersTo(t.classrooms, ClassroomDepartment, t.divisions, DivisionId) &&
    DistinctKeys(t.subjects, SubjectId) && DistinctKeys(t.subjects, SubjectName) &&
    DistinctKeys(t.teachers, TeacherId) && DistinctKeys(t.teachers, TeacherName) && PositiveKeys(t.teachers, TeacherId) &&
    RefersTo(t.teachers, TeacherDepartment, t.divisions, DivisionId) &&
    DistinctKeys(t.curricula, CurriculumId) && CurriculaWellFormed(t.curricula) &&
    RefersTo(t.curricula, CurriculumSubject, t.subjects, SubjectId) &&
    RefersTo(t.curricula, CurriculumPrimary, t.teachers, TeacherId) &&
    TruthyRefersTo(t.curricula, CurriculumSecondary, t.teachers, TeacherId) &&
    TruthyRefersTo(t.curricula, CurriculumGroup, t.groups, GroupId) &&
    TruthyRefersTo(t.curricula, CurriculumFlow, t.flows, FlowKey) &&
    DistinctKeys(t.lessons, LessonId) && LessonsInGrid(t.lessons) &&
    RefersTo(t.lessons, LessonClassroom, t.classrooms, ClassroomId) &&
    RefersTo(t.lessons, LessonCurriculum, t.curricula, CurriculumId)
  }

  /** A fresh database is valid. */
  lemma EmptyValid()
    ensures Valid(Empty)
  {
  }

  /** Adding a row to the referenced table keeps every reference resolving. */
  lemma RefersToGrow<T, U>(xs: seq<T>, ref: T -> int, ys: seq<U>, key: U -> int, y: U)
    requires RefersTo(xs, ref, ys, key)
    ensures RefersTo(xs, ref, ys + [y], key)
  {
    HasKeyAppend(ys, key, y);
  }

  lemma TruthyRefersToGrow<T, U>(xs: seq<T>, ref: T -> Option<int>, ys: seq<U>, key: U -> int, y: U)
    requires TruthyRefersTo(xs, ref, ys, key)
    ensures TruthyRefersTo(xs, ref, ys + [y], key)
  {
    HasKeyAppend(ys, key, y);
  }

  /** Adding a row whose reference resolves keeps every reference resolving. */
  lemma RefersToExtend<T, U>(xs: seq<T>, ref: T -> int, ys: seq<U>, key: U -> int, x: T)
    requires RefersTo(xs, ref, ys, key) && HasKey(ys, key, ref(x))
    ensures RefersTo(xs + [x], ref, ys, key)
  {
    forall i | 0 <= i < |xs| + 1 ensures HasKey(ys, key, ref((xs + [x])[i])) {
      if i < |xs| {
        assert (xs + [x])[i] == xs[i];
      }
    }
  }

  lemma TruthyRefersToExtend<T, U>(xs: seq<T>, ref: T -> Option<int>, ys: seq<U>, key: U -> int, x: T)
    requires TruthyRefersTo(xs, ref, ys, key) && (Truthy(ref(x)) ==> HasKey(ys, key, ref(x).value))
    ensures TruthyRefersTo(xs + [x], ref, ys, key)
  {
    forall i | 0 <= i < |xs| + 1 && Truthy(ref((xs + [x])[i])) ensures HasKey(ys, key, ref((xs + [x])[i]).value) {
      if i < |xs| {
        assert (xs + [x])[i] == xs[i];
      }
    }
  }

  lemma AppendPositive<T>(xs: seq<T>, key: T -> int, x: T)
    requires PositiveKeys(xs, key) && key(x) >= 1
    ensures PositiveKeys(xs + [x], key)
  {
    forall i | 0 <= i < |xs| + 1 ensures key((xs + [x])[i]) >= 1 {
      if i < |xs| {
        assert (xs + [x])[i] == xs[i];
      }
    }
  }

  /** Appending a row whose key was not present keeps the keys distinct. */
  lemma AppendFreshKeepsDistinct<T, K>(xs: seq<T>, key: T -> K, x: T)
    requires DistinctKeys(xs, key) && forall i :: 0 <= i < |xs| ==> key(xs[i]) != key(x)
    ensures DistinctKeys(xs + [x], key)
  {
    var ys := xs + [x];
    forall i, j | 0 <= i < j < |ys| ensures key(ys[i]) != key(ys[j]) {
      assert ys[i] == xs[i];
      if j < |xs| {
        assert ys[j] == xs[j];
      }
    }
  }
}
