/** The validating writes of the backend's database class (`SQLDatabase` in
    backend/db/sql_db.py): each checks its arguments against the tables, raises
    on the first failed check, and otherwise inserts, changes or deletes one row. */
module Database {
  import opened Wrappers
  import opened Seqs
  import opened Ids
  import opened Tables
  import opened Views
  import opened Sorting
  import opened AutoSchedule
  import Collisions

  datatype TableName =
    | DivisionTable | SpecialtyTable | GroupTable | FlowTable | ClassroomTable
    | SubjectTable | TeacherTable | CurriculumTable | LessonTable

  /** The `ValueError`s the writes raise. */
  datatype DbError =
    | NotFound(table: TableName, id: int)
    | NameTaken(table: TableName, name: string)
    | GroupsNotFound(names: seq<string>)
    | NeitherOrBoth
    | AlreadyPlanned
    | WeekOutOfRange | DayOutOfRange | PairOutOfRange

  /** The id the database gives the next row of a table: one more than the
      largest id, or 1 for an empty table. */
  function NewId<T>(xs: seq<T>, key: T -> int): (r: int)
    ensures forall i :: 0 <= i < |xs| ==> key(xs[i]) != r
    ensures (forall i :: 0 <= i < |xs| ==> key(xs[i]) >= 1) ==> r >= 1
  {
    NextKeyAbove(xs, key);
    NextId(Map(xs, key))
  }

  /** The rows `add_flow` finds: the table's groups whose name is requested, in
      table order. */
  function FoundGroups(t: Tables, names: seq<string>): (r: seq<Group>)
    ensures forall g :: g in r <==> g in t.groups && g.name in names
  {
    Filter(t.groups, (g: Group) => g.name in names)
  }

  /** The requested names no group carries, in request order (`add_flow`
      compares against the names of the found rows, which are exactly the
      requested names some group carries). */
  function MissingGroups(t: Tables, names: seq<string>): (r: seq<string>)
    ensures forall n :: n in r <==> n in names && !HasKey(t.groups, GroupName, n)
    ensures forall i :: 0 <= i < |r| ==> r[i] in names
  {
    Filter(names, (n: string) => !HasKey(t.groups, GroupName, n))
  }

  function LinkTo(flow: int): Group -> FlowGroupLink {
    (g: Group) => FlowGroupLink(flow, g.id)
  }

  /** The rule of `add_lesson_to_plan`: exactly one of group and flow is truthy. */
  predicate GroupXorFlow(groupId: Option<int>, flowId: Option<int>) {
    Truthy(groupId) != Truthy(flowId)
  }

  /** Some entry already plans the subject for this group and flow. */
  predicate Planned(t: Tables, subjectId: int, groupId: Option<int>, flowId: Option<int>) {
    exists i :: 0 <= i < |t.curricula| && t.curricula[i].subjectId == subjectId &&
      t.curricula[i].groupId == groupId && t.curricula[i].flowId == flowId
  }

  function EditLesson(classroomId: int, curriculumId: int, lessonType: LessonType): Lesson -> Lesson {
    (l: Lesson) => l.(classroomId := classroomId, curriculumId := curriculumId, lessonType := lessonType)
  }

  function NotLesson(id: int): Lesson -> bool {
    (l: Lesson) => l.id != id
  }

  lemma AddDivisionKeepsValid(t: Tables, d: Division)
    requires Valid(t)
    requires !HasKey(t.divisions, DivisionId, d.id) && !HasKey(t.divisions, DivisionName, d.name)
    requires d.parentId.Some? ==> HasKey(t.divisions, DivisionId, d.parentId.value)
    ensures Valid(t.(divisions := t.divisions + [d]))
  {
    var ds := t.divisions + [d];
    AppendFreshKeepsDistinct(t.divisions, DivisionId, d);
    AppendFreshKeepsDistinct(t.divisions, DivisionName, d);
    HasKeyAppend(t.divisions, DivisionId, d);
    forall i | 0 <= i < |ds| && ds[i].parentId.Some? ensures HasKey(ds, DivisionId, ds[i].parentId.value) {
      if i < |t.divisions| {
        assert ds[i] == t.divisions[i];
      }
    }
    RefersToGrow(t.specialties, SpecialtyDepartment, t.divisions, DivisionId, d);
    RefersToGrow(t.classrooms, ClassroomFaculty, t.divisions, DivisionId, d);
    TruthyRefersToGrow(t.classrooms, ClassroomDepartment, t.divisions, DivisionId, d);
    RefersToGrow(t.teachers, TeacherDepartment, t.divisions, DivisionId, d);
  }

  lemma AddSpecialtyKeepsValid(t: Tables, s: Specialty)
    requires Valid(t)
    requires !HasKey(t.specialties, SpecialtyId, s.id) && !HasKey(t.specialties, SpecialtyName, s.name)
    requires HasKey(t.divisions, DivisionId, s.departmentId)
    ensures Valid(t.(specialties := t.specialties + [s]))
  {
    AppendFreshKeepsDistinct(t.specialties, SpecialtyId, s);
    AppendFreshKeepsDistinct(t.specialties, SpecialtyName, s);
    RefersToExtend(t.specialties, SpecialtyDepartment, t.divisions, DivisionId, s);
    RefersToGrow(t.groups, GroupSpecialty, t.specialties, SpecialtyId, s);
  }

  lemma AddGroupKeepsValid(t: Tables, g: Group)
    requires Valid(t)
    requires !HasKey(t.groups, GroupId, g.id) && !HasKey(t.groups, GroupName, g.name)
    requires HasKey(t.specialties, SpecialtyId, g.specialtyId) && g.id >= 1
    ensures Valid(t.(groups := t.groups + [g]))
  {
    AppendPositive(t.groups, GroupId, g);
    AppendFreshKeepsDistinct(t.groups, GroupId, g);
    AppendFreshKeepsDistinct(t.groups, GroupName, g);
    RefersToExtend(t.groups, GroupSpecialty, t.specialties, SpecialtyId, g);
    RefersToGrow(t.links, GroupOf, t.groups, GroupId, g);
    TruthyRefersToGrow(t.curricula, CurriculumGroup, t.groups, GroupId, g);
  }

  lemma AddTeacherKeepsValid(t: Tables, x: Teacher)
    requires Valid(t)
    requires !HasKey(t.teachers, TeacherId, x.id) && !HasKey(t.teachers, TeacherName, x.fullName)
    requires HasKey(t.divisions, DivisionId, x.departmentId) && x.id >= 1
    ensures Valid(t.(teachers := t.teachers + [x]))
  {
    AppendPositive(t.teachers, TeacherId, x);
    AppendFreshKeepsDistinct(t.teachers, TeacherId, x);
    AppendFreshKeepsDistinct(t.teachers, TeacherName, x);
    RefersToExtend(t.teachers, TeacherDepartment, t.divisions, DivisionId, x);
    RefersToGrow(t.curricula, CurriculumPrimary, t.teachers, TeacherId, x);
    TruthyRefersToGrow(t.curricula, CurriculumSecondary, t.teachers, TeacherId, x);
  }

  lemma AddClassroomKeepsValid(t: Tables, c: Classroom)
    requires Valid(t)
    requires !HasKey(t.classrooms, ClassroomId, c.id) && !HasKey(t.classrooms, ClassroomName, c.name)
    requires HasKey(t.divisions, DivisionId, c.facultyId)
    requires Truthy(c.departmentId) ==> HasKey(t.divisions, DivisionId, c.departmentId.value)
    ensures Valid(t.(classrooms := t.classrooms + [c]))
  {
    AppendFreshKeepsDistinct(t.classrooms, ClassroomId, c);
    AppendFreshKeepsDistinct(t.classrooms, ClassroomName, c);
    RefersToExtend(t.classrooms, ClassroomFaculty, t.divisions, DivisionId, c);
    TruthyRefersToExtend(t.classrooms, ClassroomDepartment, t.divisions, DivisionId, c);
    RefersToGrow(t.lessons, LessonClassroom, t.classrooms, ClassroomId, c);
  }

  lemma AddSubjectKeepsValid(t: Tables, s: Subject)
    requires Valid(t)
    requires !HasKey(t.subjects, SubjectId, s.id) && !HasKey(t.subjects, SubjectName, s.name)
    ensures Valid(t.(subjects := t.subjects + [s]))
  {
    AppendFreshKeepsDistinct(t.subjects, SubjectId, s);
    AppendFreshKeepsDistinct(t.subjects, SubjectName, s);
    RefersToGrow(t.curricula, CurriculumSubject, t.subjects, SubjectId, s);
  }

  lemma AddFlowKeepsValid(t: Tables, names: seq<string>, flow: int)
    requires Valid(t)
    requires !HasKey(t.flows, FlowKey, flow) && flow >= 1
    ensures Valid(t.(flows := t.flows + [flow], links := t.links + Map(FoundGroups(t, names), LinkTo(flow))))
  {
    var found := FoundGroups(t, names);
    var added := Map(found, LinkTo(flow));
    var links := t.links + added;
    AppendFreshKeepsDistinct(t.flows, FlowKey, flow);
    AppendPositive(t.flows, FlowKey, flow);
    HasKeyAppend(t.flows, FlowKey, flow);
    forall i | 0 <= i < |links|
      ensures HasKey(t.flows + [flow], FlowKey, links[i].flowId) && HasKey(t.groups, GroupId, links[i].groupId)
    {
      if i < |t.links| {
        assert links[i] == t.links[i];
      } else {
        var k := i - |t.links|;
        assert links[i] == added[k];
        NewLinkResolves(t, names, flow, k);
      }
    }
    assert RefersTo(links, FlowOf, t.flows + [flow], FlowKey) && RefersTo(links, GroupOf, t.groups, GroupId);
    TruthyRefersToGrow(t.curricula, CurriculumFlow, t.flows, FlowKey, flow);
  }

  /** The link `add_flow` makes for a found group joins the new flow with that
      existing group. */
  lemma NewLinkResolves(t: Tables, names: seq<string>, flow: int, k: int)
    requires 0 <= k < |FoundGroups(t, names)|
    ensures Map(FoundGroups(t, names), LinkTo(flow))[k].flowId == flow
    ensures HasKey(t.groups, GroupId, Map(FoundGroups(t, names), LinkTo(flow))[k].groupId)
  {
    var g := FoundGroups(t, names)[k];
    assert g in t.groups;
    var j :| 0 <= j < |t.groups| && t.groups[j] == g;
  }

  lemma AddCurriculumKeepsValid(t: Tables, c: Curriculum)
    requires Valid(t)
    requires !HasKey(t.curricula, CurriculumId, c.id)
    requires HasKey(t.subjects, SubjectId, c.subjectId) && HasKey(t.teachers, TeacherId, c.primaryTeacherId)
    requires Truthy(c.secondaryTeacherId) ==> HasKey(t.teachers, TeacherId, c.secondaryTeacherId.value)
    requires Truthy(c.groupId) ==> HasKey(t.groups, GroupId, c.groupId.value)
    requires Truthy(c.flowId) ==> HasKey(t.flows, FlowKey, c.flowId.value)
    requires GroupXorFlow(c.groupId, c.flowId) && !Planned(t, c.subjectId, c.groupId, c.flowId)
    ensures Valid(t.(curricula := t.curricula + [c]))
  {
    var cs := t.curricula + [c];
    AppendFreshKeepsDistinct(t.curricula, CurriculumId, c);
    forall i | 0 <= i < |cs| ensures Truthy(cs[i].groupId) != Truthy(cs[i].flowId) {
      if i < |t.curricula| {
        assert cs[i] == t.curricula[i];
      }
    }
    forall i, j | 0 <= i < j < |cs|
      ensures (cs[i].subjectId, cs[i].groupId, cs[i].flowId) != (cs[j].subjectId, cs[j].groupId, cs[j].flowId)
    {
      assert cs[i] == t.curricula[i];
      if j < |t.curricula| {
        assert cs[j] == t.curricula[j];
      }
    }
    RefersToExtend(t.curricula, CurriculumSubject, t.subjects, SubjectId, c);
    RefersToExtend(t.curricula, CurriculumPrimary, t.teachers, TeacherId, c);
    TruthyRefersToExtend(t.curricula, CurriculumSecondary, t.teachers, TeacherId, c);
    TruthyRefersToExtend(t.curricula, CurriculumGroup, t.groups, GroupId, c);
    TruthyRefersToExtend(t.curricula, CurriculumFlow, t.flows, FlowKey, c);
    RefersToGrow(t.lessons, LessonCurriculum, t.curricula, CurriculumId, c);
  }

  lemma AddLessonKeepsValid(t: Tables, l: Lesson)
    requires Valid(t)
    requires !HasKey(t.lessons, LessonId, l.id) && InGrid(l.week, l.day, l.pair)
    requires HasKey(t.classrooms, ClassroomId, l.classroomId) && HasKey(t.curricula, CurriculumId, l.curriculumId)
    ensures Valid(t.(lessons := t.lessons + [l]))
  {
    var ls := t.lessons + [l];
    AppendFreshKeepsDistinct(t.lessons, LessonId, l);
    forall i | 0 <= i < |ls| ensures InGrid(ls[i].week, ls[i].day, ls[i].pair) {
      if i < |t.lessons| {
        assert ls[i] == t.lessons[i];
      }
    }
    RefersToExtend(t.lessons, LessonClassroom, t.classrooms, ClassroomId, l);
    RefersToExtend(t.lessons, LessonCurriculum, t.curricula, CurriculumId, l);
  }

  lemma EditLessonKeepsValid(t: Tables, id: int, classroomId: int, curriculumId: int, lessonType: LessonType)
    requires Valid(t)
    requires HasKey(t.classrooms, ClassroomId, classroomId) && HasKey(t.curricula, CurriculumId, curriculumId)
    ensures Valid(t.(lessons := UpdateBy(t.lessons, LessonId, id, EditLesson(classroomId, curriculumId, lessonType))))
  {
    var ls := UpdateBy(t.lessons, LessonId, id, EditLesson(classroomId, curriculumId, lessonType));
    forall i | 0 <= i < |ls|
      ensures ls[i].id == t.lessons[i].id && InGrid(ls[i].week, ls[i].day, ls[i].pair)
      ensures HasKey(t.classrooms, ClassroomId, ls[i].classroomId) && HasKey(t.curricula, CurriculumId, ls[i].curriculumId)
    {
      assert InGrid(t.lessons[i].week, t.lessons[i].day, t.lessons[i].pair);
      assert HasKey(t.classrooms, ClassroomId, t.lessons[i].classroomId);
      assert HasKey(t.curricula, CurriculumId, t.lessons[i].curriculumId);
    }
    assert DistinctKeys(ls, LessonId) && LessonsInGrid(ls);
    assert RefersTo(ls, LessonClassroom, t.classrooms, ClassroomId);
    assert RefersTo(ls, LessonCurriculum, t.curricula, CurriculumId);
  }

  lemma RemoveLessonKeepsValid(t: Tables, id: int)
    requires Valid(t)
    ensures Valid(t.(lessons := Filter(t.lessons, NotLesson(id))))
  {
    var ls := Filter(t.lessons, NotLesson(id));
    FilterKeepsDistinctKeys(t.lessons, LessonId, NotLesson(id));
    forall i | 0 <= i < |ls|
      ensures InGrid(ls[i].week, ls[i].day, ls[i].pair) && HasKey(t.classrooms, ClassroomId, ls[i].classroomId) &&
              HasKey(t.curricula, CurriculumId, ls[i].curriculumId)
    {
      assert ls[i] in t.lessons;
      var j :| 0 <= j < |t.lessons| && t.lessons[j] == ls[i];
    }
  }

  /** What the placement loop of `auto_schedule` keeps, for the tables `t` it
      started from, the lessons `ls` so far and the busy sets `b`. */
  ghost predicate ScheduleInv(t: Tables, ls: seq<Lesson>, b: Busy) {
    Extends(t, ls) &&
    (DistinctKeys(t.curricula, CurriculumId) ==> Covered(t, ls, b) && NoClashFrom(t, ls, |t.lessons|)) &&
    (DistinctKeys(t.lessons, LessonId) ==> DistinctKeys(ls, LessonId)) &&
    (Valid(t) ==> Valid(t.(lessons := ls)))
  }

  /** The old lessons stay in front, and every one after them is placed. */
  ghost predicate Extends(t: Tables, ls: seq<Lesson>) {
    |t.lessons| <= |ls| && ls[..|t.lessons|] == t.lessons &&
    forall i :: |t.lessons| <= i < |ls| ==> Placed(t, ls[i])
  }

  /** The seeded busy sets start the loop. */
  lemma ScheduleInvInit(t: Tables)
    ensures ScheduleInv(t, t.lessons, Seeded(t, t.lessons))
  {
    SeededCovers(t, t.lessons);
    assert t.lessons[..|t.lessons|] == t.lessons;
  }

  lemma ExtendsAppend(t: Tables, ls: seq<Lesson>, l: Lesson)
    requires Extends(t, ls) && Placed(t, l)
    ensures Extends(t, ls + [l])
  {
    TailAppend(ls, |t.lessons|, l, (x: Lesson) => Placed(t, x));
  }

  lemma NoClashAppend(t: Tables, ls: seq<Lesson>, n: int, l: Lesson)
    requires NoClashFrom(t, ls, n) && forall k :: 0 <= k < |ls| ==> !Clash(t, ls[k], l)
    ensures NoClashFrom(t, ls + [l], n)
  {
    var ls' := ls + [l];
    forall x, k | 0 <= x < k < |ls'| && n <= k ensures !Clash(t, ls'[x], ls'[k]) {
      assert ls'[x] == ls[x];
      if k < |ls| {
        assert ls'[k] == ls[k];
      }
    }
  }

  /** Placing one needed lesson at a free slot keeps the loop invariant. */
  lemma PlaceKeepsInv(t: Tables, ls: seq<Lesson>, b: Busy, item: PlanItem, j: int, slot: Key)
    requires ScheduleInv(t, ls, b)
    requires FromCurriculum(t, item) && 0 <= j < |item.needed| && FreeFor(item, b, slot)
    ensures ScheduleInv(t, ls + [PlacedLesson(item, j, slot, NewId(ls, LessonId))], Occupy(b, item, slot))
  {
    var l := PlacedLesson(item, j, slot, NewId(ls, LessonId));
    PlacedLessonPlaced(t, item, j, slot, NewId(ls, LessonId), b);
    ExtendsAppend(t, ls, l);
    if DistinctKeys(t.curricula, CurriculumId) {
      PlaceKeepsCovered(t, ls, b, item, j, slot, NewId(ls, LessonId));
      NoClashAppend(t, ls, |t.lessons|, l);
    }
    if DistinctKeys(t.lessons, LessonId) {
      AppendFreshKeepsDistinct(ls, LessonId, l);
    }
    if Valid(t) {
      AddLessonKeepsValid(t.(lessons := ls), l);
    }
  }

  /** The database: every table, changed only through the validating writes. */
  class SQLDatabase {
    var tables: Tables

    /** A fresh database has empty tables. */
    constructor()
      ensures tables == Empty && Valid(tables)
    {
      tables := Empty;
      EmptyValid();
    }

    /** `add_structural_divizion`: a given parent must exist, and the name must be
        new among all divisions. */
    method AddStructuralDivision(parentId: Option<int>, name: string, shortName: Option<string>)
      returns (r: Result<int, DbError>)
      modifies this
      ensures r.Err? <==>
        (parentId.Some? && !HasKey(old(tables.divisions), DivisionId, parentId.value)) ||
        HasKey(old(tables.divisions), DivisionName, name)
      ensures r.Err? ==>
        r.error == (if parentId.Some? && !HasKey(old(tables.divisions), DivisionId, parentId.value)
                    then NotFound(DivisionTable, parentId.value) else NameTaken(DivisionTable, name))
      ensures r.Err? ==> tables == old(tables)
      ensures r.Ok? ==> r.value == NewId(old(tables.divisions), DivisionId)
      ensures r.Ok? ==>
        tables == old(tables).(divisions := old(tables.divisions) + [Division(r.value, name, shortName, parentId)])
      ensures old(Valid(tables)) ==> Valid(tables)
    {
      if parentId.Some? && !HasKey(tables.divisions, DivisionId, parentId.value) {
        return Err(NotFound(DivisionTable, parentId.value));
      }
      if HasKey(tables.divisions, DivisionName, name) {
        return Err(NameTaken(DivisionTable, name));
      }
      var id := NewId(tables.divisions, DivisionId);
      var d := Division(id, name, shortName, parentId);
      if Valid(tables) {
        AddDivisionKeepsValid(tables, d);
      }
      tables := tables.(divisions := tables.divisions + [d]);
      return Ok(id);
    }

    /** `add_speciality`: the department must exist and the name be new. */
    method AddSpeciality(departmentId: int, name: string) returns (r: Result<int, DbError>)
      modifies this
      ensures r.Err? <==>
        !HasKey(old(tables.divisions), DivisionId, departmentId) || HasKey(old(tables.specialties), SpecialtyName, name)
      ensures r.Err? ==>
        r.error == (if !HasKey(old(tables.divisions), DivisionId, departmentId)
                    then NotFound(DivisionTable, departmentId) else NameTaken(SpecialtyTable, name))
      ensures r.Err? ==> tables == old(tables)
      ensures r.Ok? ==> r.value == NewId(old(tables.specialties), SpecialtyId)
      ensures r.Ok? ==>
        tables == old(tables).(specialties := old(tables.specialties) + [Specialty(r.value, name, departmentId)])
      ensures old(Valid(tables)) ==> Valid(tables)
    {
      if !HasKey(tables.divisions, DivisionId, departmentId) {
        return Err(NotFound(DivisionTable, departmentId));
      }
      if HasKey(tables.specialties, SpecialtyName, name) {
        return Err(NameTaken(SpecialtyTable, name));
      }
      var id := NewId(tables.specialties, SpecialtyId);
      var s := Specialty(id, name, departmentId);
      if Valid(tables) {
        AddSpecialtyKeepsValid(tables, s);
      }
      tables := tables.(specialties := tables.specialties + [s]);
      return Ok(id);
    }

    /** `add_group`: the specialty must exist and the name be new. */
    method AddGroup(specialityId: int, name: string, course: string, studentCount: int)
      returns (r: Result<int, DbError>)
      modifies this
      ensures r.Err? <==>
        !HasKey(old(tables.specialties), SpecialtyId, specialityId) || HasKey(old(tables.groups), GroupName, name)
      ensures r.Err? ==>
        r.error == (if !HasKey(old(tables.specialties), SpecialtyId, specialityId)
                    then NotFound(SpecialtyTable, specialityId) else NameTaken(GroupTable, name))
      ensures r.Err? ==> tables == old(tables)
      ensures r.Ok? ==> r.value == NewId(old(tables.groups), GroupId)
      ensures r.Ok? ==>
        tables == old(tables).(groups := old(tables.groups) + [Group(r.value, name, course, specialityId, studentCount)])
      ensures old(Valid(tables)) ==> Valid(tables)
    {
      if !HasKey(tables.specialties, SpecialtyId, specialityId) {
        return Err(NotFound(SpecialtyTable, specialityId));
      }
      if HasKey(tables.groups, GroupName, name) {
        return Err(NameTaken(GroupTable, name));
      }
      var id := NewId(tables.groups, GroupId);
      var g := Group(id, name, course, specialityId, studentCount);
      if Valid(tables) {
        AddGroupKeepsValid(tables, g);
      }
      tables := tables.(groups := tables.groups + [g]);
      return Ok(id);
    }

    /** `add_teacher`: the department must exist and the full name be new. */
    method AddTeacher(departmentId: int, name: string) returns (r: Result<int, DbError>)
      modifies this
      ensures r.Err? <==>
        !HasKey(old(tables.divisions), DivisionId, departmentId) || HasKey(old(tables.teachers), TeacherName, name)
      ensures r.Err? ==>
        r.error == (if !HasKey(old(tables.divisions), DivisionId, departmentId)
                    then NotFound(DivisionTable, departmentId) else NameTaken(TeacherTable, name))
      ensures r.Err? ==> tables == old(tables)
      ensures r.Ok? ==> r.value == NewId(old(tables.teachers), TeacherId)
      ensures r.Ok? ==>
        tables == old(tables).(teachers := old(tables.teachers) + [Teacher(r.value, name, departmentId)])
      ensures old(Valid(tables)) ==> Valid(tables)
    {
      if !HasKey(tables.divisions, DivisionId, departmentId) {
        return Err(NotFound(DivisionTable, departmentId));
      }
      if HasKey(tables.teachers, TeacherName, name) {
        return Err(NameTaken(TeacherTable, name));
      }
      var id := NewId(tables.teachers, TeacherId);
      var x := Teacher(id, name, departmentId);
      if Valid(tables) {
        AddTeacherKeepsValid(tables, x);
      }
      tables := tables.(teachers := tables.teachers + [x]);
      return Ok(id);
    }

    /** `add_classroom`: the faculty must exist, a truthy department too, and the
        room name must be new. */
    method AddClassroom(facultyId: int, departmentId: Option<int>, name: string, capacity: int)
      returns (r: Result<int, DbError>)
      modifies this
      ensures r.Err? <==>
        !HasKey(old(tables.divisions), DivisionId, facultyId) ||
        (Truthy(departmentId) && !HasKey(old(tables.divisions), DivisionId, departmentId.value)) ||
        HasKey(old(tables.classrooms), ClassroomName, name)
      ensures r.Err? ==>
        r.error == (if !HasKey(old(tables.divisions), DivisionId, facultyId) then NotFound(DivisionTable, facultyId)
                    else if Truthy(departmentId) && !HasKey(old(tables.divisions), DivisionId, departmentId.value)
                    then NotFound(DivisionTable, departmentId.value)
                    else NameTaken(ClassroomTable, name))
      ensures r.Err? ==> tables == old(tables)
      ensures r.Ok? ==> r.value == NewId(old(tables.classrooms), ClassroomId)
      ensures r.Ok? ==>
        tables == old(tables).(classrooms :=
          old(tables.classrooms) + [Classroom(r.value, name, capacity, facultyId, departmentId)])
      ensures old(Valid(tables)) ==> Valid(tables)
    {
      if !HasKey(tables.divisions, DivisionId, facultyId) {
        return Err(NotFound(DivisionTable, facultyId));
      }
      if Truthy(departmentId) && !HasKey(tables.divisions, DivisionId, departmentId.value) {
        return Err(NotFound(DivisionTable, departmentId.value));
      }
      if HasKey(tables.classrooms, ClassroomName, name) {
        return Err(NameTaken(ClassroomTable, name));
      }
      var id := NewId(tables.classrooms, ClassroomId);
      var c := Classroom(id, name, capacity, facultyId, departmentId);
      if Valid(tables) {
        AddClassroomKeepsValid(tables, c);
      }
      tables := tables.(classrooms := tables.classrooms + [c]);
      return Ok(id);
    }

    /** `add_subject`: the full name must be new. */
    method AddSubject(name: string, shortName: string) returns (r: Result<int, DbError>)
      modifies this
      ensures r.Err? <==> HasKey(old(tables.subjects), SubjectName, name)
      ensures r.Err? ==> r.error == NameTaken(SubjectTable, name) && tables == old(tables)
      ensures r.Ok? ==> r.value == NewId(old(tables.subjects), SubjectId)
      ensures r.Ok? ==> tables == old(tables).(subjects := old(tables.subjects) + [Subject(r.value, name, shortName)])
      ensures old(Valid(tables)) ==> Valid(tables)
    {
      if HasKey(tables.subjects, SubjectName, name) {
        return Err(NameTaken(SubjectTable, name));
      }
      var id := NewId(tables.subjects, SubjectId);
      var s := Subject(id, name, shortName);
      if Valid(tables) {
        AddSubjectKeepsValid(tables, s);
      }
      tables := tables.(subjects := tables.subjects + [s]);
      return Ok(id);
    }

    /** `add_flow`: every requested name must be a group's; the error lists the
        missing names in request order. The new flow is linked to each found
        group once, in table order; an empty request makes an empty flow. */
    method AddFlow(groups: seq<string>) returns (r: Result<int, DbError>)
      modifies this
      ensures r.Err? <==> exists i :: 0 <= i < |groups| && !HasKey(old(tables.groups), GroupName, groups[i])
      ensures r.Err? ==> r.error == GroupsNotFound(MissingGroups(old(tables), groups)) && tables == old(tables)
      ensures r.Ok? ==> r.value == NewId(old(tables.flows), FlowKey)
      ensures r.Ok? ==>
        tables == old(tables).(flows := old(tables.flows) + [r.value],
                               links := old(tables.links) + Map(FoundGroups(old(tables), groups), LinkTo(r.value)))
      ensures old(Valid(tables)) ==> Valid(tables)
    {
      var missing := MissingGroups(tables, groups);
      if |missing| > 0 {
        assert missing[0] in groups;
        return Err(GroupsNotFound(missing));
      }
      assert forall i :: 0 <= i < |groups| ==> HasKey(tables.groups, GroupName, groups[i]) by {
        forall i | 0 <= i < |groups| ensures HasKey(tables.groups, GroupName, groups[i]) {
          assert groups[i] !in missing;
        }
      }
      var id := NewId(tables.flows, FlowKey);
      if Valid(tables) {
        AddFlowKeepsValid(tables, groups, id);
      }
      tables := tables.(flows := tables.flows + [id],
                        links := tables.links + Map(FoundGroups(tables, groups), LinkTo(id)));
      return Ok(id);
    }

    /** `add_lesson_to_plan`, checks in the order `sql_db.py` makes them: subject, primary
        teacher, a truthy second teacher, a truthy group, a truthy flow, then
        exactly one of group and flow, then no entry for the same subject, group
        and flow. */
    method AddLessonToPlan(
      subjectId: int, hours: int, primaryTeacherId: int, secondaryTeacherId: Option<int>,
      groupId: Option<int>, flowId: Option<int>) returns (r: Result<int, DbError>)
      modifies this
      ensures r.Ok? <==>
        HasKey(old(tables.subjects), SubjectId, subjectId) &&
        HasKey(old(tables.teachers), TeacherId, primaryTeacherId) &&
        (Truthy(secondaryTeacherId) ==> HasKey(old(tables.teachers), TeacherId, secondaryTeacherId.value)) &&
        (Truthy(groupId) ==> HasKey(old(tables.groups), GroupId, groupId.value)) &&
        (Truthy(flowId) ==> HasKey(old(tables.flows), FlowKey, flowId.value)) &&
        GroupXorFlow(groupId, flowId) && !Planned(old(tables), subjectId, groupId, flowId)
      ensures r.Err? ==>
        r.error == (
          if !HasKey(old(tables.subjects), SubjectId, subjectId) then NotFound(SubjectTable, subjectId)
          else if !HasKey(old(tables.teachers), TeacherId, primaryTeacherId) then NotFound(TeacherTable, primaryTeacherId)
          else if Truthy(secondaryTeacherId) && !HasKey(old(tables.teachers), TeacherId, secondaryTeacherId.value)
          then NotFound(TeacherTable, secondaryTeacherId.value)
          else if Truthy(groupId) && !HasKey(old(tables.groups), GroupId, groupId.value) then NotFound(GroupTable, groupId.value)
          else if Truthy(flowId) && !HasKey(old(tables.flows), FlowKey, flowId.value) then NotFound(FlowTable, flowId.value)
          else if !GroupXorFlow(groupId, flowId) then NeitherOrBoth
          else AlreadyPlanned)
      ensures r.Err? ==> tables == old(tables)
      ensures r.Ok? ==> r.value == NewId(old(tables.curricula), CurriculumId)
      ensures r.Ok? ==>
        tables == old(tables).(curricula := old(tables.curricula) +
          [Curriculum(r.value, subjectId, hours, primaryTeacherId, secondaryTeacherId, groupId, flowId)])
      ensures old(Valid(tables)) ==> Valid(tables)
    {
      if !HasKey(tables.subjects, SubjectId, subjectId) {
        return Err(NotFound(SubjectTable, subjectId));
      }
      if !HasKey(tables.teachers, TeacherId, primaryTeacherId) {
        return Err(NotFound(TeacherTable, primaryTeacherId));
      }
      if Truthy(secondaryTeacherId) && !HasKey(tables.teachers, TeacherId, secondaryTeacherId.value) {
        return Err(NotFound(TeacherTable, secondaryTeacherId.value));
      }
      if Truthy(groupId) && !HasKey(tables.groups, GroupId, groupId.value) {
        return Err(NotFound(GroupTable, groupId.value));
      }
      if Truthy(flowId) && !HasKey(tables.flows, FlowKey, flowId.value) {
        return Err(NotFound(FlowTable, flowId.value));
      }
      if !GroupXorFlow(groupId, flowId) {
        return Err(NeitherOrBoth);
      }
      if Planned(tables, subjectId, groupId, flowId) {
        return Err(AlreadyPlanned);
      }
      var id := NewId(tables.curricula, CurriculumId);
      var c := Curriculum(id, subjectId, hours, primaryTeacherId, secondaryTeacherId, groupId, flowId);
      if Valid(tables) {
        AddCurriculumKeepsValid(tables, c);
      }
      tables := tables.(curricula := tables.curricula + [c]);
      return Ok(id);
    }

    /** `add_lesson_to_schedule`: the room and the curriculum entry must exist,
        then week 1 or 2, day 1..6 and pair 1..8, checked in that order. */
    method AddLessonToSchedule(
      week: int, day: int, pair: int, classroomId: int, curriculumId: int, lessonType: LessonType)
      returns (r: Result<int, DbError>)
      modifies this
      ensures r.Ok? <==>
        HasKey(old(tables.classrooms), ClassroomId, classroomId) &&
        HasKey(old(tables.curricula), CurriculumId, curriculumId) && InGrid(week, day, pair)
      ensures r.Err? ==>
        r.error == (
          if !HasKey(old(tables.classrooms), ClassroomId, classroomId) then NotFound(ClassroomTable, classroomId)
          else if !HasKey(old(tables.curricula), CurriculumId, curriculumId) then NotFound(CurriculumTable, curriculumId)
          else if !(1 <= week <= 2) then WeekOutOfRange
          else if !(1 <= day <= 6) then DayOutOfRange
          else PairOutOfRange)
      ensures r.Err? ==> tables == old(tables)
      ensures r.Ok? ==> r.value == NewId(old(tables.lessons), LessonId)
      ensures r.Ok? ==>
        tables == old(tables).(lessons := old(tables.lessons) +
          [Lesson(r.value, week, day, pair, classroomId, curriculumId, lessonType)])
      ensures old(Valid(tables)) ==> Valid(tables)
    {
      if !HasKey(tables.classrooms, ClassroomId, classroomId) {
        return Err(NotFound(ClassroomTable, classroomId));
      }
      if !HasKey(tables.curricula, CurriculumId, curriculumId) {
        return Err(NotFound(CurriculumTable, curriculumId));
      }
      if !(week == 1 || week == 2) {
        return Err(WeekOutOfRange);
      }
      if !(1 <= day <= 6) {
        return Err(DayOutOfRange);
      }
      if !(1 <= pair <= 8) {
        return Err(PairOutOfRange);
      }
      var id := NewId(tables.lessons, LessonId);
      var l := Lesson(id, week, day, pair, classroomId, curriculumId, lessonType);
      if Valid(tables) {
        AddLessonKeepsValid(tables, l);
      }
      tables := tables.(lessons := tables.lessons + [l]);
      return Ok(id);
    }

    /** `edit_schedule_cell`: the lesson, the room and the curriculum entry must
        exist; the lesson then gets the new room, entry and type and keeps its
        week, day and pair. */
    method EditScheduleCell(id: int, classroomId: int, curriculumId: int, lessonType: LessonType)
      returns (r: Result<(), DbError>)
      modifies this
      ensures r.Ok? <==>
        HasKey(old(tables.lessons), LessonId, id) && HasKey(old(tables.classrooms), ClassroomId, classroomId) &&
        HasKey(old(tables.curricula), CurriculumId, curriculumId)
      ensures r.Err? ==>
        r.error == (
          if !HasKey(old(tables.lessons), LessonId, id) then NotFound(LessonTable, id)
          else if !HasKey(old(tables.classrooms), ClassroomId, classroomId) then NotFound(ClassroomTable, classroomId)
          else NotFound(CurriculumTable, curriculumId))
      ensures r.Err? ==> tables == old(tables)
      ensures r.Ok? ==>
        tables == old(tables).(lessons := UpdateBy(old(tables.lessons), LessonId, id,
                                                   EditLesson(classroomId, curriculumId, lessonType)))
      ensures old(Valid(tables)) ==> Valid(tables)
    {
      if !HasKey(tables.lessons, LessonId, id) {
        return Err(NotFound(LessonTable, id));
      }
      if !HasKey(tables.classrooms, ClassroomId, classroomId) {
        return Err(NotFound(ClassroomTable, classroomId));
      }
      if !HasKey(tables.curricula, CurriculumId, curriculumId) {
        return Err(NotFound(CurriculumTable, curriculumId));
      }
      if Valid(tables) {
        EditLessonKeepsValid(tables, id, classroomId, curriculumId, lessonType);
      }
      tables := tables.(lessons := UpdateBy(tables.lessons, LessonId, id, EditLesson(classroomId, curriculumId, lessonType)));
      return Ok(());
    }

    /** `remove_schedule_cell`: the lesson must exist, and then it is deleted. */
    method RemoveScheduleCell(id: int) returns (r: Result<(), DbError>)
      modifies this
      ensures r.Err? <==> !HasKey(old(tables.lessons), LessonId, id)
      ensures r.Err? ==> r.error == NotFound(LessonTable, id) && tables == old(tables)
      ensures r.Ok? ==> tables == old(tables).(lessons := Filter(old(tables.lessons), NotLesson(id)))
      ensures old(Valid(tables)) ==> Valid(tables)
    {
      if !HasKey(tables.lessons, LessonId, id) {
        return Err(NotFound(LessonTable, id));
      }
      if Valid(tables) {
        RemoveLessonKeepsValid(tables, id);
      }
      tables := tables.(lessons := Filter(tables.lessons, NotLesson(id)));
      return Ok(());
    }

    /** `get_schedule`: the pre-created grid, then for each lesson that the inner
        joins keep, its cell written under each of its groups at its slot; a
        lesson with groups outside the grid raises (`None`). */
    method GetSchedule() returns (r: Option<Grid>)
      ensures r == Fill(tables, tables.lessons)
    {
      var t := tables;
      var ls := t.lessons;
      var grid := EmptyGrid();
      var i := 0;
      while i < |ls|
        invariant 0 <= i <= |ls|
        invariant Fill(t, ls[..i]) == Some(grid)
      {
        FillStep(t, ls, i);
        var pl := PlacementOf(t, ls[i]);
        if pl.Some? && |pl.value.groups| > 0 {
          var w, d, p := pl.value.week, pl.value.day, pl.value.pair;
          if !InGrid(w, d, p) {
            FillFailureStays(t, ls, i + 1);
            return None;
          }
          var cells := WriteCells(grid[w][d][p], pl.value.groups, pl.value.cell);
          grid := grid[w := grid[w][d := grid[w][d][p := cells]]];
        }
        i := i + 1;
      }
      assert ls[..i] == ls;
      return Some(grid);
    }

    /** `get_university_data`: one entry per division without a parent, in table
        order, each built from its children. */
    method GetUniversityData() returns (r: seq<UniversityData>)
      ensures r == UniversityTree(tables)
    {
      var roots := Children(tables, None);
      r := [];
      var i := 0;
      while i < |roots|
        invariant 0 <= i <= |roots| && |r| == i
        invariant forall k :: 0 <= k < i ==> r[k] == UniversityOf(tables, roots[k])
      {
        r := r + [UniversityOf(tables, roots[i])];
        i := i + 1;
      }
    }

    /** `auto_schedule`: seed the busy sets from the lessons of weeks 1 and 2,
        build and sort the plan, then place each needed lesson of each item at
        the first free slot and room, and commit all new lessons at once. The
        seeding raises `TypeError` (`raised`) exactly when `SeedRaises`, and
        then nothing is committed. Otherwise only the lessons change; the old
        ones stay; each new one is placed by the rules; with distinct entry ids
        no new lesson double-books a room, a group or a teacher against any
        earlier lesson. */
    method AutoSchedule() returns (raised: bool)
      modifies this
      ensures raised <==> SeedRaises(old(tables))
      ensures raised ==> tables == old(tables)
      ensures tables == old(tables).(lessons := tables.lessons)
      ensures |old(tables.lessons)| <= |tables.lessons|
      ensures tables.lessons[..|old(tables.lessons)|] == old(tables.lessons)
      ensures forall i :: |old(tables.lessons)| <= i < |tables.lessons| ==> Placed(old(tables), tables.lessons[i])
      ensures DistinctKeys(old(tables.curricula), CurriculumId) ==>
        NoClashFrom(old(tables), tables.lessons, |old(tables.lessons)|)
      ensures DistinctKeys(old(tables.lessons), LessonId) ==> DistinctKeys(tables.lessons, LessonId)
      ensures old(Valid(tables)) ==> Valid(tables)
    {
      var t := tables;
      var seeded := SeedAsWritten(t);
      if seeded.None? {
        return true;
      }
      raised := false;
      var b := seeded.value;
      var candidates := BuildCandidates(t);
      var plan := SortBy(candidates, Difficulty);
      PlanItemsFromCurricula(t);
      ScheduleInvInit(t);
      var ls := t.lessons;
      var n := 0;
      while n < |plan|
        invariant 0 <= n <= |plan|
        invariant ScheduleInv(t, ls, b)
      {
        var item := plan[n];
        assert FromCurriculum(t, item);
        var j := 0;
        while j < |item.needed|
          invariant 0 <= j <= |item.needed|
          invariant ScheduleInv(t, ls, b)
        {
          var slot := FirstFreeSlot(item, b);
          if slot.Some? {
            var (w, d, p, room) := slot.value;
            var l := Lesson(NewId(ls, LessonId), w, d, p, room, item.curriculum.id, item.needed[j]);
            PlaceKeepsInv(t, ls, b, item, j, slot.value);
            ls := ls + [l];
            var groups := Mark(b.groups, w, d, p, item.groups);
            var teachers := Mark(b.teachers, w, d, p, item.teachers);
            b := Busy(b.rooms + {(w, d, p, room)}, teachers, groups);
          }
          j := j + 1;
        }
        n := n + 1;
      }
      tables := t.(lessons := ls);
    }

    /** `find_collisions`: the entries filed under each group, teacher and
        room, the collisions of each owner dictionary in turn, then the
        windows of the group and teacher dictionaries. */
    method FindCollisions() returns (r: Collisions.Report)
      ensures r == Collisions.CollisionReport(tables)
    {
      var t := tables;
      var groups, teachers, rooms := Collisions.CollectEntries(t);
      var groupErrors := Collisions.ScanErrors(groups, Collisions.GroupKind);
      var teacherErrors := Collisions.ScanErrors(teachers, Collisions.TeacherKind);
      var roomErrors := Collisions.ScanErrors(rooms, Collisions.ClassroomKind);
      var groupWindows := Collisions.ScanWindows(groups);
      var teacherWindows := Collisions.ScanWindows(teachers);
      r := Collisions.Report(groupErrors + teacherErrors + roomErrors, groupWindows, teacherWindows);
    }
  }

  /** The inner loop of `get_schedule`: `schedule[week][day][pair][name] = cell`
      for each name in turn. */
  method WriteCells(m: map<string, Cell>, names: seq<string>, cell: Cell) returns (r: map<string, Cell>)
    ensures r == WriteGroups(m, names, cell)
  {
    r := m;
    var j := 0;
    while j < |names|
      invariant 0 <= j <= |names|
      invariant r == WriteGroups(m, names[..j], cell)
    {
      assert names[..j + 1][..j] == names[..j];
      r := r[names[j] := cell];
      j := j + 1;
    }
    assert names[..j] == names;
  }

  /** Editing changes only the addressed lesson, and of it only the room, the
      curriculum entry and the type. */
  lemma EditChangesOnlyThatLesson(ls: seq<Lesson>, id: int, classroomId: int, curriculumId: int, lessonType: LessonType)
    ensures var r := UpdateBy(ls, LessonId, id, EditLesson(classroomId, curriculumId, lessonType));
      |r| == |ls| &&
      (forall i :: 0 <= i < |ls| && ls[i].id != id ==> r[i] == ls[i]) &&
      (forall i :: 0 <= i < |ls| && ls[i].id == id ==>
         r[i] == Lesson(id, ls[i].week, ls[i].day, ls[i].pair, classroomId, curriculumId, lessonType))
  {
  }

  /** Removing deletes every row with that id and keeps the others in order; with
      distinct ids exactly one row goes. */
  lemma RemoveDeletesExactlyThatLesson(ls: seq<Lesson>, id: int)
    requires DistinctKeys(ls, LessonId) && HasKey(ls, LessonId, id)
    ensures var r := Filter(ls, NotLesson(id));
      |r| == |ls| - 1 && (forall l :: l in r <==> l in ls && l.id != id)
  {
    var k :| 0 <= k < |ls| && ls[k].id == id;
    RemoveOneMatch(ls, id, k);
  }

  lemma {:induction false} RemoveOneMatch(ls: seq<Lesson>, id: int, k: int)
    requires DistinctKeys(ls, LessonId) && 0 <= k < |ls| && ls[k].id == id
    ensures |Filter(ls, NotLesson(id))| == |ls| - 1
    decreases |ls|
  {
    var init := ls[..|ls| - 1];
    assert ls == init + [ls[|ls| - 1]];
    if k == |ls| - 1 {
      assert forall i :: 0 <= i < |init| ==> init[i].id != id by {
        forall i | 0 <= i < |init| ensures init[i].id != id {
          assert init[i] == ls[i];
        }
      }
      FilterAll(init, NotLesson(id));
    } else {
      assert DistinctKeys(init, LessonId) by {
        forall i, j | 0 <= i < j < |init| ensures init[i].id != init[j].id {
          assert init[i] == ls[i] && init[j] == ls[j];
        }
      }
      assert init[k] == ls[k];
      RemoveOneMatch(init, id, k);
      assert ls[|ls| - 1].id != id;
    }
  }
}
