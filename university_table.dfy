/** The structure editor (frontend/src/components/UniversityTable.tsx). It keeps
    its own tree, in which a department holds its groups and lecturers directly,
    and adds universities, faculties, departments, groups and lecturers to it. */
module UniversityTable {
  import opened Wrappers
  import opened Seqs
  import opened Ids
  import opened Text
  import ClientTypes

  datatype Group = Group(id: int, name: string, course: string, studentsCount: int)
  datatype Lecturer = Lecturer(id: int, fullName: string)
  datatype Department = Department(id: int, name: string, groups: seq<Group>, lecturers: seq<Lecturer>)
  datatype Faculty = Faculty(id: int, name: string, departments: seq<Department>)
  datatype University = University(id: int, name: string, faculties: seq<Faculty>)

  function UniversityId(u: University): int { u.id }
  function FacultyId(f: Faculty): int { f.id }
  function DepartmentId(d: Department): int { d.id }
  function GroupId(g: Group): int { g.id }
  function LecturerId(l: Lecturer): int { l.id }

  /** The study programmes and years a group can be assigned to. */
  const Courses: seq<string> := [
    "Бакалавриат, 1", "Бакалавриат, 2", "Бакалавриат, 3", "Бакалавриат, 4",
    "Магистратура, 1", "Магистратура, 2",
    "Специалитет, 1", "Специалитет, 2", "Специалитет, 3", "Специалитет, 4", "Специалитет, 5"]

  /** The student count the group form starts with and returns to. */
  const DefaultStudentsCount := 15

  /** The tree the editor starts with: two universities of two faculties each. */
  const InitialData: seq<University> := [
    University(1, "Московский университет", [Informatics, Mathematics]),
    University(2, "Санкт-Петербургский университет", [Physics, Chemistry])]

  const Informatics := Faculty(1, "Факультет информатики", [
    Department(1, "Кафедра программирования",
      [Group(1, "ПИ-101", "Бакалавриат, 1", 30), Group(2, "ПИ-102", "Бакалавриат, 1", 25)],
      [Lecturer(1, "Иванов И.И."), Lecturer(2, "Петров П.П.")])])

  const Mathematics := Faculty(2, "Факультет математики", [
    Department(2, "Кафедра алгебры",
      [Group(3, "АЛГ-201", "Магистратура, 1", 20), Group(4, "АЛГ-202", "Магистратура, 1", 22)],
      [Lecturer(1, "Сидоров И.И."), Lecturer(2, "Смирнов П.П.")])])

  const Physics := Faculty(3, "Факультет физики", [
    Department(3, "Кафедра теоретической физики",
      [Group(5, "ФИЗ-101", "Бакалавриат, 1", 28), Group(6, "ФИЗ-102", "Бакалавриат, 1", 32)],
      [])])

  const Chemistry := Faculty(4, "Факультет химии", [
    Department(4, "Кафедра органической химии",
      [Group(7, "ХИМ-201", "Магистратура, 2", 18), Group(8, "ХИМ-202", "Магистратура, 2", 21)],
      [])])

  // ---------------------------------------------------------------------------
  // The invariant every handler keeps: ids are distinct among siblings.

  ghost predicate DepartmentOK(d: Department) {
    DistinctKeys(d.groups, GroupId) && DistinctKeys(d.lecturers, LecturerId)
  }

  ghost predicate FacultyOK(f: Faculty) {
    DistinctKeys(f.departments, DepartmentId) &&
    forall k :: 0 <= k < |f.departments| ==> DepartmentOK(f.departments[k])
  }

  ghost predicate UniversityOK(u: University) {
    DistinctKeys(u.faculties, FacultyId) &&
    forall j :: 0 <= j < |u.faculties| ==> FacultyOK(u.faculties[j])
  }

  /** Universities have distinct ids, and so do the faculties of a university,
      the departments of a faculty, and the groups and the lecturers of a
      department. */
  ghost predicate UniqueIds(data: seq<University>) {
    DistinctKeys(data, UniversityId) &&
    forall i :: 0 <= i < |data| ==> UniversityOK(data[i])
  }

  /** The starting tree satisfies the invariant. */
  lemma InitialDataUniqueIds()
    ensures UniqueIds(InitialData)
  {
    InitialFacultiesOK();
    assert UniversityOK(InitialData[0]) && UniversityOK(InitialData[1]);
  }

  lemma InitialFacultiesOK()
    ensures FacultyOK(Informatics) && FacultyOK(Mathematics) && FacultyOK(Physics) && FacultyOK(Chemistry)
  {
    assert DepartmentOK(Informatics.departments[0]) && DepartmentOK(Mathematics.departments[0]);
    assert DepartmentOK(Physics.departments[0]) && DepartmentOK(Chemistry.departments[0]);
  }

  // ---------------------------------------------------------------------------
  // Lookups along a selected path and the nested `map`s that update it.

  function FindFaculty(data: seq<University>, university: int, faculty: int): (r: Option<Faculty>)
    ensures r.Some? ==>
      r.value.id == faculty && exists u :: u in data && u.id == university && r.value in u.faculties
  {
    match FindBy(data, UniversityId, university)
    case None => None
    case Some(u) => FindBy(u.faculties, FacultyId, faculty)
  }

  function FindDepartment(data: seq<University>, university: int, faculty: int, department: int): (r: Option<Department>)
    ensures r.Some? ==>
      r.value.id == department && FindFaculty(data, university, faculty).Some? &&
      r.value in FindFaculty(data, university, faculty).value.departments
  {
    match FindFaculty(data, university, faculty)
    case None => None
    case Some(f) => FindBy(f.departments, DepartmentId, department)
  }

  /** With unique ids, the faculty found on a path is the one at that path. */
  lemma FindFacultyAt(data: seq<University>, i: int, j: int)
    requires UniqueIds(data) && 0 <= i < |data| && 0 <= j < |data[i].faculties|
    ensures FindFaculty(data, data[i].id, data[i].faculties[j].id) == Some(data[i].faculties[j])
  {
    FindByUnique(data, UniversityId, i);
    FindByUnique(data[i].faculties, FacultyId, j);
  }

  lemma FindDepartmentAt(data: seq<University>, i: int, j: int, k: int)
    requires UniqueIds(data) && 0 <= i < |data| && 0 <= j < |data[i].faculties|
    requires 0 <= k < |data[i].faculties[j].departments|
    ensures FindDepartment(data, data[i].id, data[i].faculties[j].id, data[i].faculties[j].departments[k].id)
            == Some(data[i].faculties[j].departments[k])
  {
    FindFacultyAt(data, i, j);
    assert FacultyOK(data[i].faculties[j]);
    FindByUnique(data[i].faculties[j].departments, DepartmentId, k);
  }

  function UpdateFaculties(u: University, faculty: int, g: Faculty -> Faculty): University {
    u.(faculties := UpdateBy(u.faculties, FacultyId, faculty, g))
  }

  /** The two outer levels of the nested `map`: `g` is applied to every faculty
      with id `faculty` under every university with id `university`. */
  function AtFaculty(data: seq<University>, university: int, faculty: int, g: Faculty -> Faculty): (r: seq<University>)
    ensures |r| == |data|
    ensures forall i :: 0 <= i < |data| ==> r[i].id == data[i].id && r[i].name == data[i].name
    ensures forall i :: 0 <= i < |data| && data[i].id != university ==> r[i] == data[i]
    ensures forall i :: 0 <= i < |data| && data[i].id == university ==>
      |r[i].faculties| == |data[i].faculties| &&
      forall j :: 0 <= j < |data[i].faculties| ==>
        r[i].faculties[j] == (if data[i].faculties[j].id == faculty then g(data[i].faculties[j]) else data[i].faculties[j])
  {
    UpdateBy(data, UniversityId, university, (u: University) => UpdateFaculties(u, faculty, g))
  }

  function UpdateDepartments(f: Faculty, department: int, g: Department -> Department): Faculty {
    f.(departments := UpdateBy(f.departments, DepartmentId, department, g))
  }

  /** All three levels of the nested `map`. */
  function AtDepartment(
    data: seq<University>, university: int, faculty: int, department: int,
    g: Department -> Department): (r: seq<University>)
    ensures |r| == |data|
    ensures forall i :: 0 <= i < |data| && data[i].id != university ==> r[i] == data[i]
  {
    AtFaculty(data, university, faculty, (f: Faculty) => UpdateDepartments(f, department, g))
  }

  /** A faculty update that keeps the found faculty's id and sibling invariant
      keeps the whole tree's. */
  lemma AtFacultyKeepsUniqueIds(data: seq<University>, university: int, faculty: int, g: Faculty -> Faculty)
    requires UniqueIds(data) && FindFaculty(data, university, faculty).Some?
    requires var f := FindFaculty(data, university, faculty).value; g(f).id == f.id && FacultyOK(g(f))
    ensures UniqueIds(AtFaculty(data, university, faculty, g))
  {
    var r := AtFaculty(data, university, faculty, g);
    forall i | 0 <= i < |data| ensures UniversityOK(r[i]) {
      assert UniversityOK(data[i]);
      if data[i].id == university {
        var fs, gs := data[i].faculties, r[i].faculties;
        forall j | 0 <= j < |fs| ensures gs[j].id == fs[j].id && FacultyOK(gs[j]) {
          if fs[j].id == faculty {
            FindFacultyAt(data, i, j);
          }
        }
        assert DistinctKeys(gs, FacultyId) by {
          forall a, b | 0 <= a < b < |gs| ensures gs[a].id != gs[b].id {
            assert fs[a].id != fs[b].id;
          }
        }
      }
    }
    assert DistinctKeys(r, UniversityId) by {
      forall a, b | 0 <= a < b < |r| ensures r[a].id != r[b].id {
        assert data[a].id != data[b].id;
      }
    }
  }

  /** A department update that keeps the found department's id and invariant
      keeps the whole tree's. */
  lemma AtDepartmentKeepsUniqueIds(
    data: seq<University>, university: int, faculty: int, department: int, g: Department -> Department)
    requires UniqueIds(data) && FindDepartment(data, university, faculty, department).Some?
    requires var d := FindDepartment(data, university, faculty, department).value; g(d).id == d.id && DepartmentOK(g(d))
    ensures UniqueIds(AtDepartment(data, university, faculty, department, g))
  {
    var f := FindFaculty(data, university, faculty).value;
    var h := (f: Faculty) => UpdateDepartments(f, department, g);
    var i :| 0 <= i < |data| && data[i].id == university && f in data[i].faculties;
    var j :| 0 <= j < |data[i].faculties| && data[i].faculties[j] == f;
    assert UniversityOK(data[i]);
    assert FacultyOK(f);
    var ds, es := f.departments, h(f).departments;
    forall k | 0 <= k < |ds| ensures es[k].id == ds[k].id && DepartmentOK(es[k]) {
      if ds[k].id == department {
        FindDepartmentAt(data, i, j, k);
      }
    }
    assert DistinctKeys(es, DepartmentId) by {
      forall a, b | 0 <= a < b < |es| ensures es[a].id != es[b].id {
        assert ds[a].id != ds[b].id;
      }
    }
    assert FacultyOK(h(f));
    AtFacultyKeepsUniqueIds(data, university, faculty, h);
  }

  /** With unique ids, the lookup along the updated path returns the updated
      faculty. */
  lemma AtFacultyThenFind(data: seq<University>, university: int, faculty: int, g: Faculty -> Faculty)
    requires UniqueIds(data) && FindFaculty(data, university, faculty).Some?
    requires var f := FindFaculty(data, university, faculty).value; g(f).id == f.id && FacultyOK(g(f))
    ensures FindFaculty(AtFaculty(data, university, faculty, g), university, faculty) ==
            Some(g(FindFaculty(data, university, faculty).value))
  {
    var f := FindFaculty(data, university, faculty).value;
    var i :| 0 <= i < |data| && data[i].id == university && f in data[i].faculties;
    var j :| 0 <= j < |data[i].faculties| && data[i].faculties[j] == f;
    FindFacultyAt(data, i, j);
    AtFacultyKeepsUniqueIds(data, university, faculty, g);
    FindFacultyAt(AtFaculty(data, university, faculty, g), i, j);
  }

  /** With unique ids, the lookup along the updated path returns the updated
      department. */
  lemma AtDepartmentThenFind(
    data: seq<University>, university: int, faculty: int, department: int, g: Department -> Department)
    requires UniqueIds(data) && FindDepartment(data, university, faculty, department).Some?
    requires var d := FindDepartment(data, university, faculty, department).value; g(d).id == d.id && DepartmentOK(g(d))
    ensures FindDepartment(AtDepartment(data, university, faculty, department, g), university, faculty, department) ==
            Some(g(FindDepartment(data, university, faculty, department).value))
  {
    var f := FindFaculty(data, university, faculty).value;
    var d := FindDepartment(data, university, faculty, department).value;
    var i :| 0 <= i < |data| && data[i].id == university && f in data[i].faculties;
    var j :| 0 <= j < |data[i].faculties| && data[i].faculties[j] == f;
    var k :| 0 <= k < |f.departments| && f.departments[k] == d;
    FindDepartmentAt(data, i, j, k);
    AtDepartmentKeepsUniqueIds(data, university, faculty, department, g);
    var r := AtDepartment(data, university, faculty, department, g);
    assert r[i].faculties[j] == UpdateDepartments(f, department, g);
    FindDepartmentAt(r, i, j, k);
  }

  // ---------------------------------------------------------------------------
  // The five updaters, as the handlers apply them to the tree.

  /** `addUniversity`: no guard; the new university, without faculties, comes
      last under an id above every existing one. */
  function AddUniversityTo(data: seq<University>, name: string): (r: seq<University>)
    ensures |r| == |data| + 1 && r[..|data|] == data
    ensures r[|data|].name == name && r[|data|].faculties == []
    ensures r[|data|].id == NextId(Map(data, UniversityId))
    ensures forall i :: 0 <= i < |data| ==> data[i].id < r[|data|].id
  {
    NextKeyAbove(data, UniversityId);
    data + [University(NextId(Map(data, UniversityId)), name, [])]
  }

  lemma AddUniversityKeepsUniqueIds(data: seq<University>, name: string)
    requires UniqueIds(data)
    ensures UniqueIds(AddUniversityTo(data, name))
  {
    var r := AddUniversityTo(data, name);
    assert r == data + [r[|data|]];
    AppendNextKeepsDistinct(data, UniversityId, r[|data|]);
  }

  function AppendFaculty(u: University, f: Faculty): University {
    u.(faculties := u.faculties + [f])
  }

  /** `addFaculty`: `None` when no university has the selected id (nothing
      changes). Otherwise every university with that id gets the new faculty at
      the end, named as typed (the name is not checked); the id is one above the
      largest faculty id of the first such university, or 1. */
  function AddFacultyTo(data: seq<University>, university: Option<int>, name: string): (r: Option<seq<University>>)
    ensures r.None? <==> university.None? || forall i :: 0 <= i < |data| ==> data[i].id != university.value
    ensures r.Some? ==>
      |r.value| == |data| &&
      forall i :: 0 <= i < |data| ==>
        r.value[i] == if data[i].id != university.value then data[i]
                      else AppendFaculty(data[i], Faculty(
                        NextId(Map(FindBy(data, UniversityId, university.value).value.faculties, FacultyId)), name, []))
  {
    if university.None? then None
    else match FindBy(data, UniversityId, university.value)
      case None => None
      case Some(u) =>
        var f := Faculty(NextId(Map(u.faculties, FacultyId)), name, []);
        Some(UpdateBy(data, UniversityId, university.value, (x: University) => AppendFaculty(x, f)))
  }

  lemma AddFacultyKeepsUniqueIds(data: seq<University>, university: Option<int>, name: string)
    requires UniqueIds(data) && AddFacultyTo(data, university, name).Some?
    ensures UniqueIds(AddFacultyTo(data, university, name).value)
  {
    var r := AddFacultyTo(data, university, name).value;
    forall i | 0 <= i < |data| ensures UniversityOK(r[i]) {
      assert UniversityOK(data[i]);
      if data[i].id == university.value {
        FindByUnique(data, UniversityId, i);
        var f := r[i].faculties[|data[i].faculties|];
        assert r[i].faculties == data[i].faculties + [f];
        AppendNextKeepsDistinct(data[i].faculties, FacultyId, f);
        assert forall j :: 0 <= j < |data[i].faculties| ==> r[i].faculties[j] == data[i].faculties[j];
      }
    }
    assert DistinctKeys(r, UniversityId) by {
      forall a, b | 0 <= a < b < |r| ensures r[a].id != r[b].id {
        assert data[a].id != data[b].id;
      }
    }
  }

  function AppendDepartment(f: Faculty, d: Department): Faculty {
    f.(departments := f.departments + [d])
  }

  /** `addDepartment`: `None` (nothing changes) unless a university, a faculty
      and a name are given and the faculty is found. The new department, with no
      groups and no lecturers, goes to the end of every faculty on the path under
      an id one above the largest of the found faculty's departments, or 1. */
  function AddDepartmentTo(
    data: seq<University>, university: Option<int>, faculty: Option<int>, name: string): (r: Option<seq<University>>)
    ensures r.Some? <==> GivenId(university) && GivenId(faculty) && name != "" &&
                         FindFaculty(data, university.value, faculty.value).Some?
    ensures r.Some? ==>
      var f := FindFaculty(data, university.value, faculty.value).value;
      r.value == AtFaculty(data, university.value, faculty.value,
                           (x: Faculty) => AppendDepartment(x, Department(NextId(Map(f.departments, DepartmentId)), name, [], [])))
  {
    if !GivenId(university) || !GivenId(faculty) || name == "" then None
    else match FindFaculty(data, university.value, faculty.value)
      case None => None
      case Some(f) =>
        var d := Department(NextId(Map(f.departments, DepartmentId)), name, [], []);
        Some(AtFaculty(data, university.value, faculty.value, (x: Faculty) => AppendDepartment(x, d)))
  }

  lemma AddDepartmentKeepsUniqueIds(data: seq<University>, university: Option<int>, faculty: Option<int>, name: string)
    requires UniqueIds(data) && AddDepartmentTo(data, university, faculty, name).Some?
    ensures UniqueIds(AddDepartmentTo(data, university, faculty, name).value)
  {
    var f := FindFaculty(data, university.value, faculty.value).value;
    var d := Department(NextId(Map(f.departments, DepartmentId)), name, [], []);
    NewDepartmentOK(data, university.value, faculty.value, name);
    AtFacultyKeepsUniqueIds(data, university.value, faculty.value, (x: Faculty) => AppendDepartment(x, d));
  }

  /** After `addDepartment`, looking the faculty up along the same path yields
      it with the new, empty department at the end of its list. */
  lemma AddDepartmentThenFind(data: seq<University>, university: Option<int>, faculty: Option<int>, name: string)
    requires UniqueIds(data) && AddDepartmentTo(data, university, faculty, name).Some?
    ensures
      var f := FindFaculty(data, university.value, faculty.value).value;
      var r := AddDepartmentTo(data, university, faculty, name).value;
      FindFaculty(r, university.value, faculty.value) ==
        Some(AppendDepartment(f, Department(NextId(Map(f.departments, DepartmentId)), name, [], [])))
  {
    var f := FindFaculty(data, university.value, faculty.value).value;
    var d := Department(NextId(Map(f.departments, DepartmentId)), name, [], []);
    NewDepartmentOK(data, university.value, faculty.value, name);
    AtFacultyThenFind(data, university.value, faculty.value, (x: Faculty) => AppendDepartment(x, d));
  }

  /** The found faculty with the new department appended keeps the invariant. */
  lemma NewDepartmentOK(data: seq<University>, university: int, faculty: int, name: string)
    requires UniqueIds(data) && FindFaculty(data, university, faculty).Some?
    ensures
      var f := FindFaculty(data, university, faculty).value;
      FacultyOK(AppendDepartment(f, Department(NextId(Map(f.departments, DepartmentId)), name, [], [])))
  {
    var f := FindFaculty(data, university, faculty).value;
    var d := Department(NextId(Map(f.departments, DepartmentId)), name, [], []);
    var i :| 0 <= i < |data| && data[i].id == university && f in data[i].faculties;
    assert UniversityOK(data[i]);
    assert FacultyOK(f);
    var nf := AppendDepartment(f, d);
    AppendNextKeepsDistinct(f.departments, DepartmentId, d);
    forall k | 0 <= k < |nf.departments| ensures DepartmentOK(nf.departments[k]) {
      if k < |f.departments| {
        assert nf.departments[k] == f.departments[k];
      }
    }
  }

  function AppendGroup(d: Department, g: Group): Department {
    d.(groups := d.groups + [g])
  }

  /** `addGroup`: `None` (nothing changes) unless a university, a faculty, a
      department, a name and a course are given and the department is found.
      The group gets the form's student count and an id one above the largest of
      the found department's groups, or 1. */
  function AddGroupTo(
    data: seq<University>, university: Option<int>, faculty: Option<int>, department: Option<int>,
    name: string, course: string, studentsCount: int): (r: Option<seq<University>>)
    ensures r.Some? <==> GivenId(university) && GivenId(faculty) && GivenId(department) &&
                         name != "" && course != "" &&
                         FindDepartment(data, university.value, faculty.value, department.value).Some?
    ensures r.Some? ==>
      var d := FindDepartment(data, university.value, faculty.value, department.value).value;
      r.value == AtDepartment(data, university.value, faculty.value, department.value,
        (x: Department) => AppendGroup(x, Group(NextId(Map(d.groups, GroupId)), name, course, studentsCount)))
  {
    if !GivenId(university) || !GivenId(faculty) || !GivenId(department) || name == "" || course == "" then None
    else match FindDepartment(data, university.value, faculty.value, department.value)
      case None => None
      case Some(d) =>
        var g := Group(NextId(Map(d.groups, GroupId)), name, course, studentsCount);
        Some(AtDepartment(data, university.value, faculty.value, department.value, (x: Department) => AppendGroup(x, g)))
  }

  lemma AddGroupKeepsUniqueIds(
    data: seq<University>, university: Option<int>, faculty: Option<int>, department: Option<int>,
    name: string, course: string, studentsCount: int)
    requires UniqueIds(data) && AddGroupTo(data, university, faculty, department, name, course, studentsCount).Some?
    ensures UniqueIds(AddGroupTo(data, university, faculty, department, name, course, studentsCount).value)
  {
    var d := FindDepartment(data, university.value, faculty.value, department.value).value;
    var g := Group(NextId(Map(d.groups, GroupId)), name, course, studentsCount);
    var h := (x: Department) => AppendGroup(x, g);
    DepartmentOnPathOK(data, university.value, faculty.value, department.value);
    AppendNextKeepsDistinct(d.groups, GroupId, g);
    AtDepartmentKeepsUniqueIds(data, university.value, faculty.value, department.value, h);
  }

  /** After `addGroup`, looking the department up along the same path yields it
      with the new group at the end of its list. */
  lemma AddGroupThenFind(
    data: seq<University>, university: Option<int>, faculty: Option<int>, department: Option<int>,
    name: string, course: string, studentsCount: int)
    requires UniqueIds(data) && AddGroupTo(data, university, faculty, department, name, course, studentsCount).Some?
    ensures
      var d := FindDepartment(data, university.value, faculty.value, department.value).value;
      var r := AddGroupTo(data, university, faculty, department, name, course, studentsCount).value;
      FindDepartment(r, university.value, faculty.value, department.value) ==
        Some(AppendGroup(d, Group(NextId(Map(d.groups, GroupId)), name, course, studentsCount)))
  {
    var d := FindDepartment(data, university.value, faculty.value, department.value).value;
    var g := Group(NextId(Map(d.groups, GroupId)), name, course, studentsCount);
    DepartmentOnPathOK(data, university.value, faculty.value, department.value);
    AppendNextKeepsDistinct(d.groups, GroupId, g);
    AtDepartmentThenFind(data, university.value, faculty.value, department.value, (x: Department) => AppendGroup(x, g));
  }

  /** A department found in a tree with unique ids keeps the invariant itself. */
  lemma DepartmentOnPathOK(data: seq<University>, university: int, faculty: int, department: int)
    requires UniqueIds(data) && FindDepartment(data, university, faculty, department).Some?
    ensures DepartmentOK(FindDepartment(data, university, faculty, department).value)
  {
    var f := FindFaculty(data, university, faculty).value;
    var i :| 0 <= i < |data| && data[i].id == university && f in data[i].faculties;
    assert UniversityOK(data[i]);
    assert FacultyOK(f);
  }

  function AppendLecturer(d: Department, l: Lecturer): Department {
    d.(lecturers := d.lecturers + [l])
  }

  /** `addLecturer`: `None` (nothing changes) unless a university, a faculty, a
      department and a name are given and the department is found. The lecturer
      gets the trimmed name and an id one above the largest of the found
      department's lecturers, or 1. */
  function AddLecturerTo(
    data: seq<University>, university: Option<int>, faculty: Option<int>, department: Option<int>,
    name: string): (r: Option<seq<University>>)
    ensures r.Some? <==> GivenId(university) && GivenId(faculty) && GivenId(department) && name != "" &&
                         FindDepartment(data, university.value, faculty.value, department.value).Some?
    ensures r.Some? ==>
      var d := FindDepartment(data, university.value, faculty.value, department.value).value;
      r.value == AtDepartment(data, university.value, faculty.value, department.value,
        (x: Department) => AppendLecturer(x, Lecturer(NextId(Map(d.lecturers, LecturerId)), Trim(name))))
  {
    if !GivenId(university) || !GivenId(faculty) || !GivenId(department) || name == "" then None
    else match FindDepartment(data, university.value, faculty.value, department.value)
      case None => None
      case Some(d) =>
        var l := Lecturer(NextId(Map(d.lecturers, LecturerId)), Trim(name));
        Some(AtDepartment(data, university.value, faculty.value, department.value, (x: Department) => AppendLecturer(x, l)))
  }

  lemma AddLecturerKeepsUniqueIds(
    data: seq<University>, university: Option<int>, faculty: Option<int>, department: Option<int>, name: string)
    requires UniqueIds(data) && AddLecturerTo(data, university, faculty, department, name).Some?
    ensures UniqueIds(AddLecturerTo(data, university, faculty, department, name).value)
  {
    var d := FindDepartment(data, university.value, faculty.value, department.value).value;
    var l := Lecturer(NextId(Map(d.lecturers, LecturerId)), Trim(name));
    var h := (x: Department) => AppendLecturer(x, l);
    DepartmentOnPathOK(data, university.value, faculty.value, department.value);
    AppendNextKeepsDistinct(d.lecturers, LecturerId, l);
    AtDepartmentKeepsUniqueIds(data, university.value, faculty.value, department.value, h);
  }

  /** After `addLecturer`, looking the department up along the same path yields
      it with the new lecturer, under the trimmed name, at the end of its list. */
  lemma AddLecturerThenFind(
    data: seq<University>, university: Option<int>, faculty: Option<int>, department: Option<int>, name: string)
    requires UniqueIds(data) && AddLecturerTo(data, university, faculty, department, name).Some?
    ensures
      var d := FindDepartment(data, university.value, faculty.value, department.value).value;
      var r := AddLecturerTo(data, university, faculty, department, name).value;
      FindDepartment(r, university.value, faculty.value, department.value) ==
        Some(AppendLecturer(d, Lecturer(NextId(Map(d.lecturers, LecturerId)), Trim(name))))
  {
    var d := FindDepartment(data, university.value, faculty.value, department.value).value;
    var l := Lecturer(NextId(Map(d.lecturers, LecturerId)), Trim(name));
    DepartmentOnPathOK(data, university.value, faculty.value, department.value);
    AppendNextKeepsDistinct(d.lecturers, LecturerId, l);
    AtDepartmentThenFind(data, university.value, faculty.value, department.value, (x: Department) => AppendLecturer(x, l));
  }

  predicate GivenId(x: Option<int>) {
    ClientTypes.GivenId(x)
  }

  /** The lecturer form's add button is enabled when all three selections
      are given and the name is not blank after trimming. */
  predicate LecturerSubmitEnabled(university: Option<int>, faculty: Option<int>, department: Option<int>, name: string) {
    GivenId(university) && GivenId(faculty) && GivenId(department) && Trim(name) != ""
  }

  /** Through the enabled button `addLecturer`'s own guard never returns
      early: it acts exactly when the department is found, and the lecturer it
      stores has a non-blank name. */
  lemma EnabledLecturerSubmitAdds(
    data: seq<University>, university: Option<int>, faculty: Option<int>, department: Option<int>, name: string)
    requires LecturerSubmitEnabled(university, faculty, department, name)
    ensures AddLecturerTo(data, university, faculty, department, name).Some? <==>
      FindDepartment(data, university.value, faculty.value, department.value).Some?
    ensures |Trim(name)| > 0 && !IsWhitespace(Trim(name)[0])
  {
    TrimBlank("");
  }

  /** A department name typed as whitespace only is stored empty, so
      `addDepartment` returns early. */
  lemma BlankDepartmentNameRejected(
    data: seq<University>, university: Option<int>, faculty: Option<int>, v: string)
    requires forall i :: 0 <= i < |v| ==> IsWhitespace(v[i])
    ensures AddDepartmentTo(data, university, faculty, Trim(v)).None?
  {
    TrimBlank(v);
  }

  /** A group name typed as whitespace only is stored empty, so `addGroup`
      returns early. */
  lemma BlankGroupNameRejected(
    data: seq<University>, university: Option<int>, faculty: Option<int>, department: Option<int>,
    v: string, course: string, studentsCount: int)
    requires forall i :: 0 <= i < |v| ==> IsWhitespace(v[i])
    ensures AddGroupTo(data, university, faculty, department, Trim(v), course, studentsCount).None?
  {
    TrimBlank(v);
  }

  // ---------------------------------------------------------------------------
  // The component: the tree plus one form per kind of record.

  datatype UniversityForm = UniversityForm(isOpen: bool, name: string)
  datatype FacultyForm = FacultyForm(isOpen: bool, university: Option<int>, name: string)
  datatype DepartmentForm = DepartmentForm(
    isOpen: bool, university: Option<int>, faculty: Option<int>, name: string)
  datatype GroupForm = GroupForm(
    isOpen: bool, university: Option<int>, faculty: Option<int>, department: Option<int>,
    name: string, course: string, studentsCount: int)
  datatype LecturerForm = LecturerForm(
    isOpen: bool, university: Option<int>, faculty: Option<int>, department: Option<int>, name: string)

  datatype EditorState = EditorState(
    data: seq<University>,
    universityForm: UniversityForm, facultyForm: FacultyForm, departmentForm: DepartmentForm,
    groupForm: GroupForm, lecturerForm: LecturerForm)

  const ClosedUniversityForm := UniversityForm(false, "")
  const ClosedFacultyForm := FacultyForm(false, None, "")
  const ClosedDepartmentForm := DepartmentForm(false, None, None, "")
  const ClosedGroupForm := GroupForm(false, None, None, None, "", "", DefaultStudentsCount)
  const ClosedLecturerForm := LecturerForm(false, None, None, None, "")

  /** The editor, its state held as one record. */
  class UniversityEditor {
    var state: EditorState

    constructor()
      ensures state == EditorState(InitialData, ClosedUniversityForm, ClosedFacultyForm,
                                   ClosedDepartmentForm, ClosedGroupForm, ClosedLecturerForm)
      ensures UniqueIds(state.data)
    {
      InitialDataUniqueIds();
      state := EditorState(InitialData, ClosedUniversityForm, ClosedFacultyForm,
                           ClosedDepartmentForm, ClosedGroupForm, ClosedLecturerForm);
    }

    /** Choosing the department form's university; its effect clears the
        faculty whenever the value changes. */
    method ChooseDepartmentUniversity(v: Option<int>)
      modifies this
      ensures v != old(state.departmentForm.university) ==>
        state == old(state).(departmentForm := old(state.departmentForm).(university := v, faculty := None))
      ensures v == old(state.departmentForm.university) ==> state == old(state)
    {
      if v != state.departmentForm.university {
        state := state.(departmentForm := state.departmentForm.(university := v, faculty := None));
      }
    }

    /** Choosing the group form's university clears its faculty and department. */
    method ChooseGroupUniversity(v: Option<int>)
      modifies this
      ensures v != old(state.groupForm.university) ==>
        state == old(state).(groupForm := old(state.groupForm).(university := v, faculty := None, department := None))
      ensures v == old(state.groupForm.university) ==> state == old(state)
    {
      if v != state.groupForm.university {
        state := state.(groupForm := state.groupForm.(university := v, faculty := None, department := None));
      }
    }

    /** Choosing the group form's faculty clears its department. */
    method ChooseGroupFaculty(v: Option<int>)
      modifies this
      ensures v != old(state.groupForm.faculty) ==>
        state == old(state).(groupForm := old(state.groupForm).(faculty := v, department := None))
      ensures v == old(state.groupForm.faculty) ==> state == old(state)
    {
      if v != state.groupForm.faculty {
        state := state.(groupForm := state.groupForm.(faculty := v, department := None));
      }
    }

    /** Choosing the lecturer form's university clears its faculty and department. */
    method ChooseLecturerUniversity(v: Option<int>)
      modifies this
      ensures v != old(state.lecturerForm.university) ==>
        state == old(state).(lecturerForm := old(state.lecturerForm).(university := v, faculty := None, department := None))
      ensures v == old(state.lecturerForm.university) ==> state == old(state)
    {
      if v != state.lecturerForm.university {
        state := state.(lecturerForm := state.lecturerForm.(university := v, faculty := None, department := None));
      }
    }

    /** Choosing the lecturer form's faculty clears its department. */
    method ChooseLecturerFaculty(v: Option<int>)
      modifies this
      ensures v != old(state.lecturerForm.faculty) ==>
        state == old(state).(lecturerForm := old(state.lecturerForm).(faculty := v, department := None))
      ensures v == old(state.lecturerForm.faculty) ==> state == old(state)
    {
      if v != state.lecturerForm.faculty {
        state := state.(lecturerForm := state.lecturerForm.(faculty := v, department := None));
      }
    }

    /** The name fields of the university, faculty, department and group forms
        store their text trimmed on every change. */
    method TypeUniversityName(v: string)
      modifies this
      ensures state == old(state).(universityForm := old(state.universityForm).(name := Trim(v)))
    {
      state := state.(universityForm := state.universityForm.(name := Trim(v)));
    }

    method TypeFacultyName(v: string)
      modifies this
      ensures state == old(state).(facultyForm := old(state.facultyForm).(name := Trim(v)))
    {
      state := state.(facultyForm := state.facultyForm.(name := Trim(v)));
    }

    method TypeDepartmentName(v: string)
      modifies this
      ensures state == old(state).(departmentForm := old(state.departmentForm).(name := Trim(v)))
    {
      state := state.(departmentForm := state.departmentForm.(name := Trim(v)));
    }

    method TypeGroupName(v: string)
      modifies this
      ensures state == old(state).(groupForm := old(state.groupForm).(name := Trim(v)))
    {
      state := state.(groupForm := state.groupForm.(name := Trim(v)));
    }

    /** The faculty form's university select; no effect depends on it. */
    method ChooseFacultyUniversity(v: Option<int>)
      modifies this
      ensures state == old(state).(facultyForm := old(state.facultyForm).(university := v))
    {
      state := state.(facultyForm := state.facultyForm.(university := v));
    }

    /** The department form's faculty select. */
    method ChooseDepartmentFaculty(v: Option<int>)
      modifies this
      ensures state == old(state).(departmentForm := old(state.departmentForm).(faculty := v))
    {
      state := state.(departmentForm := state.departmentForm.(faculty := v));
    }

    /** The group form's department, course and student-count fields. */
    method ChooseGroupDepartment(v: Option<int>)
      modifies this
      ensures state == old(state).(groupForm := old(state.groupForm).(department := v))
    {
      state := state.(groupForm := state.groupForm.(department := v));
    }

    method SelectGroupCourse(v: string)
      modifies this
      ensures state == old(state).(groupForm := old(state.groupForm).(course := v))
    {
      state := state.(groupForm := state.groupForm.(course := v));
    }

    method SetStudentsCount(v: int)
      modifies this
      ensures state == old(state).(groupForm := old(state.groupForm).(studentsCount := v))
    {
      state := state.(groupForm := state.groupForm.(studentsCount := v));
    }

    /** The lecturer form's department select and its name field, stored as typed. */
    method ChooseLecturerDepartment(v: Option<int>)
      modifies this
      ensures state == old(state).(lecturerForm := old(state.lecturerForm).(department := v))
    {
      state := state.(lecturerForm := state.lecturerForm.(department := v));
    }

    method TypeLecturerName(v: string)
      modifies this
      ensures state == old(state).(lecturerForm := old(state.lecturerForm).(name := v))
    {
      state := state.(lecturerForm := state.lecturerForm.(name := v));
    }

    /** The buttons that open and cancel the university form. */
    method OpenUniversityForm()
      modifies this
      ensures state == old(state).(universityForm := old(state.universityForm).(isOpen := true))
    {
      state := state.(universityForm := state.universityForm.(isOpen := true));
    }

    method CloseUniversityForm()
      modifies this
      ensures state == old(state).(universityForm := old(state.universityForm).(isOpen := false))
    {
      state := state.(universityForm := state.universityForm.(isOpen := false));
    }

    /** The buttons that open and cancel the faculty form. */
    method OpenFacultyForm()
      modifies this
      ensures state == old(state).(facultyForm := old(state.facultyForm).(isOpen := true))
    {
      state := state.(facultyForm := state.facultyForm.(isOpen := true));
    }

    method CloseFacultyForm()
      modifies this
      ensures state == old(state).(facultyForm := old(state.facultyForm).(isOpen := false))
    {
      state := state.(facultyForm := state.facultyForm.(isOpen := false));
    }

    /** The buttons that open and cancel the department form. */
    method OpenDepartmentForm()
      modifies this
      ensures state == old(state).(departmentForm := old(state.departmentForm).(isOpen := true))
    {
      state := state.(departmentForm := state.departmentForm.(isOpen := true));
    }

    method CloseDepartmentForm()
      modifies this
      ensures state == old(state).(departmentForm := old(state.departmentForm).(isOpen := false))
    {
      state := state.(departmentForm := state.departmentForm.(isOpen := false));
    }

    /** The buttons that open and cancel the group form. */
    method OpenGroupForm()
      modifies this
      ensures state == old(state).(groupForm := old(state.groupForm).(isOpen := true))
    {
      state := state.(groupForm := state.groupForm.(isOpen := true));
    }

    method CloseGroupForm()
      modifies this
      ensures state == old(state).(groupForm := old(state.groupForm).(isOpen := false))
    {
      state := state.(groupForm := state.groupForm.(isOpen := false));
    }

    /** The buttons that open and cancel the lecturer form. */
    method OpenLecturerForm()
      modifies this
      ensures state == old(state).(lecturerForm := old(state.lecturerForm).(isOpen := true))
    {
      state := state.(lecturerForm := state.lecturerForm.(isOpen := true));
    }

    method CloseLecturerForm()
      modifies this
      ensures state == old(state).(lecturerForm := old(state.lecturerForm).(isOpen := false))
    {
      state := state.(lecturerForm := state.lecturerForm.(isOpen := false));
    }

    /** `addUniversity`: always adds, then closes and clears its form. */
    method AddUniversity()
      modifies this
      ensures state == old(state).(data := AddUniversityTo(old(state.data), old(state.universityForm.name)),
                                   universityForm := ClosedUniversityForm)
      ensures old(UniqueIds(state.data)) ==> UniqueIds(state.data)
    {
      if UniqueIds(state.data) {
        AddUniversityKeepsUniqueIds(state.data, state.universityForm.name);
      }
      state := state.(data := AddUniversityTo(state.data, state.universityForm.name),
                      universityForm := ClosedUniversityForm);
    }

    /** `addFaculty`: on an early return nothing changes; otherwise the tree
        gets the faculty and the form closes and clears. */
    method AddFaculty()
      modifies this
      ensures old(AddFacultyTo(state.data, state.facultyForm.university, state.facultyForm.name)).None? ==>
        state == old(state)
      ensures old(AddFacultyTo(state.data, state.facultyForm.university, state.facultyForm.name)).Some? ==>
        state == old(state).(
          data := old(AddFacultyTo(state.data, state.facultyForm.university, state.facultyForm.name)).value,
          facultyForm := ClosedFacultyForm)
      ensures old(UniqueIds(state.data)) ==> UniqueIds(state.data)
    {
      var r := AddFacultyTo(state.data, state.facultyForm.university, state.facultyForm.name);
      if r.None? {
        return;
      }
      if UniqueIds(state.data) {
        AddFacultyKeepsUniqueIds(state.data, state.facultyForm.university, state.facultyForm.name);
      }
      state := state.(data := r.value, facultyForm := ClosedFacultyForm);
    }

    /** `addDepartment`: on an early return nothing changes. Otherwise the tree
        gets the department, the modal closes, the university and the name are
        cleared, and the faculty is cleared by the effect that follows the
        university: the handler does not clear it itself, but the university it
        clears was set, so the effect runs. */
    method AddDepartment()
      modifies this
      ensures old(AddDepartmentTo(state.data, state.departmentForm.university, state.departmentForm.faculty,
                                  state.departmentForm.name)).None? ==>
        state == old(state)
      ensures old(AddDepartmentTo(state.data, state.departmentForm.university, state.departmentForm.faculty,
                                  state.departmentForm.name)).Some? ==>
        state == old(state).(
          data := old(AddDepartmentTo(state.data, state.departmentForm.university, state.departmentForm.faculty,
                                      state.departmentForm.name)).value,
          departmentForm := ClosedDepartmentForm)
      ensures old(UniqueIds(state.data)) ==> UniqueIds(state.data)
    {
      var form := state.departmentForm;
      var r := AddDepartmentTo(state.data, form.university, form.faculty, form.name);
      if r.None? {
        return;
      }
      if UniqueIds(state.data) {
        AddDepartmentKeepsUniqueIds(state.data, form.university, form.faculty, form.name);
      }
      var next := form.(isOpen := false, university := None, name := "");
      if next.university != form.university {
        next := next.(faculty := None);
      }
      state := state.(data := r.value, departmentForm := next);
    }

    /** `addGroup`: on an early return nothing changes; otherwise the tree gets
        the group and the form closes and clears, its student count back to 15. */
    method AddGroup()
      modifies this
      ensures old(AddGroupTo(state.data, state.groupForm.university, state.groupForm.faculty,
                             state.groupForm.department, state.groupForm.name, state.groupForm.course,
                             state.groupForm.studentsCount)).None? ==>
        state == old(state)
      ensures old(AddGroupTo(state.data, state.groupForm.university, state.groupForm.faculty,
                             state.groupForm.department, state.groupForm.name, state.groupForm.course,
                             state.groupForm.studentsCount)).Some? ==>
        state == old(state).(
          data := old(AddGroupTo(state.data, state.groupForm.university, state.groupForm.faculty,
                                 state.groupForm.department, state.groupForm.name, state.groupForm.course,
                                 state.groupForm.studentsCount)).value,
          groupForm := ClosedGroupForm)
      ensures old(UniqueIds(state.data)) ==> UniqueIds(state.data)
    {
      var form := state.groupForm;
      var r := AddGroupTo(state.data, form.university, form.faculty, form.department, form.name, form.course,
                          form.studentsCount);
      if r.None? {
        return;
      }
      if UniqueIds(state.data) {
        AddGroupKeepsUniqueIds(state.data, form.university, form.faculty, form.department, form.name, form.course,
                               form.studentsCount);
      }
      state := state.(data := r.value, groupForm := ClosedGroupForm);
    }

    /** `addLecturer`: on an early return nothing changes; otherwise the tree
        gets the lecturer and the form closes and clears. */
    method AddLecturer()
      modifies this
      ensures old(AddLecturerTo(state.data, state.lecturerForm.university, state.lecturerForm.faculty,
                                state.lecturerForm.department, state.lecturerForm.name)).None? ==>
        state == old(state)
      ensures old(AddLecturerTo(state.data, state.lecturerForm.university, state.lecturerForm.faculty,
                                state.lecturerForm.department, state.lecturerForm.name)).Some? ==>
        state == old(state).(
          data := old(AddLecturerTo(state.data, state.lecturerForm.university, state.lecturerForm.faculty,
                                    state.lecturerForm.department, state.lecturerForm.name)).value,
          lecturerForm := ClosedLecturerForm)
      ensures old(UniqueIds(state.data)) ==> UniqueIds(state.data)
    {
      var form := state.lecturerForm;
      var r := AddLecturerTo(state.data, form.university, form.faculty, form.department, form.name);
      if r.None? {
        return;
      }
      if UniqueIds(state.data) {
        AddLecturerKeepsUniqueIds(state.data, form.university, form.faculty, form.department, form.name);
      }
      state := state.(data := r.value, lecturerForm := ClosedLecturerForm);
    }
  }
}
