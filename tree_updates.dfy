/** Path-targeted updates of the client's university tree, as the classroom and
    lecturer tables write them: nested `map`s that rebuild the records whose ids
    match the selected path with a spread and return every other record as it
    was. */
module TreeUpdates {
  import opened Wrappers
  import opened Seqs
  import opened ClientTypes

  function UniversityId(u: University): int { u.id }
  function FacultyId(f: Faculty): int { f.id }
  function DepartmentId(d: Department): int { d.id }

  /** `data.find(u => u.id === university)?.faculties.find(f => f.id === faculty)`:
      a faculty with that id under a university with that id. */
  function FindFaculty(data: seq<University>, university: int, faculty: int): (r: Option<Faculty>)
    ensures r.Some? ==>
      r.value.id == faculty && exists u :: u in data && u.id == university && r.value in u.faculties
  {
    match FindBy(data, UniversityId, university)
    case None => None
    case Some(u) => FindBy(u.faculties, FacultyId, faculty)
  }

  /** When university ids are unique, the lookup fails exactly when no such
      faculty exists. */
  lemma FindFacultyComplete(data: seq<University>, university: int, faculty: int)
    requires DistinctKeys(data, UniversityId)
    ensures FindFaculty(data, university, faculty).None? <==>
      forall u, f :: u in data && u.id == university && f in u.faculties ==> f.id != faculty
  {
    if u, f :| u in data && u.id == university && f in u.faculties && f.id == faculty {
      var i :| 0 <= i < |data| && data[i] == u;
      FindByUnique(data, UniversityId, i);
      var j :| 0 <= j < |u.faculties| && u.faculties[j] == f;
      assert FacultyId(u.faculties[j]) == faculty;
    }
  }

  /** The department at the end of a selected path: found exactly when the
      faculty is found and has a department with that id. */
  function FindDepartment(data: seq<University>, university: int, faculty: int, department: int): (r: Option<Department>)
    ensures r.Some? ==> FindFaculty(data, university, faculty).Some? &&
                        r.value in FindFaculty(data, university, faculty).value.departments &&
                        r.value.id == department
    ensures r.None? ==> (FindFaculty(data, university, faculty).None? ||
      forall d :: d in FindFaculty(data, university, faculty).value.departments ==> d.id != department)
  {
    match FindFaculty(data, university, faculty)
    case None => None
    case Some(f) => FindBy(f.departments, DepartmentId, department)
  }

  /** `b` is `a` with `g` applied to every faculty with id `faculty` under every
      university with id `university`; everything else is as it was. */
  ghost predicate FacultyUpdated(a: seq<University>, b: seq<University>, university: int, faculty: int, g: Faculty -> Faculty) {
    |b| == |a| &&
    forall i :: 0 <= i < |a| ==>
      if a[i].id != university then b[i] == a[i]
      else
        b[i].id == a[i].id && b[i].name == a[i].name && |b[i].faculties| == |a[i].faculties| &&
        forall j :: 0 <= j < |a[i].faculties| ==>
          b[i].faculties[j] == (if a[i].faculties[j].id == faculty then g(a[i].faculties[j]) else a[i].faculties[j])
  }

  /** `b` is `a` with `g` applied to every department with id `department` on
      the selected faculty path; everything else is as it was. */
  ghost predicate DepartmentUpdated(
    a: seq<University>, b: seq<University>, university: int, faculty: int, department: int,
    g: Department -> Department)
  {
    |b| == |a| &&
    forall i :: 0 <= i < |a| ==>
      if a[i].id != university then b[i] == a[i]
      else
        b[i].id == a[i].id && b[i].name == a[i].name && |b[i].faculties| == |a[i].faculties| &&
        forall j :: 0 <= j < |a[i].faculties| ==>
          var fa, fb := a[i].faculties[j], b[i].faculties[j];
          if fa.id != faculty then fb == fa
          else
            fb.id == fa.id && fb.name == fa.name && fb.classrooms == fa.classrooms &&
            |fb.departments| == |fa.departments| &&
            forall k :: 0 <= k < |fa.departments| ==>
              fb.departments[k] == (if fa.departments[k].id == department then g(fa.departments[k]) else fa.departments[k])
  }

  /** The outer two levels of the nested `map`. */
  function MapFaculty(data: seq<University>, university: int, faculty: int, g: Faculty -> Faculty): (r: seq<University>)
    ensures FacultyUpdated(data, r, university, faculty, g)
  {
    UpdateBy(data, UniversityId, university, (u: University) => u.(faculties := UpdateBy(u.faculties, FacultyId, faculty, g)))
  }

  function UpdateDepartments(faculty: Faculty, department: int, g: Department -> Department): Faculty {
    faculty.(departments := UpdateBy(faculty.departments, DepartmentId, department, g))
  }

  /** All three levels of the nested `map`. */
  function MapDepartment(
    data: seq<University>, university: int, faculty: int, department: int,
    g: Department -> Department): (r: seq<University>)
    ensures DepartmentUpdated(data, r, university, faculty, department, g)
  {
    MapFaculty(data, university, faculty, (f: Faculty) => UpdateDepartments(f, department, g))
  }

  function ClassroomIds(rooms: seq<Classroom>): seq<int> {
    Map(rooms, (c: Classroom) => c.id)
  }

  function LecturerIds(lecturers: seq<Lecturer>): seq<int> {
    Map(lecturers, (l: Lecturer) => l.id)
  }
}
