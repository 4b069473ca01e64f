/** The data tab's derived lists (frontend/src/components/DataComponent.tsx): the
    university tree flattened into the lists the flows, curriculum and syllabus
    forms offer. */
module DataComponent {
  import opened Wrappers
  import opened Seqs
  import opened ClientTypes
  import Ids
  import Text
  import TreeUpdates
  import LecturersTable
  import Curriculum

  /** Group `g` belongs to one of the department's specialities. */
  ghost predicate InDepartment(d: Department, g: Group) {
    exists s :: s in d.specialities && g in s.groups
  }

  ghost predicate InFaculty(f: Faculty, g: Group) {
    exists d :: d in f.departments && InDepartment(d, g)
  }

  ghost predicate InUniversity(u: University, g: Group) {
    exists f :: f in u.faculties && InFaculty(f, g)
  }

  /** Group `g` hangs somewhere under university, faculty, department and
      speciality. */
  ghost predicate InTree(data: seq<University>, g: Group) {
    exists u :: u in data && InUniversity(u, g)
  }

  /** Some group of the tree is called `x`. */
  ghost predicate NameInTree(data: seq<University>, x: string) {
    exists g :: InTree(data, g) && g.name == x
  }

  function GroupName(g: Group): string { g.name }

  function SpecialityGroups(s: Speciality): seq<Group> { s.groups }

  function DepartmentGroups(d: Department): (r: seq<Group>)
    ensures forall g :: g in r <==> InDepartment(d, g)
  {
    var r := FlatMap(d.specialities, SpecialityGroups);
    assert forall g :: g in r ==> InDepartment(d, g) by {
      forall g | g in r ensures InDepartment(d, g) {
        var i :| 0 <= i < |d.specialities| && g in d.specialities[i].groups;
      }
    }
    r
  }

  function FacultyGroups(f: Faculty): (r: seq<Group>)
    ensures forall g :: g in r <==> InFaculty(f, g)
  {
    var r := FlatMap(f.departments, DepartmentGroups);
    assert forall g :: g in r ==> InFaculty(f, g) by {
      forall g | g in r ensures InFaculty(f, g) {
        var i :| 0 <= i < |f.departments| && g in DepartmentGroups(f.departments[i]);
      }
    }
    r
  }

  function UniversityGroups(u: University): (r: seq<Group>)
    ensures forall g :: g in r <==> InUniversity(u, g)
  {
    var r := FlatMap(u.faculties, FacultyGroups);
    assert forall g :: g in r ==> InUniversity(u, g) by {
      forall g | g in r ensures InUniversity(u, g) {
        var i :| 0 <= i < |u.faculties| && g in FacultyGroups(u.faculties[i]);
      }
    }
    r
  }

  /** `allGroups`: every group record of the tree, in traversal order. Records
      decoded from the server's JSON are distinct objects, so the `Set` built over
      them removes nothing. */
  function AllGroups(data: seq<University>): (r: seq<Group>)
    ensures forall g :: g in r <==> InTree(data, g)
  {
    var r := FlatMap(data, UniversityGroups);
    assert forall g :: g in r ==> InTree(data, g) by {
      forall g | g in r ensures InTree(data, g) {
        var i :| 0 <= i < |data| && g in UniversityGroups(data[i]);
      }
    }
    r
  }

  function SpecialityGroupNames(s: Speciality): seq<string> { Map(s.groups, GroupName) }

  function DepartmentGroupNames(d: Department): seq<string> {
    FlatMap(d.specialities, SpecialityGroupNames)
  }

  function FacultyGroupNames(f: Faculty): seq<string> {
    FlatMap(f.departments, DepartmentGroupNames)
  }

  function UniversityGroupNames(u: University): seq<string> {
    FlatMap(u.faculties, FacultyGroupNames)
  }

  /** `getAllGroups` inside the `groupNames` memo: every group name of the tree in
      traversal order, repetitions included. */
  function TreeGroupNames(data: seq<University>): (r: seq<string>)
    ensures r == Map(AllGroups(data), GroupName)
  {
    TreeGroupNamesAreAllGroupsNames(data);
    FlatMap(data, UniversityGroupNames)
  }

  /** The two memos traverse the tree alike: the name list before de-duplication
      is exactly the names of `allGroups`, element by element. */
  lemma {:induction false} TreeGroupNamesAreAllGroupsNames(data: seq<University>)
    ensures FlatMap(data, UniversityGroupNames) == Map(AllGroups(data), GroupName)
  {
    forall i | 0 <= i < |data|
      ensures UniversityGroupNames(data[i]) == Map(UniversityGroups(data[i]), GroupName)
    {
      UniversityLevel(data[i]);
    }
    MapOfFlatMap(data, UniversityGroups, GroupName, UniversityGroupNames);
  }

  lemma {:induction false} UniversityLevel(u: University)
    ensures UniversityGroupNames(u) == Map(UniversityGroups(u), GroupName)
  {
    forall i | 0 <= i < |u.faculties|
      ensures FacultyGroupNames(u.faculties[i]) == Map(FacultyGroups(u.faculties[i]), GroupName)
    {
      FacultyLevel(u.faculties[i]);
    }
    MapOfFlatMap(u.faculties, FacultyGroups, GroupName, FacultyGroupNames);
  }

  lemma {:induction false} FacultyLevel(f: Faculty)
    ensures FacultyGroupNames(f) == Map(FacultyGroups(f), GroupName)
  {
    forall i | 0 <= i < |f.departments|
      ensures DepartmentGroupNames(f.departments[i]) == Map(DepartmentGroups(f.departments[i]), GroupName)
    {
      DepartmentLevel(f.departments[i]);
    }
    MapOfFlatMap(f.departments, DepartmentGroups, GroupName, DepartmentGroupNames);
  }

  lemma {:induction false} DepartmentLevel(d: Department)
    ensures DepartmentGroupNames(d) == Map(DepartmentGroups(d), GroupName)
  {
    MapOfFlatMap(d.specialities, SpecialityGroups, GroupName, SpecialityGroupNames);
  }

  /** Every name in the raw name list belongs to a group of the tree. */
  lemma RawNameInTree(data: seq<University>, x: string)
    requires x in TreeGroupNames(data)
    ensures NameInTree(data, x)
  {
    var all := AllGroups(data);
    var raw := TreeGroupNames(data);
    var i :| 0 <= i < |raw| && raw[i] == x;
    assert all[i] in all;
  }

  /** Every group of the tree contributes its name to the raw name list. */
  lemma TreeNameInRaw(data: seq<University>, g: Group)
    requires InTree(data, g)
    ensures g.name in TreeGroupNames(data)
  {
    var all := AllGroups(data);
    var raw := TreeGroupNames(data);
    var i :| 0 <= i < |all| && all[i] == g;
    assert raw[i] == g.name;
  }

  /** `groupNames`: the tree's group names, each once, in the order in which the
      traversal first meets them. */
  function GroupNames(data: seq<University>): (r: seq<string>)
    ensures forall x :: x in r <==> x in TreeGroupNames(data)
    ensures forall x :: x in r <==> NameInTree(data, x)
    ensures NoDuplicates(r)
    ensures forall i, j :: 0 <= i < j < |r| ==>
      FirstIndex(TreeGroupNames(data), r[i]) < FirstIndex(TreeGroupNames(data), r[j])
  {
    var raw := TreeGroupNames(data);
    assert forall x :: x in raw <==> NameInTree(data, x) by {
      forall x | x in raw ensures NameInTree(data, x) {
        RawNameInTree(data, x);
      }
      forall x | NameInTree(data, x) ensures x in raw {
        var g :| InTree(data, g) && g.name == x;
        TreeNameInRaw(data, g);
      }
    }
    Dedupe(raw)
  }

  function DepartmentLecturers(d: Department): seq<Lecturer> { d.lecturers }

  ghost predicate LecturerInFaculty(f: Faculty, l: Lecturer) {
    exists d :: d in f.departments && l in d.lecturers
  }

  ghost predicate LecturerInUniversity(u: University, l: Lecturer) {
    exists f :: f in u.faculties && LecturerInFaculty(f, l)
  }

  ghost predicate LecturerInTree(data: seq<University>, l: Lecturer) {
    exists u :: u in data && LecturerInUniversity(u, l)
  }

  function FacultyLecturers(f: Faculty): (r: seq<Lecturer>)
    ensures forall l :: l in r <==> LecturerInFaculty(f, l)
  {
    var r := FlatMap(f.departments, DepartmentLecturers);
    assert forall l :: l in r ==> LecturerInFaculty(f, l) by {
      forall l | l in r ensures LecturerInFaculty(f, l) {
        var i :| 0 <= i < |f.departments| && l in f.departments[i].lecturers;
      }
    }
    r
  }

  function UniversityLecturers(u: University): (r: seq<Lecturer>)
    ensures forall l :: l in r <==> LecturerInUniversity(u, l)
  {
    var r := FlatMap(u.faculties, FacultyLecturers);
    assert forall l :: l in r ==> LecturerInUniversity(u, l) by {
      forall l | l in r ensures LecturerInUniversity(u, l) {
        var i :| 0 <= i < |u.faculties| && l in FacultyLecturers(u.faculties[i]);
      }
    }
    r
  }

  /** `allLecturers`: every department's lecturers, concatenated in traversal
      order (the `Set` over distinct objects removes nothing). */
  function AllLecturers(data: seq<University>): (r: seq<Lecturer>)
    ensures forall l :: l in r <==> LecturerInTree(data, l)
  {
    var r := FlatMap(data, UniversityLecturers);
    assert forall l :: l in r ==> LecturerInTree(data, l) by {
      forall l | l in r ensures LecturerInTree(data, l) {
        var i :| 0 <= i < |data| && l in UniversityLecturers(data[i]);
      }
    }
    r
  }

  /** The lecturers table and the curriculum form share this tree: what the
      table adds reaches the form through `allLecturers`. After `l` was appended
      to one department, every lecturer in the tree was there before or is `l`. */
  lemma AppendedTreeLecturers(
    a: seq<University>, b: seq<University>, university: int, faculty: int, department: int,
    l: Lecturer, x: Lecturer)
    requires TreeUpdates.DepartmentUpdated(a, b, university, faculty, department, LecturersTable.AppendLecturer(l))
    requires LecturerInTree(b, x)
    ensures LecturerInTree(a, x) || x == l
  {
    var ub :| ub in b && LecturerInUniversity(ub, x);
    var i :| 0 <= i < |b| && b[i] == ub;
    if x != l {
      if a[i].id != university {
        assert b[i] == a[i];
      } else {
        var fb :| fb in ub.faculties && LecturerInFaculty(fb, x);
        var j :| 0 <= j < |ub.faculties| && ub.faculties[j] == fb;
        var fa := a[i].faculties[j];
        AppendedFacultyLecturers(fa, fb, faculty, department, l, x);
        assert LecturerInUniversity(a[i], x);
      }
      assert a[i] in a;
    }
  }

  /** One faculty of the selected university: its lecturers after the append
      were there before or are `l`. */
  lemma AppendedFacultyLecturers(fa: Faculty, fb: Faculty, faculty: int, department: int, l: Lecturer, x: Lecturer)
    requires fa.id != faculty ==> fb == fa
    requires fa.id == faculty ==>
      |fb.departments| == |fa.departments| &&
      forall k :: 0 <= k < |fa.departments| ==>
        fb.departments[k] == (if fa.departments[k].id == department
                              then LecturersTable.AppendLecturer(l)(fa.departments[k]) else fa.departments[k])
    requires LecturerInFaculty(fb, x) && x != l
    ensures LecturerInFaculty(fa, x)
  {
    if fa.id == faculty {
      var db :| db in fb.departments && x in db.lecturers;
      var k :| 0 <= k < |fb.departments| && fb.departments[k] == db;
      assert x in fa.departments[k].lecturers;
    }
  }

  /** When the selected department exists, the appended lecturer is in the tree. */
  lemma AppendedLecturerListed(
    a: seq<University>, b: seq<University>, university: int, faculty: int, department: int, l: Lecturer)
    requires TreeUpdates.DepartmentUpdated(a, b, university, faculty, department, LecturersTable.AppendLecturer(l))
    requires TreeUpdates.FindDepartment(a, university, faculty, department).Some?
    ensures LecturerInTree(b, l)
  {
    var f := TreeUpdates.FindFaculty(a, university, faculty).value;
    var u :| u in a && u.id == university && f in u.faculties;
    var i :| 0 <= i < |a| && a[i] == u;
    var j :| 0 <= j < |u.faculties| && u.faculties[j] == f;
    var d := TreeUpdates.FindDepartment(a, university, faculty, department).value;
    var k :| 0 <= k < |f.departments| && f.departments[k] == d;
    var db := b[i].faculties[j].departments[k];
    assert db == LecturersTable.AppendLecturer(l)(d);
    assert l in db.lecturers;
    assert LecturerInFaculty(b[i].faculties[j], l);
    assert LecturerInUniversity(b[i], l);
  }

  /** As written, a lecturer added in the lecturers table never reaches the
      curriculum form. Its record has no `full_name`, so unless a lecturer of
      that name was already in the tree, the form's submit button stays disabled
      and the handler returns before it calls the backend. */
  lemma AddedLecturerNeverSent(
    data: seq<University>, university: Option<int>, faculty: Option<int>, department: Option<int>, name: string,
    subjects: seq<Subject>, allGroups: seq<Group>, subject: string, hours: int, attestation: string,
    secondLecturer: Option<string>, group: string, flow: Option<int>)
    requires LecturersTable.AddLecturerTo(data, university, faculty, department, name).Some?
    requires forall l :: l in AllLecturers(data) ==> FullNameProperty(l) != Some(Text.Trim(name))
    ensures var lecturers := AllLecturers(LecturersTable.AddLecturerTo(data, university, faculty, department, name).value);
      !Curriculum.SubmitEnabled(lecturers, subject, hours, attestation, Text.Trim(name), secondLecturer) &&
      Curriculum.Request(subjects, lecturers, allGroups, subject, hours, Text.Trim(name), secondLecturer,
                         group, flow).None?
  {
    var n := Text.Trim(name);
    var b := LecturersTable.AddLecturerTo(data, university, faculty, department, name).value;
    var d := TreeUpdates.FindDepartment(data, university.value, faculty.value, department.value).value;
    var l := CamelKeyed(Ids.NextId(TreeUpdates.LecturerIds(d.lecturers)), n);
    var lecturers := AllLecturers(b);
    forall j | 0 <= j < |lecturers| ensures FullNameProperty(lecturers[j]) != Some(n) {
      AppendedTreeLecturers(data, b, university.value, faculty.value, department.value, l, lecturers[j]);
    }
  }

  /** With the record the tree declares, the lecturer just added can be chosen
      in the curriculum form: the button is enabled once subject, hours and
      attestation are set, and for a subject from the list the handler sends its
      request. */
  lemma IntendedLecturerReachesCurriculum(
    data: seq<University>, university: Option<int>, faculty: Option<int>, department: Option<int>, name: string,
    subjects: seq<Subject>, allGroups: seq<Group>, subject: string, hours: int, attestation: string,
    group: string, flow: Option<int>)
    requires LecturersTable.AddLecturerIntendedTo(data, university, faculty, department, name).Some?
    requires subject != "" && hours != 0 && attestation != ""
    ensures var lecturers := AllLecturers(LecturersTable.AddLecturerIntendedTo(data, university, faculty, department, name).value);
      Curriculum.SubmitEnabled(lecturers, subject, hours, attestation, Text.Trim(name), None) &&
      ((exists j :: 0 <= j < |subjects| && subjects[j].name == subject) ==>
         Curriculum.Request(subjects, lecturers, allGroups, subject, hours, Text.Trim(name), None, group, flow).Some?)
  {
    var n := Text.Trim(name);
    var b := LecturersTable.AddLecturerIntendedTo(data, university, faculty, department, name).value;
    var d := TreeUpdates.FindDepartment(data, university.value, faculty.value, department.value).value;
    var l := SnakeKeyed(Ids.NextId(TreeUpdates.LecturerIds(d.lecturers)), n);
    AppendedLecturerListed(data, b, university.value, faculty.value, department.value, l);
    var lecturers := AllLecturers(b);
    var i :| 0 <= i < |lecturers| && lecturers[i] == l;
    assert Map(lecturers, FullNameProperty)[i] == Some(n);
    if exists j :: 0 <= j < |subjects| && subjects[j].name == subject {
      Curriculum.EnabledSubmitSendsRequest(subjects, lecturers, allGroups, subject, hours, attestation, n, None, group, flow);
    }
  }
}
