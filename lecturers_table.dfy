/** The lecturer table (frontend/src/components/LecturersTable.tsx): adding a
    lecturer to a department of the shared university tree. */
module LecturersTable {
  import opened Wrappers
  import opened Seqs
  import opened Ids
  import opened Text
  import opened ClientTypes
  import opened TreeUpdates

  function AppendLecturer(lecturer: Lecturer): Department -> Department {
    (d: Department) => d.(lecturers := d.lecturers + [lecturer])
  }

  /** `addLecturer`'s effect on the tree when the record it appends is
      `make(id, name)`: `None` when the handler returns early (nothing changes
      and the form is not reset), else the new tree. It needs all three
      selections and a name, and a department at the end of the path; the
      lecturer gets the trimmed name and an id one more than the largest of that
      department's lecturers, or 1. Only that department's lecturer list
      changes. */
  function AddLecturerWith(
    data: seq<University>, university: Option<int>, faculty: Option<int>, department: Option<int>,
    name: string, make: (int, string) -> Lecturer): (r: Option<seq<University>>)
    ensures r.Some? <==>
      GivenId(university) && GivenId(faculty) && GivenId(department) && name != "" &&
      FindDepartment(data, university.value, faculty.value, department.value).Some?
    ensures r.Some? ==>
      var d := FindDepartment(data, university.value, faculty.value, department.value).value;
      DepartmentUpdated(data, r.value, university.value, faculty.value, department.value,
                        AppendLecturer(make(NextId(LecturerIds(d.lecturers)), Trim(name))))
  {
    if !GivenId(university) || !GivenId(faculty) || !GivenId(department) || name == "" then None
    else match FindDepartment(data, university.value, faculty.value, department.value)
      case None => None
      case Some(d) =>
        var lecturer := make(NextId(LecturerIds(d.lecturers)), Trim(name));
        Some(MapDepartment(data, university.value, faculty.value, department.value, AppendLecturer(lecturer)))
  }

  /** `addLecturer` as written: the appended record is `{ id, fullName }`, so it
      has no `full_name` property. */
  function AddLecturerTo(
    data: seq<University>, university: Option<int>, faculty: Option<int>, department: Option<int>,
    name: string): (r: Option<seq<University>>)
    ensures r.Some? <==>
      GivenId(university) && GivenId(faculty) && GivenId(department) && name != "" &&
      FindDepartment(data, university.value, faculty.value, department.value).Some?
    ensures r.Some? ==>
      var d := FindDepartment(data, university.value, faculty.value, department.value).value;
      DepartmentUpdated(data, r.value, university.value, faculty.value, department.value,
                        AppendLecturer(CamelKeyed(NextId(LecturerIds(d.lecturers)), Trim(name))))
  {
    AddLecturerWith(data, university, faculty, department, name, (id: int, n: string) => CamelKeyed(id, n))
  }

  /** `addLecturer` appending the tree's declared `LecturerType`,
      `{ id, full_name }`, which the curriculum form can find by name. */
  function AddLecturerIntendedTo(
    data: seq<University>, university: Option<int>, faculty: Option<int>, department: Option<int>,
    name: string): (r: Option<seq<University>>)
    ensures r.Some? <==>
      GivenId(university) && GivenId(faculty) && GivenId(department) && name != "" &&
      FindDepartment(data, university.value, faculty.value, department.value).Some?
    ensures r.Some? ==>
      var d := FindDepartment(data, university.value, faculty.value, department.value).value;
      DepartmentUpdated(data, r.value, university.value, faculty.value, department.value,
                        AppendLecturer(SnakeKeyed(NextId(LecturerIds(d.lecturers)), Trim(name))))
  {
    AddLecturerWith(data, university, faculty, department, name, (id: int, n: string) => SnakeKeyed(id, n))
  }

  /** A row's name cell shows `lecturer.fullName`, and React renders `undefined`
      as nothing: a lecturer the backend delivered gets an empty cell. */
  function NameCell(l: Lecturer): (r: string)
    ensures l.SnakeKeyed? ==> r == ""
    ensures l.CamelKeyed? ==> r == l.fullName
  {
    match CamelNameProperty(l)
    case Some(n) => n
    case None => ""
  }

  /** The name cell reading `full_name`: every lecturer of the declared shape
      shows its name. */
  function IntendedNameCell(l: Lecturer): (r: string)
    ensures l.SnakeKeyed? ==> r == l.fullName
    ensures l.CamelKeyed? ==> r == ""
  {
    match FullNameProperty(l)
    case Some(n) => n
    case None => ""
  }

  /** Appending a lecturer touches only the lecturer list: the department keeps
      its id, names, specialities and rooms, and its list grows by exactly the
      new record at the end. */
  lemma AppendLecturerOnlyTouchesLecturers(d: Department, lecturer: Lecturer)
    ensures var e := AppendLecturer(lecturer)(d);
      e.id == d.id && e.name == d.name && e.shortName == d.shortName &&
      e.specialities == d.specialities && e.classrooms == d.classrooms &&
      |e.lecturers| == |d.lecturers| + 1 && e.lecturers[..|d.lecturers|] == d.lecturers &&
      e.lecturers[|d.lecturers|] == lecturer
  {
  }

  /** The new lecturer's id differs from every id in the department's list. */
  lemma NewLecturerIsFresh(lecturers: seq<Lecturer>)
    ensures forall l :: l in lecturers ==> l.id < NextId(LecturerIds(lecturers))
  {
    forall l | l in lecturers ensures l.id < NextId(LecturerIds(lecturers)) {
      var i :| 0 <= i < |lecturers| && lecturers[i] == l;
      assert LecturerIds(lecturers)[i] == l.id;
      assert l.id in LecturerIds(lecturers);
    }
  }

  /** The add button is enabled when all three selections are given and the
      name is not blank after trimming. */
  predicate SubmitEnabled(university: Option<int>, faculty: Option<int>, department: Option<int>, name: string) {
    GivenId(university) && GivenId(faculty) && GivenId(department) && Trim(name) != ""
  }

  /** Through the enabled button the handler's own guard never returns early:
      it acts exactly when the department is found, and the lecturer it stores
      has a non-blank name. */
  lemma EnabledSubmitAddsLecturer(
    data: seq<University>, university: Option<int>, faculty: Option<int>, department: Option<int>, name: string)
    requires SubmitEnabled(university, faculty, department, name)
    ensures AddLecturerTo(data, university, faculty, department, name).Some? <==>
      FindDepartment(data, university.value, faculty.value, department.value).Some?
    ensures |Trim(name)| > 0 && !IsWhitespace(Trim(name)[0])
  {
    TrimBlank("");
  }

  /** The component's state: the shared tree it was given and the form's
      fields (modal flag, the three selections, the text field). */
  datatype LecturersState = LecturersState(
    data: seq<University>, isModalOpen: bool,
    selectedUniversity: Option<int>, selectedFaculty: Option<int>, selectedDepartment: Option<int>,
    newName: string)

  /** The component over the shared tree, its state held as one record. */
  class LecturersForm {
    var state: LecturersState

    constructor(data: seq<University>)
      ensures state == LecturersState(data, false, None, None, None, "")
    {
      state := LecturersState(data, false, None, None, None, "");
    }

    /** Choosing a university; the effect on it clears faculty and department
        whenever the value changes. */
    method ChooseUniversity(v: Option<int>)
      modifies this
      ensures v != old(state.selectedUniversity) ==>
        state == old(state).(selectedUniversity := v, selectedFaculty := None, selectedDepartment := None)
      ensures v == old(state.selectedUniversity) ==> state == old(state)
    {
      if v != state.selectedUniversity {
        state := state.(selectedUniversity := v, selectedFaculty := None, selectedDepartment := None);
      }
    }

    /** Choosing a faculty; the effect on it clears the department whenever the
        value changes. */
    method ChooseFaculty(v: Option<int>)
      modifies this
      ensures v != old(state.selectedFaculty) ==>
        state == old(state).(selectedFaculty := v, selectedDepartment := None)
      ensures v == old(state.selectedFaculty) ==> state == old(state)
    {
      if v != state.selectedFaculty {
        state := state.(selectedFaculty := v, selectedDepartment := None);
      }
    }

    method ChooseDepartment(v: Option<int>)
      modifies this
      ensures state == old(state).(selectedDepartment := v)
    {
      state := state.(selectedDepartment := v);
    }

    /** The button that opens the form. */
    method OpenModal()
      modifies this
      ensures state == old(state).(isModalOpen := true)
    {
      state := state.(isModalOpen := true);
    }

    /** The cancel button closes the form and keeps its fields. */
    method CloseModal()
      modifies this
      ensures state == old(state).(isModalOpen := false)
    {
      state := state.(isModalOpen := false);
    }

    /** The name field stores its text as typed. */
    method TypeName(v: string)
      modifies this
      ensures state == old(state).(newName := v)
    {
      state := state.(newName := v);
    }

    /** `addLecturer`: on an early return nothing changes; otherwise the tree
        gets the new lecturer and the form closes and clears. */
    method AddLecturer()
      modifies this
      ensures old(AddLecturerTo(state.data, state.selectedUniversity, state.selectedFaculty,
                         state.selectedDepartment, state.newName)).None? ==>
        state == old(state)
      ensures old(AddLecturerTo(state.data, state.selectedUniversity, state.selectedFaculty,
                         state.selectedDepartment, state.newName)).Some? ==>
        state == LecturersState(
          old(AddLecturerTo(state.data, state.selectedUniversity, state.selectedFaculty,
                     state.selectedDepartment, state.newName)).value,
          false, None, None, None, "")
    {
      var r := AddLecturerTo(state.data, state.selectedUniversity, state.selectedFaculty,
                       state.selectedDepartment, state.newName);
      if r.None? {
        return;
      }
      state := LecturersState(r.value, false, None, None, None, "");
    }
  }
}
