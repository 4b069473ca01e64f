/** The classroom table (frontend/src/components/ClassroomsTable.tsx): adding a
    room to a faculty, or to one of its departments, of the shared university
    tree. */
module ClassroomsTable {
  import opened Wrappers
  import opened Seqs
  import opened Ids
  import opened ClientTypes
  import opened TreeUpdates
  import opened Text

  function AppendFacultyRoom(room: Classroom): Faculty -> Faculty {
    (f: Faculty) => f.(classrooms := f.classrooms + [room])
  }

  function AppendDepartmentRoom(room: Classroom): Department -> Department {
    (d: Department) => d.(classrooms := d.classrooms + [room])
  }

  /** The rooms that get the new room's id from: the faculty's own rooms when no
      department is chosen, else the chosen department's. */
  function TargetRooms(data: seq<University>, university: int, faculty: int, department: Option<int>): Option<seq<Classroom>> {
    if department.None? then
      match FindFaculty(data, university, faculty)
      case None => None
      case Some(f) => Some(f.classrooms)
    else
      match FindDepartment(data, university, faculty, department.value)
      case None => None
      case Some(d) => Some(d.classrooms)
  }

  /** `addClassroom`'s effect on the tree: `None` when the handler returns early
      (nothing changes and the form is not reset), else the new tree. The guard
      needs a university, a faculty and a room number; without a department the
      room goes to the faculty, with one to that department; its id is one more
      than the largest in the target list, or 1. */
  function AddClassroomTo(
    data: seq<University>, university: Option<int>, faculty: Option<int>, department: Option<int>,
    number: string): (r: Option<seq<University>>)
    ensures r.Some? <==>
      GivenId(university) && GivenId(faculty) && number != "" &&
      TargetRooms(data, university.value, faculty.value, department).Some?
    ensures r.Some? && department.None? ==>
      var rooms := TargetRooms(data, university.value, faculty.value, department).value;
      FacultyUpdated(data, r.value, university.value, faculty.value,
                     AppendFacultyRoom(Classroom(NextId(ClassroomIds(rooms)), number)))
    ensures r.Some? && department.Some? ==>
      var rooms := TargetRooms(data, university.value, faculty.value, department).value;
      DepartmentUpdated(data, r.value, university.value, faculty.value, department.value,
                        AppendDepartmentRoom(Classroom(NextId(ClassroomIds(rooms)), number)))
  {
    if !GivenId(university) || !GivenId(faculty) || number == "" then None
    else match TargetRooms(data, university.value, faculty.value, department)
      case None => None
      case Some(rooms) =>
        var room := Classroom(NextId(ClassroomIds(rooms)), number);
        if department.None? then Some(MapFaculty(data, university.value, faculty.value, AppendFacultyRoom(room)))
        else Some(MapDepartment(data, university.value, faculty.value, department.value, AppendDepartmentRoom(room)))
  }

  /** The new room's id differs from every id in the list it is appended to. */
  lemma NewRoomIsFresh(rooms: seq<Classroom>)
    ensures forall c :: c in rooms ==> c.id < NextId(ClassroomIds(rooms))
  {
    forall c | c in rooms ensures c.id < NextId(ClassroomIds(rooms)) {
      var i :| 0 <= i < |rooms| && rooms[i] == c;
      assert ClassroomIds(rooms)[i] == c.id;
      assert c.id in ClassroomIds(rooms);
    }
  }

  /** A room number typed as whitespace only is stored empty, so the handler
      returns early. */
  lemma BlankNumberRejected(
    data: seq<University>, university: Option<int>, faculty: Option<int>, department: Option<int>, v: string)
    requires forall i :: 0 <= i < |v| ==> IsWhitespace(v[i])
    ensures AddClassroomTo(data, university, faculty, department, Trim(v)).None?
  {
    TrimBlank(v);
  }

  /** The component's state: the shared tree it was given and the form's
      fields (modal flag, the three selections, the text field). */
  datatype ClassroomsState = ClassroomsState(
    data: seq<University>, isModalOpen: bool,
    selectedUniversity: Option<int>, selectedFaculty: Option<int>, selectedDepartment: Option<int>,
    newNumber: string)

  /** The component over the shared tree, its state held as one record. */
  class ClassroomsForm {
    var state: ClassroomsState

    constructor(data: seq<University>)
      ensures state == ClassroomsState(data, false, None, None, None, "")
    {
      state := ClassroomsState(data, false, None, None, None, "");
    }

    /** Choosing a university; the effect on it clears faculty and department
        whenever the value changes. */
    method ChooseUniversity(v: Option<int>)
      modifies this
      ensures v != old(state.selectedUniversity) ==>
        state == old(state).(selectedUniversity := v, selectedFaculty := None, selectedDepartment := None)
      ensures v == old(state.selectedUniversity) ==> state == old(state)
    {
      if v != state.selectedUniversity {
        state := state.(selectedUniversity := v, selectedFaculty := None, selectedDepartment := None);
      }
    }

    /** Choosing a faculty; the effect on it clears the department whenever the
        value changes. */
    method ChooseFaculty(v: Option<int>)
      modifies this
      ensures v != old(state.selectedFaculty) ==>
        state == old(state).(selectedFaculty := v, selectedDepartment := None)
      ensures v == old(state.selectedFaculty) ==> state == old(state)
    {
      if v != state.selectedFaculty {
        state := state.(selectedFaculty := v, selectedDepartment := None);
      }
    }

    method ChooseDepartment(v: Option<int>)
      modifies this
      ensures state == old(state).(selectedDepartment := v)
    {
      state := state.(selectedDepartment := v);
    }

    /** The button that opens the form. */
    method OpenModal()
      modifies this
      ensures state == old(state).(isModalOpen := true)
    {
      state := state.(isModalOpen := true);
    }

    /** The cancel button closes the form and keeps its fields. */
    method CloseModal()
      modifies this
      ensures state == old(state).(isModalOpen := false)
    {
      state := state.(isModalOpen := false);
    }

    /** The room number field stores its text trimmed on every change. */
    method TypeNumber(v: string)
      modifies this
      ensures state == old(state).(newNumber := Trim(v))
    {
      state := state.(newNumber := Trim(v));
    }

    /** `addClassroom`: on an early return nothing changes; otherwise the tree
        gets the new room and the form closes and clears. */
    method AddClassroom()
      modifies this
      ensures old(AddClassroomTo(state.data, state.selectedUniversity, state.selectedFaculty,
                         state.selectedDepartment, state.newNumber)).None? ==>
        state == old(state)
      ensures old(AddClassroomTo(state.data, state.selectedUniversity, state.selectedFaculty,
                         state.selectedDepartment, state.newNumber)).Some? ==>
        state == ClassroomsState(
          old(AddClassroomTo(state.data, state.selectedUniversity, state.selectedFaculty,
                     state.selectedDepartment, state.newNumber)).value,
          false, None, None, None, "")
    {
      var r := AddClassroomTo(state.data, state.selectedUniversity, state.selectedFaculty,
                       state.selectedDepartment, state.newNumber);
      if r.None? {
        return;
      }
      state := ClassroomsState(r.value, false, None, None, None, "");
    }
  }
}
