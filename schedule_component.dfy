/** The timetable tab (frontend/src/components/ScheduleComponent.tsx): the
    university/faculty/department tabs, the group columns they select, the
    48-row day-by-pair grid and the one-cell insert into the client's sparse
    schedule map. */
module ScheduleComponent {
  import opened Wrappers
  import opened Seqs
  import opened ClientTypes
  import opened DataComponent

  const DaysOfWeek: seq<string> :=
    ["Понедельник", "Вторник", "Среда", "Четверг", "Пятница", "Суббота"]

  const Pairs: seq<string> := [
    "1 пара [08:00 - 09:35]", "2 пара [09:50 - 11:25]", "3 пара [11:40 - 13:15]",
    "4 пара [13:45 - 15:20]", "5 пара [15:35 - 17:10]", "6 пара [17:25 - 19:00]",
    "7 пара [19:15 - 20:50]", "8 пара [21:05 - 22:35]"]

  /** One grid row: a day label and a pair label. */
  datatype Row = Row(day: string, pair: string)

  function DayRows(day: string): seq<Row> {
    Map(Pairs, p => Row(day, p))
  }

  /** `rows`: every pair of every day, day-major. */
  function Rows(): seq<Row> {
    FlatMap(DaysOfWeek, DayRows)
  }

  /** The day number a row's cells address (`daysOfWeek.indexOf(row.day) + 1`). */
  function DayNumber(row: Row): int {
    IndexOf(DaysOfWeek, row.day) + 1
  }

  /** The pair number a row's cells address (`pairs.indexOf(row.pair) + 1`). */
  function PairNumber(row: Row): int {
    IndexOf(Pairs, row.pair) + 1
  }

  lemma {:induction false} IndexOfDistinct<T>(xs: seq<T>, i: int)
    requires NoDuplicates(xs) && 0 <= i < |xs|
    ensures IndexOf(xs, xs[i]) == i
  {
  }

  /** The grid has 48 rows in day-major order, and row `i` addresses day
      `i / 8 + 1` and pair `i % 8 + 1`, so every row lands in 1..6 and 1..8. */
  lemma RowAddressing()
    ensures |Rows()| == 48
    ensures forall i :: 0 <= i < 48 ==>
      DayNumber(Rows()[i]) == i / 8 + 1 && PairNumber(Rows()[i]) == i % 8 + 1
    ensures forall i :: 0 <= i < 48 ==>
      1 <= DayNumber(Rows()[i]) <= 6 && 1 <= PairNumber(Rows()[i]) <= 8
  {
    FlatMapBlocks(DaysOfWeek, DayRows, 8);
    forall i | 0 <= i < 48
      ensures DayNumber(Rows()[i]) == i / 8 + 1 && PairNumber(Rows()[i]) == i % 8 + 1
    {
      RowAt(i);
    }
  }

  /** Row `i` is pair `i % 8` of day `i / 8`. */
  lemma RowAt(i: int)
    requires 0 <= i < 48
    ensures |Rows()| == 48
    ensures DayNumber(Rows()[i]) == i / 8 + 1 && PairNumber(Rows()[i]) == i % 8 + 1
  {
    FlatMapBlocks(DaysOfWeek, DayRows, 8);
    assert NoDuplicates(DaysOfWeek);
    assert NoDuplicates(Pairs);
    assert InBlock(DaysOfWeek, DayRows, 8, i);
    assert Rows()[i] == Row(DaysOfWeek[i / 8], Pairs[i % 8]);
    IndexOfDistinct(DaysOfWeek, i / 8);
    IndexOfDistinct(Pairs, i % 8);
  }

  /** `getGroupsForActiveDepartment`: the group columns for a department tab of
      the active faculty, or for every department of it with `'all'`. */
  function GroupsForActiveDepartment(
    data: seq<University>, activeUniversity: Option<string>, activeFaculty: Option<string>,
    departmentName: string): (r: seq<Group>)
    ensures !Given(activeUniversity) || !Given(activeFaculty) ==> r == []
    ensures forall g :: g in r ==>
      exists u, f :: u in data && u.name == activeUniversity.value && f in u.faculties &&
                     f.name == activeFaculty.value && InFaculty(f, g)
    ensures departmentName != "all" ==> forall g :: g in r ==>
      exists u, f, d :: u in data && f in u.faculties && f.name == activeFaculty.value &&
                        d in f.departments && d.shortName == departmentName && InDepartment(d, g)
  {
    if !Given(activeUniversity) || !Given(activeFaculty) then []
    else match Find(data, (u: University) => u.name == activeUniversity.value)
      case None => []
      case Some(university) =>
        assert university in data && university.name == activeUniversity.value;
        match Find(university.faculties, (f: Faculty) => f.name == activeFaculty.value)
        case None => []
        case Some(faculty) =>
          assert faculty in university.faculties && faculty.name == activeFaculty.value;
          if departmentName == "all" then FacultyGroups(faculty)
          else
            match Find(faculty.departments, (d: Department) => d.shortName == departmentName)
            case None => []
            case Some(department) =>
              assert department in faculty.departments && department.shortName == departmentName;
              assert forall g :: g in DepartmentGroups(department) ==> InFaculty(faculty, g);
              DepartmentGroups(department)
  }

  /** When no university has the active name, or the first one that has it
      has no faculty of the active name, every department tab shows no groups,
      even if a later university of that name has such a faculty. */
  lemma UnknownSelectionShowsNothing(
    data: seq<University>, activeUniversity: Option<string>, activeFaculty: Option<string>,
    departmentName: string)
    requires Given(activeUniversity) && Given(activeFaculty)
    requires forall i :: 0 <= i < |data| && data[i].name == activeUniversity.value &&
                         (forall m :: 0 <= m < i ==> data[m].name != activeUniversity.value) ==>
      forall f :: f in data[i].faculties ==> f.name != activeFaculty.value
    ensures GroupsForActiveDepartment(data, activeUniversity, activeFaculty, departmentName) == []
  {
    var fu := Find(data, (u: University) => u.name == activeUniversity.value);
    if fu.Some? {
      var i :| 0 <= i < |data| && data[i] == fu.value && data[i].name == activeUniversity.value &&
               forall m :: 0 <= m < i ==> data[m].name != activeUniversity.value;
      var ff := Find(data[i].faculties, (f: Faculty) => f.name == activeFaculty.value);
      assert ff.None?;
    }
  }

  /** With `'all'` the columns are the groups of every speciality of every
      department of the first faculty of that name in the first university of
      that name, concatenated in order. */
  lemma AllDepartmentsConcatenated(
    data: seq<University>, activeUniversity: Option<string>, activeFaculty: Option<string>,
    i: nat, j: nat)
    requires Given(activeUniversity) && Given(activeFaculty)
    requires i < |data| && data[i].name == activeUniversity.value
    requires forall k :: 0 <= k < i ==> data[k].name != activeUniversity.value
    requires j < |data[i].faculties| && data[i].faculties[j].name == activeFaculty.value
    requires forall k :: 0 <= k < j ==> data[i].faculties[k].name != activeFaculty.value
    ensures GroupsForActiveDepartment(data, activeUniversity, activeFaculty, "all") ==
      FlatMap(data[i].faculties[j].departments, DepartmentGroups)
  {
    var fu := Find(data, (u: University) => u.name == activeUniversity.value);
    assert fu == Some(data[i]);
    var ff := Find(data[i].faculties, (f: Faculty) => f.name == activeFaculty.value);
    assert ff == Some(data[i].faculties[j]);
  }

  /** A single department's tab shows only groups that the `'all'` tab shows too. */
  lemma DepartmentWithinAll(
    data: seq<University>, activeUniversity: Option<string>, activeFaculty: Option<string>,
    departmentName: string, g: Group)
    requires g in GroupsForActiveDepartment(data, activeUniversity, activeFaculty, departmentName)
    ensures g in GroupsForActiveDepartment(data, activeUniversity, activeFaculty, "all")
  {
    if departmentName != "all" {
      var university := Find(data, (u: University) => u.name == activeUniversity.value).value;
      var faculty := Find(university.faculties, (f: Faculty) => f.name == activeFaculty.value).value;
      var department :=
        Find(faculty.departments, (d: Department) => d.shortName == departmentName).value;
      assert department in faculty.departments;
      assert InFaculty(faculty, g);
    }
  }

  /** A department tab shows exactly the groups of the first department of
      that short name in the first matching faculty of the first matching
      university, in order. */
  lemma NamedDepartmentGroups(
    data: seq<University>, activeUniversity: Option<string>, activeFaculty: Option<string>,
    departmentName: string, i: nat, j: nat, k: nat)
    requires Given(activeUniversity) && Given(activeFaculty) && departmentName != "all"
    requires i < |data| && data[i].name == activeUniversity.value
    requires forall m :: 0 <= m < i ==> data[m].name != activeUniversity.value
    requires j < |data[i].faculties| && data[i].faculties[j].name == activeFaculty.value
    requires forall m :: 0 <= m < j ==> data[i].faculties[m].name != activeFaculty.value
    requires k < |data[i].faculties[j].departments|
    requires data[i].faculties[j].departments[k].shortName == departmentName
    requires forall m :: 0 <= m < k ==> data[i].faculties[j].departments[m].shortName != departmentName
    ensures GroupsForActiveDepartment(data, activeUniversity, activeFaculty, departmentName) ==
      DepartmentGroups(data[i].faculties[j].departments[k])
  {
    var fu := Find(data, (u: University) => u.name == activeUniversity.value);
    assert fu == Some(data[i]);
    var ff := Find(data[i].faculties, (f: Faculty) => f.name == activeFaculty.value);
    assert ff == Some(data[i].faculties[j]);
    var fd := Find(data[i].faculties[j].departments, (d: Department) => d.shortName == departmentName);
    assert fd == Some(data[i].faculties[j].departments[k]);
  }

  /** When the matching faculty has no department of that short name, the tab
      shows no groups. */
  lemma UnknownDepartmentShowsNothing(
    data: seq<University>, activeUniversity: Option<string>, activeFaculty: Option<string>,
    departmentName: string, i: nat, j: nat)
    requires Given(activeUniversity) && Given(activeFaculty) && departmentName != "all"
    requires i < |data| && data[i].name == activeUniversity.value
    requires forall m :: 0 <= m < i ==> data[m].name != activeUniversity.value
    requires j < |data[i].faculties| && data[i].faculties[j].name == activeFaculty.value
    requires forall m :: 0 <= m < j ==> data[i].faculties[m].name != activeFaculty.value
    requires forall d :: d in data[i].faculties[j].departments ==> d.shortName != departmentName
    ensures GroupsForActiveDepartment(data, activeUniversity, activeFaculty, departmentName) == []
  {
    var fu := Find(data, (u: University) => u.name == activeUniversity.value);
    assert fu == Some(data[i]);
    var ff := Find(data[i].faculties, (f: Faculty) => f.name == activeFaculty.value);
    assert ff == Some(data[i].faculties[j]);
    var fd := Find(data[i].faculties[j].departments, (d: Department) => d.shortName == departmentName);
    assert fd == None;
  }

  /** The cell at `[week][day][pair][group]`, read by optional chaining. */
  function Read(s: Schedule, week: int, day: int, pair: int, group: string): Option<ScheduleCell> {
    if week in s && day in s[week] && pair in s[week][day] && group in s[week][day][pair]
    then Some(s[week][day][pair][group])
    else None
  }

  function WeekOf(s: Schedule, week: int): map<int, map<int, map<string, ScheduleCell>>> {
    if week in s then s[week] else map[]
  }

  function DayOf(w: map<int, map<int, map<string, ScheduleCell>>>, day: int): map<int, map<string, ScheduleCell>> {
    if day in w then w[day] else map[]
  }

  function PairOf(d: map<int, map<string, ScheduleCell>>, pair: int): map<string, ScheduleCell> {
    if pair in d then d[pair] else map[]
  }

  /** The `setSchedule` updater of `handleAddSchedule`: writes one leaf, creating
      the missing levels on its path, and spreads every sibling back in. */
  function Put(s: Schedule, week: int, day: int, pair: int, group: string, cell: ScheduleCell): (r: Schedule)
    ensures Read(r, week, day, pair, group) == Some(cell)
    ensures forall w, d, p, g :: (w, d, p, g) != (week, day, pair, group) ==>
      Read(r, w, d, p, g) == Read(s, w, d, p, g)
    ensures r.Keys == s.Keys + {week}
    ensures r[week].Keys == WeekOf(s, week).Keys + {day}
    ensures r[week][day].Keys == DayOf(WeekOf(s, week), day).Keys + {pair}
    ensures r[week][day][pair].Keys == PairOf(DayOf(WeekOf(s, week), day), pair).Keys + {group}
  {
    var w := WeekOf(s, week);
    var d := DayOf(w, day);
    var p := PairOf(d, pair);
    s[week := w[day := d[pair := p[group := cell]]]]
  }

  /** Writing one cell and reading it back elsewhere, or writing twice to the same
      cell, behave like a map of cells: the later write wins and other cells are
      untouched. */
  lemma PutPut(s: Schedule, week: int, day: int, pair: int, group: string, c1: ScheduleCell, c2: ScheduleCell)
    ensures forall w, d, p, g :: Read(Put(Put(s, week, day, pair, group, c1), week, day, pair, group, c2), w, d, p, g) ==
                                 Read(Put(s, week, day, pair, group, c2), w, d, p, g)
  {
  }

  /** The curricula the insert form offers for the chosen group. */
  function OfferedCurricula(curricula: seq<CurriculumLine>, selectedGroup: string): (r: seq<CurriculumLine>)
    ensures forall c :: c in r <==> c in curricula && selectedGroup in c.groups
  {
    Filter(curricula, (c: CurriculumLine) => selectedGroup in c.groups)
  }

  /** The cell the updater writes: the chosen type, the subject of the chosen
      curriculum line and the number of the chosen room when they are found, and
      a fixed teacher name. */
  function NewCell(
    curricula: seq<CurriculumLine>, classrooms: seq<Classroom>, selectedType: LessonType,
    selectedCurriculum: int, selectedClassroom: int): (c: ScheduleCell)
    ensures c.lessonType == selectedType && c.teachers == FixedTeachers
    ensures c.subject.Some? <==> exists l :: l in curricula && l.id == selectedCurriculum
    ensures c.subject.Some? ==> exists l :: l in curricula && l.id == selectedCurriculum && l.subject == c.subject.value
    ensures c.classroom.Some? <==> exists k :: k in classrooms && k.id == selectedClassroom
    ensures c.classroom.Some? ==> exists k :: k in classrooms && k.id == selectedClassroom && k.number == c.classroom.value
  {
    var line := Find(curricula, (l: CurriculumLine) => l.id == selectedCurriculum);
    var room := Find(classrooms, (k: Classroom) => k.id == selectedClassroom);
    ScheduleCell(
      selectedType,
      if line.Some? then Some(line.value.subject) else None,
      FixedTeachers,
      if room.Some? then Some(room.value.number) else None)
  }

  const FixedTeachers: string := "Иванова Т.П."

  /** The component's state: the selection props it sets, the schedule prop and
      its own modal and form state, held as one record. */
  datatype ScheduleState = ScheduleState(
    activeUniversity: Option<string>, activeFaculty: Option<string>, activeDepartment: Option<string>,
    groups: seq<Group>, currentWeek: int, schedule: Schedule,
    isModalOpen: bool, currentDay: int, currentPair: int,
    selectedClassroom: int, selectedType: LessonType, selectedCurriculum: int, selectedGroup: string)

  /** The timetable tab over its props and own state. */
  class ScheduleView {
    var state: ScheduleState

    /** Mounting with the given props: the component's own state starts at its
        `useState` defaults. */
    constructor(
      activeUniversity: Option<string>, activeFaculty: Option<string>, activeDepartment: Option<string>,
      groups: seq<Group>, currentWeek: int, schedule: Schedule)
      ensures state == ScheduleState(activeUniversity, activeFaculty, activeDepartment, groups,
                                     currentWeek, schedule, false, 1, 1, 0, Lab, 0, "")
    {
      state := ScheduleState(activeUniversity, activeFaculty, activeDepartment, groups,
                             currentWeek, schedule, false, 1, 1, 0, Lab, 0, "");
    }

    /** `handleTabClick`: choosing a university clears faculty and department. */
    method HandleTabClick(university: string)
      modifies this
      ensures state == old(state).(activeUniversity := Some(university), activeFaculty := None,
                                   activeDepartment := None)
    {
      state := state.(activeUniversity := Some(university), activeFaculty := None, activeDepartment := None);
    }

    /** `handleSecondTabClick`: choosing a faculty clears the department. */
    method HandleSecondTabClick(faculty: string)
      modifies this
      ensures state == old(state).(activeFaculty := Some(faculty), activeDepartment := None)
    {
      state := state.(activeFaculty := Some(faculty), activeDepartment := None);
    }

    /** `handleThirdTabClick`: choosing a department tab (or `'all'`) shows its
        groups as columns. */
    method HandleThirdTabClick(data: seq<University>, department: string)
      modifies this
      ensures state == old(state).(
        activeDepartment := Some(department),
        groups := GroupsForActiveDepartment(data, old(state.activeUniversity), old(state.activeFaculty), department))
    {
      state := state.(
        activeDepartment := Some(department),
        groups := GroupsForActiveDepartment(data, state.activeUniversity, state.activeFaculty, department));
    }

    /** One of the two week buttons. */
    method SetCurrentWeek(week: int)
      requires week == 1 || week == 2
      modifies this
      ensures state == old(state).(currentWeek := week)
    {
      state := state.(currentWeek := week);
    }

    /** The "+" button of an empty cell in column `group` of a row whose day
        and pair numbers the render computed (`DayNumber`, `PairNumber`): it
        exists only where the current week has no cell, and opens the form for
        that day, pair and group. */
    method OpenInsert(dayNumber: int, pairNumber: int, group: Group)
      requires Read(state.schedule, state.currentWeek, dayNumber, pairNumber, group.name).None?
      modifies this
      ensures state == old(state).(isModalOpen := true, currentDay := dayNumber,
                                   currentPair := pairNumber, selectedGroup := group.name)
    {
      state := state.(isModalOpen := true, currentDay := dayNumber, currentPair := pairNumber,
                      selectedGroup := group.name);
    }

    /** The room select of the form. */
    method SelectClassroom(id: int)
      modifies this
      ensures state == old(state).(selectedClassroom := id)
    {
      state := state.(selectedClassroom := id);
    }

    /** The curriculum select of the form, offering `OfferedCurricula`. */
    method SelectCurriculum(id: int)
      modifies this
      ensures state == old(state).(selectedCurriculum := id)
    {
      state := state.(selectedCurriculum := id);
    }

    /** The lesson-type select of the form. */
    method SelectType(t: LessonType)
      modifies this
      ensures state == old(state).(selectedType := t)
    {
      state := state.(selectedType := t);
    }

    /** The cancel button closes the form and keeps its selections. */
    method CloseModal()
      modifies this
      ensures state == old(state).(isModalOpen := false)
    {
      state := state.(isModalOpen := false);
    }

    /** `handleAddSchedule`, enabled once a room and a curriculum line are
        chosen. The store changes only once `addScheduleLesson` resolves: then
        the one cell is written and the form closes; a rejected call changes
        nothing. */
    method HandleAddSchedule(curricula: seq<CurriculumLine>, classrooms: seq<Classroom>, call: Remote<()>)
      requires state.selectedClassroom != 0 && state.selectedCurriculum != 0
      modifies this
      ensures call.Rejected? ==> state == old(state)
      ensures call.Resolved? ==>
        state == old(state).(
          schedule := Put(old(state.schedule), old(state.currentWeek), old(state.currentDay),
                          old(state.currentPair), old(state.selectedGroup),
                          NewCell(curricula, classrooms, old(state.selectedType),
                                  old(state.selectedCurriculum), old(state.selectedClassroom))),
          isModalOpen := false)
    {
      if call.Rejected? {
        return;
      }
      var cell := NewCell(curricula, classrooms, state.selectedType, state.selectedCurriculum,
                          state.selectedClassroom);
      state := state.(
        schedule := Put(state.schedule, state.currentWeek, state.currentDay, state.currentPair,
                        state.selectedGroup, cell),
        isModalOpen := false);
    }
  }
}
