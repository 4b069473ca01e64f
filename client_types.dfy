/** The client's data types (frontend/src/types.ts): the university tree as the
    backend delivers it, the flat caches, and the timetable's nested map. */
module ClientTypes {
  import opened Wrappers

  datatype Classroom = Classroom(id: int, number: string)

  /** A lecturer in the shared client tree, in one of the two shapes the code
      builds. The backend delivers `LecturerType`, `{ id, full_name }`
      (`SnakeKeyed`); the lecturers form appends `{ id, fullName }`
      (`CamelKeyed`, frontend/src/components/LecturersTable.tsx:51). Neither
      shape has the other's name property. */
  datatype Lecturer =
    | SnakeKeyed(id: int, fullName: string)
    | CamelKeyed(id: int, fullName: string)

  /** The `full_name` property, which the curriculum form reads: `undefined`
      (`None`) on a lecturer of the `{ id, fullName }` shape. */
  function FullNameProperty(l: Lecturer): Option<string> {
    if l.SnakeKeyed? then Some(l.fullName) else None
  }

  /** The `fullName` property, which the lecturers table reads: `undefined` on a
      lecturer the backend delivered. */
  function CamelNameProperty(l: Lecturer): Option<string> {
    if l.CamelKeyed? then Some(l.fullName) else None
  }

  datatype Group = Group(id: int, name: string, course: string, studentsCount: int)

  datatype Speciality = Speciality(id: int, name: string, groups: seq<Group>)

  datatype Department = Department(
    id: int, name: string, shortName: string,
    specialities: seq<Speciality>, lecturers: seq<Lecturer>, classrooms: seq<Classroom>)

  datatype Faculty = Faculty(
    id: int, name: string, departments: seq<Department>, classrooms: seq<Classroom>)

  datatype University = University(id: int, name: string, faculties: seq<Faculty>)

  datatype Subject = Subject(id: int, name: string, shortName: string)

  datatype Flow = Flow(id: int, groups: seq<string>)

  /** A curriculum line in the client's list. Lines loaded from the backend carry
      the teachers' names; lines added by the curriculum form carry the fields
      that form writes (attestation and the two lecturer names). */
  datatype CurriculumLine =
    | Fetched(id: int, subject: string, groups: seq<string>, hours: int,
              primaryTeacher: string, secondaryTeacher: Option<string>)
    | Entered(id: int, subject: string, groups: seq<string>, hours: int,
              attestation: string, lecturer: string, secondLecturer: Option<string>)

  datatype LessonType = Lecture | Lab

  /** One timetable cell. `subject` and `classroom` are `undefined` when the
      updater's lookups find nothing, hence the options. */
  datatype ScheduleCell = ScheduleCell(
    lessonType: LessonType, subject: Option<string>, teachers: string, classroom: Option<string>)

  /** `ScheduleData.data`: week -> day -> pair -> group name -> cell, every level
      sparse. */
  type Schedule = map<int, map<int, map<int, map<string, ScheduleCell>>>>

  /** A result of one of the remote API calls: the promise either resolves with a
      value or rejects. */
  datatype Remote<T> = Resolved(value: T) | Rejected

  /** JavaScript truthiness of `string | null`. */
  predicate Given(s: Option<string>) {
    s.Some? && s.value != ""
  }

  /** JavaScript truthiness of `number | null`. */
  predicate GivenId(n: Option<int>) {
    n.Some? && n.value != 0
  }

  /** A flow select's `Number(value) || null`: the placeholder option (value
      `""`, so `0`) means no flow. */
  function FlowChoice(v: int): (r: Option<int>)
    ensures r.None? <==> v == 0
    ensures r.Some? ==> r.value == v
  {
    if v == 0 then None else Some(v)
  }

  /** A second-lecturer input stores the empty text as no lecturer. */
  function SecondLecturerChoice(value: string): (r: Option<string>)
    ensures r.None? <==> value == ""
    ensures r.Some? ==> r.value == value
  {
    if value == "" then None else Some(value)
  }
}
