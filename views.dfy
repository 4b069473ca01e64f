/** The read side of the backend's database class (backend/db/sql_db.py): the
    joins behind `get_subjects`, `get_flows`, `get_curriculum`, `get_schedule`
    and `get_university_data`. A join with a table looks a row up by its primary
    key, so it finds at most one row; rows come back in table order. */
module Views {
  import opened Wrappers
  import opened Seqs
  import opened Tables

  /* ---------------- get_subjects ---------------- */

  datatype SubjectsData = SubjectsData(id: int, name: string, shortName: string)

  /** `get_subjects`: every subject, in table order, with its id and both names. */
  function GetSubjects(t: Tables): (r: seq<SubjectsData>)
    ensures |r| == |t.subjects|
    ensures forall i :: 0 <= i < |r| ==>
      r[i] == SubjectsData(t.subjects[i].id, t.subjects[i].name, t.subjects[i].shortName)
  {
    Map(t.subjects, (s: Subject) => SubjectsData(s.id, s.name, s.shortName))
  }

  /* ---------------- flow groups ---------------- */

  /** The names of the groups linked to `flow`, in link order: the join of the
      link table with the group table, restricted to one flow. */
  function FlowGroupNames(t: Tables, flow: int): (r: seq<string>)
    ensures forall n :: n in r <==>
      exists i, j :: 0 <= i < |t.links| && 0 <= j < |t.groups| &&
        t.links[i].flowId == flow && t.groups[j].id == t.links[i].groupId && t.groups[j].name == n
  {
    var r := FlatMap(t.links, (l: FlowGroupLink) => LinkedNames(t.groups, flow, l));
    forall n ensures n in r <==>
      exists i, j :: 0 <= i < |t.links| && 0 <= j < |t.groups| &&
        t.links[i].flowId == flow && t.groups[j].id == t.links[i].groupId && t.groups[j].name == n
    {
      if n in r {
        var i :| 0 <= i < |t.links| && n in LinkedNames(t.groups, flow, t.links[i]);
        var j :| 0 <= j < |t.groups| && t.links[i].flowId == flow && t.groups[j].id == t.links[i].groupId &&
                 t.groups[j].name == n;
      }
      if exists i, j :: 0 <= i < |t.links| && 0 <= j < |t.groups| &&
           t.links[i].flowId == flow && t.groups[j].id == t.links[i].groupId && t.groups[j].name == n {
        var i, j :| 0 <= i < |t.links| && 0 <= j < |t.groups| &&
          t.links[i].flowId == flow && t.groups[j].id == t.links[i].groupId && t.groups[j].name == n;
        assert n in LinkedNames(t.groups, flow, t.links[i]);
      }
    }
    r
  }

  /** The names of the groups one link row joins with, when it belongs to `flow`. */
  function LinkedNames(groups: seq<Group>, flow: int, l: FlowGroupLink): (r: seq<string>)
    ensures forall n :: n in r <==>
      l.flowId == flow && exists j :: 0 <= j < |groups| && groups[j].id == l.groupId && groups[j].name == n
  {
    if l.flowId != flow then []
    else
      var joined := Filter(groups, (g: Group) => g.id == l.groupId);
      var r := Map(joined, GroupName);
      forall n ensures n in r <==> exists j :: 0 <= j < |groups| && groups[j].id == l.groupId && groups[j].name == n {
        if n in r {
          var k :| 0 <= k < |r| && r[k] == n;
          assert joined[k] in groups;
        }
        if exists j :: 0 <= j < |groups| && groups[j].id == l.groupId && groups[j].name == n {
          var j :| 0 <= j < |groups| && groups[j].id == l.groupId && groups[j].name == n;
          assert groups[j] in joined;
          var k :| 0 <= k < |joined| && joined[k] == groups[j];
          assert r[k] == n;
        }
      }
      r
  }

  /* ---------------- get_flows ---------------- */

  datatype FlowsData = FlowsData(id: int, groups: seq<string>)

  /** The flow id of every row of the join flow -> link -> group, in link order. */
  function JoinedFlowIds(t: Tables): seq<int> {
    FlatMap(t.links, LinkBlock(t))
  }

  /** `get_flows`: one entry per flow that the join reaches, in the order the
      join first reaches it, with the names of its groups. A flow without any
      linked group does not appear. */
  function GetFlows(t: Tables): (r: seq<FlowsData>)
    ensures forall i :: 0 <= i < |r| ==> r[i].groups == FlowGroupNames(t, r[i].id)
  {
    Map(Dedupe(JoinedFlowIds(t)), (f: int) => FlowsData(f, FlowGroupNames(t, f)))
  }

  function LinkBlock(t: Tables): FlowGroupLink -> seq<int> {
    (l: FlowGroupLink) =>
      if HasKey(t.flows, FlowKey, l.flowId) && HasKey(t.groups, GroupId, l.groupId) then [l.flowId] else []
  }

  /** The ids `get_flows` lists are the deduplicated joined flow ids. */
  lemma GetFlowsIds(t: Tables)
    ensures |GetFlows(t)| == |Dedupe(JoinedFlowIds(t))|
    ensures forall i :: 0 <= i < |GetFlows(t)| ==> GetFlows(t)[i].id == Dedupe(JoinedFlowIds(t))[i]
  {
  }

  /** A flow id is joined iff the flow exists and some link joins it with an
      existing group. */
  lemma JoinedFlowIdsMembers(t: Tables, f: int)
    ensures f in JoinedFlowIds(t) <==>
      HasKey(t.flows, FlowKey, f) &&
      exists k :: 0 <= k < |t.links| && t.links[k].flowId == f && HasKey(t.groups, GroupId, t.links[k].groupId)
  {
    if f in JoinedFlowIds(t) {
      var k :| 0 <= k < |t.links| && f in LinkBlock(t)(t.links[k]);
    }
    if HasKey(t.flows, FlowKey, f) &&
       exists k :: 0 <= k < |t.links| && t.links[k].flowId == f && HasKey(t.groups, GroupId, t.links[k].groupId) {
      var k :| 0 <= k < |t.links| && t.links[k].flowId == f && HasKey(t.groups, GroupId, t.links[k].groupId);
      assert f in LinkBlock(t)(t.links[k]);
    }
  }

  /** A flow is listed by `get_flows` iff it exists and some link joins it with
      an existing group. */
  lemma GetFlowsListsLinkedFlows(t: Tables, f: int)
    ensures (exists i :: 0 <= i < |GetFlows(t)| && GetFlows(t)[i].id == f) <==>
      HasKey(t.flows, FlowKey, f) &&
      exists k :: 0 <= k < |t.links| && t.links[k].flowId == f && HasKey(t.groups, GroupId, t.links[k].groupId)
  {
    var ids := Dedupe(JoinedFlowIds(t));
    GetFlowsIds(t);
    JoinedFlowIdsMembers(t, f);
    if f in ids {
      var i :| 0 <= i < |ids| && ids[i] == f;
      assert GetFlows(t)[i].id == f;
    }
  }

  /** `get_flows` lists no flow twice. */
  lemma GetFlowsDistinct(t: Tables)
    ensures forall i, j :: 0 <= i < j < |GetFlows(t)| ==> GetFlows(t)[i].id != GetFlows(t)[j].id
  {
    var ids := Dedupe(JoinedFlowIds(t));
    assert forall i :: 0 <= i < |GetFlows(t)| ==> GetFlows(t)[i].id == ids[i];
  }

  /** Every flow `get_flows` lists has at least one group. */
  lemma GetFlowsNonEmpty(t: Tables)
    ensures forall i :: 0 <= i < |GetFlows(t)| ==> |GetFlows(t)[i].groups| > 0
  {
    var ids := Dedupe(JoinedFlowIds(t));
    var r := GetFlows(t);
    GetFlowsIds(t);
    forall i | 0 <= i < |r| ensures |r[i].groups| > 0 {
      assert r[i].id == ids[i] && ids[i] in JoinedFlowIds(t);
      JoinedFlowHasGroup(t, ids[i]);
    }
  }

  /** A flow the join reaches has the name of a group to list. */
  lemma JoinedFlowHasGroup(t: Tables, f: int)
    requires f in JoinedFlowIds(t)
    ensures |FlowGroupNames(t, f)| > 0
  {
    JoinedFlowIdsMembers(t, f);
    var k :| 0 <= k < |t.links| && t.links[k].flowId == f && HasKey(t.groups, GroupId, t.links[k].groupId);
    var j :| 0 <= j < |t.groups| && t.groups[j].id == t.links[k].groupId;
    assert t.groups[j].name in FlowGroupNames(t, f);
  }

  /* ---------------- get_curriculum ---------------- */

  datatype CurriculumData = CurriculumData(
    id: int, subject: string, groups: seq<string>, hours: int,
    primaryTeacher: string, secondaryTeacher: Option<string>)

  /** An outer join on a nullable id: the row it names, if any. */
  function TeacherAt(t: Tables, id: Option<int>): (r: Option<Teacher>)
    ensures r.Some? ==> id.Some? && r.value in t.teachers && r.value.id == id.value
    ensures r.None? <==> id.None? || !HasKey(t.teachers, TeacherId, id.value)
  {
    if id.None? then None else FindBy(t.teachers, TeacherId, id.value)
  }

  function GroupAt(t: Tables, id: Option<int>): (r: Option<Group>)
    ensures r.Some? ==> id.Some? && r.value in t.groups && r.value.id == id.value
    ensures r.None? <==> id.None? || !HasKey(t.groups, GroupId, id.value)
  {
    if id.None? then None else FindBy(t.groups, GroupId, id.value)
  }

  /** The row `get_curriculum` makes of one entry; `None` when the inner joins
      with the subject and the primary teacher find nothing. The groups are the
      entry's group when the joined group name is non-empty, else those of a
      truthy, existing flow, else none. */
  function CurriculumRow(t: Tables, c: Curriculum): (r: Option<CurriculumData>)
    ensures r.None? <==> !HasKey(t.subjects, SubjectId, c.subjectId) || !HasKey(t.teachers, TeacherId, c.primaryTeacherId)
    ensures r.Some? ==>
      r.value.id == c.id && r.value.hours == c.hours &&
      (exists s :: s in t.subjects && s.id == c.subjectId && r.value.subject == s.shortName) &&
      (exists p :: p in t.teachers && p.id == c.primaryTeacherId && r.value.primaryTeacher == p.fullName) &&
      r.value.secondaryTeacher == (if TeacherAt(t, c.secondaryTeacherId).Some?
                                   then Some(TeacherAt(t, c.secondaryTeacherId).value.fullName) else None)
  {
    match (FindBy(t.subjects, SubjectId, c.subjectId), FindBy(t.teachers, TeacherId, c.primaryTeacherId))
    case (Some(s), Some(p)) =>
      var second := TeacherAt(t, c.secondaryTeacherId);
      var group := GroupAt(t, c.groupId);
      var flow := if c.flowId.Some? && HasKey(t.flows, FlowKey, c.flowId.value) then c.flowId else None;
      var groups :=
        if group.Some? && group.value.name != "" then [group.value.name]
        else if flow.Some? && flow.value != 0 then FlowGroupNames(t, flow.value)
        else [];
      Some(CurriculumData(c.id, s.shortName, groups, c.hours, p.fullName,
                          if second.Some? then Some(second.value.fullName) else None))
    case _ => None
  }

  function RowBlock(t: Tables): Curriculum -> seq<CurriculumData> {
    (c: Curriculum) => if CurriculumRow(t, c).Some? then [CurriculumRow(t, c).value] else []
  }

  /** `get_curriculum`: the rows of the entries the inner joins keep, in table order. */
  function GetCurriculum(t: Tables): seq<CurriculumData> {
    FlatMap(t.curricula, RowBlock(t))
  }

  /** In a valid database every entry yields exactly one row, in table order. */
  lemma GetCurriculumListsEveryEntry(t: Tables)
    requires Valid(t)
    ensures |GetCurriculum(t)| == |t.curricula|
    ensures forall i :: 0 <= i < |t.curricula| ==> Some(GetCurriculum(t)[i]) == CurriculumRow(t, t.curricula[i])
  {
    forall i | 0 <= i < |t.curricula| ensures |RowBlock(t)(t.curricula[i])| == 1 {
      assert HasKey(t.subjects, SubjectId, t.curricula[i].subjectId);
      assert HasKey(t.teachers, TeacherId, t.curricula[i].primaryTeacherId);
    }
    FlatMapBlocks(t.curricula, RowBlock(t), 1);
    forall i | 0 <= i < |t.curricula| ensures Some(GetCurriculum(t)[i]) == CurriculumRow(t, t.curricula[i]) {
      assert InBlock(t.curricula, RowBlock(t), 1, i);
      assert i / 1 == i && i % 1 == 0;
    }
  }

  /** In a valid database an entry for a group lists that group's name (none if
      the name is empty), and an entry for a flow lists the flow's groups. */
  lemma CurriculumGroupsResolved(t: Tables, c: Curriculum)
    requires Valid(t) && c in t.curricula
    ensures CurriculumRow(t, c).Some?
    ensures Truthy(c.groupId) ==>
      exists g :: g in t.groups && g.id == c.groupId.value &&
        CurriculumRow(t, c).value.groups == (if g.name != "" then [g.name] else [])
    ensures Truthy(c.flowId) ==> CurriculumRow(t, c).value.groups == FlowGroupNames(t, c.flowId.value)
  {
    var i :| 0 <= i < |t.curricula| && t.curricula[i] == c;
    assert HasKey(t.subjects, SubjectId, c.subjectId) && HasKey(t.teachers, TeacherId, c.primaryTeacherId);
    assert Truthy(c.groupId) != Truthy(c.flowId);
    assert Truthy(c.groupId) ==> HasKey(t.groups, GroupId, c.groupId.value);
    assert Truthy(c.flowId) ==> HasKey(t.flows, FlowKey, c.flowId.value);
    assert PositiveKeys(t.groups, GroupId);
    ResolvedRowGroups(t, c);
  }

  /** The groups of a row whose references resolve. */
  lemma ResolvedRowGroups(t: Tables, c: Curriculum)
    requires HasKey(t.subjects, SubjectId, c.subjectId) && HasKey(t.teachers, TeacherId, c.primaryTeacherId)
    requires Truthy(c.groupId) != Truthy(c.flowId) && PositiveKeys(t.groups, GroupId)
    requires Truthy(c.groupId) ==> HasKey(t.groups, GroupId, c.groupId.value)
    requires Truthy(c.flowId) ==> HasKey(t.flows, FlowKey, c.flowId.value)
    ensures CurriculumRow(t, c).Some?
    ensures Truthy(c.groupId) ==>
      exists g :: g in t.groups && g.id == c.groupId.value &&
        CurriculumRow(t, c).value.groups == (if g.name != "" then [g.name] else [])
    ensures Truthy(c.flowId) ==> CurriculumRow(t, c).value.groups == FlowGroupNames(t, c.flowId.value)
  {
    if Truthy(c.flowId) {
      assert GroupAt(t, c.groupId).None?;
    }
  }

  /* ---------------- get_schedule ---------------- */

  /** `ScheduleCellData`: the cell carries no lesson id (the model drops it). */
  datatype Cell = Cell(lessonType: LessonType, subject: string, teachers: string, classroom: string)

  /** `ScheduleData.data`: week -> day -> pair -> group name -> cell. */
  type Grid = map<int, map<int, map<int, map<string, Cell>>>>

  /** Where one lesson goes: the groups it is written under and its cell. */
  datatype Placement = Placement(week: int, day: int, pair: int, groups: seq<string>, cell: Cell)

  /** The grid has exactly the weeks 1..2, the days 1..6 and the pairs 1..8. */
  ghost predicate Shaped(g: Grid) {
    (forall w :: w in g <==> 1 <= w <= 2) &&
    (forall w, d :: w in g ==> (d in g[w] <==> 1 <= d <= 6)) &&
    (forall w, d, p :: w in g && d in g[w] ==> (p in g[w][d] <==> 1 <= p <= 8))
  }

  /** One pre-created day: the pairs 1..8, each empty. */
  function EmptyDay(): (day: map<int, map<string, Cell>>)
    ensures forall p :: p in day <==> 1 <= p <= 8
    ensures forall p :: p in day ==> day[p] == map[]
  {
    map[1 := map[], 2 := map[], 3 := map[], 4 := map[], 5 := map[], 6 := map[], 7 := map[], 8 := map[]]
  }

  /** One pre-created week: the days 1..6, each an empty day. */
  function EmptyWeek(): (week: map<int, map<int, map<string, Cell>>>)
    ensures forall d :: d in week <==> 1 <= d <= 6
    ensures forall d :: d in week ==> week[d] == EmptyDay()
  {
    var day := EmptyDay();
    map[1 := day, 2 := day, 3 := day, 4 := day, 5 := day, 6 := day]
  }

  /** The pre-created grid: every slot present and empty. */
  function EmptyGrid(): (g: Grid)
    ensures Shaped(g)
    ensures forall w, d, p :: InGrid(w, d, p) ==> g[w][d][p] == map[]
  {
    var week := EmptyWeek();
    var g := map[1 := week, 2 := week];
    assert forall w :: w in g ==> g[w] == week;
    g
  }

  /** The cell at a slot for a group, if any. */
  function Read(g: Grid, w: int, d: int, p: int, name: string): Option<Cell> {
    if w in g && d in g[w] && p in g[w][d] && name in g[w][d][p] then Some(g[w][d][p][name]) else None
  }

  /** The teacher text: the primary's name, then ", " and the second teacher's
      name when the outer join finds one. */
  function TeachersText(primary: Teacher, second: Option<Teacher>): (r: string)
    ensures second.None? ==> r == primary.fullName
    ensures second.Some? ==> r == primary.fullName + ", " + second.value.fullName
  {
    if second.Some? then primary.fullName + ", " + second.value.fullName else primary.fullName
  }

  /** The placement of one lesson; `None` when an inner join (curriculum entry,
      subject, room, primary teacher) finds nothing. The groups are the entry's
      group when its id is truthy and the group exists, else the groups of a
      truthy flow, else none. */
  function PlacementOf(t: Tables, l: Lesson): (r: Option<Placement>)
    ensures r.Some? ==> r.value.week == l.week && r.value.day == l.day && r.value.pair == l.pair
    ensures r.Some? ==> r.value.cell.lessonType == l.lessonType
    ensures r.Some? <==>
      FindBy(t.curricula, CurriculumId, l.curriculumId).Some? &&
      HasKey(t.subjects, SubjectId, FindBy(t.curricula, CurriculumId, l.curriculumId).value.subjectId) &&
      HasKey(t.classrooms, ClassroomId, l.classroomId) &&
      HasKey(t.teachers, TeacherId, FindBy(t.curricula, CurriculumId, l.curriculumId).value.primaryTeacherId)
    ensures r.Some? ==>
      exists c, s, room, p :: c in t.curricula && c.id == l.curriculumId &&
        s in t.subjects && s.id == c.subjectId && room in t.classrooms && room.id == l.classroomId &&
        p in t.teachers && p.id == c.primaryTeacherId &&
        r.value.cell == Cell(l.lessonType, s.name, TeachersText(p, TeacherAt(t, c.secondaryTeacherId)), room.name) &&
        r.value.groups == LessonGroups(t, c)
  {
    match FindBy(t.curricula, CurriculumId, l.curriculumId)
    case None => None
    case Some(c) =>
      match (FindBy(t.subjects, SubjectId, c.subjectId), FindBy(t.classrooms, ClassroomId, l.classroomId),
             FindBy(t.teachers, TeacherId, c.primaryTeacherId))
      case (Some(s), Some(room), Some(p)) =>
        var cell := Cell(l.lessonType, s.name, TeachersText(p, TeacherAt(t, c.secondaryTeacherId)), room.name);
        Some(Placement(l.week, l.day, l.pair, LessonGroups(t, c), cell))
      case _ => None
  }

  /** The groups one lesson is written under. */
  function LessonGroups(t: Tables, c: Curriculum): (r: seq<string>)
    ensures Truthy(c.groupId) && GroupAt(t, c.groupId).Some? ==> r == [GroupAt(t, c.groupId).value.name]
    ensures !(Truthy(c.groupId) && GroupAt(t, c.groupId).Some?) && Truthy(c.flowId) ==>
      r == FlowGroupNames(t, c.flowId.value)
    ensures !(Truthy(c.groupId) && GroupAt(t, c.groupId).Some?) && !Truthy(c.flowId) ==> r == []
  {
    if Truthy(c.groupId) && GroupAt(t, c.groupId).Some? then [GroupAt(t, c.groupId).value.name]
    else if Truthy(c.flowId) then FlowGroupNames(t, c.flowId.value)
    else []
  }

  /** Writing a cell under each of `names`, one after the other. */
  function WriteGroups(m: map<string, Cell>, names: seq<string>, cell: Cell): (r: map<string, Cell>)
    ensures r.Keys == m.Keys + set n | n in names
    ensures forall n :: n in r ==> r[n] == if n in names then cell else m[n]
  {
    if |names| == 0 then m else WriteGroups(m, names[..|names| - 1], cell)[names[|names| - 1] := cell]
  }

  /** One lesson written into the grid: `None` (a `KeyError`) when it has groups
      and its slot is not in the grid. */
  function Write(g: Grid, pl: Placement): (r: Option<Grid>)
    requires Shaped(g)
    ensures r.None? <==> |pl.groups| > 0 && !InGrid(pl.week, pl.day, pl.pair)
    ensures r.Some? ==> Shaped(r.value)
  {
    if |pl.groups| == 0 then Some(g)
    else if !InGrid(pl.week, pl.day, pl.pair) then None
    else
      var w, d, p := pl.week, pl.day, pl.pair;
      Some(g[w := g[w][d := g[w][d][p := WriteGroups(g[w][d][p], pl.groups, pl.cell)]]])
  }

  /** `get_schedule` over the lessons `ls`, in order; `None` when one of them
      raises. */
  function Fill(t: Tables, ls: seq<Lesson>): (r: Option<Grid>)
    ensures r.Some? ==> Shaped(r.value)
    decreases |ls|
  {
    if |ls| == 0 then Some(EmptyGrid())
    else
      match Fill(t, ls[..|ls| - 1])
      case None => None
      case Some(g) =>
        match PlacementOf(t, ls[|ls| - 1])
        case None => Some(g)
        case Some(pl) => Write(g, pl)
  }

  /** The cell the last lesson written at that slot for that group carries. */
  function LastCell(t: Tables, ls: seq<Lesson>, w: int, d: int, p: int, name: string): Option<Cell>
    decreases |ls|
  {
    if |ls| == 0 then None
    else
      var pl := PlacementOf(t, ls[|ls| - 1]);
      if pl.Some? && pl.value.week == w && pl.value.day == d && pl.value.pair == p && name in pl.value.groups
      then Some(pl.value.cell)
      else LastCell(t, ls[..|ls| - 1], w, d, p, name)
  }

  /** One more lesson: `Fill` of a longer prefix in terms of the shorter one. */
  lemma FillStep(t: Tables, ls: seq<Lesson>, i: int)
    requires 0 <= i < |ls|
    ensures Fill(t, ls[..i + 1]) ==
      match Fill(t, ls[..i])
      case None => None
      case Some(g) => if PlacementOf(t, ls[i]).None? then Some(g) else Write(g, PlacementOf(t, ls[i]).value)
  {
    assert ls[..i + 1][..i] == ls[..i];
  }

  /** Once a lesson raises, the whole call raises. */
  lemma {:induction false} FillFailureStays(t: Tables, ls: seq<Lesson>, k: int)
    requires 0 <= k <= |ls| && Fill(t, ls[..k]).None?
    ensures Fill(t, ls).None?
    decreases |ls| - k
  {
    if k < |ls| {
      assert ls[..k + 1][..k] == ls[..k];
      FillFailureStays(t, ls, k + 1);
    } else {
      assert ls[..k] == ls;
    }
  }

  /** Writing one placement sets its groups' cells at its slot and leaves every
      other cell as it was. */
  lemma WriteReads(g: Grid, pl: Placement, w: int, d: int, p: int, name: string)
    requires Shaped(g) && Write(g, pl).Some?
    ensures Read(Write(g, pl).value, w, d, p, name) ==
      if pl.week == w && pl.day == d && pl.pair == p && name in pl.groups then Some(pl.cell) else Read(g, w, d, p, name)
  {
  }

  /** Each slot of the result holds, for a group, the cell of the last lesson
      placed there for it, and nothing if there is none. */
  lemma {:induction false} FillReadsLastCell(t: Tables, ls: seq<Lesson>, w: int, d: int, p: int, name: string)
    requires Fill(t, ls).Some?
    ensures Read(Fill(t, ls).value, w, d, p, name) == LastCell(t, ls, w, d, p, name)
    decreases |ls|
  {
    if |ls| == 0 {
      assert InGrid(w, d, p) ==> EmptyGrid()[w][d][p] == map[];
    } else {
      var init := ls[..|ls| - 1];
      FillReadsLastCell(t, init, w, d, p, name);
      var g := Fill(t, init).value;
      var pl := PlacementOf(t, ls[|ls| - 1]);
      if pl.Some? {
        WriteReads(g, pl.value, w, d, p, name);
      }
    }
  }

  /** Lessons inside the grid never raise. */
  lemma {:induction false} FillSucceedsInGrid(t: Tables, ls: seq<Lesson>)
    requires LessonsInGrid(ls)
    ensures Fill(t, ls).Some?
    decreases |ls|
  {
    if |ls| > 0 {
      var init := ls[..|ls| - 1];
      assert LessonsInGrid(init) by {
        forall i | 0 <= i < |init| ensures InGrid(init[i].week, init[i].day, init[i].pair) {
          assert init[i] == ls[i];
        }
      }
      FillSucceedsInGrid(t, init);
    }
  }

  /** `get_schedule` on a valid database succeeds, and its grid has exactly the 96
      slots of two weeks. */
  lemma ScheduleOfValidDatabase(t: Tables)
    requires Valid(t)
    ensures Fill(t, t.lessons).Some? && Shaped(Fill(t, t.lessons).value)
  {
    FillSucceedsInGrid(t, t.lessons);
  }

  /* ---------------- get_university_data ---------------- */

  datatype GroupData = GroupData(id: int, name: string, course: string, studentsCount: int)
  datatype SpecialityData = SpecialityData(id: int, name: string, groups: seq<GroupData>)
  datatype LecturerData = LecturerData(id: int, fullName: string)
  datatype ClassroomData = ClassroomData(id: int, number: string, capacity: int)
  datatype DepartmentData = DepartmentData(
    id: int, name: string, shortName: Option<string>, specialities: seq<SpecialityData>,
    lecturers: seq<LecturerData>, classrooms: seq<ClassroomData>)
  datatype FacultyData = FacultyData(id: int, name: string, departments: seq<DepartmentData>, classrooms: seq<ClassroomData>)
  datatype UniversityData = UniversityData(id: int, name: string, faculties: seq<FacultyData>)

  /** `children_map[parent]`: the divisions under `parent`, in table order. */
  function Children(t: Tables, parent: Option<int>): (r: seq<Division>)
    ensures forall d :: d in r <==> d in t.divisions && d.parentId == parent
  {
    Filter(t.divisions, (d: Division) => d.parentId == parent)
  }

  function RoomData(c: Classroom): ClassroomData {
    ClassroomData(c.id, c.name, c.capacity)
  }

  /** `classrooms_by_dept[department]`: the rooms whose department id is truthy
      and names it. */
  function DepartmentRooms(t: Tables, department: int): (r: seq<Classroom>)
    ensures forall c :: c in r <==> c in t.classrooms && Truthy(c.departmentId) && c.departmentId.value == department
  {
    Filter(t.classrooms, (c: Classroom) => Truthy(c.departmentId) && c.departmentId.value == department)
  }

  /** `classrooms_by_faculty[faculty]`: the rooms with a falsy department id. */
  function FacultyRooms(t: Tables, faculty: int): (r: seq<Classroom>)
    ensures forall c :: c in r <==> c in t.classrooms && !Truthy(c.departmentId) && c.facultyId == faculty
  {
    Filter(t.classrooms, (c: Classroom) => !Truthy(c.departmentId) && c.facultyId == faculty)
  }

  function SpecialityOf(t: Tables, s: Specialty): SpecialityData {
    SpecialityData(s.id, s.name,
      Map(Filter(t.groups, (g: Group) => g.specialtyId == s.id),
          (g: Group) => GroupData(g.id, g.name, g.course, g.studentCount)))
  }

  function DepartmentOf(t: Tables, d: Division): DepartmentData {
    DepartmentData(d.id, d.name, d.shortName,
      Map(Filter(t.specialties, (s: Specialty) => s.departmentId == d.id), (s: Specialty) => SpecialityOf(t, s)),
      Map(Filter(t.teachers, (x: Teacher) => x.departmentId == d.id), (x: Teacher) => LecturerData(x.id, x.fullName)),
      Map(DepartmentRooms(t, d.id), RoomData))
  }

  function FacultyOf(t: Tables, f: Division): FacultyData {
    FacultyData(f.id, f.name, Map(Children(t, Some(f.id)), (d: Division) => DepartmentOf(t, d)),
                Map(FacultyRooms(t, f.id), RoomData))
  }

  /** The entry of one university: its faculties, each with its departments. */
  function UniversityOf(t: Tables, u: Division): (r: UniversityData)
    ensures r.id == u.id && r.name == u.name
    ensures |r.faculties| == |Children(t, Some(u.id))|
    ensures forall i :: 0 <= i < |r.faculties| ==>
      var f := Children(t, Some(u.id))[i];
      r.faculties[i].id == f.id && |r.faculties[i].departments| == |Children(t, Some(f.id))| &&
      forall j :: 0 <= j < |r.faculties[i].departments| ==> r.faculties[i].departments[j].id == Children(t, Some(f.id))[j].id
  {
    UniversityData(u.id, u.name, Map(Children(t, Some(u.id)), (f: Division) => FacultyOf(t, f)))
  }

  /** `get_university_data`: one entry per division without a parent. */
  function UniversityTree(t: Tables): (r: seq<UniversityData>)
    ensures |r| == |Children(t, None)|
    ensures forall i :: 0 <= i < |r| ==> r[i] == UniversityOf(t, Children(t, None)[i])
  {
    Map(Children(t, None), (u: Division) => UniversityOf(t, u))
  }

  /** A room is listed under a faculty itself only when it has no department, and
      under a department only when it names that department: so with distinct
      room ids no room is listed both under a faculty and under a department. */
  lemma RoomListedOnce(t: Tables, faculty: int, department: int, id: int)
    requires DistinctKeys(t.classrooms, ClassroomId)
    ensures !((exists i :: 0 <= i < |FacultyRooms(t, faculty)| && FacultyRooms(t, faculty)[i].id == id) &&
              (exists j :: 0 <= j < |DepartmentRooms(t, department)| && DepartmentRooms(t, department)[j].id == id))
  {
  }

  /** A room with a truthy department id is among the rooms listed for the
      division with that id; a room without one is among its faculty's own
      rooms. */
  lemma RoomPlacement(t: Tables, c: Classroom, d: Division)
    requires c in t.classrooms
    ensures RoomData(c) in Map(DepartmentRooms(t, d.id), RoomData) <== Truthy(c.departmentId) && c.departmentId.value == d.id
    ensures RoomData(c) in Map(FacultyRooms(t, c.facultyId), RoomData) <== !Truthy(c.departmentId)
  {
    if Truthy(c.departmentId) && c.departmentId.value == d.id {
      var rs := DepartmentRooms(t, d.id);
      var k :| 0 <= k < |rs| && rs[k] == c;
      assert Map(rs, RoomData)[k] == RoomData(c);
    }
    if !Truthy(c.departmentId) {
      var rs := FacultyRooms(t, c.facultyId);
      var k :| 0 <= k < |rs| && rs[k] == c;
      assert Map(rs, RoomData)[k] == RoomData(c);
    }
  }
}
