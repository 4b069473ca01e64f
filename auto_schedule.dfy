/** The pieces of `auto_schedule` (backend/db/sql_db.py): the busy sets seeded
    from the lessons of weeks 1 and 2, the per-entry plan of missing lessons, and
    the greedy first-fit search over week, day, pair and room. The loop that
    places lessons is `Database.SQLDatabase.AutoSchedule`. */
module AutoSchedule {
  import opened Wrappers
  import opened Seqs
  import opened Sorting
  import opened Tables

  /** A busy-set entry: (week, day, pair, id of a room, a teacher or a group). */
  type Key = (int, int, int, int)

  /* ---------------- lesson templates ---------------- */

  /** The lessons a two-week cycle holds for each accepted hour count. */
  function Template(hours: int): (r: Option<seq<LessonType>>)
    ensures r.Some? <==> hours == 72 || hours == 108 || hours == 144
    ensures r.Some? ==> |r.value| > 0 && r.value[0] == Lecture
  {
    if hours == 72 then Some([Lecture])
    else if hours == 108 then Some([Lecture, Lab])
    else if hours == 144 then Some([Lecture, Lab, Lab])
    else None
  }

  /** `sum(1 for t in template if t == x)`. */
  function Occurrences(xs: seq<LessonType>, x: LessonType): (n: nat)
    ensures n == multiset(xs)[x]
    ensures n <= |xs|
  {
    if |xs| == 0 then 0
    else
      assert xs == xs[..|xs| - 1] + [xs[|xs| - 1]];
      Occurrences(xs[..|xs| - 1], x) + (if xs[|xs| - 1] == x then 1 else 0)
  }

  /** `[x] * n`: empty for a count that is not positive. */
  function Repeat(x: LessonType, n: int): (r: seq<LessonType>)
    ensures |r| == if n > 0 then n else 0
    ensures forall i :: 0 <= i < |r| ==> r[i] == x
  {
    if n <= 0 then [] else Repeat(x, n - 1) + [x]
  }

  function Existing(lectures: int, labs: int, x: LessonType): int {
    if x == Lecture then lectures else labs
  }

  /** The lessons still to place, as `auto_schedule` computes them: for each entry of
      the template, as many copies of its type as the template requires minus
      those already scheduled. A type listed twice is visited twice. */
  function Needed(template: seq<LessonType>, lectures: int, labs: int): seq<LessonType> {
    FlatMap(template, (x: LessonType) => Repeat(x, Occurrences(template, x) - Existing(lectures, labs, x)))
  }

  lemma TemplateCounts()
    ensures Occurrences([Lecture, Lab, Lab], Lab) == 2 && Occurrences([Lecture, Lab, Lab], Lecture) == 1
    ensures Occurrences([Lecture, Lab], Lab) == 1 && Occurrences([Lecture, Lab], Lecture) == 1
    ensures Occurrences([Lecture], Lecture) == 1
  {
    assert [Lecture, Lab, Lab][..2] == [Lecture, Lab];
    assert [Lecture, Lab][..1] == [Lecture];
    assert [Lecture][..0] == [];
  }

  /** For 72 hours the plan asks for the missing lecture. */
  lemma NeededShort(lectures: int, labs: int)
    ensures Needed(Template(72).value, lectures, labs) == Repeat(Lecture, 1 - lectures)
  {
    var t1 := [Lecture];
    var f := (x: LessonType) => Repeat(x, Occurrences(t1, x) - Existing(lectures, labs, x));
    TemplateCounts();
    FlatMapSnoc(t1, f, 0);
    assert t1[..1] == t1 && t1[..0] == [];
  }

  /** For 108 hours the plan asks for exactly the missing lessons of each type. */
  lemma NeededMedium(lectures: int, labs: int)
    ensures Needed(Template(108).value, lectures, labs) == Repeat(Lecture, 1 - lectures) + Repeat(Lab, 1 - labs)
  {
    var t2 := [Lecture, Lab];
    var f := (x: LessonType) => Repeat(x, Occurrences(t2, x) - Existing(lectures, labs, x));
    TemplateCounts();
    assert f(Lecture) == Repeat(Lecture, 1 - lectures) && f(Lab) == Repeat(Lab, 1 - labs);
    FlatMapSnoc(t2, f, 1);
    FlatMapSnoc(t2, f, 0);
    assert t2[..2] == t2 && t2[..0] == [];
  }

  /** For 144 hours the two visits of the lab entry each ask for all the
      missing labs, so the plan asks for twice the missing labs. */
  lemma NeededLong(lectures: int, labs: int)
    ensures Needed(Template(144).value, lectures, labs) ==
      Repeat(Lecture, 1 - lectures) + Repeat(Lab, 2 - labs) + Repeat(Lab, 2 - labs)
  {
    var t3 := [Lecture, Lab, Lab];
    var f := (x: LessonType) => Repeat(x, Occurrences(t3, x) - Existing(lectures, labs, x));
    TemplateCounts();
    assert f(Lecture) == Repeat(Lecture, 1 - lectures) && f(Lab) == Repeat(Lab, 2 - labs);
    FlatMapSnoc(t3, f, 2);
    FlatMapSnoc(t3, f, 1);
    FlatMapSnoc(t3, f, 0);
    assert t3[..3] == t3 && t3[..0] == [];
  }

  /** A 144-hour entry with no lessons yet asks for one lecture and four labs. */
  lemma EmptyLongCourseAsksForFourLabs()
    ensures Needed(Template(144).value, 0, 0) == [Lecture, Lab, Lab, Lab, Lab]
  {
    NeededLong(0, 0);
    assert Repeat(Lecture, 1) == [Lecture];
    assert Repeat(Lab, 2) == [Lab, Lab];
  }

  /** The existing lessons of an entry in weeks 1 and 2 of one type. */
  function ExistingCount(t: Tables, c: Curriculum, x: LessonType): (n: nat)
    ensures n <= |t.lessons|
  {
    |Filter(t.lessons, (l: Lesson) => l.curriculumId == c.id && 1 <= l.week <= 2 && l.lessonType == x)|
  }

  /* ---------------- audience ---------------- */

  /** The groups joined with the links of `flow`, in link order. */
  function FlowMembers(t: Tables, flow: int): (r: seq<Group>)
    ensures forall g :: g in r ==> g in t.groups
    ensures forall g :: g in r ==>
      exists k :: 0 <= k < |t.links| && t.links[k].flowId == flow && t.links[k].groupId == g.id
  {
    FlatMap(t.links, (l: FlowGroupLink) => if l.flowId == flow then Filter(t.groups, (g: Group) => g.id == l.groupId) else [])
  }

  function SumStudents(gs: seq<Group>): int {
    if |gs| == 0 then 0 else SumStudents(gs[..|gs| - 1]) + gs[|gs| - 1].studentCount
  }

  /** The group ids an entry is taught to and the seats it needs: its group when
      the group id is truthy and the group exists, else the members of a truthy
      flow and their total size, else nobody. */
  function Audience(t: Tables, c: Curriculum): (r: (seq<int>, int))
    ensures Truthy(c.groupId) ==>
      r == (if HasKey(t.groups, GroupId, c.groupId.value)
            then ([c.groupId.value], FindBy(t.groups, GroupId, c.groupId.value).value.studentCount) else ([], 0))
    ensures !Truthy(c.groupId) && Truthy(c.flowId) ==>
      r == (Map(FlowMembers(t, c.flowId.value), GroupId), SumStudents(FlowMembers(t, c.flowId.value)))
    ensures !Truthy(c.groupId) && !Truthy(c.flowId) ==> r == ([], 0)
  {
    if Truthy(c.groupId) then
      match FindBy(t.groups, GroupId, c.groupId.value)
      case Some(g) => ([g.id], g.studentCount)
      case None => ([], 0)
    else if Truthy(c.flowId) then
      var members := FlowMembers(t, c.flowId.value);
      (Map(members, GroupId), SumStudents(members))
    else ([], 0)
  }

  /** `link.flow_id == flow`. */
  function LinkedTo(flow: int): FlowGroupLink -> bool {
    (l: FlowGroupLink) => l.flowId == flow
  }

  /** The group ids the seeding loop marks for an existing lesson: a truthy group
      id as it is, else every group id linked to a truthy flow. */
  function SeedGroups(t: Tables, c: Curriculum): seq<int> {
    if Truthy(c.groupId) then [c.groupId.value]
    else if Truthy(c.flowId) then Map(Filter(t.links, LinkedTo(c.flowId.value)), GroupOf)
    else []
  }

  lemma LinkedGroupSeeded(t: Tables, f: int, k: int)
    requires 0 <= k < |t.links| && t.links[k].flowId == f
    ensures t.links[k].groupId in Map(Filter(t.links, LinkedTo(f)), GroupOf)
  {
    var linked := Filter(t.links, LinkedTo(f));
    assert t.links[k] in t.links;
    assert t.links[k] in linked;
    var m :| 0 <= m < |linked| && linked[m] == t.links[k];
    assert Map(linked, GroupOf)[m] == t.links[k].groupId;
  }

  /** Every group of the audience is among the groups the seeding marks. */
  lemma AudienceSeeded(t: Tables, c: Curriculum)
    ensures forall g :: g in Audience(t, c).0 ==> g in SeedGroups(t, c)
  {
    if !Truthy(c.groupId) && Truthy(c.flowId) {
      var f := c.flowId.value;
      var members := FlowMembers(t, f);
      var ids := Map(members, GroupId);
      assert Audience(t, c).0 == ids;
      forall g | g in ids ensures g in SeedGroups(t, c) {
        var i :| 0 <= i < |ids| && ids[i] == g;
        assert members[i] in members;
        var k :| 0 <= k < |t.links| && t.links[k].flowId == f && t.links[k].groupId == members[i].id;
        LinkedGroupSeeded(t, f, k);
      }
    }
  }

  /** The teachers the seeding marks: the primary, and a truthy second teacher. */
  function SeedTeachers(c: Curriculum): seq<int> {
    [c.primaryTeacherId] + (if Truthy(c.secondaryTeacherId) then [c.secondaryTeacherId.value] else [])
  }

  /** The teachers the placement checks: the primary, and any second teacher that
      is not `None` (so also `0`). */
  function PlanTeachers(c: Curriculum): (r: seq<int>)
    ensures forall x :: x in SeedTeachers(c) ==> x in r
  {
    [c.primaryTeacherId] + (if c.secondaryTeacherId.Some? then [c.secondaryTeacherId.value] else [])
  }

  /* ---------------- the plan ---------------- */

  /** One entry of `curriculum_data`. */
  datatype PlanItem = PlanItem(
    curriculum: Curriculum, needed: seq<LessonType>, groups: seq<int>, teachers: seq<int>,
    rooms: seq<int>, capacity: int)

  /** The ids of the rooms with at least `capacity` seats, in table order. */
  function RoomsFor(t: Tables, capacity: int): (r: seq<int>)
    ensures forall id :: id in r ==> exists room :: room in t.classrooms && room.id == id && room.capacity >= capacity
  {
    var big := Filter(t.classrooms, (room: Classroom) => room.capacity >= capacity);
    var r := Map(big, ClassroomId);
    assert forall i :: 0 <= i < |r| ==> big[i] in big;
    r
  }

  /** The plan entry of one curriculum entry; `None` when its hours have no
      template, when nothing is missing, or when it has no audience. */
  function ItemOf(t: Tables, c: Curriculum): (r: Option<PlanItem>)
    ensures r.Some? ==> Template(c.hours).Some?
    ensures r.Some? ==>
      r.value.needed == Needed(Template(c.hours).value, ExistingCount(t, c, Lecture), ExistingCount(t, c, Lab))
    ensures r.None? <==>
      (Template(c.hours).None? ||
       |Needed(Template(c.hours).value, ExistingCount(t, c, Lecture), ExistingCount(t, c, Lab))| == 0 ||
       |Audience(t, c).0| == 0)
    ensures r.Some? ==>
      r.value.curriculum == c && |r.value.needed| > 0 && |r.value.groups| > 0 &&
      r.value.groups == Audience(t, c).0 && r.value.capacity == Audience(t, c).1 &&
      r.value.teachers == PlanTeachers(c) && r.value.rooms == RoomsFor(t, Audience(t, c).1)
  {
    match Template(c.hours)
    case None => None
    case Some(template) =>
      var needed := Needed(template, ExistingCount(t, c, Lecture), ExistingCount(t, c, Lab));
      var (groups, capacity) := Audience(t, c);
      if |needed| == 0 || |groups| == 0 then None
      else Some(PlanItem(c, needed, groups, PlanTeachers(c), RoomsFor(t, capacity), capacity))
  }

  function ItemBlock(t: Tables): Curriculum -> seq<PlanItem> {
    (c: Curriculum) => if ItemOf(t, c).Some? then [ItemOf(t, c).value] else []
  }

  /** `curriculum_data` before sorting: the entries' plan items in table order. */
  function Candidates(t: Tables): seq<PlanItem> {
    FlatMap(t.curricula, ItemBlock(t))
  }

  /** The sort key: more seats first, then more groups. */
  function Difficulty(item: PlanItem): (int, int) {
    (-item.capacity, -|item.groups|)
  }

  /** `curriculum_data` after `sort(key=...)`. */
  function Plan(t: Tables): (r: seq<PlanItem>)
    ensures SortedBy(r, Difficulty) && multiset(r) == multiset(Candidates(t))
  {
    SortBySorted(Candidates(t), Difficulty);
    SortBy(Candidates(t), Difficulty)
  }

  /** A plan item comes from some curriculum entry. */
  ghost predicate FromCurriculum(t: Tables, item: PlanItem) {
    exists c :: c in t.curricula && ItemOf(t, c) == Some(item)
  }

  /** Every entry of the plan is the item of a curriculum entry. */
  lemma PlanItemsFromCurricula(t: Tables)
    ensures forall item :: item in Plan(t) ==> FromCurriculum(t, item)
  {
    forall item | item in Plan(t) ensures FromCurriculum(t, item) {
      assert item in multiset(Plan(t));
      assert item in multiset(Candidates(t));
      CandidateFromCurriculum(t, item);
    }
  }

  lemma CandidateFromCurriculum(t: Tables, item: PlanItem)
    requires item in Candidates(t)
    ensures FromCurriculum(t, item)
  {
    var i :| 0 <= i < |t.curricula| && item in ItemBlock(t)(t.curricula[i]);
    assert t.curricula[i] in t.curricula;
  }

  /** Every curriculum entry with a plan item has it in the plan. */
  lemma CurriculaItemsPlanned(t: Tables, c: Curriculum)
    requires c in t.curricula && ItemOf(t, c).Some?
    ensures ItemOf(t, c).value in Plan(t)
  {
    var item := ItemOf(t, c).value;
    var i :| 0 <= i < |t.curricula| && t.curricula[i] == c;
    assert item in ItemBlock(t)(t.curricula[i]);
    assert item in Candidates(t);
    assert item in multiset(Candidates(t));
    assert item in multiset(Plan(t));
  }

  /** The plan-building loop: one item per entry that has one, in table order. */
  method BuildCandidates(t: Tables) returns (r: seq<PlanItem>)
    ensures r == Candidates(t)
  {
    r := [];
    var i := 0;
    while i < |t.curricula|
      invariant 0 <= i <= |t.curricula|
      invariant r == FlatMap(t.curricula[..i], ItemBlock(t))
    {
      assert t.curricula[..i + 1][..i] == t.curricula[..i];
      var item := ItemOf(t, t.curricula[i]);
      if item.Some? {
        r := r + [item.value];
      }
      i := i + 1;
    }
    assert t.curricula[..i] == t.curricula;
  }

  /* ---------------- busy sets ---------------- */

  /** The keys `(week, day, pair, id)` for each of `ids`. */
  function Keys(w: int, d: int, p: int, ids: seq<int>): (r: set<Key>)
    ensures forall w', d', p', id :: (w', d', p', id) in r <==> w' == w && d' == d && p' == p && id in ids
  {
    set id | id in ids :: (w, d, p, id)
  }

  /** `busy.add((week, day, pair, id))` for each of `ids`. */
  method Mark(busy: set<Key>, w: int, d: int, p: int, ids: seq<int>) returns (r: set<Key>)
    ensures r == busy + Keys(w, d, p, ids)
  {
    r := busy;
    var j := 0;
    while j < |ids|
      invariant 0 <= j <= |ids|
      invariant r == busy + Keys(w, d, p, ids[..j])
    {
      assert ids[..j + 1] == ids[..j] + [ids[j]];
      r := r + {(w, d, p, ids[j])};
      j := j + 1;
    }
    assert ids[..j] == ids;
  }

  /** The busy sets of rooms, teachers and groups. */
  datatype Busy = Busy(rooms: set<Key>, teachers: set<Key>, groups: set<Key>)

  /** The seeding loop over the lessons `ls`: a lesson of week 1 or 2 whose entry
      exists marks its room, its seeding groups and its seeding teachers. */
  function Seeded(t: Tables, ls: seq<Lesson>): Busy
    decreases |ls|
  {
    if |ls| == 0 then Busy({}, {}, {})
    else
      var b := Seeded(t, ls[..|ls| - 1]);
      var l := ls[|ls| - 1];
      if !(1 <= l.week <= 2) then b
      else match FindBy(t.curricula, CurriculumId, l.curriculumId)
        case None => b
        case Some(c) =>
          Busy(b.rooms + {(l.week, l.day, l.pair, l.classroomId)},
               b.teachers + Keys(l.week, l.day, l.pair, SeedTeachers(c)),
               b.groups + Keys(l.week, l.day, l.pair, SeedGroups(t, c)))
  }

  /** The seeding loop. */
  method Seed(t: Tables) returns (b: Busy)
    ensures b == Seeded(t, t.lessons)
  {
    b := Busy({}, {}, {});
    var i := 0;
    while i < |t.lessons|
      invariant 0 <= i <= |t.lessons|
      invariant b == Seeded(t, t.lessons[..i])
    {
      assert t.lessons[..i + 1][..i] == t.lessons[..i];
      var l := t.lessons[i];
      if 1 <= l.week <= 2 {
        var c := FindBy(t.curricula, CurriculumId, l.curriculumId);
        if c.Some? {
          var teachers := Mark(b.teachers, l.week, l.day, l.pair, SeedTeachers(c.value));
          var groups := Mark(b.groups, l.week, l.day, l.pair, SeedGroups(t, c.value));
          b := Busy(b.rooms + {(l.week, l.day, l.pair, l.classroomId)}, teachers, groups);
        }
      }
      i := i + 1;
    }
    assert t.lessons[..i] == t.lessons;
  }

  /** The seeding loop as written reads each row of the one-column link query
      with `g[0]`, but those rows are plain group ids: the loop raises
      `TypeError` at an existing lesson of weeks 1 and 2 whose entry has no
      truthy group, a truthy flow, and at least one link of that flow. */
  predicate SeedIndexesId(t: Tables, l: Lesson) {
    1 <= l.week <= 2 &&
    match FindBy(t.curricula, CurriculumId, l.curriculumId)
    case None => false
    case Some(c) => !Truthy(c.groupId) && Truthy(c.flowId) && |Filter(t.links, LinkedTo(c.flowId.value))| > 0
  }

  /** The seeding as written raises exactly when one of the lessons meets such
      an entry. */
  predicate SeedRaises(t: Tables) {
    exists i :: 0 <= i < |t.lessons| && SeedIndexesId(t, t.lessons[i])
  }

  /** The seeding loop as written: it stops with `TypeError` (`None`) at the
      first lesson whose linked groups it would read by index; otherwise it
      marks what `Seed` marks, because every flow-only entry it met had no
      links to mark. */
  method SeedAsWritten(t: Tables) returns (r: Option<Busy>)
    ensures r.None? <==> SeedRaises(t)
    ensures r.Some? ==> r.value == Seeded(t, t.lessons)
  {
    var b := Busy({}, {}, {});
    var i := 0;
    while i < |t.lessons|
      invariant 0 <= i <= |t.lessons|
      invariant forall k :: 0 <= k < i ==> !SeedIndexesId(t, t.lessons[k])
      invariant b == Seeded(t, t.lessons[..i])
    {
      assert t.lessons[..i + 1][..i] == t.lessons[..i];
      var l := t.lessons[i];
      if SeedIndexesId(t, l) {
        return None;
      }
      if 1 <= l.week <= 2 {
        var c := FindBy(t.curricula, CurriculumId, l.curriculumId);
        if c.Some? {
          var teachers := Mark(b.teachers, l.week, l.day, l.pair, SeedTeachers(c.value));
          var groups := Mark(b.groups, l.week, l.day, l.pair, SeedGroups(t, c.value));
          b := Busy(b.rooms + {(l.week, l.day, l.pair, l.classroomId)}, teachers, groups);
        }
      }
      i := i + 1;
    }
    assert t.lessons[..i] == t.lessons;
    r := Some(b);
  }

  /** One week-1 lesson of a flow-only entry whose flow links one group: the
      seeding as written raises, while the seeding `find_collisions` uses
      (`Seed`) marks that group busy at the lesson's slot. */
  lemma FlowLessonMakesSeedingRaise()
    ensures var t := Empty.(
      links := [FlowGroupLink(1, 1)],
      curricula := [Curriculum(1, 1, 72, 1, None, None, Some(1))],
      lessons := [Lesson(1, 1, 1, 1, 1, 1, Lecture)]);
      SeedRaises(t) && (1, 1, 1, 1) in Seeded(t, t.lessons).groups
  {
    var t := Empty.(
      links := [FlowGroupLink(1, 1)],
      curricula := [Curriculum(1, 1, 72, 1, None, None, Some(1))],
      lessons := [Lesson(1, 1, 1, 1, 1, 1, Lecture)]);
    var c := t.curricula[0];
    assert FindBy(t.curricula, CurriculumId, 1) == Some(c);
    var linked := Filter(t.links, LinkedTo(1));
    assert t.links[0] in linked;
    assert SeedIndexesId(t, t.lessons[0]);
    LinkedGroupSeeded(t, 1, 0);
    assert t.lessons[..0] == [];
  }

  /** A lesson's resources are marked busy at its slot: its room, the groups of
      its audience and its seeding teachers. A lesson whose entry is missing
      occupies nothing. */
  ghost predicate CoveredLesson(t: Tables, l: Lesson, b: Busy) {
    match FindBy(t.curricula, CurriculumId, l.curriculumId)
    case None => true
    case Some(c) =>
      (l.week, l.day, l.pair, l.classroomId) in b.rooms &&
      (forall k :: 0 <= k < |Audience(t, c).0| ==> (l.week, l.day, l.pair, Audience(t, c).0[k]) in b.groups) &&
      (forall k :: 0 <= k < |SeedTeachers(c)| ==> (l.week, l.day, l.pair, SeedTeachers(c)[k]) in b.teachers)
  }

  /** Every lesson of weeks 1 and 2 in `ls` is covered by the busy sets. */
  ghost predicate Covered(t: Tables, ls: seq<Lesson>, b: Busy) {
    forall i :: 0 <= i < |ls| && 1 <= ls[i].week <= 2 ==> CoveredLesson(t, ls[i], b)
  }

  /** More busy entries still cover what was covered. */
  lemma CoveredGrows(t: Tables, ls: seq<Lesson>, b: Busy, b': Busy)
    requires Covered(t, ls, b) && b.rooms <= b'.rooms && b.teachers <= b'.teachers && b.groups <= b'.groups
    ensures Covered(t, ls, b')
  {
    forall i | 0 <= i < |ls| && 1 <= ls[i].week <= 2 ensures CoveredLesson(t, ls[i], b') {
      assert CoveredLesson(t, ls[i], b);
    }
  }

  /** The seeding marks the last lesson's resources. */
  lemma SeededLast(t: Tables, ls: seq<Lesson>)
    requires |ls| > 0 && 1 <= ls[|ls| - 1].week <= 2
    ensures CoveredLesson(t, ls[|ls| - 1], Seeded(t, ls))
  {
    var l := ls[|ls| - 1];
    if FindBy(t.curricula, CurriculumId, l.curriculumId).Some? {
      AudienceSeeded(t, FindBy(t.curricula, CurriculumId, l.curriculumId).value);
    }
  }

  /** The seeded sets cover every existing lesson of weeks 1 and 2. */
  lemma {:induction false} SeededCovers(t: Tables, ls: seq<Lesson>)
    ensures Covered(t, ls, Seeded(t, ls))
    decreases |ls|
  {
    if |ls| > 0 {
      var init, l := ls[..|ls| - 1], ls[|ls| - 1];
      var b' := Seeded(t, ls);
      SeededCovers(t, init);
      CoveredGrows(t, init, Seeded(t, init), b');
      if 1 <= l.week <= 2 {
        SeededLast(t, ls);
        CoveredAppend(t, init, b', l);
      } else {
        forall i | 0 <= i < |ls| && 1 <= ls[i].week <= 2 ensures CoveredLesson(t, ls[i], b') {
          assert ls[i] == init[i];
        }
      }
      assert init + [l] == ls;
    }
  }

  /* ---------------- first-fit search ---------------- */

  /** `any((week, day, pair, id) in busy for id in ids)`. */
  predicate AnyBusy(ids: seq<int>, busy: set<Key>, w: int, d: int, p: int) {
    exists k :: 0 <= k < |ids| && (w, d, p, ids[k]) in busy
  }

  /** The item can be placed at the slot: none of its groups and teachers is busy
      there and one of its rooms is free. */
  predicate Placeable(item: PlanItem, b: Busy, w: int, d: int, p: int) {
    !AnyBusy(item.groups, b.groups, w, d, p) && !AnyBusy(item.teachers, b.teachers, w, d, p) &&
    exists k :: 0 <= k < |item.rooms| && (w, d, p, item.rooms[k]) !in b.rooms
  }

  /** Slot order of the search: weeks, then days, then pairs, ascending. */
  predicate Before(w1: int, d1: int, p1: int, w2: int, d2: int, p2: int) {
    w1 < w2 || (w1 == w2 && (d1 < d2 || (d1 == d2 && p1 < p2)))
  }

  /** The room loop: the first of `rooms` free at the slot. */
  method FreeRoom(rooms: seq<int>, busy: set<Key>, w: int, d: int, p: int) returns (r: Option<int>)
    ensures r.Some? ==> exists k :: 0 <= k < |rooms| && rooms[k] == r.value && (w, d, p, r.value) !in busy &&
                                    forall k' :: 0 <= k' < k ==> (w, d, p, rooms[k']) in busy
    ensures r.None? ==> forall k :: 0 <= k < |rooms| ==> (w, d, p, rooms[k]) in busy
  {
    var k := 0;
    while k < |rooms|
      invariant 0 <= k <= |rooms|
      invariant forall k' :: 0 <= k' < k ==> (w, d, p, rooms[k']) in busy
    {
      if (w, d, p, rooms[k]) !in busy {
        return Some(rooms[k]);
      }
      k := k + 1;
    }
    return None;
  }

  /** The week/day/pair loops: the first slot in search order where the item can
      be placed, with the first free room there. */
  method FirstFreeSlot(item: PlanItem, b: Busy) returns (r: Option<Key>)
    ensures r.Some? ==>
      InGrid(r.value.0, r.value.1, r.value.2) &&
      !AnyBusy(item.groups, b.groups, r.value.0, r.value.1, r.value.2) &&
      !AnyBusy(item.teachers, b.teachers, r.value.0, r.value.1, r.value.2) &&
      r.value.3 in item.rooms && r.value !in b.rooms
    ensures r.Some? ==>
      exists k :: 0 <= k < |item.rooms| && item.rooms[k] == r.value.3 &&
        forall k' :: 0 <= k' < k ==> (r.value.0, r.value.1, r.value.2, item.rooms[k']) in b.rooms
    ensures r.Some? ==> forall w, d, p :: InGrid(w, d, p) && Before(w, d, p, r.value.0, r.value.1, r.value.2) ==>
      !Placeable(item, b, w, d, p)
    ensures r.None? ==> forall w, d, p :: InGrid(w, d, p) ==> !Placeable(item, b, w, d, p)
  {
    var w := 1;
    while w <= 2
      invariant 1 <= w <= 3
      invariant forall w', d', p' :: InGrid(w', d', p') && w' < w ==> !Placeable(item, b, w', d', p')
    {
      var d := 1;
      while d <= 6
        invariant 1 <= d <= 7
        invariant forall w', d', p' :: InGrid(w', d', p') && Before(w', d', p', w, d, 1) ==> !Placeable(item, b, w', d', p')
      {
        var p := 1;
        while p <= 8
          invariant 1 <= p <= 9
          invariant forall w', d', p' :: InGrid(w', d', p') && Before(w', d', p', w, d, p) ==> !Placeable(item, b, w', d', p')
        {
          if !AnyBusy(item.groups, b.groups, w, d, p) && !AnyBusy(item.teachers, b.teachers, w, d, p) {
            var room := FreeRoom(item.rooms, b.rooms, w, d, p);
            if room.Some? {
              return Some((w, d, p, room.value));
            }
          }
          p := p + 1;
        }
        d := d + 1;
      }
      w := w + 1;
    }
    return None;
  }

  /* ---------------- no double booking ---------------- */

  ghost predicate Shares(a: seq<int>, b: seq<int>) {
    exists i, j :: 0 <= i < |a| && 0 <= j < |b| && a[i] == b[j]
  }

  /** Two lessons at the same slot use the same room, a common group or a common
      teacher. A lesson whose entry is missing uses nothing. */
  ghost predicate Clash(t: Tables, a: Lesson, b: Lesson) {
    a.week == b.week && a.day == b.day && a.pair == b.pair &&
    match (FindBy(t.curricula, CurriculumId, a.curriculumId), FindBy(t.curricula, CurriculumId, b.curriculumId))
    case (Some(ca), Some(cb)) =>
      a.classroomId == b.classroomId || Shares(Audience(t, ca).0, Audience(t, cb).0) ||
      Shares(SeedTeachers(ca), SeedTeachers(cb))
    case _ => false
  }

  /** No lesson from position `n` on clashes with any lesson before it. */
  ghost predicate NoClashFrom(t: Tables, ls: seq<Lesson>, n: int) {
    forall j, k :: 0 <= j < k < |ls| && n <= k ==> !Clash(t, ls[j], ls[k])
  }

  /** A lesson of weeks 1..2 at a slot where the busy sets do not hold its room,
      its groups or its teachers clashes with no covered lesson. */
  lemma FreeSlotNoClash(t: Tables, ls: seq<Lesson>, b: Busy, l: Lesson, c: Curriculum)
    requires Covered(t, ls, b) && 1 <= l.week <= 2
    requires FindBy(t.curricula, CurriculumId, l.curriculumId) == Some(c)
    requires (l.week, l.day, l.pair, l.classroomId) !in b.rooms
    requires !AnyBusy(Audience(t, c).0, b.groups, l.week, l.day, l.pair)
    requires !AnyBusy(SeedTeachers(c), b.teachers, l.week, l.day, l.pair)
    ensures forall j :: 0 <= j < |ls| ==> !Clash(t, ls[j], l)
  {
    forall j | 0 <= j < |ls| ensures !Clash(t, ls[j], l) {
      if ls[j].week == l.week && ls[j].day == l.day && ls[j].pair == l.pair {
        assert CoveredLesson(t, ls[j], b);
      }
    }
  }

  /* ---------------- placing one lesson ---------------- */

  /** The lesson `auto_schedule` adds for the `j`-th needed type of `item` at
      `slot` (week, day, pair, room), under the id `id`. */
  function PlacedLesson(item: PlanItem, j: int, slot: Key, id: int): (l: Lesson)
    requires 0 <= j < |item.needed|
  {
    Lesson(id, slot.0, slot.1, slot.2, slot.3, item.curriculum.id, item.needed[j])
  }

  /** The busy sets after placing `item` at `slot`: its room, its groups and its
      teachers become busy there. */
  function Occupy(b: Busy, item: PlanItem, slot: Key): (r: Busy)
    ensures b.rooms <= r.rooms && b.teachers <= r.teachers && b.groups <= r.groups
  {
    Busy(b.rooms + {slot}, b.teachers + Keys(slot.0, slot.1, slot.2, item.teachers),
         b.groups + Keys(slot.0, slot.1, slot.2, item.groups))
  }

  /** What `FirstFreeSlot` promises about a slot it returns. */
  predicate FreeFor(item: PlanItem, b: Busy, slot: Key) {
    InGrid(slot.0, slot.1, slot.2) &&
    !AnyBusy(item.groups, b.groups, slot.0, slot.1, slot.2) &&
    !AnyBusy(item.teachers, b.teachers, slot.0, slot.1, slot.2) &&
    slot.3 in item.rooms && slot !in b.rooms
  }

  /** A lesson the scheduler may add: in the grid, for an entry that has a plan
      item, of a type the item needs, in a room large enough for its audience. */
  ghost predicate Placed(t: Tables, l: Lesson) {
    InGrid(l.week, l.day, l.pair) &&
    exists c :: c in t.curricula && c.id == l.curriculumId && PlacedFor(t, l, c)
  }

  ghost predicate PlacedFor(t: Tables, l: Lesson, c: Curriculum) {
    ItemOf(t, c).Some? && l.lessonType in ItemOf(t, c).value.needed &&
    exists room :: room in t.classrooms && room.id == l.classroomId && room.capacity >= Audience(t, c).1
  }

  /** A row's key is among the table's keys. */
  lemma MemberHasKey<T>(xs: seq<T>, key: T -> int, x: T)
    requires x in xs
    ensures HasKey(xs, key, key(x))
  {
    var k :| 0 <= k < |xs| && xs[k] == x;
  }

  /** A lesson of a plan item, in one of the item's rooms, is one the
      scheduler may add. */
  lemma PlacedForItem(t: Tables, c: Curriculum, item: PlanItem, l: Lesson)
    requires ItemOf(t, c) == Some(item) && l.lessonType in item.needed && l.classroomId in item.rooms
    ensures PlacedFor(t, l, c)
  {
    assert item.rooms == RoomsFor(t, Audience(t, c).1);
  }

  /** A lesson placed at a free slot is one the scheduler may add. */
  lemma PlacedLessonPlaced(t: Tables, item: PlanItem, j: int, slot: Key, id: int, b: Busy)
    requires FromCurriculum(t, item) && 0 <= j < |item.needed| && FreeFor(item, b, slot)
    ensures Placed(t, PlacedLesson(item, j, slot, id))
    ensures HasKey(t.classrooms, ClassroomId, slot.3) && HasKey(t.curricula, CurriculumId, item.curriculum.id)
  {
    var c :| c in t.curricula && ItemOf(t, c) == Some(item);
    var l := PlacedLesson(item, j, slot, id);
    PlacedForItem(t, c, item, l);
    var room :| room in t.classrooms && room.id == slot.3 && room.capacity >= Audience(t, c).1;
    MemberHasKey(t.classrooms, ClassroomId, room);
    MemberHasKey(t.curricula, CurriculumId, c);
  }

  /** A covered lesson appended to covered lessons keeps them covered. */
  lemma CoveredAppend(t: Tables, ls: seq<Lesson>, b: Busy, l: Lesson)
    requires Covered(t, ls, b) && CoveredLesson(t, l, b)
    ensures Covered(t, ls + [l], b)
  {
    var ls' := ls + [l];
    forall i | 0 <= i < |ls'| && 1 <= ls'[i].week <= 2 ensures CoveredLesson(t, ls'[i], b) {
      if i < |ls| {
        assert ls'[i] == ls[i];
      }
    }
  }

  /** The placed lesson's entry is the item's entry, and its resources are busy
      after the placement. */
  lemma PlacedLessonCovered(t: Tables, item: PlanItem, j: int, slot: Key, id: int, c: Curriculum, b: Busy)
    requires DistinctKeys(t.curricula, CurriculumId) && c in t.curricula && ItemOf(t, c) == Some(item)
    requires 0 <= j < |item.needed|
    ensures FindBy(t.curricula, CurriculumId, PlacedLesson(item, j, slot, id).curriculumId) == Some(c)
    ensures CoveredLesson(t, PlacedLesson(item, j, slot, id), Occupy(b, item, slot))
  {
    var l := PlacedLesson(item, j, slot, id);
    var b' := Occupy(b, item, slot);
    var m :| 0 <= m < |t.curricula| && t.curricula[m] == c;
    FindByUnique(t.curricula, CurriculumId, m);
    forall k | 0 <= k < |SeedTeachers(c)|
      ensures (l.week, l.day, l.pair, SeedTeachers(c)[k]) in b'.teachers
    {
      assert SeedTeachers(c)[k] in item.teachers;
    }
  }

  /** Placing an item at a free slot keeps every lesson covered by the busy
      sets, and the new lesson clashes with none before it. */
  lemma PlaceKeepsCovered(t: Tables, ls: seq<Lesson>, b: Busy, item: PlanItem, j: int, slot: Key, id: int)
    requires DistinctKeys(t.curricula, CurriculumId)
    requires FromCurriculum(t, item) && 0 <= j < |item.needed| && FreeFor(item, b, slot)
    requires Covered(t, ls, b)
    ensures Covered(t, ls + [PlacedLesson(item, j, slot, id)], Occupy(b, item, slot))
    ensures forall k :: 0 <= k < |ls| ==> !Clash(t, ls[k], PlacedLesson(item, j, slot, id))
  {
    var c :| c in t.curricula && ItemOf(t, c) == Some(item);
    var l := PlacedLesson(item, j, slot, id);
    var b' := Occupy(b, item, slot);
    PlacedLessonCovered(t, item, j, slot, id, c, b);
    assert !AnyBusy(SeedTeachers(c), b.teachers, l.week, l.day, l.pair);
    FreeSlotNoClash(t, ls, b, l, c);
    CoveredGrows(t, ls, b, b');
    CoveredAppend(t, ls, b', l);
  }
}
