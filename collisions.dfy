/** `find_collisions` (backend/db/sql_db.py): every lesson whose curriculum entry
    exists is filed under each of its groups, each of its teachers and its room,
    by week and day, as (pair, lesson id). Each day's list is sorted; two
    neighbours at the same pair are a collision, and for groups and teachers two
    neighbours with free pairs between them are a window.

    The three nested dictionaries are held as flat lists of entries in the order
    `find_collisions` appends them; a dictionary's keys are the distinct values in
    order of first appearance, as Python's insertion-ordered `dict` yields them. */
module Collisions {
  import opened Wrappers
  import opened Seqs
  import opened Sorting
  import opened Tables
  import AutoSchedule

  /** One appended `(pair, lesson.id)` with the keys it is filed under. */
  datatype Entry = Entry(owner: int, week: int, day: int, pair: int, lessonId: int)

  /** The `"type"` of a collision. */
  datatype Kind = GroupKind | TeacherKind | ClassroomKind

  /** An entry of `errors`: two lessons of one owner at the same pair. */
  datatype Collision = Collision(kind: Kind, owner: int, week: int, day: int, pair: int, first: int, second: int)

  /** An entry of `group_windows` or `teacher_windows`. */
  datatype Window = Window(owner: int, week: int, day: int, startPair: int, endPair: int, size: int)

  /** A `(pair, lesson id)` of a day's list. */
  type PairEntry = (int, int)

  /** An (owner, week, day) the nested loops visit. */
  type DayKey = (int, int, int)

  /** What `find_collisions` returns. */
  datatype Report = Report(errors: seq<Collision>, groupWindows: seq<Window>, teacherWindows: seq<Window>)

  /* ---------------- filing the lessons ---------------- */

  function EntriesFor(owners: seq<int>, l: Lesson): seq<Entry> {
    Map(owners, (o: int) => Entry(o, l.week, l.day, l.pair, l.id))
  }

  /** A lesson's group entries: under its truthy group id, else under every group
      linked to its truthy flow; nothing when its entry is missing. */
  function GroupFiling(t: Tables): Lesson -> seq<Entry> {
    (l: Lesson) =>
      match FindBy(t.curricula, CurriculumId, l.curriculumId)
      case None => []
      case Some(c) => EntriesFor(AutoSchedule.SeedGroups(t, c), l)
  }

  /** A lesson's teacher entries: the primary and a truthy second teacher. */
  function TeacherFiling(t: Tables): Lesson -> seq<Entry> {
    (l: Lesson) =>
      match FindBy(t.curricula, CurriculumId, l.curriculumId)
      case None => []
      case Some(c) => EntriesFor(AutoSchedule.SeedTeachers(c), l)
  }

  /** A lesson's room entry. */
  function RoomFiling(t: Tables): Lesson -> seq<Entry> {
    (l: Lesson) =>
      match FindBy(t.curricula, CurriculumId, l.curriculumId)
      case None => []
      case Some(_) => EntriesFor([l.classroomId], l)
  }

  function GroupEntries(t: Tables): seq<Entry> { FlatMap(t.lessons, GroupFiling(t)) }
  function TeacherEntries(t: Tables): seq<Entry> { FlatMap(t.lessons, TeacherFiling(t)) }
  function RoomEntries(t: Tables): seq<Entry> { FlatMap(t.lessons, RoomFiling(t)) }

  /** The filing loop. */
  method CollectEntries(t: Tables) returns (groups: seq<Entry>, teachers: seq<Entry>, rooms: seq<Entry>)
    ensures groups == GroupEntries(t) && teachers == TeacherEntries(t) && rooms == RoomEntries(t)
  {
    groups, teachers, rooms := [], [], [];
    var i := 0;
    while i < |t.lessons|
      invariant 0 <= i <= |t.lessons|
      invariant groups == FlatMap(t.lessons[..i], GroupFiling(t))
      invariant teachers == FlatMap(t.lessons[..i], TeacherFiling(t))
      invariant rooms == FlatMap(t.lessons[..i], RoomFiling(t))
    {
      assert t.lessons[..i + 1][..i] == t.lessons[..i];
      var l := t.lessons[i];
      var c := FindBy(t.curricula, CurriculumId, l.curriculumId);
      if c.Some? {
        groups := groups + EntriesFor(AutoSchedule.SeedGroups(t, c.value), l);
        teachers := teachers + EntriesFor(AutoSchedule.SeedTeachers(c.value), l);
        rooms := rooms + EntriesFor([l.classroomId], l);
      }
      i := i + 1;
    }
    assert t.lessons[..i] == t.lessons;
  }

  /* ---------------- the dictionaries ---------------- */

  function Owner(e: Entry): int { e.owner }


  /** The entry is filed under owner `o`, week `w`, day `d` and pair `p`. */
  predicate AtSlot(e: Entry, o: int, w: int, d: int, p: int) {
    e.owner == o && e.week == w && e.day == d && e.pair == p
  }

  /** Some entry lies at that slot. */
  predicate Occupied(es: seq<Entry>, o: int, w: int, d: int, p: int) {
    exists k :: 0 <= k < |es| && AtSlot(es[k], o, w, d, p)
  }

  function SlotMatch(o: int, w: int, d: int, p: int): Entry -> bool {
    (e: Entry) => AtSlot(e, o, w, d, p)
  }

  /** The number of entries at a slot. */
  function SlotCount(es: seq<Entry>, o: int, w: int, d: int, p: int): nat {
    |Filter(es, SlotMatch(o, w, d, p))|
  }

  /** The outer dictionary's keys. */
  function Owners(es: seq<Entry>): seq<int> { Dedupe(Map(es, Owner)) }

  /** The weeks of owner `o`'s entries, in order. */
  function WeekValues(es: seq<Entry>, o: int): (r: seq<int>)
    ensures forall w :: w in r <==> exists k :: 0 <= k < |es| && es[k].owner == o && es[k].week == w
  {
    if |es| == 0 then []
    else
      var init, e := es[..|es| - 1], es[|es| - 1];
      assert forall k :: 0 <= k < |init| ==> init[k] == es[k];
      WeekValues(init, o) + (if e.owner == o then [e.week] else [])
  }

  /** The days of owner `o`'s entries in week `w`, in order. */
  function DayValues(es: seq<Entry>, o: int, w: int): (r: seq<int>)
    ensures forall d :: d in r <==> exists k :: 0 <= k < |es| && es[k].owner == o && es[k].week == w && es[k].day == d
  {
    if |es| == 0 then []
    else
      var init, e := es[..|es| - 1], es[|es| - 1];
      assert forall k :: 0 <= k < |init| ==> init[k] == es[k];
      DayValues(init, o, w) + (if e.owner == o && e.week == w then [e.day] else [])
  }

  /** The keys of `schedule[o]`. */
  function Weeks(es: seq<Entry>, o: int): seq<int> { Dedupe(WeekValues(es, o)) }

  /** The keys of `schedule[o][w]`. */
  function Days(es: seq<Entry>, o: int, w: int): seq<int> { Dedupe(DayValues(es, o, w)) }

  function DayKeys(es: seq<Entry>, o: int, w: int): seq<DayKey> {
    Map(Days(es, o, w), (d: int) => (o, w, d))
  }

  function WeekKeys(es: seq<Entry>, o: int): seq<DayKey> {
    FlatMap(Weeks(es, o), (w: int) => DayKeys(es, o, w))
  }

  /** The (owner, week, day) lists in the order the nested loops visit them. */
  function BucketKeys(es: seq<Entry>): seq<DayKey> {
    FlatMap(Owners(es), (o: int) => WeekKeys(es, o))
  }

  lemma OwnersMember(es: seq<Entry>, o: int)
    ensures o in Owners(es) <==> exists k :: 0 <= k < |es| && es[k].owner == o
  {
    if exists k :: 0 <= k < |es| && es[k].owner == o {
      var k :| 0 <= k < |es| && es[k].owner == o;
      assert Map(es, Owner)[k] == o;
    }
  }

  lemma DayKeysMember(es: seq<Entry>, o: int, w: int, key: DayKey)
    ensures key in DayKeys(es, o, w) <==> key.0 == o && key.1 == w && key.2 in Days(es, o, w)
  {
    var days := Days(es, o, w);
    if key.0 == o && key.1 == w && key.2 in days {
      var x :| 0 <= x < |days| && days[x] == key.2;
      assert DayKeys(es, o, w)[x] == key;
    }
  }

  lemma WeekKeysMember(es: seq<Entry>, o: int, key: DayKey)
    ensures key in WeekKeys(es, o) <==> key.0 == o && key.1 in Weeks(es, o) && key.2 in Days(es, o, key.1)
  {
    var weeks := Weeks(es, o);
    if key in WeekKeys(es, o) {
      var j :| 0 <= j < |weeks| && key in DayKeys(es, o, weeks[j]);
      DayKeysMember(es, o, weeks[j], key);
    }
    if key.0 == o && key.1 in weeks && key.2 in Days(es, o, key.1) {
      var j :| 0 <= j < |weeks| && weeks[j] == key.1;
      DayKeysMember(es, o, weeks[j], key);
    }
  }

  lemma WeeksMember(es: seq<Entry>, o: int, w: int)
    ensures w in Weeks(es, o) <==> exists k :: 0 <= k < |es| && es[k].owner == o && es[k].week == w
  {
  }

  lemma DaysMember(es: seq<Entry>, o: int, w: int, d: int)
    ensures d in Days(es, o, w) <==> exists k :: 0 <= k < |es| && es[k].owner == o && es[k].week == w && es[k].day == d
  {
  }

  /** Every (owner, week, day) the loops visit has an entry filed under it. */
  lemma BucketKeysSound(es: seq<Entry>, key: DayKey)
    requires key in BucketKeys(es)
    ensures exists k :: 0 <= k < |es| && es[k].owner == key.0 && es[k].week == key.1 && es[k].day == key.2
  {
    var owners := Owners(es);
    var i :| 0 <= i < |owners| && key in WeekKeys(es, owners[i]);
    WeekKeysMember(es, owners[i], key);
    DaysMember(es, key.0, key.1, key.2);
  }

  /** Every entry's (owner, week, day) is visited by the loops. */
  lemma BucketKeysComplete(es: seq<Entry>, k: int)
    requires 0 <= k < |es|
    ensures (es[k].owner, es[k].week, es[k].day) in BucketKeys(es)
  {
    var e := es[k];
    var owners := Owners(es);
    OwnersMember(es, e.owner);
    WeeksMember(es, e.owner, e.week);
    DaysMember(es, e.owner, e.week, e.day);
    var i :| 0 <= i < |owners| && owners[i] == e.owner;
    WeekKeysMember(es, e.owner, (e.owner, e.week, e.day));
  }

  /** `schedule[o][w][d]`: the (pair, lesson id) of the entries filed there, in
      the order they were appended. */
  function Bucket(es: seq<Entry>, o: int, w: int, d: int): seq<PairEntry> {
    if |es| == 0 then []
    else
      var e := es[|es| - 1];
      Bucket(es[..|es| - 1], o, w, d) + (if e.owner == o && e.week == w && e.day == d then [(e.pair, e.lessonId)] else [])
  }

  /** Entry `e` is filed under that owner, week and day as `x`. */
  predicate FiledAs(e: Entry, o: int, w: int, d: int, x: PairEntry) {
    e.owner == o && e.week == w && e.day == d && (e.pair, e.lessonId) == x
  }

  /** A day's list holds the (pair, lesson id) of exactly the entries filed
      under that owner, week and day. */
  lemma {:induction false} BucketMember(es: seq<Entry>, o: int, w: int, d: int, x: PairEntry)
    ensures x in Bucket(es, o, w, d) <==> exists k :: 0 <= k < |es| && FiledAs(es[k], o, w, d, x)
    decreases |es|
  {
    if |es| > 0 {
      var init, e := es[..|es| - 1], es[|es| - 1];
      BucketMember(init, o, w, d, x);
      var tail := if e.owner == o && e.week == w && e.day == d then [(e.pair, e.lessonId)] else [];
      assert Bucket(es, o, w, d) == Bucket(init, o, w, d) + tail;
      if x in Bucket(init, o, w, d) {
        var k :| 0 <= k < |init| && FiledAs(init[k], o, w, d, x);
        assert es[k] == init[k];
      } else if x in tail {
        assert FiledAs(es[|es| - 1], o, w, d, x);
      }
      if exists k :: 0 <= k < |es| && FiledAs(es[k], o, w, d, x) {
        var k :| 0 <= k < |es| && FiledAs(es[k], o, w, d, x);
        if k < |init| {
          assert init[k] == es[k];
        }
      }
    }
  }

  function PairIs(p: int): PairEntry -> bool { (x: PairEntry) => x.0 == p }

  /** A day's list holds as many pairs `p` as there are entries at that slot. */
  lemma {:induction false} BucketCount(es: seq<Entry>, o: int, w: int, d: int, p: int)
    ensures |Filter(Bucket(es, o, w, d), PairIs(p))| == SlotCount(es, o, w, d, p)
    decreases |es|
  {
    if |es| > 0 {
      var init, e := es[..|es| - 1], es[|es| - 1];
      BucketCount(init, o, w, d, p);
      assert es == init + [e];
      FilterAppend(init, [e], SlotMatch(o, w, d, p));
      var tail := if e.owner == o && e.week == w && e.day == d then [(e.pair, e.lessonId)] else [];
      FilterAppend(Bucket(init, o, w, d), tail, PairIs(p));
    }
  }

  /* ---------------- one sorted day ---------------- */

  function Identity(x: PairEntry): (int, int) { x }

  /** `pairs.sort()`: by pair, then by lesson id. */
  function Sorted(s: seq<PairEntry>): seq<PairEntry> {
    SortBy(s, Identity)
  }

  /** Sorting a sorted list leaves it as it is, so the second `pairs.sort()` of
      the windows pass sees the list the collisions pass sorted. */
  lemma {:induction false} SortSorted<T>(xs: seq<T>, key: T -> (int, int))
    requires SortedBy(xs, key)
    ensures SortBy(xs, key) == xs
    decreases |xs|
  {
    if |xs| > 0 {
      var init := xs[..|xs| - 1];
      assert SortedBy(init, key) by {
        forall i, j | 0 <= i < j < |init| ensures Le(key(init[i]), key(init[j])) {
          assert init[i] == xs[i] && init[j] == xs[j];
        }
      }
      SortSorted(init, key);
      assert xs == init + [xs[|xs| - 1]];
      if |init| > 0 {
        assert Le(key(init[|init| - 1]), key(xs[|xs| - 1]));
      }
    }
  }

  /** The collisions loop over one sorted day: each neighbour at the same pair as
      the one before it. */
  function Overlaps(s: seq<PairEntry>, kind: Kind, o: int, w: int, d: int): seq<Collision> {
    if |s| < 2 then []
    else
      var n := |s| - 1;
      Overlaps(s[..n], kind, o, w, d) +
        (if s[n].0 == s[n - 1].0 then [Collision(kind, o, w, d, s[n].0, s[n - 1].1, s[n].1)] else [])
  }

  /** A collision is reported for exactly the neighbours at the same pair. */
  lemma {:induction false} OverlapsMember(s: seq<PairEntry>, kind: Kind, o: int, w: int, d: int, c: Collision)
    ensures c in Overlaps(s, kind, o, w, d) <==>
      exists i :: 1 <= i < |s| && s[i].0 == s[i - 1].0 && c == Collision(kind, o, w, d, s[i].0, s[i - 1].1, s[i].1)
    decreases |s|
  {
    if |s| >= 2 {
      var n := |s| - 1;
      var init := s[..n];
      assert forall i :: 0 <= i < |init| ==> init[i] == s[i];
      assert Overlaps(s, kind, o, w, d) == Overlaps(init, kind, o, w, d) +
        (if s[n].0 == s[n - 1].0 then [Collision(kind, o, w, d, s[n].0, s[n - 1].1, s[n].1)] else []);
      OverlapsMember(init, kind, o, w, d, c);
    }
  }

  /** The windows loop over one sorted day: each neighbour more than one pair
      after the one before it. */
  function Gaps(s: seq<PairEntry>, o: int, w: int, d: int): seq<Window> {
    if |s| < 2 then []
    else
      var n := |s| - 1;
      Gaps(s[..n], o, w, d) +
        (if s[n].0 - s[n - 1].0 - 1 > 0 then [Window(o, w, d, s[n - 1].0, s[n].0, s[n].0 - s[n - 1].0 - 1)] else [])
  }

  /** Every window of a day list was reported for neighbours with a free pair
      between them, and its size is the number of pairs between them. */
  lemma {:induction false} GapIndex(s: seq<PairEntry>, o: int, w: int, d: int, x: Window) returns (j: int)
    requires x in Gaps(s, o, w, d)
    ensures 1 <= j < |s| && s[j].0 - s[j - 1].0 - 1 > 0
    ensures x == Window(o, w, d, s[j - 1].0, s[j].0, s[j].0 - s[j - 1].0 - 1)
    decreases |s|
  {
    var n := |s| - 1;
    var init := s[..n];
    assert Gaps(s, o, w, d) == Gaps(init, o, w, d) +
      (if s[n].0 - s[n - 1].0 - 1 > 0 then [Window(o, w, d, s[n - 1].0, s[n].0, s[n].0 - s[n - 1].0 - 1)] else []);
    if x in Gaps(init, o, w, d) {
      j := GapIndex(init, o, w, d, x);
      assert init[j] == s[j] && init[j - 1] == s[j - 1];
    } else {
      j := n;
    }
  }

  /** Neighbours with a free pair between them are reported as a window. */
  lemma {:induction false} GapAt(s: seq<PairEntry>, o: int, w: int, d: int, j: int)
    requires 1 <= j < |s| && s[j].0 - s[j - 1].0 - 1 > 0
    ensures Window(o, w, d, s[j - 1].0, s[j].0, s[j].0 - s[j - 1].0 - 1) in Gaps(s, o, w, d)
    decreases |s|
  {
    var n := |s| - 1;
    var init := s[..n];
    assert Gaps(s, o, w, d) == Gaps(init, o, w, d) +
      (if s[n].0 - s[n - 1].0 - 1 > 0 then [Window(o, w, d, s[n - 1].0, s[n].0, s[n].0 - s[n - 1].0 - 1)] else []);
    if j < n {
      assert init[j] == s[j] && init[j - 1] == s[j - 1];
      GapAt(init, o, w, d, j);
    }
  }

  /** A prefix of a sorted list is sorted. */
  lemma SortedPrefix(s: seq<PairEntry>, n: int)
    requires SortedBy(s, Identity) && 0 <= n <= |s|
    ensures SortedBy(s[..n], Identity)
  {
    var init := s[..n];
    forall i, j | 0 <= i < j < |init| ensures Le(init[i], init[j]) {
      assert init[i] == s[i] && init[j] == s[j];
    }
  }

  /** In a sorted list whose last pair is `p`, an earlier pair `p` makes the
      one before the last a pair `p` too. */
  lemma SortedLastTwo(s: seq<PairEntry>, p: int)
    requires SortedBy(s, Identity) && |s| >= 2 && s[|s| - 1].0 == p
    requires |Filter(s[..|s| - 1], PairIs(p))| >= 1
    ensures s[|s| - 2].0 == p
  {
    var init := s[..|s| - 1];
    var y := Filter(init, PairIs(p))[0];
    assert y in init && y.0 == p;
    var k :| 0 <= k < |init| && init[k] == y;
    assert s[k] == y;
    assert Le(s[k], s[|s| - 2]) || k == |s| - 2;
    assert Le(s[|s| - 2], s[|s| - 1]);
  }

  /** Two neighbours at `p` are two pairs `p`. */
  lemma {:induction false} AdjacentCountTwo(s: seq<PairEntry>, p: int, i: int)
    requires 1 <= i < |s| && s[i].0 == p && s[i - 1].0 == p
    ensures |Filter(s, PairIs(p))| >= 2
    decreases |s|
  {
    var n := |s| - 1;
    var init, x := s[..n], s[n];
    assert Filter(s, PairIs(p)) == Filter(init, PairIs(p)) + (if x.0 == p then [x] else []);
    if i == n {
      assert init[n - 1] in Filter(init, PairIs(p));
    } else {
      assert init[i] == s[i] && init[i - 1] == s[i - 1];
      AdjacentCountTwo(init, p, i);
    }
  }

  /** In a sorted list, two pairs `p` are two neighbours at `p`. */
  lemma {:induction false} CountTwoAdjacent(s: seq<PairEntry>, p: int) returns (i: int)
    requires SortedBy(s, Identity) && |Filter(s, PairIs(p))| >= 2
    ensures 1 <= i < |s| && s[i].0 == p && s[i - 1].0 == p
    decreases |s|
  {
    var n := |s| - 1;
    var init, x := s[..n], s[n];
    assert Filter(s, PairIs(p)) == Filter(init, PairIs(p)) + (if x.0 == p then [x] else []);
    if x.0 == p {
      SortedLastTwo(s, p);
      i := n;
    } else {
      SortedPrefix(s, n);
      i := CountTwoAdjacent(init, p);
      assert init[i] == s[i] && init[i - 1] == s[i - 1];
    }
  }

  /** In a sorted list, two pairs `p` make two neighbours at `p`. */
  lemma SortedTwoAdjacent(s: seq<PairEntry>, p: int)
    requires SortedBy(s, Identity)
    ensures |Filter(s, PairIs(p))| >= 2 <==> exists i :: 1 <= i < |s| && s[i].0 == p && s[i - 1].0 == p
  {
    if |Filter(s, PairIs(p))| >= 2 {
      var i := CountTwoAdjacent(s, p);
    }
    forall i | 1 <= i < |s| && s[i].0 == p && s[i - 1].0 == p ensures |Filter(s, PairIs(p))| >= 2 {
      AdjacentCountTwo(s, p, i);
    }
  }

  /** Neighbours `a` then `b` in a sorted list leave no pair strictly between. */
  lemma NeighboursLeaveNothingBetween(s: seq<PairEntry>, i: int)
    requires SortedBy(s, Identity) && 1 <= i < |s|
    ensures forall k :: 0 <= k < |s| ==> !(s[i - 1].0 < s[k].0 < s[i].0)
  {
    forall k | 0 <= k < |s| ensures !(s[i - 1].0 < s[k].0 < s[i].0) {
      if k < i - 1 {
        assert Le(s[k], s[i - 1]);
      } else if k > i {
        assert Le(s[i], s[k]);
      }
    }
  }

  /** In a sorted list holding pairs `a < b` and nothing strictly between, some
      neighbours are `a` then `b`. */
  lemma NothingBetweenMakesNeighbours(s: seq<PairEntry>, ka: int, kb: int) returns (j: int)
    requires SortedBy(s, Identity) && 0 <= ka < |s| && 0 <= kb < |s| && s[ka].0 < s[kb].0
    requires forall k :: 0 <= k < |s| ==> !(s[ka].0 < s[k].0 < s[kb].0)
    ensures 1 <= j < |s| && s[j - 1].0 == s[ka].0 && s[j].0 == s[kb].0
  {
    var b := s[kb].0;
    var first := FindIndex(s, PairIs(b));
    j := first.value;
    assert ka == j - 1 || Le(s[ka], s[j - 1]);
    assert Le(s[j - 1], s[j]);
    assert !PairIs(b)(s[j - 1]);
  }

  /* ---------------- the report ---------------- */

  /** The collisions of one owner's day: its list sorted, then scanned. */
  function DayOverlaps(es: seq<Entry>, kind: Kind, key: DayKey): seq<Collision> {
    Overlaps(Sorted(Bucket(es, key.0, key.1, key.2)), kind, key.0, key.1, key.2)
  }

  /** The windows of one owner's day: its list sorted, then scanned. */
  function DayGaps(es: seq<Entry>, key: DayKey): seq<Window> {
    Gaps(Sorted(Bucket(es, key.0, key.1, key.2)), key.0, key.1, key.2)
  }

  function DayOverlapsOf(es: seq<Entry>, kind: Kind): DayKey -> seq<Collision> {
    (key: DayKey) => DayOverlaps(es, kind, key)
  }

  function DayGapsOf(es: seq<Entry>): DayKey -> seq<Window> {
    (key: DayKey) => DayGaps(es, key)
  }

  /** The collisions of one kind of owner, in the loops' order. */
  function ErrorsOf(es: seq<Entry>, kind: Kind): seq<Collision> {
    FlatMap(BucketKeys(es), DayOverlapsOf(es, kind))
  }

  /** The windows of one kind of owner, in the loops' order. */
  function WindowsOf(es: seq<Entry>): seq<Window> {
    FlatMap(BucketKeys(es), DayGapsOf(es))
  }

  /** `find_collisions` over the tables. */
  function CollisionReport(t: Tables): Report {
    Report(ErrorsOf(GroupEntries(t), GroupKind) + ErrorsOf(TeacherEntries(t), TeacherKind) +
           ErrorsOf(RoomEntries(t), ClassroomKind),
           WindowsOf(GroupEntries(t)), WindowsOf(TeacherEntries(t)))
  }

  /** Taking out the element at `k` takes one copy of it out of the multiset
      and takes it out of the filtered count when it is selected. */
  lemma RemoveAt<T(!new)>(ys: seq<T>, k: int, p: T -> bool)
    requires 0 <= k < |ys|
    ensures multiset(ys[..k] + ys[k + 1..]) == multiset(ys) - multiset{ys[k]}
    ensures |Filter(ys, p)| == |Filter(ys[..k] + ys[k + 1..], p)| + (if p(ys[k]) then 1 else 0)
  {
    var before, after := ys[..k], ys[k + 1..];
    assert ys == before + [ys[k]] + after;
    assert multiset(ys) == multiset(before) + multiset{ys[k]} + multiset(after);
    assert multiset(before + after) == multiset(before) + multiset(after);
    FilterAppend(before + [ys[k]], after, p);
    FilterAppend(before, [ys[k]], p);
    FilterAppend(before, after, p);
  }

  /** A permutation keeps the number of elements a filter selects. */
  lemma {:induction false} FilterCountPermutation<T(!new)>(xs: seq<T>, ys: seq<T>, p: T -> bool)
    requires multiset(xs) == multiset(ys)
    ensures |Filter(xs, p)| == |Filter(ys, p)|
    decreases |xs|
  {
    if |xs| == 0 {
      assert |multiset(ys)| == 0;
      assert ys == [];
    } else {
      var init, x := xs[..|xs| - 1], xs[|xs| - 1];
      assert xs == init + [x];
      assert multiset(xs) == multiset(init) + multiset{x};
      assert x in multiset(ys);
      var k :| 0 <= k < |ys| && ys[k] == x;
      RemoveAt(ys, k, p);
      assert multiset(init) == multiset(xs) - multiset{x};
      FilterCountPermutation(init, ys[..k] + ys[k + 1..], p);
      FilterAppend(init, [x], p);
    }
  }

  /** The number of pairs `p` in an owner's sorted day is the number of entries
      at that slot. */
  lemma SortedDayCount(es: seq<Entry>, o: int, w: int, d: int, p: int)
    ensures |Filter(Sorted(Bucket(es, o, w, d)), PairIs(p))| == SlotCount(es, o, w, d, p)
  {
    BucketCount(es, o, w, d, p);
    SortBySorted(Bucket(es, o, w, d), Identity);
    FilterCountPermutation(Sorted(Bucket(es, o, w, d)), Bucket(es, o, w, d), PairIs(p));
  }

  /** A reported collision has its owner's day among the visited keys, and two
      neighbours at its pair in that day's sorted list. */
  lemma CollisionSound(es: seq<Entry>, kind: Kind, c: Collision)
    requires c in ErrorsOf(es, kind)
    ensures SlotCount(es, c.owner, c.week, c.day, c.pair) >= 2
  {
    var keys := BucketKeys(es);
    var i :| 0 <= i < |keys| && c in DayOverlaps(es, kind, keys[i]);
    var key := keys[i];
    var s := Sorted(Bucket(es, key.0, key.1, key.2));
    SortBySorted(Bucket(es, key.0, key.1, key.2), Identity);
    assert c in Overlaps(s, kind, key.0, key.1, key.2);
    OverlapsMember(s, kind, key.0, key.1, key.2, c);
    assert key == (c.owner, c.week, c.day);
    SortedTwoAdjacent(s, c.pair);
    SortedDayCount(es, c.owner, c.week, c.day, c.pair);
  }

  /** Two pairs `p` in a sorted day make a collision at `p`. */
  lemma SortedCollision(s: seq<PairEntry>, kind: Kind, o: int, w: int, d: int, p: int)
    requires SortedBy(s, Identity) && |Filter(s, PairIs(p))| >= 2
    ensures exists c :: c in Overlaps(s, kind, o, w, d) && c.owner == o && c.week == w && c.day == d && c.pair == p
  {
    SortedTwoAdjacent(s, p);
    var j :| 1 <= j < |s| && s[j].0 == p && s[j - 1].0 == p;
    var c := Collision(kind, o, w, d, p, s[j - 1].1, s[j].1);
    OverlapsMember(s, kind, o, w, d, c);
  }

  /** Two entries at one slot make a collision in that owner's day. */
  lemma DayCollision(es: seq<Entry>, kind: Kind, o: int, w: int, d: int, p: int)
    requires SlotCount(es, o, w, d, p) >= 2
    ensures exists c :: c in DayOverlaps(es, kind, (o, w, d)) && c.owner == o && c.week == w && c.day == d && c.pair == p
  {
    SortBySorted(Bucket(es, o, w, d), Identity);
    SortedDayCount(es, o, w, d, p);
    SortedCollision(Sorted(Bucket(es, o, w, d)), kind, o, w, d, p);
  }

  /** Two entries at one slot are reported as a collision there. */
  lemma CollisionComplete(es: seq<Entry>, kind: Kind, o: int, w: int, d: int, p: int)
    requires SlotCount(es, o, w, d, p) >= 2
    ensures exists c :: c in ErrorsOf(es, kind) && c.owner == o && c.week == w && c.day == d && c.pair == p
  {
    DayCollision(es, kind, o, w, d, p);
    var c :| c in DayOverlaps(es, kind, (o, w, d)) && c.owner == o && c.week == w && c.day == d && c.pair == p;
    var y := Filter(es, SlotMatch(o, w, d, p))[0];
    assert y in es;
    var m :| 0 <= m < |es| && es[m] == y;
    BucketKeysComplete(es, m);
    var keys := BucketKeys(es);
    var i :| 0 <= i < |keys| && keys[i] == (o, w, d);
    assert c in DayOverlapsOf(es, kind)(keys[i]);
  }

  /** An owner's day is reported as a collision at pair `p` exactly when at
      least two entries of that owner lie at that week, day and pair. */
  lemma CollisionReported(es: seq<Entry>, kind: Kind, o: int, w: int, d: int, p: int)
    ensures (exists c :: c in ErrorsOf(es, kind) && c.owner == o && c.week == w && c.day == d && c.pair == p) <==>
      SlotCount(es, o, w, d, p) >= 2
  {
    if exists c :: c in ErrorsOf(es, kind) && c.owner == o && c.week == w && c.day == d && c.pair == p {
      var c :| c in ErrorsOf(es, kind) && c.owner == o && c.week == w && c.day == d && c.pair == p;
      CollisionSound(es, kind, c);
    }
    if SlotCount(es, o, w, d, p) >= 2 {
      CollisionComplete(es, kind, o, w, d, p);
    }
  }

  /** A pair in an owner's sorted day is occupied by one of its entries. */
  lemma SortedDayPairSound(es: seq<Entry>, o: int, w: int, d: int, k: int)
    requires 0 <= k < |Sorted(Bucket(es, o, w, d))|
    ensures Occupied(es, o, w, d, Sorted(Bucket(es, o, w, d))[k].0)
  {
    var b := Bucket(es, o, w, d);
    var s := Sorted(b);
    SortBySorted(b, Identity);
    assert s[k] in multiset(b);
    assert s[k] in b;
    BucketMember(es, o, w, d, s[k]);
    var m :| 0 <= m < |es| && FiledAs(es[m], o, w, d, s[k]);
    assert AtSlot(es[m], o, w, d, s[k].0);
  }

  /** An occupied pair appears in the owner's sorted day. */
  lemma SortedDayPairComplete(es: seq<Entry>, o: int, w: int, d: int, x: int)
    requires Occupied(es, o, w, d, x)
    ensures exists k :: 0 <= k < |Sorted(Bucket(es, o, w, d))| && Sorted(Bucket(es, o, w, d))[k].0 == x
  {
    var b := Bucket(es, o, w, d);
    var s := Sorted(b);
    SortBySorted(b, Identity);
    var m :| 0 <= m < |es| && AtSlot(es[m], o, w, d, x);
    var y := (es[m].pair, es[m].lessonId);
    BucketMember(es, o, w, d, y);
    assert y in b;
    assert y in multiset(s);
    var k :| 0 <= k < |s| && s[k] == y;
  }

  /** `s` is sorted and holds exactly the occupied pairs of the owner's day. */
  ghost predicate DayPairs(es: seq<Entry>, o: int, w: int, d: int, s: seq<PairEntry>) {
    SortedBy(s, Identity) &&
    forall p :: Occupied(es, o, w, d, p) <==> exists k :: 0 <= k < |s| && s[k].0 == p
  }

  /** The sorted day list is sorted and holds exactly the occupied pairs. */
  lemma SortedDayPairs(es: seq<Entry>, o: int, w: int, d: int)
    ensures DayPairs(es, o, w, d, Sorted(Bucket(es, o, w, d)))
  {
    var s := Sorted(Bucket(es, o, w, d));
    SortBySorted(Bucket(es, o, w, d), Identity);
    forall p ensures Occupied(es, o, w, d, p) <==> exists k :: 0 <= k < |s| && s[k].0 == p {
      if Occupied(es, o, w, d, p) {
        SortedDayPairComplete(es, o, w, d, p);
      }
      if exists k :: 0 <= k < |s| && s[k].0 == p {
        var k :| 0 <= k < |s| && s[k].0 == p;
        SortedDayPairSound(es, o, w, d, k);
      }
    }
  }

  /** Pairs `a` and `b` of an owner's day are occupied, at least one pair lies
      between them, and every pair between them is free. */
  ghost predicate FreeRun(es: seq<Entry>, o: int, w: int, d: int, a: int, b: int) {
    Occupied(es, o, w, d, a) && Occupied(es, o, w, d, b) && b - a > 1 &&
    forall p :: a < p < b ==> !Occupied(es, o, w, d, p)
  }

  /** A window of a day list joins two occupied pairs with only free pairs
      between. */
  lemma GapSound(es: seq<Entry>, s: seq<PairEntry>, o: int, w: int, d: int, x: Window)
    requires DayPairs(es, o, w, d, s) && x in Gaps(s, o, w, d)
    ensures (x.owner, x.week, x.day) == (o, w, d)
    ensures FreeRun(es, o, w, d, x.startPair, x.endPair)
    ensures x.size == x.endPair - x.startPair - 1
  {
    var j := GapIndex(s, o, w, d, x);
    NeighboursLeaveNothingBetween(s, j);
  }

  /** A window of an owner's day joins two occupied pairs with only free
      pairs between. */
  lemma DayWindowSound(es: seq<Entry>, key: DayKey, x: Window)
    requires x in DayGaps(es, key)
    ensures (x.owner, x.week, x.day) == key
    ensures FreeRun(es, x.owner, x.week, x.day, x.startPair, x.endPair)
    ensures x.size == x.endPair - x.startPair - 1
  {
    SortedDayPairs(es, key.0, key.1, key.2);
    GapSound(es, Sorted(Bucket(es, key.0, key.1, key.2)), key.0, key.1, key.2, x);
  }

  /** A reported window joins two occupied pairs with only free pairs between. */
  lemma WindowSound(es: seq<Entry>, x: Window)
    requires x in WindowsOf(es)
    ensures FreeRun(es, x.owner, x.week, x.day, x.startPair, x.endPair)
    ensures x.size == x.endPair - x.startPair - 1
  {
    var keys := BucketKeys(es);
    var i :| 0 <= i < |keys| && x in DayGapsOf(es)(keys[i]);
    DayWindowSound(es, keys[i], x);
  }

  /** Two occupied pairs with free pairs between make a window of a day list. */
  lemma GapComplete(es: seq<Entry>, s: seq<PairEntry>, o: int, w: int, d: int, a: int, b: int)
    requires DayPairs(es, o, w, d, s)
    requires FreeRun(es, o, w, d, a, b)
    ensures Window(o, w, d, a, b, b - a - 1) in Gaps(s, o, w, d)
  {
    var ka := PairIndex(es, o, w, d, s, a);
    var kb := PairIndex(es, o, w, d, s, b);
    forall k | 0 <= k < |s| ensures !(a < s[k].0 < b) {
      PairOccupied(es, o, w, d, s, k);
    }
    SortedGapComplete(s, o, w, d, ka, kb);
  }

  /** An occupied pair of a day is in its list. */
  lemma PairIndex(es: seq<Entry>, o: int, w: int, d: int, s: seq<PairEntry>, p: int) returns (k: int)
    requires DayPairs(es, o, w, d, s) && Occupied(es, o, w, d, p)
    ensures 0 <= k < |s| && s[k].0 == p
  {
    k :| 0 <= k < |s| && s[k].0 == p;
  }

  /** Every pair in a day's list is occupied. */
  lemma PairOccupied(es: seq<Entry>, o: int, w: int, d: int, s: seq<PairEntry>, k: int)
    requires DayPairs(es, o, w, d, s) && 0 <= k < |s|
    ensures Occupied(es, o, w, d, s[k].0)
  {
  }

  /** Two pairs of a sorted list with free pairs between and nothing of the
      list between them make a window of that list. */
  lemma SortedGapComplete(s: seq<PairEntry>, o: int, w: int, d: int, ka: int, kb: int)
    requires SortedBy(s, Identity) && 0 <= ka < |s| && 0 <= kb < |s| && s[kb].0 - s[ka].0 > 1
    requires forall k :: 0 <= k < |s| ==> !(s[ka].0 < s[k].0 < s[kb].0)
    ensures Window(o, w, d, s[ka].0, s[kb].0, s[kb].0 - s[ka].0 - 1) in Gaps(s, o, w, d)
  {
    var j := NothingBetweenMakesNeighbours(s, ka, kb);
    GapAt(s, o, w, d, j);
  }

  /** Two occupied pairs with free pairs between make a window of their day. */
  lemma DayWindowComplete(es: seq<Entry>, o: int, w: int, d: int, a: int, b: int)
    requires FreeRun(es, o, w, d, a, b)
    ensures Window(o, w, d, a, b, b - a - 1) in DayGaps(es, (o, w, d))
  {
    SortedDayPairs(es, o, w, d);
    GapComplete(es, Sorted(Bucket(es, o, w, d)), o, w, d, a, b);
  }

  /** Two occupied pairs with at least one pair between them, all free, are
      reported as a window. */
  lemma WindowComplete(es: seq<Entry>, o: int, w: int, d: int, a: int, b: int)
    requires FreeRun(es, o, w, d, a, b)
    ensures Window(o, w, d, a, b, b - a - 1) in WindowsOf(es)
  {
    DayWindowComplete(es, o, w, d, a, b);
    var m :| 0 <= m < |es| && AtSlot(es[m], o, w, d, a);
    BucketKeysComplete(es, m);
    var keys := BucketKeys(es);
    var i :| 0 <= i < |keys| && keys[i] == (o, w, d);
    assert Window(o, w, d, a, b, b - a - 1) in DayGapsOf(es)(keys[i]);
  }

  /** A window from `a` to `b` is reported for an owner's day exactly when both
      pairs are occupied, at least one pair lies between them, and every pair
      between them is free. */
  lemma WindowReported(es: seq<Entry>, o: int, w: int, d: int, a: int, b: int)
    ensures (exists x :: x in WindowsOf(es) && x.owner == o && x.week == w && x.day == d &&
                         x.startPair == a && x.endPair == b) <==>
      FreeRun(es, o, w, d, a, b)
  {
    if exists x :: x in WindowsOf(es) && x.owner == o && x.week == w && x.day == d && x.startPair == a && x.endPair == b {
      var x :| x in WindowsOf(es) && x.owner == o && x.week == w && x.day == d && x.startPair == a && x.endPair == b;
      WindowSound(es, x);
    }
    if FreeRun(es, o, w, d, a, b) {
      WindowComplete(es, o, w, d, a, b);
      var x := Window(o, w, d, a, b, b - a - 1);
      assert x in WindowsOf(es) && x.owner == o && x.week == w && x.day == d && x.startPair == a && x.endPair == b;
    }
  }

  /* ---------------- the loops ---------------- */

  /** `for i in range(1, len(pairs))` of the collisions pass. */
  method ScanOverlaps(s: seq<PairEntry>, kind: Kind, o: int, w: int, d: int) returns (r: seq<Collision>)
    ensures r == Overlaps(s, kind, o, w, d)
  {
    r := [];
    if |s| == 0 {
      return;
    }
    var i := 1;
    while i < |s|
      invariant 1 <= i <= |s|
      invariant r == Overlaps(s[..i], kind, o, w, d)
    {
      assert s[..i + 1][..i] == s[..i];
      if s[i].0 == s[i - 1].0 {
        r := r + [Collision(kind, o, w, d, s[i].0, s[i - 1].1, s[i].1)];
      }
      i := i + 1;
    }
    assert s[..i] == s;
  }

  /** `for i in range(1, len(pairs))` of the windows pass. */
  method ScanGaps(s: seq<PairEntry>, o: int, w: int, d: int) returns (r: seq<Window>)
    ensures r == Gaps(s, o, w, d)
  {
    r := [];
    if |s| == 0 {
      return;
    }
    var i := 1;
    while i < |s|
      invariant 1 <= i <= |s|
      invariant r == Gaps(s[..i], o, w, d)
    {
      assert s[..i + 1][..i] == s[..i];
      var gap := s[i].0 - s[i - 1].0 - 1;
      if gap > 0 {
        r := r + [Window(o, w, d, s[i - 1].0, s[i].0, gap)];
      }
      i := i + 1;
    }
    assert s[..i] == s;
  }

  /** The collisions of one owner's day: `pairs.sort()`, then the scan. */
  method DayErrors(es: seq<Entry>, kind: Kind, key: DayKey) returns (r: seq<Collision>)
    ensures r == DayOverlaps(es, kind, key)
  {
    var pairs := Sorted(Bucket(es, key.0, key.1, key.2));
    r := ScanOverlaps(pairs, kind, key.0, key.1, key.2);
  }

  /** The windows of one owner's day: the list is sorted again, which leaves
      it as the collisions pass left it, then scanned. */
  method DayWindows(es: seq<Entry>, key: DayKey) returns (r: seq<Window>)
    ensures r == DayGaps(es, key)
  {
    var pairs := Sorted(Bucket(es, key.0, key.1, key.2));
    SortBySorted(Bucket(es, key.0, key.1, key.2), Identity);
    SortSorted(pairs, Identity);
    pairs := SortBy(pairs, Identity);
    r := ScanGaps(pairs, key.0, key.1, key.2);
  }

  /** The collisions pass over one owner dictionary. */
  method ScanErrors(es: seq<Entry>, kind: Kind) returns (r: seq<Collision>)
    ensures r == ErrorsOf(es, kind)
  {
    r := ScanErrorsOver(es, kind, BucketKeys(es));
  }

  /** The same pass over the given (owner, week, day) lists, in order. */
  method ScanErrorsOver(es: seq<Entry>, kind: Kind, keys: seq<DayKey>) returns (r: seq<Collision>)
    ensures r == FlatMap(keys, DayOverlapsOf(es, kind))
  {
    r := [];
    var i := 0;
    while i < |keys|
      invariant 0 <= i <= |keys|
      invariant r == FlatMap(keys[..i], DayOverlapsOf(es, kind))
    {
      var found := DayErrors(es, kind, keys[i]);
      assert found == DayOverlapsOf(es, kind)(keys[i]);
      FlatMapSnoc(keys, DayOverlapsOf(es, kind), i);
      r := r + found;
      i := i + 1;
    }
    assert keys[..i] == keys;
  }

  /** The windows pass over one owner dictionary. */
  method ScanWindows(es: seq<Entry>) returns (r: seq<Window>)
    ensures r == WindowsOf(es)
  {
    r := ScanWindowsOver(es, BucketKeys(es));
  }

  /** The same pass over the given (owner, week, day) lists, in order. */
  method ScanWindowsOver(es: seq<Entry>, keys: seq<DayKey>) returns (r: seq<Window>)
    ensures r == FlatMap(keys, DayGapsOf(es))
  {
    r := [];
    var i := 0;
    while i < |keys|
      invariant 0 <= i <= |keys|
      invariant r == FlatMap(keys[..i], DayGapsOf(es))
    {
      var found := DayWindows(es, keys[i]);
      assert found == DayGapsOf(es)(keys[i]);
      FlatMapSnoc(keys, DayGapsOf(es), i);
      r := r + found;
      i := i + 1;
    }
    assert keys[..i] == keys;
  }
}
