# Diploma timetable: a Dafny model

This project models the core of a university timetable tool. The tool has two halves.

- **The backend** (`backend/db/sql_db.py`) keeps the university structure in relational tables:
  - divisions (universities, faculties and departments), specialties and groups;
  - flows (groups that attend lectures together), rooms, subjects and teachers;
  - the curriculum (a subject taught for some hours to a group or a flow) and the timetable lessons.

  The `SQLDatabase` class offers:
  - validating writes that raise `ValueError`;
  - read views: subjects, flows, curriculum, the week/day/pair/group timetable grid, and the university tree;
  - a greedy automatic scheduler;
  - a collision and "window" (free pair) finder.
- **The frontend** holds a client-side copy of the university tree and forms that edit it. These are the structure editor, the classroom, lecturer, flow, syllabus and curriculum tables, and the timetable tab.

How the model is built:
- The tables are sequences of rows in an immutable record, `Tables.Tables`.
- `Database.SQLDatabase` is a class whose single field is that record. Each write method states:
  - the error it raises, in the order `sql_db.py` checks;
  - the unchanged state on error;
  - the row it appends or changes on success;
  - that a valid database stays valid.
- The read views, the scheduler's plan and the collision report are pure functions. The loops of `sql_db.py` are methods proved equal to those functions.
- Every React component with handlers is a class whose `useState` variables (and the props it sets) are one state record, and every handler is a method stating the new state as an update of the old record. `DataComponent` has no handlers: its memos are pure functions. The updaters the handlers pass to `setData` are pure functions, and the properties of the tree are proved about them.
- The model follows the code in these places:
  - The client has no update-by-id or remove-by-id of timetable cells. The only id-addressed edit and delete are the backend's `edit_schedule_cell` and `remove_schedule_cell`.
  - A timetable cell carries no lesson id, neither on the client (`frontend/src/types.ts`) nor in the backend's `ScheduleCellData`.
  - For a 144-hour entry, the scheduler asks for twice the missing labs. Its template lists the lab type twice, and each visit asks for all the missing labs (`AutoSchedule.NeededLong`). So an entry with no lessons gets one lecture and four labs, not the "1 lecture + 2 labs" of the comment beside the template (`backend/db/sql_db.py:996`).
  - The seeding loop of `auto_schedule` raises `TypeError` on a flow-only entry with linked groups (see "## Findings").
  - A client lecturer has one of two shapes: `{ id, full_name }` as the backend delivers it, or `{ id, fullName }` as the lecturers form appends it. The curriculum form finds lecturers by `full_name` only (see "## Findings").

## Model

| member | source | states |
|---|---|---|
| Tables.EmptyValid | backend/db/sql_db.py:160-162 | The freshly created empty tables satisfy every key, uniqueness and reference constraint. |
| Database.NewId | backend/db/sql_db.py:28 | The id given to a new row differs from every id in its table, and is positive when all ids are. |
| Database.FoundGroups | backend/db/sql_db.py:328-331 | The groups `add_flow` finds are exactly the groups of the table whose name was requested. |
| Database.MissingGroups | backend/db/sql_db.py:331-332 | A name is reported missing exactly when it was requested and no group carries it. |
| Database.AddDivisionKeepsValid | backend/db/sql_db.py:164-193 | Appending a division with a new id, a new name and an existing parent keeps the database valid. |
| Database.AddSpecialtyKeepsValid | backend/db/sql_db.py:195-216 | Appending a specialty with a new name under an existing department keeps the database valid. |
| Database.AddGroupKeepsValid | backend/db/sql_db.py:218-246 | Appending a group with a new name under an existing specialty keeps the database valid. |
| Database.AddTeacherKeepsValid | backend/db/sql_db.py:248-269 | Appending a teacher with a new full name under an existing department keeps the database valid. |
| Database.AddClassroomKeepsValid | backend/db/sql_db.py:271-304 | Appending a room with a new name under an existing faculty, and an existing department when one is given, keeps the database valid. |
| Database.AddSubjectKeepsValid | backend/db/sql_db.py:306-323 | Appending a subject with a new name keeps the database valid. |
| Database.AddFlowKeepsValid | backend/db/sql_db.py:336-342 | A new flow with one link per found group keeps the database valid. |
| Database.NewLinkResolves | backend/db/sql_db.py:340-341 | Every link `add_flow` makes joins the new flow with an existing group. |
| Database.AddCurriculumKeepsValid | backend/db/sql_db.py:345-403 | A curriculum entry that passes every check of `add_lesson_to_plan` keeps the database valid. |
| Database.AddLessonKeepsValid | backend/db/sql_db.py:405-442 | A lesson in the grid with an existing room and curriculum entry keeps the database valid. |
| Database.EditLessonKeepsValid | backend/db/sql_db.py:713-739 | Re-pointing a lesson to an existing room and entry keeps the database valid. |
| Database.RemoveLessonKeepsValid | backend/db/sql_db.py:741-747 | Deleting a lesson keeps the database valid. |
| Database.ScheduleInvInit | backend/db/sql_db.py:950-986 | The seeded busy sets and the existing lessons satisfy the placement loop's invariant. |
| Database.ExtendsAppend | backend/db/sql_db.py:1115-1120 | Appending a lesson the scheduler may add keeps the old lessons first and every new one placed by the rules. |
| Database.NoClashAppend | backend/db/sql_db.py:1115-1120 | Appending a lesson that clashes with none keeps the new lessons clash-free. |
| Database.PlaceKeepsInv | backend/db/sql_db.py:1104-1120 | Placing one needed lesson at a free slot keeps the loop invariant: old lessons unchanged, new ones placed by the rules and clash-free, and every lesson covered by the busy sets. |
| Database.SQLDatabase.constructor | backend/db/sql_db.py:160-162 | A new database has empty, valid tables. |
| Database.SQLDatabase.AddStructuralDivision | backend/db/sql_db.py:164-193 | It fails exactly when a given parent is missing (`NotFound`, checked first) or the name is taken (`NameTaken`), and then nothing changes. Otherwise it appends the division under a fresh id and returns that id. Validity is kept. |
| Database.SQLDatabase.AddSpeciality | backend/db/sql_db.py:195-216 | It fails exactly when the department is missing or the name is taken, in that order, and then nothing changes. Otherwise it appends the specialty under a fresh id. Validity is kept. |
| Database.SQLDatabase.AddGroup | backend/db/sql_db.py:218-246 | It fails exactly when the specialty is missing or the name is taken, and then nothing changes. Otherwise it appends the group with its course and size under a fresh id. Validity is kept. |
| Database.SQLDatabase.AddTeacher | backend/db/sql_db.py:248-269 | It fails exactly when the department is missing or the full name is taken, and then nothing changes. Otherwise it appends the teacher under a fresh id. Validity is kept. |
| Database.SQLDatabase.AddClassroom | backend/db/sql_db.py:271-304 | It fails exactly when the faculty is missing, a truthy department is missing, or the room name is taken, in that order. On failure nothing changes. Otherwise it appends the room under a fresh id. Validity is kept. |
| Database.SQLDatabase.AddSubject | backend/db/sql_db.py:306-323 | It fails exactly when the full name is taken, and then nothing changes. Otherwise it appends the subject under a fresh id. Validity is kept. |
| Database.SQLDatabase.AddFlow | backend/db/sql_db.py:325-343 | It fails exactly when some requested name is no group's, reporting the missing names in request order, and then nothing changes. Otherwise it appends a fresh flow and one link per found group, in table order. Validity is kept. |
| Database.SQLDatabase.AddLessonToPlan | backend/db/sql_db.py:345-403 | It succeeds exactly when all hold: the subject, the primary teacher, a truthy second teacher, a truthy group and a truthy flow exist; exactly one of group and flow is truthy; the subject is not yet planned for that group and flow. The error is the first failed check in the order of `add_lesson_to_plan`. On success the entry is appended under a fresh id. Validity is kept. |
| Database.SQLDatabase.AddLessonToSchedule | backend/db/sql_db.py:405-442 | It succeeds exactly when the room and the entry exist and week, day and pair lie in 1..2, 1..6 and 1..8. The error is the first failed check. On success the lesson is appended under a fresh id. Validity is kept. |
| Database.SQLDatabase.EditScheduleCell | backend/db/sql_db.py:713-739 | It succeeds exactly when the lesson, the room and the entry exist. Then only that lesson's room, entry and type change. On failure nothing changes. Validity is kept. |
| Database.SQLDatabase.RemoveScheduleCell | backend/db/sql_db.py:741-747 | It fails exactly when no lesson has the id. Otherwise the rows with that id are deleted and nothing else changes. Validity is kept. |
| Database.SQLDatabase.GetSchedule | backend/db/sql_db.py:639-711 | The returned grid is `Views.Fill` over the lessons in table order, whose properties are proved in `Views`. |
| Database.SQLDatabase.GetUniversityData | backend/db/sql_db.py:444-542 | The result is `Views.UniversityTree` of the tables. |
| Database.SQLDatabase.AutoSchedule | backend/db/sql_db.py:946-1133 | It raises `TypeError` in the seeding exactly when `SeedRaises` holds, and then nothing changes. Otherwise only the lessons change, and the old ones stay in front. Every new lesson is in the grid, belongs to an entry with a plan item, has a type the item needs, and sits in a room large enough for its audience. With distinct entry ids no new lesson clashes with an earlier one: no same room, group or teacher at the same slot. Distinct lesson ids and validity are kept. |
| Database.SQLDatabase.FindCollisions | backend/db/sql_db.py:1135-1271 | The report is `Collisions.CollisionReport` of the tables, characterised by `Collisions.CollisionReported` and `Collisions.WindowReported`. |
| Database.WriteCells | backend/db/sql_db.py:705-708 | The loop writing one cell under each group name gives `Views.WriteGroups`. |
| Database.EditChangesOnlyThatLesson | backend/db/sql_db.py:733-737 | An edit leaves every other lesson alone, and gives the addressed one the new room, entry and type at its old week, day and pair. |
| Database.RemoveDeletesExactlyThatLesson | backend/db/sql_db.py:741-747 | With distinct ids, a removal drops exactly one row: the one with that id. |
| AutoSchedule.Template | backend/db/sql_db.py:993-1003 | A template exists exactly for 72, 108 and 144 hours; every other hour count is skipped. Each template starts with a lecture. |
| AutoSchedule.Occurrences | backend/db/sql_db.py:1023 | The count is the number of template entries of that type (its multiplicity in the template), so at most the template's length. |
| AutoSchedule.Repeat | backend/db/sql_db.py:1030 | `[x] * n` has `n` copies of `x` for positive `n` and none otherwise. |
| AutoSchedule.TemplateCounts | backend/db/sql_db.py:993-997 | The three templates require one lecture each, and zero, one and two labs. |
| AutoSchedule.NeededShort | backend/db/sql_db.py:1020-1030 | For 72 hours the missing lessons are the missing lecture, if any. |
| AutoSchedule.NeededMedium | backend/db/sql_db.py:1020-1030 | For 108 hours the missing lessons are the missing lecture and the missing lab. |
| AutoSchedule.NeededLong | backend/db/sql_db.py:1020-1030 | For 144 hours the missing lessons are the missing lecture and, twice over, the labs missing from two. |
| AutoSchedule.EmptyLongCourseAsksForFourLabs | backend/db/sql_db.py:1020-1030 | A 144-hour entry with no lessons is planned one lecture and four labs. |
| AutoSchedule.ExistingCount | backend/db/sql_db.py:1009-1017 | The count of an entry's lessons of one type, in weeks 1 and 2, is bounded by the number of lessons. |
| AutoSchedule.FlowMembers | backend/db/sql_db.py:1044-1049 | Every member of a flow is a group of the table that a link joins to that flow. |
| AutoSchedule.Audience | backend/db/sql_db.py:1036-1053 | The audience is the group and its size when the group id is truthy and the group exists (nobody if it does not). Otherwise it is the linked groups of a truthy flow and their summed size. Otherwise nobody. |
| AutoSchedule.LinkedGroupSeeded | backend/db/sql_db.py:969-974 | The group of every link of a flow is among the groups seeded for that flow. |
| AutoSchedule.AudienceSeeded | backend/db/sql_db.py:966-974 | Every group of an entry's audience is among the groups seeding marks busy for its lessons. |
| AutoSchedule.PlanTeachers | backend/db/sql_db.py:1066-1069 | The teachers the placement checks include every teacher the seeding marks. |
| AutoSchedule.RoomsFor | backend/db/sql_db.py:1056-1060 | Every candidate room exists and has at least the required seats. |
| AutoSchedule.ItemOf | backend/db/sql_db.py:999-1072 | An entry gets no plan item exactly when its hours have no template, nothing is missing, or it has no audience. Otherwise the item carries the entry, the missing lessons, the audience and its size, the checked teachers and the large-enough rooms. |
| AutoSchedule.Plan | backend/db/sql_db.py:1075 | The plan is sorted by (seats, groups) and is a permutation of the items in table order. |
| AutoSchedule.PlanItemsFromCurricula | backend/db/sql_db.py:1062-1075 | Every plan item is the item of some curriculum entry. |
| AutoSchedule.CandidateFromCurriculum | backend/db/sql_db.py:1062-1072 | Every item built before sorting is the item of some curriculum entry. |
| AutoSchedule.CurriculaItemsPlanned | backend/db/sql_db.py:999-1075 | Every curriculum entry that has a plan item has it in the plan. |
| AutoSchedule.BuildCandidates | backend/db/sql_db.py:999-1072 | The plan-building loop yields the entries' items in table order. |
| AutoSchedule.Keys | backend/db/sql_db.py:982-986 | The keys of a slot hold exactly `(week, day, pair, id)` for the given ids. |
| AutoSchedule.Mark | backend/db/sql_db.py:982-986 | Marking adds exactly the slot's keys for the given ids to the busy set. |
| AutoSchedule.Seed | backend/db/sql_db.py:950-986 | The seeding loop, with the linked groups of a flow read as plain ids as `find_collisions` reads them, computes the busy sets of the lessons in table order; `SeededCovers` proves they cover every existing lesson of weeks 1 and 2. |
| AutoSchedule.SeedAsWritten | backend/db/sql_db.py:960-986 | The seeding loop as written raises exactly when some week-1/2 lesson has an entry with no truthy group, a truthy flow and a link of that flow; otherwise it computes the same busy sets as `Seed`. |
| AutoSchedule.FlowLessonMakesSeedingRaise | backend/db/sql_db.py:968-974 | One week-1 lesson of a flow-only entry whose flow links one group makes the seeding as written raise, while `Seed` marks that group busy. |
| AutoSchedule.CoveredGrows | backend/db/sql_db.py:1115-1120 | Lessons covered by some busy sets stay covered by larger ones. |
| AutoSchedule.SeededLast | backend/db/sql_db.py:960-986 | Seeding marks the room, audience and teachers of the last lesson of weeks 1 and 2. |
| AutoSchedule.SeededCovers | backend/db/sql_db.py:950-986 | The seeded busy sets cover every existing lesson of weeks 1 and 2. |
| AutoSchedule.FreeRoom | backend/db/sql_db.py:1100-1103 | The room loop returns the first room free at the slot. It returns none exactly when every room is busy there. |
| AutoSchedule.FirstFreeSlot | backend/db/sql_db.py:1082-1129 | A returned slot is in the grid, frees every group and teacher, and has the first free room of the item. No earlier slot in week/day/pair order is usable. When none is returned, no slot of the grid is usable. |
| AutoSchedule.FreeSlotNoClash | backend/db/sql_db.py:1086-1101 | A lesson at a slot where its room, groups and teachers are not busy clashes with no covered lesson. |
| AutoSchedule.Occupy | backend/db/sql_db.py:1115-1120 | Placing an item only adds to the busy sets. |
| AutoSchedule.PlacedForItem | backend/db/sql_db.py:1100-1112 | A lesson of a needed type in one of the item's rooms is one the scheduler may add for that entry. |
| AutoSchedule.PlacedLessonPlaced | backend/db/sql_db.py:1100-1112 | The lesson placed at a free slot is one the scheduler may add, and its room and entry exist. |
| AutoSchedule.CoveredAppend | backend/db/sql_db.py:1115-1120 | Appending a covered lesson keeps all lessons covered. |
| AutoSchedule.PlacedLessonCovered | backend/db/sql_db.py:1105-1120 | The placed lesson refers to the item's entry, and its room, groups and teachers are busy after the placement. |
| AutoSchedule.PlaceKeepsCovered | backend/db/sql_db.py:1086-1120 | After a placement at a free slot every lesson is still covered, and the new lesson clashes with none before it. |
| Sorting.SortedAppend | backend/db/sql_db.py:1075 | Appending an element no smaller than any other keeps a sequence sorted. |
| Sorting.InsertSorted | backend/db/sql_db.py:1075 | Inserting into a sorted sequence keeps it sorted and adds exactly one copy of the element. |
| Sorting.SortBySorted | backend/db/sql_db.py:1075 | Sorting yields a sorted permutation of its input. |
| Collisions.CollectEntries | backend/db/sql_db.py:1147-1176 | The filing loop files every lesson under its groups, its teachers and its room, in lesson order. |
| Collisions.WeekValues | backend/db/sql_db.py:1182-1183 | The weeks listed for an owner are exactly those of its entries. |
| Collisions.DayValues | backend/db/sql_db.py:1183-1184 | The days listed for an owner's week are exactly those of its entries. |
| Collisions.BucketKeysSound | backend/db/sql_db.py:1182-1184 | Every (owner, week, day) the loops visit has an entry. |
| Collisions.BucketKeysComplete | backend/db/sql_db.py:1182-1184 | Every entry's (owner, week, day) is visited. |
| Collisions.BucketMember | backend/db/sql_db.py:1170-1176 | A day's list holds the (pair, lesson id) of exactly the entries filed there. |
| Collisions.BucketCount | backend/db/sql_db.py:1170-1176 | A day's list holds pair `p` as often as entries lie at that slot. |
| Collisions.SortSorted | backend/db/sql_db.py:1237 | Sorting an already sorted list changes nothing, so the windows pass sees the list the collisions pass sorted. |
| Collisions.OverlapsMember | backend/db/sql_db.py:1186-1195 | Collisions are reported for exactly the neighbours at the same pair, naming both lessons. |
| Collisions.GapIndex | backend/db/sql_db.py:1238-1248 | Every window comes from neighbours with at least one free pair between them, and its size is that count. |
| Collisions.GapAt | backend/db/sql_db.py:1238-1248 | Neighbours with a free pair between them are reported as a window. |
| Collisions.CountTwoAdjacent | backend/db/sql_db.py:1185-1187 | In a sorted list, two entries at a pair are neighbours. |
| Collisions.AdjacentCountTwo | backend/db/sql_db.py:1185-1187 | Two neighbours at a pair are two entries at it. |
| Collisions.SortedTwoAdjacent | backend/db/sql_db.py:1185-1187 | In a sorted list, a pair occurs twice exactly when two neighbours share it. |
| Collisions.NeighboursLeaveNothingBetween | backend/db/sql_db.py:1238-1240 | Sorted neighbours have no pair of the list strictly between them. |
| Collisions.NothingBetweenMakesNeighbours | backend/db/sql_db.py:1238-1240 | Two pairs with nothing of the list between them are neighbours somewhere. |
| Collisions.SortedDayCount | backend/db/sql_db.py:1185 | Sorting a day keeps the number of entries at each pair. |
| Collisions.CollisionSound | backend/db/sql_db.py:1182-1196 | A reported collision has at least two entries at its slot. |
| Collisions.SortedCollision | backend/db/sql_db.py:1185-1195 | Two entries at a pair of a sorted day give a collision there. |
| Collisions.DayCollision | backend/db/sql_db.py:1184-1195 | Two entries at a slot give a collision in that owner's day. |
| Collisions.CollisionComplete | backend/db/sql_db.py:1182-1196 | Two entries at a slot are reported as a collision there. |
| Collisions.CollisionReported | backend/db/sql_db.py:1182-1228 | A collision is reported at an owner's slot exactly when at least two of its entries lie there. |
| Collisions.SortedDayPairSound | backend/db/sql_db.py:1185 | Every pair in a sorted day is occupied by an entry. |
| Collisions.SortedDayPairComplete | backend/db/sql_db.py:1185 | Every occupied pair appears in the sorted day. |
| Collisions.SortedDayPairs | backend/db/sql_db.py:1185 | The sorted day is sorted and holds exactly the occupied pairs. |
| Collisions.GapSound | backend/db/sql_db.py:1238-1248 | A window of a day list joins two occupied pairs with only free pairs between, and its size is the number between. |
| Collisions.DayWindowSound | backend/db/sql_db.py:1236-1248 | The same for the windows of an owner's day. |
| Collisions.WindowSound | backend/db/sql_db.py:1233-1265 | Every reported window joins two occupied pairs with only free pairs between, with the right size. |
| Collisions.GapComplete | backend/db/sql_db.py:1238-1248 | Two occupied pairs with only free pairs between give a window of the day list. |
| Collisions.PairIndex | backend/db/sql_db.py:1237-1240 | An occupied pair has a position in the day list. |
| Collisions.PairOccupied | backend/db/sql_db.py:1237-1240 | Every position of the day list is an occupied pair. |
| Collisions.SortedGapComplete | backend/db/sql_db.py:1238-1248 | Two pairs of a sorted list more than one apart, with nothing of the list between, give a window. |
| Collisions.DayWindowComplete | backend/db/sql_db.py:1236-1248 | Two occupied pairs with free pairs between give a window of their day. |
| Collisions.WindowComplete | backend/db/sql_db.py:1233-1265 | Such pairs are reported as a window. |
| Collisions.WindowReported | backend/db/sql_db.py:1233-1265 | A window from `a` to `b` is reported exactly when both pairs are occupied, at least one pair lies between, and all between are free. |
| Collisions.ScanOverlaps | backend/db/sql_db.py:1186-1195 | The collisions loop over a sorted day computes `Overlaps`. |
| Collisions.ScanGaps | backend/db/sql_db.py:1238-1248 | The windows loop over a sorted day computes `Gaps`. |
| Collisions.DayErrors | backend/db/sql_db.py:1184-1195 | Sorting a day and scanning it gives that day's collisions. |
| Collisions.DayWindows | backend/db/sql_db.py:1236-1248 | Sorting a day again and scanning it gives that day's windows. |
| Collisions.ScanErrors | backend/db/sql_db.py:1182-1196 | The collisions pass over one owner dictionary gives `ErrorsOf`. |
| Collisions.ScanErrorsOver | backend/db/sql_db.py:1182-1196 | The pass over given day keys concatenates their collisions in order. |
| Collisions.ScanWindows | backend/db/sql_db.py:1233-1248 | The windows pass over one owner dictionary gives `WindowsOf`. |
| Collisions.ScanWindowsOver | backend/db/sql_db.py:1233-1248 | The pass over given day keys concatenates their windows in order. |
| Views.GetSubjects | backend/db/sql_db.py:544-554 | One entry per subject, in table order, with its id and both names. |
| Views.FlowGroupNames | backend/db/sql_db.py:559-567 | The names listed for a flow are exactly those of groups a link joins to it. |
| Views.LinkedNames | backend/db/sql_db.py:559-567 | One link contributes exactly the names of the groups it joins, when it belongs to the flow. |
| Views.GetFlows | backend/db/sql_db.py:556-572 | Every listed flow carries exactly its groups' names. |
| Views.GetFlowsIds | backend/db/sql_db.py:556-572 | The listed flow ids are the joined flow ids, each once, in first-reached order. |
| Views.JoinedFlowIdsMembers | backend/db/sql_db.py:559-567 | A flow id is joined exactly when the flow exists and a link joins it with an existing group. |
| Views.GetFlowsListsLinkedFlows | backend/db/sql_db.py:556-572 | A flow is listed exactly when it exists and a link joins it with an existing group. |
| Views.GetFlowsDistinct | backend/db/sql_db.py:556-572 | No flow is listed twice. |
| Views.GetFlowsNonEmpty | backend/db/sql_db.py:556-572 | Every listed flow has at least one group. |
| Views.JoinedFlowHasGroup | backend/db/sql_db.py:559-567 | A joined flow has a group name to list. |
| Views.TeacherAt | backend/db/sql_db.py:591-592 | The outer join finds the teacher with that id, and nothing exactly when the id is absent or unknown. |
| Views.GroupAt | backend/db/sql_db.py:591-592 | The same for groups. |
| Views.CurriculumRow | backend/db/sql_db.py:619-635 | A row is dropped exactly when the subject or the primary teacher is missing. A kept row carries the entry's id and hours, the subject's short name, the primary's name and the second teacher's name when found. |
| Views.GetCurriculumListsEveryEntry | backend/db/sql_db.py:574-637 | In a valid database every entry yields exactly one row, in table order. |
| Views.CurriculumGroupsResolved | backend/db/sql_db.py:622-626 | In a valid database a group entry lists its group's name (none if the name is empty), and a flow entry lists the flow's groups. |
| Views.ResolvedRowGroups | backend/db/sql_db.py:622-626 | The same for any entry whose references resolve. |
| Views.EmptyDay | backend/db/sql_db.py:676-680 | A pre-created day has the pairs 1..8, each empty. |
| Views.EmptyWeek | backend/db/sql_db.py:676-680 | A pre-created week has the days 1..6, each an empty day. |
| Views.EmptyGrid | backend/db/sql_db.py:676-680 | The pre-created grid has exactly the 96 slots, each empty. |
| Views.TeachersText | backend/db/sql_db.py:690-692 | The teacher text is the primary's name, followed by ", " and the second teacher's name when there is one. |
| Views.PlacementOf | backend/db/sql_db.py:681-700 | A lesson is placed exactly when its entry, subject, room and primary teacher exist. Then its cell has its type, the subject's name, the teacher text and the room's name, at its slot, under its groups. |
| Views.LessonGroups | backend/db/sql_db.py:684-688 | A lesson is written under its group when the id is truthy and the group exists, else under a truthy flow's groups, else under none. |
| Views.WriteGroups | backend/db/sql_db.py:705-708 | Writing under several names sets exactly those keys to the cell and keeps the rest. |
| Views.Write | backend/db/sql_db.py:702-708 | A write fails exactly when the lesson has groups and its slot lies outside the grid; the grid keeps its shape. |
| Views.Fill | backend/db/sql_db.py:639-711 | A successful `get_schedule` keeps the grid's shape. |
| Views.FillStep | backend/db/sql_db.py:681-708 | One more lesson writes its placement into the grid of the shorter prefix; skipped lessons change nothing. |
| Views.FillFailureStays | backend/db/sql_db.py:702-708 | Once a lesson raises, the whole call raises. |
| Views.WriteReads | backend/db/sql_db.py:705-708 | A write sets its groups' cells at its slot and leaves every other cell alone. |
| Views.FillReadsLastCell | backend/db/sql_db.py:639-711 | Each cell of the result is the one of the last lesson placed there for that group, or empty. |
| Views.FillSucceedsInGrid | backend/db/sql_db.py:639-711 | Lessons inside the grid never raise. |
| Views.ScheduleOfValidDatabase | backend/db/sql_db.py:639-711 | On a valid database `get_schedule` succeeds with the full 96-slot grid. |
| Views.Children | backend/db/sql_db.py:447-450 | The children of a parent are exactly the divisions naming it. |
| Views.DepartmentRooms | backend/db/sql_db.py:471-477 | A department lists exactly the rooms whose truthy department id names it. |
| Views.FacultyRooms | backend/db/sql_db.py:471-477 | A faculty itself lists exactly its rooms without a department. |
| Views.UniversityOf | backend/db/sql_db.py:481-540 | A university's entry has its id and name, one faculty per child, and one department per grandchild, in order. |
| Views.UniversityTree | backend/db/sql_db.py:444-542 | One entry per division without a parent, in table order. |
| Views.RoomListedOnce | backend/db/sql_db.py:471-477 | With distinct room ids, no room is listed both under a faculty and under a department. |
| Views.RoomPlacement | backend/db/sql_db.py:515-530 | A room with a truthy department id is among the rooms listed for that department id, and one without is among its faculty's own rooms. |
| Ids.NextId | frontend/src/components/UniversityTable.tsx:190-193 | A new id is 1 for an empty list, otherwise one above the largest id, so above every id. |
| Ids.NextKeyAbove | frontend/src/components/UniversityTable.tsx:190-193 | The new id exceeds every element's id. |
| Ids.AppendNextKeepsDistinct | frontend/src/components/UniversityTable.tsx:190-199 | Appending under the new id keeps ids distinct. |
| Text.Includes | frontend/src/components/flowsTable.tsx:19-24 | `includes` holds exactly when the needle occurs at some position. |
| Text.Trim | frontend/src/components/LecturersTable.tsx:51 | `trim` cuts only whitespace from both ends and leaves no whitespace at either end. |
| Text.TrimBlank | frontend/src/components/UniversityTable.tsx:601 | Text made only of whitespace trims to the empty string. |
| Seqs.Dedupe | frontend/src/components/DataComponent.tsx:41 | `Array.from(new Set(xs))` over strings keeps each element once, in first-occurrence order. |
| Seqs.RemoveAt | frontend/src/components/flowsTable.tsx:36-38 | Removing by index drops exactly that entry, and an index out of range changes nothing. |
| ClientTypes.FlowChoice | frontend/src/components/Curriculum.tsx:143 | The placeholder option selects no flow; any other option selects its id. |
| ClientTypes.SecondLecturerChoice | frontend/src/components/Curriculum.tsx:209-212 | An empty second-lecturer text means no second lecturer. |
| TreeUpdates.FindFaculty | frontend/src/components/ClassroomsTable.tsx:27-28 | A found faculty has the id and sits under a university with the id. |
| TreeUpdates.FindFacultyComplete | frontend/src/components/ClassroomsTable.tsx:27-28 | With unique university ids, the lookup fails exactly when no such faculty exists. |
| TreeUpdates.FindDepartment | frontend/src/components/LecturersTable.tsx:28-30 | A found department has the id and sits in the found faculty. |
| TreeUpdates.MapFaculty | frontend/src/components/ClassroomsTable.tsx:36-55 | The nested `map` applies the change to exactly the faculties on the selected path and keeps everything else. |
| TreeUpdates.MapDepartment | frontend/src/components/ClassroomsTable.tsx:63-90 | The nested `map` applies the change to exactly the departments on the selected path and keeps everything else. |
| ClassroomsTable.AddClassroomTo | frontend/src/components/ClassroomsTable.tsx:20-91 | It returns early exactly when a selection or the room number is missing or the target is not found. Otherwise the room gets the next id of the target's rooms, and goes to the faculty itself or to the chosen department. |
| ClassroomsTable.NewRoomIsFresh | frontend/src/components/ClassroomsTable.tsx:33-35 | The new room's id exceeds every id of its list. |
| ClassroomsTable.ClassroomsForm.constructor | frontend/src/components/ClassroomsTable.tsx:5-9 | The form starts closed and empty over the given tree. |
| ClassroomsTable.ClassroomsForm.ChooseUniversity | frontend/src/components/ClassroomsTable.tsx:11-14 | A new university clears faculty and department; the same one changes nothing. |
| ClassroomsTable.ClassroomsForm.ChooseFaculty | frontend/src/components/ClassroomsTable.tsx:16-18 | A new faculty clears the department; the same one changes nothing. |
| ClassroomsTable.ClassroomsForm.ChooseDepartment | frontend/src/components/ClassroomsTable.tsx:193 | Only the department selection changes. |
| ClassroomsTable.ClassroomsForm.OpenModal | frontend/src/components/ClassroomsTable.tsx:144 | Only the modal opens. |
| ClassroomsTable.ClassroomsForm.CloseModal | frontend/src/components/ClassroomsTable.tsx:230 | Only the modal closes; the fields stay. |
| ClassroomsTable.ClassroomsForm.TypeNumber | frontend/src/components/ClassroomsTable.tsx:214 | Typing stores the room number trimmed, and nothing else changes. |
| ClassroomsTable.BlankNumberRejected | frontend/src/components/ClassroomsTable.tsx:20-25 | A room number typed as whitespace only is stored empty, so the handler returns early. |
| ClassroomsTable.ClassroomsForm.AddClassroom | frontend/src/components/ClassroomsTable.tsx:20-98 | On an early return nothing changes. Otherwise the tree gets the room and the form closes and clears. |
| LecturersTable.AddLecturerWith | frontend/src/components/LecturersTable.tsx:20-64 | It returns early exactly when a selection or the name is missing, or the department is not found. Otherwise only that department changes: it gets one record, with the trimmed name under its next lecturer id. |
| LecturersTable.AddLecturerTo | frontend/src/components/LecturersTable.tsx:20-64 | As written: the same early returns, and the appended record has the `{ id, fullName }` shape, with no `full_name` property. |
| LecturersTable.AddLecturerIntendedTo | frontend/src/components/LecturersTable.tsx:51 | Corrected: the same early returns, and the appended record has the tree's declared `{ id, full_name }` shape. |
| LecturersTable.NameCell | frontend/src/components/LecturersTable.tsx:98 | As written: the cell shows `fullName`, so it is empty for every lecturer the backend delivered. |
| LecturersTable.IntendedNameCell | frontend/src/components/LecturersTable.tsx:98 | Corrected: the cell reads `full_name` and shows every delivered lecturer's name. |
| LecturersTable.AppendLecturerOnlyTouchesLecturers | frontend/src/components/LecturersTable.tsx:46-53 | Adding a lecturer changes only the department's lecturer list, by one record at its end. |
| LecturersTable.NewLecturerIsFresh | frontend/src/components/LecturersTable.tsx:33-35 | The new lecturer's id exceeds every id of the department's list. |
| LecturersTable.EnabledSubmitAddsLecturer | frontend/src/components/LecturersTable.tsx:184-192 | Through the enabled add button the handler acts exactly when the department is found, and the stored name is not blank. |
| LecturersTable.LecturersForm.constructor | frontend/src/components/LecturersTable.tsx:5-9 | The form starts closed and empty over the given tree. |
| LecturersTable.LecturersForm.ChooseUniversity | frontend/src/components/LecturersTable.tsx:11-14 | A new university clears faculty and department; the same one changes nothing. |
| LecturersTable.LecturersForm.ChooseFaculty | frontend/src/components/LecturersTable.tsx:16-18 | A new faculty clears the department; the same one changes nothing. |
| LecturersTable.LecturersForm.ChooseDepartment | frontend/src/components/LecturersTable.tsx:159 | Only the department selection changes. |
| LecturersTable.LecturersForm.OpenModal | frontend/src/components/LecturersTable.tsx:110 | Only the modal opens. |
| LecturersTable.LecturersForm.CloseModal | frontend/src/components/LecturersTable.tsx:197 | Only the modal closes; the fields stay. |
| LecturersTable.LecturersForm.TypeName | frontend/src/components/LecturersTable.tsx:180 | Typing stores the name as typed, and nothing else changes. |
| LecturersTable.LecturersForm.AddLecturer | frontend/src/components/LecturersTable.tsx:20-71 | On an early return nothing changes. Otherwise the tree is `AddLecturerTo`'s, with the new lecturer in the `{ id, fullName }` shape, and the form closes and clears. |
| GroupPicker.Suggestions | frontend/src/components/flowsTable.tsx:19-24 | The suggestions are exactly the known groups that match the input case-insensitively and are not excluded. |
| GroupPicker.EmptyInputSuggestsAll | frontend/src/components/flowsTable.tsx:19-24 | The empty input suggests every group not excluded. |
| GroupPicker.RemoveUndoesAppend | frontend/src/components/flowsTable.tsx:27-38 | Adding a name and removing the last entry restores the list. |
| GroupPicker.RemoveKeepsOthers | frontend/src/components/flowsTable.tsx:36-38 | Removing one entry keeps the others in order. |
| FlowsTable.AddFlowTo | frontend/src/components/flowsTable.tsx:40-44 | The pending groups become one more flow at the end, under the id one above the largest, or 1, so above every existing one. |
| FlowsTable.SubmittedFlowIsNonEmpty | frontend/src/components/flowsTable.tsx:177 | A flow submitted with the enabled button has at least one group. |
| FlowsTable.FlowsForm.constructor | frontend/src/components/flowsTable.tsx:11-24 | The form starts closed and empty, its suggestions computed once for the empty input. |
| FlowsTable.FlowsForm.OpenModal | frontend/src/components/flowsTable.tsx:70 | Only the modal opens. |
| FlowsTable.FlowsForm.CloseModal | frontend/src/components/flowsTable.tsx:181 | Only the modal closes; the pending list and input stay. |
| FlowsTable.FlowsForm.Type | frontend/src/components/flowsTable.tsx:81-84 | Typing sets the input, shows the list and recomputes it when the value changed. |
| FlowsTable.FlowsForm.Pick | frontend/src/components/flowsTable.tsx:110-114 | A picked suggestion fills the input and hides the list. |
| FlowsTable.FlowsForm.HandleAdd | frontend/src/components/flowsTable.tsx:27-33 | A known non-empty name joins the pending list and the input clears; anything else changes nothing. |
| FlowsTable.FlowsForm.HandleDelete | frontend/src/components/flowsTable.tsx:36-38 | Only the pending entry at the index goes. |
| FlowsTable.FlowsForm.AddFlow | frontend/src/components/flowsTable.tsx:40-50 | The pending groups become a new flow, and the form closes and clears. |
| Syllabus.NewFlowGroups | frontend/src/components/Syllabus.tsx:59 | The added groups are exactly the flow's groups not chosen yet. |
| Syllabus.AddAllFromFlow | frontend/src/components/Syllabus.tsx:53-62 | It returns early exactly when no flow is selected or none has the id. Otherwise it gives the chosen groups followed by the flow's new ones. |
| Syllabus.AddAllFromFlowNoDuplicates | frontend/src/components/Syllabus.tsx:53-62 | A choice without repetitions stays so after adding a flow that lists each group once. |
| Syllabus.AddSyllabusTo | frontend/src/components/Syllabus.tsx:64-79 | One more line at the end carries the form's fields under the id one above the largest, or 1, so above every existing one. |
| Syllabus.SubmittedLineNamesKnownLecturers | frontend/src/components/Syllabus.tsx:355-362 | A line submitted with the enabled button names known lecturers, and two different ones when it names two. |
| Syllabus.SyllabusForm.constructor | frontend/src/components/Syllabus.tsx:20-41 | The form starts closed and empty, with suggestions for the empty input. |
| Syllabus.SyllabusForm.Type | frontend/src/components/Syllabus.tsx:145-148 | Typing sets the input, shows the list and recomputes it when the value changed. |
| Syllabus.SyllabusForm.Pick | frontend/src/components/Syllabus.tsx:175-179 | A picked suggestion fills the input and empties and hides the list. |
| Syllabus.SyllabusForm.OpenModal | frontend/src/components/Syllabus.tsx:121 | Only the modal opens. |
| Syllabus.SyllabusForm.CloseModal | frontend/src/components/Syllabus.tsx:366 | Only the modal closes; the fields stay. |
| Syllabus.SyllabusForm.SelectSubject | frontend/src/components/Syllabus.tsx:131 | Only the subject changes, to the chosen value. |
| Syllabus.SyllabusForm.SelectHours | frontend/src/components/Syllabus.tsx:281 | Only the hours change, to the chosen value. |
| Syllabus.SyllabusForm.SelectAttestation | frontend/src/components/Syllabus.tsx:293 | Only the attestation changes, to the chosen value. |
| Syllabus.SyllabusForm.SelectLecturer | frontend/src/components/Syllabus.tsx:308 | Only the lecturer changes, to the chosen value. |
| Syllabus.SyllabusForm.SelectFlow | frontend/src/components/Syllabus.tsx:214 | The placeholder selects no flow; any other option selects its id. |
| Syllabus.SyllabusForm.SetSecondLecturer | frontend/src/components/Syllabus.tsx:333-336 | An empty text clears the second lecturer. |
| Syllabus.SyllabusForm.HandleAddGroup | frontend/src/components/Syllabus.tsx:44-50 | A known non-empty name joins the chosen groups and the input clears; anything else changes nothing. |
| Syllabus.SyllabusForm.HandleAddAllFromFlow | frontend/src/components/Syllabus.tsx:53-62 | On an early return nothing changes. Otherwise the flow's new groups are chosen and the flow selection clears. |
| Syllabus.SyllabusForm.RemoveGroup | frontend/src/components/Syllabus.tsx:263 | Only the chosen group at the index goes, and the suggestions are recomputed. |
| Syllabus.SyllabusForm.HandleAddSyllabus | frontend/src/components/Syllabus.tsx:64-90 | The form's fields become a new line, and the form closes and clears. |
| Curriculum.LecturerNamed | frontend/src/components/Curriculum.tsx:33-35 | The lookup finds a lecturer whose `full_name` is the name. It finds nothing exactly when the name is absent or no lecturer has that `full_name`; a `{ id, fullName }` record never matches. |
| Curriculum.Request | frontend/src/components/Curriculum.tsx:30-44 | No request is sent exactly when the subject is unknown or no lecturer has the primary name as `full_name`. A request carries the ids of the named subject and of lecturers with those `full_name`s, the group's id when a group has the name, and the flow when one is chosen. |
| Curriculum.ResolveGroups | frontend/src/components/Curriculum.tsx:45-51 | The new line lists the named group when it exists, otherwise the chosen flow's groups, otherwise none. |
| Curriculum.NewLine | frontend/src/components/Curriculum.tsx:52-63 | The appended line carries the answered id and the form's subject and hours. |
| Curriculum.EnabledSubmitSendsRequest | frontend/src/components/Curriculum.tsx:231-238 | The button is enabled only on names that are some lecturer's `full_name`. With it enabled on a known subject a request is sent, with two different lecturers when a second is chosen. |
| Curriculum.FlowChoiceListsFlowGroups | frontend/src/components/Curriculum.tsx:143 | A flow chosen through its select gives a line listing that flow's groups. |
| Curriculum.CurriculumForm.constructor | frontend/src/components/Curriculum.tsx:21-28 | The form starts closed and empty, with no group and no flow. |
| Curriculum.CurriculumForm.OpenModal | frontend/src/components/Curriculum.tsx:102 | Only the modal opens. |
| Curriculum.CurriculumForm.CloseModal | frontend/src/components/Curriculum.tsx:242 | Only the modal closes; the fields stay. |
| Curriculum.CurriculumForm.SelectSubject | frontend/src/components/Curriculum.tsx:112 | Only the subject changes, to the chosen value. |
| Curriculum.CurriculumForm.SelectHours | frontend/src/components/Curriculum.tsx:157 | Only the hours change, to the chosen value. |
| Curriculum.CurriculumForm.SelectAttestation | frontend/src/components/Curriculum.tsx:169 | Only the attestation changes, to the chosen value. |
| Curriculum.CurriculumForm.SelectLecturer | frontend/src/components/Curriculum.tsx:184 | Only the lecturer changes, to the chosen value. |
| Curriculum.CurriculumForm.SelectGroup | frontend/src/components/Curriculum.tsx:126 | Choosing a group clears the flow. |
| Curriculum.CurriculumForm.SelectFlow | frontend/src/components/Curriculum.tsx:143 | Choosing a flow clears the group. |
| Curriculum.CurriculumForm.SetSecondLecturer | frontend/src/components/Curriculum.tsx:209-212 | An empty text clears the second lecturer. |
| Curriculum.CurriculumForm.HandleAddCurriculum | frontend/src/components/Curriculum.tsx:30-71 | The request sent is `Request` of the form, which finds lecturers by `full_name` only. Nothing changes without a request or on a rejection. Otherwise the answered id names a new line, and the form closes and clears all but the group. |
| DataComponent.DepartmentGroups | frontend/src/components/DataComponent.tsx:44-55 | A department's groups are exactly those of its specialities. |
| DataComponent.FacultyGroups | frontend/src/components/DataComponent.tsx:44-55 | A faculty's groups are exactly those of its departments. |
| DataComponent.UniversityGroups | frontend/src/components/DataComponent.tsx:44-55 | A university's groups are exactly those of its faculties. |
| DataComponent.AllGroups | frontend/src/components/DataComponent.tsx:44-55 | `allGroups` holds exactly the groups of the tree. |
| DataComponent.TreeGroupNames | frontend/src/components/DataComponent.tsx:30-40 | The raw name list is the names of `allGroups`, element by element. |
| DataComponent.TreeGroupNamesAreAllGroupsNames | frontend/src/components/DataComponent.tsx:29-55 | The two memos traverse the tree alike. |
| DataComponent.UniversityLevel | frontend/src/components/DataComponent.tsx:29-55 | The same at university level. |
| DataComponent.FacultyLevel | frontend/src/components/DataComponent.tsx:29-55 | The same at faculty level. |
| DataComponent.DepartmentLevel | frontend/src/components/DataComponent.tsx:29-55 | The same at department level. |
| DataComponent.RawNameInTree | frontend/src/components/DataComponent.tsx:29-40 | Every raw name belongs to a group of the tree. |
| DataComponent.TreeNameInRaw | frontend/src/components/DataComponent.tsx:29-40 | Every group of the tree contributes its name. |
| DataComponent.GroupNames | frontend/src/components/DataComponent.tsx:29-42 | `groupNames` holds exactly the tree's group names, each once. |
| DataComponent.FacultyLecturers | frontend/src/components/DataComponent.tsx:57-66 | A faculty's lecturers are exactly those of its departments. |
| DataComponent.UniversityLecturers | frontend/src/components/DataComponent.tsx:57-66 | A university's lecturers are exactly those of its faculties. |
| DataComponent.AllLecturers | frontend/src/components/DataComponent.tsx:57-66 | `allLecturers` holds exactly the lecturers of the tree. |
| DataComponent.AppendedTreeLecturers | frontend/src/components/DataComponent.tsx:57-77 | After the lecturers table appended one record, every lecturer of the tree was there before or is that record. |
| DataComponent.AppendedFacultyLecturers | frontend/src/components/LecturersTable.tsx:41-60 | Within one faculty of the selected university, the lecturers after the append were there before or are the new record. |
| DataComponent.AppendedLecturerListed | frontend/src/components/DataComponent.tsx:57-66 | When the selected department exists, the appended record is among `allLecturers`. |
| DataComponent.AddedLecturerNeverSent | frontend/src/components/DataComponent.tsx:74-97 | As written: take a lecturer added in the lecturers table under a name no lecturer had as `full_name`. In the curriculum form the submit button stays disabled for that name, and the handler sends nothing. |
| DataComponent.IntendedLecturerReachesCurriculum | frontend/src/components/DataComponent.tsx:74-97 | Corrected: a lecturer added under the intended shape makes the curriculum button enabled once subject, hours and attestation are set. With a known subject, the handler then sends a request. |
| ScheduleComponent.RowAddressing | frontend/src/components/ScheduleComponent.tsx:33-43 | The grid has 48 rows, and row `i` addresses day `i / 8 + 1` and pair `i % 8 + 1`, always within 1..6 and 1..8. |
| ScheduleComponent.RowAt | frontend/src/components/ScheduleComponent.tsx:63-65 | Row `i` addresses day `i / 8 + 1` and pair `i % 8 + 1`. |
| ScheduleComponent.GroupsForActiveDepartment | frontend/src/components/ScheduleComponent.tsx:83-99 | Without an active university and faculty there are no columns. Every column is a group of the active faculty, and of the named department unless `'all'` is chosen. |
| ScheduleComponent.UnknownSelectionShowsNothing | frontend/src/components/ScheduleComponent.tsx:84-89 | When no university has the active name, or the first that has it lacks a faculty of the active name, every tab shows no groups, whatever later universities hold. |
| ScheduleComponent.AllDepartmentsConcatenated | frontend/src/components/ScheduleComponent.tsx:90-94 | `'all'` shows every department's groups of the first matching faculty, concatenated in order. |
| ScheduleComponent.DepartmentWithinAll | frontend/src/components/ScheduleComponent.tsx:95-98 | One department's columns are among those of `'all'`. |
| ScheduleComponent.NamedDepartmentGroups | frontend/src/components/ScheduleComponent.tsx:84-98 | A department tab shows exactly the groups of the first department of that short name in the first matching faculty of the first matching university, in order. |
| ScheduleComponent.UnknownDepartmentShowsNothing | frontend/src/components/ScheduleComponent.tsx:95-96 | When the matching faculty has no department of that short name, the tab shows no groups. |
| ScheduleComponent.Put | frontend/src/components/ScheduleComponent.tsx:110-129 | Writing a cell makes it readable at its address, keeps every other cell, and adds only the keys on its path. |
| ScheduleComponent.PutPut | frontend/src/components/ScheduleComponent.tsx:110-129 | Writing the same address twice is the same as writing it once with the later cell. |
| ScheduleComponent.OfferedCurricula | frontend/src/components/ScheduleComponent.tsx:341 | The form offers exactly the curriculum lines that list the chosen group. |
| ScheduleComponent.NewCell | frontend/src/components/ScheduleComponent.tsx:119-124 | The new cell has the chosen type and the fixed teacher text. It has the subject of the chosen line and the number of the chosen room, each present exactly when found. |
| ScheduleComponent.ScheduleView.constructor | frontend/src/components/ScheduleComponent.tsx:55-61 | The props are taken as given, and the own state starts at its defaults. |
| ScheduleComponent.ScheduleView.HandleTabClick | frontend/src/components/ScheduleComponent.tsx:67-71 | Choosing a university clears faculty and department; the rest of the state stays. |
| ScheduleComponent.ScheduleView.HandleSecondTabClick | frontend/src/components/ScheduleComponent.tsx:72-75 | Choosing a faculty clears the department; the rest of the state stays. |
| ScheduleComponent.ScheduleView.HandleThirdTabClick | frontend/src/components/ScheduleComponent.tsx:76-80 | Choosing a department tab sets it and shows its groups as columns; the rest of the state stays. |
| ScheduleComponent.ScheduleView.SetCurrentWeek | frontend/src/components/ScheduleComponent.tsx:139-146 | Only the current week changes. |
| ScheduleComponent.ScheduleView.OpenInsert | frontend/src/components/ScheduleComponent.tsx:248-256 | On an empty cell, the "+" button opens the form at that day, pair and group; the rest of the state stays. |
| ScheduleComponent.ScheduleView.SelectClassroom | frontend/src/components/ScheduleComponent.tsx:322 | Only the chosen room changes. |
| ScheduleComponent.ScheduleView.SelectCurriculum | frontend/src/components/ScheduleComponent.tsx:338 | Only the chosen curriculum line changes. |
| ScheduleComponent.ScheduleView.SelectType | frontend/src/components/ScheduleComponent.tsx:354 | Only the chosen lesson type changes. |
| ScheduleComponent.ScheduleView.CloseModal | frontend/src/components/ScheduleComponent.tsx:367 | Cancelling closes the form and keeps every selection. |
| ScheduleComponent.ScheduleView.HandleAddSchedule | frontend/src/components/ScheduleComponent.tsx:101-131 | On a rejected call nothing changes. On a resolved one exactly one cell is written and the form closes; the rest of the state stays. |
| UniversityTable.InitialDataUniqueIds | frontend/src/components/UniversityTable.tsx:18-137 | The built-in starting tree has unique ids at every level. |
| UniversityTable.InitialFacultiesOK | frontend/src/components/UniversityTable.tsx:18-137 | Each built-in faculty satisfies the invariant. |
| UniversityTable.FindFaculty | frontend/src/components/UniversityTable.tsx:246-249 | A found faculty has the id and sits under a university with the id. |
| UniversityTable.FindDepartment | frontend/src/components/UniversityTable.tsx:300-305 | A found department has the id and sits in the found faculty. |
| UniversityTable.FindFacultyAt | frontend/src/components/UniversityTable.tsx:246-249 | With unique ids, the faculty found on a path is the one at that path. |
| UniversityTable.FindDepartmentAt | frontend/src/components/UniversityTable.tsx:300-305 | The same for departments. |
| UniversityTable.AtFaculty | frontend/src/components/UniversityTable.tsx:257-281 | The nested `map` changes only the faculties on the path and keeps the universities' ids and names. |
| UniversityTable.AtDepartment | frontend/src/components/UniversityTable.tsx:313-345 | The nested `map` changes only the departments on the path. |
| UniversityTable.AtFacultyKeepsUniqueIds | frontend/src/components/UniversityTable.tsx:257-281 | An id-preserving faculty update keeps ids unique. |
| UniversityTable.AtDepartmentKeepsUniqueIds | frontend/src/components/UniversityTable.tsx:313-345 | An id-preserving department update keeps ids unique. |
| UniversityTable.AtFacultyThenFind | frontend/src/components/UniversityTable.tsx:257-281 | A lookup along the updated path returns the updated faculty. |
| UniversityTable.AtDepartmentThenFind | frontend/src/components/UniversityTable.tsx:313-345 | A lookup along the updated path returns the updated department. |
| UniversityTable.AddUniversityTo | frontend/src/components/UniversityTable.tsx:189-201 | The new university, without faculties, is appended under the id one above the largest, or 1, so above every existing one. |
| UniversityTable.AddUniversityKeepsUniqueIds | frontend/src/components/UniversityTable.tsx:189-201 | Adding a university keeps ids unique. |
| UniversityTable.AddFacultyTo | frontend/src/components/UniversityTable.tsx:206-236 | It returns early exactly when no university has the selected id. Otherwise each university with the id gets the new faculty at its end. |
| UniversityTable.AddFacultyKeepsUniqueIds | frontend/src/components/UniversityTable.tsx:206-236 | Adding a faculty keeps ids unique. |
| UniversityTable.AddDepartmentTo | frontend/src/components/UniversityTable.tsx:242-281 | It succeeds exactly when university, faculty and name are given and the faculty is found. Then a new empty department goes to that faculty's end. |
| UniversityTable.AddDepartmentKeepsUniqueIds | frontend/src/components/UniversityTable.tsx:242-281 | Adding a department keeps ids unique. |
| UniversityTable.AddDepartmentThenFind | frontend/src/components/UniversityTable.tsx:242-281 | After the addition the faculty on the path has the new department last. |
| UniversityTable.NewDepartmentOK | frontend/src/components/UniversityTable.tsx:257-281 | The faculty with the new department appended satisfies the invariant. |
| UniversityTable.AddGroupTo | frontend/src/components/UniversityTable.tsx:290-345 | It succeeds exactly when every selection, a name and a course are given and the department is found. Then the group is added with the form's student count. |
| UniversityTable.AddGroupKeepsUniqueIds | frontend/src/components/UniversityTable.tsx:290-345 | Adding a group keeps ids unique. |
| UniversityTable.AddGroupThenFind | frontend/src/components/UniversityTable.tsx:290-345 | After the addition the department on the path has the new group last. |
| UniversityTable.BlankDepartmentNameRejected | frontend/src/components/UniversityTable.tsx:242-244 | A department name typed as whitespace only is stored empty, so `addDepartment` returns early. |
| UniversityTable.BlankGroupNameRejected | frontend/src/components/UniversityTable.tsx:290-297 | A group name typed as whitespace only is stored empty, so `addGroup` returns early. |
| UniversityTable.DepartmentOnPathOK | frontend/src/components/UniversityTable.tsx:313-345 | A department found in a tree with unique ids satisfies the invariant. |
| UniversityTable.AddLecturerTo | frontend/src/components/UniversityTable.tsx:357-401 | It succeeds exactly when every selection and a name are given and the department is found. Then the lecturer is added under the trimmed name. |
| UniversityTable.AddLecturerKeepsUniqueIds | frontend/src/components/UniversityTable.tsx:357-401 | Adding a lecturer keeps ids unique. |
| UniversityTable.AddLecturerThenFind | frontend/src/components/UniversityTable.tsx:357-401 | After the addition the department on the path has the new lecturer, trimmed, last. |
| UniversityTable.EnabledLecturerSubmitAdds | frontend/src/components/UniversityTable.tsx:853-862 | Through the enabled add button `addLecturer` acts exactly when the department is found, and the stored name is not blank. |
| UniversityTable.UniversityEditor.constructor | frontend/src/components/UniversityTable.tsx:18-164 | The editor starts with the built-in tree and every form closed, with ids unique. |
| UniversityTable.UniversityEditor.ChooseDepartmentUniversity | frontend/src/components/UniversityTable.tsx:167-169 | A new university clears the department form's faculty; the same one changes nothing. |
| UniversityTable.UniversityEditor.ChooseGroupUniversity | frontend/src/components/UniversityTable.tsx:171-174 | A new university clears the group form's faculty and department. |
| UniversityTable.UniversityEditor.ChooseGroupFaculty | frontend/src/components/UniversityTable.tsx:176-178 | A new faculty clears the group form's department. |
| UniversityTable.UniversityEditor.ChooseLecturerUniversity | frontend/src/components/UniversityTable.tsx:180-183 | A new university clears the lecturer form's faculty and department. |
| UniversityTable.UniversityEditor.ChooseLecturerFaculty | frontend/src/components/UniversityTable.tsx:185-187 | A new faculty clears the lecturer form's department. |
| UniversityTable.UniversityEditor.TypeUniversityName | frontend/src/components/UniversityTable.tsx:498 | Typing stores the university name trimmed, and nothing else changes. |
| UniversityTable.UniversityEditor.TypeFacultyName | frontend/src/components/UniversityTable.tsx:535 | Typing stores the faculty name trimmed, and nothing else changes. |
| UniversityTable.UniversityEditor.TypeDepartmentName | frontend/src/components/UniversityTable.tsx:601 | Typing stores the department name trimmed, and nothing else changes. |
| UniversityTable.UniversityEditor.TypeGroupName | frontend/src/components/UniversityTable.tsx:691 | Typing stores the group name trimmed, and nothing else changes. |
| UniversityTable.UniversityEditor.ChooseFacultyUniversity | frontend/src/components/UniversityTable.tsx:521 | Only the faculty form's university changes. |
| UniversityTable.UniversityEditor.ChooseDepartmentFaculty | frontend/src/components/UniversityTable.tsx:582 | Only the department form's faculty changes. |
| UniversityTable.UniversityEditor.ChooseGroupDepartment | frontend/src/components/UniversityTable.tsx:670 | Only the group form's department changes. |
| UniversityTable.UniversityEditor.SelectGroupCourse | frontend/src/components/UniversityTable.tsx:700 | Only the group form's course changes. |
| UniversityTable.UniversityEditor.SetStudentsCount | frontend/src/components/UniversityTable.tsx:718 | Only the group form's student count changes. |
| UniversityTable.UniversityEditor.ChooseLecturerDepartment | frontend/src/components/UniversityTable.tsx:829 | Only the lecturer form's department changes. |
| UniversityTable.UniversityEditor.TypeLecturerName | frontend/src/components/UniversityTable.tsx:850 | Typing stores the lecturer name as typed, and nothing else changes. |
| UniversityTable.UniversityEditor.OpenUniversityForm | frontend/src/components/UniversityTable.tsx:475 | Only the university form opens. |
| UniversityTable.UniversityEditor.CloseUniversityForm | frontend/src/components/UniversityTable.tsx:507 | Only the university form closes; its fields stay. |
| UniversityTable.UniversityEditor.OpenFacultyForm | frontend/src/components/UniversityTable.tsx:479 | Only the faculty form opens. |
| UniversityTable.UniversityEditor.CloseFacultyForm | frontend/src/components/UniversityTable.tsx:548 | Only the faculty form closes; its fields stay. |
| UniversityTable.UniversityEditor.OpenDepartmentForm | frontend/src/components/UniversityTable.tsx:483 | Only the department form opens. |
| UniversityTable.UniversityEditor.CloseDepartmentForm | frontend/src/components/UniversityTable.tsx:617 | Only the department form closes; its fields stay. |
| UniversityTable.UniversityEditor.OpenGroupForm | frontend/src/components/UniversityTable.tsx:487 | Only the group form opens. |
| UniversityTable.UniversityEditor.CloseGroupForm | frontend/src/components/UniversityTable.tsx:737 | Only the group form closes; its fields stay. |
| UniversityTable.UniversityEditor.OpenLecturerForm | frontend/src/components/UniversityTable.tsx:780 | Only the lecturer form opens. |
| UniversityTable.UniversityEditor.CloseLecturerForm | frontend/src/components/UniversityTable.tsx:867 | Only the lecturer form closes; its fields stay. |
| UniversityTable.UniversityEditor.AddUniversity | frontend/src/components/UniversityTable.tsx:189-204 | The university is added and the form closes and clears, keeping ids unique. |
| UniversityTable.UniversityEditor.AddFaculty | frontend/src/components/UniversityTable.tsx:206-240 | On an early return nothing changes. Otherwise the faculty is added and the form closes and clears, keeping ids unique. |
| UniversityTable.UniversityEditor.AddDepartment | frontend/src/components/UniversityTable.tsx:242-288 | On an early return nothing changes. Otherwise the department is added, the modal closes, and university, faculty and name clear, keeping ids unique. |
| UniversityTable.UniversityEditor.AddGroup | frontend/src/components/UniversityTable.tsx:290-355 | On an early return nothing changes. Otherwise the group is added and the form clears, its student count back to 15, keeping ids unique. |
| UniversityTable.UniversityEditor.AddLecturer | frontend/src/components/UniversityTable.tsx:357-408 | On an early return nothing changes. Otherwise the lecturer is added and the form closes and clears, keeping ids unique. |

## Left out

- The web layer (`backend/web.py`, `backend/main.py`) and all network I/O: the routes only forward to the database class.
- The client's API module (`frontend/src/api.ts`): every remote call is a `Remote` parameter that resolves with a value or rejects.
- The application wiring (`frontend/src/App.tsx`) and all JSX markup and styling: only state and handlers are modelled.
- The ORM sessions and commits: each write is atomic on the in-memory tables, and a join looks rows up by primary key.
- The database's own constraints beyond those the writes check (unique indexes, foreign keys) are not modelled. The invariant `Tables.Valid` states what the writes maintain.
- `create_test_data` and the logging `print` calls: they are not part of the behaviour.
- `toLowerCase` is a function parameter `lower`: Dafny strings have no case folding.
- `frontend/src/components/SubjectsTable.tsx`: its state record does not match its declared type, so there is no consistent behaviour to model.
- JavaScript `Set` deduplication of objects: records decoded from JSON are distinct objects, so deduplication removes nothing and is modelled as the identity.
- Client-side update-by-id and remove-by-id of timetable cells: the client has no such code, and its cells carry no id.
- Changes of a component's props from outside (a parent re-rendering with new data) are not modelled.
- `parseInt` and `Number` of non-numeric text (`NaN`): form inputs are taken as integers.
- Sorting.SortBySorted: stability of Python's sort is not stated, only sortedness and permutation.
- Views.UniversityOf: the department's `short_name` may be `None` in the tables. It is passed through as an option, not rejected as the response model would reject it.
- `get_database` (the factory that builds the class from a connection string) and the abstract interface in `backend/db/main_db.py`: no behaviour beyond construction.
- Nested dictionaries in `get_schedule` and `find_collisions` are flat lists. Key order is the order of first insertion, as in Python.
- The ids the database gives on commit are modelled as `Database.NewId`, one above the largest id.
- ScheduleComponent.ScheduleView.OpenInsert: takes the day and pair numbers the render computed as arguments, proved in range by `RowAddressing`.
- Views.GetFlows, Views.GetCurriculum, Views.Fill, Views.FillReadsLastCell and Database.SQLDatabase.GetSchedule take query rows in insertion order. The SELECTs of `get_flows`, `get_curriculum` and `get_schedule` have no ORDER BY, so SQL does not guarantee that order. It decides the order of the flow and curriculum lists, and which lesson shows when two lessons hold one slot.
- LecturersTable.LecturersForm.AddLecturer: models the handler as written, appending the `{ id, fullName }` record. The corrected `AddLecturerIntendedTo` is stated beside it (see "## Findings").
- Database.SQLDatabase.AutoSchedule: states that every new lesson is legal and clash-free, not which free slot is chosen. `FirstFreeSlot` states the first-fit choice for one item.

## Findings

| source | as written | input that shows it | evidently intended | confidence | as-written member | corrected member |
|---|---|---|---|---|---|---|
| backend/db/sql_db.py:968-974 | The seeding loop of `auto_schedule` reads the rows of the one-column query `select(FlowGroupLink.group_id)` with `g[0]`. Those rows are plain ids, so the loop raises `TypeError` and nothing is scheduled. | A curriculum entry with no group, flow 1, one link of flow 1 to group 1, and an existing lesson of that entry in week 1. | Mark the flow's linked groups busy, reading the rows as ids, as `find_collisions` does at backend/db/sql_db.py:1162. | not executed; rests on the row shape of a one-column `select` in SQLModel | AutoSchedule.SeedAsWritten, AutoSchedule.FlowLessonMakesSeedingRaise | AutoSchedule.Seed, AutoSchedule.SeededCovers |
| frontend/src/components/LecturersTable.tsx:51 | The lecturers form appends `{ id, fullName }` to the shared tree. Every other reader of that tree uses `full_name`: `LecturerType` in frontend/src/types.ts:6-9, the backend's response, and the curriculum form at frontend/src/components/Curriculum.tsx:33-35 and :235-236. So the curriculum form never finds an added lecturer. The table's own cell at :98 reads `fullName` and is empty for every lecturer the backend delivered. | Add lecturer "Иванов" to an existing department in the lecturers form, then choose "Иванов" as the curriculum lecturer. The submit button stays disabled, and the handler returns at frontend/src/components/Curriculum.tsx:34. | One key, `full_name`, both for the record the form appends and for the cell it shows. | not executed; follows from the property names in the code | LecturersTable.AddLecturerTo, DataComponent.AddedLecturerNeverSent, LecturersTable.NameCell | LecturersTable.AddLecturerIntendedTo, DataComponent.IntendedLecturerReachesCurriculum, LecturersTable.IntendedNameCell |
