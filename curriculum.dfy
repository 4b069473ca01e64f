/** The curriculum form (frontend/src/components/Curriculum.tsx): a subject,
    hours, attestation, one or two lecturers and either one group or one flow are
    sent to the backend, and the id it answers with names a new line in the
    client's list. */
module Curriculum {
  import opened Wrappers
  import opened Seqs
  import opened ClientTypes

  function SubjectName(s: Subject): string { s.name }
  function GroupName(g: Group): string { g.name }
  function FlowId(f: Flow): int { f.id }

  /** The arguments of the `addCurriculumLesson` call. */
  datatype LessonRequest = LessonRequest(
    subjectId: int, hours: int, primaryTeacherId: int, secondaryTeacherId: Option<int>,
    groupId: Option<int>, flowId: Option<int>)

  /** The first lecturer whose `full_name` is `name`, if any. An absent name
      (`null`) matches nobody, and neither does a lecturer of the
      `{ id, fullName }` shape, whose `full_name` is `undefined`. */
  function LecturerNamed(lecturers: seq<Lecturer>, name: Option<string>): (r: Option<Lecturer>)
    ensures r.Some? ==> name.Some? && r.value in lecturers && r.value.SnakeKeyed? && r.value.fullName == name.value
    ensures r.None? <==> name.None? || forall j :: 0 <= j < |lecturers| ==> FullNameProperty(lecturers[j]) != name
  {
    if name.None? then None else FindBy(lecturers, FullNameProperty, name)
  }

  /** What `handleAddCurriculum` sends, or `None` when it returns before the call:
      no subject or no primary lecturer of the selected names. The subject, the
      lecturers (by `full_name`) and the group are looked up by name; an unknown second lecturer
      or group is sent as absent, and the flow id is sent when it is set. */
  function Request(
    subjects: seq<Subject>, lecturers: seq<Lecturer>, allGroups: seq<Group>,
    subject: string, hours: int, lecturer: string, secondLecturer: Option<string>,
    group: string, flow: Option<int>): (r: Option<LessonRequest>)
    ensures r.None? <==>
      (forall j :: 0 <= j < |subjects| ==> subjects[j].name != subject) ||
      (forall j :: 0 <= j < |lecturers| ==> FullNameProperty(lecturers[j]) != Some(lecturer))
    ensures r.Some? ==>
      (exists s :: s in subjects && s.name == subject && s.id == r.value.subjectId) &&
      (exists l :: l in lecturers && l.SnakeKeyed? && l.fullName == lecturer && l.id == r.value.primaryTeacherId) &&
      r.value.hours == hours
    ensures r.Some? ==>
      (r.value.secondaryTeacherId.Some? <==>
        secondLecturer.Some? && exists j :: 0 <= j < |lecturers| && FullNameProperty(lecturers[j]) == secondLecturer) &&
      (r.value.secondaryTeacherId.Some? ==>
        exists l :: l in lecturers && l.SnakeKeyed? && l.fullName == secondLecturer.value &&
                    l.id == r.value.secondaryTeacherId.value)
    ensures r.Some? ==>
      (r.value.groupId.Some? <==> exists j :: 0 <= j < |allGroups| && allGroups[j].name == group) &&
      (r.value.groupId.Some? ==> exists g :: g in allGroups && g.name == group && g.id == r.value.groupId.value)
    ensures r.Some? ==> r.value.flowId == (if GivenId(flow) then flow else None)
  {
    match FindBy(subjects, SubjectName, subject)
    case None => None
    case Some(s) =>
      match FindBy(lecturers, FullNameProperty, Some(lecturer))
      case None => None
      case Some(primary) =>
        var second := LecturerNamed(lecturers, secondLecturer);
        var g := FindBy(allGroups, GroupName, group);
        Some(LessonRequest(
          s.id, hours, primary.id,
          if second.Some? then Some(second.value.id) else None,
          if g.Some? then Some(g.value.id) else None,
          if GivenId(flow) then flow else None))
  }

  /** The groups the new line lists: the selected group when a group has that
      name, otherwise the groups of the flow with the selected id, otherwise none. */
  function ResolveGroups(allGroups: seq<Group>, flows: seq<Flow>, group: string, flow: Option<int>): (r: seq<string>)
    ensures (exists j :: 0 <= j < |allGroups| && allGroups[j].name == group) ==> r == [group]
    ensures (forall j :: 0 <= j < |allGroups| ==> allGroups[j].name != group) ==>
      (flow.Some? && (exists j :: 0 <= j < |flows| && flows[j].id == flow.value) ==>
         exists f :: f in flows && f.id == flow.value && r == f.groups) &&
      (flow.None? || (forall j :: 0 <= j < |flows| ==> flows[j].id != flow.value) ==> r == [])
  {
    match FindBy(allGroups, GroupName, group)
    case Some(g) => [g.name]
    case None =>
      if flow.None? then []
      else match FindBy(flows, FlowId, flow.value)
        case None => []
        case Some(f) => f.groups
  }

  /** The line the client appends once the backend answered with `id`. */
  function NewLine(
    id: int, allGroups: seq<Group>, flows: seq<Flow>, subject: string, hours: int, attestation: string,
    lecturer: string, secondLecturer: Option<string>, group: string, flow: Option<int>): (r: CurriculumLine)
    ensures r.Entered? && r.id == id && r.subject == subject && r.hours == hours
    ensures r.attestation == attestation && r.lecturer == lecturer
    ensures r.groups == ResolveGroups(allGroups, flows, group, flow)
    ensures r.secondLecturer.Some? <==> Given(secondLecturer)
    ensures r.secondLecturer.Some? ==> r.secondLecturer == secondLecturer
  {
    Entered(id, subject, ResolveGroups(allGroups, flows, group, flow), hours, attestation, lecturer,
            if Given(secondLecturer) then secondLecturer else None)
  }

  /** The submit button's condition: subject, hours and attestation set, the
      lecturer one of the lecturers' `full_name`s, the second lecturer absent or
      one of them, and not the first lecturer again. */
  predicate SubmitEnabled(
    lecturers: seq<Lecturer>, subject: string, hours: int, attestation: string,
    lecturer: string, secondLecturer: Option<string>)
  {
    subject != "" && hours != 0 && attestation != "" &&
    Some(lecturer) in Map(lecturers, FullNameProperty) &&
    (secondLecturer.None? || secondLecturer in Map(lecturers, FullNameProperty)) &&
    secondLecturer != Some(lecturer)
  }

  /** With the button enabled on a subject from the list, the handler does call
      the backend, with two different lecturers when a second one is chosen. */
  lemma EnabledSubmitSendsRequest(
    subjects: seq<Subject>, lecturers: seq<Lecturer>, allGroups: seq<Group>,
    subject: string, hours: int, attestation: string, lecturer: string, secondLecturer: Option<string>,
    group: string, flow: Option<int>)
    requires SubmitEnabled(lecturers, subject, hours, attestation, lecturer, secondLecturer)
    requires exists j :: 0 <= j < |subjects| && subjects[j].name == subject
    ensures var r := Request(subjects, lecturers, allGroups, subject, hours, lecturer, secondLecturer, group, flow);
      r.Some? && r.value.hours != 0 &&
      (r.value.secondaryTeacherId.Some? <==> secondLecturer.Some?)
  {
    var names := Map(lecturers, FullNameProperty);
    var i :| 0 <= i < |names| && names[i] == Some(lecturer);
    assert FullNameProperty(lecturers[i]) == Some(lecturer);
    if secondLecturer.Some? {
      var k :| 0 <= k < |names| && names[k] == secondLecturer;
      assert FullNameProperty(lecturers[k]) == secondLecturer;
    }
  }

  /** A group and a flow are never selected together: the group's select clears
      the flow and the flow's select clears the group. */
  ghost predicate Exclusive(group: string, flow: Option<int>) {
    group == "" || flow.None?
  }

  /** With the flow chosen through its select (so no group is selected) and no
      group named by the empty text, the new line lists the flow's groups. */
  lemma FlowChoiceListsFlowGroups(allGroups: seq<Group>, flows: seq<Flow>, flow: Flow)
    requires flow in flows && (forall j :: 0 <= j < |allGroups| ==> allGroups[j].name != "")
    requires forall j :: 0 <= j < |flows| ==> flows[j].id == flow.id ==> flows[j] == flow
    ensures ResolveGroups(allGroups, flows, "", Some(flow.id)) == flow.groups
  {
  }

  /** The component's state: the list it was given and every field of the form. */
  datatype CurriculumState = CurriculumState(
    data: seq<CurriculumLine>, isModalOpen: bool,
    selectedSubject: string, selectedGroup: string, selectedHours: int, selectedAttestation: string,
    selectedLecturer: string, selectedSecondLecturer: Option<string>, selectedFlow: Option<int>)

  class CurriculumForm {
    const subjects: seq<Subject>
    const allGroups: seq<Group>
    const flows: seq<Flow>
    const lecturers: seq<Lecturer>
    var state: CurriculumState

    constructor(data: seq<CurriculumLine>, subjects: seq<Subject>, allGroups: seq<Group>, flows: seq<Flow>,
                lecturers: seq<Lecturer>)
      ensures this.subjects == subjects && this.allGroups == allGroups && this.flows == flows
      ensures this.lecturers == lecturers
      ensures state == CurriculumState(data, false, "", "", 0, "", "", None, None)
      ensures Exclusive(state.selectedGroup, state.selectedFlow)
    {
      this.subjects := subjects;
      this.allGroups := allGroups;
      this.flows := flows;
      this.lecturers := lecturers;
      state := CurriculumState(data, false, "", "", 0, "", "", None, None);
    }

    /** The button that opens the form. */
    method OpenModal()
      modifies this
      ensures state == old(state).(isModalOpen := true)
    {
      state := state.(isModalOpen := true);
    }

    /** The cancel button closes the form and keeps its fields. */
    method CloseModal()
      modifies this
      ensures state == old(state).(isModalOpen := false)
    {
      state := state.(isModalOpen := false);
    }

    /** The subject, hours, attestation and lecturer selects store their value
        as chosen. */
    method SelectSubject(v: string)
      modifies this
      ensures state == old(state).(selectedSubject := v)
    {
      state := state.(selectedSubject := v);
    }

    method SelectHours(v: int)
      modifies this
      ensures state == old(state).(selectedHours := v)
    {
      state := state.(selectedHours := v);
    }

    method SelectAttestation(v: string)
      modifies this
      ensures state == old(state).(selectedAttestation := v)
    {
      state := state.(selectedAttestation := v);
    }

    method SelectLecturer(v: string)
      modifies this
      ensures state == old(state).(selectedLecturer := v)
    {
      state := state.(selectedLecturer := v);
    }

    /** The group select: the group is set and the flow cleared. */
    method SelectGroup(name: string)
      modifies this
      ensures state == old(state).(selectedGroup := name, selectedFlow := None)
      ensures Exclusive(state.selectedGroup, state.selectedFlow)
    {
      state := state.(selectedGroup := name, selectedFlow := None);
    }

    /** The flow select: the flow is set from the option's value and the group
        cleared. */
    method SelectFlow(v: int)
      modifies this
      ensures state == old(state).(selectedFlow := FlowChoice(v), selectedGroup := "")
      ensures Exclusive(state.selectedGroup, state.selectedFlow)
    {
      state := state.(selectedFlow := FlowChoice(v), selectedGroup := "");
    }

    method SetSecondLecturer(value: string)
      modifies this
      ensures state == old(state).(selectedSecondLecturer := SecondLecturerChoice(value))
    {
      state := state.(selectedSecondLecturer := SecondLecturerChoice(value));
    }

    /** `handleAddCurriculum` with the backend's answer `call` to the request it
        sends. Nothing changes when it returns before the call or when the call
        rejects; otherwise the answered id names a new line and the form closes
        and clears every field but the selected group. */
    method HandleAddCurriculum(call: Remote<int>) returns (request: Option<LessonRequest>)
      modifies this
      ensures var s := old(state);
        request == Request(subjects, lecturers, allGroups, s.selectedSubject, s.selectedHours, s.selectedLecturer,
                           s.selectedSecondLecturer, s.selectedGroup, s.selectedFlow)
      ensures request.None? || call.Rejected? ==> state == old(state)
      ensures request.Some? && call.Resolved? ==>
        var s := old(state);
        state == CurriculumState(
          s.data + [NewLine(call.value, allGroups, flows, s.selectedSubject, s.selectedHours, s.selectedAttestation,
                            s.selectedLecturer, s.selectedSecondLecturer, s.selectedGroup, s.selectedFlow)],
          false, "", s.selectedGroup, 0, "", "", None, None)
      ensures request.Some? && call.Resolved? ==> Exclusive(state.selectedGroup, state.selectedFlow)
    {
      var s := state;
      request := Request(subjects, lecturers, allGroups, s.selectedSubject, s.selectedHours, s.selectedLecturer,
                         s.selectedSecondLecturer, s.selectedGroup, s.selectedFlow);
      if request.None? || call.Rejected? {
        return;
      }
      var line := NewLine(call.value, allGroups, flows, s.selectedSubject, s.selectedHours, s.selectedAttestation,
                          s.selectedLecturer, s.selectedSecondLecturer, s.selectedGroup, s.selectedFlow);
      state := CurriculumState(s.data + [line], false, "", s.selectedGroup, 0, "", "", None, None);
    }
  }
}
