/** The syllabus form (frontend/src/components/Syllabus.tsx): a subject, hours,
    attestation, one or two lecturers and a set of groups, picked one by one or
    taken from a flow, become one more syllabus line. */
module Syllabus {
  import opened Wrappers
  import opened Seqs
  import opened Ids
  import opened ClientTypes
  import opened GroupPicker

  /** The semester hour counts and the attestation kinds the form offers. */
  const Hours: seq<int> := [72, 108, 144]
  const Attestations: seq<string> := ["Экзамен", "Дифференцированный зачёт", "Зачёт"]

  function LineId(l: CurriculumLine): int { l.id }
  function FlowId(f: Flow): int { f.id }

  /** The groups of `flow` not chosen yet, in the flow's order. */
  function NewFlowGroups(flow: Flow, chosen: seq<string>): (r: seq<string>)
    ensures forall g :: g in r <==> g in flow.groups && g !in chosen
    ensures |r| <= |flow.groups|
  {
    Filter(flow.groups, (g: string) => g !in chosen)
  }

  /** `handleAddAllFromFlow`'s new choice: `None` (nothing changes) without a
      selected flow or when no flow has that id; otherwise the chosen groups
      followed by the flow's groups not chosen yet. */
  function AddAllFromFlow(chosen: seq<string>, flows: seq<Flow>, selectedFlow: Option<int>): (r: Option<seq<string>>)
    ensures r.None? <==> selectedFlow.None? || FindBy(flows, FlowId, selectedFlow.value).None?
    ensures r.Some? ==>
      var flow := FindBy(flows, FlowId, selectedFlow.value).value;
      |r.value| >= |chosen| && r.value[..|chosen|] == chosen &&
      forall g :: g in r.value <==> g in chosen || g in flow.groups
  {
    if selectedFlow.None? then None
    else match FindBy(flows, FlowId, selectedFlow.value)
      case None => None
      case Some(flow) =>
        var more := NewFlowGroups(flow, chosen);
        assert (chosen + more)[..|chosen|] == chosen;
        Some(chosen + more)
  }

  /** A choice without repetitions stays without repetitions when the flow's
      groups are added, provided the flow itself lists each group once. */
  lemma {:induction false} AddAllFromFlowNoDuplicates(chosen: seq<string>, flows: seq<Flow>, selectedFlow: Option<int>)
    requires NoDuplicates(chosen)
    requires AddAllFromFlow(chosen, flows, selectedFlow).Some?
    requires NoDuplicates(FindBy(flows, FlowId, selectedFlow.value).value.groups)
    ensures NoDuplicates(AddAllFromFlow(chosen, flows, selectedFlow).value)
  {
    var flow := FindBy(flows, FlowId, selectedFlow.value).value;
    var more := NewFlowGroups(flow, chosen);
    FilterNoDuplicates(flow.groups, (g: string) => g !in chosen);
    var r := chosen + more;
    forall i, j | 0 <= i < j < |r| ensures r[i] != r[j] {
      if j >= |chosen| && i < |chosen| {
        assert r[j] in more;
        assert r[i] in chosen;
      }
    }
  }

  /** `handleAddSyllabus`'s new list: one more line at the end carrying the form's
      fields, under an id above every existing one; an empty second lecturer is
      stored as absent. */
  function AddSyllabusTo(
    data: seq<CurriculumLine>, subject: string, groups: seq<string>, hours: int, attestation: string,
    lecturer: string, secondLecturer: Option<string>): (r: seq<CurriculumLine>)
    ensures |r| == |data| + 1 && r[..|data|] == data
    ensures r[|data|].id == NextId(Map(data, LineId))
    ensures forall i :: 0 <= i < |data| ==> data[i].id < r[|data|].id
    ensures r[|data|].Entered? && r[|data|].subject == subject && r[|data|].groups == groups &&
            r[|data|].hours == hours && r[|data|].attestation == attestation && r[|data|].lecturer == lecturer
    ensures r[|data|].secondLecturer == (if Given(secondLecturer) then secondLecturer else None)
  {
    NextKeyAbove(data, LineId);
    var second := if Given(secondLecturer) then secondLecturer else None;
    data + [Entered(NextId(Map(data, LineId)), subject, groups, hours, attestation, lecturer, second)]
  }

  /** The submit button's condition: subject, hours and attestation set, the
      lecturer a known name, the second lecturer absent or a known name, and not
      the first lecturer again. */
  predicate SubmitEnabled(
    lecturers: seq<string>, subject: string, hours: int, attestation: string,
    lecturer: string, secondLecturer: Option<string>)
  {
    subject != "" && hours != 0 && attestation != "" && lecturer in lecturers &&
    (secondLecturer.None? || secondLecturer.value in lecturers) &&
    secondLecturer != Some(lecturer)
  }

  /** A line submitted through the enabled button names known lecturers, and two
      different ones when it names two. */
  lemma SubmittedLineNamesKnownLecturers(
    lecturers: seq<string>, data: seq<CurriculumLine>, subject: string, groups: seq<string>, hours: int,
    attestation: string, lecturer: string, secondLecturer: Option<string>)
    requires SubmitEnabled(lecturers, subject, hours, attestation, lecturer, secondLecturer)
    ensures var line := AddSyllabusTo(data, subject, groups, hours, attestation, lecturer, secondLecturer)[|data|];
      line.lecturer in lecturers && line.hours != 0 &&
      (line.secondLecturer.Some? ==> line.secondLecturer.value in lecturers && line.secondLecturer.value != line.lecturer)
  {
  }

  /** The component's state: the list it was given and every field of the form. */
  datatype SyllabusState = SyllabusState(
    data: seq<CurriculumLine>, isModalOpen: bool,
    selectedSubject: string, selectedHours: int, selectedAttestation: string,
    selectedLecturer: string, selectedSecondLecturer: Option<string>,
    selectedGroups: seq<string>, inputValue: string, filteredGroups: seq<string>,
    showSuggestions: bool, selectedFlow: Option<int>)

  /** The form over its props. The suggestion effect depends on the input and on
      the chosen groups: a string dependency re-runs it only when its value
      changes, while every handler that sets the chosen groups sets a new array,
      which always re-runs it. */
  class SyllabusForm {
    const allGroups: seq<string>
    const flows: seq<Flow>
    const lecturers: seq<string>
    const lower: string -> string
    var state: SyllabusState

    /** Mounting runs the effect once. */
    constructor(data: seq<CurriculumLine>, allGroups: seq<string>, flows: seq<Flow>, lecturers: seq<string>,
                lower: string -> string)
      ensures this.allGroups == allGroups && this.flows == flows && this.lecturers == lecturers && this.lower == lower
      ensures state == SyllabusState(data, false, "", 0, "", "", None, [], "", Suggestions(allGroups, "", [], lower),
                                     false, None)
    {
      this.allGroups := allGroups;
      this.flows := flows;
      this.lecturers := lecturers;
      this.lower := lower;
      state := SyllabusState(data, false, "", 0, "", "", None, [], "", Suggestions(allGroups, "", [], lower),
                             false, None);
    }

    /** The suggestion list after the input alone went from `before` to `after`. */
    function Refiltered(before: string, after: string, chosen: seq<string>, filtered: seq<string>): seq<string> {
      if after != before then Suggestions(allGroups, after, chosen, lower) else filtered
    }

    /** Typing into the group input shows the suggestions. */
    method Type(value: string)
      modifies this
      ensures state == old(state).(inputValue := value, showSuggestions := true,
        filteredGroups := Refiltered(old(state.inputValue), value, old(state.selectedGroups), old(state.filteredGroups)))
    {
      state := state.(inputValue := value, showSuggestions := true,
        filteredGroups := Refiltered(state.inputValue, value, state.selectedGroups, state.filteredGroups));
    }

    /** Clicking a suggestion puts it into the input and empties and hides the list. */
    method Pick(group: string)
      modifies this
      ensures state == old(state).(inputValue := group, showSuggestions := false,
        filteredGroups := Refiltered(old(state.inputValue), group, old(state.selectedGroups), []))
    {
      state := state.(inputValue := group, showSuggestions := false,
        filteredGroups := Refiltered(state.inputValue, group, state.selectedGroups, []));
    }

    /** The button that opens the form. */
    method OpenModal()
      modifies this
      ensures state == old(state).(isModalOpen := true)
    {
      state := state.(isModalOpen := true);
    }

    /** The cancel button closes the form and keeps its fields. */
    method CloseModal()
      modifies this
      ensures state == old(state).(isModalOpen := false)
    {
      state := state.(isModalOpen := false);
    }

    /** The subject, hours, attestation and lecturer selects store their value
        as chosen. */
    method SelectSubject(v: string)
      modifies this
      ensures state == old(state).(selectedSubject := v)
    {
      state := state.(selectedSubject := v);
    }

    method SelectHours(v: int)
      modifies this
      ensures state == old(state).(selectedHours := v)
    {
      state := state.(selectedHours := v);
    }

    method SelectAttestation(v: string)
      modifies this
      ensures state == old(state).(selectedAttestation := v)
    {
      state := state.(selectedAttestation := v);
    }

    method SelectLecturer(v: string)
      modifies this
      ensures state == old(state).(selectedLecturer := v)
    {
      state := state.(selectedLecturer := v);
    }

    method SelectFlow(v: int)
      modifies this
      ensures state == old(state).(selectedFlow := FlowChoice(v))
    {
      state := state.(selectedFlow := FlowChoice(v));
    }

    method SetSecondLecturer(value: string)
      modifies this
      ensures state == old(state).(selectedSecondLecturer := SecondLecturerChoice(value))
    {
      state := state.(selectedSecondLecturer := SecondLecturerChoice(value));
    }

    /** `handleAddGroup`: an accepted input joins the chosen groups and the input
        clears; anything else changes nothing. */
    method HandleAddGroup()
      modifies this
      ensures Accepts(allGroups, old(state.inputValue)) ==>
        state == old(state).(selectedGroups := old(state.selectedGroups) + [old(state.inputValue)], inputValue := "",
                             showSuggestions := false,
                             filteredGroups := Suggestions(allGroups, "", old(state.selectedGroups) + [old(state.inputValue)], lower))
      ensures !Accepts(allGroups, old(state.inputValue)) ==> state == old(state)
    {
      if Accepts(allGroups, state.inputValue) {
        var chosen := state.selectedGroups + [state.inputValue];
        state := state.(selectedGroups := chosen, inputValue := "", showSuggestions := false,
                        filteredGroups := Suggestions(allGroups, "", chosen, lower));
      }
    }

    /** `handleAddAllFromFlow`: on an early return nothing changes; otherwise the
        flow's new groups are chosen and the flow selection clears. */
    method HandleAddAllFromFlow()
      modifies this
      ensures AddAllFromFlow(old(state.selectedGroups), flows, old(state.selectedFlow)).None? ==> state == old(state)
      ensures AddAllFromFlow(old(state.selectedGroups), flows, old(state.selectedFlow)).Some? ==>
        state == old(state).(
          selectedGroups := AddAllFromFlow(old(state.selectedGroups), flows, old(state.selectedFlow)).value,
          selectedFlow := None,
          filteredGroups := Suggestions(allGroups, old(state.inputValue),
                                        AddAllFromFlow(old(state.selectedGroups), flows, old(state.selectedFlow)).value, lower))
    {
      var r := AddAllFromFlow(state.selectedGroups, flows, state.selectedFlow);
      if r.None? {
        return;
      }
      state := state.(selectedGroups := r.value, selectedFlow := None,
                      filteredGroups := Suggestions(allGroups, state.inputValue, r.value, lower));
    }

    /** The remove button of the entry at `index`. */
    method RemoveGroup(index: int)
      modifies this
      ensures state == old(state).(selectedGroups := RemoveAt(old(state.selectedGroups), index),
        filteredGroups := Suggestions(allGroups, old(state.inputValue), RemoveAt(old(state.selectedGroups), index), lower))
    {
      var chosen := RemoveAt(state.selectedGroups, index);
      state := state.(selectedGroups := chosen, filteredGroups := Suggestions(allGroups, state.inputValue, chosen, lower));
    }

    /** `handleAddSyllabus`: the form's fields become a new line, and the form
        closes and clears. */
    method HandleAddSyllabus()
      modifies this
      ensures state == SyllabusState(
        AddSyllabusTo(old(state.data), old(state.selectedSubject), old(state.selectedGroups), old(state.selectedHours),
                      old(state.selectedAttestation), old(state.selectedLecturer), old(state.selectedSecondLecturer)),
        false, "", 0, "", "", None, [], "", Suggestions(allGroups, "", [], lower), false, None)
    {
      var s := state;
      var data := AddSyllabusTo(s.data, s.selectedSubject, s.selectedGroups, s.selectedHours, s.selectedAttestation,
                                s.selectedLecturer, s.selectedSecondLecturer);
      state := SyllabusState(data, false, "", 0, "", "", None, [], "", Suggestions(allGroups, "", [], lower), false, None);
    }
  }
}
