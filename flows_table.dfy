/** The flow table (frontend/src/components/flowsTable.tsx): a flow is a named
    list of groups that attend lectures together; the form collects pending
    group names with the group picker and appends the flow. */
module FlowsTable {
  import opened Wrappers
  import opened Seqs
  import opened Ids
  import opened ClientTypes
  import opened GroupPicker

  function FlowId(f: Flow): int { f.id }

  /** `addFlow`'s new list: the pending groups become one more flow at the end,
      under an id above every existing one. */
  function AddFlowTo(data: seq<Flow>, groups: seq<string>): (r: seq<Flow>)
    ensures |r| == |data| + 1 && r[..|data|] == data
    ensures r[|data|].groups == groups
    ensures r[|data|].id == NextId(Map(data, FlowId))
    ensures forall i :: 0 <= i < |data| ==> data[i].id < r[|data|].id
  {
    NextKeyAbove(data, FlowId);
    data + [Flow(NextId(Map(data, FlowId)), groups)]
  }

  /** The submit button is disabled while no group is pending. */
  predicate SubmitEnabled(pending: seq<string>) {
    |pending| > 0
  }

  /** A flow submitted through the enabled button is never empty. */
  lemma SubmittedFlowIsNonEmpty(data: seq<Flow>, pending: seq<string>)
    requires SubmitEnabled(pending)
    ensures |AddFlowTo(data, pending)[|data|].groups| > 0
  {
  }

  /** The component's state: the flow list it was given, the modal flag, the
      pending groups, the input, the suggestion list and its visibility. */
  datatype FlowsState = FlowsState(
    data: seq<Flow>, isModalOpen: bool, pending: seq<string>,
    inputValue: string, filteredGroups: seq<string>, showSuggestions: bool)

  /** The form over the known group names `allGroups`; the suggestion effect
      recomputes the suggestions after every render in which the input changed. */
  class FlowsForm {
    const allGroups: seq<string>
    const lower: string -> string
    var state: FlowsState

    /** Mounting runs the effect once, on the empty input. */
    constructor(allGroups: seq<string>, lower: string -> string, data: seq<Flow>)
      ensures this.allGroups == allGroups && this.lower == lower
      ensures state == FlowsState(data, false, [], "", Suggestions(allGroups, "", [], lower), false)
    {
      this.allGroups := allGroups;
      this.lower := lower;
      state := FlowsState(data, false, [], "", Suggestions(allGroups, "", [], lower), false);
    }

    /** The suggestion list after the input went from `before` to `after`: the
        effect runs only when the value changed. */
    function Refiltered(before: string, after: string, filtered: seq<string>): seq<string> {
      if after != before then Suggestions(allGroups, after, [], lower) else filtered
    }

    /** The button that opens the form. */
    method OpenModal()
      modifies this
      ensures state == old(state).(isModalOpen := true)
    {
      state := state.(isModalOpen := true);
    }

    /** The cancel button closes the form and keeps its fields. */
    method CloseModal()
      modifies this
      ensures state == old(state).(isModalOpen := false)
    {
      state := state.(isModalOpen := false);
    }

    /** Typing into the input shows the suggestions. */
    method Type(value: string)
      modifies this
      ensures state == old(state).(inputValue := value, showSuggestions := true,
        filteredGroups := Refiltered(old(state.inputValue), value, old(state.filteredGroups)))
    {
      state := state.(inputValue := value, showSuggestions := true,
        filteredGroups := Refiltered(state.inputValue, value, state.filteredGroups));
    }

    /** Clicking a suggestion puts it into the input and hides the list. */
    method Pick(group: string)
      modifies this
      ensures state == old(state).(inputValue := group, showSuggestions := false,
        filteredGroups := Refiltered(old(state.inputValue), group, []))
    {
      state := state.(inputValue := group, showSuggestions := false,
        filteredGroups := Refiltered(state.inputValue, group, []));
    }

    /** `handleAdd`: an accepted input joins the pending list and the input
        clears; anything else changes nothing. */
    method HandleAdd()
      modifies this
      ensures Accepts(allGroups, old(state.inputValue)) ==>
        state == old(state).(pending := old(state.pending) + [old(state.inputValue)], inputValue := "",
                             showSuggestions := false, filteredGroups := Suggestions(allGroups, "", [], lower))
      ensures !Accepts(allGroups, old(state.inputValue)) ==> state == old(state)
    {
      if Accepts(allGroups, state.inputValue) {
        state := state.(pending := state.pending + [state.inputValue], inputValue := "",
                        showSuggestions := false, filteredGroups := Refiltered(state.inputValue, "", state.filteredGroups));
      }
    }

    /** `handleDelete(index)`: the pending entry at `index` goes, the rest keep
        their order. */
    method HandleDelete(index: int)
      modifies this
      ensures state == old(state).(pending := RemoveAt(old(state.pending), index))
    {
      state := state.(pending := RemoveAt(state.pending, index));
    }

    /** `addFlow`: the pending groups become a new flow, and the form closes
        and clears. */
    method AddFlow()
      modifies this
      ensures state == FlowsState(AddFlowTo(old(state.data), old(state.pending)), false, [], "",
                                  Refiltered(old(state.inputValue), "", []), false)
    {
      state := FlowsState(AddFlowTo(state.data, state.pending), false, [], "",
                          Refiltered(state.inputValue, "", []), false);
    }
  }
}
