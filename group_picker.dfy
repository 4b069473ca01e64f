/** The group picker that the flow form (frontend/src/components/flowsTable.tsx)
    and the syllabus form (frontend/src/components/Syllabus.tsx) both build: a
    text input with case-insensitive suggestions, an add button that accepts only
    a known group name, and a list whose entries are removed by position. The
    case mapping `toLowerCase` is a parameter `lower`. */
module GroupPicker {
  import opened Seqs
  import opened Text

  /** `name.toLowerCase().includes(input.toLowerCase())`. */
  predicate Matches(lower: string -> string, name: string, input: string) {
    Includes(lower(name), lower(input))
  }

  /** The suggestion list the effect computes: the known groups that match the
      input and are not in `excluded` (the flow form excludes nothing, the
      syllabus form the groups already chosen). */
  function Suggestions(allGroups: seq<string>, input: string, excluded: seq<string>, lower: string -> string): (r: seq<string>)
    ensures forall g :: g in r <==> g in allGroups && Matches(lower, g, input) && g !in excluded
    ensures forall i :: 0 <= i < |r| ==> Matches(lower, r[i], input) && r[i] !in excluded
    ensures |r| <= |allGroups|
  {
    Filter(allGroups, (g: string) => Matches(lower, g, input) && g !in excluded)
  }

  /** With a case mapping that leaves the empty string empty, the empty input
      suggests every group not excluded. */
  lemma EmptyInputSuggestsAll(allGroups: seq<string>, excluded: seq<string>, lower: string -> string)
    requires lower("") == ""
    ensures forall g :: g in Suggestions(allGroups, "", excluded, lower) <==> g in allGroups && g !in excluded
  {
    forall g | g in allGroups ensures Matches(lower, g, "") {
      assert OccursAt(lower(g), "", 0);
    }
  }

  /** The add button's condition (enabled, and the handler acts): a non-empty
      input that names a known group. */
  predicate Accepts(allGroups: seq<string>, input: string) {
    input != "" && input in allGroups
  }

  /** Adding an accepted name and then removing the last entry gives back the
      list as it was; removing any entry keeps the others in order. */
  lemma RemoveUndoesAppend(xs: seq<string>, x: string)
    ensures RemoveAt(xs + [x], |xs|) == xs
  {
    assert (xs + [x])[..|xs|] == xs;
  }

  lemma RemoveKeepsOthers(xs: seq<string>, index: int)
    requires 0 <= index < |xs|
    ensures |RemoveAt(xs, index)| == |xs| - 1
    ensures forall i :: 0 <= i < index ==> RemoveAt(xs, index)[i] == xs[i]
    ensures forall i :: index <= i < |xs| - 1 ==> RemoveAt(xs, index)[i] == xs[i + 1]
  {
  }
}
