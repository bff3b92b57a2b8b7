/** Whether a recorded journey only read the project board (scripts/report-proof.ts). */
module ProjectJourney {
  import opened RunLog

  const ALL_PROJECTS := "All projects"
  const NO_PROJECTS := "No projects yet. Start with New project."
  const NONE_OF_TWELVE := "0 of 12 synthetic projects in this tab."

  datatype Candidate = Candidate(id: Id, link: bool, caption: string)

  datatype Action = Click(candidateId: Option<Id>) | Navigate | Scroll | Wait | Back | OtherAction(name: string)

  datatype Entry = Observation(textBlocks: seq<string>, candidates: seq<Candidate>) | Acted(action: Action)

  /** The first candidate with that id. */
  function FindCandidate(candidates: seq<Candidate>, id: Option<Id>): (r: Option<Candidate>)
    ensures r.Some? ==> exists i :: 0 <= i < |candidates| && r == Some(candidates[i]) && Some(candidates[i].id) == id
                                    && forall j :: 0 <= j < i ==> Some(candidates[j].id) != id
    ensures r.None? ==> forall i :: 0 <= i < |candidates| ==> Some(candidates[i].id) != id
  {
    if candidates == [] then None
    else if Some(candidates[0].id) == id then Some(candidates[0])
    else FindCandidate(candidates[1..], id)
  }

  /** What was on the page after these entries. */
  function Observed(entries: seq<Entry>): (r: Option<Entry>)
    ensures r.Some? ==> r.value.Observation? && r.value in entries
  {
    if entries == [] then None
    else if entries[|entries| - 1].Observation? then Some(entries[|entries| - 1])
    else Observed(entries[..|entries| - 1])
  }

  predicate Moves(e: Entry) {
    e.Acted? && (e.action.Click? || e.action.Navigate?)
  }

  /** A click only on the link to all projects, as last observed; otherwise navigation, scrolling, waiting, going back. */
  predicate Harmless(entries: seq<Entry>, i: nat)
    requires i < |entries|
  {
    entries[i].Acted? ==>
      match entries[i].action
      case Click(id) =>
        var seen := Observed(entries[..i]);
        && seen.Some?
        && var found := FindCandidate(seen.value.candidates, id);
           found.Some? && found.value.link && found.value.caption == "All projects"
      case OtherAction(_) => false
      case _ => true
  }

  predicate ShowsEmptyBoard(e: Entry) {
    && e.Observation? && "No projects yet. Start with New project." in e.textBlocks
    && "0 of 12 synthetic projects in this tab." in e.textBlocks
  }

  /** The loop. Its check that something was observed after a navigation adds nothing: ending on an observation after
      one says as much. */
  method ReadOnlyProjectJourney(entries: seq<Entry>) returns (accepted: bool)
    ensures accepted <==>
      && (forall i :: 0 <= i < |entries| ==> Harmless(entries, i))
      && (exists i :: 0 <= i < |entries| && Moves(entries[i]))
      && ShowsEmptyBoard(entries[|entries| - 1])
  {
    var observed: Option<Entry> := None;
    var navigated, observedAfterNavigation := false, false;
    for n := 0 to |entries|
      invariant observed == Observed(entries[..n])
      invariant navigated <==> exists i :: 0 <= i < n && Moves(entries[i])
      invariant observedAfterNavigation ==> navigated
      invariant n > 0 && navigated && entries[n - 1].Observation? ==> observedAfterNavigation
      invariant forall i :: 0 <= i < n ==> Harmless(entries, i)
    {
      assert entries[..n + 1][..n] == entries[..n];
      var entry := entries[n];
      if entry.Observation? {
        observed := Some(entry);
        observedAfterNavigation := observedAfterNavigation || navigated;
      } else if entry.action.Click? {
        var candidate := if observed.Some? then FindCandidate(observed.value.candidates, entry.action.candidateId) else None;
        if candidate.None? || !candidate.value.link || candidate.value.caption != ALL_PROJECTS {
          assert !Harmless(entries, n);
          return false;
        }
        navigated := true;
      } else if entry.action.Navigate? {
        navigated := true;
      } else if entry.action.OtherAction? {
        assert !Harmless(entries, n);
        return false;
      }
    }
    assert entries[..|entries|] == entries;
    accepted := navigated && observedAfterNavigation && |entries| > 0 && entries[|entries| - 1].Observation?
      && observed.Some? && NO_PROJECTS in observed.value.textBlocks && NONE_OF_TWELVE in observed.value.textBlocks;
  }
}
