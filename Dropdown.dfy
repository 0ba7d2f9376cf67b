/** The cascading organisation → job → stage selection. Each list is loaded from
    the backend (the parsed answer is a parameter), a remembered id from the
    stored preferences is restored only when it belongs to the freshly loaded
    list, and choosing a level persists it and resets the levels below it. */
module Dropdown {
  import opened Wrappers
  import opened ChromeStorage

  const LastOrganizationKey := "lastOrganizationId"
  const LastJobKey := "lastJobId"
  const LastStageKey := "lastStageId"

  /** An organisation, job or stage as the lists show it. */
  datatype Item = Item(id: string, name: string)

  /** What a list endpoint answered, once parsed: an array or anything else. */
  datatype Loaded = ArrayOf(items: seq<Item>) | NonArray

  /** How a load ended: the endpoint delivered a value, or the request threw
      (Some(m): an `Error` with message m; None: anything else). */
  datatype Answer = Delivered(loaded: Loaded) | Threw(error: Option<string>)

  /** The message a failed load shows. */
  function FailureText(error: Option<string>, fallback: string): (r: string)
    ensures error.Some? ==> r == error.value
    ensures error.None? ==> r == fallback
  {
    if error.Some? then error.value else fallback
  }

  const OrganizationsFailed := "Failed to load organizations"
  const JobsFailed := "Failed to load jobs"
  const StagesFailed := "Failed to load stages"

  /** `Array.isArray(x) ? x : []`. */
  function ListOf(loaded: Loaded): (r: seq<Item>)
    ensures loaded.NonArray? ==> r == []
    ensures loaded.ArrayOf? ==> r == loaded.items
  {
    if loaded.ArrayOf? then loaded.items else []
  }

  predicate HasId(list: seq<Item>, id: string) {
    exists i :: 0 <= i < |list| && list[i].id == id
  }

  /** The remembered id to restore: present, non-empty and in the list. */
  function Restored(prefs: map<string, string>, key: string, list: seq<Item>): (r: Option<string>)
    ensures r.Some? <==> key in prefs && prefs[key] != "" && HasId(list, prefs[key])
    ensures r.Some? ==> r.value == prefs[key] && r.value != "" && HasId(list, r.value)
  {
    if key in prefs && prefs[key] != "" && HasId(list, prefs[key]) then Some(prefs[key]) else None
  }

  class DropdownHook {
    var organizations: seq<Item>
    var jobs: seq<Item>
    var stages: seq<Item>
    var selectedOrgId: string
    var selectedJobId: string
    var selectedStageId: string
    var isLoadingOrgs: bool
    var isLoadingJobs: bool
    var isLoadingStages: bool
    var error: Option<string>
    const store: PrefStore

    constructor (store0: PrefStore)
      ensures store == store0
      ensures organizations == [] && jobs == [] && stages == []
      ensures selectedOrgId == "" && selectedJobId == "" && selectedStageId == ""
      ensures !isLoadingOrgs && !isLoadingJobs && !isLoadingStages && error.None?
    {
      store := store0;
      organizations, jobs, stages := [], [], [];
      selectedOrgId, selectedJobId, selectedStageId := "", "", "";
      isLoadingOrgs, isLoadingJobs, isLoadingStages := false, false, false;
      error := None;
    }

    /** `refreshOrganizations()`, given how the request ended. The organisation is restored only when it is in the
        new list; otherwise the selection is left as it was. */
    method RefreshOrganizations(answer: Answer)
      modifies this
      ensures !isLoadingOrgs
      ensures answer.Threw? ==>
                error == Some(FailureText(answer.error, OrganizationsFailed))
                && organizations == old(organizations) && selectedOrgId == old(selectedOrgId)
      ensures answer.Delivered? ==> error.None? && organizations == ListOf(answer.loaded)
      ensures answer.Delivered? ==>
                var restored := Restored(store.Current(), LastOrganizationKey, organizations);
                selectedOrgId == if restored.Some? then restored.value else old(selectedOrgId)
      ensures jobs == old(jobs) && stages == old(stages)
      ensures selectedJobId == old(selectedJobId) && selectedStageId == old(selectedStageId)
    {
      isLoadingOrgs := true;
      error := None;
      if answer.Threw? {
        error := Some(FailureText(answer.error, OrganizationsFailed));
      } else {
        organizations := ListOf(answer.loaded);
        var restored := Restored(store.Current(), LastOrganizationKey, organizations);
        if restored.Some? {
          selectedOrgId := restored.value;
        }
      }
      isLoadingOrgs := false;
    }

    /** The effect that runs when `selectedOrgId` changes: with no organisation the
        jobs and the job selection are cleared; otherwise the jobs are loaded and
        the remembered job is restored if it belongs to them, else cleared. */
    method LoadJobs(answer: Answer)
      modifies this
      ensures selectedOrgId == "" ==>
                jobs == [] && selectedJobId == "" && error == old(error) && isLoadingJobs == old(isLoadingJobs)
      ensures selectedOrgId != "" ==> !isLoadingJobs
      ensures selectedOrgId != "" && answer.Threw? ==>
                error == Some(FailureText(answer.error, JobsFailed)) && jobs == old(jobs) && selectedJobId == old(selectedJobId)
      ensures selectedOrgId != "" && answer.Delivered? ==>
                error.None? && jobs == ListOf(answer.loaded)
                && var restored := Restored(store.Current(), LastJobKey, jobs);
                   selectedJobId == if restored.Some? then restored.value else ""
      ensures selectedJobId == old(selectedJobId) || selectedJobId == "" || HasId(jobs, selectedJobId)
      ensures selectedOrgId == old(selectedOrgId) && organizations == old(organizations)
      ensures stages == old(stages) && selectedStageId == old(selectedStageId)
    {
      if selectedOrgId == "" {
        jobs := [];
        selectedJobId := "";
        return;
      }
      isLoadingJobs := true;
      error := None;
      if answer.Threw? {
        error := Some(FailureText(answer.error, JobsFailed));
      } else {
        jobs := ListOf(answer.loaded);
        var restored := Restored(store.Current(), LastJobKey, jobs);
        selectedJobId := if restored.Some? then restored.value else "";
      }
      isLoadingJobs := false;
    }

    /** The effect that runs when `selectedJobId` changes, one level down. */
    method LoadStages(answer: Answer)
      modifies this
      ensures selectedJobId == "" ==>
                stages == [] && selectedStageId == "" && error == old(error) && isLoadingStages == old(isLoadingStages)
      ensures selectedJobId != "" ==> !isLoadingStages
      ensures selectedJobId != "" && answer.Threw? ==>
                error == Some(FailureText(answer.error, StagesFailed)) && stages == old(stages) && selectedStageId == old(selectedStageId)
      ensures selectedJobId != "" && answer.Delivered? ==>
                error.None? && stages == ListOf(answer.loaded)
                && var restored := Restored(store.Current(), LastStageKey, stages);
                   selectedStageId == if restored.Some? then restored.value else ""
      ensures selectedStageId == old(selectedStageId) || selectedStageId == "" || HasId(stages, selectedStageId)
      ensures selectedOrgId == old(selectedOrgId) && selectedJobId == old(selectedJobId)
      ensures organizations == old(organizations) && jobs == old(jobs)
    {
      if selectedJobId == "" {
        stages := [];
        selectedStageId := "";
        return;
      }
      isLoadingStages := true;
      error := None;
      if answer.Threw? {
        error := Some(FailureText(answer.error, StagesFailed));
      } else {
        stages := ListOf(answer.loaded);
        var restored := Restored(store.Current(), LastStageKey, stages);
        selectedStageId := if restored.Some? then restored.value else "";
      }
      isLoadingStages := false;
    }

    /** `setSelectedOrgId(id)`: remember it and reset the job and the stage. */
    method SetSelectedOrgId(id: string)
      modifies this, store
      ensures selectedOrgId == id && selectedJobId == "" && selectedStageId == ""
      ensures store.slot == Some(Prefs(Merged(old(store.Current()), map[LastOrganizationKey := id])))
      ensures organizations == old(organizations) && jobs == old(jobs) && stages == old(stages)
    {
      selectedOrgId := id;
      store.SetPreferences(map[LastOrganizationKey := id]);
      selectedJobId := "";
      selectedStageId := "";
    }

    /** `setSelectedJobId(id)`: remember it and reset only the stage. */
    method SetSelectedJobId(id: string)
      modifies this, store
      ensures selectedJobId == id && selectedStageId == "" && selectedOrgId == old(selectedOrgId)
      ensures store.slot == Some(Prefs(Merged(old(store.Current()), map[LastJobKey := id])))
      ensures organizations == old(organizations) && jobs == old(jobs) && stages == old(stages)
    {
      selectedJobId := id;
      store.SetPreferences(map[LastJobKey := id]);
      selectedStageId := "";
    }

    /** `setSelectedStageId(id)`: remember it; nothing else changes. */
    method SetSelectedStageId(id: string)
      modifies this, store
      ensures selectedStageId == id && selectedOrgId == old(selectedOrgId) && selectedJobId == old(selectedJobId)
      ensures store.slot == Some(Prefs(Merged(old(store.Current()), map[LastStageKey := id])))
      ensures organizations == old(organizations) && jobs == old(jobs) && stages == old(stages)
    {
      selectedStageId := id;
      store.SetPreferences(map[LastStageKey := id]);
    }
  }

  /** A remembered choice survives a reload of a list that still contains it:
      choosing an id records it, and loading a list with that id restores it. */
  lemma ChosenIdRestored(prefs: map<string, string>, key: string, id: string, list: seq<Item>)
    requires id != "" && HasId(list, id)
    ensures Restored(Merged(prefs, map[key := id]), key, list) == Some(id)
  {
  }
}
