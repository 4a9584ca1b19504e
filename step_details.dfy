/** The step-details view: the status badge of one application and the
    list shown under the All / Ongoing / Passed / Failed selector. */
module StepDetails {

  import opened Common
  import opened HiringData

  datatype Status = Passed | Failed | Ongoing | Unknown

  /** The selector starts on 'all'. */
  const InitialFilter: string := "all"

  /** `getApplicationStatus`: the passed list wins over the failed list, which wins
      over the ongoing list; an id in none of them is Unknown. */
  function ApplicationStatus(step: Step, appId: Id): Status {
    if appId in ListOr(step.passedApplications) then Passed
    else if appId in ListOr(step.failedApplications) then Failed
    else if IdEntry(appId) in ListOr(step.applications) then Ongoing
    else Unknown
  }

  /** Which of the three lists mention an id, as flags. */
  predicate InPassed(step: Step, appId: Id) { appId in ListOr(step.passedApplications) }
  predicate InFailed(step: Step, appId: Id) { appId in ListOr(step.failedApplications) }
  predicate InOngoing(step: Step, appId: Id) { IdEntry(appId) in ListOr(step.applications) }

  /** The status in terms of list membership, each outcome in both directions. */
  lemma StatusPriority(step: Step, appId: Id)
    ensures ApplicationStatus(step, appId) == Passed <==> InPassed(step, appId)
    ensures ApplicationStatus(step, appId) == Failed <==> !InPassed(step, appId) && InFailed(step, appId)
    ensures ApplicationStatus(step, appId) == Ongoing
        <==> !InPassed(step, appId) && !InFailed(step, appId) && InOngoing(step, appId)
    ensures ApplicationStatus(step, appId) == Unknown
        <==> !InPassed(step, appId) && !InFailed(step, appId) && !InOngoing(step, appId)
  {
  }

  /** `ids.includes(entry.id)` */
  predicate IdIn(e: Entry, ids: seq<Id>) {
    e.IdField().Some? && e.IdField().value in ids
  }

  /** `entries.includes(entry.id)`: the id must occur as a bare-id element. */
  predicate IdAmong(e: Entry, entries: seq<Entry>) {
    e.IdField().Some? && IdEntry(e.IdField().value) in entries
  }

  /** `getFilteredApplications` */
  function FilteredApplications(step: Step, filter: string): (r: seq<Entry>)
    ensures IsSubsequence(r, ListOr(step.applications))
    ensures filter == "ongoing" ==>
      (forall e :: e in r <==> e in ListOr(step.applications) && IdAmong(e, ListOr(step.applications)))
    ensures filter == "passed" ==>
      (forall e :: e in r <==> e in ListOr(step.applications) && IdIn(e, ListOr(step.passedApplications)))
    ensures filter == "failed" ==>
      (forall e :: e in r <==> e in ListOr(step.applications) && IdIn(e, ListOr(step.failedApplications)))
    ensures filter == "ongoing" ==>
      (forall e :: multiset(r)[e] == if IdAmong(e, ListOr(step.applications)) then multiset(ListOr(step.applications))[e] else 0)
    ensures filter == "passed" ==>
      (forall e :: multiset(r)[e] == if IdIn(e, ListOr(step.passedApplications)) then multiset(ListOr(step.applications))[e] else 0)
    ensures filter == "failed" ==>
      (forall e :: multiset(r)[e] == if IdIn(e, ListOr(step.failedApplications)) then multiset(ListOr(step.applications))[e] else 0)
    ensures filter != "ongoing" && filter != "passed" && filter != "failed"
      ==> r == ListOr(step.applications)
  {
    var apps := ListOr(step.applications);
    var passedIds := ListOr(step.passedApplications);
    var failedIds := ListOr(step.failedApplications);
    var keep :=
      if filter == "ongoing" then (e: Entry) => IdAmong(e, apps)
      else if filter == "passed" then (e: Entry) => IdIn(e, passedIds)
      else if filter == "failed" then (e: Entry) => IdIn(e, failedIds)
      else (e: Entry) => true;
    FilterIsSubsequence(apps, keep);
    FilterMultiplicity(apps, keep);
    if filter == "ongoing" || filter == "passed" || filter == "failed" then Filter(apps, keep)
    else
      FilterAll(apps, keep);
      apps
  }

  /** The step with every missing list replaced by an empty one. */
  function WithEmptyLists(step: Step): Step {
    step.(applications := Some(ListOr(step.applications)),
          passedApplications := Some(ListOr(step.passedApplications)),
          failedApplications := Some(ListOr(step.failedApplications)))
  }

  /** A missing list behaves exactly like an empty one, for the badge and for every filter. */
  lemma MissingListsAreEmpty(step: Step, appId: Id, filter: string)
    ensures ApplicationStatus(step, appId) == ApplicationStatus(WithEmptyLists(step), appId)
    ensures FilteredApplications(step, filter) == FilteredApplications(WithEmptyLists(step), filter)
  {
  }

  /** When the list holds only bare ids, or only records, the 'ongoing' view is
      empty: a record's id is never found among records, and a bare id has no `.id`. */
  lemma OngoingEmptyOnUniformList(step: Step)
    requires (forall e :: e in ListOr(step.applications) ==> e.IdEntry?)
          || (forall e :: e in ListOr(step.applications) ==> e.RecordEntry?)
    ensures FilteredApplications(step, "ongoing") == []
  {
  }

  /** With a list of bare ids, the 'passed' and 'failed' views are empty too. */
  lemma IdListHidesPassedAndFailed(step: Step, filter: string)
    requires forall e :: e in ListOr(step.applications) ==> e.IdEntry?
    requires filter == "passed" || filter == "failed"
    ensures FilteredApplications(step, filter) == []
  {
  }

  /** Every record shown under 'passed' carries the Passed badge, and every
      record in the step whose badge is Passed is shown there. */
  lemma PassedViewMatchesBadge(step: Step, a: Application)
    requires RecordEntry(a) in ListOr(step.applications)
    ensures RecordEntry(a) in FilteredApplications(step, "passed") <==> ApplicationStatus(step, a.id) == Passed
  {
  }

  /** The 'failed' view and the badge can disagree: an id on both the passed and
      the failed list is listed under 'failed' but badged Passed. */
  lemma FailedViewCanShowPassedBadge()
    ensures var a := Application("a1", None);
            var step := Step("Interview", 1, Some([RecordEntry(a)]), Some(["a1"]), Some(["a1"]));
            RecordEntry(a) in FilteredApplications(step, "failed") && ApplicationStatus(step, "a1") == Passed
  {
    var a := Application("a1", None);
    var step := Step("Interview", 1, Some([RecordEntry(a)]), Some(["a1"]), Some(["a1"]));
    assert RecordEntry(a) in ListOr(step.applications);
  }
}
