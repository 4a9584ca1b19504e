/** The "Add Hiring Step" dialog: the required-field check, the row built for
    `hiring_cycle_steps`, and the order of what `handleSubmit` does. */
module AddStepForm {

  import opened Common
  import opened HiringData
  import opened Numerals
  import StepDetails
  import ViewStatistics

  /** The dialog's inputs, as the strings the inputs hold. */
  datatype StepForm = StepForm(name: string, description: string, sequenceOrder: string, url: string, minPassMark: string)

  const InitialForm: StepForm := StepForm("", "", "", "", "")

  /** The inserted row. `url` and `min_pass_mark` are absent unless entered. */
  datatype StepRecord = StepRecord(
    hiringCycleId: Id,
    name: string,
    description: string,
    sequenceOrder: Num,
    url: Option<string>,
    minPassMark: Option<Num>,
    applications: seq<Entry>,
    passedApplications: seq<Id>,
    failedApplications: seq<Id>)

  /** Name, description and sequence order are non-empty strings; white space counts as filled. */
  predicate RequiredFilled(form: StepForm) {
    form.name != "" && form.description != "" && form.sequenceOrder != ""
  }

  /** `stepData`: copied fields verbatim, numbers through `parseInt`, the optional
      fields only when their text is non-empty, and three empty lists. */
  function BuildStep(hiringCycleId: Id, form: StepForm): (r: StepRecord)
    ensures r.hiringCycleId == hiringCycleId && r.name == form.name && r.description == form.description
    ensures r.sequenceOrder == ParseInt(form.sequenceOrder)
    ensures r.url.Some? <==> form.url != ""
    ensures r.url.Some? ==> r.url.value == form.url
    ensures r.minPassMark.Some? <==> form.minPassMark != ""
    ensures r.minPassMark.Some? ==> r.minPassMark.value == ParseInt(form.minPassMark)
    ensures r.applications == [] && r.passedApplications == [] && r.failedApplications == []
  {
    StepRecord(
      hiringCycleId, form.name, form.description, ParseInt(form.sequenceOrder),
      if form.url != "" then Some(form.url) else None,
      if form.minPassMark != "" then Some(ParseInt(form.minPassMark)) else None,
      [], [], [])
  }

  /** A pass mark typed as the digits of a natural number is stored as that
      number. "0" is among them: it is non-empty text, so it is kept, as 0. */
  lemma TypedPassMarkIsStored(hiringCycleId: Id, form: StepForm, n: nat)
    requires form.minPassMark == NatToString(n)
    ensures BuildStep(hiringCycleId, form).minPassMark == Some(Int(n))
  {
    DecimalPrefix(n, []);
    assert NatToString(n) + [] == NatToString(n);
  }

  /** The row as the step views read it back, under any sequence order. */
  function AsStep(r: StepRecord, sequenceOrder: int): Step {
    Step(r.name, sequenceOrder, Some(r.applications), Some(r.passedApplications), Some(r.failedApplications))
  }

  /** A freshly added step knows no application: every badge is Unknown, every
      filter shows nothing, and its statistics are all zero. */
  lemma NewStepIsEmpty(hiringCycleId: Id, form: StepForm, sequenceOrder: int, appId: Id, filter: string)
    ensures var step := AsStep(BuildStep(hiringCycleId, form), sequenceOrder);
      && StepDetails.ApplicationStatus(step, appId) == StepDetails.Unknown
      && StepDetails.FilteredApplications(step, filter) == []
      && ViewStatistics.StepStatistics(step) == ViewStatistics.StepCounts(0, 0, 0, 0.0)
  {
    var step := AsStep(BuildStep(hiringCycleId, form), sequenceOrder);
    assert ListOr(step.applications) == [];
  }

  /** What `handleSubmit` does, in order. */
  datatype Effect =
    | ToastError(message: string)
    | InsertStep(row: StepRecord)
    | ToastSuccess(message: string)
    | CallOnSuccess
    | CallOnClose

  /** `handleSubmit`, given whether the insert reports an error. */
  method HandleSubmit(form: StepForm, hiringCycleId: Id, insertFails: bool) returns (effects: seq<Effect>)
    ensures !RequiredFilled(form) ==> effects == [ToastError("Please fill in all required fields")]
    ensures RequiredFilled(form) && insertFails
      ==> effects == [InsertStep(BuildStep(hiringCycleId, form)), ToastError("Error adding step")]
    ensures RequiredFilled(form) && !insertFails
      ==> effects == [InsertStep(BuildStep(hiringCycleId, form)), ToastSuccess("Step added successfully!"), CallOnSuccess, CallOnClose]
  {
    if form.name == "" || form.description == "" || form.sequenceOrder == "" {
      effects := [ToastError("Please fill in all required fields")];
      return;
    }
    var stepData := BuildStep(hiringCycleId, form);
    effects := [InsertStep(stepData)];
    if insertFails {
      effects := effects + [ToastError("Error adding step")];
      return;
    }
    effects := effects + [ToastSuccess("Step added successfully!"), CallOnSuccess, CallOnClose];
  }
}
