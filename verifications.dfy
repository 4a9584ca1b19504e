/** The talent's "My Verifications" page: the request form's guard, the list of
    the talent's own requests under the status selector, and the submission
    sequence (look up the talent, insert a pending request, hide the form,
    reload the list). */
module Verifications {

  import opened Common
  import opened VerificationLog

  /** The request form: the chosen skill and the document link. */
  datatype RequestForm = RequestForm(skillId: Id, docUrl: string)

  /** `VerificationForm.handleSubmit`: `onSubmit` receives the form only when
      both fields are filled; otherwise the "fill in all fields" toast shows. */
  function SubmitGuard(form: RequestForm): (submitted: Option<RequestForm>)
    ensures submitted.Some? <==> form.skillId != "" && form.docUrl != ""
    ensures submitted.Some? ==> submitted.value == form
  {
    if form.skillId == "" || form.docUrl == "" then None else Some(form)
  }

  /** The row inserted for a request; the database supplies `id` and `created_at`. */
  function NewRequest(talentId: Id, form: RequestForm, id: Id, createdAt: int): (v: Verification)
    ensures v.status == PendingStatus && StatusBadge(v.status) == PendingBadge
    ensures v.talentId == talentId && v.skillId == form.skillId && v.docUrl == form.docUrl
  {
    Verification(id, talentId, form.skillId, form.docUrl, PendingStatus, createdAt)
  }

  /** The rows of one talent that pass the status selector. */
  function TalentView(talentId: Id, filter: string): Verification -> bool {
    (v: Verification) => v.talentId == talentId && MatchesFilter(v, filter)
  }

  /** The list the page asks for: only the talent's rows, and under any selector
      other than 'all' only the rows with exactly that status, newest first. */
  lemma TalentListing(rows: seq<Verification>, talentId: Id, filter: string)
    ensures var r := Listing(rows, TalentView(talentId, filter));
      && NewestFirst(r)
      && (forall v :: v in r ==> v.talentId == talentId)
      && (filter != AllFilter ==> forall v :: v in r ==> v.status == filter)
      && (forall v :: v in rows && v.talentId == talentId && (filter == AllFilter || v.status == filter) ==> v in r)
  {
  }

  /** After a submission the reloaded list shows the new pending request even
      when the selector names another status, since the reload drops the
      status restriction. */
  lemma SubmittedRequestIsListed(rows: seq<Verification>, talentId: Id, form: RequestForm, id: Id, createdAt: int, filter: string)
    ensures var request := NewRequest(talentId, form, id, createdAt);
      && request in Listing(rows + [request], TalentView(talentId, AllFilter))
      && (filter != AllFilter && filter != PendingStatus ==> request !in Listing(rows + [request], TalentView(talentId, filter)))
  {
    var request := NewRequest(talentId, form, id, createdAt);
    assert request in rows + [request];
  }

  /** What the talent lookup (`single()` on `talents`) returns. */
  datatype TalentLookup = LookupFailed(message: string) | NoTalent | TalentFound(talentId: Id)

  /** The signed-in user, if any, as `getUser` reports it. */
  datatype SessionUser = SessionUser(id: Id)

  const SubmitErrorPrefix: string := "Error submitting verification request: "
  const SubmitSuccess: string := "Verification request submitted successfully!"

  /** The page's state. */
  class VerificationsPage {
    var verifications: seq<Verification>
    var isLoading: bool
    var filter: string
    var showForm: bool
    var talentId: Option<Id>

    constructor ()
      ensures verifications == [] && isLoading && filter == AllFilter && !showForm && talentId == None
    {
      verifications, isLoading, filter, showForm, talentId := [], true, AllFilter, false, None;
    }

    /** `fetchTalentId`: the id is kept only when a user is signed in and the
        lookup finds their talent row. */
    method FetchTalentId(user: Option<SessionUser>, lookup: TalentLookup)
      modifies this
      ensures user.Some? && lookup.TalentFound? ==> talentId == Some(lookup.talentId)
      ensures !(user.Some? && lookup.TalentFound?) ==> talentId == old(talentId)
      ensures verifications == old(verifications) && isLoading == old(isLoading)
      ensures filter == old(filter) && showForm == old(showForm)
    {
      if user.None? {
        return;
      }
      if lookup.TalentFound? {
        talentId := Some(lookup.talentId);
      }
    }

    /** `fetchVerifications` against the table `rows`, or a failing query.
        Nothing happens, not even the end of loading, before the talent id is known. */
    method FetchVerifications(rows: seq<Verification>, queryFails: bool)
      modifies this
      ensures talentId.None? || talentId.value == "" ==> verifications == old(verifications) && isLoading == old(isLoading)
      ensures talentId.Some? && talentId.value != "" ==> !isLoading
      ensures talentId.Some? && talentId.value != "" && !queryFails
        ==> verifications == Listing(rows, TalentView(talentId.value, filter))
      ensures queryFails ==> verifications == old(verifications)
      ensures filter == old(filter) && showForm == old(showForm) && talentId == old(talentId)
    {
      if talentId.None? || talentId.value == "" {
        return;
      }
      if !queryFails {
        verifications := Listing(rows, TalentView(talentId.value, filter));
      }
      isLoading := false;
    }

    /** `handleVerificationSubmit` for a form that passed the guard. The new row
        gets `newId` and `createdAt` from the database. Returns the toasts shown,
        in order: the success toast comes before the reload, so a failed reload
        adds an error toast after it. */
    method HandleVerificationSubmit(
      table: VerificationTable, user: Option<SessionUser>, lookup: TalentLookup, form: RequestForm,
      newId: Id, createdAt: int, insertError: Option<string>, refetchError: Option<string>)
      returns (toasts: seq<string>)
      modifies this, table
      ensures user.None? ==> toasts == [SubmitErrorPrefix + "No authenticated user"]
      ensures user.Some? && lookup.LookupFailed? ==> toasts == [SubmitErrorPrefix + lookup.message]
      ensures user.Some? && lookup.NoTalent? ==> toasts == [SubmitErrorPrefix + "Talent not found"]
      ensures !(user.Some? && lookup.TalentFound?) ==> showForm == old(showForm)
      ensures user.Some? && lookup.TalentFound? && insertError.None?
        ==> table.rows == old(table.rows) + [NewRequest(lookup.talentId, form, newId, createdAt)]
      ensures !(user.Some? && lookup.TalentFound? && insertError.None?) ==> table.rows == old(table.rows)
      ensures user.Some? && lookup.TalentFound? && insertError.Some?
        ==> toasts == [SubmitErrorPrefix + insertError.value] && showForm == old(showForm)
      ensures user.Some? && lookup.TalentFound? && insertError.None? ==> !showForm
      ensures user.Some? && lookup.TalentFound? && insertError.None? && refetchError.None?
        ==> (verifications == Listing(table.rows, TalentView(lookup.talentId, AllFilter))
          && toasts == [SubmitSuccess])
      ensures user.Some? && lookup.TalentFound? && insertError.None? && refetchError.Some?
        ==> toasts == [SubmitSuccess, SubmitErrorPrefix + refetchError.value]
      ensures !(user.Some? && lookup.TalentFound? && insertError.None? && refetchError.None?)
        ==> verifications == old(verifications)
      ensures filter == old(filter) && talentId == old(talentId) && isLoading == old(isLoading)
    {
      if user.None? {
        return [SubmitErrorPrefix + "No authenticated user"];
      }
      if lookup.LookupFailed? {
        return [SubmitErrorPrefix + lookup.message];
      }
      if lookup.NoTalent? {
        return [SubmitErrorPrefix + "Talent not found"];
      }
      var request := NewRequest(lookup.talentId, form, newId, createdAt);
      // A failed insert leaves the table as it was.
      if insertError.Some? {
        return [SubmitErrorPrefix + insertError.value];
      }
      table.Insert(request);
      toasts := [SubmitSuccess];
      showForm := false;
      if refetchError.Some? {
        return toasts + [SubmitErrorPrefix + refetchError.value];
      }
      verifications := Listing(table.rows, TalentView(lookup.talentId, AllFilter));
    }
  }
}
