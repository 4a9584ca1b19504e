/** The admin's list of verification requests: the status selector, which
    starts on 'pending', the listing it asks for, and the per-row badge and
    Review action. */
module AdminVerifications {

  import opened Common
  import opened VerificationLog

  const InitialFilter: string := PendingStatus

  /** The rows that pass the status selector, of every talent. */
  function AdminView(filter: string): Verification -> bool {
    (v: Verification) => MatchesFilter(v, filter)
  }

  /** `fetchVerifications`: the listing on success (`data || []`), the previous
      list when the query fails. */
  function FetchedList(rows: QueryResult<Verification>, filter: string, previous: seq<Verification>): (r: seq<Verification>)
    ensures rows.QueryError? ==> r == previous
    ensures rows.NoData? ==> r == []
    ensures rows.Rows? ==> NewestFirst(r) && (forall v :: v in r <==> v in rows.rows && MatchesFilter(v, filter))
    ensures rows.Rows? ==> multiset(r) == multiset(Filter(rows.rows, AdminView(filter)))
  {
    match rows
    case QueryError(_) => previous
    case NoData => []
    case Rows(table) => Listing(table, AdminView(filter))
  }

  /** The Review button of a row, as the path it leads to. */
  function ReviewAction(v: Verification): (path: Option<string>)
    ensures path.Some? <==> v.status == PendingStatus
    ensures path.Some? ==> path.value == "/admin/verifications/" + v.id
  {
    if v.status == PendingStatus then Some("/admin/verifications/" + v.id) else None
  }

  /** Under the initial selector every listed row is pending: it shows the
      Pending badge and a Review button. Under 'all' a row has a Review button
      exactly when it is pending. */
  lemma ReviewUnderSelector(table: seq<Verification>, v: Verification)
    ensures v in Listing(table, AdminView(InitialFilter))
      ==> StatusBadge(v.status) == PendingBadge && ReviewAction(v).Some?
    ensures v in Listing(table, AdminView(ApprovedStatus)) ==> ReviewAction(v).None?
    ensures v in Listing(table, AdminView(RejectedStatus)) ==> ReviewAction(v).None?
    ensures v in Listing(table, AdminView(AllFilter)) ==> (ReviewAction(v).Some? <==> v.status == PendingStatus)
  {
  }

  /** A row whose status is some other text is badged Pending but offers no
      Review button. */
  lemma BadgeAndReviewCanDisagree()
    ensures var v := Verification("v1", "t1", "s1", "https://example.com/cv", "in_review", 0);
      StatusBadge(v.status) == PendingBadge && ReviewAction(v).None?
  {
  }
}
