/** The admin's review page of one verification request: the Approve and
    Reject buttons, offered only while the request is pending, and the status
    update they trigger. */
module AdminVerificationDetails {

  import opened Common
  import opened VerificationLog

  datatype Decision = Reject | Approve

  /** The status each button writes. */
  function DecisionStatus(d: Decision): (status: string)
    ensures d == Approve <==> status == ApprovedStatus
    ensures d == Reject <==> status == RejectedStatus
  {
    match d
    case Reject => RejectedStatus
    case Approve => ApprovedStatus
  }

  /** The buttons rendered for the loaded request: none while loading or when
      nothing was loaded, Reject and Approve only for a pending request. */
  function OfferedDecisions(loaded: Option<Verification>, isLoading: bool): (ds: seq<Decision>)
    ensures ds != [] <==> !isLoading && loaded.Some? && loaded.value.status == PendingStatus
    ensures ds != [] ==> ds == [Reject, Approve]
  {
    if isLoading || loaded.None? || loaded.value.status != PendingStatus then [] else [Reject, Approve]
  }

  const ListPath: string := "/admin/verifications"

  /** `handleStatusUpdate(newStatus)` for the request `id` of the route. On
      success the status is written and the page returns to the list; on
      failure the table is unchanged and the page stays. Returns where it
      navigates and the toast. */
  method HandleStatusUpdate(table: VerificationTable, id: Id, newStatus: string, updateError: bool)
    returns (navigateTo: Option<string>, toast: string)
    modifies table
    ensures !updateError ==> table.rows == WithStatus(old(table.rows), id, newStatus)
    ensures updateError ==> table.rows == old(table.rows)
    ensures navigateTo.Some? <==> !updateError
    ensures navigateTo.Some? ==> navigateTo.value == ListPath
    ensures toast == if updateError then "Error updating verification status"
                     else "Verification " + newStatus + " successfully!"
  {
    if updateError {
      return None, "Error updating verification status";
    }
    table.UpdateStatus(id, newStatus);
    toast := "Verification " + newStatus + " successfully!";
    navigateTo := Some(ListPath);
  }

  /** `(v) => v.id === id`: the rows the route's `.eq('id', id)` selects. */
  function HasId(id: Id): Verification -> bool {
    (v: Verification) => v.id == id
  }

  /** `.eq('id', id).single()`: the request when exactly one row carries the
      id. For no row or several rows the query errs, and the page keeps `null`. */
  function LoadedRequest(rows: seq<Verification>, id: Id): (loaded: Option<Verification>)
    ensures loaded.Some? ==> loaded.value in rows && loaded.value.id == id
    ensures loaded.Some? <==> |Filter(rows, HasId(id))| == 1
  {
    var matching := Filter(rows, HasId(id));
    if |matching| == 1 then Some(matching[0]) else None
  }

  /** The request of the route is loaded and still pending. */
  predicate IsPending(rows: seq<Verification>, id: Id) {
    LoadedRequest(rows, id).Some? && LoadedRequest(rows, id).value.status == PendingStatus
  }

  /** One visit of the page for request `id` whose admin clicks `decision`.
      The fetch may fail (the page then shows nothing), and so may the update. */
  datatype Attempt = Attempt(decision: Decision, fetchFails: bool, updateFails: bool)

  /** Neither query of the visit fails. */
  predicate Succeeds(a: Attempt) {
    !a.fetchFails && !a.updateFails
  }

  /** The table after one visit: the click exists only among the offered
      buttons of the request as loaded, and it writes through `WithStatus`.
      Only a succeeding visit to a pending request changes anything. */
  function Visit(rows: seq<Verification>, id: Id, a: Attempt): (next: seq<Verification>)
    ensures next == rows || next == WithStatus(rows, id, DecisionStatus(a.decision))
    ensures IsPending(rows, id) && Succeeds(a) ==> next == WithStatus(rows, id, DecisionStatus(a.decision))
    ensures !IsPending(rows, id) || !Succeeds(a) ==> next == rows
  {
    var loaded := if a.fetchFails then None else LoadedRequest(rows, id);
    if a.decision in OfferedDecisions(loaded, false) && !a.updateFails
    then WithStatus(rows, id, DecisionStatus(a.decision))
    else rows
  }

  /** The click on a button of the loaded page, as the component runs it: the
      button is rendered only among `OfferedDecisions`, and its handler is
      `HandleStatusUpdate`. The table ends as `Visit` says. */
  method ClickDecision(table: VerificationTable, id: Id, a: Attempt) returns (navigateTo: Option<string>)
    modifies table
    ensures table.rows == Visit(old(table.rows), id, a)
    ensures navigateTo.Some? <==> a.decision in OfferedDecisions(if a.fetchFails then None else LoadedRequest(old(table.rows), id), false) && !a.updateFails
  {
    var loaded := if a.fetchFails then None else LoadedRequest(table.rows, id);
    if a.decision in OfferedDecisions(loaded, false) {
      var toast;
      navigateTo, toast := HandleStatusUpdate(table, id, DecisionStatus(a.decision), a.updateFails);
    } else {
      navigateTo := None;
    }
  }

  /** The table after a series of visits. */
  function Review(rows: seq<Verification>, id: Id, attempts: seq<Attempt>): seq<Verification>
    decreases |attempts|
  {
    if attempts == [] then rows else Review(Visit(rows, id, attempts[0]), id, attempts[1..])
  }

  /** The position of the first visit whose queries both succeed, or the
      number of visits when there is none. */
  function FirstSuccess(attempts: seq<Attempt>): (k: nat)
    ensures k <= |attempts|
    ensures k < |attempts| ==> Succeeds(attempts[k])
    ensures forall j :: 0 <= j < k ==> !Succeeds(attempts[j])
    decreases |attempts|
  {
    if attempts == [] || Succeeds(attempts[0]) then 0 else 1 + FirstSuccess(attempts[1..])
  }

  /** Updating the status of the route's rows keeps which rows carry the id and
      changes only their status. */
  lemma {:induction false} SelectedAfterUpdate(rows: seq<Verification>, id: Id, status: string)
    ensures |Filter(WithStatus(rows, id, status), HasId(id))| == |Filter(rows, HasId(id))|
    ensures forall k :: 0 <= k < |Filter(rows, HasId(id))| ==>
      Filter(WithStatus(rows, id, status), HasId(id))[k] == Filter(rows, HasId(id))[k].(status := status)
    decreases |rows|
  {
    if rows != [] {
      var updated := WithStatus(rows, id, status);
      assert updated[1..] == WithStatus(rows[1..], id, status);
      SelectedAfterUpdate(rows[1..], id, status);
      var tail := Filter(rows[1..], HasId(id));
      var updatedTail := Filter(updated[1..], HasId(id));
      if rows[0].id == id {
        assert Filter(rows, HasId(id)) == [rows[0]] + tail;
        assert Filter(updated, HasId(id)) == [rows[0].(status := status)] + updatedTail;
      } else {
        assert Filter(rows, HasId(id)) == tail;
        assert Filter(updated, HasId(id)) == updatedTail;
      }
    }
  }

  /** After a decision is written, the page loads the same request with the
      decided status. */
  lemma LoadedAfterUpdate(rows: seq<Verification>, id: Id, status: string)
    requires LoadedRequest(rows, id).Some?
    ensures LoadedRequest(WithStatus(rows, id, status), id) == Some(LoadedRequest(rows, id).value.(status := status))
  {
    SelectedAfterUpdate(rows, id, status);
  }

  /** A request that is not loadable as pending, approved and rejected ones
      among them, is terminal: no series of visits changes the table. */
  lemma {:induction false} DecidedIsTerminal(rows: seq<Verification>, id: Id, attempts: seq<Attempt>)
    requires !IsPending(rows, id)
    ensures Review(rows, id, attempts) == rows
    decreases |attempts|
  {
    if attempts != [] {
      DecidedIsTerminal(Visit(rows, id, attempts[0]), id, attempts[1..]);
    }
  }

  /** From pending, the first visit whose queries succeed decides for good: the
      table ends with that decision written, and the request then loads with the
      decided status. Without such a visit nothing changes. */
  lemma {:induction false} FirstDecisionIsFinal(rows: seq<Verification>, id: Id, attempts: seq<Attempt>)
    requires IsPending(rows, id)
    ensures FirstSuccess(attempts) == |attempts| ==> Review(rows, id, attempts) == rows
    ensures FirstSuccess(attempts) < |attempts| ==>
      var d := attempts[FirstSuccess(attempts)].decision;
      && Review(rows, id, attempts) == WithStatus(rows, id, DecisionStatus(d))
      && LoadedRequest(Review(rows, id, attempts), id) == Some(LoadedRequest(rows, id).value.(status := DecisionStatus(d)))
    decreases |attempts|
  {
    if attempts != [] {
      if Succeeds(attempts[0]) {
        var next := WithStatus(rows, id, DecisionStatus(attempts[0].decision));
        LoadedAfterUpdate(rows, id, DecisionStatus(attempts[0].decision));
        DecidedIsTerminal(next, id, attempts[1..]);
      } else {
        FirstDecisionIsFinal(rows, id, attempts[1..]);
      }
    }
  }
}
