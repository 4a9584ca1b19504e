/** The admin list of hiring managers: the user join of the directory, plus
    the organization column fed by the `organization:org_id (name)` join. */
module AdminHiringManagers {

  import opened Common
  import opened UserDirectory

  /** The row's organization is a record whose `name` is non-empty text: the
      only case in which `row.organization?.name` is truthy. */
  predicate HasOrganizationName(row: Row) {
    && "organization" in row && row["organization"].Record? && "name" in row["organization"].fields
    && row["organization"].fields["name"].Text? && row["organization"].fields["name"].text != ""
  }

  /** `row.organization?.name || 'N/A'` */
  function OrganizationCell(row: Row): (cell: string)
    ensures HasOrganizationName(row) ==> cell == row["organization"].fields["name"].text
    ensures !HasOrganizationName(row) ==> cell == "N/A"
  {
    if "organization" in row && row["organization"].Record? && "name" in row["organization"].fields then
      var name := row["organization"].fields["name"];
      if name.Text? && name.text != "" then name.text else "N/A"
    else "N/A"
  }

  /** A manager without an organization (`org_id` unset, so the join gives `null`)
      shows "N/A". */
  lemma NoOrganizationShowsNA(row: Row)
    requires "organization" !in row || row["organization"] == Null
    ensures OrganizationCell(row) == "N/A"
  {
  }

  /** Every listed manager keeps the organization cell of its profile row, and
      its name and email come from the last user holding its `user_id`. */
  lemma ListedManagers(users: seq<AuthUser>, rows: seq<Row>)
    ensures var shown := Listed(Some(users), Rows(rows));
      |shown| == |rows|
      && forall i :: 0 <= i < |rows| ==>
        OrganizationCell(shown[i]) == OrganizationCell(rows[i])
        && shown[i]["full_name"] == Text(DisplayName(MatchedUser(users, rows[i])))
        && shown[i]["email"] == Text(DisplayEmail(MatchedUser(users, rows[i])))
  {
    var shown := Listed(Some(users), Rows(rows));
    forall i | 0 <= i < |rows|
      ensures OrganizationCell(shown[i]) == OrganizationCell(rows[i])
    {
      assert "organization" in shown[i] <==> "organization" in rows[i];
      if "organization" in rows[i] {
        assert shown[i]["organization"] == rows[i]["organization"];
      }
    }
  }
}
