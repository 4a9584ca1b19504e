/** The admin lists of talents and hiring managers: profile rows joined with
    the authentication service's user list, keyed by user id. */
module UserDirectory {

  import opened Common

  /** A field value of a fetched row: text, `null`, or a joined record. */
  datatype Value = Text(text: string) | Null | Record(fields: map<string, Value>)

  /** A fetched row as an object of named fields. */
  type Row = map<string, Value>

  /** `new Map(users.map(user => [user.id, user]))`: built front to back, so a
      later user replaces an earlier one with the same id. */
  function UserMap(users: seq<AuthUser>): (m: map<Id, AuthUser>)
    ensures forall id :: id in m <==> exists i :: 0 <= i < |users| && users[i].id == id
    ensures forall id :: id in m ==> m[id].id == id
    decreases |users|
  {
    if users == [] then map[]
    else
      var last := users[|users| - 1];
      var m := UserMap(users[..|users| - 1]);
      assert forall i :: 0 <= i < |users| - 1 ==> users[..|users| - 1][i] == users[i];
      m[last.id := last]
  }

  /** The position of the last user with the given id, or -1 when none has it. */
  function LastIndexOf(users: seq<AuthUser>, id: Id): (k: int)
    ensures -1 <= k < |users|
    ensures k >= 0 ==> users[k].id == id
    ensures forall j :: k < j < |users| ==> users[j].id != id
    decreases |users|
  {
    if users == [] then -1
    else if users[|users| - 1].id == id then |users| - 1
    else
      var front := users[..|users| - 1];
      var k := LastIndexOf(front, id);
      assert forall j :: k < j < |front| ==> front[j] == users[j];
      k
  }

  /** The reference reading: the last user in the list with the given id. */
  function LastUserWith(users: seq<AuthUser>, id: Id): (u: Option<AuthUser>)
    ensures u.None? <==> forall i :: 0 <= i < |users| ==> users[i].id != id
    ensures u.Some? ==> exists i :: 0 <= i < |users| && users[i] == u.value && users[i].id == id
                                   && (forall j :: i < j < |users| ==> users[j].id != id)
  {
    var k := LastIndexOf(users, id);
    if k >= 0 then Some(users[k]) else None
  }

  /** `userMap.get(id)` */
  function Lookup(m: map<Id, AuthUser>, id: Id): Option<AuthUser> {
    if id in m then Some(m[id]) else None
  }

  /** The map answers every lookup with the last user holding that id. */
  lemma {:induction false} UserMapKeepsLast(users: seq<AuthUser>, id: Id)
    ensures Lookup(UserMap(users), id) == LastUserWith(users, id)
    decreases |users|
  {
    if users != [] {
      var front := users[..|users| - 1];
      UserMapKeepsLast(front, id);
      if users[|users| - 1].id != id {
        assert LastIndexOf(users, id) == LastIndexOf(front, id);
        var k := LastIndexOf(front, id);
        if k >= 0 {
          assert front[k] == users[k];
        }
      }
    }
  }

  /** `value || 'N/A'` for an optional string. */
  function OrNA(value: Option<string>): (s: string)
    ensures value.Some? && value.value != "" ==> s == value.value
    ensures !(value.Some? && value.value != "") ==> s == "N/A"
  {
    if value.Some? && value.value != "" then value.value else "N/A"
  }

  /** `row.user_id`, usable as a key only when it is text. */
  function UserIdOf(row: Row): Option<Id> {
    if "user_id" in row && row["user_id"].Text? then Some(row["user_id"].text) else None
  }

  /** `user?.user_metadata?.full_name || 'N/A'` */
  function DisplayName(user: Option<AuthUser>): string {
    if user.Some? then OrNA(user.value.fullName) else "N/A"
  }

  /** `user?.email || 'N/A'` */
  function DisplayEmail(user: Option<AuthUser>): string {
    if user.Some? then OrNA(user.value.email) else "N/A"
  }

  function MatchedUser(users: seq<AuthUser>, row: Row): Option<AuthUser> {
    var id := UserIdOf(row);
    if id.Some? then LastUserWith(users, id.value) else None
  }

  /** `{ ...row, full_name, email }` with the user found in the map. */
  function WithDetails(row: Row, m: map<Id, AuthUser>): Row {
    var id := UserIdOf(row);
    var user := if id.Some? then Lookup(m, id.value) else None;
    row["full_name" := Text(DisplayName(user))]["email" := Text(DisplayEmail(user))]
  }

  /** The join: one output row per profile row, in the same order, keeping
      every field of the profile row and adding or overriding `full_name` and
      `email` from the last user holding the row's `user_id`. */
  function JoinUsers(rows: seq<Row>, users: seq<AuthUser>): (out: seq<Row>)
    ensures |out| == |rows|
    ensures forall i :: 0 <= i < |rows| ==>
      out[i].Keys == rows[i].Keys + {"full_name", "email"}
      && (forall k :: k in rows[i] && k != "full_name" && k != "email" ==> out[i][k] == rows[i][k])
      && out[i]["full_name"] == Text(DisplayName(MatchedUser(users, rows[i])))
      && out[i]["email"] == Text(DisplayEmail(MatchedUser(users, rows[i])))
  {
    var m := UserMap(users);
    forall i | 0 <= i < |rows|
      ensures WithDetails(rows[i], m)["full_name"] == Text(DisplayName(MatchedUser(users, rows[i])))
      ensures WithDetails(rows[i], m)["email"] == Text(DisplayEmail(MatchedUser(users, rows[i])))
    {
      if UserIdOf(rows[i]).Some? {
        UserMapKeepsLast(users, UserIdOf(rows[i]).value);
      }
    }
    seq(|rows|, i requires 0 <= i < |rows| => WithDetails(rows[i], m))
  }

  /** What the page lists: the joined rows when both the user list and the
      profile query deliver, otherwise the initial empty list. A profile query
      without data makes `.map` throw, so it counts as a failure. */
  function Listed(users: Option<seq<AuthUser>>, rows: QueryResult<Row>): (shown: seq<Row>)
    ensures users.None? || !rows.Rows? ==> shown == []
    ensures users.Some? && rows.Rows? ==> shown == JoinUsers(rows.rows, users.value)
  {
    if users.Some? && rows.Rows? then JoinUsers(rows.rows, users.value) else []
  }
}
