/** The landing page after onboarding: where it sends the user, and the role
    line of its welcome view. */
module Home {

  import opened Common

  /** A JavaScript string in a condition: present and non-empty. */
  predicate Truthy(s: Option<string>) {
    s.Some? && s.value != ""
  }

  /** What the page ends up doing with the `userName`/`userStatus` it was sent. */
  datatype HomeOutcome =
    | RedirectToLogin
    | Forward(navigation: Navigation)
    | Welcome(userName: string, roleLine: string)

  /** Index of the first '_' in `s`, or `|s|` when there is none. */
  function FirstUnderscore(s: string): (k: nat)
    ensures k <= |s|
    ensures forall i :: 0 <= i < k ==> s[i] != '_'
    ensures k < |s| ==> s[k] == '_'
    decreases |s|
  {
    if s == [] then 0 else if s[0] == '_' then 0 else 1 + FirstUnderscore(s[1..])
  }

  /** `s.replace('_', ' ')`: only the first '_' becomes a space. */
  function ReplaceFirstUnderscore(s: string): (r: string)
    ensures |r| == |s|
    ensures forall i :: 0 <= i < |s| ==> r[i] == (if i == FirstUnderscore(s) then ' ' else s[i])
    decreases |s|
  {
    if s == [] then []
    else if s[0] == '_' then [' '] + s[1..]
    else [s[0]] + ReplaceFirstUnderscore(s[1..])
  }

  /** Text up to the first '_' is kept, that '_' becomes a space, and the rest,
      later underscores included, is kept. */
  lemma ReplaceAtFirstUnderscore(before: string, after: string)
    requires '_' !in before
    ensures ReplaceFirstUnderscore(before + "_" + after) == before + " " + after
  {
    var s := before + "_" + after;
    var k := FirstUnderscore(s);
    assert s[|before|] == '_';
    assert k == |before|;
    assert ReplaceFirstUnderscore(s) == before + " " + after;
  }

  /** The hiring manager's status reads "hiring manager". */
  lemma HiringManagerRoleLine()
    ensures ReplaceFirstUnderscore("hiring_manager") == "hiring manager"
  {
    var before, after := "hiring", "manager";
    SplitAtUnderscore(before, after);
    ReplaceAtFirstUnderscore(before, after);
  }

  lemma SplitAtUnderscore(before: string, after: string)
    requires before == "hiring" && after == "manager"
    ensures before + "_" + after == "hiring_manager" && before + " " + after == "hiring manager"
    ensures '_' !in before
  {
  }

  /** A later underscore stays: "a_b_c" reads "a b_c". */
  lemma SecondUnderscoreKept()
    ensures ReplaceFirstUnderscore("a_b_c") == "a b_c"
  {
    ReplaceAtFirstUnderscore("a", "b_c");
  }

  /** The redirect effect and the render together. */
  function HomeDecision(userName: Option<string>, userStatus: Option<string>): (out: HomeOutcome)
    ensures !Truthy(userName) || !Truthy(userStatus) <==> out == RedirectToLogin
    ensures Truthy(userName) && userStatus == Some("talent")
      ==> out == Forward(Navigation("/explore", false, userName, userStatus))
    ensures Truthy(userName) && userStatus == Some("hiring_manager")
      ==> out == Forward(Navigation("/jobs", false, userName, userStatus))
    ensures Truthy(userName) && Truthy(userStatus) && userStatus.value != "talent" && userStatus.value != "hiring_manager"
      ==> out == Welcome(userName.value, ReplaceFirstUnderscore(userStatus.value))
  {
    if !Truthy(userName) || !Truthy(userStatus) then RedirectToLogin
    else if userStatus.value == "talent" then Forward(Navigation("/explore", false, userName, userStatus))
    else if userStatus.value == "hiring_manager" then Forward(Navigation("/jobs", false, userName, userStatus))
    else Welcome(userName.value, ReplaceFirstUnderscore(userStatus.value))
  }

  /** The welcome view is shown only for a status other than the two roles,
      and it never forwards. */
  lemma WelcomeOnlyForOtherStatus(userName: Option<string>, userStatus: Option<string>)
    ensures HomeDecision(userName, userStatus).Welcome?
      <==> Truthy(userName) && Truthy(userStatus) && userStatus.value != "talent" && userStatus.value != "hiring_manager"
  {
  }
}
