/** The side navigation: which role the signed-in user gets, the links of
    each role, and which link is highlighted. */
module SideNav {

  import opened Common

  datatype Role = Admin | HiringManager | Talent

  /** What `fetchUserRole` learns: a thrown error, no signed-in user, or for
      each of the `admins`, `hiring_managers` and `talents` tables whether
      `.single()` returned a row. */
  datatype RoleLookup = Threw | NoUser | Found(admin: bool, manager: bool, talent: bool)

  /** The role chosen from the three lookups: admin over hiring manager over
      talent; none when no profile was found. */
  function ResolveRole(admin: bool, manager: bool, talent: bool): (role: Option<Role>)
    ensures role == Some(Admin) <==> admin
    ensures role == Some(HiringManager) <==> !admin && manager
    ensures role == Some(Talent) <==> !admin && !manager && talent
    ensures role.None? <==> !admin && !manager && !talent
  {
    if admin then Some(Admin)
    else if manager then Some(HiringManager)
    else if talent then Some(Talent)
    else None
  }

  datatype NavItem = NavItem(path: string, name: string)

  /** `getNavItems` */
  function NavItems(role: Option<Role>): (items: seq<NavItem>)
    ensures role.None? <==> items == []
  {
    match role
    case None => []
    case Some(Admin) => [
      NavItem("/admin/jobs", "Jobs"),
      NavItem("/admin/skills", "Skills"),
      NavItem("/admin/verifications", "Verification Requests"),
      NavItem("/admin/organizations", "Organizations"),
      NavItem("/admin/support", "Support"),
      NavItem("/admin/help", "Help")]
    case Some(HiringManager) => [
      NavItem("/jobs", "My Jobs"),
      NavItem("/hiring-cycles", "Hiring Cycles"),
      NavItem("/documents", "Documents"),
      NavItem("/support", "Support"),
      NavItem("/help", "Help")]
    case Some(Talent) => [
      NavItem("/explore", "Explore"),
      NavItem("/applications", "My Applications"),
      NavItem("/verifications", "My Verifications"),
      NavItem("/documents", "Documents"),
      NavItem("/support", "Support"),
      NavItem("/help", "Help")]
  }

  /** Every admin link leads under `/admin/`. */
  lemma AdminPathsUnderAdmin()
    ensures forall item :: item in NavItems(Some(Admin)) ==> "/admin/" <= item.path
  {
  }

  /** No other role is offered a link under `/admin/`. */
  lemma OthersHaveNoAdminPath(role: Role)
    requires role != Admin
    ensures forall item :: item in NavItems(Some(role)) ==> !("/admin/" <= item.path)
  {
    var items := NavItems(Some(role));
    forall i | 0 <= i < |items|
      ensures !("/admin/" <= items[i].path)
    {
      assert items[i].path[1] != 'a' || items[i].path[2] != 'd';
    }
  }

  predicate DistinctPaths(items: seq<NavItem>) {
    forall i, j :: 0 <= i < j < |items| ==> items[i].path != items[j].path
  }

  /** Within each role's list the paths, which are also the list keys, are distinct. */
  lemma PathsDistinct(role: Option<Role>)
    ensures DistinctPaths(NavItems(role))
  {
  }

  /** A rendered link and whether it is highlighted. */
  datatype Link = Link(path: string, name: string, active: bool)

  /** The component's output: nothing without a role, otherwise one link per
      item, highlighted exactly when the current path equals its path. */
  function Render(role: Option<Role>, currentPath: string): (r: Option<seq<Link>>)
    ensures r.None? <==> role.None?
    ensures r.Some? ==> |r.value| == |NavItems(role)|
    ensures r.Some? ==> forall i :: 0 <= i < |r.value| ==>
      r.value[i].path == NavItems(role)[i].path && r.value[i].name == NavItems(role)[i].name
      && (r.value[i].active <==> currentPath == NavItems(role)[i].path)
  {
    if role.None? then None
    else
      var items := NavItems(role);
      Some(seq(|items|, i requires 0 <= i < |items| => Link(items[i].path, items[i].name, currentPath == items[i].path)))
  }

  /** At most one link is highlighted, for every path. */
  lemma AtMostOneActive(role: Option<Role>, currentPath: string, i: int, j: int)
    requires Render(role, currentPath).Some?
    requires 0 <= i < |Render(role, currentPath).value| && 0 <= j < |Render(role, currentPath).value|
    requires Render(role, currentPath).value[i].active && Render(role, currentPath).value[j].active
    ensures i == j
  {
    PathsDistinct(role);
  }

  /** The component's `userRole` state. */
  class SideNavState {
    var userRole: Option<Role>

    constructor ()
      ensures userRole == None
    {
      userRole := None;
    }

    /** `fetchUserRole`: the role is set only when a profile is found; an error
        or a missing user leaves it as it was. */
    method FetchUserRole(lookup: RoleLookup)
      modifies this
      ensures lookup.Found? && ResolveRole(lookup.admin, lookup.manager, lookup.talent).Some?
        ==> userRole == ResolveRole(lookup.admin, lookup.manager, lookup.talent)
      ensures !(lookup.Found? && ResolveRole(lookup.admin, lookup.manager, lookup.talent).Some?)
        ==> userRole == old(userRole)
    {
      match lookup {
        case Threw =>
        case NoUser =>
        case Found(admin, manager, talent) =>
          if admin {
            userRole := Some(Admin);
          } else if manager {
            userRole := Some(HiringManager);
          } else if talent {
            userRole := Some(Talent);
          }
      }
    }
  }
}
