/**
 The client-side route guard: while the session is being restored it shows a
 placeholder, an anonymous visitor is sent to the login page, and a signed-in
 user whose role the route does not list is sent to the dashboard of their own
 role. The route table of the application decides which roles each area lists.
 */
module RouteGuard {
  import opened Wrappers
  import Users

  /** The part of the signed-in user the guard reads. */
  datatype ClientUser = ClientUser(role: string, isVerified: bool)

  /** The role as the user endpoint spells it; `unlisted` is the stored spelling of a value outside the three choices. */
  function RoleName(r: Users.Role, unlisted: string): string {
    match r
    case Admin => "admin"
    case Donor => "donor"
    case Charity => "charity"
    case Unlisted => unlisted
  }

  /** The client's copy of a stored user. */
  function ClientUserOf(u: Users.User, unlisted: string): ClientUser {
    ClientUser(RoleName(u.role, unlisted), u.isVerified)
  }

  /** What the guard renders. */
  datatype Decision = Loading | Navigate(path: string) | Render

  const LoginPath := "/login"

  /** The dashboard each known role is sent to; an unknown role has none. */
  function Dashboard(role: string): Option<string> {
    if role == "admin" then Some("/admin/dashboard")
    else if role == "donor" then Some("/donor/dashboard")
    else if role == "charity" then Some("/charity/dashboard")
    else None
  }

  /**
   The guard. `allowed` defaults to the empty list, which lets every signed-in
   user through; so does a session that is authenticated but has no user record.
   */
  function Guard(isLoading: bool, isAuthenticated: bool, user: Option<ClientUser>, allowed: seq<string>): (d: Decision)
    ensures isLoading ==> d == Loading
    ensures !isLoading && !isAuthenticated ==> d == Navigate(LoginPath)
    ensures !isLoading && isAuthenticated ==>
      (d == Render <==> allowed == [] || user.None? || user.value.role in allowed)
    ensures !isLoading && isAuthenticated && d != Render ==>
      user.Some? && d == Navigate(if Dashboard(user.value.role).Some? then Dashboard(user.value.role).value else LoginPath)
  {
    if isLoading then Loading
    else if !isAuthenticated then Navigate(LoginPath)
    else if |allowed| > 0 && user.Some? && user.value.role !in allowed then
      match Dashboard(user.value.role)
      case Some(path) => Navigate(path)
      case None => Navigate(LoginPath)
    else Render
  }

  /** The path is an area's parent route itself or one of its child routes. */
  predicate InArea(path: string, area: string) {
    path == area || area + "/" <= path
  }

  /**
   The roles the application's route table lists for the area a path lies in;
   public pages list none and are not guarded. Only paths the route table
   declares are meant: an undeclared child such as `/admin/xyz` falls to the
   catch-all route, which redirects to `/` without a guard.
   */
  function AreaRoles(path: string): seq<string> {
    if InArea(path, "/admin") then ["admin"]
    else if InArea(path, "/donor") then ["donor"]
    else if InArea(path, "/charity") then ["charity"]
    else []
  }

  /**
   A refused user with a known role is sent to a dashboard whose own guard lets
   them in, so the guard never redirects twice in a row; a user with an unknown
   role lands on the unguarded login page.
   */
  lemma RedirectLands(user: ClientUser, allowed: seq<string>)
    requires Guard(false, true, Some(user), allowed) != Render
    ensures var d := Guard(false, true, Some(user), allowed);
      d.Navigate? &&
      (Dashboard(user.role).Some? ==> Guard(false, true, Some(user), AreaRoles(d.path)) == Render) &&
      (Dashboard(user.role).None? ==> d.path == LoginPath && AreaRoles(d.path) == [])
  {
    var d := Guard(false, true, Some(user), allowed);
    if user.role == "donor" {
      NotPrefix("/admin/", d.path, 1);
    } else if user.role == "charity" {
      NotPrefix("/admin/", d.path, 1);
      NotPrefix("/donor/", d.path, 1);
    } else if Dashboard(user.role).None? {
      NotPrefix("/admin/", LoginPath, 1);
      NotPrefix("/donor/", LoginPath, 1);
      NotPrefix("/charity/", LoginPath, 1);
    }
  }

  /** A string that differs from `p` at a position both have does not start with `p`. */
  lemma NotPrefix(p: string, s: string, i: nat)
    requires i < |p| && i < |s| && p[i] != s[i]
    ensures !(p <= s)
  {
  }

  /** Each area of the route table admits exactly the one role it is named after. */
  lemma AreaAdmitsOnlyItsRole(path: string, user: ClientUser)
    requires AreaRoles(path) != []
    ensures Guard(false, true, Some(user), AreaRoles(path)) == Render <==> AreaRoles(path) == [user.role]
  {
  }

  /** Each of the three role choices has a dashboard, and it lies in the area named after the role. */
  lemma ChoiceRolesHaveDashboards(r: Users.Role, unlisted: string)
    requires r != Users.Unlisted
    ensures Dashboard(RoleName(r, unlisted)).Some?
    ensures AreaRoles(Dashboard(RoleName(r, unlisted)).value) == [RoleName(r, unlisted)]
  {
    var path := Dashboard(RoleName(r, unlisted)).value;
    match r
    case Admin =>
    case Donor => NotPrefix("/admin/", path, 1);
    case Charity => NotPrefix("/admin/", path, 1); NotPrefix("/donor/", path, 1);
  }

  /** Adding roles to a non-empty list never turns away a user who was let in. */
  lemma GuardMonotone(isLoading: bool, isAuthenticated: bool, user: Option<ClientUser>, allowed: seq<string>, more: seq<string>)
    requires Guard(isLoading, isAuthenticated, user, allowed) == Render
    requires allowed != [] && forall i :: 0 <= i < |allowed| ==> allowed[i] in more
    ensures Guard(isLoading, isAuthenticated, user, more) == Render
  {
    if user.Some? {
      var k :| 0 <= k < |allowed| && allowed[k] == user.value.role;
    }
  }
}
