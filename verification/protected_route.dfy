/** The route guard in front of the restricted pages. */
module ProtectedRoute {
  import opened Collections
  import opened Navigation

  datatype Outcome = RedirectToLogin | AccessDenied | RenderChildren

  /** No user goes to the login page, a role outside `allowedRoles` gets the access-denied panel, any other renders the page. */
  function Guard(role: Option<string>, allowedRoles: seq<string>): (o: Outcome)
    ensures o == RedirectToLogin <==> role.None?
    ensures o == AccessDenied <==> role.Some? && role.value !in allowedRoles
    ensures o == RenderChildren <==> role.Some? && role.value in allowedRoles
  {
    if role.None? then RedirectToLogin
    else if role.value !in allowedRoles then AccessDenied
    else RenderChildren
  }

  /** The outcome depends only on whether there is a user and whether the role is allowed. */
  lemma GuardDependsOnMembershipOnly(a: Option<string>, b: Option<string>, allowedRoles: seq<string>)
    requires a.Some? == b.Some?
    requires a.Some? ==> (a.value in allowedRoles <==> b.value in allowedRoles)
    ensures Guard(a, allowedRoles) == Guard(b, allowedRoles)
  {
  }

  /** The guarded pages of the router that have no sidebar entry. */
  const OffSidebarRoutes: seq<string> := ["/admin/attendance", "/attendance/qr"]

  /**
   * The roles each guarded page of the router allows, by its path: the
   * sidebar entries not open to everyone, and the attendance administration
   * and QR pages, which the sidebar does not list.
   */
  function RouteRoles(path: string): (r: Option<seq<string>>)
    ensures r.Some? ==> "HR" in r.value && "ADMIN" in r.value && "EMPLOYEE" !in r.value
    ensures r.Some? <==>
      || (exists i :: 0 <= i < |NavItems()| && NavItems()[i].path == path && NavItems()[i].roles != Everyone)
      || path in OffSidebarRoutes
    ensures path in OffSidebarRoutes ==> r == Some(["HR", "ADMIN"])
  {
    var items := NavItems();
    assert forall i :: 2 <= i < |items| ==> |items[i].roles| < |Everyone|;
    if path in ["/approvals", "/reports"] then
      assert path == items[2].path || path == items[3].path;
      Some(["MANAGER", "HR", "ADMIN"])
    else if path in ["/admin/users", "/admin/departments", "/admin/leave-types", "/admin/holidays"] then
      assert path in [items[4].path, items[5].path, items[6].path, items[7].path];
      Some(["HR", "ADMIN"])
    else if path in OffSidebarRoutes then
      Some(["HR", "ADMIN"])
    else
      assert forall i :: 2 <= i < |items| ==> items[i].path != path;
      None
  }

  /** A sidebar entry is shown exactly when its page, guarded or not, renders for that user. */
  lemma SidebarAgreesWithGuard(item: NavItem, role: string)
    requires item in NavItems()
    ensures Shown(item, Some(role)) <==>
      (RouteRoles(item.path).None? && role in Everyone) ||
      (RouteRoles(item.path).Some? && Guard(Some(role), RouteRoles(item.path).value) == RenderChildren)
  {
  }
}
