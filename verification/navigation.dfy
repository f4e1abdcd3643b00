/** The sidebar: which entries a user sees and which entry is highlighted for the current path. */
module Navigation {
  import opened Collections
  import opened Text

  /** `isActive(path)`: the current path is `path` or lies below it. */
  predicate IsActive(pathname: string, path: string) {
    pathname == path || StartsWith(pathname, path + "/")
  }

  /** A path below the entry's path keeps it highlighted. */
  lemma BelowIsActive(path: string, rest: string)
    ensures IsActive(path + "/" + rest, path)
  {
    assert (path + "/" + rest)[..|path + "/"|] == path + "/";
  }

  /**
   * A sibling path that merely starts with the same letters, such as
   * '/leave-requests-x' for '/leave-requests', does not highlight the entry.
   */
  lemma SiblingNotActive(path: string, c: char, rest: string)
    requires c != '/'
    ensures !IsActive(path + [c] + rest, path)
  {
    var p := path + [c] + rest;
    assert p[|path|] == c;
  }

  /** The root entry '/' is highlighted for '/' itself and for paths starting with '//' only. */
  lemma RootActive(pathname: string)
    ensures IsActive(pathname, "/") <==> pathname == "/" || StartsWith(pathname, "//")
  {
    assert "/" + "/" == "//";
  }

  datatype NavItem = NavItem(path: string, caption: string, roles: seq<string>)

  const Everyone: seq<string> := ["EMPLOYEE", "MANAGER", "HR", "ADMIN"]
  const Approvers: seq<string> := ["MANAGER", "HR", "ADMIN"]
  const Staff: seq<string> := ["HR", "ADMIN"]

  /** `navItems`, in order. */
  function NavItems(): (items: seq<NavItem>)
    ensures |items| == 8
    ensures forall i, j :: 0 <= i < j < |items| ==> items[i].path != items[j].path
    ensures forall i :: 0 <= i < |items| ==> items[i].roles != [] && forall x :: x in items[i].roles ==> x in Everyone
  {
    [
      NavItem("/", "Dashboard", Everyone),
      NavItem("/leave-requests", "Đơn nghỉ phép", Everyone),
      NavItem("/approvals", "Phê duyệt", Approvers),
      NavItem("/reports", "Báo cáo", Approvers),
      NavItem("/admin/users", "Quản lý nhân viên", Staff),
      NavItem("/admin/departments", "Phòng ban", Staff),
      NavItem("/admin/leave-types", "Loại phép", Staff),
      NavItem("/admin/holidays", "Ngày lễ", Staff)
    ]
  }

  /** An entry is rendered only for a logged-in user whose role it lists. */
  predicate Shown(item: NavItem, role: Option<string>) {
    role.Some? && role.value in item.roles
  }

  function ShownTo(role: Option<string>): NavItem -> bool {
    item => Shown(item, role)
  }

  /** The rendered entries, in order. */
  function VisibleItems(role: Option<string>): (r: seq<NavItem>)
    ensures forall i :: 0 <= i < |r| ==> r[i] in NavItems() && Shown(r[i], role)
    ensures forall item :: item in NavItems() && Shown(item, role) ==> item in r
    ensures role.None? ==> r == []
  {
    FilterSubset(NavItems(), ShownTo(role));
    Filter(NavItems(), ShownTo(role))
  }

  function PathOf(item: NavItem): string {
    item.path
  }

  /** Only the first two entries list the EMPLOYEE role. */
  lemma EmployeeEntries()
    ensures var items := NavItems();
      |items| == 8 && "EMPLOYEE" in items[0].roles && "EMPLOYEE" in items[1].roles &&
      forall i :: 2 <= i < |items| ==> "EMPLOYEE" !in items[i].roles
  {
    assert "EMPLOYEE" !in Approvers && "EMPLOYEE" !in Staff;
  }

  /** A filter whose test passes the first two elements only keeps those two. */
  lemma {:induction false} FilterFirstTwo(items: seq<NavItem>, f: NavItem -> bool)
    requires |items| >= 2 && f(items[0]) && f(items[1])
    requires forall i :: 2 <= i < |items| ==> !f(items[i])
    ensures Filter(items, f) == items[..2]
  {
    var rest := items[2..];
    assert forall i :: 0 <= i < |rest| ==> !f(rest[i]);
    FilterKeepsNone(rest, f);
    assert items[1..][1..] == rest;
  }

  /** An employee sees exactly the dashboard and the leave requests. */
  lemma EmployeeSeesTwoEntries()
    ensures MapSeq(VisibleItems(Some("EMPLOYEE")), PathOf) == ["/", "/leave-requests"]
  {
    EmployeeEntries();
    FilterFirstTwo(NavItems(), ShownTo(Some("EMPLOYEE")));
  }

  /** HR and ADMIN see every entry. */
  lemma StaffSeesEverything(role: string)
    requires role == "HR" || role == "ADMIN"
    ensures VisibleItems(Some(role)) == NavItems()
  {
    var items := NavItems();
    var f := ShownTo(Some(role));
    forall i | 0 <= i < |items| ensures f(items[i]) {
      assert role in items[i].roles;
    }
    FilterKeepsAll(items, f);
  }
}
