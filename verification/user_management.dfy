/**
 * The staff-management page: reading staff rows from a spreadsheet, the
 * search and role filter of the staff table, the import guard and the body an
 * edit sends.
 */
module UserManagement {
  import opened Collections
  import opened Text
  import opened MockData
  import opened MockServer

  // ---------------------------------------------------------------- spreadsheet import

  /** The roles an imported row may carry. */
  const Roles: seq<string> := ["EMPLOYEE", "MANAGER", "HR", "ADMIN"]

  /** A department as the page holds it. */
  datatype Department = Department(id: string, name: string, code: string)

  /** One spreadsheet row: the header of each non-empty cell mapped to its text. */
  type Row = map<string, string>

  /** `row[key]`: the cell under `key`, or nothing when the row has no such cell. */
  function Cell(row: Row, key: string): Option<string> {
    if key in row then Some(row[key]) else None
  }

  /**
   * A chain of `||` over the cells: the first truthy cell; when none is truthy, the
   * last operand (nothing for an empty list).
   */
  function FirstTruthy(cells: seq<Option<string>>): (r: Option<string>)
    ensures forall i :: 0 <= i < |cells| && Truthy(cells[i]) && (forall j :: 0 <= j < i ==> !Truthy(cells[j])) ==> r == cells[i]
    ensures (forall i :: 0 <= i < |cells| ==> !Truthy(cells[i])) ==> r == (if cells == [] then None else cells[|cells| - 1])
  {
    if cells == [] then None
    else if |cells| == 1 then cells[0]
    else OrElse(cells[0], FirstTruthy(cells[1..]))
  }

  /** The cells of `row` under each of `keys`, in order. */
  function Cells(row: Row, keys: seq<string>): (r: seq<Option<string>>)
    ensures |r| == |keys|
    ensures forall i :: 0 <= i < |keys| ==> r[i] == Cell(row, keys[i])
  {
    seq(|keys|, i requires 0 <= i < |keys| => Cell(row, keys[i]))
  }

  /** The first truthy cell among the alternative headers of one column. */
  function Pick(row: Row, keys: seq<string>): Option<string> {
    FirstTruthy(Cells(row, keys))
  }

  const EmailHeaders: seq<string> := ["Email (*)", "Email", "email"]
  const NameHeaders: seq<string> := ["Họ tên (*)", "Họ tên", "fullName"]
  const PasswordHeaders: seq<string> := ["Mật khẩu (*)", "Mật khẩu", "password"]
  const RoleHeaders: seq<string> := ["Vai trò (*)", "Vai trò", "role"]
  const CodeHeaders: seq<string> := ["Mã phòng ban", "departmentCode"]

  /** The position of the first department with the code, or -1. */
  function CodePosition(departments: seq<Department>, code: string): (i: int)
    ensures -1 <= i < |departments|
    ensures i == -1 <==> forall k :: 0 <= k < |departments| ==> departments[k].code != code
    ensures 0 <= i ==> departments[i].code == code && forall k :: 0 <= k < i ==> departments[k].code != code
  {
    if departments == [] then -1
    else if departments[0].code == code then 0
    else
      var j := CodePosition(departments[1..], code);
      if j == -1 then -1 else j + 1
  }

  /** The row the page keeps for one spreadsheet line. */
  datatype ImportedRow = ImportedRow(email: Option<string>, fullName: Option<string>, password: string,
                                     role: string, departmentId: string, departmentCode: string)

  /** The password column, '123456' when it is missing or empty. */
  function PasswordOf(row: Row): (p: string)
    ensures Truthy(Pick(row, PasswordHeaders)) ==> p == Pick(row, PasswordHeaders).value
    ensures !Truthy(Pick(row, PasswordHeaders)) ==> p == DefaultPassword
  {
    OrElse(Pick(row, PasswordHeaders), Some(DefaultPassword)).value
  }

  /** The role column upper-cased, EMPLOYEE when it is missing, empty or not one of the four roles. */
  function RoleOf(row: Row): (role: string)
    ensures role in Roles
    ensures Truthy(Pick(row, RoleHeaders)) && ToUpper(Pick(row, RoleHeaders).value) in Roles ==>
      role == ToUpper(Pick(row, RoleHeaders).value)
    ensures !Truthy(Pick(row, RoleHeaders)) ==> role == "EMPLOYEE"
  {
    var picked := Pick(row, RoleHeaders);
    if !Truthy(picked) then "EMPLOYEE"
    else
      var up := ToUpper(picked.value);
      if up in Roles then up else "EMPLOYEE"
  }

  /** The department code column, '' when it is missing or empty. */
  function CodeOf(row: Row): (code: string)
    ensures Truthy(Pick(row, CodeHeaders)) ==> code == Pick(row, CodeHeaders).value
    ensures !Truthy(Pick(row, CodeHeaders)) ==> code == ""
  {
    OrElse(Pick(row, CodeHeaders), Some("")).value
  }

  /** The id of the first department with the code, or '' when none has it. */
  function DepartmentIdOf(departments: seq<Department>, code: string): (id: string)
    ensures (forall k :: 0 <= k < |departments| ==> departments[k].code != code) ==> id == ""
    ensures forall k ::
      (0 <= k < |departments| && departments[k].code == code && forall j :: 0 <= j < k ==> departments[j].code != code)
      ==> id == departments[k].id
  {
    var i := CodePosition(departments, code);
    if i == -1 then "" else departments[i].id
  }

  /** The transform of one spreadsheet line: each field read from its column. */
  function TransformRow(row: Row, departments: seq<Department>): (t: ImportedRow)
    ensures t.email == Pick(row, EmailHeaders) && t.fullName == Pick(row, NameHeaders)
    ensures t.password == PasswordOf(row) && t.role == RoleOf(row) && t.departmentCode == CodeOf(row)
    ensures t.departmentId == DepartmentIdOf(departments, t.departmentCode)
  {
    var code := CodeOf(row);
    ImportedRow(Pick(row, EmailHeaders), Pick(row, NameHeaders), PasswordOf(row), RoleOf(row),
                DepartmentIdOf(departments, code), code)
  }

  /** One kept row per spreadsheet line, in the same order. */
  function TransformRows(rows: seq<Row>, departments: seq<Department>): (r: seq<ImportedRow>)
    ensures |r| == |rows|
    ensures forall k :: 0 <= k < |rows| ==> r[k] == TransformRow(rows[k], departments)
  {
    seq(|rows|, k requires 0 <= k < |rows| => TransformRow(rows[k], departments))
  }

  /** Reading two sheets one after the other gives the two transforms one after the other. */
  lemma TransformRowsAppend(a: seq<Row>, b: seq<Row>, departments: seq<Department>)
    ensures TransformRows(a + b, departments) == TransformRows(a, departments) + TransformRows(b, departments)
  {
    var l := TransformRows(a + b, departments);
    var r := TransformRows(a, departments) + TransformRows(b, departments);
    forall k | 0 <= k < |l| ensures l[k] == r[k] {
      if k < |a| {
        assert (a + b)[k] == a[k];
      } else {
        assert (a + b)[k] == b[k - |a|];
      }
    }
  }

  /** Department codes are pairwise different. */
  predicate CodesUnique(departments: seq<Department>) {
    forall i, j :: 0 <= i < j < |departments| ==> departments[i].code != departments[j].code
  }

  /** With unique codes, the imported department is the one carrying the row's code. */
  lemma ImportedDepartment(row: Row, departments: seq<Department>, k: nat)
    requires CodesUnique(departments)
    requires k < |departments| && departments[k].code == TransformRow(row, departments).departmentCode
    ensures TransformRow(row, departments).departmentId == departments[k].id
  {
    var code := TransformRow(row, departments).departmentCode;
    forall j | 0 <= j < k ensures departments[j].code != code {
      assert departments[j].code != departments[k].code;
    }
  }

  /** Each of the four roles, typed in lower case, is accepted as that role. */
  lemma LowerCaseRoleAccepted(role: string, departments: seq<Department>)
    requires role in Roles
    ensures TransformRow(map["role" := ToLower(role)], departments).role == role
  {
    var typed := ToLower(role);
    var row: Row := map["role" := typed];
    assert Cells(row, RoleHeaders) == [None, None, Some(typed)];
    assert Pick(row, RoleHeaders) == Some(typed);
    assert |typed| == |role| > 0;
    assert forall i :: 0 <= i < |role| ==> 'A' <= role[i] <= 'Z';
    assert ToUpper(typed) == role;
  }

  /** The row the bulk endpoint receives for a kept row; `departmentCode` is ignored there. */
  function AsBulkRow(t: ImportedRow): ImportRow {
    ImportRow(t.email, t.fullName, Some(t.password), Some(t.role), Some(t.departmentId))
  }

  /**
   * An account created from a row of this page has one of the four roles,
   * the row's password, and no department when no department code matched.
   */
  lemma ImportedAccount(row: Row, departments: seq<Department>, stamp: string, index: nat)
    requires var t := TransformRow(row, departments); Truthy(t.email) && Truthy(t.fullName)
    ensures var t := TransformRow(row, departments);
      var u := Imported(AsBulkRow(t), stamp, index);
      u.role in Roles && u.role == t.role &&
      (t.password != "" ==> u.password == Some(t.password)) &&
      (t.departmentId == "" ==> u.departmentId.None?) &&
      (t.departmentId != "" ==> u.departmentId == Some(t.departmentId))
  {
    assert RoleOf(row) != "";
  }

  /** What `handleImportUsers` does. */
  datatype ImportAction = EmptyImport(message: string) | PostBulk(path: string, users: seq<ImportedRow>)

  /** Nothing is sent for an empty import; otherwise every kept row is sent, unchanged. */
  function ImportUsers(rows: seq<ImportedRow>): (a: ImportAction)
    ensures a.PostBulk? <==> |rows| > 0
    ensures a.PostBulk? ==> a.users == rows && a.path == "/users/bulk"
    ensures a.EmptyImport? ==> a.message == "Không có dữ liệu để import"
  {
    if |rows| == 0 then EmptyImport("Không có dữ liệu để import") else PostBulk("/users/bulk", rows)
  }

  // ---------------------------------------------------------------- staff table

  /** A user as the staff table shows it. */
  datatype UserRow = UserRow(id: string, email: string, fullName: string, role: string)

  /** Search on name or email, and the role filter. */
  predicate UserMatches(u: UserRow, term: string, roleFilter: string) {
    (ContainsIgnoreCase(u.fullName, term) || ContainsIgnoreCase(u.email, term)) &&
    (roleFilter == "ALL" || u.role == roleFilter)
  }

  /** `filteredUsers`: exactly the users matching the search and the role filter. */
  function FilteredUsers(users: seq<UserRow>, term: string, roleFilter: string): (r: seq<UserRow>)
    ensures forall i :: 0 <= i < |r| ==> r[i] in users && UserMatches(r[i], term, roleFilter)
    ensures forall u :: u in users && UserMatches(u, term, roleFilter) ==> u in r
    ensures roleFilter != "ALL" ==> forall i :: 0 <= i < |r| ==> r[i].role == roleFilter
  {
    FilterSubset(users, u => UserMatches(u, term, roleFilter));
    Filter(users, u => UserMatches(u, term, roleFilter))
  }

  /** The filtered table keeps the order of the full one. */
  lemma FilteredUsersInOrder(users: seq<UserRow>, term: string, roleFilter: string)
    ensures IsSubsequence(FilteredUsers(users, term, roleFilter), users)
  {
    FilterIsSubsequence(users, u => UserMatches(u, term, roleFilter));
  }

  /** An empty search with the filter 'ALL' shows every user. */
  lemma EmptySearchShowsEveryone(users: seq<UserRow>)
    ensures FilteredUsers(users, "", "ALL") == users
  {
    assert ToLower("") == "";
    forall i | 0 <= i < |users| ensures UserMatches(users[i], "", "ALL") {
      ContainsEmpty(ToLower(users[i].fullName));
    }
    FilterKeepsAll(users, u => UserMatches(u, "", "ALL"));
  }

  // ---------------------------------------------------------------- edit form

  /** The fields of the edit form. */
  datatype EditForm = EditForm(fullName: string, password: string, role: string, departmentId: string)

  /** The body of `PUT /users/:id`: the password only when typed, and no department for an empty one. */
  datatype UpdateBody = UpdateBody(fullName: string, role: string, departmentId: Option<string>, password: Option<string>)

  function EditBody(form: EditForm): (b: UpdateBody)
    ensures b.fullName == form.fullName && b.role == form.role
    ensures b.password.Some? <==> form.password != ""
    ensures b.password.Some? ==> b.password.value == form.password
    ensures b.departmentId.Some? <==> form.departmentId != ""
    ensures b.departmentId.Some? ==> b.departmentId.value == form.departmentId
  {
    UpdateBody(form.fullName, form.role, OrElse(Some(form.departmentId), None),
               if form.password != "" then Some(form.password) else None)
  }

  /** The body as the in-memory server reads it: the keys it carries, `null` for a cleared department. */
  function AsPatch(b: UpdateBody): UserPatch {
    UserPatch(None, None, Some(b.fullName), b.password, Some(b.role), Some(b.departmentId), None)
  }

  /**
   * Saving the edit form keeps the stored password when the field is left
   * empty, stores the typed one otherwise, and clears the department when
   * none is chosen.
   */
  lemma EditKeepsPasswordUnlessTyped(u: MockUser, form: EditForm, departments: seq<MockDepartment>)
    requires u.Account?
    ensures var m := MergeUser(u, AsPatch(EditBody(form)), departments);
      m.Account? && m.id == u.id && m.email == u.email &&
      m.fullName == form.fullName && m.role == form.role &&
      (form.password == "" ==> m.password == u.password) &&
      (form.password != "" ==> m.password == Some(form.password)) &&
      (form.departmentId == "" ==> m.departmentId.None? && m.department.None?)
  {
  }
}
