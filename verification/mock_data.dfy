/**
 * The records of the in-memory backend, its seed data, and the functions that
 * specify what its handlers compute: the user directory overlaying the demo
 * accounts, the bulk import, the leave balance and the statistics.
 */
module MockData {
  import opened Collections
  import opened Text
  import opened Database

  // ---------------------------------------------------------------- records

  datatype DeptRef = DeptRef(id: string, name: string)

  /**
   * An entry of the dynamic user list: a stored account, or the marker
   * `{ id, _deleted: true }` left when a demo account is deleted.
   */
  datatype MockUser =
    | Account(id: string, email: string, fullName: string, password: Option<string>, role: string,
              departmentId: Option<string>, department: Option<DeptRef>, phoneNumber: Option<string>)
    | Tombstone(id: string)

  /** A user as the listing returns it, without the password. */
  datatype ListedUser = ListedUser(id: string, email: string, fullName: string, role: string,
                                   departmentId: Option<string>, department: Option<DeptRef>, phoneNumber: Option<string>)

  datatype MockDepartment = MockDepartment(id: string, name: string, code: string, managerId: Option<string>)

  datatype MockLeaveType = MockLeaveType(id: string, code: string, name: string, description: string,
                                         defaultDays: int, isActive: bool)

  datatype Holiday = Holiday(id: string, name: string, date: string, description: string)

  /** The `user` and `leaveType` every created request is stamped with. */
  datatype Requester = Requester(id: string, fullName: string, email: string, department: Option<DeptRef>)

  datatype LeaveTypeRef = LeaveTypeRef(id: string, name: string, code: string)

  datatype Attachment = Attachment(filename: string, originalName: string, path: string, size: nat, mimetype: string)

  datatype MockApproval = MockApproval(id: string, status: RequestStatus, comments: string, approver: Requester)

  /** A stored request; form fields arrive as strings, `totalDays` included. */
  datatype MockRequest = MockRequest(
    id: string,
    leaveTypeId: string,
    startDate: string,
    endDate: string,
    reason: string,
    totalDays: string,
    attachments: seq<Attachment>,
    status: RequestStatus,
    approvals: seq<MockApproval>,
    user: Requester,
    leaveType: LeaveTypeRef)

  function Ids(us: seq<MockUser>): (r: seq<string>)
    ensures |r| == |us| && forall i :: 0 <= i < |us| ==> r[i] == us[i].id
  {
    MapSeq(us, (u: MockUser) => u.id)
  }

  // ---------------------------------------------------------------- seed data

  function DemoAccount(id: string, email: string, fullName: string, role: string, dept: DeptRef): MockUser {
    Account(id, email, fullName, None, role, Some(dept.id), Some(dept), None)
  }

  /** `Object.values(demoAccounts)`, in key insertion order. */
  function DemoAccounts(): seq<MockUser> {
    [ DemoAccount("1", "admin@test.com", "Nguyễn Văn Admin", "ADMIN", DeptRef("1", "Phòng IT")),
      DemoAccount("2", "hr@test.com", "Trần Thị HR", "HR", DeptRef("3", "Phòng Nhân sự")),
      DemoAccount("3", "manager@test.com", "Lê Văn Manager", "MANAGER", DeptRef("2", "Phòng Kinh doanh")),
      DemoAccount("4", "employee@test.com", "Phạm Thị Nhân Viên", "EMPLOYEE", DeptRef("1", "Phòng IT")),
      DemoAccount("5", "user@test.com", "User Test", "EMPLOYEE", DeptRef("1", "Phòng IT")) ]
  }

  function SeedDepartments(): seq<MockDepartment> {
    [ MockDepartment("1", "Phòng IT", "IT", None),
      MockDepartment("2", "Phòng Kinh doanh", "SALES", None),
      MockDepartment("3", "Phòng Nhân sự", "HR", None) ]
  }

  function SeedLeaveTypes(): seq<MockLeaveType> {
    [ MockLeaveType("1", "ANNUAL", "Phép năm", "Phép nghỉ hàng năm", 12, true),
      MockLeaveType("2", "SICK", "Phép bệnh", "Nghỉ ốm", 30, true),
      MockLeaveType("3", "UNPAID", "Không lương", "Nghỉ không lương", 0, true) ]
  }

  function SeedHolidays(): seq<Holiday> {
    [ Holiday("1", "Tết Nguyên Đán", "2025-01-29", "Tết Âm lịch"),
      Holiday("2", "Giỗ Tổ Hùng Vương", "2025-04-10", "10/3 Âm lịch"),
      Holiday("3", "Giải phóng miền Nam", "2025-04-30", "30/4"),
      Holiday("4", "Quốc tế Lao động", "2025-05-01", "1/5"),
      Holiday("5", "Quốc khánh", "2025-09-02", "2/9") ]
  }

  /** The ids of the demo accounts. */
  const DemoIds: seq<string> := ["1", "2", "3", "4", "5"]

  /** The demo accounts have distinct ids, are all accounts, and the ids are "1" to "5". */
  lemma DemoAccountsShape()
    ensures Distinct(Ids(DemoAccounts()))
    ensures forall k :: 0 <= k < |DemoAccounts()| ==> DemoAccounts()[k].Account?
    ensures Ids(DemoAccounts()) == DemoIds
  {
    assert Ids(DemoAccounts()) == ["1", "2", "3", "4", "5"];
  }

  predicate IsDemoId(id: string) {
    id in DemoIds
  }

  // ---------------------------------------------------------------- the user directory

  /** The first entry with the id, as `find` returns it. */
  function FindById(us: seq<MockUser>, id: string): (r: Option<MockUser>)
    ensures r.Some? <==> id in Ids(us)
    ensures r.Some? ==> r.value in us && r.value.id == id
  {
    if us == [] then None else if us[0].id == id then Some(us[0]) else FindById(us[1..], id)
  }

  /** The first department with the id. */
  function FindDepartment(departments: seq<MockDepartment>, id: string): (r: Option<MockDepartment>)
    ensures r.Some? ==> r.value in departments && r.value.id == id
    ensures r.None? ==> forall k :: 0 <= k < |departments| ==> departments[k].id != id
  {
    if departments == [] then None
    else if departments[0].id == id then Some(departments[0])
    else FindDepartment(departments[1..], id)
  }

  /**
   * `map.set(u.id, u)` on a `Map` listed as its entries in insertion order: an
   * existing key keeps its place and takes the new value.
   */
  function MapSet(entries: seq<MockUser>, u: MockUser): (r: seq<MockUser>)
    ensures u.id in Ids(entries) ==> Ids(r) == Ids(entries)
    ensures u.id !in Ids(entries) ==> r == entries + [u]
  {
    if entries == [] then [u]
    else if entries[0].id == u.id then [u] + entries[1..]
    else [entries[0]] + MapSet(entries[1..], u)
  }

  /** Setting a key whose first entry is at `j` replaces the value at `j` and nothing else. */
  lemma {:induction false} MapSetReplaces(entries: seq<MockUser>, u: MockUser, j: nat)
    requires j < |entries| && entries[j].id == u.id
    requires forall k :: 0 <= k < j ==> entries[k].id != u.id
    ensures MapSet(entries, u) == entries[j := u]
  {
    if j > 0 {
      var rest := entries[1..];
      MapSetReplaces(rest, u, j - 1);
      ConsUpdate(entries[0], rest, j - 1, u);
      assert entries == [entries[0]] + rest;
    }
  }

  lemma ConsUpdate<T>(x: T, rest: seq<T>, i: nat, y: T)
    requires i < |rest|
    ensures [x] + rest[i := y] == ([x] + rest)[i + 1 := y]
  {
  }


  /** Sets the map entry of each user's id to that user, in order; a later user with the same id overwrites. */
  function SetAll(entries: seq<MockUser>, us: seq<MockUser>): seq<MockUser> {
    if us == [] then entries else MapSet(SetAll(entries, us[..|us| - 1]), us[|us| - 1])
  }

  /** Sets the map entry of each demo account's id, in order, only when the map has no entry for that id yet. */
  function SetAbsent(entries: seq<MockUser>, us: seq<MockUser>): seq<MockUser> {
    if us == [] then entries
    else
      var before := SetAbsent(entries, us[..|us| - 1]);
      if us[|us| - 1].id in Ids(before) then before else before + [us[|us| - 1]]
  }

  /** The values of `userMap`: dynamic entries first, then the demo accounts not overridden. */
  function UserMap(dynamic: seq<MockUser>, demo: seq<MockUser>): seq<MockUser> {
    SetAbsent(SetAll([], dynamic), demo)
  }

  /** The listing's projection of one account: its department filled in, its password dropped. */
  function Present(id: string, email: string, fullName: string, role: string, departmentId: Option<string>,
                   department: Option<DeptRef>, phoneNumber: Option<string>, departments: seq<MockDepartment>): ListedUser {
    var dept :=
      if Truthy(departmentId) && department.None? && FindDepartment(departments, departmentId.value).Some?
      then Some(DeptRef(departmentId.value, FindDepartment(departments, departmentId.value).value.name))
      else department;
    ListedUser(id, email, fullName, role, departmentId, dept, phoneNumber)
  }

  /** The listing's copy of a stored account; a deletion marker is filtered out before this is applied. */
  function Project(u: MockUser, departments: seq<MockDepartment>): (l: ListedUser)
    ensures l.id == u.id
    ensures u.Account? ==> l.email == u.email && l.fullName == u.fullName && l.role == u.role
    ensures u.Account? ==> l.departmentId == u.departmentId && l.phoneNumber == u.phoneNumber
    ensures u.Account? && u.department.Some? ==> l.department == u.department
    ensures u.Account? && u.department.None? ==>
      (l.department.Some? <==> Truthy(u.departmentId) && FindDepartment(departments, u.departmentId.value).Some?)
    ensures u.Account? && u.department.None? && l.department.Some? ==>
      l.department.value.id == u.departmentId.value && l.department.value.name == FindDepartment(departments, u.departmentId.value).value.name
  {
    match u
    case Account(id, email, fullName, _, role, departmentId, department, phoneNumber) =>
      Present(id, email, fullName, role, departmentId, department, phoneNumber, departments)
    case Tombstone(id) => ListedUser(id, "", "", "", None, None, None)
  }

  /** The map's values without the deletion markers, each projected for the response. */
  function Listing(entries: seq<MockUser>, departments: seq<MockDepartment>): seq<ListedUser> {
    MapSeq(Filter(entries, (u: MockUser) => u.Account?), (u: MockUser) => Project(u, departments))
  }

  /** The body of `GET /api/users`. */
  function Directory(dynamic: seq<MockUser>, departments: seq<MockDepartment>): seq<ListedUser> {
    Listing(UserMap(dynamic, DemoAccounts()), departments)
  }

  lemma {:induction false} SetAllDistinct(us: seq<MockUser>)
    requires Distinct(Ids(us))
    ensures SetAll([], us) == us
  {
    if us != [] {
      var init, last := us[..|us| - 1], us[|us| - 1];
      assert Distinct(Ids(init)) && last.id !in Ids(init) by {
        assert Ids(init) == Ids(us)[..|us| - 1];
        DistinctInit(Ids(us));
      }
      SetAllDistinct(init);
      assert us == init + [last];
    }
  }

  lemma IdsAppend(a: seq<MockUser>, b: seq<MockUser>)
    ensures Ids(a + b) == Ids(a) + Ids(b)
  {
  }

  lemma IdOfFiltered(s: seq<MockUser>, p: MockUser -> bool, x: string)
    requires x in Ids(Filter(s, p))
    ensures x in Ids(s)
  {
    var f := Filter(s, p);
    var k :| 0 <= k < |f| && Ids(f)[k] == x;
    FilterSubset(s, p);
    assert f[k] in s;
    var j :| 0 <= j < |s| && s[j] == f[k];
    assert Ids(s)[j] == x;
  }

  /** The test picking the accounts whose id has no entry in the map so far. */
  function AbsentFrom(entries: seq<MockUser>): MockUser -> bool {
    (u: MockUser) => u.id !in Ids(entries)
  }

  lemma LastIdIsNew(demo: seq<MockUser>)
    requires demo != [] && Distinct(Ids(demo))
    ensures demo[|demo| - 1].id !in Ids(demo[..|demo| - 1])
  {
    var init := demo[..|demo| - 1];
    forall k | 0 <= k < |init| ensures Ids(init)[k] != demo[|demo| - 1].id {
      assert Ids(demo)[k] != Ids(demo)[|demo| - 1];
    }
  }

  lemma {:induction false} SetAbsentShape(entries: seq<MockUser>, demo: seq<MockUser>)
    requires Distinct(Ids(demo))
    ensures SetAbsent(entries, demo) == entries + Filter(demo, AbsentFrom(entries))
  {
    if demo != [] {
      var init, last := demo[..|demo| - 1], demo[|demo| - 1];
      assert Distinct(Ids(init)) && last.id !in Ids(init) by {
        assert Ids(init) == Ids(demo)[..|demo| - 1];
        DistinctInit(Ids(demo));
      }
      SetAbsentShape(entries, init);
      if last.id in Ids(Filter(init, AbsentFrom(entries))) {
        IdOfFiltered(init, AbsentFrom(entries), last.id);
      }
      assert demo == init + [last];
      SetAbsentStep(entries, init, last);
    }
  }

  /** One more demo account is added exactly when its id is not yet in the map. */
  lemma SetAbsentStep(entries: seq<MockUser>, init: seq<MockUser>, last: MockUser)
    requires SetAbsent(entries, init) == entries + Filter(init, AbsentFrom(entries))
    requires last.id !in Ids(Filter(init, AbsentFrom(entries)))
    ensures SetAbsent(entries, init + [last]) == entries + Filter(init + [last], AbsentFrom(entries))
  {
    var p := AbsentFrom(entries);
    var kept := Filter(init, p);
    SetAbsentSnoc(entries, init, last);
    FilterSnoc(init, last, p);
    assert p(last) == (last.id !in Ids(entries));
    AddIfAbsent(entries, kept, last);
  }

  /** Adding `last` to `entries + kept` when its id is absent is adding it after `kept` when `entries` lacks the id. */
  lemma AddIfAbsent(entries: seq<MockUser>, kept: seq<MockUser>, last: MockUser)
    requires last.id !in Ids(kept)
    ensures var before := entries + kept;
      (if last.id in Ids(before) then before else before + [last]) ==
      entries + (kept + (if last.id !in Ids(entries) then [last] else []))
  {
    IdsAppend(entries, kept);
  }

  lemma SetAbsentSnoc(entries: seq<MockUser>, init: seq<MockUser>, last: MockUser)
    ensures var before := SetAbsent(entries, init);
      SetAbsent(entries, init + [last]) == if last.id in Ids(before) then before else before + [last]
  {
    assert (init + [last])[..|init|] == init;
  }

  /**
   * With no repeated id in the dynamic list, the directory's map holds the
   * dynamic entries in order followed by the demo accounts whose id no dynamic
   * entry carries.
   */
  lemma UserMapShape(dynamic: seq<MockUser>)
    requires Distinct(Ids(dynamic))
    ensures UserMap(dynamic, DemoAccounts()) ==
      dynamic + Filter(DemoAccounts(), AbsentFrom(dynamic))
  {
    SetAllDistinct(dynamic);
    DemoAccountsShape();
    SetAbsentShape(dynamic, DemoAccounts());
  }
  /** In a list without repeated ids, the entry found by id is the only one with that id. */
  lemma {:induction false} FindByIdUnique(us: seq<MockUser>, j: nat)
    requires Distinct(Ids(us)) && j < |us|
    ensures FindById(us, us[j].id) == Some(us[j])
  {
    if us[0].id != us[j].id {
      assert j != 0;
      assert Ids(us[1..]) == Ids(us)[1..];
      FindByIdUnique(us[1..], j - 1);
    }
  }

  /** The listing of a map made of the dynamic entries followed by the demo accounts they do not override. */
  function Overlay(dynamic: seq<MockUser>, demo: seq<MockUser>, departments: seq<MockDepartment>): seq<ListedUser> {
    Listing(dynamic + Filter(demo, AbsentFrom(dynamic)), departments)
  }

  /** A listed user comes from the dynamic entry with its id, or else from a demo account. */
  lemma {:induction false} OverlaySound(dynamic: seq<MockUser>, demo: seq<MockUser>, departments: seq<MockDepartment>, k: nat)
    requires Distinct(Ids(dynamic))
    requires k < |Overlay(dynamic, demo, departments)|
    ensures var x := Overlay(dynamic, demo, departments)[k].id;
      if x in Ids(dynamic)
      then FindById(dynamic, x).value.Account? && Overlay(dynamic, demo, departments)[k] == Project(FindById(dynamic, x).value, departments)
      else x in Ids(demo)
  {
    var rest := Filter(demo, AbsentFrom(dynamic));
    var entries := dynamic + rest;
    var shown := Filter(entries, (u: MockUser) => u.Account?);
    FilterSubset(entries, (u: MockUser) => u.Account?);
    FilterSubset(demo, AbsentFrom(dynamic));
    var u := shown[k];
    assert u in entries && u.Account?;
    var j :| 0 <= j < |entries| && entries[j] == u;
    if j < |dynamic| {
      FindByIdUnique(dynamic, j);
      assert Ids(dynamic)[j] == u.id;
    } else {
      assert u in rest;
      var d :| 0 <= d < |demo| && demo[d] == u;
      assert Ids(demo)[d] == u.id;
    }
  }

  /** An account the dynamic list holds, or a demo account it does not override, is listed. */
  lemma {:induction false} OverlayComplete(dynamic: seq<MockUser>, demo: seq<MockUser>, departments: seq<MockDepartment>, u: MockUser)
    requires u.Account?
    requires (u.id in Ids(dynamic) && FindById(dynamic, u.id) == Some(u)) || (u.id !in Ids(dynamic) && u in demo)
    ensures exists k :: 0 <= k < |Overlay(dynamic, demo, departments)| && Overlay(dynamic, demo, departments)[k].id == u.id
  {
    var rest := Filter(demo, AbsentFrom(dynamic));
    var entries := dynamic + rest;
    var shown := Filter(entries, (u: MockUser) => u.Account?);
    if u.id in Ids(dynamic) {
      var j :| 0 <= j < |dynamic| && dynamic[j] == u;
      assert entries[j] == u;
    } else {
      var d :| 0 <= d < |demo| && demo[d] == u;
      assert u in rest;
      var r :| 0 <= r < |rest| && rest[r] == u;
      assert entries[|dynamic| + r] == u;
    }
    assert u in shown;
    var k :| 0 <= k < |shown| && shown[k] == u;
    assert Overlay(dynamic, demo, departments)[k].id == u.id;
  }

  /** The overlay shows `x` exactly when the dynamic list holds an account with it, or else `demo` has it. */
  lemma {:induction false} OverlayEntries(dynamic: seq<MockUser>, demo: seq<MockUser>, departments: seq<MockDepartment>, x: string)
    requires Distinct(Ids(dynamic))
    requires forall k :: 0 <= k < |demo| ==> demo[k].Account?
    ensures var listed := Overlay(dynamic, demo, departments);
      (exists k :: 0 <= k < |listed| && listed[k].id == x) <==>
        (if x in Ids(dynamic) then FindById(dynamic, x).value.Account? else x in Ids(demo))
    ensures var listed := Overlay(dynamic, demo, departments);
      x in Ids(dynamic) ==>
        forall k :: 0 <= k < |listed| && listed[k].id == x ==> listed[k] == Project(FindById(dynamic, x).value, departments)
  {
    var listed := Overlay(dynamic, demo, departments);
    forall k | 0 <= k < |listed|
      ensures var y := listed[k].id;
        if y in Ids(dynamic) then FindById(dynamic, y).value.Account? && listed[k] == Project(FindById(dynamic, y).value, departments)
        else y in Ids(demo)
    {
      OverlaySound(dynamic, demo, departments, k);
    }
    if x in Ids(dynamic) && FindById(dynamic, x).value.Account? {
      OverlayComplete(dynamic, demo, departments, FindById(dynamic, x).value);
    } else if x !in Ids(dynamic) && x in Ids(demo) {
      var d :| 0 <= d < |demo| && Ids(demo)[d] == x;
      OverlayComplete(dynamic, demo, departments, demo[d]);
    }
  }

  /**
   * The directory shows a user with id `x` exactly when the dynamic list holds
   * an account (not a deletion marker) with that id, or, when it holds nothing
   * with that id, `x` is a demo account's id; and what it shows for an id in
   * the dynamic list is that entry, so a stored entry shadows the demo account.
   */
  lemma {:induction false} DirectoryEntries(dynamic: seq<MockUser>, departments: seq<MockDepartment>, x: string)
    requires Distinct(Ids(dynamic))
    ensures var listed := Directory(dynamic, departments);
      (exists k :: 0 <= k < |listed| && listed[k].id == x) <==>
        (if x in Ids(dynamic) then FindById(dynamic, x).value.Account? else IsDemoId(x))
    ensures var listed := Directory(dynamic, departments);
      x in Ids(dynamic) ==>
        forall k :: 0 <= k < |listed| && listed[k].id == x ==> listed[k] == Project(FindById(dynamic, x).value, departments)
  {
    UserMapShape(dynamic);
    DemoAccountsShape();
    assert Directory(dynamic, departments) == Overlay(dynamic, DemoAccounts(), departments);
    OverlayEntries(dynamic, DemoAccounts(), departments, x);
  }

  // ---------------------------------------------------------------- bulk import

  /** One row of the import body; a column may be absent. */
  datatype ImportRow = ImportRow(email: Option<string>, fullName: Option<string>, password: Option<string>,
                                 role: Option<string>, departmentId: Option<string>)

  /** A rejected row, numbered from 1. */
  datatype ImportError = ImportError(row: nat, email: Option<string>, error: string)

  const MissingFieldsError: string := "Thiếu thông tin bắt buộc (email, họ tên)"
  const EmailExistsError: string := "Email đã tồn tại trong hệ thống"
  const DefaultPassword: string := "123456"

  /** Some stored account has the email; a deletion marker has no email. */
  predicate EmailTaken(users: seq<MockUser>, email: string) {
    exists k :: 0 <= k < |users| && users[k].Account? && users[k].email == email
  }

  /** The id of the row at `index`: the batch's timestamp, a dash and the index. */
  function ImportId(stamp: string, index: nat): string {
    stamp + "-" + NatToString(index)
  }

  /** The account an accepted row becomes. */
  function Imported(row: ImportRow, stamp: string, index: nat): MockUser
    requires Truthy(row.email) && Truthy(row.fullName)
  {
    Account(ImportId(stamp, index), row.email.value, row.fullName.value,
            OrElse(row.password, Some(DefaultPassword)), OrElse(row.role, Some("EMPLOYEE")).value,
            OrElse(row.departmentId, None), None, None)
  }

  datatype ImportState = ImportState(users: seq<MockUser>, successCount: nat, errors: seq<ImportError>)

  /** The body of the `forEach` for the row at `index`. */
  function ImportStep(st: ImportState, row: ImportRow, stamp: string, index: nat): ImportState {
    if !Truthy(row.email) || !Truthy(row.fullName) then
      st.(errors := st.errors + [ImportError(index + 1, row.email, MissingFieldsError)])
    else if EmailTaken(st.users, row.email.value) then
      st.(errors := st.errors + [ImportError(index + 1, row.email, EmailExistsError)])
    else
      st.(users := st.users + [Imported(row, stamp, index)], successCount := st.successCount + 1)
  }

  /** The state after the first `n` rows. */
  function ImportPrefix(users: seq<MockUser>, rows: seq<ImportRow>, stamp: string, n: nat): ImportState
    requires n <= |rows|
  {
    if n == 0 then ImportState(users, 0, [])
    else ImportStep(ImportPrefix(users, rows, stamp, n - 1), rows[n - 1], stamp, n - 1)
  }

  /** The emails of the stored accounts are pairwise different. */
  predicate EmailsUnique(users: seq<MockUser>) {
    forall i, j :: 0 <= i < j < |users| && users[i].Account? && users[j].Account? ==> users[i].email != users[j].email
  }

  /**
   * Every row is counted once, as a success or as an error; accepted rows are
   * appended after the existing users; and no email is stored twice as a result.
   */
  lemma {:induction false} ImportAccounting(users: seq<MockUser>, rows: seq<ImportRow>, stamp: string, n: nat)
    requires n <= |rows|
    ensures var st := ImportPrefix(users, rows, stamp, n);
      && st.successCount + |st.errors| == n
      && |st.users| == |users| + st.successCount
      && st.users[..|users|] == users
    ensures EmailsUnique(users) ==> EmailsUnique(ImportPrefix(users, rows, stamp, n).users)
  {
    if n > 0 {
      ImportAccounting(users, rows, stamp, n - 1);
      var st := ImportPrefix(users, rows, stamp, n - 1);
      var row := rows[n - 1];
      if Truthy(row.email) && Truthy(row.fullName) && !EmailTaken(st.users, row.email.value) {
        assert (st.users + [Imported(row, stamp, n - 1)])[..|users|] == st.users[..|users|];
      }
    }
  }

  /** Different row indexes give different ids. */
  lemma ImportIdInjective(stamp: string, i: nat, j: nat)
    requires i != j
    ensures ImportId(stamp, i) != ImportId(stamp, j)
  {
    if ImportId(stamp, i) == ImportId(stamp, j) {
      var p := stamp + "-";
      assert NatToString(i) == ImportId(stamp, i)[|p|..];
      assert NatToString(j) == ImportId(stamp, j)[|p|..];
      ParseNatToString(i);
      ParseNatToString(j);
    }
  }

  /**
   * When no stored id starts with the batch's timestamp and a dash, the ids
   * stay pairwise different: each accepted row's id is the timestamp, a dash
   * and a row index not used before.
   */
  lemma {:induction false} ImportIdsFresh(users: seq<MockUser>, rows: seq<ImportRow>, stamp: string, n: nat)
    requires n <= |rows|
    requires Distinct(Ids(users))
    requires forall k :: 0 <= k < |users| ==> !StartsWith(users[k].id, stamp + "-")
    ensures var st := ImportPrefix(users, rows, stamp, n);
      Distinct(Ids(st.users)) && IdsFromRows(users, st.users, stamp, n)
  {
    if n > 0 {
      ImportIdsFresh(users, rows, stamp, n - 1);
      ImportAccounting(users, rows, stamp, n - 1);
      var st := ImportPrefix(users, rows, stamp, n - 1);
      ImportStepUsers(st, rows[n - 1], stamp, n - 1);
      ImportFreshStep(users, st.users, NewEntries(st.users, rows[n - 1], stamp, n - 1), stamp, n - 1);
    }
  }

  /** The entries one row adds: its account when it is accepted, nothing otherwise. */
  function NewEntries(users: seq<MockUser>, row: ImportRow, stamp: string, index: nat): seq<MockUser> {
    if Truthy(row.email) && Truthy(row.fullName) && !EmailTaken(users, row.email.value)
    then [Imported(row, stamp, index)] else []
  }

  lemma ImportStepUsers(st: ImportState, row: ImportRow, stamp: string, index: nat)
    ensures ImportStep(st, row, stamp, index).users == st.users + NewEntries(st.users, row, stamp, index)
    ensures var extra := NewEntries(st.users, row, stamp, index);
      |extra| <= 1 && forall k :: 0 <= k < |extra| ==> extra[k].id == ImportId(stamp, index)
  {
    assert st.users + [] == st.users;
  }

  /** Appending at most one entry with the id of row `m` keeps the ids distinct and drawn from the rows. */
  lemma ImportFreshStep(users: seq<MockUser>, prefix: seq<MockUser>, extra: seq<MockUser>, stamp: string, m: nat)
    requires |users| <= |prefix| && prefix[..|users|] == users
    requires forall k :: 0 <= k < |users| ==> !StartsWith(users[k].id, stamp + "-")
    requires Distinct(Ids(prefix)) && IdsFromRows(users, prefix, stamp, m)
    requires |extra| <= 1 && forall k :: 0 <= k < |extra| ==> extra[k].id == ImportId(stamp, m)
    ensures Distinct(Ids(prefix + extra)) && IdsFromRows(users, prefix + extra, stamp, m + 1)
  {
    IdsFromRowsStep(users, prefix, extra, stamp, m);
    if extra != [] {
      ImportIdUnused(users, prefix, stamp, m);
      assert Ids(prefix + extra) == Ids(prefix) + [ImportId(stamp, m)];
    } else {
      assert prefix + extra == prefix;
    }
  }

  /** `id` is the id of one of the first `m` rows of the batch stamped `stamp`. */
  ghost predicate RowIdBelow(id: string, stamp: string, m: nat) {
    exists i: nat :: i < m && id == ImportId(stamp, i)
  }

  /** Every entry after the stored ones carries the id of one of the first `m` rows. */
  ghost predicate IdsFromRows(users: seq<MockUser>, prefix: seq<MockUser>, stamp: string, m: nat) {
    forall k :: |users| <= k < |prefix| ==> RowIdBelow(prefix[k].id, stamp, m)
  }

  /** Entries carrying the id of row `m` extend a prefix made of the first `m` rows. */
  lemma IdsFromRowsStep(users: seq<MockUser>, prefix: seq<MockUser>, extra: seq<MockUser>, stamp: string, m: nat)
    requires |users| <= |prefix| && IdsFromRows(users, prefix, stamp, m)
    requires forall k :: 0 <= k < |extra| ==> extra[k].id == ImportId(stamp, m)
    ensures IdsFromRows(users, prefix + extra, stamp, m + 1)
  {
    var all := prefix + extra;
    forall k | |users| <= k < |all| ensures RowIdBelow(all[k].id, stamp, m + 1) {
      if k < |prefix| {
        assert RowIdBelow(prefix[k].id, stamp, m);
        var i: nat :| i < m && prefix[k].id == ImportId(stamp, i);
        assert all[k] == prefix[k];
      } else {
        assert all[k] == extra[k - |prefix|];
      }
    }
  }

  /**
   * The id of row `m` is not yet taken by an import prefix: the stored ids do
   * not start with the timestamp and a dash, and earlier rows used other indices.
   */
  lemma ImportIdUnused(users: seq<MockUser>, prefix: seq<MockUser>, stamp: string, m: nat)
    requires |users| <= |prefix| && prefix[..|users|] == users
    requires forall k :: 0 <= k < |users| ==> !StartsWith(users[k].id, stamp + "-")
    requires IdsFromRows(users, prefix, stamp, m)
    ensures forall k :: 0 <= k < |prefix| ==> prefix[k].id != ImportId(stamp, m)
  {
    var id := ImportId(stamp, m);
    forall k | 0 <= k < |prefix| ensures prefix[k].id != id {
      if k < |users| {
        assert prefix[k] == users[k];
        assert StartsWith(id, stamp + "-");
      } else {
        assert RowIdBelow(prefix[k].id, stamp, m);
        var i: nat :| i < m && prefix[k].id == ImportId(stamp, i);
        ImportIdInjective(stamp, i, m);
      }
    }
  }

  /** An accepted row without a password or a role gets '123456' and EMPLOYEE. */
  lemma ImportDefaults(row: ImportRow, stamp: string, index: nat)
    requires Truthy(row.email) && Truthy(row.fullName)
    ensures !Truthy(row.password) ==> Imported(row, stamp, index).password == Some(DefaultPassword)
    ensures !Truthy(row.role) ==> Imported(row, stamp, index).role == "EMPLOYEE"
    ensures Truthy(row.password) ==> Imported(row, stamp, index).password == row.password
  {
  }
  // ---------------------------------------------------------------- leave balance

  datatype BalanceEntry = BalanceEntry(leaveType: string, total: int, used: int, remaining: int)

  /** The requests that add to the usage of the type named `name`. */
  predicate UsesType(r: MockRequest, name: string) {
    r.status == Approved && r.leaveType.name == name
  }

  /**
   * The days used of the type named `name`: the parsed `totalDays` of the
   * approved requests of that type name; a request with an empty type name
   * is never counted.
   */
  /** The test picking the APPROVED requests of the leave type named `name`. */
  function UsingType(name: string): MockRequest -> bool {
    (r: MockRequest) => UsesType(r, name)
  }

  /** The request's day count read as an integer, 0 when it does not parse. */
  function ParsedDays(r: MockRequest): int {
    ParseIntOrZero(r.totalDays)
  }

  function UsedOf(requests: seq<MockRequest>, name: string): int {
    if name == "" then 0
    else SumOf(Filter(requests, UsingType(name)), ParsedDays)
  }

  predicate IsActive(t: MockLeaveType) {
    t.isActive
  }

  /** The active leave types, in order. */
  function ActiveTypes(types: seq<MockLeaveType>): (r: seq<MockLeaveType>)
    ensures forall k :: 0 <= k < |r| ==> r[k] in types && r[k].isActive
    ensures forall k :: 0 <= k < |types| && types[k].isActive ==> types[k] in r
  {
    FilterSubset(types, IsActive);
    Filter(types, IsActive)
  }

  /** The balance line of one leave type: its default days, the days used, and the difference. */
  function BalanceOf(requests: seq<MockRequest>, t: MockLeaveType): (b: BalanceEntry)
    ensures b.leaveType == t.name && b.total == t.defaultDays && b.used == UsedOf(requests, t.name)
    ensures b.remaining == b.total - b.used
  {
    var used := UsedOf(requests, t.name);
    BalanceEntry(t.name, t.defaultDays, used, t.defaultDays - used)
  }

  /** One balance line per active leave type, in order. */
  function LeaveBalance(requests: seq<MockRequest>, types: seq<MockLeaveType>): (r: seq<BalanceEntry>)
    ensures |r| == |ActiveTypes(types)|
    ensures forall k :: 0 <= k < |r| ==> r[k] == BalanceOf(requests, ActiveTypes(types)[k])
  {
    MapSeq(ActiveTypes(types), (t: MockLeaveType) => BalanceOf(requests, t))
  }

  /** One more request adds its parsed days to the usage of its own type name when approved, and to no other. */
  lemma {:induction false} UsedOfStep(requests: seq<MockRequest>, r: MockRequest, name: string)
    ensures UsedOf(requests + [r], name) ==
      UsedOf(requests, name) + (if name != "" && UsesType(r, name) then ParseIntOrZero(r.totalDays) else 0)
  {
    if name != "" {
      FilterSnocSums(requests, r, UsingType(name), ParsedDays);
      assert UsingType(name)(r) == UsesType(r, name);
    }
  }

  /** A request that is not APPROVED changes no balance. */
  lemma {:induction false} UnapprovedNotUsed(requests: seq<MockRequest>, r: MockRequest, types: seq<MockLeaveType>)
    requires r.status != Approved
    ensures LeaveBalance(requests + [r], types) == LeaveBalance(requests, types)
  {
    var after := LeaveBalance(requests + [r], types);
    var before := LeaveBalance(requests, types);
    forall k | 0 <= k < |after| ensures after[k] == before[k] {
      UsedOfStep(requests, r, ActiveTypes(types)[k].name);
    }
  }

  /** Without an APPROVED request nothing is used, so every remaining count is the full allowance. */
  lemma {:induction false} NothingApprovedNothingUsed(requests: seq<MockRequest>, types: seq<MockLeaveType>)
    requires forall k :: 0 <= k < |requests| ==> requests[k].status != Approved
    ensures forall k :: 0 <= k < |LeaveBalance(requests, types)| ==>
      LeaveBalance(requests, types)[k].used == 0 && LeaveBalance(requests, types)[k].remaining == LeaveBalance(requests, types)[k].total
  {
    if requests != [] {
      var n := |requests| - 1;
      NothingApprovedNothingUsed(requests[..n], types);
      assert requests == requests[..n] + [requests[n]];
      UnapprovedNotUsed(requests[..n], requests[n], types);
    }
  }

  // ---------------------------------------------------------------- statistics

  /** A JavaScript value reached by `+`: a number, or a string once a string was involved. */
  datatype JsValue = Num(n: int) | Str(s: string)

  function JsToString(v: JsValue): string {
    match v
    case Num(n) => IntToString(n)
    case Str(s) => s
  }

  /** JavaScript `a + b` on numbers and strings. */
  function JsAdd(a: JsValue, b: JsValue): JsValue {
    if a.Num? && b.Num? then Num(a.n + b.n) else Str(JsToString(a) + JsToString(b))
  }

  /** The request's day count as the form sent it: the string itself, or the number 0 for an empty string. */
  function DaysOrZero(r: MockRequest): JsValue {
    if r.totalDays == "" then Num(0) else Str(r.totalDays)
  }

  /** The day total as the source computes it: starting from the number 0, JavaScript's `+` adds each day count. */
  function SumDaysAsWritten(requests: seq<MockRequest>): JsValue {
    if requests == [] then Num(0)
    else JsAdd(SumDaysAsWritten(requests[..|requests| - 1]), DaysOrZero(requests[|requests| - 1]))
  }

  /** The day total the statistics evidently intend: the sum of the parsed day counts. */
  function SumDays(requests: seq<MockRequest>): int {
    SumOf(requests, ParsedDays)
  }

  /**
   * When every request's `totalDays` is the decimal rendering of a count, as
   * the request form sends it, the day total is the sum of those counts.
   */
  lemma {:induction false} SumDaysOfRenderedCounts(requests: seq<MockRequest>, days: seq<nat>)
    requires |days| == |requests|
    requires forall k :: 0 <= k < |requests| ==> requests[k].totalDays == NatToString(days[k])
    ensures SumDays(requests) == SumOf(days, (d: nat) => d as int)
  {
    if requests != [] {
      var n := |requests| - 1;
      SumDaysOfRenderedCounts(requests[..n], days[..n]);
      ParseIntOrZeroNatToString(days[n]);
    }
  }

  /**
   * As written, the reduce concatenates instead of adding: two requests for
   * 3 and 2 days total the string "032" instead of the number 5.
   */
  lemma SumDaysAsWrittenConcatenates(a: MockRequest, b: MockRequest)
    requires a.totalDays == "3" && b.totalDays == "2"
    ensures SumDaysAsWritten([a, b]) == Str("032")
    ensures SumDays([a, b]) == 5
  {
    assert [a, b][..1] == [a];
    assert [a][..0] == [];
    assert Digit(0) == '0' && Digit(2) == '2' && Digit(3) == '3';
    assert NatToString(0) == "0" && NatToString(3) == "3" && NatToString(2) == "2";
    assert SumDaysAsWritten([a]) == Str("03") by {
      assert SumDaysAsWritten([]) == Num(0);
      assert DaysOrZero(a) == Str("3");
      assert JsToString(Num(0)) == "0";
    }
    assert DaysOrZero(b) == Str("2");
    ParseIntOrZeroNatToString(3);
    ParseIntOrZeroNatToString(2);
    var f := ParsedDays;
    assert SumOf([a], f) == 3 by { assert SumOf([a][..0], f) == 0; }
    assert SumOf([a, b], f) == SumOf([a], f) + 2;
  }

  datatype Tally = Tally(name: string, count: nat, totalDays: int)

  datatype StatusCount = StatusCount(status: string, count: nat)

  datatype MockStatistics = MockStatistics(
    totalRequests: nat,
    pendingRequests: nat,
    approvedRequests: nat,
    rejectedRequests: nat,
    totalDays: int,
    byLeaveType: seq<Tally>,
    byDepartment: seq<Tally>,
    byStatus: seq<StatusCount>)

  function CountStatus(requests: seq<MockRequest>, s: RequestStatus): nat {
    Count(requests, (r: MockRequest) => r.status == s)
  }

  /** The requests whose owner's department has the given name. */
  predicate InDepartment(r: MockRequest, name: string) {
    r.user.department.Some? && r.user.department.value.name == name
  }

  function TypeTally(requests: seq<MockRequest>, t: MockLeaveType): Tally {
    var matching := Filter(requests, (r: MockRequest) => r.leaveType.name == t.name);
    Tally(t.name, |matching|, SumDays(matching))
  }

  /** The test picking the requests whose requester's department is named `name`. */
  function InDepartmentOf(name: string): MockRequest -> bool {
    (r: MockRequest) => InDepartment(r, name)
  }

  predicate NonEmptyTally(x: Tally) {
    x.count > 0
  }

  function DepartmentTally(requests: seq<MockRequest>, d: MockDepartment): Tally {
    var matching := Filter(requests, InDepartmentOf(d.name));
    Tally(d.name, |matching|, SumDays(matching))
  }

  /** The body of `GET /api/reports/statistics`, with the day totals summed as numbers. */
  function Statistics(requests: seq<MockRequest>, types: seq<MockLeaveType>, departments: seq<MockDepartment>): (s: MockStatistics)
    ensures s.totalRequests == |requests| && s.totalDays == SumDays(requests)
    ensures forall k :: 0 <= k < |s.byLeaveType| ==>
      s.byLeaveType[k].count > 0 && exists t :: t in types && s.byLeaveType[k] == TypeTally(requests, t)
    ensures forall t :: t in types && TypeTally(requests, t).count > 0 ==> TypeTally(requests, t) in s.byLeaveType
    ensures forall k :: 0 <= k < |s.byDepartment| ==>
      s.byDepartment[k].count > 0 && exists d :: d in departments && s.byDepartment[k] == DepartmentTally(requests, d)
    ensures forall d :: d in departments && DepartmentTally(requests, d).count > 0 ==> DepartmentTally(requests, d) in s.byDepartment
  {
    var byType := MapSeq(types, (t: MockLeaveType) => TypeTally(requests, t));
    var byDepartment := MapSeq(departments, (d: MockDepartment) => DepartmentTally(requests, d));
    FilterMapSeq(types, (t: MockLeaveType) => TypeTally(requests, t), NonEmptyTally);
    FilterMapSeq(departments, (d: MockDepartment) => DepartmentTally(requests, d), NonEmptyTally);
    var pending := CountStatus(requests, Pending);
    var approved := CountStatus(requests, Approved);
    var rejected := CountStatus(requests, Rejected);
    MockStatistics(
      |requests|, pending, approved, rejected, SumDays(requests),
      Filter(byType, NonEmptyTally),
      Filter(byDepartment, NonEmptyTally),
      Filter([StatusCount("PENDING", pending), StatusCount("APPROVED", approved), StatusCount("REJECTED", rejected)],
             (x: StatusCount) => x.count > 0))
  }

  /**
   * Without cancelled requests (the in-memory backend never produces one) the
   * pending, approved and rejected counts add up to the total.
   */
  lemma {:induction false} StatusCountsPartition(requests: seq<MockRequest>)
    requires forall k :: 0 <= k < |requests| ==> requests[k].status != Cancelled
    ensures CountStatus(requests, Pending) + CountStatus(requests, Approved) + CountStatus(requests, Rejected) == |requests|
  {
    if requests != [] {
      StatusCountsPartition(requests[1..]);
    }
  }

  /** Every tally the statistics list is non-empty. */
  lemma StatisticsDropEmpty(requests: seq<MockRequest>, types: seq<MockLeaveType>, departments: seq<MockDepartment>)
    ensures var st := Statistics(requests, types, departments);
      && (forall k :: 0 <= k < |st.byLeaveType| ==> st.byLeaveType[k].count > 0)
      && (forall k :: 0 <= k < |st.byDepartment| ==> st.byDepartment[k].count > 0)
      && (forall k :: 0 <= k < |st.byStatus| ==> st.byStatus[k].count > 0)
  {
  }

  /** When no request's owner carries a department, the per-department list is empty. */
  lemma {:induction false} NoDepartmentsNoTallies(requests: seq<MockRequest>, types: seq<MockLeaveType>, departments: seq<MockDepartment>)
    requires forall k :: 0 <= k < |requests| ==> requests[k].user.department.None?
    ensures Statistics(requests, types, departments).byDepartment == []
  {
    var tallies := MapSeq(departments, (d: MockDepartment) => DepartmentTally(requests, d));
    forall k | 0 <= k < |tallies| ensures tallies[k].count == 0 {
      FilterKeepsNone(requests, InDepartmentOf(departments[k].name));
    }
    FilterKeepsNone(tallies, NonEmptyTally);
  }
}
