/**
 * The in-memory backend: its token check and role gate, and the store whose
 * module-level lists the route handlers change in place.
 */
module MockServer {
  import opened Collections
  import opened Text
  import opened Database
  import opened MockData

  // ---------------------------------------------------------------- authentication and roles

  /** The identity the token check attaches to the request. */
  datatype AuthUser = AuthUser(id: string, email: string, fullName: string, role: string)

  /** Every accepted token stands for this administrator; the token itself is not decoded. */
  const TestUser: AuthUser := AuthUser("1", "test@test.com", "Test User", "ADMIN")

  /** The Authorization header with its first "Bearer " removed. */
  function BearerToken(header: Option<string>): Option<string> {
    match header
    case None => None
    case Some(h) => Some(ReplaceFirst(h, "Bearer ", ""))
  }

  /** The token check: a falsy token is refused, anything else authenticates as the test administrator. */
  function MockAuth(header: Option<string>): (r: Option<AuthUser>)
    ensures r.Some? ==> r.value == TestUser
  {
    if Truthy(BearerToken(header)) then Some(TestUser) else None
  }

  /** Removing the first "Bearer " leaves nothing exactly for the empty header and for "Bearer " itself. */
  lemma {:induction false} ReplaceBearerEmpty(h: string)
    ensures ReplaceFirst(h, "Bearer ", "") == "" <==> h == "" || h == "Bearer "
  {
    var pat := "Bearer ";
    if h == pat {
      assert OccursAt(h, pat, 0);
      assert IndexOfFrom(h, pat, 0) == Some(0);
    }
    match IndexOfFrom(h, pat, 0)
    case None =>
    case Some(i) =>
      var r := h[..i] + "" + h[i + |pat|..];
      assert |r| == |h| - |pat|;
      if |h| == |pat| {
        assert i == 0;
        assert h == h[i..i + |pat|];
      }
  }

  /**
   * A request is authenticated exactly when it carries an Authorization
   * header other than "" and "Bearer ".
   */
  lemma {:induction false} AuthenticatedIff(header: Option<string>)
    ensures MockAuth(header).Some? <==> header.Some? && header.value != "" && header.value != "Bearer "
  {
    if header.Some? {
      ReplaceBearerEmpty(header.value);
    }
  }

  /** The outcome of `checkRole(allowedRoles)`. */
  datatype Gate = Unauthorized | Forbidden(requiredRoles: seq<string>, yourRole: string) | Pass

  const ForbiddenMessage: string := "Forbidden - Bạn không có quyền truy cập chức năng này"

  function CheckRole(user: Option<AuthUser>, allowedRoles: seq<string>): (g: Gate)
    ensures g.Unauthorized? <==> user.None?
    ensures g.Pass? <==> user.Some? && user.value.role in allowedRoles
    ensures g.Forbidden? ==> g.requiredRoles == allowedRoles && g.yourRole == user.value.role
  {
    match user
    case None => Unauthorized
    case Some(u) => if u.role in allowedRoles then Pass else Forbidden(allowedRoles, u.role)
  }

  /** The two role lists the routes use. */
  const StaffRoles: seq<string> := ["HR", "ADMIN"]
  const ApproverRoles: seq<string> := ["MANAGER", "HR", "ADMIN"]

  /**
   * Behind the token check the role gate never forbids: every accepted token
   * is the administrator, who is in both role lists, so a gated route answers
   * 401 without a usable token and runs its handler otherwise.
   */
  lemma {:induction false} GateNeverForbids(header: Option<string>)
    ensures CheckRole(MockAuth(header), StaffRoles) == (if MockAuth(header).Some? then Pass else Unauthorized)
    ensures CheckRole(MockAuth(header), ApproverRoles) == (if MockAuth(header).Some? then Pass else Unauthorized)
  {
    assert StaffRoles[1] == "ADMIN";
    assert ApproverRoles[2] == "ADMIN";
  }

  // ---------------------------------------------------------------- users

  /** The fields a `PUT /api/users/:id` body may carry; a nullable field may be sent as `null`. */
  datatype UserPatch = UserPatch(
    id: Option<string>,
    email: Option<string>,
    fullName: Option<string>,
    password: Option<string>,
    role: Option<string>,
    departmentId: Option<Option<string>>,
    phoneNumber: Option<Option<string>>)

  /**
   * The merged entry: the body's fields over the stored ones, except that the
   * stored id and email are kept; the department follows the resulting
   * `departmentId` (cleared when it is falsy, looked up when it is set, kept
   * when the lookup fails). A deletion marker stays a deletion marker.
   */
  function MergeUser(u: MockUser, p: UserPatch, departments: seq<MockDepartment>): (r: MockUser)
    ensures r.id == u.id
    ensures u.Tombstone? ==> r == u
    ensures u.Account? ==> r.Account? && r.email == u.email
    ensures u.Account? ==> r.fullName == p.fullName.GetOr(u.fullName) && r.role == p.role.GetOr(u.role)
    ensures u.Account? ==> r.password == (if p.password.Some? then p.password else u.password)
    ensures u.Account? ==> r.departmentId == p.departmentId.GetOr(u.departmentId)
    ensures u.Account? && !Truthy(r.departmentId) ==> r.department.None?
    ensures u.Account? && Truthy(r.departmentId) ==>
      r.department == (match FindDepartment(departments, r.departmentId.value)
                       case Some(d) => Some(DeptRef(d.id, d.name))
                       case None => u.department)
  {
    match u
    case Tombstone(_) => u
    case Account(id, email, fullName, password, role, departmentId, department, phoneNumber) =>
      var dId := p.departmentId.GetOr(departmentId);
      var dept :=
        if !Truthy(dId) then None
        else match FindDepartment(departments, dId.value)
             case Some(d) => Some(DeptRef(d.id, d.name))
             case None => department;
      Account(id, email, p.fullName.GetOr(fullName), if p.password.Some? then p.password else password,
              p.role.GetOr(role), dId, dept, p.phoneNumber.GetOr(phoneNumber))
  }

  /** The demo account with the id. */
  function DemoCopy(id: string): (u: MockUser)
    requires IsDemoId(id)
    ensures u.id == id
  {
    DemoAccountsShape();
    FindById(DemoAccounts(), id).value
  }

  /** The dynamic list the update works on: a demo account with no stored entry is copied in first. */
  function WithDemoCopy(users: seq<MockUser>, id: string): (r: seq<MockUser>)
    ensures id in Ids(users) || IsDemoId(id) <==> id in Ids(r)
    ensures |users| <= |r| && r[..|users|] == users
    ensures forall x :: x != id ==> (x in Ids(r) <==> x in Ids(users))
  {
    if id !in Ids(users) && IsDemoId(id) then
      var r := users + [DemoCopy(id)];
      assert Ids(r) == Ids(users) + [id];
      r
    else users
  }

  /** The response's copy of an entry, without the password. */
  function WithoutPassword(u: MockUser): (r: MockUser)
    ensures r.id == u.id && (r.Account? <==> u.Account?)
    ensures r.Account? ==> r.password.None?
  {
    if u.Account? then u.(password := None) else u
  }

  /** The dynamic list without the entries that carry `id`. */
  function WithoutUser(users: seq<MockUser>, id: string): (r: seq<MockUser>)
    ensures forall u :: u in r ==> u.id != id && u in users
    ensures forall u :: u in users && u.id != id ==> u in r
  {
    FilterSubset(users, UserOtherThan(id));
    Filter(users, UserOtherThan(id))
  }

  /** The test keeping the entries whose id is not `id`. */
  function UserOtherThan(id: string): MockUser -> bool {
    (u: MockUser) => u.id != id
  }

  function UserIdOf(u: MockUser): string { u.id }

  /** Distinct ids are distinct keys. */
  lemma DistinctUserIds(users: seq<MockUser>)
    ensures Distinct(Ids(users)) <==> DistinctKeys(users, UserIdOf)
  {
  }

  /** What `DELETE /api/users/:id` leaves: the other entries, and a deletion marker for a demo id. */
  function UsersAfterDelete(users: seq<MockUser>, id: string): seq<MockUser> {
    WithoutUser(users, id) + (if IsDemoId(id) then [Tombstone(id)] else [])
  }

  /** `GET /api/users` lists a user with id `x`. */
  predicate Listed(users: seq<MockUser>, departments: seq<MockDepartment>, x: string) {
    exists k :: 0 <= k < |Directory(users, departments)| && Directory(users, departments)[k].id == x
  }

  /** Keeping the entries with an id other than `id` keeps the ids distinct. */
  lemma {:induction false} WithoutUserDistinct(users: seq<MockUser>, id: string)
    requires Distinct(Ids(users))
    ensures Distinct(Ids(WithoutUser(users, id)))
  {
    DistinctUserIds(users);
    FilterDistinctKeys(users, UserOtherThan(id), UserIdOf);
    DistinctUserIds(WithoutUser(users, id));
  }

  lemma IdOfMember(users: seq<MockUser>, u: MockUser)
    requires u in users
    ensures u.id in Ids(users)
  {
    var j :| 0 <= j < |users| && users[j] == u;
    assert Ids(users)[j] == u.id;
  }

  /** In a list without repeated ids, an entry is the one found for its id. */
  lemma FindMember(users: seq<MockUser>, u: MockUser)
    requires Distinct(Ids(users)) && u in users
    ensures FindById(users, u.id) == Some(u)
  {
    var j :| 0 <= j < |users| && users[j] == u;
    FindByIdUnique(users, j);
  }

  /** In a list without repeated ids, an entry whose id is not `id` is still the one found for its id. */
  lemma {:induction false} FindAfterRemoval(users: seq<MockUser>, id: string, x: string)
    requires Distinct(Ids(users)) && x != id
    ensures x in Ids(WithoutUser(users, id)) <==> x in Ids(users)
    ensures x in Ids(users) ==> FindById(WithoutUser(users, id), x) == FindById(users, x)
  {
    var r := WithoutUser(users, id);
    WithoutUserDistinct(users, id);
    if x in Ids(users) {
      var u := FindById(users, x).value;
      IdOfMember(r, u);
      FindMember(r, u);
    }
    if x in Ids(r) {
      IdOfMember(users, FindById(r, x).value);
    }
  }

  /** Whether the listing shows id `x`, read off the dynamic list alone. */
  predicate Shown(users: seq<MockUser>, x: string) {
    if x in Ids(users) then FindById(users, x).value.Account? else IsDemoId(x)
  }

  lemma ListedIffShown(users: seq<MockUser>, departments: seq<MockDepartment>, x: string)
    requires Distinct(Ids(users))
    ensures Listed(users, departments, x) <==> Shown(users, x)
  {
    DirectoryEntries(users, departments, x);
  }

  lemma {:induction false} DeleteShown(users: seq<MockUser>, id: string, x: string)
    requires Distinct(Ids(users))
    ensures Distinct(Ids(UsersAfterDelete(users, id)))
    ensures !Shown(UsersAfterDelete(users, id), id)
    ensures x != id ==> (Shown(UsersAfterDelete(users, id), x) <==> Shown(users, x))
  {
    var kept := WithoutUser(users, id);
    var after := UsersAfterDelete(users, id);
    var tail: seq<MockUser> := if IsDemoId(id) then [Tombstone(id)] else [];
    WithoutUserDistinct(users, id);
    IdsAppend(kept, tail);
    assert id !in Ids(kept);
    if IsDemoId(id) {
      FindMember(after, Tombstone(id));
    }
    if x != id {
      FindAfterRemoval(users, id, x);
      if x in Ids(kept) {
        var u := FindById(kept, x).value;
        FindMember(after, u);
        FindMember(kept, u);
      }
    }
  }

  /**
   * After a delete the user is no longer listed, whether it was a stored
   * entry, a demo account, or both, and every other user is listed exactly
   * when it was before.
   */
  lemma DeleteHidesUser(users: seq<MockUser>, departments: seq<MockDepartment>, id: string, x: string)
    requires Distinct(Ids(users))
    ensures Distinct(Ids(UsersAfterDelete(users, id)))
    ensures !Listed(UsersAfterDelete(users, id), departments, id)
    ensures x != id ==> (Listed(UsersAfterDelete(users, id), departments, x) <==> Listed(users, departments, x))
  {
    DeleteShown(users, id, x);
    ListedIffShown(UsersAfterDelete(users, id), departments, id);
    ListedIffShown(UsersAfterDelete(users, id), departments, x);
    ListedIffShown(users, departments, x);
  }

  /** The position `PUT /api/users/:id` writes to in the list it works on. */
  function UpdateIndex(users: seq<MockUser>, id: string): int {
    IndexOf(Ids(WithDemoCopy(users, id)), id)
  }

  /** What a successful `PUT /api/users/:id` leaves in the dynamic list. */
  function UsersAfterUpdate(users: seq<MockUser>, id: string, p: UserPatch, departments: seq<MockDepartment>): seq<MockUser>
    requires id in Ids(users) || IsDemoId(id)
  {
    var base := WithDemoCopy(users, id);
    var i := IndexOf(Ids(base), id);
    base[i := MergeUser(base[i], p, departments)]
  }

  /** The entry a successful update stores for `id`. */
  function MergedEntry(users: seq<MockUser>, id: string, p: UserPatch, departments: seq<MockDepartment>): MockUser
    requires id in Ids(users) || IsDemoId(id)
  {
    MergeUser(FindById(WithDemoCopy(users, id), id).value, p, departments)
  }

  lemma {:induction false} DemoCopyDistinct(users: seq<MockUser>, id: string)
    requires Distinct(Ids(users))
    ensures Distinct(Ids(WithDemoCopy(users, id)))
  {
    if id !in Ids(users) && IsDemoId(id) {
      assert Ids(WithDemoCopy(users, id)) == Ids(users) + [id];
      DistinctSnoc(Ids(users), id);
    }
  }

  lemma {:induction false} UpdateShown(users: seq<MockUser>, id: string, p: UserPatch, departments: seq<MockDepartment>, x: string)
    requires Distinct(Ids(users))
    requires id in Ids(users) || IsDemoId(id)
    ensures var after := UsersAfterUpdate(users, id, p, departments);
      && Distinct(Ids(after))
      && FindById(after, id) == Some(MergedEntry(users, id, p, departments))
      && (x != id ==> (Shown(after, x) <==> Shown(users, x)))
  {
    var base := WithDemoCopy(users, id);
    var i := IndexOf(Ids(base), id);
    var after := UsersAfterUpdate(users, id, p, departments);
    DemoCopyDistinct(users, id);
    assert Ids(after) == Ids(base);
    FindByIdUnique(after, i);
    if x != id {
      UpdateKeepsOthers(users, id, p, departments, x);
    }
  }

  /** An update leaves the entry found for every other id as it was. */
  lemma UpdateKeepsOthers(users: seq<MockUser>, id: string, p: UserPatch, departments: seq<MockDepartment>, x: string)
    requires Distinct(Ids(users))
    requires id in Ids(users) || IsDemoId(id)
    requires x != id
    ensures Shown(UsersAfterUpdate(users, id, p, departments), x) <==> Shown(users, x)
  {
    var base := WithDemoCopy(users, id);
    var after := UsersAfterUpdate(users, id, p, departments);
    DemoCopyDistinct(users, id);
    assert Ids(after) == Ids(base);
    if x in Ids(users) {
      var j :| 0 <= j < |users| && Ids(users)[j] == x;
      assert base[j] == users[j] && after[j] == users[j];
      FindByIdUnique(users, j);
      FindByIdUnique(after, j);
    }
  }

  /**
   * After an update the ids stay distinct; the updated user is listed exactly
   * when its entry is an account, and is listed as the merged entry; every
   * other user is listed exactly when it was before.
   */
  lemma UpdateShowsMerged(users: seq<MockUser>, departments: seq<MockDepartment>, id: string, p: UserPatch, x: string)
    requires Distinct(Ids(users))
    requires id in Ids(users) || IsDemoId(id)
    ensures var after := UsersAfterUpdate(users, id, p, departments);
      var merged := MergedEntry(users, id, p, departments);
      && Distinct(Ids(after))
      && (Listed(after, departments, id) <==> merged.Account?)
      && (forall k :: 0 <= k < |Directory(after, departments)| && Directory(after, departments)[k].id == id ==>
            Directory(after, departments)[k] == Project(merged, departments))
      && (x != id ==> (Listed(after, departments, x) <==> Listed(users, departments, x)))
  {
    var after := UsersAfterUpdate(users, id, p, departments);
    UpdateShown(users, id, p, departments, x);
    DirectoryEntries(after, departments, id);
    ListedIffShown(after, departments, x);
    ListedIffShown(users, departments, x);
  }
  // ---------------------------------------------------------------- leave requests

  /** The requester and leave type every created request is stamped with. */
  const TestRequester: Requester := Requester("1", "Test User", "test@test.com", None)
  const AnnualRef: LeaveTypeRef := LeaveTypeRef("1", "Phép năm", "ANNUAL")

  /** The form fields of `POST /api/leave-requests`. */
  datatype RequestForm = RequestForm(leaveTypeId: string, startDate: string, endDate: string, reason: string, totalDays: string)

  /** A file the upload stored. */
  datatype UploadedFile = UploadedFile(filename: string, originalName: string, size: nat, mimetype: string)

  function AttachmentOf(f: UploadedFile): (a: Attachment)
    ensures a.path == "/uploads/" + f.filename && a.filename == f.filename && a.size == f.size
  {
    Attachment(f.filename, f.originalName, "/uploads/" + f.filename, f.size, f.mimetype)
  }

  /** The request `POST /api/leave-requests` stores. */
  function NewRequest(id: string, form: RequestForm, files: seq<UploadedFile>): (r: MockRequest)
    ensures r.id == id && r.status == Pending && r.approvals == []
    ensures r.user == TestRequester && r.leaveType == AnnualRef
    ensures r.totalDays == form.totalDays && r.leaveTypeId == form.leaveTypeId
    ensures |r.attachments| == |files| && forall k :: 0 <= k < |files| ==> r.attachments[k] == AttachmentOf(files[k])
  {
    MockRequest(id, form.leaveTypeId, form.startDate, form.endDate, form.reason, form.totalDays,
                MapSeq(files, AttachmentOf), Pending, [], TestRequester, AnnualRef)
  }

  function RequestIds(rs: seq<MockRequest>): (r: seq<string>)
    ensures |r| == |rs| && forall k :: 0 <= k < |rs| ==> r[k] == rs[k].id
  {
    seq(|rs|, k requires 0 <= k < |rs| => rs[k].id)
  }

  /** The shape every stored request keeps: the fixed requester and type, and never CANCELLED. */
  predicate WellFormedRequest(r: MockRequest) {
    r.user == TestRequester && r.leaveType == AnnualRef && r.status != Cancelled
  }

  /** The approval record a decision writes; a falsy comment is stored as ''. */
  function Decided(r: MockRequest, status: RequestStatus, comments: Option<string>, approvalId: string, caller: AuthUser): (d: MockRequest)
    ensures d.status == status && |d.approvals| == 1
    ensures d.approvals[0].status == status && d.approvals[0].comments == (if Truthy(comments) then comments.value else "")
    ensures d.approvals[0].approver == Requester(caller.id, caller.fullName, caller.email, None)
    ensures d == r.(status := status, approvals := d.approvals)
  {
    r.(status := status,
       approvals := [MockApproval(approvalId, status, OrElse(comments, Some("")).value,
                                  Requester(caller.id, caller.fullName, caller.email, None))])
  }

  /** The name a status has in a query string. */
  function StatusName(s: RequestStatus): string {
    match s
    case Pending => "PENDING"
    case Approved => "APPROVED"
    case Rejected => "REJECTED"
    case Cancelled => "CANCELLED"
  }

  /** The requests `GET /api/leave-requests?status=` returns. */
  function WithStatus(rs: seq<MockRequest>, status: Option<string>): (r: seq<MockRequest>)
    ensures !Truthy(status) || status.value == "ALL" ==> r == rs
    ensures Truthy(status) && status.value != "ALL" ==>
      (forall k :: 0 <= k < |r| ==> r[k] in rs && StatusName(r[k].status) == status.value) &&
      (forall k :: 0 <= k < |rs| && StatusName(rs[k].status) == status.value ==> rs[k] in r)
  {
    if Truthy(status) && status.value != "ALL" then
      FilterSubset(rs, (r: MockRequest) => StatusName(r.status) == status.value);
      Filter(rs, (r: MockRequest) => StatusName(r.status) == status.value)
    else rs
  }

  /** The requests other than those with the id. */
  function WithoutRequest(rs: seq<MockRequest>, id: string): (r: seq<MockRequest>)
    ensures forall k :: 0 <= k < |r| ==> r[k].id != id && r[k] in rs
    ensures forall k :: 0 <= k < |rs| && rs[k].id != id ==> rs[k] in r
  {
    FilterSubset(rs, RequestOtherThan(id));
    Filter(rs, RequestOtherThan(id))
  }

  /** The test keeping the requests whose id is not `id`. */
  function RequestOtherThan(id: string): MockRequest -> bool {
    (r: MockRequest) => r.id != id
  }

  function RequestIdOf(r: MockRequest): string { r.id }

  lemma {:induction false} WithoutRequestKeeps(rs: seq<MockRequest>, id: string)
    requires Distinct(RequestIds(rs)) && forall k :: 0 <= k < |rs| ==> WellFormedRequest(rs[k])
    ensures var r := WithoutRequest(rs, id);
      Distinct(RequestIds(r)) && forall k :: 0 <= k < |r| ==> WellFormedRequest(r[k])
  {
    assert DistinctKeys(rs, RequestIdOf);
    FilterDistinctKeys(rs, RequestOtherThan(id), RequestIdOf);
    var r := WithoutRequest(rs, id);
    assert Distinct(RequestIds(r)) by {
      forall i, j | 0 <= i < j < |r| ensures RequestIds(r)[i] != RequestIds(r)[j] {
        assert RequestIdOf(r[i]) != RequestIdOf(r[j]);
      }
    }
  }

  // ---------------------------------------------------------------- change password

  /** `PUT /api/users/change-password`: both passwords required, the new one at least six characters. */
  function ChangePassword(currentPassword: Option<string>, newPassword: Option<string>): (r: Reply<string>)
    ensures r.Success? <==> Truthy(currentPassword) && Truthy(newPassword) && |newPassword.value| >= 6
    ensures !Truthy(currentPassword) || !Truthy(newPassword) ==> r == Failure(400, "Thiếu thông tin mật khẩu")
    ensures Truthy(currentPassword) && Truthy(newPassword) && |newPassword.value| < 6 ==>
      r == Failure(400, "Mật khẩu mới phải có ít nhất 6 ký tự")
  {
    if !Truthy(currentPassword) || !Truthy(newPassword) then Failure(400, "Thiếu thông tin mật khẩu")
    else if |newPassword.value| < 6 then Failure(400, "Mật khẩu mới phải có ít nhất 6 ký tự")
    else Success(200, "Password changed successfully")
  }

  // ---------------------------------------------------------------- leave types, departments, holidays

  datatype LeaveTypePatch = LeaveTypePatch(id: Option<string>, code: Option<string>, name: Option<string>,
                                           description: Option<string>, defaultDays: Option<int>, isActive: Option<bool>)

  /** The stored object spread with the body: each field the body carries replaces the stored one. */
  function PatchLeaveType(t: MockLeaveType, p: LeaveTypePatch): (r: MockLeaveType)
    ensures p == LeaveTypePatch(None, None, None, None, None, None) ==> r == t
    ensures r.name == p.name.GetOr(t.name) && r.isActive == p.isActive.GetOr(t.isActive)
    ensures r.id == p.id.GetOr(t.id) && r.defaultDays == p.defaultDays.GetOr(t.defaultDays)
    ensures r.code == p.code.GetOr(t.code) && r.description == p.description.GetOr(t.description)
  {
    MockLeaveType(p.id.GetOr(t.id), p.code.GetOr(t.code), p.name.GetOr(t.name), p.description.GetOr(t.description),
                  p.defaultDays.GetOr(t.defaultDays), p.isActive.GetOr(t.isActive))
  }

  /** Merging the same body twice is merging it once. */
  lemma PatchLeaveTypeIdempotent(t: MockLeaveType, p: LeaveTypePatch)
    ensures PatchLeaveType(PatchLeaveType(t, p), p) == PatchLeaveType(t, p)
  {
  }

  datatype DepartmentPatch = DepartmentPatch(id: Option<string>, name: Option<string>, code: Option<string>,
                                             managerId: Option<Option<string>>)

  function PatchDepartment(d: MockDepartment, p: DepartmentPatch): (r: MockDepartment)
    ensures p == DepartmentPatch(None, None, None, None) ==> r == d
    ensures r.id == p.id.GetOr(d.id) && r.name == p.name.GetOr(d.name) && r.code == p.code.GetOr(d.code)
    ensures r.managerId == p.managerId.GetOr(d.managerId)
  {
    MockDepartment(p.id.GetOr(d.id), p.name.GetOr(d.name), p.code.GetOr(d.code), p.managerId.GetOr(d.managerId))
  }

  datatype HolidayPatch = HolidayPatch(id: Option<string>, name: Option<string>, date: Option<string>, description: Option<string>)

  function PatchHoliday(h: Holiday, p: HolidayPatch): (r: Holiday)
    ensures p == HolidayPatch(None, None, None, None) ==> r == h
    ensures r.id == p.id.GetOr(h.id) && r.name == p.name.GetOr(h.name) && r.date == p.date.GetOr(h.date)
    ensures r.description == p.description.GetOr(h.description)
  {
    Holiday(p.id.GetOr(h.id), p.name.GetOr(h.name), p.date.GetOr(h.date), p.description.GetOr(h.description))
  }

  function TypeIds(ts: seq<MockLeaveType>): (r: seq<string>)
    ensures |r| == |ts| && forall k :: 0 <= k < |ts| ==> r[k] == ts[k].id
  {
    seq(|ts|, k requires 0 <= k < |ts| => ts[k].id)
  }

  function DepartmentIds(ds: seq<MockDepartment>): (r: seq<string>)
    ensures |r| == |ds| && forall k :: 0 <= k < |ds| ==> r[k] == ds[k].id
  {
    seq(|ds|, k requires 0 <= k < |ds| => ds[k].id)
  }

  function HolidayIds(hs: seq<Holiday>): (r: seq<string>)
    ensures |r| == |hs| && forall k :: 0 <= k < |hs| ==> r[k] == hs[k].id
  {
    seq(|hs|, k requires 0 <= k < |hs| => hs[k].id)
  }

  function WithoutType(ts: seq<MockLeaveType>, id: string): (r: seq<MockLeaveType>)
    ensures id !in TypeIds(r)
    ensures forall k :: 0 <= k < |r| ==> r[k] in ts
    ensures forall k :: 0 <= k < |ts| && ts[k].id != id ==> ts[k] in r
  {
    FilterSubset(ts, (t: MockLeaveType) => t.id != id);
    Filter(ts, (t: MockLeaveType) => t.id != id)
  }

  function WithoutDepartment(ds: seq<MockDepartment>, id: string): (r: seq<MockDepartment>)
    ensures id !in DepartmentIds(r)
    ensures forall k :: 0 <= k < |r| ==> r[k] in ds
    ensures forall k :: 0 <= k < |ds| && ds[k].id != id ==> ds[k] in r
  {
    FilterSubset(ds, (d: MockDepartment) => d.id != id);
    Filter(ds, (d: MockDepartment) => d.id != id)
  }

  function WithoutHoliday(hs: seq<Holiday>, id: string): (r: seq<Holiday>)
    ensures id !in HolidayIds(r)
    ensures forall k :: 0 <= k < |r| ==> r[k] in hs
    ensures forall k :: 0 <= k < |hs| && hs[k].id != id ==> hs[k] in r
  {
    FilterSubset(hs, (h: Holiday) => h.id != id);
    Filter(hs, (h: Holiday) => h.id != id)
  }

  // ---------------------------------------------------------------- the store

  /** One iteration of the leave-balance loop keeps each tallied name's total equal to its specification. */
  lemma {:induction false} AccumulateStep(prefix: seq<MockRequest>, r: MockRequest, used: map<string, int>)
    requires forall n :: n in used ==> used[n] == UsedOf(prefix, n)
    ensures forall n :: n in used ==>
      UsedOf(prefix + [r], n) == used[n] + (if r.status == Approved && n != "" && r.leaveType.name == n then ParseIntOrZero(r.totalDays) else 0)
  {
    forall n | n in used
      ensures UsedOf(prefix + [r], n) == used[n] + (if r.status == Approved && n != "" && r.leaveType.name == n then ParseIntOrZero(r.totalDays) else 0)
    {
      UsedOfStep(prefix, r, n);
    }
  }

  /** The body of `POST /api/users/bulk`. */
  datatype ImportSummary = ImportSummary(message: string, successCount: nat, totalCount: nat, errors: Option<seq<ImportError>>)

  function ImportMessage(successCount: nat, totalCount: nat): string {
    "Import thành công " + NatToString(successCount) + "/" + NatToString(totalCount) + " nhân viên"
  }

  /** The module-level lists of the in-memory backend. */
  class MockStore {
    var users: seq<MockUser>
    var leaveRequests: seq<MockRequest>
    var departments: seq<MockDepartment>
    var leaveTypes: seq<MockLeaveType>
    var holidays: seq<Holiday>

    /**
     * No id is stored twice in the dynamic user list or among the requests,
     * and every request carries the fixed requester and type and is never
     * CANCELLED.
     */
    ghost predicate Valid()
      reads this
    {
      && Distinct(Ids(users))
      && Distinct(RequestIds(leaveRequests))
      && forall k :: 0 <= k < |leaveRequests| ==> WellFormedRequest(leaveRequests[k])
    }

    /** The lists as the server starts with them. */
    constructor ()
      ensures Valid()
      ensures users == [] && leaveRequests == []
      ensures departments == SeedDepartments() && leaveTypes == SeedLeaveTypes() && holidays == SeedHolidays()
    {
      users := [];
      leaveRequests := [];
      departments := SeedDepartments();
      leaveTypes := SeedLeaveTypes();
      holidays := SeedHolidays();
    }

    // ------------------------------------------------------------ users

    /**
     * `GET /api/users`: the dynamic entries, then the demo accounts no entry
     * overrides, without deletion markers and passwords; a user is listed
     * exactly as the directory rule says.
     */
    method ListUsers() returns (listed: seq<ListedUser>)
      requires Valid()
      ensures listed == Directory(users, departments)
      ensures forall x :: Listed(users, departments, x) <==> Shown(users, x)
    {
      var entries: seq<MockUser> := [];
      var i := 0;
      while i < |users|
        invariant 0 <= i <= |users|
        invariant entries == SetAll([], users[..i])
      {
        assert users[..i + 1][..i] == users[..i];
        entries := MapSet(entries, users[i]);
        i := i + 1;
      }
      assert users[..|users|] == users;
      var demo := DemoAccounts();
      var stored := entries;
      var j := 0;
      while j < |demo|
        invariant 0 <= j <= |demo|
        invariant entries == SetAbsent(stored, demo[..j])
      {
        assert demo[..j + 1][..j] == demo[..j];
        if demo[j].id !in Ids(entries) {
          entries := entries + [demo[j]];
        }
        j := j + 1;
      }
      assert demo[..|demo|] == demo;
      listed := Listing(entries, departments);
      forall x ensures Listed(users, departments, x) <==> Shown(users, x) {
        ListedIffShown(users, departments, x);
      }
    }

    /**
     * `PUT /api/users/:id`: 404 for an id neither stored nor a demo account;
     * otherwise the entry (a demo account copied in first) is merged with the
     * body, keeping its id and email.
     */
    method UpdateUser(id: string, patch: UserPatch) returns (r: Reply<MockUser>)
      modifies this
      requires Valid()
      ensures Valid()
      ensures leaveRequests == old(leaveRequests) && departments == old(departments)
      ensures leaveTypes == old(leaveTypes) && holidays == old(holidays)
      ensures r.Failure? <==> id !in Ids(old(users)) && !IsDemoId(id)
      ensures r.Failure? ==> r == Failure(404, "User not found") && users == old(users)
      ensures r.Success? ==>
        && users == UsersAfterUpdate(old(users), id, patch, departments)
        && r.httpStatus == 200
        && r.body == WithoutPassword(MergedEntry(old(users), id, patch, departments))
    {
      var index := WorkingIndex(id);
      if index >= 0 {
        FindByIdUnique(users, index);
        var updated := MergeUser(users[index], patch, departments);
        users := users[index := updated];
        UpdateShown(old(users), id, patch, departments, id);
        r := Success(200, WithoutPassword(updated));
      } else {
        r := Failure(404, "User not found");
      }
    }

    /**
     * The position the update writes to: the stored entry's, or that of the
     * demo account copied in at the end when the id has no stored entry; -1
     * when the id is neither.
     */
    method WorkingIndex(id: string) returns (index: int)
      modifies this
      requires Valid()
      ensures Valid() && users == WithDemoCopy(old(users), id)
      ensures leaveRequests == old(leaveRequests) && departments == old(departments)
      ensures leaveTypes == old(leaveTypes) && holidays == old(holidays)
      ensures index >= 0 <==> id in Ids(old(users)) || IsDemoId(id)
      ensures index >= 0 ==> index == IndexOf(Ids(users), id)
    {
      DemoCopyDistinct(users, id);
      index := IndexOf(Ids(users), id);
      if index == -1 {
        DemoAccountsShape();
        var demoUser := FindById(DemoAccounts(), id);
        if demoUser.Some? {
          assert demoUser.value == DemoCopy(id);
          users := users + [demoUser.value];
          index := |users| - 1;
          IndexOfDistinct(Ids(users), index);
        }
      }
    }

    /**
     * `DELETE /api/users/:id`: every entry with the id is removed, and a demo
     * id gets a deletion marker.
     */
    method DeleteUser(id: string) returns (message: string)
      modifies this
      requires Valid()
      ensures Valid()
      ensures users == UsersAfterDelete(old(users), id) && message == "User deleted"
      ensures leaveRequests == old(leaveRequests) && departments == old(departments)
      ensures leaveTypes == old(leaveTypes) && holidays == old(holidays)
    {
      DeleteShown(users, id, id);
      var kept := WithoutUser(users, id);
      if IsDemoId(id) {
        users := kept + [Tombstone(id)];
      } else {
        WithoutUserDistinct(users, id);
        users := kept;
      }
      message := "User deleted";
    }

    /**
     * `POST /api/users/bulk`: 400 for a missing or empty list; otherwise each
     * row is accepted or rejected in turn, as `ImportPrefix` describes.
     */
    method BulkImport(rows: Option<seq<ImportRow>>, stamp: string) returns (r: Reply<ImportSummary>)
      modifies this
      requires Valid()
      requires forall k :: 0 <= k < |users| ==> !StartsWith(users[k].id, stamp + "-")
      ensures Valid()
      ensures leaveRequests == old(leaveRequests) && departments == old(departments)
      ensures leaveTypes == old(leaveTypes) && holidays == old(holidays)
      ensures rows.None? || rows.value == [] ==> r == Failure(400, "Không có dữ liệu để import") && users == old(users)
      ensures rows.Some? && rows.value != [] ==>
        var st := ImportPrefix(old(users), rows.value, stamp, |rows.value|);
        && users == st.users
        && r.Success?
        && r.body.successCount == st.successCount && r.body.totalCount == |rows.value|
        && r.body.successCount + |st.errors| == r.body.totalCount
        && r.body.message == ImportMessage(st.successCount, |rows.value|)
        && r.body.errors == (if st.errors == [] then None else Some(st.errors))
    {
      if rows.None? || rows.value == [] {
        return Failure(400, "Không có dữ liệu để import");
      }
      var input := rows.value;
      var errors: seq<ImportError> := [];
      var successCount: nat := 0;
      var i := 0;
      while i < |input|
        invariant 0 <= i <= |input|
        invariant ImportState(users, successCount, errors) == ImportPrefix(old(users), input, stamp, i)
        invariant leaveRequests == old(leaveRequests) && departments == old(departments)
        invariant leaveTypes == old(leaveTypes) && holidays == old(holidays)
      {
        var row := input[i];
        if !Truthy(row.email) || !Truthy(row.fullName) {
          errors := errors + [ImportError(i + 1, row.email, MissingFieldsError)];
        } else if EmailTaken(users, row.email.value) {
          errors := errors + [ImportError(i + 1, row.email, EmailExistsError)];
        } else {
          users := users + [Imported(row, stamp, i)];
          successCount := successCount + 1;
        }
        i := i + 1;
      }
      ImportAccounting(old(users), input, stamp, |input|);
      ImportIdsFresh(old(users), input, stamp, |input|);
      r := Success(200, ImportSummary(ImportMessage(successCount, |input|), successCount, |input|,
                                      if errors == [] then None else Some(errors)));
    }

    // ------------------------------------------------------------ leave requests

    /** `POST /api/leave-requests`: the new request is appended, PENDING, with the uploaded files. */
    method CreateLeaveRequest(id: string, form: RequestForm, files: seq<UploadedFile>) returns (r: Reply<MockRequest>)
      modifies this
      requires Valid()
      requires id !in RequestIds(leaveRequests)
      ensures Valid()
      ensures leaveRequests == old(leaveRequests) + [NewRequest(id, form, files)]
      ensures r == Success(201, NewRequest(id, form, files))
      ensures users == old(users) && departments == old(departments)
      ensures leaveTypes == old(leaveTypes) && holidays == old(holidays)
    {
      var request := NewRequest(id, form, files);
      assert RequestIds(leaveRequests + [request]) == RequestIds(leaveRequests) + [id];
      leaveRequests := leaveRequests + [request];
      r := Success(201, request);
    }

    /** `GET /api/leave-requests/:id`. */
    function GetLeaveRequest(id: string): (r: Reply<MockRequest>)
      reads this
      ensures r.Success? <==> id in RequestIds(leaveRequests)
      ensures r.Success? ==> r.body in leaveRequests && r.body.id == id
      ensures r.Failure? ==> r == Failure(404, "Leave request not found")
    {
      var index := IndexOf(RequestIds(leaveRequests), id);
      if index < 0 then Failure(404, "Leave request not found") else Success(200, leaveRequests[index])
    }

    /** `DELETE /api/leave-requests/:id`: every request with the id is removed. */
    method DeleteLeaveRequest(id: string) returns (message: string)
      modifies this
      requires Valid()
      ensures Valid()
      ensures leaveRequests == WithoutRequest(old(leaveRequests), id) && message == "Leave request cancelled"
      ensures GetLeaveRequest(id) == Failure(404, "Leave request not found")
      ensures users == old(users) && departments == old(departments)
      ensures leaveTypes == old(leaveTypes) && holidays == old(holidays)
    {
      WithoutRequestKeeps(leaveRequests, id);
      leaveRequests := WithoutRequest(leaveRequests, id);
      message := "Leave request cancelled";
    }

    /**
     * The approve and reject handlers: whatever the request's current status,
     * it takes `status` and its approvals become the single new record; 404
     * for an unknown id.
     */
    method Decide(id: string, status: RequestStatus, comments: Option<string>, approvalId: string, caller: AuthUser)
      returns (r: Reply<MockRequest>)
      modifies this
      requires Valid()
      requires status == Approved || status == Rejected
      ensures Valid()
      ensures r.Failure? <==> id !in RequestIds(old(leaveRequests))
      ensures r.Failure? ==> r == Failure(404, "Leave request not found") && leaveRequests == old(leaveRequests)
      ensures r.Success? ==>
        var index := IndexOf(RequestIds(old(leaveRequests)), id);
        && leaveRequests == old(leaveRequests)[index := Decided(old(leaveRequests)[index], status, comments, approvalId, caller)]
        && r == Success(200, leaveRequests[index])
      ensures users == old(users) && departments == old(departments)
      ensures leaveTypes == old(leaveTypes) && holidays == old(holidays)
    {
      var index := IndexOf(RequestIds(leaveRequests), id);
      if index >= 0 {
        var decided := Decided(leaveRequests[index], status, comments, approvalId, caller);
        assert RequestIds(leaveRequests[index := decided]) == RequestIds(leaveRequests);
        leaveRequests := leaveRequests[index := decided];
        r := Success(200, decided);
      } else {
        r := Failure(404, "Leave request not found");
      }
    }

    /** `POST /api/leave-requests/:id/approve`. */
    method ApproveLeaveRequest(id: string, comments: Option<string>, approvalId: string, caller: AuthUser)
      returns (r: Reply<MockRequest>)
      modifies this
      requires Valid()
      ensures Valid()
      ensures r.Failure? <==> id !in RequestIds(old(leaveRequests))
      ensures r.Failure? ==> r == Failure(404, "Leave request not found") && leaveRequests == old(leaveRequests)
      ensures r.Success? ==>
        var index := IndexOf(RequestIds(old(leaveRequests)), id);
        && leaveRequests == old(leaveRequests)[index := Decided(old(leaveRequests)[index], Approved, comments, approvalId, caller)]
        && r == Success(200, leaveRequests[index])
      ensures users == old(users) && departments == old(departments)
      ensures leaveTypes == old(leaveTypes) && holidays == old(holidays)
    {
      r := Decide(id, Approved, comments, approvalId, caller);
    }

    /** `POST /api/leave-requests/:id/reject`. */
    method RejectLeaveRequest(id: string, comments: Option<string>, approvalId: string, caller: AuthUser)
      returns (r: Reply<MockRequest>)
      modifies this
      requires Valid()
      ensures Valid()
      ensures r.Failure? <==> id !in RequestIds(old(leaveRequests))
      ensures r.Failure? ==> r == Failure(404, "Leave request not found") && leaveRequests == old(leaveRequests)
      ensures r.Success? ==>
        var index := IndexOf(RequestIds(old(leaveRequests)), id);
        && leaveRequests == old(leaveRequests)[index := Decided(old(leaveRequests)[index], Rejected, comments, approvalId, caller)]
        && r == Success(200, leaveRequests[index])
      ensures users == old(users) && departments == old(departments)
      ensures leaveTypes == old(leaveTypes) && holidays == old(holidays)
    {
      r := Decide(id, Rejected, comments, approvalId, caller);
    }

    /** `GET /api/leave-requests?status=`: the requests with that status, or all of them for a falsy status or 'ALL'. */
    function ListLeaveRequests(status: Option<string>): (r: seq<MockRequest>)
      reads this
      ensures r == WithStatus(leaveRequests, status)
      ensures !Truthy(status) || status.value == "ALL" ==> r == leaveRequests
      ensures Truthy(status) && status.value != "ALL" ==>
        (forall k :: 0 <= k < |r| ==> r[k] in leaveRequests && StatusName(r[k].status) == status.value) &&
        (forall k :: 0 <= k < |leaveRequests| && StatusName(leaveRequests[k].status) == status.value ==> leaveRequests[k] in r)
      ensures |r| <= |leaveRequests|
    {
      WithStatus(leaveRequests, status)
    }

    // ------------------------------------------------------------ balance and statistics

    /**
     * `GET /api/users/leave-balance`: the used days are accumulated per active
     * type name over the approved requests, then one line is built per active
     * type.
     */
    method GetLeaveBalance() returns (balance: seq<BalanceEntry>)
      ensures balance == LeaveBalance(leaveRequests, leaveTypes)
    {
      var active := ActiveTypes(leaveTypes);
      var used := UsedDays(active);
      balance := BalanceLines(active, used);
      assert |balance| == |LeaveBalance(leaveRequests, leaveTypes)|;
    }

    /** One line per active type, its used days read from the table. */
    method BalanceLines(active: seq<MockLeaveType>, used: map<string, int>) returns (balance: seq<BalanceEntry>)
      requires forall m :: 0 <= m < |active| ==> active[m].name in used
      requires forall n :: n in used ==> used[n] == UsedOf(leaveRequests, n)
      ensures |balance| == |active|
      ensures forall m :: 0 <= m < |active| ==> balance[m] == BalanceOf(leaveRequests, active[m])
    {
      balance := [];
      var k := 0;
      while k < |active|
        invariant 0 <= k <= |active|
        invariant |balance| == k
        invariant forall m :: 0 <= m < k ==> balance[m] == BalanceOf(leaveRequests, active[m])
      {
        var t := active[k];
        balance := balance + [BalanceEntry(t.name, t.defaultDays, used[t.name], t.defaultDays - used[t.name])];
        k := k + 1;
      }
    }

    /** The `usedDays` table: every active type name, mapped to the days its approved requests use. */
    method UsedDays(active: seq<MockLeaveType>) returns (used: map<string, int>)
      ensures forall m :: 0 <= m < |active| ==> active[m].name in used
      ensures forall n :: n in used ==> used[n] == UsedOf(leaveRequests, n)
    {
      used := map[];
      var k := 0;
      while k < |active|
        invariant 0 <= k <= |active|
        invariant forall m :: 0 <= m < k ==> active[m].name in used
        invariant forall n :: n in used ==> used[n] == 0
      {
        used := used[active[k].name := 0];
        k := k + 1;
      }
      var i := 0;
      while i < |leaveRequests|
        invariant 0 <= i <= |leaveRequests|
        invariant forall m :: 0 <= m < |active| ==> active[m].name in used
        invariant forall n :: n in used ==> used[n] == UsedOf(leaveRequests[..i], n)
      {
        var request := leaveRequests[i];
        var name := request.leaveType.name;
        assert leaveRequests[..i + 1] == leaveRequests[..i] + [request];
        AccumulateStep(leaveRequests[..i], request, used);
        if request.status == Approved && name != "" && name in used {
          used := used[name := used[name] + ParseIntOrZero(request.totalDays)];
        }
        i := i + 1;
      }
      assert leaveRequests[..|leaveRequests|] == leaveRequests;
    }

    /**
     * `GET /api/reports/statistics`, with the day totals summed as numbers:
     * since the store never holds a CANCELLED request, the three status counts
     * add up to the total, and since created requests carry no department, the
     * per-department list is empty.
     */
    method GetStatistics() returns (st: MockStatistics)
      requires Valid()
      ensures st == Statistics(leaveRequests, leaveTypes, departments)
      ensures st.totalRequests == |leaveRequests|
      ensures st.pendingRequests + st.approvedRequests + st.rejectedRequests == st.totalRequests
      ensures st.byDepartment == []
    {
      StatusCountsPartition(leaveRequests);
      NoDepartmentsNoTallies(leaveRequests, leaveTypes, departments);
      st := Statistics(leaveRequests, leaveTypes, departments);
    }

    // ------------------------------------------------------------ leave types, departments, holidays

    /** `PUT /api/leave-types/:id`: the first type with the id takes the body's fields; 404 when none has it. */
    method UpdateLeaveType(id: string, patch: LeaveTypePatch) returns (r: Reply<MockLeaveType>)
      modifies this
      requires Valid()
      ensures Valid()
      ensures r.Failure? <==> id !in TypeIds(old(leaveTypes))
      ensures r.Failure? ==> r == Failure(404, "Leave type not found") && leaveTypes == old(leaveTypes)
      ensures r.Success? ==>
        var index := IndexOf(TypeIds(old(leaveTypes)), id);
        leaveTypes == old(leaveTypes)[index := PatchLeaveType(old(leaveTypes)[index], patch)] && r == Success(200, leaveTypes[index])
      ensures users == old(users) && leaveRequests == old(leaveRequests)
      ensures departments == old(departments) && holidays == old(holidays)
    {
      var index := IndexOf(TypeIds(leaveTypes), id);
      if index >= 0 {
        leaveTypes := leaveTypes[index := PatchLeaveType(leaveTypes[index], patch)];
        r := Success(200, leaveTypes[index]);
      } else {
        r := Failure(404, "Leave type not found");
      }
    }

    /** `DELETE /api/leave-types/:id`. */
    method DeleteLeaveType(id: string) returns (message: string)
      modifies this
      requires Valid()
      ensures Valid()
      ensures leaveTypes == WithoutType(old(leaveTypes), id) && message == "Leave type deleted"
      ensures users == old(users) && leaveRequests == old(leaveRequests)
      ensures departments == old(departments) && holidays == old(holidays)
    {
      leaveTypes := WithoutType(leaveTypes, id);
      message := "Leave type deleted";
    }

    /** `PUT /api/departments/:id`. */
    method UpdateDepartment(id: string, patch: DepartmentPatch) returns (r: Reply<MockDepartment>)
      modifies this
      requires Valid()
      ensures Valid()
      ensures r.Failure? <==> id !in DepartmentIds(old(departments))
      ensures r.Failure? ==> r == Failure(404, "Department not found") && departments == old(departments)
      ensures r.Success? ==>
        var index := IndexOf(DepartmentIds(old(departments)), id);
        departments == old(departments)[index := PatchDepartment(old(departments)[index], patch)] && r == Success(200, departments[index])
      ensures users == old(users) && leaveRequests == old(leaveRequests)
      ensures leaveTypes == old(leaveTypes) && holidays == old(holidays)
    {
      var index := IndexOf(DepartmentIds(departments), id);
      if index >= 0 {
        departments := departments[index := PatchDepartment(departments[index], patch)];
        r := Success(200, departments[index]);
      } else {
        r := Failure(404, "Department not found");
      }
    }

    /** `DELETE /api/departments/:id`. */
    method DeleteDepartment(id: string) returns (message: string)
      modifies this
      requires Valid()
      ensures Valid()
      ensures departments == WithoutDepartment(old(departments), id) && message == "Department deleted"
      ensures users == old(users) && leaveRequests == old(leaveRequests)
      ensures leaveTypes == old(leaveTypes) && holidays == old(holidays)
    {
      departments := WithoutDepartment(departments, id);
      message := "Department deleted";
    }

    /** `PUT /api/holidays/:id`. */
    method UpdateHoliday(id: string, patch: HolidayPatch) returns (r: Reply<Holiday>)
      modifies this
      requires Valid()
      ensures Valid()
      ensures r.Failure? <==> id !in HolidayIds(old(holidays))
      ensures r.Failure? ==> r == Failure(404, "Holiday not found") && holidays == old(holidays)
      ensures r.Success? ==>
        var index := IndexOf(HolidayIds(old(holidays)), id);
        holidays == old(holidays)[index := PatchHoliday(old(holidays)[index], patch)] && r == Success(200, holidays[index])
      ensures users == old(users) && leaveRequests == old(leaveRequests)
      ensures leaveTypes == old(leaveTypes) && departments == old(departments)
    {
      var index := IndexOf(HolidayIds(holidays), id);
      if index >= 0 {
        holidays := holidays[index := PatchHoliday(holidays[index], patch)];
        r := Success(200, holidays[index]);
      } else {
        r := Failure(404, "Holiday not found");
      }
    }

    /** `DELETE /api/holidays/:id`. */
    method DeleteHoliday(id: string) returns (message: string)
      modifies this
      requires Valid()
      ensures Valid()
      ensures holidays == WithoutHoliday(old(holidays), id) && message == "Holiday deleted"
      ensures users == old(users) && leaveRequests == old(leaveRequests)
      ensures leaveTypes == old(leaveTypes) && departments == old(departments)
    {
      holidays := WithoutHoliday(holidays, id);
      message := "Holiday deleted";
    }
  }
}
