/**
 * The user handlers: profile and user lookups, the leave balance of the
 * current year, the administrator's partial update, the profile update with
 * its password rule, and the filtered user listing.
 */
module UserController {
  import opened Collections
  import opened Text
  import opened Database
  import Pagination

  /** The columns a lookup selects: every column but the password hash. */
  datatype UserView = UserView(
    id: string,
    email: string,
    fullName: string,
    role: Role,
    phoneNumber: Option<string>,
    avatar: Option<string>,
    departmentId: Option<string>,
    managerId: Option<string>,
    annualLeaveQuota: int,
    sickLeaveQuota: int,
    isActive: bool)

  function ViewOf(u: User): UserView {
    UserView(u.id, u.email, u.fullName, u.role, u.phoneNumber, u.avatar, u.departmentId, u.managerId,
             u.annualLeaveQuota, u.sickLeaveQuota, u.isActive)
  }

  /** `getUserById`: 404 when no row has the id. */
  function GetUserById(db: Db, id: string): (r: Reply<UserView>)
    reads db
    ensures r.Failure? <==> id !in db.users
    ensures r.Failure? ==> r == Failure(404, "User not found")
    ensures r.Success? ==> r == Success(200, ViewOf(db.users[id]))
  {
    if id !in db.users then Failure(404, "User not found") else Success(200, ViewOf(db.users[id]))
  }

  /** `getProfile`: the caller's own row, 404 when it is gone. */
  function GetProfile(db: Db, caller: Caller): (r: Reply<UserView>)
    reads db
    ensures r.Failure? <==> caller.id !in db.users
    ensures r.Success? ==> r.body == ViewOf(db.users[caller.id])
  {
    GetUserById(db, caller.id)
  }

  // ---------------------------------------------------------------- leave balance

  datatype Balance = Balance(total: int, used: int, remaining: int)

  datatype LeaveBalance = LeaveBalance(annualLeave: Balance, sickLeave: Balance)

  /**
   * A request counts toward the caller's balance when it is theirs, APPROVED,
   * and starts between `yearStart` and `yearEnd` inclusive (the instants of the
   * current year's first and last day).
   */
  predicate CountsToward(q: LeaveRequest, userId: string, yearStart: int, yearEnd: int) {
    q.userId == userId && q.status == Approved && yearStart <= q.startDate <= yearEnd
  }

  /** The code of the request's leave type, when the type row exists. */
  function CodeOf(types: map<string, LeaveType>, q: LeaveRequest): Option<string> {
    if q.leaveTypeId in types then Some(types[q.leaveTypeId].code) else None
  }

  /** The test picking the counting requests of one leave-type code. */
  function CountingOf(types: map<string, LeaveType>, userId: string, yearStart: int, yearEnd: int,
                      code: string): LeaveRequest -> bool {
    (q: LeaveRequest) => CountsToward(q, userId, yearStart, yearEnd) && CodeOf(types, q) == Some(code)
  }

  function DaysOf(q: LeaveRequest): int { q.totalDays }

  /** The days used of one leave-type code: the sum over the counting requests of that code. */
  function UsedDays(rows: seq<LeaveRequest>, types: map<string, LeaveType>, userId: string,
                    yearStart: int, yearEnd: int, code: string): int {
    SumOf(Filter(rows, CountingOf(types, userId, yearStart, yearEnd, code)), DaysOf)
  }

  /**
   * Adding one request to the rows adds its days to the sum of its own code
   * when it counts, and leaves every other code's sum alone.
   */
  lemma UsedDaysStep(rows: seq<LeaveRequest>, q: LeaveRequest, types: map<string, LeaveType>, userId: string,
                     yearStart: int, yearEnd: int, code: string)
    ensures UsedDays(rows + [q], types, userId, yearStart, yearEnd, code) ==
      UsedDays(rows, types, userId, yearStart, yearEnd, code) +
      (if CountsToward(q, userId, yearStart, yearEnd) && CodeOf(types, q) == Some(code) then q.totalDays else 0)
  {
    var p := CountingOf(types, userId, yearStart, yearEnd, code);
    FilterSnocSums(rows, q, p, DaysOf);
    assert p(q) == (CountsToward(q, userId, yearStart, yearEnd) && CodeOf(types, q) == Some(code));
  }

  /** A request of a code other than ANNUAL and SICK changes neither balance. */
  lemma OtherCodesIgnored(rows: seq<LeaveRequest>, q: LeaveRequest, types: map<string, LeaveType>, userId: string,
                          yearStart: int, yearEnd: int)
    requires CodeOf(types, q) != Some("ANNUAL") && CodeOf(types, q) != Some("SICK")
    ensures UsedDays(rows + [q], types, userId, yearStart, yearEnd, "ANNUAL") == UsedDays(rows, types, userId, yearStart, yearEnd, "ANNUAL")
    ensures UsedDays(rows + [q], types, userId, yearStart, yearEnd, "SICK") == UsedDays(rows, types, userId, yearStart, yearEnd, "SICK")
  {
    UsedDaysStep(rows, q, types, userId, yearStart, yearEnd, "ANNUAL");
    UsedDaysStep(rows, q, types, userId, yearStart, yearEnd, "SICK");
  }

  /**
   * `getLeaveBalance`. `rows` is what the store's `findMany` reads: the request
   * table, one entry per row; the remaining days are the quota minus the used
   * days, not clamped at zero.
   */
  method GetLeaveBalance(db: Db, caller: Caller, rows: seq<LeaveRequest>, yearStart: int, yearEnd: int)
    returns (r: Reply<LeaveBalance>)
    requires Lists(rows, db.leaveRequests, RequestId)
    ensures r.Failure? <==> caller.id !in db.users
    ensures r.Failure? ==> r == Failure(404, "User not found")
    ensures r.Success? ==>
      var user := db.users[caller.id];
      var annual := UsedDays(rows, db.leaveTypes, caller.id, yearStart, yearEnd, "ANNUAL");
      var sick := UsedDays(rows, db.leaveTypes, caller.id, yearStart, yearEnd, "SICK");
      r == Success(200, LeaveBalance(Balance(user.annualLeaveQuota, annual, user.annualLeaveQuota - annual),
                                     Balance(user.sickLeaveQuota, sick, user.sickLeaveQuota - sick)))
  {
    if caller.id !in db.users {
      return Failure(404, "User not found");
    }
    var user := db.users[caller.id];
    var usedAnnual := 0;
    var usedSick := 0;
    var i := 0;
    while i < |rows|
      invariant 0 <= i <= |rows|
      invariant usedAnnual == UsedDays(rows[..i], db.leaveTypes, caller.id, yearStart, yearEnd, "ANNUAL")
      invariant usedSick == UsedDays(rows[..i], db.leaveTypes, caller.id, yearStart, yearEnd, "SICK")
    {
      var q := rows[i];
      assert rows[..i + 1] == rows[..i] + [q];
      UsedDaysStep(rows[..i], q, db.leaveTypes, caller.id, yearStart, yearEnd, "ANNUAL");
      UsedDaysStep(rows[..i], q, db.leaveTypes, caller.id, yearStart, yearEnd, "SICK");
      if CountsToward(q, caller.id, yearStart, yearEnd) {
        var code := CodeOf(db.leaveTypes, q);
        if code == Some("ANNUAL") {
          usedAnnual := usedAnnual + q.totalDays;
        } else if code == Some("SICK") {
          usedSick := usedSick + q.totalDays;
        }
      }
      i := i + 1;
    }
    assert rows[..i] == rows;
    r := Success(200, LeaveBalance(Balance(user.annualLeaveQuota, usedAnnual, user.annualLeaveQuota - usedAnnual),
                                   Balance(user.sickLeaveQuota, usedSick, user.sickLeaveQuota - usedSick)));
  }

  // ---------------------------------------------------------------- updateUser

  /**
   * The body of an administrator's edit: `None` is a key left `undefined`;
   * nullable columns take `Some(None)` for an explicit `null`.
   */
  datatype UserUpdate = UserUpdate(
    fullName: Option<string>,
    role: Option<Role>,
    departmentId: Option<Option<string>>,
    managerId: Option<Option<string>>,
    annualLeaveQuota: Option<int>,
    sickLeaveQuota: Option<int>,
    isActive: Option<bool>,
    phoneNumber: Option<Option<string>>)

  /** Every key that is not `undefined` overwrites its column; the others keep theirs. */
  function ApplyUserUpdate(u: User, b: UserUpdate): (r: User)
    ensures r.id == u.id && r.email == u.email && r.passwordHash == u.passwordHash && r.avatar == u.avatar
    ensures b.fullName.Some? ==> r.fullName == b.fullName.value
    ensures b.fullName.None? ==> r.fullName == u.fullName
    ensures b.role.Some? ==> r.role == b.role.value
    ensures b.role.None? ==> r.role == u.role
    ensures b.departmentId.Some? ==> r.departmentId == b.departmentId.value
    ensures b.departmentId.None? ==> r.departmentId == u.departmentId
    ensures b.managerId.Some? ==> r.managerId == b.managerId.value
    ensures b.managerId.None? ==> r.managerId == u.managerId
    ensures b.annualLeaveQuota.Some? ==> r.annualLeaveQuota == b.annualLeaveQuota.value
    ensures b.annualLeaveQuota.None? ==> r.annualLeaveQuota == u.annualLeaveQuota
    ensures b.sickLeaveQuota.Some? ==> r.sickLeaveQuota == b.sickLeaveQuota.value
    ensures b.sickLeaveQuota.None? ==> r.sickLeaveQuota == u.sickLeaveQuota
    ensures b.isActive.Some? ==> r.isActive == b.isActive.value
    ensures b.isActive.None? ==> r.isActive == u.isActive
    ensures b.phoneNumber.Some? ==> r.phoneNumber == b.phoneNumber.value
    ensures b.phoneNumber.None? ==> r.phoneNumber == u.phoneNumber
  {
    u.(fullName := b.fullName.GetOr(u.fullName),
       role := b.role.GetOr(u.role),
       departmentId := b.departmentId.GetOr(u.departmentId),
       managerId := b.managerId.GetOr(u.managerId),
       annualLeaveQuota := b.annualLeaveQuota.GetOr(u.annualLeaveQuota),
       sickLeaveQuota := b.sickLeaveQuota.GetOr(u.sickLeaveQuota),
       isActive := b.isActive.GetOr(u.isActive),
       phoneNumber := b.phoneNumber.GetOr(u.phoneNumber))
  }

  /** Sending the same edit twice is the same as sending it once. */
  lemma ApplyUserUpdateIdempotent(u: User, b: UserUpdate)
    ensures ApplyUserUpdate(ApplyUserUpdate(u, b), b) == ApplyUserUpdate(u, b)
  {
  }

  /** An edit whose every key is `undefined` leaves the row as it was. */
  lemma EmptyUserUpdateIsIdentity(u: User)
    ensures ApplyUserUpdate(u, UserUpdate(None, None, None, None, None, None, None, None)) == u
  {
  }

  /**
   * A department or manager the edit sets that names no row: the store's
   * foreign-key check then makes the update throw.
   */
  predicate DanglingLink(users: map<string, User>, departments: map<string, Department>, b: UserUpdate) {
    || (b.departmentId.Some? && b.departmentId.value.Some? && b.departmentId.value.value !in departments)
    || (b.managerId.Some? && b.managerId.value.Some? && b.managerId.value.value !in users)
  }

  /**
   * `updateUser`: an unknown id, or a department or manager that names no row,
   * makes the store's update throw, which the handler reports as 500.
   */
  method UpdateUser(db: Db, id: string, body: UserUpdate) returns (r: Reply<UserView>)
    requires db.Consistent()
    modifies db
    ensures db.Consistent()
    ensures r.Failure? <==> id !in old(db.users) || DanglingLink(old(db.users), old(db.departments), body)
    ensures r.Failure? ==> r == Failure(500, "Error updating user") && unchanged(db)
    ensures r.Success? ==>
      && db.users == old(db.users)[id := ApplyUserUpdate(old(db.users)[id], body)]
      && r == Success(200, ViewOf(db.users[id]))
    ensures db.departments == old(db.departments) && db.leaveTypes == old(db.leaveTypes)
    ensures db.leaveRequests == old(db.leaveRequests) && db.approvals == old(db.approvals)
    ensures db.notifications == old(db.notifications)
  {
    if id !in db.users || DanglingLink(db.users, db.departments, body) {
      return Failure(500, "Error updating user");
    }
    var updated := ApplyUserUpdate(db.users[id], body);
    db.users := db.users[id := updated];
    r := Success(200, ViewOf(updated));
  }

  // ---------------------------------------------------------------- updateProfile

  datatype ProfileUpdate = ProfileUpdate(
    fullName: Option<string>,
    phoneNumber: Option<string>,
    avatar: Option<string>,
    currentPassword: Option<string>,
    newPassword: Option<string>)

  /** A password change is attempted only when both passwords are non-empty. */
  predicate WantsPasswordChange(b: ProfileUpdate) {
    Truthy(b.currentPassword) && Truthy(b.newPassword)
  }

  /**
   * The profile edit: truthy fields overwrite, falsy ones keep the column, and
   * the password hash changes only to a supplied `newHash`.
   */
  function ApplyProfileUpdate(u: User, b: ProfileUpdate, newHash: Option<string>): (r: User)
    ensures r.id == u.id && r.email == u.email && r.role == u.role
    ensures r.departmentId == u.departmentId && r.managerId == u.managerId
    ensures r.fullName == (if Truthy(b.fullName) then b.fullName.value else u.fullName)
    ensures r.phoneNumber == (if Truthy(b.phoneNumber) then b.phoneNumber else u.phoneNumber)
    ensures r.avatar == (if Truthy(b.avatar) then b.avatar else u.avatar)
    ensures r.passwordHash == newHash.GetOr(u.passwordHash)
  {
    u.(fullName := if Truthy(b.fullName) then b.fullName.value else u.fullName,
       phoneNumber := OrElse(b.phoneNumber, u.phoneNumber),
       avatar := OrElse(b.avatar, u.avatar),
       passwordHash := newHash.GetOr(u.passwordHash))
  }

  /**
   * `updateProfile`. `verifies(plain, hash)` and `hash(plain)` stand for the
   * password library's compare and hash.
   */
  method UpdateProfile(db: Db, caller: Caller, body: ProfileUpdate,
                       verifies: (string, string) -> bool, hash: string -> string)
    returns (r: Reply<UserView>)
    requires db.Consistent()
    modifies db
    ensures db.Consistent()
    ensures caller.id !in old(db.users) ==> r.Failure? && unchanged(db)
    ensures caller.id !in old(db.users) && WantsPasswordChange(body) ==> r == Failure(404, "User not found")
    ensures caller.id !in old(db.users) && !WantsPasswordChange(body) ==> r == Failure(500, "Error updating profile")
    ensures caller.id in old(db.users) && WantsPasswordChange(body) &&
            !verifies(body.currentPassword.value, old(db.users)[caller.id].passwordHash) ==>
      r == Failure(400, "Current password is incorrect") && unchanged(db)
    ensures r.Success? <==>
      caller.id in old(db.users) &&
      (WantsPasswordChange(body) ==> verifies(body.currentPassword.value, old(db.users)[caller.id].passwordHash))
    ensures r.Success? ==>
      var newHash := if WantsPasswordChange(body) then Some(hash(body.newPassword.value)) else None;
      && db.users == old(db.users)[caller.id := ApplyProfileUpdate(old(db.users)[caller.id], body, newHash)]
      && r == Success(200, ViewOf(db.users[caller.id]))
    ensures db.departments == old(db.departments) && db.leaveTypes == old(db.leaveTypes)
    ensures db.leaveRequests == old(db.leaveRequests) && db.approvals == old(db.approvals)
    ensures db.notifications == old(db.notifications)
  {
    var newHash: Option<string> := None;
    if WantsPasswordChange(body) {
      if caller.id !in db.users {
        return Failure(404, "User not found");
      }
      if !verifies(body.currentPassword.value, db.users[caller.id].passwordHash) {
        return Failure(400, "Current password is incorrect");
      }
      newHash := Some(hash(body.newPassword.value));
    }
    if caller.id !in db.users {
      return Failure(500, "Error updating profile");
    }
    var updated := ApplyProfileUpdate(db.users[caller.id], body, newHash);
    db.users := db.users[caller.id := updated];
    r := Success(200, ViewOf(updated));
  }

  // ---------------------------------------------------------------- getAllUsers

  datatype UserQuery = UserQuery(search: Option<string>, departmentId: Option<string>, role: Option<Role>)

  /** The `where` of the listing: a truthy search matches name or email ignoring case. */
  predicate MatchesQuery(q: UserQuery, u: User) {
    && (Truthy(q.search) ==> ContainsIgnoreCase(u.fullName, q.search.value) || ContainsIgnoreCase(u.email, q.search.value))
    && (Truthy(q.departmentId) ==> u.departmentId == q.departmentId)
    && (q.role.Some? ==> u.role == q.role.value)
  }

  datatype UserPage = UserPage(users: seq<UserView>, total: nat, totalPages: Option<int>)

  function Matching(q: UserQuery): User -> bool {
    u => MatchesQuery(q, u)
  }

  /**
   * `getAllUsers` over `rows`, the user table in `createdAt` descending order;
   * `None` when the page's skip is negative, which the store refuses and the
   * handler answers with 500.
   */
  function GetAllUsers(db: Db, rows: seq<User>, q: UserQuery, page: int, limit: int): (r: Option<UserPage>)
    reads db
    requires Lists(rows, db.users, UserId)
    ensures r.None? <==> Pagination.Skip(page, limit) < 0
    ensures r.Some? ==>
      var matching := Filter(rows, Matching(q));
      && r.value.total == |matching|
      && r.value.users == MapSeq(Pagination.Page(matching, page, limit).value, ViewOf)
      && r.value.totalPages == Pagination.TotalPages(|matching|, limit)
  {
    var matching := Filter(rows, Matching(q));
    match Pagination.Page(matching, page, limit)
    case None => None
    case Some(window) => Some(UserPage(MapSeq(window, ViewOf), |matching|, Pagination.TotalPages(|matching|, limit)))
  }

  /** Every user shown on a page is a row of the table that matches the query. */
  lemma ShownUsersMatch(db: Db, rows: seq<User>, q: UserQuery, page: int, limit: int, k: nat)
    requires Lists(rows, db.users, UserId)
    requires GetAllUsers(db, rows, q, page, limit).Some?
    requires k < |GetAllUsers(db, rows, q, page, limit).value.users|
    ensures exists id :: (id in db.users && MatchesQuery(q, db.users[id]) &&
      GetAllUsers(db, rows, q, page, limit).value.users[k] == ViewOf(db.users[id]))
  {
    var matching := Filter(rows, Matching(q));
    var j := Pagination.PageElement(matching, page, limit, k);
    var u := matching[j];
    assert MatchesQuery(q, u);
    FilterSubset(rows, Matching(q));
    var i :| 0 <= i < |rows| && rows[i] == u;
    assert UserId(rows[i]) in db.users && db.users[UserId(rows[i])] == rows[i];
    assert GetAllUsers(db, rows, q, page, limit).value.users[k] == ViewOf(u);
  }

  /** With no search, department or role, every user is counted. */
  lemma UnfilteredListingCountsEveryone(db: Db, rows: seq<User>, page: int, limit: int)
    requires Lists(rows, db.users, UserId)
    requires GetAllUsers(db, rows, UserQuery(None, None, None), page, limit).Some?
    ensures GetAllUsers(db, rows, UserQuery(None, None, None), page, limit).value.total == |rows|
  {
    FilterKeepsAll(rows, Matching(UserQuery(None, None, None)));
  }
}
