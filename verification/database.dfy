/**
 * The relational store behind the backend controllers, as an in-memory table
 * per entity: rows keyed by id, approvals and notifications appended in order.
 */
module Database {
  import opened Collections

  datatype Role = Employee | Manager | Hr | Admin

  datatype RequestStatus = Pending | Approved | Rejected | Cancelled

  datatype User = User(
    id: string,
    email: string,
    fullName: string,
    passwordHash: string,
    role: Role,
    phoneNumber: Option<string>,
    avatar: Option<string>,
    departmentId: Option<string>,
    managerId: Option<string>,
    annualLeaveQuota: int,
    sickLeaveQuota: int,
    isActive: bool)

  datatype Department = Department(id: string, name: string)

  datatype LeaveType = LeaveType(id: string, code: string, name: string, isActive: bool)

  /** Dates are instants on one integer time line; `totalDays` is stored as sent. */
  datatype LeaveRequest = LeaveRequest(
    id: string,
    userId: string,
    leaveTypeId: string,
    startDate: int,
    endDate: int,
    totalDays: int,
    reason: string,
    attachment: Option<string>,
    status: RequestStatus)

  datatype Approval = Approval(
    leaveRequestId: string,
    approverId: string,
    status: RequestStatus,
    comments: Option<string>)

  datatype Notification = Notification(userId: string, title: string, message: string, link: string)

  /** The authenticated caller, as the auth middleware leaves it on the request. */
  datatype Caller = Caller(id: string, role: Role)

  /** An HTTP reply: a success status with its payload, or an error status with its message. */
  datatype Reply<T> = Success(httpStatus: int, body: T) | Failure(httpStatus: int, message: string)

  /** A user's department and manager, when set, are rows of the given tables. */
  predicate UserLinksIn(u: User, users: map<string, User>, departments: map<string, Department>) {
    && (u.departmentId.Some? ==> u.departmentId.value in departments)
    && (u.managerId.Some? ==> u.managerId.value in users)
  }

  function RequestId(r: LeaveRequest): string { r.id }

  function UserId(u: User): string { u.id }

  /**
   * `rows` lists the rows of `table` exactly once each, in some order: the
   * result of a `findMany` over the whole table.
   */
  ghost predicate Lists<T>(rows: seq<T>, table: map<string, T>, key: T -> string) {
    && (forall k :: 0 <= k < |rows| ==> key(rows[k]) in table && table[key(rows[k])] == rows[k])
    && (forall id :: id in table ==> exists k :: 0 <= k < |rows| && key(rows[k]) == id)
    && (forall k, l :: 0 <= k < l < |rows| ==> key(rows[k]) != key(rows[l]))
  }

  class Db {
    var users: map<string, User>
    var departments: map<string, Department>
    var leaveTypes: map<string, LeaveType>
    var leaveRequests: map<string, LeaveRequest>
    var approvals: seq<Approval>
    var notifications: seq<Notification>

    /** Every row is stored under its own id. */
    ghost predicate Valid()
      reads this
    {
      && (forall id :: id in users ==> users[id].id == id)
      && (forall id :: id in departments ==> departments[id].id == id)
      && (forall id :: id in leaveTypes ==> leaveTypes[id].id == id)
      && (forall id :: id in leaveRequests ==> leaveRequests[id].id == id)
    }

    /**
     * The foreign keys hold: every request refers to an existing user and an
     * existing leave type, and a user's department and manager, when set, exist.
     */
    ghost predicate Referential()
      reads this
    {
      && (forall id :: id in leaveRequests ==>
            leaveRequests[id].userId in users && leaveRequests[id].leaveTypeId in leaveTypes)
      && (forall id :: id in users ==> UserLinksIn(users[id], users, departments))
    }

    /**
     * The rows are keyed and linked correctly, and the approval history agrees
     * with the requests: every approval names an existing request that is no
     * longer pending, records a decision, and no request was decided twice.
     */
    ghost predicate Consistent()
      reads this
    {
      && Valid()
      && Referential()
      && (forall k :: 0 <= k < |approvals| ==>
            && approvals[k].leaveRequestId in leaveRequests
            && leaveRequests[approvals[k].leaveRequestId].status != Pending
            && (approvals[k].status == Approved || approvals[k].status == Rejected))
      && (forall k, l :: 0 <= k < l < |approvals| ==>
            approvals[k].leaveRequestId != approvals[l].leaveRequestId)
    }

    constructor (users: map<string, User>, departments: map<string, Department>, leaveTypes: map<string, LeaveType>)
      requires forall id :: id in users ==> users[id].id == id
      requires forall id :: id in departments ==> departments[id].id == id
      requires forall id :: id in leaveTypes ==> leaveTypes[id].id == id
      requires forall id :: id in users ==> UserLinksIn(users[id], users, departments)
      ensures Consistent()
      ensures this.users == users && this.departments == departments && this.leaveTypes == leaveTypes
      ensures leaveRequests == map[] && approvals == [] && notifications == []
    {
      this.users := users;
      this.departments := departments;
      this.leaveTypes := leaveTypes;
      leaveRequests := map[];
      approvals := [];
      notifications := [];
    }

    /** Stores a new request whose owner and leave type exist; the tables stay consistent. */
    method InsertRequest(request: LeaveRequest)
      requires Consistent()
      requires request.id !in leaveRequests
      requires request.userId in users && request.leaveTypeId in leaveTypes
      modifies this
      ensures Consistent()
      ensures leaveRequests == old(leaveRequests)[request.id := request]
      ensures users == old(users) && departments == old(departments) && leaveTypes == old(leaveTypes)
      ensures approvals == old(approvals) && notifications == old(notifications)
    {
      leaveRequests := leaveRequests[request.id := request];
    }

    /** Decides a pending request and appends the decision to the approval history. */
    method RecordDecision(id: string, approverId: string, decision: RequestStatus, comments: Option<string>)
      requires Consistent()
      requires id in leaveRequests && leaveRequests[id].status == Pending
      requires decision == Approved || decision == Rejected
      modifies this
      ensures Consistent()
      ensures leaveRequests == old(leaveRequests)[id := old(leaveRequests)[id].(status := decision)]
      ensures approvals == old(approvals) + [Approval(id, approverId, decision, comments)]
      ensures users == old(users) && departments == old(departments) && leaveTypes == old(leaveTypes)
      ensures notifications == old(notifications)
    {
      leaveRequests := leaveRequests[id := leaveRequests[id].(status := decision)];
      approvals := approvals + [Approval(id, approverId, decision, comments)];
    }

    /** Appends a notification; nothing else changes. */
    method Notify(n: Notification)
      requires Consistent()
      modifies this
      ensures Consistent()
      ensures notifications == old(notifications) + [n]
      ensures users == old(users) && departments == old(departments) && leaveTypes == old(leaveTypes)
      ensures leaveRequests == old(leaveRequests) && approvals == old(approvals)
    {
      notifications := notifications + [n];
    }
  }
}
