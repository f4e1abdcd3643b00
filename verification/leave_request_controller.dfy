/**
 * The leave-request handlers: a request is created PENDING, may be edited by
 * its owner while PENDING, cancelled by its owner at any time, and approved or
 * rejected once while PENDING, each decision leaving an approval record and a
 * notification for the owner.
 */
module LeaveRequestController {
  import opened Collections
  import opened Database
  import Pagination

  /** The body of a create request; dates already parsed to instants. */
  datatype CreateBody = CreateBody(
    leaveTypeId: string,
    startDate: int,
    endDate: int,
    reason: string,
    totalDays: int,
    attachment: Option<string>)

  /**
   * The body of an edit. `None` (or an empty string, or a zero day count) is
   * falsy and keeps the stored value; `attachment` distinguishes an absent key
   * (`None`) from an explicit `null` (`Some(None)`).
   */
  datatype UpdateBody = UpdateBody(
    leaveTypeId: Option<string>,
    startDate: Option<int>,
    endDate: Option<int>,
    totalDays: Option<int>,
    reason: Option<string>,
    attachment: Option<Option<string>>)

  /** What a handler does to the status of a request. */
  datatype Action = Edit | Cancel | Approve | Reject

  /**
   * The status after `action` on a request in status `current`, or `None`
   * when the handler refuses with 400 because the request was processed.
   */
  function NextStatus(action: Action, current: RequestStatus): (r: Option<RequestStatus>)
    ensures action == Cancel ==> r == Some(Cancelled)
    ensures action in {Edit, Approve, Reject} ==> (r.Some? <==> current == Pending)
    ensures action == Edit && r.Some? ==> r.value == current
    ensures action == Approve && r.Some? ==> r.value == Approved
    ensures action == Reject && r.Some? ==> r.value == Rejected
  {
    match action
    case Cancel => Some(Cancelled)
    case Edit => if current == Pending then Some(current) else None
    case Approve => if current == Pending then Some(Approved) else None
    case Reject => if current == Pending then Some(Rejected) else None
  }

  /** No handler ever puts a request back into PENDING once it has left it. */
  lemma NoReturnToPending(action: Action, current: RequestStatus)
    requires current != Pending
    ensures NextStatus(action, current) != Some(Pending)
  {
  }

  function Link(id: string): string {
    "/leave-requests/" + id
  }

  /** `createLeaveRequest`. */
  method CreateLeaveRequest(db: Db, caller: Caller, body: CreateBody, newId: string)
    returns (r: Reply<LeaveRequest>)
    requires db.Consistent() && newId !in db.leaveRequests
    modifies db
    ensures db.Consistent()
    ensures db.users == old(db.users) && db.leaveTypes == old(db.leaveTypes)
    ensures db.departments == old(db.departments) && db.approvals == old(db.approvals)
    ensures body.startDate > body.endDate ==>
      r == Failure(400, "Start date must be before end date") && unchanged(db)
    ensures body.startDate <= body.endDate &&
            (body.leaveTypeId !in db.leaveTypes || !db.leaveTypes[body.leaveTypeId].isActive) ==>
      r == Failure(400, "Invalid leave type") && unchanged(db)
    ensures body.startDate <= body.endDate && body.leaveTypeId in db.leaveTypes && db.leaveTypes[body.leaveTypeId].isActive &&
            caller.id !in db.users ==>
      r == Failure(500, "Error creating leave request") && unchanged(db)
    ensures r.Success? <==>
      && body.startDate <= body.endDate && body.leaveTypeId in db.leaveTypes && db.leaveTypes[body.leaveTypeId].isActive
      && caller.id in db.users
    ensures r.Success? ==>
      && r.httpStatus == 201
      && r.body == LeaveRequest(newId, caller.id, body.leaveTypeId, body.startDate, body.endDate,
                                body.totalDays, body.reason, if Truthy(body.attachment) then body.attachment else None, Pending)
      && db.leaveRequests == old(db.leaveRequests)[newId := r.body]
      && db.notifications == old(db.notifications) +
           (if Truthy(db.users[caller.id].managerId)
            then [Notification(db.users[caller.id].managerId.value, "New Leave Request",
                               db.users[caller.id].fullName + " has submitted a leave request", Link(newId))]
            else [])
  {
    if body.startDate > body.endDate {
      return Failure(400, "Start date must be before end date");
    }
    if body.leaveTypeId !in db.leaveTypes || !db.leaveTypes[body.leaveTypeId].isActive {
      return Failure(400, "Invalid leave type");
    }
    if caller.id !in db.users {
      // the insert violates the owner foreign key and the handler reports the failure
      return Failure(500, "Error creating leave request");
    }
    var request := LeaveRequest(newId, caller.id, body.leaveTypeId, body.startDate, body.endDate,
                                body.totalDays, body.reason, OrElse(body.attachment, None), Pending);
    db.InsertRequest(request);
    if Truthy(db.users[caller.id].managerId) {
      var user := db.users[caller.id];
      db.Notify(Notification(user.managerId.value, "New Leave Request",
                             user.fullName + " has submitted a leave request", Link(newId)));
    }
    r := Success(201, request);
  }

  /** ADMIN, HR and MANAGER may read any request; only EMPLOYEE is left out. */
  predicate IsPrivileged(role: Role)
    ensures IsPrivileged(role) <==> role != Employee
  {
    match role
    case Admin | Hr | Manager => true
    case Employee => false
  }

  /** `getLeaveRequestById`: owners and ADMIN, HR or MANAGER callers may read a request. */
  function GetLeaveRequestById(db: Db, caller: Caller, id: string): (r: Reply<LeaveRequest>)
    reads db
    ensures id !in db.leaveRequests <==> r == Failure(404, "Leave request not found")
    ensures id in db.leaveRequests && db.leaveRequests[id].userId != caller.id && caller.role == Employee <==>
      r == Failure(403, "Access denied")
    ensures r.Success? <==> id in db.leaveRequests && (db.leaveRequests[id].userId == caller.id || caller.role != Employee)
    ensures r.Success? ==> r.httpStatus == 200 && r.body == db.leaveRequests[id]
  {
    if id !in db.leaveRequests then Failure(404, "Leave request not found")
    else if db.leaveRequests[id].userId != caller.id && !IsPrivileged(caller.role) then Failure(403, "Access denied")
    else Success(200, db.leaveRequests[id])
  }

  /** The `where` of the listings, with `user` standing for the owner's row. */
  datatype ListFilter = ListFilter(
    status: Option<RequestStatus>,
    userId: Option<string>,
    departmentId: Option<string>,
    managerId: Option<string>)

  /** `getMyLeaveRequests`: the caller's own requests, optionally of one status. */
  function MyRequestsFilter(caller: Caller, status: Option<RequestStatus>): ListFilter {
    ListFilter(status, Some(caller.id), None, None)
  }

  /**
   * `getAllLeaveRequests`: filters by status, owner and owner's department; a
   * MANAGER caller is further restricted to the requests of their reports.
   */
  function AllRequestsFilter(caller: Caller, status: Option<RequestStatus>, userId: Option<string>, departmentId: Option<string>): (f: ListFilter)
    ensures caller.role == Manager ==> f.managerId == Some(caller.id)
    ensures caller.role != Manager ==> f.managerId.None?
    ensures f.departmentId == (if Truthy(departmentId) then departmentId else None)
  {
    ListFilter(status,
               if Truthy(userId) then userId else None,
               if Truthy(departmentId) then departmentId else None,
               if caller.role == Manager then Some(caller.id) else None)
  }

  /** Whether a request, whose owner row is `owner` (if any), satisfies the filter. */
  predicate Matches(f: ListFilter, request: LeaveRequest, owner: Option<User>) {
    && (f.status.Some? ==> request.status == f.status.value)
    && (f.userId.Some? ==> request.userId == f.userId.value)
    && (f.departmentId.Some? ==> owner.Some? && owner.value.departmentId == f.departmentId)
    && (f.managerId.Some? ==> owner.Some? && owner.value.managerId == f.managerId)
  }

  function OwnerOf(users: map<string, User>, request: LeaveRequest): Option<User> {
    if request.userId in users then Some(users[request.userId]) else None
  }

  /** The test picking the requests a filter keeps, each judged with its owner's row. */
  function MatchesIn(users: map<string, User>, f: ListFilter): LeaveRequest -> bool {
    (q: LeaveRequest) => Matches(f, q, OwnerOf(users, q))
  }

  /** The body of a listing: one page of requests and the `pagination` counts. */
  datatype RequestPage = RequestPage(requests: seq<LeaveRequest>, total: nat, totalPages: Option<int>)

  /**
   * One page of a listing (`getMyLeaveRequests` or `getAllLeaveRequests`):
   * `rows` is the request table in `createdAt` descending order; `None` when
   * the page's skip is negative, which the store refuses and the handler
   * answers with 500. `total` counts every matching request.
   */
  function ListRequests(db: Db, rows: seq<LeaveRequest>, f: ListFilter, page: int, limit: int): (r: Option<RequestPage>)
    reads db
    requires Lists(rows, db.leaveRequests, RequestId)
    ensures r.None? <==> Pagination.Skip(page, limit) < 0
    ensures r.Some? ==>
      var matching := Filter(rows, MatchesIn(db.users, f));
      && r.value.total == |matching|
      && r.value.requests == Pagination.Page(matching, page, limit).value
      && r.value.totalPages == Pagination.TotalPages(|matching|, limit)
  {
    var matching := Filter(rows, MatchesIn(db.users, f));
    match Pagination.Page(matching, page, limit)
    case None => None
    case Some(window) => Some(RequestPage(window, |matching|, Pagination.TotalPages(|matching|, limit)))
  }

  /** Every listed request is a stored request that the filter keeps. */
  lemma ListedRequestsMatch(db: Db, rows: seq<LeaveRequest>, f: ListFilter, page: int, limit: int, k: nat)
    requires Lists(rows, db.leaveRequests, RequestId)
    requires ListRequests(db, rows, f, page, limit).Some?
    requires k < |ListRequests(db, rows, f, page, limit).value.requests|
    ensures var q := ListRequests(db, rows, f, page, limit).value.requests[k];
      q.id in db.leaveRequests && db.leaveRequests[q.id] == q && Matches(f, q, OwnerOf(db.users, q))
  {
    var matching := Filter(rows, MatchesIn(db.users, f));
    var j := Pagination.PageElement(matching, page, limit, k);
    var q := matching[j];
    assert MatchesIn(db.users, f)(q);
    FilterSubset(rows, MatchesIn(db.users, f));
    var i :| 0 <= i < |rows| && rows[i] == q;
    assert RequestId(rows[i]) in db.leaveRequests && db.leaveRequests[RequestId(rows[i])] == rows[i];
  }

  /** The caller's own listing shows only the caller's requests. */
  lemma MyRequestsAreMine(db: Db, rows: seq<LeaveRequest>, caller: Caller, status: Option<RequestStatus>,
                          page: int, limit: int, k: nat)
    requires Lists(rows, db.leaveRequests, RequestId)
    requires ListRequests(db, rows, MyRequestsFilter(caller, status), page, limit).Some?
    requires k < |ListRequests(db, rows, MyRequestsFilter(caller, status), page, limit).value.requests|
    ensures ListRequests(db, rows, MyRequestsFilter(caller, status), page, limit).value.requests[k].userId == caller.id
  {
    ListedRequestsMatch(db, rows, MyRequestsFilter(caller, status), page, limit, k);
  }

  /** A MANAGER listing every request still sees only requests of their own reports. */
  lemma ManagerSeesOnlyReports(db: Db, rows: seq<LeaveRequest>, caller: Caller,
                               status: Option<RequestStatus>, userId: Option<string>, departmentId: Option<string>,
                               page: int, limit: int, k: nat)
    requires caller.role == Manager
    requires Lists(rows, db.leaveRequests, RequestId)
    requires ListRequests(db, rows, AllRequestsFilter(caller, status, userId, departmentId), page, limit).Some?
    requires k < |ListRequests(db, rows, AllRequestsFilter(caller, status, userId, departmentId), page, limit).value.requests|
    ensures var q := ListRequests(db, rows, AllRequestsFilter(caller, status, userId, departmentId), page, limit).value.requests[k];
      q.userId in db.users && db.users[q.userId].managerId == Some(caller.id)
  {
    ListedRequestsMatch(db, rows, AllRequestsFilter(caller, status, userId, departmentId), page, limit, k);
  }

  /** `updateLeaveRequest`: the owner may edit a PENDING request; falsy fields keep their values. */
  function ApplyUpdate(old_: LeaveRequest, body: UpdateBody): (r: LeaveRequest)
    ensures r.id == old_.id && r.userId == old_.userId && r.status == old_.status
    ensures r.leaveTypeId == (if Truthy(body.leaveTypeId) then body.leaveTypeId.value else old_.leaveTypeId)
    ensures r.startDate == body.startDate.GetOr(old_.startDate)
    ensures r.endDate == body.endDate.GetOr(old_.endDate)
    ensures r.totalDays == (if body.totalDays.Some? && body.totalDays.value != 0 then body.totalDays.value else old_.totalDays)
    ensures r.reason == (if Truthy(body.reason) then body.reason.value else old_.reason)
    ensures r.attachment == (if body.attachment.Some? then body.attachment.value else old_.attachment)
  {
    old_.(
      leaveTypeId := OrElse(body.leaveTypeId, Some(old_.leaveTypeId)).value,
      startDate := body.startDate.GetOr(old_.startDate),
      endDate := body.endDate.GetOr(old_.endDate),
      totalDays := if body.totalDays.Some? && body.totalDays.value != 0 then body.totalDays.value else old_.totalDays,
      reason := OrElse(body.reason, Some(old_.reason)).value,
      attachment := body.attachment.GetOr(old_.attachment))
  }

  /** An edit whose every field is falsy or absent changes nothing. */
  lemma EmptyUpdateIsIdentity(request: LeaveRequest)
    ensures ApplyUpdate(request, UpdateBody(None, None, None, None, None, None)) == request
  {
  }

  method UpdateLeaveRequest(db: Db, caller: Caller, id: string, body: UpdateBody)
    returns (r: Reply<LeaveRequest>)
    requires db.Consistent()
    modifies db
    ensures db.Consistent()
    ensures db.users == old(db.users) && db.leaveTypes == old(db.leaveTypes) && db.departments == old(db.departments)
    ensures db.approvals == old(db.approvals) && db.notifications == old(db.notifications)
    ensures id !in old(db.leaveRequests) ==> r == Failure(404, "Leave request not found")
    ensures id in old(db.leaveRequests) && old(db.leaveRequests)[id].userId != caller.id ==>
      r == Failure(403, "Access denied")
    ensures id in old(db.leaveRequests) && old(db.leaveRequests)[id].userId == caller.id &&
            old(db.leaveRequests)[id].status != Pending ==>
      r == Failure(400, "Cannot update non-pending requests")
    ensures id in old(db.leaveRequests) && old(db.leaveRequests)[id].userId == caller.id &&
            old(db.leaveRequests)[id].status == Pending &&
            ApplyUpdate(old(db.leaveRequests)[id], body).leaveTypeId !in db.leaveTypes ==>
      r == Failure(500, "Error updating leave request")
    ensures r.Failure? ==> db.leaveRequests == old(db.leaveRequests)
    ensures r.Success? <==>
      && id in old(db.leaveRequests)
      && old(db.leaveRequests)[id].userId == caller.id
      && old(db.leaveRequests)[id].status == Pending
      && ApplyUpdate(old(db.leaveRequests)[id], body).leaveTypeId in old(db.leaveTypes)
    ensures r.Success? ==>
      && id in old(db.leaveRequests)
      && r.httpStatus == 200
      && r.body == ApplyUpdate(old(db.leaveRequests)[id], body)
      && db.leaveRequests == old(db.leaveRequests)[id := r.body]
  {
    if id !in db.leaveRequests {
      return Failure(404, "Leave request not found");
    }
    var request := db.leaveRequests[id];
    if request.userId != caller.id {
      return Failure(403, "Access denied");
    }
    if request.status != Pending {
      return Failure(400, "Cannot update non-pending requests");
    }
    var updated := ApplyUpdate(request, body);
    if updated.leaveTypeId !in db.leaveTypes {
      // the new leave type violates the foreign key and the handler reports the failure
      return Failure(500, "Error updating leave request");
    }
    db.leaveRequests := db.leaveRequests[id := updated];
    r := Success(200, updated);
  }

  /** `cancelLeaveRequest`: the owner may cancel a request whatever its status. */
  method CancelLeaveRequest(db: Db, caller: Caller, id: string)
    returns (r: Reply<LeaveRequest>)
    requires db.Consistent()
    modifies db
    ensures db.Consistent()
    ensures db.users == old(db.users) && db.leaveTypes == old(db.leaveTypes) && db.departments == old(db.departments)
    ensures db.approvals == old(db.approvals) && db.notifications == old(db.notifications)
    ensures id !in old(db.leaveRequests) ==> r == Failure(404, "Leave request not found")
    ensures id in old(db.leaveRequests) && old(db.leaveRequests)[id].userId != caller.id ==>
      r == Failure(403, "Access denied")
    ensures r.Failure? ==> db.leaveRequests == old(db.leaveRequests)
    ensures r.Success? <==> id in old(db.leaveRequests) && old(db.leaveRequests)[id].userId == caller.id
    ensures r.Success? ==>
      && r == Success(200, old(db.leaveRequests)[id].(status := Cancelled))
      && db.leaveRequests == old(db.leaveRequests)[id := r.body]
  {
    if id !in db.leaveRequests {
      return Failure(404, "Leave request not found");
    }
    var request := db.leaveRequests[id];
    if request.userId != caller.id {
      return Failure(403, "Access denied");
    }
    var updated := request.(status := Cancelled);
    db.leaveRequests := db.leaveRequests[id := updated];
    r := Success(200, updated);
  }

  /**
   * The common tail of approve and reject: set the decided status, append one
   * approval by the caller and one notification to the owner.
   */
  method Decide(db: Db, caller: Caller, id: string, decision: RequestStatus, comments: Option<string>,
                title: string, message: string)
    returns (r: Reply<LeaveRequest>)
    requires db.Consistent()
    requires decision == Approved || decision == Rejected
    requires id in db.leaveRequests && db.leaveRequests[id].status == Pending
    modifies db
    ensures db.Consistent()
    ensures db.users == old(db.users) && db.leaveTypes == old(db.leaveTypes) && db.departments == old(db.departments)
    ensures r == Success(200, old(db.leaveRequests)[id].(status := decision))
    ensures db.leaveRequests == old(db.leaveRequests)[id := r.body]
    ensures db.approvals == old(db.approvals) + [Approval(id, caller.id, decision, comments)]
    ensures db.notifications == old(db.notifications) + [Notification(old(db.leaveRequests)[id].userId, title, message, Link(id))]
  {
    var request := db.leaveRequests[id];
    var updated := request.(status := decision);
    db.RecordDecision(id, caller.id, decision, comments);
    db.Notify(Notification(request.userId, title, message, Link(id)));
    r := Success(200, updated);
  }

  /** `approveLeaveRequest`: only a PENDING request can be approved. */
  method ApproveLeaveRequest(db: Db, caller: Caller, id: string, comments: Option<string>)
    returns (r: Reply<LeaveRequest>)
    requires db.Consistent()
    modifies db
    ensures db.Consistent()
    ensures db.users == old(db.users) && db.leaveTypes == old(db.leaveTypes) && db.departments == old(db.departments)
    ensures id !in old(db.leaveRequests) ==> r == Failure(404, "Leave request not found")
    ensures id in old(db.leaveRequests) && old(db.leaveRequests)[id].status != Pending ==>
      r == Failure(400, "This request has already been processed")
    ensures r.Failure? ==> unchanged(db)
    ensures r.Success? <==> id in old(db.leaveRequests) && old(db.leaveRequests)[id].status == Pending
    ensures r.Success? ==>
      && r == Success(200, old(db.leaveRequests)[id].(status := Approved))
      && db.leaveRequests == old(db.leaveRequests)[id := r.body]
      && db.approvals == old(db.approvals) + [Approval(id, caller.id, Approved, if Truthy(comments) then comments else None)]
      && db.notifications == old(db.notifications) +
           [Notification(old(db.leaveRequests)[id].userId, "Leave Request Approved",
                         "Your leave request has been approved", Link(id))]
  {
    if id !in db.leaveRequests {
      return Failure(404, "Leave request not found");
    }
    if db.leaveRequests[id].status != Pending {
      return Failure(400, "This request has already been processed");
    }
    r := Decide(db, caller, id, Approved, OrElse(comments, None),
                "Leave Request Approved", "Your leave request has been approved");
  }

  /** `rejectLeaveRequest`: a comment is required, checked before the request is looked up. */
  method RejectLeaveRequest(db: Db, caller: Caller, id: string, comments: Option<string>)
    returns (r: Reply<LeaveRequest>)
    requires db.Consistent()
    modifies db
    ensures db.Consistent()
    ensures db.users == old(db.users) && db.leaveTypes == old(db.leaveTypes) && db.departments == old(db.departments)
    ensures !Truthy(comments) ==> r == Failure(400, "Comments are required for rejection")
    ensures Truthy(comments) && id !in old(db.leaveRequests) ==> r == Failure(404, "Leave request not found")
    ensures Truthy(comments) && id in old(db.leaveRequests) && old(db.leaveRequests)[id].status != Pending ==>
      r == Failure(400, "This request has already been processed")
    ensures r.Failure? ==> unchanged(db)
    ensures r.Success? <==> Truthy(comments) && id in old(db.leaveRequests) && old(db.leaveRequests)[id].status == Pending
    ensures r.Success? ==>
      && r == Success(200, old(db.leaveRequests)[id].(status := Rejected))
      && db.leaveRequests == old(db.leaveRequests)[id := r.body]
      && db.approvals == old(db.approvals) + [Approval(id, caller.id, Rejected, comments)]
      && db.notifications == old(db.notifications) +
           [Notification(old(db.leaveRequests)[id].userId, "Leave Request Rejected",
                         "Your leave request has been rejected. Reason: " + comments.value, Link(id))]
  {
    if !Truthy(comments) {
      return Failure(400, "Comments are required for rejection");
    }
    if id !in db.leaveRequests {
      return Failure(404, "Leave request not found");
    }
    if db.leaveRequests[id].status != Pending {
      return Failure(400, "This request has already been processed");
    }
    r := Decide(db, caller, id, Rejected, comments,
                "Leave Request Rejected", "Your leave request has been rejected. Reason: " + comments.value);
  }
}
