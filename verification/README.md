# Leave management system — a verified model

This project models the core of a leave-management web application. Employees
file leave requests. Managers, HR and administrators approve or reject them.
Staff are managed and leave reports are produced.

The model covers three parts of the application:

- **The backend controllers.** These are the leave-request, user and report
  controllers, over an in-memory picture of the relational store
  (`Database.Db`), plus the Express error middleware.
- **The in-memory mock server.** This is a stand-alone backend that keeps its
  data in module-level lists. It is modelled as the class
  `MockServer.MockStore`, whose methods change those lists in place. The
  functions in `MockData` specify the store's handlers. They cover the user
  directory, which overlays demo accounts, the bulk import, the leave balance
  and the statistics.
- **The pure logic of the frontend pages.** These are:
  - the leave form's day count and attachment list;
  - the staff page's spreadsheet import, search and edit body;
  - the holiday page's search, date sort and per-year sections;
  - the attendance overview and history pages;
  - the dashboard totals and the QR countdown;
  - the sidebar, route guard and router;
  - the profile's password dialog;
  - the approval page's actions.

The generic modules hold helpers with JavaScript meaning:

- `Collections`: `filter`, `map`, sums and `findIndex`.
- `Text`: case mapping, `includes`, `trim`, `parseInt` and `String(n)`.
- `Pagination`: `skip`/`take` and `Math.ceil`.
- `Grouping`: objects used as dictionaries of `{count, totalDays}` tallies.

Where the code disagrees with the written design, the model follows the code.
Four cases:

- The leave balance that the dashboard and profile read has the array shape
  of the in-memory server. The relational controller returns
  `{annualLeave, sickLeave}` instead, and that is modelled separately
  (`UserController.GetLeaveBalance`).
- A MANAGER listing every leave request is restricted to the requests of
  their direct reports.
- Cancelling a request does not require it to be PENDING.
- The remaining leave days are not clamped at zero.

## Model

| member | source | states |
|---|---|---|
| ErrorHandler.StatusOrDefault | backend/src/middlewares/errorHandler.ts:19 | a missing or zero status code becomes 500, any other is kept |
| ErrorHandler.AppError | backend/src/middlewares/errorHandler.ts:3-11 | an AppError carries exactly the status, message and stack it was built with, and no Prisma code |
| ErrorHandler.HandleError | backend/src/middlewares/errorHandler.ts:13-40 | P2002 answers 400 "Duplicate entry…", P2025 answers 404 "Record not found.", otherwise the error's status (or 500) and message (or the default); the stack is sent exactly in development and only the error's own |
| ErrorHandler.PrismaCodeOverridesStatus | backend/src/middlewares/errorHandler.ts:19-31 | a recognised Prisma code fixes the status (400 or 404) whatever status code the error carries |
| ErrorHandler.AppErrorKeepsStatus | backend/src/middlewares/errorHandler.ts:3-20 | an AppError is answered with the status and message it was built with |
| ErrorHandler.NoStackOutsideDevelopment | backend/src/middlewares/errorHandler.ts:38 | outside development no response carries a stack |
| Database.Db.InsertRequest | backend/src/controllers/leaveRequest.controller.ts:27-48 | storing a new request whose owner and type exist adds exactly that row and keeps the tables consistent |
| Database.Db.RecordDecision | backend/src/controllers/leaveRequest.controller.ts:365-381 | deciding a pending request sets its status and appends one approval record; the history stays consistent (each request decided at most once) |
| Database.Db.Notify | backend/src/controllers/leaveRequest.controller.ts:55-64 | a notification is appended and nothing else changes |
| LeaveRequestController.NextStatus | backend/src/controllers/leaveRequest.controller.ts:283-284 | cancel always yields CANCELLED; edit, approve and reject succeed exactly on a PENDING request, edit keeping it PENDING, approve giving APPROVED, reject REJECTED |
| LeaveRequestController.NoReturnToPending | backend/src/controllers/leaveRequest.controller.ts:266-463 | no handler moves a request back into PENDING |
| LeaveRequestController.CreateLeaveRequest | backend/src/controllers/leaveRequest.controller.ts:5-74 | 400 when the start is after the end or the type is missing or inactive, 500 when the caller's row is gone (nothing changes on failure); otherwise a PENDING request is stored and returned with 201, and the caller's manager, if any, is notified |
| LeaveRequestController.IsPrivileged | backend/src/controllers/leaveRequest.controller.ts:253-257 | every role except EMPLOYEE may read any request |
| LeaveRequestController.GetLeaveRequestById | backend/src/controllers/leaveRequest.controller.ts:209-264 | 404 exactly for an unknown id; 403 exactly when an EMPLOYEE reads someone else's request; success exactly when the request exists and the caller owns it or is not an EMPLOYEE, and then the answer is the stored row |
| LeaveRequestController.AllRequestsFilter | backend/src/controllers/leaveRequest.controller.ts:128-155 | a MANAGER caller is restricted to their reports, no other role is; the department filter applies only when truthy |
| LeaveRequestController.ListRequests | backend/src/controllers/leaveRequest.controller.ts:76-207 | refused (500) exactly for a negative skip; otherwise `total` is the number of stored requests matching the filter, the requests are the `Pagination.Page` window of the matching requests in listing order, and `totalPages` is `Math.ceil(total / limit)` |
| LeaveRequestController.ListedRequestsMatch | backend/src/controllers/leaveRequest.controller.ts:80-92 | every listed request is a stored row that satisfies the filter |
| LeaveRequestController.MyRequestsAreMine | backend/src/controllers/leaveRequest.controller.ts:76-92 | the caller's own listing holds only requests whose owner is the caller |
| LeaveRequestController.ManagerSeesOnlyReports | backend/src/controllers/leaveRequest.controller.ts:149-160 | whatever the query and page, each request a MANAGER lists is stored and belongs to a user whose manager is that caller |
| LeaveRequestController.ApplyUpdate | backend/src/controllers/leaveRequest.controller.ts:287-300 | id, owner and status are kept; each truthy field of the body replaces the stored one, falsy fields keep it, and an explicit attachment (even null) replaces it |
| LeaveRequestController.EmptyUpdateIsIdentity | backend/src/controllers/leaveRequest.controller.ts:287-300 | an edit with every field falsy leaves the request unchanged |
| LeaveRequestController.UpdateLeaveRequest | backend/src/controllers/leaveRequest.controller.ts:266-310 | 404 for an unknown id, 403 for another user's request, 400 for a request no longer PENDING, 500 when the merged leave type does not exist; success exactly when none of these applies, and then the row becomes the merged request and nothing else changes |
| LeaveRequestController.CancelLeaveRequest | backend/src/controllers/leaveRequest.controller.ts:312-343 | 404 for an unknown id, 403 for another user's request; the owner's cancel succeeds in any status and sets CANCELLED |
| LeaveRequestController.Decide | backend/src/controllers/leaveRequest.controller.ts:365-391 | the request takes the decision, one approval by the caller and one notification to the owner are appended |
| LeaveRequestController.ApproveLeaveRequest | backend/src/controllers/leaveRequest.controller.ts:345-401 | success exactly for an existing PENDING request (404 unknown, 400 processed, store unchanged on failure); then APPROVED with its approval and notification |
| LeaveRequestController.RejectLeaveRequest | backend/src/controllers/leaveRequest.controller.ts:403-463 | 400 without a truthy comment before any lookup; otherwise as approve, with REJECTED |
| UserController.GetUserById | backend/src/controllers/user.controller.ts:225-266 | 404 exactly for an unknown id; otherwise the row without its password |
| UserController.GetProfile | backend/src/controllers/user.controller.ts:6-46 | the caller's own row without its password, 404 when it is gone |
| UserController.UsedDaysStep | backend/src/controllers/user.controller.ts:114-138 | one more request adds its days to its own code's usage exactly when it is the caller's, APPROVED and in the year, and changes no other code's usage |
| UserController.OtherCodesIgnored | backend/src/controllers/user.controller.ts:133-138 | a request of a code other than ANNUAL and SICK changes neither balance |
| UserController.GetLeaveBalance | backend/src/controllers/user.controller.ts:99-156 | 404 for a missing caller; otherwise the annual and sick totals are the quotas, used the sums over the counting requests, remaining the difference |
| UserController.ApplyUserUpdate | backend/src/controllers/user.controller.ts:282-291 | each key that is not undefined overwrites its column, the others and the id, email and password are kept |
| UserController.ApplyUserUpdateIdempotent | backend/src/controllers/user.controller.ts:282-291 | sending the same edit twice equals sending it once |
| UserController.EmptyUserUpdateIsIdentity | backend/src/controllers/user.controller.ts:282-291 | an edit with every key undefined leaves the row as it was |
| UserController.UpdateUser | backend/src/controllers/user.controller.ts:268-320 | 500 with nothing changed exactly for an unknown id or a department or manager id that names no row; otherwise the row becomes the merged row, only the users table changes and every user's links stay valid |
| UserController.ApplyProfileUpdate | backend/src/controllers/user.controller.ts:52-58 | truthy fields overwrite, falsy ones keep; the password hash changes only to a supplied new hash |
| UserController.UpdateProfile | backend/src/controllers/user.controller.ts:48-97 | a password change needs both passwords; 404 for a missing caller, 400 when the current password does not verify (nothing changes); otherwise the profile update is stored |
| UserController.GetAllUsers | backend/src/controllers/user.controller.ts:158-223 | refused (500) exactly for a negative skip; otherwise `total` is the number of stored users matching the query, the users are the password-free views of the `Pagination.Page` window of the matching users, and `totalPages` is `Math.ceil(total / limit)` |
| UserController.ShownUsersMatch | backend/src/controllers/user.controller.ts:162-206 | every listed user is the view of a stored user that matches the search, department and role |
| UserController.UnfilteredListingCountsEveryone | backend/src/controllers/user.controller.ts:162-177 | with no search, department or role the total is the number of users |
| ReportController.TypeEntriesStep | backend/src/controllers/report.controller.ts:61-68 | one more request appends exactly its type entry |
| ReportController.DepartmentEntriesStep | backend/src/controllers/report.controller.ts:70-78 | one more request appends its department entry exactly when its owner has a department |
| ReportController.GetLeaveStatistics | backend/src/controllers/report.controller.ts:5-86 | the total and day sum are over the selected (APPROVED, filtered) requests, and the per-type and per-department tallies group them |
| ReportController.StatisticsAddUp | backend/src/controllers/report.controller.ts:55-78 | per-type counts sum to the total and per-type days to the day total; per-department counts sum to at most the total |
| ReportController.AddToReport | backend/src/controllers/report.controller.ts:125-144 | a user already in the report keeps the list of users; a new user is appended at the end |
| ReportController.AddToReportKeepsTotals | backend/src/controllers/report.controller.ts:125-144 | adding a request keeps every slot's total equal to the sum of its per-type days |
| ReportController.ReportAllWellFormed | backend/src/controllers/report.controller.ts:123-144 | the report lists each user once and each total is the sum of that user's per-type days |
| ReportController.ReportEntriesStep | backend/src/controllers/report.controller.ts:125-144 | one more request adds exactly its entry to the report |
| ReportController.GetDepartmentReport | backend/src/controllers/report.controller.ts:88-149 | given the request table, the `forEach` over the APPROVED requests of the year (and of the department when one is given) returns, in order of first appearance, one entry per user with that user's total and per-type days, the report `ReportAll` of which `DepartmentReportLookup` states the figures |
| ReportController.AddToReportSlot | backend/src/controllers/report.controller.ts:125-144 | adding an entry changes only its own user's slot, which is created or credited with the entry's days |
| ReportController.SlotOfListed | backend/src/controllers/report.controller.ts:123-146 | in a report listing each user once, a listed user's slot is their own |
| ReportController.ReportOfIsReportAll | backend/src/controllers/report.controller.ts:125-144 | the report built request by request is the report of all the entries |
| ReportController.ReportSlot | backend/src/controllers/report.controller.ts:125-144 | a user has a slot exactly when some selected request is theirs, and its total is the sum of their requests' days |
| ReportController.ReportSlotByType | backend/src/controllers/report.controller.ts:125-144 | within a user's slot, each type name counts exactly that user's requests of the type and sums exactly their days; the model's slot also keeps a per-type `count`, which the source's `leavesByType` (a number per type name) does not have and which `Present` drops from the response |
| ReportController.DepartmentReportLookup | backend/src/controllers/report.controller.ts:88-149 | for each user in the report: they own a selected request, totalLeaves is the sum of their days, and each per-type tally counts and sums exactly their requests of that type |
| ReportController.DepartmentReportTotals | backend/src/controllers/report.controller.ts:123-146 | in the returned report each user appears once and totalLeaves is the sum of leavesByType |
| Grouping.Keys | backend/src/controllers/report.controller.ts:61-78 | one key per slot, in order |
| Grouping.LookupFound | backend/src/controllers/report.controller.ts:61-78 | an inserted key is read from its slot, any other as a zero tally |
| Grouping.Add | backend/src/controllers/report.controller.ts:62-67 | a new key is appended as one slot; the key's slot gains one count and the days |
| Grouping.AddSums | backend/src/controllers/report.controller.ts:62-67 | the summed counts grow by one and the summed days by the element's days |
| Grouping.AddLookup | backend/src/controllers/report.controller.ts:62-67 | only the slot of the added key changes |
| Grouping.GroupAllDistinct | backend/src/controllers/report.controller.ts:61-78 | every key is listed once |
| Grouping.GroupAllKeys | backend/src/controllers/report.controller.ts:61-78 | the listed keys are exactly the keys of the elements |
| Grouping.GroupAllSums | backend/src/controllers/report.controller.ts:55-78 | the counts sum to the number of elements and the days to their day sum |
| Grouping.GroupAllSnoc | backend/src/controllers/report.controller.ts:61-78 | tallying one more element moves only its own key's slot |
| Grouping.KeyedSnoc | backend/src/controllers/report.controller.ts:61-78 | the elements keyed `k` gain at most the one element added |
| Grouping.GroupAllLookup | backend/src/controllers/report.controller.ts:61-78 | the slot of a key counts exactly the elements with that key and sums exactly their days |
| Pagination.CeilDiv | backend/src/controllers/user.controller.ts:216 | the ceiling of the quotient, for either sign of the divisor |
| Pagination.TotalPages | backend/src/controllers/user.controller.ts:216 | no page count for a zero limit; for a positive limit the pages cover the total and one fewer would not |
| Pagination.TotalPagesIsLeast | backend/src/controllers/leaveRequest.controller.ts:200 | no smaller page count covers the total |
| Pagination.Page | backend/src/controllers/user.controller.ts:179-183 | refused exactly for a negative skip; for a non-negative `limit` the slice of `limit` rows starting at the skip (cut at the end); for a negative `limit` the slice of `-limit` rows ending `skip` rows before the end |
| Pagination.Window | backend/src/controllers/user.controller.ts:179-183 | the rows a non-negative skip and a take select: for a non-negative take the slice starting at the skip, for a negative one the slice ending `skip` rows before the end |
| Pagination.TakeFromEnd | backend/src/controllers/user.controller.ts:181-182 | a negative take, read backwards from the end, is the slice that ends `skip` rows before the end |
| Pagination.FromTheEnd | backend/src/controllers/user.controller.ts:181-182 | reversing, skipping, taking and reversing back is the slice that ends `skip` rows before the end |
| Pagination.PageElement | backend/src/controllers/leaveRequest.controller.ts:158-159 | every row on a page is a row of the list |
| Pagination.PagesArePrefix | backend/src/controllers/leaveRequest.controller.ts:158-159 | pages 1 to n, one after the other, are the first n·limit rows: no gaps and no repeats |
| Pagination.EveryRowOnOnePage | backend/src/controllers/leaveRequest.controller.ts:158-200 | with a positive limit, pages 1 to `totalPages` list every row exactly once, in order |
| MockData.DemoAccountsShape | backend/src/mock-server.ts:84-125 | the five demo accounts have distinct ids "1" to "5" and are all accounts |
| MockData.FindById | backend/src/mock-server.ts:366 | found exactly when some entry has the id, and then an entry with that id |
| MockData.FindDepartment | backend/src/mock-server.ts:385 | a department with the id when one exists, none exactly when no department has it |
| MockData.MapSet | backend/src/mock-server.ts:305-316 | a new key is appended; an existing key leaves the list of keys as it was |
| MockData.MapSetReplaces | backend/src/mock-server.ts:305-316 | setting a key whose first entry is at position j replaces the value at j and changes nothing else |
| MockData.SetAllDistinct | backend/src/mock-server.ts:305-307 | setting the entries of a list without repeated ids into an empty map gives that list |
| MockData.SetAbsentStep | backend/src/mock-server.ts:310-314 | one more demo account is added exactly when its id has no entry yet |
| MockData.UserMapShape | backend/src/mock-server.ts:299-314 | without repeated ids the map holds the dynamic entries in order, then the demo accounts they do not override |
| MockData.FindByIdUnique | backend/src/mock-server.ts:362-366 | in a list without repeated ids the entry found by id is the only one with it |
| MockData.Project | backend/src/mock-server.ts:320-329 | the listing keeps id, email, name, role, department id and phone and drops the password; a missing department is filled in from the department with that id when there is one |
| MockData.OverlaySound | backend/src/mock-server.ts:297-333 | every listed user comes from the dynamic entry with its id, or else from a demo account |
| MockData.OverlayComplete | backend/src/mock-server.ts:297-333 | an account in the dynamic list, or a demo account it does not override, is listed |
| MockData.DirectoryEntries | backend/src/mock-server.ts:297-333 | a user is listed exactly when the dynamic list holds an account with the id, or holds nothing with it and it is a demo id; a stored entry shadows the demo account |
| MockData.ImportAccounting | backend/src/mock-server.ts:438-491 | every row is counted once as a success or an error, accepted rows are appended after the stored users, and no email is stored twice |
| MockData.ImportIdInjective | backend/src/mock-server.ts:466 | different row indexes give different ids |
| MockData.ImportIdsFresh | backend/src/mock-server.ts:465-475 | when no stored id starts with the batch timestamp and a dash, the ids stay pairwise different |
| MockData.ImportDefaults | backend/src/mock-server.ts:469-470 | an accepted row without password or role gets '123456' and EMPLOYEE |
| MockData.ActiveTypes | backend/src/mock-server.ts:269 | exactly the active types |
| MockData.BalanceOf | backend/src/mock-server.ts:288-293 | the line's total is the type's default days (an integer), used the approved days of that type name, remaining the difference |
| MockData.LeaveBalance | backend/src/mock-server.ts:288-293 | one balance line per active type, in order |
| MockData.UsedOfStep | backend/src/mock-server.ts:277-283 | one more request adds its parsed days to its own type name's usage when APPROVED, and to no other |
| MockData.UnapprovedNotUsed | backend/src/mock-server.ts:265 | a request that is not APPROVED changes no balance |
| MockData.NothingApprovedNothingUsed | backend/src/mock-server.ts:263-294 | without an APPROVED request every remaining count is the full allowance |
| MockData.SumDaysAsWrittenConcatenates | backend/src/mock-server.ts:701 | the day total as written concatenates: requests for "3" and "2" days give "032" |
| MockData.SumDaysOfRenderedCounts | backend/src/mock-server.ts:701 | the corrected total is the sum of the counts the form rendered |
| MockData.StatusCountsPartition | backend/src/mock-server.ts:697-700 | without CANCELLED requests the pending, approved and rejected counts add up to the total |
| MockData.Statistics | backend/src/mock-server.ts:696-731 | the total is the number of requests and the day total their sum; the per-type and per-department lists hold exactly the tallies of the listed types and departments that have a request |
| MockData.StatisticsDropEmpty | backend/src/mock-server.ts:703-719 | every tally the statistics list has a positive count |
| MockData.NoDepartmentsNoTallies | backend/src/mock-server.ts:709-713 | when no owner carries a department, the per-department list is empty |
| MockServer.MockAuth | backend/src/mock-server.ts:48-62 | a falsy token is refused, any other token authenticates as the test administrator |
| MockServer.ReplaceBearerEmpty | backend/src/mock-server.ts:49 | removing the first "Bearer " leaves nothing exactly for "" and "Bearer " |
| MockServer.AuthenticatedIff | backend/src/mock-server.ts:48-62 | a request is authenticated exactly when it carries a header other than "" and "Bearer " |
| MockServer.CheckRole | backend/src/mock-server.ts:64-78 | 401 without a user, 403 for a role outside the list, pass otherwise |
| MockServer.GateNeverForbids | backend/src/mock-server.ts:48-78 | behind the token check the role gate never answers 403 |
| MockServer.MergeUser | backend/src/mock-server.ts:375-395 | the body's fields overwrite except id and email; the department is cleared for a falsy id, looked up when set, kept when the lookup fails; a deletion marker stays as it is |
| MockServer.DemoCopy | backend/src/mock-server.ts:366-369 | for a demo id, the copied account carries that id |
| MockServer.WithDemoCopy | backend/src/mock-server.ts:362-372 | the id is present afterwards exactly when it was stored or is a demo id; the list only grows at its end and no other id appears |
| MockServer.WithoutPassword | backend/src/mock-server.ts:399 | the same id and kind of entry, with no password |
| MockServer.WithoutUser | backend/src/mock-server.ts:414 | exactly the entries whose id differs |
| MockServer.WithoutUserDistinct | backend/src/mock-server.ts:414 | removing entries keeps the ids distinct |
| MockServer.FindAfterRemoval | backend/src/mock-server.ts:414 | another id is present after the removal exactly when it was before, and its entry is unchanged |
| MockServer.ListedIffShown | backend/src/mock-server.ts:297-333 | the listing shows a user exactly as read off the dynamic list |
| MockServer.DeleteShown | backend/src/mock-server.ts:408-429 | after a delete the id is not shown and every other id is shown as before |
| MockServer.DeleteHidesUser | backend/src/mock-server.ts:408-429 | after a delete the user is no longer listed (stored entry, demo account or both), and every other user as before |
| MockServer.DemoCopyDistinct | backend/src/mock-server.ts:362-373 | copying in a demo account keeps the ids distinct |
| MockServer.UpdateShown | backend/src/mock-server.ts:358-406 | after an update the updated user is shown exactly when its entry is an account; every other user is shown as before |
| MockServer.UpdateKeepsOthers | backend/src/mock-server.ts:358-406 | an update leaves the entry found for every other id as it was |
| MockServer.UpdateShowsMerged | backend/src/mock-server.ts:358-406 | after an update the ids stay distinct and the updated user is listed as the merged entry |
| MockServer.AttachmentOf | backend/src/mock-server.ts:506-512 | the path is '/uploads/' and the stored file name; name and size are kept |
| MockServer.NewRequest | backend/src/mock-server.ts:514-522 | PENDING without approvals, the fixed requester and annual type, the form's type and day count, one attachment per uploaded file |
| MockServer.RequestIds | backend/src/mock-server.ts:531-546 | one id per request, in order |
| MockServer.Decided | backend/src/mock-server.ts:553-560 | the request takes the status and a single approval by the caller, a falsy comment stored as ''; nothing else changes |
| MockServer.WithStatus | backend/src/mock-server.ts:587-591 | all requests for a falsy status or 'ALL', otherwise exactly those with that status |
| MockServer.WithoutRequest | backend/src/mock-server.ts:543 | exactly the requests with another id |
| MockServer.WithoutRequestKeeps | backend/src/mock-server.ts:543 | removal keeps the ids distinct and every request well formed |
| MockServer.ChangePassword | backend/src/mock-server.ts:248-261 | 400 when either password is missing, 400 for a new password shorter than six, success otherwise |
| MockServer.PatchLeaveType | backend/src/mock-server.ts:613-622 | each field the body carries replaces the stored one, the others are kept |
| MockServer.PatchLeaveTypeIdempotent | backend/src/mock-server.ts:613-622 | merging the same body twice equals merging it once |
| MockServer.PatchDepartment | backend/src/mock-server.ts:646-655 | each field the body carries replaces the stored one |
| MockServer.PatchHoliday | backend/src/mock-server.ts:678-687 | each field the body carries replaces the stored one |
| MockServer.TypeIds | backend/src/mock-server.ts:613-628 | one id per leave type, in order |
| MockServer.DepartmentIds | backend/src/mock-server.ts:646-661 | one id per department, in order |
| MockServer.HolidayIds | backend/src/mock-server.ts:678-693 | one id per holiday, in order |
| MockServer.WithoutType | backend/src/mock-server.ts:624-628 | exactly the types with another id |
| MockServer.WithoutDepartment | backend/src/mock-server.ts:657-661 | exactly the departments with another id |
| MockServer.WithoutHoliday | backend/src/mock-server.ts:689-693 | exactly the holidays with another id |
| MockServer.AccumulateStep | backend/src/mock-server.ts:277-283 | one iteration of the usage loop keeps every tallied name's total equal to `MockData.UsedOf` |
| MockServer.MockStore.constructor | backend/src/mock-server.ts:81-144 | the store starts with no dynamic users or requests and the seed departments, types and holidays |
| MockServer.MockStore.ListUsers | backend/src/mock-server.ts:297-333 | the listing is the directory of the dynamic list and shows a user exactly as `Shown` says |
| MockServer.MockStore.UpdateUser | backend/src/mock-server.ts:358-406 | 404 exactly for an id neither stored nor demo, with nothing changed; otherwise the merged entry is stored and returned without its password |
| MockServer.MockStore.WorkingIndex | backend/src/mock-server.ts:362-374 | the list gets the demo copy when needed; the index is the id's position, -1 exactly when the id is unknown |
| MockServer.MockStore.DeleteUser | backend/src/mock-server.ts:408-429 | every entry with the id is removed, a demo id leaves a deletion marker |
| MockServer.MockStore.BulkImport | backend/src/mock-server.ts:431-493 | 400 for a missing or empty list; otherwise the users and the summary are the import of the rows |
| MockServer.MockStore.CreateLeaveRequest | backend/src/mock-server.ts:502-529 | the new PENDING request is appended and returned with 201 |
| MockServer.MockStore.GetLeaveRequest | backend/src/mock-server.ts:531-539 | found exactly for a stored id, the request with that id; 404 otherwise |
| MockServer.MockStore.DeleteLeaveRequest | backend/src/mock-server.ts:541-546 | every request with the id is removed, and a later lookup answers 404 |
| MockServer.MockStore.Decide | backend/src/mock-server.ts:548-584 | 404 exactly for an unknown id; otherwise that request is replaced by its decided form |
| MockServer.MockStore.ApproveLeaveRequest | backend/src/mock-server.ts:548-565 | as Decide with APPROVED, whatever the current status |
| MockServer.MockStore.RejectLeaveRequest | backend/src/mock-server.ts:567-584 | as Decide with REJECTED, whatever the current status |
| MockServer.MockStore.ListLeaveRequests | backend/src/mock-server.ts:586-597 | a falsy status or 'ALL' lists every stored request; any other status lists, in stored order, exactly the stored requests with that status name |
| MockServer.MockStore.GetLeaveBalance | backend/src/mock-server.ts:263-294 | the loops compute `MockData.LeaveBalance` of the stored requests and types |
| MockServer.MockStore.UsedDays | backend/src/mock-server.ts:271-284 | every active type name is tallied and every tally is that name's approved days |
| MockServer.MockStore.BalanceLines | backend/src/mock-server.ts:287-292 | one line per active type, each `MockData.BalanceOf` that type |
| MockServer.MockStore.GetStatistics | backend/src/mock-server.ts:696-731 | `MockData.Statistics` of the stored lists; the status counts add up to the total and the per-department list is empty |
| MockServer.MockStore.UpdateLeaveType | backend/src/mock-server.ts:613-622 | 404 exactly for an unknown id; otherwise the first type with the id takes the body's fields |
| MockServer.MockStore.DeleteLeaveType | backend/src/mock-server.ts:624-628 | every type with the id is removed |
| MockServer.MockStore.UpdateDepartment | backend/src/mock-server.ts:646-655 | 404 exactly for an unknown id; otherwise the first department with the id takes the body's fields |
| MockServer.MockStore.DeleteDepartment | backend/src/mock-server.ts:657-661 | every department with the id is removed |
| MockServer.MockStore.UpdateHoliday | backend/src/mock-server.ts:678-687 | 404 exactly for an unknown id; otherwise the first holiday with the id takes the body's fields |
| MockServer.MockStore.DeleteHoliday | backend/src/mock-server.ts:689-693 | every holiday with the id is removed |
| LeaveForm.DayCount | frontend/src/pages/leave/CreateLeaveRequest.tsx:34-41 | 0 when a date is empty; otherwise the whole days between the dates, rounded up, plus one |
| LeaveForm.DayCountSymmetric | frontend/src/pages/leave/CreateLeaveRequest.tsx:37-39 | swapping the dates does not change the count |
| LeaveForm.SameDayIsOneDay | frontend/src/pages/leave/CreateLeaveRequest.tsx:37-39 | a leave from a day to the same day counts one day |
| LeaveForm.WholeDaysInclusive | frontend/src/pages/leave/CreateLeaveRequest.tsx:37-39 | dates d whole days apart count d + 1 days |
| LeaveForm.AddFiles | frontend/src/pages/leave/CreateLeaveRequest.tsx:43-57 | the files of at most 5 MB are appended after the current ones; nothing changes without a file list |
| LeaveForm.AddedFilesInOrder | frontend/src/pages/leave/CreateLeaveRequest.tsx:43-57 | the added files are a subsequence of the selection |
| LeaveForm.RemoveAt | frontend/src/pages/leave/CreateLeaveRequest.tsx:59-61 | every attachment except the one at the index, in order |
| LeaveForm.RemoveUndoesAdd | frontend/src/pages/leave/CreateLeaveRequest.tsx:43-61 | adding one accepted file and removing it restores the list |
| LeaveForm.SubmittedCountIsPositive | frontend/src/pages/leave/CreateLeaveRequest.tsx:74-77 | a form that passes the submit guard has a day count of at least one |
| UserManagement.FirstTruthy | frontend/src/pages/admin/UserManagement.tsx:221-225 | the first truthy cell, otherwise the last operand |
| UserManagement.Cells | frontend/src/pages/admin/UserManagement.tsx:221-225 | the cells under the headers, one per header in order |
| UserManagement.CodePosition | frontend/src/pages/admin/UserManagement.tsx:228 | the position of the first department with the code, -1 when none has it |
| UserManagement.PasswordOf | frontend/src/pages/admin/UserManagement.tsx:223 | the password column, '123456' when missing or empty |
| UserManagement.RoleOf | frontend/src/pages/admin/UserManagement.tsx:224-234 | always one of the four roles: the upper-cased column when it is one, EMPLOYEE otherwise |
| UserManagement.CodeOf | frontend/src/pages/admin/UserManagement.tsx:225 | the department code column, '' when missing or empty |
| UserManagement.DepartmentIdOf | frontend/src/pages/admin/UserManagement.tsx:228-235 | the id of the first department with the code, '' when none has it |
| UserManagement.TransformRow | frontend/src/pages/admin/UserManagement.tsx:220-236 | each field is read from its column with the defaults above |
| UserManagement.TransformRows | frontend/src/pages/admin/UserManagement.tsx:220-236 | one transformed row per spreadsheet line, in order |
| UserManagement.TransformRowsAppend | frontend/src/pages/admin/UserManagement.tsx:220-236 | transforming two sheets in turn is transforming their concatenation |
| UserManagement.ImportedDepartment | frontend/src/pages/admin/UserManagement.tsx:228-235 | with unique codes the imported department is the one carrying the row's code |
| UserManagement.LowerCaseRoleAccepted | frontend/src/pages/admin/UserManagement.tsx:224-234 | each of the four roles typed in lower case is accepted as that role |
| UserManagement.ImportedAccount | frontend/src/pages/admin/UserManagement.tsx:220-264 | an account the server creates from a row of this page has one of the four roles, the row's role and typed password, and no department when no code matched |
| UserManagement.ImportUsers | frontend/src/pages/admin/UserManagement.tsx:257-264 | nothing is sent for an empty import, otherwise every kept row unchanged |
| UserManagement.FilteredUsers | frontend/src/pages/admin/UserManagement.tsx:281-287 | exactly the users matching the search and the role filter |
| UserManagement.FilteredUsersInOrder | frontend/src/pages/admin/UserManagement.tsx:281-287 | the filtered table keeps the full table's order |
| UserManagement.EmptySearchShowsEveryone | frontend/src/pages/admin/UserManagement.tsx:281-287 | an empty search with 'ALL' shows every user |
| UserManagement.EditBody | frontend/src/pages/admin/UserManagement.tsx:72-81 | the password only when typed, null department for an empty one |
| UserManagement.EditKeepsPasswordUnlessTyped | frontend/src/pages/admin/UserManagement.tsx:72-81 | saving keeps the stored password when the field is empty, stores the typed one otherwise, and clears the department when none is chosen |
| HolidayManagement.FilteredHolidays | frontend/src/pages/admin/HolidayManagement.tsx:100-102 | exactly the holidays whose name contains the term, ignoring case |
| HolidayManagement.FilteredInOrder | frontend/src/pages/admin/HolidayManagement.tsx:100-102 | the filter keeps the list's order |
| HolidayManagement.Insert | frontend/src/pages/admin/HolidayManagement.tsx:105-107 | inserting into a sorted list keeps it sorted and adds exactly that holiday |
| HolidayManagement.SortedHolidays | frontend/src/pages/admin/HolidayManagement.tsx:105-107 | a permutation of the filtered list in ascending date order |
| HolidayManagement.SortingSortedIsIdentity | frontend/src/pages/admin/HolidayManagement.tsx:105-107 | a sorted list is left as it is |
| HolidayManagement.InsertAtEnd | frontend/src/pages/admin/HolidayManagement.tsx:105-107 | a holiday no earlier than all others goes at the end |
| HolidayManagement.InYear | frontend/src/pages/admin/HolidayManagement.tsx:110-115 | exactly the holidays of that year, in order |
| HolidayManagement.InYearEmpty | frontend/src/pages/admin/HolidayManagement.tsx:110-115 | a year without holidays has an empty section |
| HolidayManagement.InYearAppend | frontend/src/pages/admin/HolidayManagement.tsx:110-115 | one more holiday extends its own year's section and no other |
| HolidayManagement.HasYearAppend | frontend/src/pages/admin/HolidayManagement.tsx:110-115 | one more holiday adds its own year and no other |
| HolidayManagement.GroupByYear | frontend/src/pages/admin/HolidayManagement.tsx:110-115 | each year's list is that year's section of the sorted list; the keys are exactly the years, each once |
| HolidayManagement.AddYear | frontend/src/pages/admin/HolidayManagement.tsx:112 | the new year is added and the keys stay distinct |
| HolidayManagement.AddToYear | frontend/src/pages/admin/HolidayManagement.tsx:112-113 | the holiday is appended to its year's list, created on first use |
| HolidayManagement.SectionsSorted | frontend/src/pages/admin/HolidayManagement.tsx:105-115 | each year section of the sorted list is in date order |
| HolidayManagement.SectionSizesStep | frontend/src/pages/admin/HolidayManagement.tsx:110-115 | one more holiday adds one to the section sizes when its year is listed once |
| HolidayManagement.SectionSizesSum | frontend/src/pages/admin/HolidayManagement.tsx:110-115 | the section sizes add up to the number of holidays |
| HolidayManagement.InOwnSectionOnly | frontend/src/pages/admin/HolidayManagement.tsx:110-115 | a holiday is in its own year's section and in no other |
| HolidayManagement.InsertYear | frontend/src/pages/admin/HolidayManagement.tsx:169-170 | inserting a year into a descending list keeps it descending |
| HolidayManagement.NewestFirst | frontend/src/pages/admin/HolidayManagement.tsx:169-170 | the same years, latest first, strictly decreasing when each is listed once |
| HolidayManagement.SectionsCoverSearch | frontend/src/pages/admin/HolidayManagement.tsx:100-170 | the year sections together hold every holiday of the search exactly once |
| HolidayManagement.EditForm | frontend/src/pages/admin/HolidayManagement.tsx:60-68 | the name, the stored date before its 'T', and the description or '' |
| HolidayManagement.EditDateIsDay | frontend/src/pages/admin/HolidayManagement.tsx:64 | a timestamp `day + "T" + time` is edited as `day` |
| AttendanceManagement.FilteredRecords | frontend/src/pages/attendance/Management.tsx:72-78 | exactly the records matching the search and status filter |
| AttendanceManagement.EmptySearchShowsRecordsWithUser | frontend/src/pages/attendance/Management.tsx:72-78 | an empty search with 'ALL' shows exactly the records carrying their employee, in order |
| AttendanceManagement.FilteredRecordsInOrder | frontend/src/pages/attendance/Management.tsx:72-78 | the filter keeps the records' order |
| AttendanceManagement.StatusText | frontend/src/pages/attendance/Management.tsx:98-106 | the label of a known status, any other status unchanged |
| AttendanceManagement.HoursText | frontend/src/pages/attendance/Management.tsx:88 | one decimal place, '-' for missing or zero hours |
| AttendanceManagement.HoursTextReadBack | frontend/src/pages/attendance/Management.tsx:88 | the rendered hours read back give the stored tenths |
| AttendanceManagement.OrDash | frontend/src/pages/attendance/Management.tsx:86-87 | the rendering of a present value, '-' otherwise |
| AttendanceManagement.ExportRowOf | frontend/src/pages/attendance/Management.tsx:81-90 | the exported line of one record, column by column |
| AttendanceManagement.ExportRows | frontend/src/pages/attendance/Management.tsx:80-90 | one exported line per shown record, in order |
| AttendanceManagement.MissingTimesExportDash | frontend/src/pages/attendance/Management.tsx:86-87 | a missing check-in or check-out is exported as '-' |
| AttendanceHistory.HistoryStats | frontend/src/pages/attendance/History.tsx:57-62 | the record count and the exact count of each of the three statuses |
| AttendanceHistory.CountsBounded | frontend/src/pages/attendance/History.tsx:57-62 | the counters never exceed the total, and reach it exactly when every record is present, late or absent |
| AttendanceHistory.StatusBadge | frontend/src/pages/attendance/History.tsx:40-47 | the badge of a known status, the PRESENT badge otherwise |
| Dashboard.RecentRequests | frontend/src/pages/Dashboard.tsx:33 | the first five requests, all when fewer, none for a missing list |
| Dashboard.PendingCount | frontend/src/pages/Dashboard.tsx:48-50 | the number of pending recent requests |
| Dashboard.PendingCountAtMostFive | frontend/src/pages/Dashboard.tsx:33-50 | the pending count is at most five, whatever the full list |
| Dashboard.TotalStats | frontend/src/pages/Dashboard.tsx:41-46 | the sums of the three balance columns |
| Dashboard.RemainingSumsUp | frontend/src/pages/Dashboard.tsx:41-46 | when each line's remaining is total minus used, so are the sums |
| Dashboard.ServerBalanceTotalsAgree | frontend/src/pages/Dashboard.tsx:41-46 | for the balance the in-memory server computes, the remaining total is the total minus the used total |
| QrDisplay.PadStart | frontend/src/pages/attendance/QRDisplay.tsx:72 | the string is padded in front up to the length |
| QrDisplay.JsRem60 | frontend/src/pages/attendance/QRDisplay.tsx:71 | the remainder is below 60 in size, the Euclidean remainder for a non-negative count and minus the remainder of the absolute value for a negative one |
| QrDisplay.TwoDigits | frontend/src/pages/attendance/QRDisplay.tsx:72 | a remainder below 60 is shown as its two decimal digits |
| QrDisplay.DigitRoundTrip | frontend/src/pages/attendance/QRDisplay.tsx:72 | a digit read back gives its value |
| QrDisplay.FormatTime | frontend/src/pages/attendance/QRDisplay.tsx:69-73 | the minutes, then a colon, then at least two characters of seconds |
| QrDisplay.FormatTimeReadBack | frontend/src/pages/attendance/QRDisplay.tsx:69-73 | minutes unpadded, seconds as two digits, and reading both back gives the count |
| QrDisplay.CountdownStep | frontend/src/pages/attendance/QRDisplay.tsx:26-38 | at 1 or less a fetch is requested and the count becomes 0, otherwise it goes down by one |
| QrDisplay.Step | frontend/src/pages/attendance/QRDisplay.tsx:26-38 | a second passes by the countdown step, a new token sets its lifetime |
| QrDisplay.SecondsFromStart | frontend/src/pages/attendance/QRDisplay.tsx:26-38 | after n seconds from t the countdown shows max(t − n, 0) |
| QrDisplay.NeverNegative | frontend/src/pages/attendance/QRDisplay.tsx:26-38 | the countdown never goes below zero |
| Navigation.NavItems | frontend/src/components/layout/Sidebar.tsx:20-29 | eight entries with distinct paths, each listing at least one role and only the four known roles |
| Navigation.BelowIsActive | frontend/src/components/layout/Sidebar.tsx:18 | a path below the entry's path keeps it highlighted |
| Navigation.SiblingNotActive | frontend/src/components/layout/Sidebar.tsx:18 | a sibling path sharing a prefix does not highlight the entry |
| Navigation.RootActive | frontend/src/components/layout/Sidebar.tsx:18 | '/' is highlighted for '/' and for paths starting with '//' only |
| Navigation.VisibleItems | frontend/src/components/layout/Sidebar.tsx:20-45 | exactly the entries listing the user's role, in order |
| Navigation.EmployeeEntries | frontend/src/components/layout/Sidebar.tsx:20-29 | only the first two entries list EMPLOYEE |
| Navigation.EmployeeSeesTwoEntries | frontend/src/components/layout/Sidebar.tsx:20-45 | an employee sees the dashboard and the leave requests only |
| Navigation.StaffSeesEverything | frontend/src/components/layout/Sidebar.tsx:20-45 | HR and ADMIN see every entry |
| ProtectedRoute.Guard | frontend/src/components/ProtectedRoute.tsx:11-35 | no user goes to login, a role outside the list gets the denied panel, any other renders the page |
| ProtectedRoute.GuardDependsOnMembershipOnly | frontend/src/components/ProtectedRoute.tsx:11-35 | the outcome depends only on being logged in and the role being allowed |
| ProtectedRoute.RouteRoles | frontend/src/App.tsx:47-121 | a page is guarded exactly when its sidebar entry is not open to every role or it is the attendance administration or QR page (both HR and ADMIN only); every guard admits HR and ADMIN and refuses EMPLOYEE |
| ProtectedRoute.SidebarAgreesWithGuard | frontend/src/App.tsx:49-106 | a sidebar entry is shown exactly when its page renders for that user |
| Profile.PasswordRequest | frontend/src/pages/Profile.tsx:88-101 | a request only when the confirmation matches and the new password has at least six characters |
| Profile.ChangePasswordDialog | frontend/src/pages/Profile.tsx:88-116 | a mismatch, then a short password, is reported without sending; success closes and clears the dialog; failure shows the server's message or a fallback |
| Profile.MismatchReportedFirst | frontend/src/pages/Profile.tsx:91-99 | a mismatch is reported even when the password is also short |
| Profile.ClearedFormIsNotResent | frontend/src/pages/Profile.tsx:104-108 | after a success the cleared form cannot be sent again |
| Profile.SentChangeMeetsServerRules | frontend/src/pages/Profile.tsx:88-116 | a change the page sends never fails the server's length check |
| Profile.RoleBadgeOf | frontend/src/pages/Profile.tsx:118-125 | the badge of a known role, the EMPLOYEE badge otherwise |
| Profile.QuickStatsMatchDashboard | frontend/src/pages/Profile.tsx:380-392 | the quick statistics equal the dashboard's totals |
| ApprovalManagement.FetchUrl | frontend/src/pages/approval/ApprovalManagement.tsx:17-22 | the whole list for 'ALL', otherwise the list for that status |
| ApprovalManagement.FetchUrlInjective | frontend/src/pages/approval/ApprovalManagement.tsx:17-22 | different filters fetch different URLs, and none but 'ALL' the whole list |
| ApprovalManagement.Approve | frontend/src/pages/approval/ApprovalManagement.tsx:32-47 | nothing without confirmation; otherwise the typed comment or '' is sent |
| ApprovalManagement.Reject | frontend/src/pages/approval/ApprovalManagement.tsx:49-71 | nothing without confirmation; a missing or blank comment warns; otherwise the comment is sent |
| ApprovalManagement.SentRejectionHasComment | frontend/src/pages/approval/ApprovalManagement.tsx:49-71 | a rejection that is sent carries a non-empty comment |
| ApprovalManagement.ClearComment | frontend/src/pages/approval/ApprovalManagement.tsx:42 | the request's comment becomes '', the others stay |
| ApprovalManagement.ClearedCommentCannotReject | frontend/src/pages/approval/ApprovalManagement.tsx:55-65 | after a clear, rejecting that request only warns |
| ApprovalManagement.ControlsOnlyWhereAccepted | frontend/src/pages/approval/ApprovalManagement.tsx:177 | the approve and reject controls appear exactly on the requests whose approval and rejection the server's handlers accept (PENDING) |
| Text.ParseIntOrZeroNatToString | backend/src/mock-server.ts:280 | a day count written in decimal is read back by `parseInt(…) \|\| 0` unchanged |
| Text.BeforeFirst | frontend/src/pages/admin/HolidayManagement.tsx:64 | the part before the first separator: a prefix without the separator, followed by it when shorter than the string |
| Text.TrimEmptyIffBlank | frontend/src/pages/approval/ApprovalManagement.tsx:55 | a comment trims to '' exactly when it is all white space |

## Left out

- The attendance check-in flow is not part of this model: QR tokens, HMAC signatures and the geofence.
- The relational store is an in-memory table per entity, without transactions. A missing row or a failed foreign key is modelled where a handler reaches it: in `updateUser` an unknown id, department or manager gives 500 with nothing changed.
- Password hashing and comparison are parameters of `UserController.UpdateProfile`.
- Express, multer, CORS, the route files and `server.ts` are not modelled; each handler is modelled after its middleware has run.
- Date parsing and formatting are not modelled: dates arrive as instants in milliseconds, and day and time renderings are parameters.
- Generated ids (`Date.now()` and database ids) are parameters.
- MockServer.MockStore.CreateLeaveRequest: requires the new id to be fresh; the source takes the body's id or `Date.now()`, either of which can repeat an existing id.
- Each handler is modelled as one step with nothing in between. Two approvals of the same request racing between the PENDING check and the writes are not modelled.
- The query values `Number(page)` and `Number(limit)` are taken to be integers. NaN and fractional values are not modelled.
- The listings' `orderBy: createdAt desc` is given as the order of the `rows` parameter, which lists the table exactly once.
- MockData.BalanceOf: the type's `defaultDays` is taken as an integer. `parseInt` of a missing or non-numeric value giving 0 is not modelled.
- MockServer.MergeUser: a deletion marker is returned unchanged. The source spreads the body into it; the result keeps its `_deleted` flag, but the reply echoes the merged fields.
- The QR screen's one-second timer is modelled by the number of seconds that have passed (`QrDisplay.Seconds`), not as a loop: the source registers a callback with `setInterval` and has no loop.
- These mock-server routes are not modelled: register and login, POST `/api/users`, the profile stubs, my-requests, the CSV export and notifications.
- These mock-server routes are not modelled either: the creation of leave types, departments and holidays. Each only appends the body with a fresh id.
- The relational controllers' `deleteUser`, `getUserLeaveHistory` and `exportReport` are not modelled; they do not touch the leave workflow.
- Request-body keys beyond the modelled fields are not modelled.
- JavaScript object keys that are integer-like or name prototype members are not modelled; the keys are taken to be plain names.
- Case mapping beyond the ASCII letters and white space beyond ASCII and U+00A0 are not modelled, and string lengths count characters, not UTF-16 units.
- Text.ParseIntOrZero: reads decimal digits only; `parseInt` also reads a `0x` prefix as hexadecimal (`"0x10"` is 16 there, 0 in the model).
- React rendering, timers, `window.confirm` (a boolean parameter), FileReader and XLSX parsing are not modelled; spreadsheet cells are strings.
- `toFixed` rounding is not modelled: hours are held in tenths.
- Role strings outside the four roles reach the backend only through `RoleOf`, which replaces them.
- QrDisplay.FormatTimeReadBack: proved for non-negative counts only; `QrDisplay.NeverNegative` shows the countdown does not go below zero.
- HolidayManagement.SortedHolidays: the contract states a sorted permutation, but does not state that holidays with equal instants keep their order.
- The dashboard's status badges are not modelled, including the CANCELLED status that has no badge.
- The leave balance the dashboard and profile read has the in-memory server's array shape. The relational controller returns another shape, modelled in `UserController.GetLeaveBalance`.

## Findings

| source | as written | input that shows it | evidently intended | confidence | as-written member | corrected member |
|---|---|---|---|---|---|---|
| backend/src/mock-server.ts:701 | the day total adds each stored `totalDays`, a string from the form, with `+` starting from 0, so it concatenates (also lines 706 and 712) | two approved requests with `totalDays` "3" and "2" | the number 5 | high, not executed | MockData.SumDaysAsWrittenConcatenates | MockData.SumDaysOfRenderedCounts |
