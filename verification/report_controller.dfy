/**
 * The report handlers: leave statistics over the approved requests, tallied
 * by leave type and by department, and the per-user department report.
 */
module ReportController {
  import opened Collections
  import opened Database
  import opened Grouping

  /** The rows the reports join each request with. */
  datatype Tables = Tables(users: map<string, User>, departments: map<string, Department>, leaveTypes: map<string, LeaveType>)

  function TablesOf(db: Db): Tables
    reads db
  {
    Tables(db.users, db.departments, db.leaveTypes)
  }

  // ---------------------------------------------------------------- getLeaveStatistics

  /** The query of the statistics; a date is `None` when absent or empty. */
  datatype StatisticsQuery = StatisticsQuery(startDate: Option<int>, endDate: Option<int>, departmentId: Option<string>)

  /**
   * The `where` of `getLeaveStatistics`: APPROVED only; the date range only
   * when both ends are given; the department filter and, for a MANAGER
   * caller, the restriction to their reports, both on the owner's row.
   */
  predicate InStatistics(users: map<string, User>, caller: Caller, q: StatisticsQuery, r: LeaveRequest) {
    && r.status == Approved
    && (q.startDate.Some? && q.endDate.Some? ==> q.startDate.value <= r.startDate <= q.endDate.value)
    && (Truthy(q.departmentId) ==> r.userId in users && users[r.userId].departmentId == q.departmentId)
    && (caller.role == Manager ==> r.userId in users && users[r.userId].managerId == Some(caller.id))
  }

  /** The requests the statistics are computed over, from `rows`, the request table. */
  function Selected(t: Tables, caller: Caller, q: StatisticsQuery, rows: seq<LeaveRequest>): seq<LeaveRequest> {
    Filter(rows, (r: LeaveRequest) => InStatistics(t.users, caller, q, r))
  }

  /** The name of the request's leave type (every request has one in a consistent store). */
  function TypeName(types: map<string, LeaveType>, r: LeaveRequest): string {
    if r.leaveTypeId in types then types[r.leaveTypeId].name else ""
  }

  /** The name of the owner's department, when the owner has one. */
  function DepartmentName(users: map<string, User>, departments: map<string, Department>, r: LeaveRequest): Option<string> {
    if r.userId in users && users[r.userId].departmentId.Some? && users[r.userId].departmentId.value in departments
    then Some(departments[users[r.userId].departmentId.value].name)
    else None
  }

  function TypeEntries(t: Tables, rows: seq<LeaveRequest>): (es: seq<Entry>)
    ensures |es| == |rows|
  {
    MapSeq(rows, (r: LeaveRequest) => Entry(TypeName(t.leaveTypes, r), r.totalDays))
  }

  /** The requests whose owner has a department, keyed by that department's name. */
  function DepartmentEntries(t: Tables, rows: seq<LeaveRequest>): (es: seq<Entry>)
    ensures |es| <= |rows|
  {
    MapSeq(Filter(rows, (r: LeaveRequest) => DepartmentName(t.users, t.departments, r).Some?),
           (r: LeaveRequest) => Entry(DepartmentName(t.users, t.departments, r).GetOr(""), r.totalDays))
  }

  /** The sum of the requests' totalDays, starting from zero. */
  function TotalDays(rows: seq<LeaveRequest>): int {
    SumOf(rows, (r: LeaveRequest) => r.totalDays)
  }

  datatype LeaveStatistics = LeaveStatistics(total: nat, totalDays: int, byLeaveType: seq<Bucket>, byDepartment: seq<Bucket>)

  /** `getLeaveStatistics`; `rows` is the request table as the store's `findMany` reads it. */
  method GetLeaveStatistics(db: Db, caller: Caller, q: StatisticsQuery, rows: seq<LeaveRequest>)
    returns (stats: LeaveStatistics)
    requires Lists(rows, db.leaveRequests, RequestId)
    ensures var t := TablesOf(db); var selected := Selected(t, caller, q, rows);
      stats == LeaveStatistics(|selected|, TotalDays(selected),
                               GroupAll(TypeEntries(t, selected)), GroupAll(DepartmentEntries(t, selected)))
  {
    var t := TablesOf(db);
    var selected := Selected(t, caller, q, rows);
    var byLeaveType: seq<Bucket> := [];
    var byDepartment: seq<Bucket> := [];
    var i := 0;
    while i < |selected|
      invariant 0 <= i <= |selected|
      invariant byLeaveType == GroupAll(TypeEntries(t, selected[..i]))
      invariant byDepartment == GroupAll(DepartmentEntries(t, selected[..i]))
    {
      var r := selected[i];
      var department := DepartmentName(t.users, t.departments, r);
      TypeEntriesStep(t, selected, i);
      DepartmentEntriesStep(t, selected, i);
      byLeaveType := Add(byLeaveType, TypeName(t.leaveTypes, r), r.totalDays);
      if department.Some? {
        byDepartment := Add(byDepartment, department.value, r.totalDays);
      }
      i := i + 1;
    }
    assert selected[..i] == selected;
    stats := LeaveStatistics(|selected|, TotalDays(selected), byLeaveType, byDepartment);
  }

  /** Taking one more request adds its type entry to the tallies. */
  lemma TypeEntriesStep(t: Tables, rows: seq<LeaveRequest>, i: nat)
    requires i < |rows|
    ensures GroupAll(TypeEntries(t, rows[..i + 1])) ==
      Add(GroupAll(TypeEntries(t, rows[..i])), TypeName(t.leaveTypes, rows[i]), rows[i].totalDays)
  {
    var es := TypeEntries(t, rows[..i + 1]);
    assert es[..i] == TypeEntries(t, rows[..i]);
  }

  /** Taking one more request adds its department entry to the tallies, when it has a department. */
  lemma DepartmentEntriesStep(t: Tables, rows: seq<LeaveRequest>, i: nat)
    requires i < |rows|
    ensures GroupAll(DepartmentEntries(t, rows[..i + 1])) ==
      match DepartmentName(t.users, t.departments, rows[i])
      case Some(name) => Add(GroupAll(DepartmentEntries(t, rows[..i])), name, rows[i].totalDays)
      case None => GroupAll(DepartmentEntries(t, rows[..i]))
  {
    var r := rows[i];
    var p := (x: LeaveRequest) => DepartmentName(t.users, t.departments, x).Some?;
    assert rows[..i + 1] == rows[..i] + [r];
    FilterAppend(rows[..i], [r], p);
    assert Filter([r], p) == if p(r) then [r] else [];
    var d := DepartmentEntries(t, rows[..i]);
    var es := DepartmentEntries(t, rows[..i + 1]);
    if p(r) {
      assert |es| == |d| + 1;
      assert es[..|d|] == d;
    } else {
      assert es == d;
    }
  }

  /**
   * The totals agree with the tallies: the per-type counts sum to `total` and
   * the per-type days to `totalDays`; requests without a department are
   * skipped, so the per-department counts sum to at most `total`.
   */
  lemma StatisticsAddUp(t: Tables, caller: Caller, q: StatisticsQuery, rows: seq<LeaveRequest>)
    ensures var selected := Selected(t, caller, q, rows);
      && Counts(GroupAll(TypeEntries(t, selected))) == |selected|
      && Days(GroupAll(TypeEntries(t, selected))) == TotalDays(selected)
      && Counts(GroupAll(DepartmentEntries(t, selected))) <= |selected|
      && Distinct(Keys(GroupAll(TypeEntries(t, selected))))
      && Distinct(Keys(GroupAll(DepartmentEntries(t, selected))))
  {
    var selected := Selected(t, caller, q, rows);
    GroupAllSums(TypeEntries(t, selected));
    GroupAllSums(DepartmentEntries(t, selected));
    GroupAllDistinct(TypeEntries(t, selected));
    GroupAllDistinct(DepartmentEntries(t, selected));
    SumOfMapSeq(selected, (r: LeaveRequest) => Entry(TypeName(t.leaveTypes, r), r.totalDays),
                (e: Entry) => e.days, (r: LeaveRequest) => r.totalDays);
  }

  // ---------------------------------------------------------------- getDepartmentReport

  /**
   * The `where` of `getDepartmentReport`: APPROVED requests starting within
   * the year (`yearStart`..`yearEnd`), of owners in the department when one is given.
   */
  predicate InDepartmentReport(users: map<string, User>, departmentId: Option<string>, yearStart: int, yearEnd: int,
                               r: LeaveRequest) {
    && r.status == Approved
    && yearStart <= r.startDate <= yearEnd
    && (Truthy(departmentId) ==> r.userId in users && users[r.userId].departmentId == departmentId)
  }

  /** The owner columns the report includes. */
  datatype UserRef = UserRef(id: string, fullName: string, email: string)

  /** One request as the report sees it. */
  datatype ReportEntry = ReportEntry(user: UserRef, typeName: string, days: int)

  /** One `userStats[userId]` slot, with the per-type days as tallies. */
  datatype UserStat = UserStat(user: UserRef, totalLeaves: int, byType: seq<Bucket>)

  function UserIds(stats: seq<UserStat>): (r: seq<string>)
    ensures |r| == |stats| && forall i :: 0 <= i < |stats| ==> r[i] == stats[i].user.id
  {
    MapSeq(stats, (s: UserStat) => s.user.id)
  }

  /** The body of the `forEach` for one request. */
  function AddToReport(stats: seq<UserStat>, e: ReportEntry): (r: seq<UserStat>)
    ensures e.user.id in UserIds(stats) ==> UserIds(r) == UserIds(stats)
    ensures e.user.id !in UserIds(stats) ==> UserIds(r) == UserIds(stats) + [e.user.id]
  {
    if stats == [] then [UserStat(e.user, e.days, Add([], e.typeName, e.days))]
    else if stats[0].user.id == e.user.id then
      [stats[0].(totalLeaves := stats[0].totalLeaves + e.days, byType := Add(stats[0].byType, e.typeName, e.days))] + stats[1..]
    else [stats[0]] + AddToReport(stats[1..], e)
  }

  /** Every slot's total is the sum of its per-type days. */
  predicate TotalsMatch(stats: seq<UserStat>) {
    forall k :: 0 <= k < |stats| ==> stats[k].totalLeaves == Days(stats[k].byType)
  }

  lemma {:induction false} AddToReportKeepsTotals(stats: seq<UserStat>, e: ReportEntry)
    requires TotalsMatch(stats)
    ensures TotalsMatch(AddToReport(stats, e))
  {
    if stats == [] {
      AddSums([], e.typeName, e.days);
    } else if stats[0].user.id == e.user.id {
      AddSums(stats[0].byType, e.typeName, e.days);
    } else {
      AddToReportKeepsTotals(stats[1..], e);
    }
  }

  function ReportAll(es: seq<ReportEntry>): seq<UserStat> {
    if es == [] then [] else AddToReport(ReportAll(es[..|es| - 1]), es[|es| - 1])
  }

  /** The report lists each user once, and each user's total is the sum of their per-type days. */
  lemma {:induction false} ReportAllWellFormed(es: seq<ReportEntry>)
    ensures Distinct(UserIds(ReportAll(es)))
    ensures TotalsMatch(ReportAll(es))
  {
    if es != [] {
      ReportAllWellFormed(es[..|es| - 1]);
      AddToReportKeepsTotals(ReportAll(es[..|es| - 1]), es[|es| - 1]);
    }
  }

  function ReportEntryOf(t: Tables, r: LeaveRequest): ReportEntry {
    var user := if r.userId in t.users then UserRef(r.userId, t.users[r.userId].fullName, t.users[r.userId].email)
                else UserRef(r.userId, "", "");
    ReportEntry(user, TypeName(t.leaveTypes, r), r.totalDays)
  }

  function ReportEntries(t: Tables, rows: seq<LeaveRequest>): (es: seq<ReportEntry>)
    ensures |es| == |rows|
  {
    MapSeq(rows, (r: LeaveRequest) => ReportEntryOf(t, r))
  }

  /** Taking one more request adds its entry to the report. */
  lemma ReportEntriesStep(t: Tables, rows: seq<LeaveRequest>, i: nat)
    requires i < |rows|
    ensures ReportAll(ReportEntries(t, rows[..i + 1])) ==
      AddToReport(ReportAll(ReportEntries(t, rows[..i])), ReportEntryOf(t, rows[i]))
  {
    var es := ReportEntries(t, rows[..i + 1]);
    assert es[..i] == ReportEntries(t, rows[..i]);
  }

  /** The slot of user `id`, if the report has one. */
  function SlotOf(stats: seq<UserStat>, id: string): Option<UserStat> {
    if stats == [] then None
    else if stats[0].user.id == id then Some(stats[0])
    else SlotOf(stats[1..], id)
  }

  /** The slot of `e`'s user after `e` is added to it, or a new slot for `e` alone. */
  function Credit(slot: Option<UserStat>, e: ReportEntry): UserStat {
    match slot
    case None => UserStat(e.user, e.days, Add([], e.typeName, e.days))
    case Some(s) => s.(totalLeaves := s.totalLeaves + e.days, byType := Add(s.byType, e.typeName, e.days))
  }

  /** Adding an entry changes only the slot of the entry's user: it is created, or its tallies grow. */
  lemma {:induction false} AddToReportSlot(stats: seq<UserStat>, e: ReportEntry, id: string)
    ensures e.user.id != id ==> SlotOf(AddToReport(stats, e), id) == SlotOf(stats, id)
    ensures e.user.id == id ==> SlotOf(AddToReport(stats, e), id) == Some(Credit(SlotOf(stats, id), e))
  {
    if stats == [] {
      assert AddToReport(stats, e) == [Credit(None, e)];
    } else if stats[0].user.id == e.user.id {
      var r := [Credit(Some(stats[0]), e)] + stats[1..];
      assert AddToReport(stats, e) == r;
      assert r[1..] == stats[1..];
    } else {
      var rest := AddToReport(stats[1..], e);
      var r := [stats[0]] + rest;
      assert AddToReport(stats, e) == r;
      assert r[1..] == rest;
      AddToReportSlot(stats[1..], e, id);
    }
  }

  /** In a report that lists each user once, a listed user's slot is their own. */
  lemma {:induction false} SlotOfListed(stats: seq<UserStat>, k: nat)
    requires Distinct(UserIds(stats)) && k < |stats|
    ensures SlotOf(stats, stats[k].user.id) == Some(stats[k])
  {
    if k > 0 {
      assert UserIds(stats)[0] != UserIds(stats)[k];
      assert UserIds(stats[1..]) == UserIds(stats)[1..];
      SlotOfListed(stats[1..], k - 1);
    }
  }

  /** The test picking the requests of one user. */
  function OwnedBy(id: string): LeaveRequest -> bool {
    (r: LeaveRequest) => r.userId == id
  }

  /** The test picking the requests of one user whose leave type has the given name. */
  function OwnedByOfType(t: Tables, id: string, name: string): LeaveRequest -> bool {
    (r: LeaveRequest) => r.userId == id && TypeName(t.leaveTypes, r) == name
  }

  function RequestDays(r: LeaveRequest): int { r.totalDays }

  /** The report of `rows` built request by request, as the `forEach` does. */
  function ReportOf(t: Tables, rows: seq<LeaveRequest>): seq<UserStat> {
    if rows == [] then [] else AddToReport(ReportOf(t, rows[..|rows| - 1]), ReportEntryOf(t, rows[|rows| - 1]))
  }

  lemma {:induction false} ReportOfIsReportAll(t: Tables, rows: seq<LeaveRequest>)
    ensures ReportOf(t, rows) == ReportAll(ReportEntries(t, rows))
  {
    if rows != [] {
      ReportOfIsReportAll(t, rows[..|rows| - 1]);
      ReportSnoc(t, rows);
    }
  }

  /**
   * A user has a slot in the report exactly when some of the requests are
   * theirs, and the slot's total is the sum of the days of those requests.
   */
  lemma {:induction false} ReportSlot(t: Tables, rows: seq<LeaveRequest>, id: string)
    ensures var slot := SlotOf(ReportOf(t, rows), id);
      && (slot.Some? <==> CountWhere(rows, OwnedBy(id)) > 0)
      && (slot.Some? ==> slot.value.totalLeaves == SumWhere(rows, OwnedBy(id), RequestDays))
  {
    if rows != [] {
      var init, last := rows[..|rows| - 1], rows[|rows| - 1];
      var e := ReportEntryOf(t, last);
      var before := SlotOf(ReportOf(t, init), id);
      ReportSlot(t, init, id);
      assert ReportOf(t, rows) == AddToReport(ReportOf(t, init), e);
      AddToReportSlot(ReportOf(t, init), e, id);
      assert e.user.id == last.userId && e.days == last.totalDays;
      if last.userId == id && before.None? {
        NoneCountedSumsZero(init, OwnedBy(id), RequestDays);
      }
    }
  }

  /** The tally of a type name in a user's slot counts and sums exactly that user's requests of that type. */
  lemma {:induction false} ReportSlotByType(t: Tables, rows: seq<LeaveRequest>, id: string, name: string)
    requires SlotOf(ReportOf(t, rows), id).Some?
    ensures var slot := SlotOf(ReportOf(t, rows), id).value;
      && Lookup(slot.byType, name).count == CountWhere(rows, OwnedByOfType(t, id, name))
      && Lookup(slot.byType, name).totalDays == SumWhere(rows, OwnedByOfType(t, id, name), RequestDays)
  {
    if rows == [] {
      assert false;
    }
    var init, last := rows[..|rows| - 1], rows[|rows| - 1];
    var e := ReportEntryOf(t, last);
    var before := SlotOf(ReportOf(t, init), id);
    assert ReportOf(t, rows) == AddToReport(ReportOf(t, init), e);
    AddToReportSlot(ReportOf(t, init), e, id);
    if before.Some? {
      ReportSlotByType(t, init, id, name);
      if last.userId == id {
        AddLookup(before.value.byType, e.typeName, e.days, name);
      }
    } else {
      AddLookup([], e.typeName, e.days, name);
      ReportSlot(t, init, id);
      NoneOwnedNoneOfType(t, init, id, name);
      NoneCountedSumsZero(init, OwnedByOfType(t, id, name), RequestDays);
    }
  }

  /** A user who owns none of the requests owns none of any type. */
  lemma {:induction false} NoneOwnedNoneOfType(t: Tables, rows: seq<LeaveRequest>, id: string, name: string)
    requires CountWhere(rows, OwnedBy(id)) == 0
    ensures CountWhere(rows, OwnedByOfType(t, id, name)) == 0
  {
    if rows != [] {
      NoneOwnedNoneOfType(t, rows[..|rows| - 1], id, name);
    }
  }

  /** Reporting one more request adds its entry to the report of the others. */
  lemma ReportSnoc(t: Tables, rows: seq<LeaveRequest>)
    requires rows != []
    ensures ReportAll(ReportEntries(t, rows)) ==
      AddToReport(ReportAll(ReportEntries(t, rows[..|rows| - 1])), ReportEntryOf(t, rows[|rows| - 1]))
  {
    ReportEntriesStep(t, rows, |rows| - 1);
    assert rows[..|rows| - 1 + 1] == rows;
  }

  /**
   * In the department report each listed user's `totalLeaves` is the sum of
   * the days of that user's own selected requests, and the tally of each
   * leave-type name is that of their requests of that type.
   */
  lemma DepartmentReportLookup(t: Tables, rows: seq<LeaveRequest>, k: nat, name: string)
    requires k < |ReportAll(ReportEntries(t, rows))|
    ensures var s := ReportAll(ReportEntries(t, rows))[k];
      && Count(rows, OwnedBy(s.user.id)) > 0
      && s.totalLeaves == SumOf(Filter(rows, OwnedBy(s.user.id)), RequestDays)
      && Lookup(s.byType, name).count == Count(rows, OwnedByOfType(t, s.user.id, name))
      && Lookup(s.byType, name).totalDays == SumOf(Filter(rows, OwnedByOfType(t, s.user.id, name)), RequestDays)
  {
    var stats := ReportAll(ReportEntries(t, rows));
    var id := stats[k].user.id;
    ReportAllWellFormed(ReportEntries(t, rows));
    ReportOfIsReportAll(t, rows);
    SlotOfListed(stats, k);
    ReportSlot(t, rows, id);
    ReportSlotByType(t, rows, id, name);
    WhereIsFilter(rows, OwnedBy(id), RequestDays);
    WhereIsFilter(rows, OwnedByOfType(t, id, name), RequestDays);
  }

  /** One element of `Object.values(userStats)`: the per-type days without the count. */
  datatype TypeTotal = TypeTotal(typeName: string, days: int)

  datatype UserReport = UserReport(user: UserRef, totalLeaves: int, leavesByType: seq<TypeTotal>)

  function TotalOf(b: Bucket): TypeTotal {
    TypeTotal(b.key, b.totalDays)
  }

  function TypeDays(t: TypeTotal): int {
    t.days
  }

  /** A slot as the response shows it: `leavesByType` maps each type name to its days. */
  function Present(s: UserStat): UserReport {
    UserReport(s.user, s.totalLeaves, MapSeq(s.byType, TotalOf))
  }

  /**
   * `getDepartmentReport`: `rows` lists the request table; the requests the
   * `where` selects are folded into `userStats` one at a time, as the
   * `forEach` does, and the slots are returned in order of first appearance.
   */
  method GetDepartmentReport(db: Db, departmentId: Option<string>, yearStart: int, yearEnd: int, rows: seq<LeaveRequest>)
    returns (report: seq<UserReport>)
    requires Lists(rows, db.leaveRequests, RequestId)
    ensures var t := TablesOf(db);
      var selected := Filter(rows, (r: LeaveRequest) => InDepartmentReport(t.users, departmentId, yearStart, yearEnd, r));
      report == MapSeq(ReportAll(ReportEntries(t, selected)), Present)
  {
    var t := TablesOf(db);
    var selected := Filter(rows, (r: LeaveRequest) => InDepartmentReport(t.users, departmentId, yearStart, yearEnd, r));
    var userStats: seq<UserStat> := [];
    var i := 0;
    while i < |selected|
      invariant 0 <= i <= |selected|
      invariant userStats == ReportAll(ReportEntries(t, selected[..i]))
    {
      var e := ReportEntryOf(t, selected[i]);
      ReportEntriesStep(t, selected, i);
      userStats := AddToReport(userStats, e);
      i := i + 1;
    }
    assert selected[..i] == selected;
    report := MapSeq(userStats, Present);
  }

  /** In the department report every user appears once and their totalLeaves is the sum of their leavesByType. */
  lemma DepartmentReportTotals(t: Tables, rows: seq<LeaveRequest>, k: nat)
    requires k < |ReportAll(ReportEntries(t, rows))|
    ensures var stats := ReportAll(ReportEntries(t, rows));
      && Distinct(UserIds(stats))
      && Present(stats[k]).totalLeaves == SumOf(Present(stats[k]).leavesByType, TypeDays)
  {
    var stats := ReportAll(ReportEntries(t, rows));
    ReportAllWellFormed(ReportEntries(t, rows));
    SumOfMapSeq(stats[k].byType, TotalOf, TypeDays, DaysOf);
  }
}
