/**
 * The attendance overview page: the search and status filter of the record
 * table, the status labels and the rows of the spreadsheet export.
 */
module AttendanceManagement {
  import opened Collections
  import opened Text

  /** The employee a record belongs to, when the server includes it. */
  datatype AttendanceUser = AttendanceUser(id: string, fullName: string, email: string, employeeId: string,
                                           department: Option<string>)

  /**
   * One attendance record. The working hours are held in tenths of an hour;
   * `user` is absent when the server did not include the employee.
   */
  datatype AttendanceRecord = AttendanceRecord(id: string, userId: string, date: string,
                                               checkInTime: Option<string>, checkOutTime: Option<string>,
                                               status: string, workingTenths: Option<nat>,
                                               user: Option<AttendanceUser>)

  // ---------------------------------------------------------------- filter

  /**
   * The search on the employee's name or employee id, ignoring case, and the
   * status filter. Without a `user` both searched fields are `undefined`, so
   * the search never matches.
   */
  predicate RecordMatches(r: AttendanceRecord, term: string, statusFilter: string) {
    r.user.Some? &&
    (ContainsIgnoreCase(r.user.value.fullName, term) || ContainsIgnoreCase(r.user.value.employeeId, term)) &&
    (statusFilter == "ALL" || r.status == statusFilter)
  }

  /** `filteredRecords`: exactly the matching records, each with its employee. */
  function FilteredRecords(records: seq<AttendanceRecord>, term: string, statusFilter: string): (r: seq<AttendanceRecord>)
    ensures forall i :: 0 <= i < |r| ==> r[i] in records && RecordMatches(r[i], term, statusFilter)
    ensures forall x :: x in records && RecordMatches(x, term, statusFilter) ==> x in r
    ensures forall i :: 0 <= i < |r| ==> r[i].user.Some?
    ensures statusFilter != "ALL" ==> forall i :: 0 <= i < |r| ==> r[i].status == statusFilter
  {
    FilterSubset(records, x => RecordMatches(x, term, statusFilter));
    Filter(records, x => RecordMatches(x, term, statusFilter))
  }

  predicate HasUser(r: AttendanceRecord) {
    r.user.Some?
  }

  /**
   * With an empty search and the filter 'ALL', the table shows exactly the
   * records that carry their employee, in order: the others stay hidden.
   */
  lemma EmptySearchShowsRecordsWithUser(records: seq<AttendanceRecord>)
    ensures FilteredRecords(records, "", "ALL") == Filter(records, HasUser)
  {
    assert ToLower("") == "";
    forall i | 0 <= i < |records| ensures RecordMatches(records[i], "", "ALL") == HasUser(records[i]) {
      if records[i].user.Some? {
        ContainsEmpty(ToLower(records[i].user.value.fullName));
      }
    }
    FilterAgree(records, x => RecordMatches(x, "", "ALL"), HasUser);
  }

  /** The filtered table keeps the order of the records. */
  lemma FilteredRecordsInOrder(records: seq<AttendanceRecord>, term: string, statusFilter: string)
    ensures IsSubsequence(FilteredRecords(records, term, statusFilter), records)
  {
    FilterIsSubsequence(records, x => RecordMatches(x, term, statusFilter));
  }

  // ---------------------------------------------------------------- labels

  /** `getStatusText`: the Vietnamese label of a known status, any other status unchanged. */
  function StatusText(status: string): (t: string)
    ensures status == "PRESENT" ==> t == "Đúng giờ"
    ensures status == "LATE" ==> t == "Đi muộn"
    ensures status == "HALF_DAY" ==> t == "Nửa ngày"
    ensures status == "ABSENT" ==> t == "Vắng mặt"
    ensures status !in ["PRESENT", "LATE", "HALF_DAY", "ABSENT"] ==> t == status
  {
    var texts := map["PRESENT" := "Đúng giờ", "LATE" := "Đi muộn", "HALF_DAY" := "Nửa ngày", "ABSENT" := "Vắng mặt"];
    if status in texts then texts[status] else status
  }

  // ---------------------------------------------------------------- export

  /** One line of the exported sheet. */
  datatype ExportRow = ExportRow(employeeId: string, fullName: string, department: string, day: string,
                                 checkIn: string, checkOut: string, hours: string, status: string)

  /**
   * `workingHours ? workingHours.toFixed(1) : '-'`: one decimal place, and '-'
   * when the hours are missing or zero.
   */
  function HoursText(tenths: Option<nat>): (t: string)
    ensures tenths.None? || tenths.value == 0 <==> t == "-"
  {
    if tenths.None? || tenths.value == 0 then "-"
    else NatToString(tenths.value / 10) + "." + [Digit(tenths.value % 10)]
  }

  /** The rendered hours read back as whole hours and one decimal give the stored tenths. */
  lemma HoursTextReadBack(tenths: nat)
    requires tenths > 0
    ensures var t := HoursText(Some(tenths));
      |t| >= 3 && t[|t| - 2] == '.' && IsDigit(t[|t| - 1]) &&
      (forall i :: 0 <= i < |t| - 2 ==> IsDigit(t[i])) &&
      ParseNat(t[..|t| - 2]) * 10 + DigitValue(t[|t| - 1]) == tenths
  {
    var t := HoursText(Some(tenths));
    assert t[..|t| - 2] == NatToString(tenths / 10);
    ParseNatToString(tenths / 10);
  }

  /** A present value or '-': `x ? f(x) : '-'` on an optional string. */
  function OrDash(s: Option<string>, render: string -> string): (t: string)
    ensures !Truthy(s) ==> t == "-"
    ensures Truthy(s) ==> t == render(s.value)
  {
    if Truthy(s) then render(s.value) else "-"
  }

  /**
   * The exported line of one record. `dayText` and `timeText` stand for the
   * `dd/MM/yyyy` and `HH:mm:ss` renderings of a stored instant.
   */
  function ExportRowOf(r: AttendanceRecord, dayText: string -> string, timeText: string -> string): (e: ExportRow)
    ensures e.employeeId == (if r.user.Some? then r.user.value.employeeId else "")
    ensures e.fullName == (if r.user.Some? then r.user.value.fullName else "")
    ensures e.department == (if r.user.Some? && Truthy(r.user.value.department) then r.user.value.department.value else "")
    ensures e.checkIn == OrDash(r.checkInTime, timeText) && e.checkOut == OrDash(r.checkOutTime, timeText)
    ensures e.hours == HoursText(r.workingTenths) && e.status == StatusText(r.status)
  {
    var u := r.user;
    ExportRow(
      OrElse(if u.Some? then Some(u.value.employeeId) else None, Some("")).value,
      OrElse(if u.Some? then Some(u.value.fullName) else None, Some("")).value,
      OrElse(if u.Some? then u.value.department else None, Some("")).value,
      dayText(r.date),
      OrDash(r.checkInTime, timeText),
      OrDash(r.checkOutTime, timeText),
      HoursText(r.workingTenths),
      StatusText(r.status))
  }

  /** `exportToExcel`'s rows: one per shown record, in the order shown. */
  function ExportRows(shown: seq<AttendanceRecord>, dayText: string -> string, timeText: string -> string): (rows: seq<ExportRow>)
    ensures |rows| == |shown|
    ensures forall k :: 0 <= k < |shown| ==> rows[k] == ExportRowOf(shown[k], dayText, timeText)
  {
    MapSeq(shown, r => ExportRowOf(r, dayText, timeText))
  }

  /** A record without a check-out is exported with '-' in that column, and the same for check-in. */
  lemma MissingTimesExportDash(shown: seq<AttendanceRecord>, dayText: string -> string, timeText: string -> string, k: nat)
    requires k < |shown|
    ensures shown[k].checkOutTime.None? ==> ExportRows(shown, dayText, timeText)[k].checkOut == "-"
    ensures shown[k].checkInTime.None? ==> ExportRows(shown, dayText, timeText)[k].checkIn == "-"
    ensures ExportRows(shown, dayText, timeText)[k].fullName == shown[k].user.value.fullName <== shown[k].user.Some?
  {
  }
}
