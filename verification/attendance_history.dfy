/** The personal attendance history page: the month's counters and the status badge. */
module AttendanceHistory {
  import opened Collections

  /** One record of the month. */
  datatype HistoryRecord = HistoryRecord(id: string, date: string, checkInTime: Option<string>,
                                         checkOutTime: Option<string>, status: string)

  predicate IsPresent(r: HistoryRecord) { r.status == "PRESENT" }
  predicate IsLate(r: HistoryRecord) { r.status == "LATE" }
  predicate IsAbsent(r: HistoryRecord) { r.status == "ABSENT" }

  datatype Stats = Stats(total: nat, present: nat, late: nat, absent: nat)

  /** `stats`: the record count and the exact count of each of the three statuses. */
  function HistoryStats(records: seq<HistoryRecord>): (s: Stats)
    ensures s.total == |records|
    ensures s.present == Count(records, IsPresent) && s.late == Count(records, IsLate) && s.absent == Count(records, IsAbsent)
    ensures s.present + s.late + s.absent <= s.total
    ensures s.present + s.late + s.absent == s.total <==>
      forall k :: 0 <= k < |records| ==> records[k].status in ["PRESENT", "LATE", "ABSENT"]
  {
    CountsBounded(records);
    Stats(|records|, Count(records, IsPresent), Count(records, IsLate), Count(records, IsAbsent))
  }

  /**
   * The three counters never exceed the total, and reach it exactly when every
   * record is present, late or absent: a HALF_DAY record counts only in the total.
   */
  lemma CountsBounded(records: seq<HistoryRecord>)
    ensures Count(records, IsPresent) + Count(records, IsLate) + Count(records, IsAbsent) <= |records|
    ensures Count(records, IsPresent) + Count(records, IsLate) + Count(records, IsAbsent) == |records| <==>
      forall k :: 0 <= k < |records| ==> records[k].status in ["PRESENT", "LATE", "ABSENT"]
  {
    CountThree(records, IsPresent, IsLate, IsAbsent);
  }

  /** The colours and label of a status badge. */
  datatype Badge = Badge(bg: string, text: string, caption: string)

  /** `getStatusBadge`: the badge of a known status, and the PRESENT badge for any other. */
  function StatusBadge(status: string): (b: Badge)
    ensures status == "LATE" ==> b.caption == "Đi muộn"
    ensures status == "HALF_DAY" ==> b.caption == "Nửa ngày"
    ensures status == "ABSENT" ==> b.caption == "Vắng mặt"
    ensures status !in ["LATE", "HALF_DAY", "ABSENT"] ==> b == Badge("bg-green-100", "text-green-800", "Đúng giờ")
  {
    var badges := map[
      "PRESENT" := Badge("bg-green-100", "text-green-800", "Đúng giờ"),
      "LATE" := Badge("bg-yellow-100", "text-yellow-800", "Đi muộn"),
      "HALF_DAY" := Badge("bg-orange-100", "text-orange-800", "Nửa ngày"),
      "ABSENT" := Badge("bg-red-100", "text-red-800", "Vắng mặt")];
    if status in badges then badges[status] else badges["PRESENT"]
  }
}
