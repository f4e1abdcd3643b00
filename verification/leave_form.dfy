/** The rules of the leave-request form: the day count, the attachment list and the submit guard. */
module LeaveForm {
  import opened Collections
  import opened Pagination

  const MsPerDay: int := 1000 * 60 * 60 * 24

  function Abs(x: int): nat {
    if x < 0 then -x else x
  }

  /**
   * `calculateTotalDays(start, end)`: 0 when either date field is empty,
   * otherwise the whole days spanned, rounded up, plus one. The instants the
   * two strings denote are given as milliseconds.
   */
  function DayCount(start: string, end: string, startMs: int, endMs: int): (days: int)
    ensures start == "" || end == "" ==> days == 0
    ensures start != "" && end != "" ==> days >= 1
  {
    if start == "" || end == "" then 0 else CeilDiv(Abs(endMs - startMs), MsPerDay) + 1
  }

  /** Swapping the two dates does not change the count. */
  lemma DayCountSymmetric(start: string, end: string, startMs: int, endMs: int)
    ensures DayCount(start, end, startMs, endMs) == DayCount(end, start, endMs, startMs)
  {
    assert Abs(endMs - startMs) == Abs(startMs - endMs);
  }

  /** A leave from a day to the same day is one day. */
  lemma SameDayIsOneDay(start: string, end: string, ms: int)
    requires start != "" && end != ""
    ensures DayCount(start, end, ms, ms) == 1
  {
  }

  /** Dates `d` whole days apart count `d + 1` days: both ends are included. */
  lemma {:induction false} WholeDaysInclusive(start: string, end: string, startMs: int, d: nat)
    requires start != "" && end != ""
    ensures DayCount(start, end, startMs, startMs + d * MsPerDay) == d + 1
  {
    var q := CeilDiv(d * MsPerDay, MsPerDay);
    assert (q - 1) * MsPerDay < d * MsPerDay <= q * MsPerDay;
    if q < d {
      MulMonotone(q, d - 1, MsPerDay);
    }
    if q > d {
      MulMonotone(d, q - 1, MsPerDay);
    }
  }

  /** A selected file: its name and size in bytes. */
  datatype File = File(name: string, size: nat)

  const MaxFileSize: nat := 5 * 1024 * 1024

  predicate Accepted(f: File) {
    f.size <= MaxFileSize
  }

  /**
   * `handleFileChange`: the files of at most 5 MB, in order, appended after the
   * current attachments; nothing changes when no file list is given.
   */
  function AddFiles(current: seq<File>, files: Option<seq<File>>): (r: seq<File>)
    ensures |current| <= |r| && r[..|current|] == current
    ensures forall k :: |current| <= k < |r| ==> Accepted(r[k]) && files.Some? && r[k] in files.value
    ensures files.Some? ==> forall k :: 0 <= k < |files.value| && Accepted(files.value[k]) ==> files.value[k] in r[|current|..]
    ensures files.None? ==> r == current
  {
    match files
    case None => current
    case Some(fs) =>
      var kept := Filter(fs, Accepted);
      FilterSubset(fs, Accepted);
      assert (current + kept)[|current|..] == kept;
      current + kept
  }

  /** The added files keep their relative order: they are a subsequence of the selection. */
  lemma AddedFilesInOrder(current: seq<File>, files: seq<File>)
    ensures IsSubsequence(AddFiles(current, Some(files))[|current|..], files)
  {
    assert AddFiles(current, Some(files))[|current|..] == Filter(files, Accepted);
    FilterIsSubsequence(files, Accepted);
  }

  /** `handleRemoveFile(index)`: every attachment except the one at `index`, in order. */
  function RemoveAt(files: seq<File>, index: int): (r: seq<File>)
    ensures 0 <= index < |files| ==> |r| == |files| - 1
    ensures 0 <= index < |files| ==> forall k :: 0 <= k < |r| ==> r[k] == (if k < index then files[k] else files[k + 1])
    ensures !(0 <= index < |files|) ==> r == files
  {
    if 0 <= index < |files| then files[..index] + files[index + 1..] else files
  }

  /** Adding files and then removing one of them restores the earlier list when it was the only one added. */
  lemma RemoveUndoesAdd(current: seq<File>, f: File)
    requires Accepted(f)
    ensures RemoveAt(AddFiles(current, Some([f])), |current|) == current
  {
    assert Filter([f], Accepted) == [f];
  }

  /** The fields the form requires. */
  datatype FormData = FormData(leaveTypeId: string, startDate: string, endDate: string, reason: string)

  /** `handleSubmit`'s guard: nothing is sent unless the four fields are filled in. */
  predicate CanSubmit(form: FormData) {
    form.leaveTypeId != "" && form.startDate != "" && form.endDate != "" && form.reason != ""
  }

  /** A submitted form always yields a day count of at least one. */
  lemma SubmittedCountIsPositive(form: FormData, startMs: int, endMs: int)
    requires CanSubmit(form)
    ensures DayCount(form.startDate, form.endDate, startMs, endMs) >= 1
  {
  }
}
