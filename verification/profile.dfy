/** The profile page: the password change dialog, the role badge and the quick leave statistics. */
module Profile {
  import opened Collections
  import opened Database
  import opened MockData
  import opened MockServer
  import opened Dashboard

  // ---------------------------------------------------------------- password change

  datatype PasswordForm = PasswordForm(currentPassword: string, newPassword: string, confirmPassword: string)

  /** The dialog: its three fields, whether it is open, and the last message shown. */
  datatype PasswordDialog = PasswordDialog(form: PasswordForm, open: bool, toast: string)

  const Cleared: PasswordForm := PasswordForm("", "", "")

  /** The request the form would send, when its two checks pass. */
  function PasswordRequest(form: PasswordForm): (r: Option<(string, string)>)
    ensures form.newPassword != form.confirmPassword ==> r.None?
    ensures |form.newPassword| < 6 ==> r.None?
    ensures form.newPassword == form.confirmPassword && |form.newPassword| >= 6 ==>
      r == Some((form.currentPassword, form.newPassword))
  {
    if form.newPassword != form.confirmPassword then None
    else if |form.newPassword| < 6 then None
    else Some((form.currentPassword, form.newPassword))
  }

  /**
   * `handleChangePassword`, given the server's reply to the request it would
   * send. A mismatched confirmation is reported first, a short password
   * second; in both cases nothing is sent and the dialog stays as it is. A
   * success closes the dialog and clears the three fields; a failure shows
   * the server's message, or a fallback when it has none.
   */
  function ChangePasswordDialog(d: PasswordDialog, reply: Reply<string>): (n: PasswordDialog)
    ensures d.form.newPassword != d.form.confirmPassword ==> n == d.(toast := "Mật khẩu xác nhận không khớp")
    ensures d.form.newPassword == d.form.confirmPassword && |d.form.newPassword| < 6 ==>
      n == d.(toast := "Mật khẩu mới phải có ít nhất 6 ký tự")
    ensures PasswordRequest(d.form).Some? && reply.Success? ==>
      n == PasswordDialog(Cleared, false, "Đổi mật khẩu thành công")
    ensures PasswordRequest(d.form).Some? && reply.Failure? ==>
      n.form == d.form && n.open == d.open &&
      n.toast == (if reply.message != "" then reply.message else "Có lỗi xảy ra khi đổi mật khẩu")
  {
    if d.form.newPassword != d.form.confirmPassword then d.(toast := "Mật khẩu xác nhận không khớp")
    else if |d.form.newPassword| < 6 then d.(toast := "Mật khẩu mới phải có ít nhất 6 ký tự")
    else match reply
      case Success(_, _) => PasswordDialog(Cleared, false, "Đổi mật khẩu thành công")
      case Failure(_, message) =>
        d.(toast := OrElse(Some(message), Some("Có lỗi xảy ra khi đổi mật khẩu")).value)
  }

  /** A mismatch is reported even when the new password is also too short: the checks run in that order. */
  lemma MismatchReportedFirst(d: PasswordDialog, reply: Reply<string>)
    requires d.form.newPassword != d.form.confirmPassword && |d.form.newPassword| < 6
    ensures ChangePasswordDialog(d, reply).toast == "Mật khẩu xác nhận không khớp"
  {
  }

  /** After a successful change the cleared form cannot be sent again until it is filled in anew. */
  lemma ClearedFormIsNotResent(d: PasswordDialog, reply: Reply<string>, next: Reply<string>)
    requires PasswordRequest(d.form).Some? && reply.Success?
    ensures var n := ChangePasswordDialog(d, reply);
      PasswordRequest(n.form).None? && ChangePasswordDialog(n, next).form == Cleared
  {
  }

  /**
   * Against the in-memory server, a request the page sends never fails the
   * server's length check: it succeeds exactly when the current password was
   * filled in, and otherwise reports the missing field.
   */
  lemma SentChangeMeetsServerRules(form: PasswordForm)
    requires PasswordRequest(form).Some?
    ensures var r := ChangePassword(Some(form.currentPassword), Some(form.newPassword));
      (r.Success? <==> form.currentPassword != "") &&
      (form.currentPassword == "" ==> r == Failure(400, "Thiếu thông tin mật khẩu"))
  {
  }

  // ---------------------------------------------------------------- role badge

  datatype RoleBadge = RoleBadge(bg: string, text: string, caption: string)

  /** `getRoleBadge`: the badge of a known role, the EMPLOYEE badge for any other. */
  function RoleBadgeOf(role: string): (b: RoleBadge)
    ensures role == "ADMIN" ==> b.caption == "Admin"
    ensures role == "HR" ==> b.caption == "HR"
    ensures role == "MANAGER" ==> b.caption == "Manager"
    ensures role !in ["ADMIN", "HR", "MANAGER"] ==> b == RoleBadge("bg-gray-100", "text-gray-800", "Nhân viên")
  {
    var badges := map[
      "ADMIN" := RoleBadge("bg-purple-100", "text-purple-800", "Admin"),
      "HR" := RoleBadge("bg-blue-100", "text-blue-800", "HR"),
      "MANAGER" := RoleBadge("bg-green-100", "text-green-800", "Manager"),
      "EMPLOYEE" := RoleBadge("bg-gray-100", "text-gray-800", "Nhân viên")];
    if role in badges then badges[role] else badges["EMPLOYEE"]
  }

  // ---------------------------------------------------------------- quick stats

  /** The three sums of the quick statistics panel, written out column by column. */
  function QuickStats(balance: seq<BalanceEntry>): (t: Totals)
    decreases |balance|
  {
    if balance == [] then Totals(0, 0, 0)
    else
      var rest := QuickStats(balance[..|balance| - 1]);
      var last := balance[|balance| - 1];
      Totals(rest.total + last.total, rest.used + last.used, rest.remaining + last.remaining)
  }

  /** The profile's quick statistics are the dashboard's totals. */
  lemma {:induction false} QuickStatsMatchDashboard(balance: seq<BalanceEntry>)
    ensures QuickStats(balance) == TotalStats(balance)
  {
    if balance != [] {
      QuickStatsMatchDashboard(balance[..|balance| - 1]);
    }
  }
}
