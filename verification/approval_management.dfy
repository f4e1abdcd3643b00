/** The approval page: which list it fetches, the approve and reject actions and their comments. */
module ApprovalManagement {
  import opened Collections
  import opened Text
  import Database
  import LeaveRequestController
  import MockServer

  const ListPath: string := "/leave-requests"
  const StatusQuery: string := "?status="

  /** `fetchLeaveRequests`' URL: the whole list for 'ALL', otherwise the list for that status. */
  function FetchUrl(filter: string): (url: string)
    ensures filter == "ALL" ==> url == ListPath
    ensures filter != "ALL" ==> url == ListPath + StatusQuery + filter
  {
    if filter == "ALL" then ListPath else ListPath + StatusQuery + filter
  }

  /** Two filters other than 'ALL' fetch different URLs, and none of them fetches the whole list. */
  lemma FetchUrlInjective(f: string, g: string)
    requires f != "ALL" && g != "ALL" && f != g
    ensures FetchUrl(f) != FetchUrl(g) && FetchUrl(f) != FetchUrl("ALL")
  {
    var p := ListPath + StatusQuery;
    assert FetchUrl(f)[|p|..] == f;
    assert FetchUrl(g)[|p|..] == g;
    assert |FetchUrl(f)| > |ListPath|;
  }

  /** The typed comments, per request id. */
  type Comments = map<string, string>

  /** `approvalComment[id]`. */
  function CommentOf(comments: Comments, id: string): Option<string> {
    if id in comments then Some(comments[id]) else None
  }

  /** What a click on approve or reject does. */
  datatype Action =
    | Nothing                                   // the confirmation was dismissed
    | Warn(message: string)                     // a toast, nothing is sent
    | Post(path: string, comments: string)      // the request sent to the server

  /** `handleApprove`: after confirmation, the typed comment or '' is sent. */
  function Approve(confirmed: bool, comments: Comments, id: string): (a: Action)
    ensures !confirmed <==> a.Nothing?
    ensures confirmed ==> a.Post? && a.path == "/leave-requests/" + id + "/approve"
    ensures confirmed && Truthy(CommentOf(comments, id)) ==> a.comments == comments[id]
    ensures confirmed && !Truthy(CommentOf(comments, id)) ==> a.comments == ""
  {
    if !confirmed then Nothing
    else Post("/leave-requests/" + id + "/approve", OrElse(CommentOf(comments, id), Some("")).value)
  }

  /** A comment that has a character other than white space. */
  predicate HasText(c: string) {
    exists i :: 0 <= i < |c| && !IsSpace(c[i])
  }

  /**
   * `handleReject`: after confirmation, a comment that is missing or blank
   * after trimming gives a warning; otherwise it is sent as typed.
   */
  function Reject(confirmed: bool, comments: Comments, id: string): (a: Action)
    ensures !confirmed <==> a.Nothing?
    ensures confirmed && !(id in comments && HasText(comments[id])) ==> a == Warn("Vui lòng nhập lý do từ chối")
    ensures confirmed && id in comments && HasText(comments[id]) ==>
      a == Post("/leave-requests/" + id + "/reject", comments[id])
  {
    if !confirmed then Nothing
    else
      var c := CommentOf(comments, id);
      TrimEmptyIffBlank(if c.Some? then c.value else "");
      if !Truthy(c) || Trim(c.value) == "" then Warn("Vui lòng nhập lý do từ chối")
      else Post("/leave-requests/" + id + "/reject", c.value)
  }

  /** A rejection the page sends always carries a non-empty comment, so the server's "comments required" check passes. */
  lemma SentRejectionHasComment(comments: Comments, id: string)
    ensures Reject(true, comments, id).Post? ==> Truthy(Some(Reject(true, comments, id).comments))
  {
  }

  /** After a successful approve or reject the comment typed for that request is reset to ''. */
  function ClearComment(comments: Comments, id: string): (r: Comments)
    ensures r.Keys == comments.Keys + {id}
    ensures r[id] == ""
    ensures forall other :: other in comments && other != id ==> r[other] == comments[other]
  {
    comments[id := ""]
  }

  /** After a clear, the request's own comment box is empty and a reject of it only warns. */
  lemma ClearedCommentCannotReject(comments: Comments, id: string)
    ensures Reject(true, ClearComment(comments, id), id) == Warn("Vui lòng nhập lý do từ chối")
  {
  }

  /** The approve and reject controls are rendered for pending requests only. */
  predicate ShowsControls(status: string) {
    status == "PENDING"
  }

  /**
   * The controls appear on exactly the requests whose approval or rejection
   * the server still accepts: any other status is refused with 400.
   */
  lemma ControlsOnlyWhereAccepted(s: Database.RequestStatus)
    ensures ShowsControls(MockServer.StatusName(s)) <==>
      LeaveRequestController.NextStatus(LeaveRequestController.Approve, s).Some?
    ensures ShowsControls(MockServer.StatusName(s)) <==>
      LeaveRequestController.NextStatus(LeaveRequestController.Reject, s).Some?
  {
  }
}
