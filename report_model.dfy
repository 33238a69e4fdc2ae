/** The Report record (server/models/Report.js): its enumerations, the
    defaults of a new report, and the `R-####` identifier that the pre-save
    hook derives from the number of reports already stored. */
module ReportModel {
  import opened Common

  datatype ReportReason = Spam | Offensive | Inappropriate | Harassment | OtherReason
  {
    function Name(): string {
      match this
      case Spam => "spam"
      case Offensive => "offensive"
      case Inappropriate => "inappropriate"
      case Harassment => "harassment"
      case OtherReason => "other"
    }
  }

  /** Reads a reason string; the inverse of `Name`. */
  function ParseReason(s: string): (r: Option<ReportReason>)
    ensures forall x: ReportReason :: r == Some(x) <==> x.Name() == s
  {
    if s == "spam" then Some(Spam)
    else if s == "offensive" then Some(Offensive)
    else if s == "inappropriate" then Some(Inappropriate)
    else if s == "harassment" then Some(Harassment)
    else if s == "other" then Some(OtherReason)
    else None
  }

  datatype ReportStatus = Pending | Reviewed | Dismissed | ActionTaken
  {
    function Name(): string {
      match this
      case Pending => "pending"
      case Reviewed => "reviewed"
      case Dismissed => "dismissed"
      case ActionTaken => "action_taken"
    }
  }

  /** Reads a report status string; the inverse of `Name`. */
  function ParseReportStatus(s: string): (r: Option<ReportStatus>)
    ensures forall x: ReportStatus :: r == Some(x) <==> x.Name() == s
  {
    if s == "pending" then Some(Pending)
    else if s == "reviewed" then Some(Reviewed)
    else if s == "dismissed" then Some(Dismissed)
    else if s == "action_taken" then Some(ActionTaken)
    else None
  }

  datatype ReportAction = NoAction | Warning | ContentRemoved | UserSuspended | UserBanned
  {
    function Name(): string {
      match this
      case NoAction => "none"
      case Warning => "warning"
      case ContentRemoved => "content_removed"
      case UserSuspended => "user_suspended"
      case UserBanned => "user_banned"
    }
  }

  /** Reads an action string; the inverse of `Name`. */
  function ParseReportAction(s: string): (r: Option<ReportAction>)
    ensures forall x: ReportAction :: r == Some(x) <==> x.Name() == s
  {
    if s == "none" then Some(NoAction)
    else if s == "warning" then Some(Warning)
    else if s == "content_removed" then Some(ContentRemoved)
    else if s == "user_suspended" then Some(UserSuspended)
    else if s == "user_banned" then Some(UserBanned)
    else None
  }

  /** The reporter or the author named in a report. */
  datatype Party = Party(userId: string, userName: string, userEmail: string)

  datatype Report = Report(
    reportId: string,
    feedbackId: nat,
    reportedBy: Party,
    feedbackAuthor: Party,
    reason: ReportReason,
    details: string,
    status: ReportStatus,
    reviewedBy: Option<string>,
    reviewedAt: Option<nat>,
    action: ReportAction,
    createdAt: nat)

  /** The sort key of the listings. */
  function ReportCreated(r: Report): nat { r.createdAt }

  /** The schema's `required` on the three sub-fields: none may be empty. */
  predicate PartyComplete(p: Party) {
    p.userId != "" && p.userName != "" && p.userEmail != ""
  }

  /** A new report as `Report.create` stores it: pending, no action, not
      reviewed, stamped with the creation time. */
  function NewReport(reportId: string, feedbackId: nat, reportedBy: Party, feedbackAuthor: Party,
                     reason: ReportReason, details: string, now: nat): (r: Report)
    ensures r.reportId == reportId && r.feedbackId == feedbackId && r.createdAt == now
    ensures r.reportedBy == reportedBy && r.feedbackAuthor == feedbackAuthor
    ensures r.reason == reason && r.details == details
    ensures r.status == Pending && r.action == NoAction
    ensures r.reviewedBy == None && r.reviewedAt == None
  {
    Report(reportId, feedbackId, reportedBy, feedbackAuthor, reason, details,
           Pending, None, None, NoAction, now)
  }

  /** `R-` followed by count + 1 in decimal, left-padded with zeros to four digits. */
  function FormatReportId(count: nat): string {
    "R-" + PadStart(NatToString(count + 1), 4, '0')
  }

  /** The digits of a report id read back as count + 1; below ten thousand
      the id is exactly six characters long. */
  lemma ReportIdReadsBack(count: nat)
    ensures var id := FormatReportId(count);
      && |id| >= 6 && id[..2] == "R-" && AllDigits(id[2..])
      && DigitsValue(id[2..]) == count + 1
      && (|id| == 6 <==> count + 1 < 10000)
  {
    var digits := NatToString(count + 1);
    NatToStringDigits(count + 1);
    var padded := PadStart(digits, 4, '0');
    LeadingZerosValue(|padded| - |digits|, digits);
    assert FormatReportId(count)[2..] == padded;
    NatToStringLength(count + 1, 4);
    Pow10Value4();
  }

  lemma Pow10Value4()
    ensures Pow10(4) == 10000
  {
  }

  /** Different counts give different ids. */
  lemma FormatReportIdInjective(a: nat, b: nat)
    ensures FormatReportId(a) == FormatReportId(b) ==> a == b
  {
    ReportIdReadsBack(a);
    ReportIdReadsBack(b);
  }

  /** The pre-save hook: only a new report without an id gets one. */
  function AssignReportId(isNew: bool, current: string, count: nat): (id: string)
    ensures current != "" ==> id == current
    ensures isNew && current == "" ==> id == FormatReportId(count)
    ensures !isNew ==> id == current
  {
    if isNew && current == "" then FormatReportId(count) else current
  }
}
