/** The moderation engine (server/controllers/controllers/reportController.js):
    submitting a report, listing reports, and reviewing one. */
module ReportController {
  import opened Common
  import opened Listing
  import opened FeedbackModel
  import opened ReportModel
  import opened UserModel
  import opened AuditModel
  import opened Store
  import opened AuditLog

  // ---------------------------------------------------------------------
  // Request bodies

  /** One spelling of the three party properties; absent ones are `None`. */
  datatype PartyFields = PartyFields(userId: Option<string>, userName: Option<string>, userEmail: Option<string>)

  /** A party object as clients send it: camelCase properties, with the
      snake_case ones as fallback. */
  datatype PartyInput = PartyInput(camel: PartyFields, snake: PartyFields)

  datatype CreateReportRequest = CreateReportRequest(
    feedbackId: Option<nat>,
    reportedBy: Option<PartyInput>,
    feedbackAuthor: Option<PartyInput>,
    reason: Option<string>,
    details: Option<string>)

  /** `p.userId || p.user_id`, and so on; "" stands for a missing value,
      which the schema's `required` rejects either way. */
  function ResolveParty(p: PartyInput): (party: Party)
    ensures Truthy(p.camel.userId) ==> party.userId == p.camel.userId.value
    ensures !Truthy(p.camel.userId) ==> party.userId == OrElse(p.snake.userId, "")
    ensures Truthy(p.camel.userName) ==> party.userName == p.camel.userName.value
    ensures !Truthy(p.camel.userName) ==> party.userName == OrElse(p.snake.userName, "")
    ensures Truthy(p.camel.userEmail) ==> party.userEmail == p.camel.userEmail.value
    ensures !Truthy(p.camel.userEmail) ==> party.userEmail == OrElse(p.snake.userEmail, "")
  {
    Party(OrElse(p.camel.userId, OrElse(p.snake.userId, "")),
          OrElse(p.camel.userName, OrElse(p.snake.userName, "")),
          OrElse(p.camel.userEmail, OrElse(p.snake.userEmail, "")))
  }

  /** The stored details: the given text cut to 500 characters, or "". */
  function ReportDetails(details: Option<string>): (d: string)
    ensures |d| <= 500
    ensures Truthy(details) ==> d <= details.value && |d| == Min(|details.value|, 500)
    ensures !Truthy(details) ==> d == ""
  {
    if Truthy(details) then Take(details.value, 500) else ""
  }

  // ---------------------------------------------------------------------
  // The effect of one report on its feedback and on its author

  /** The feedback after one more report: one more count, one more entry,
      flagged from the third report on, then saved. */
  function RecordReport(f: Feedback, entry: ReportRef, now: nat): (g: Feedback)
    ensures FeedbackInvariant(f) ==> FeedbackInvariant(g)
    ensures g.reportsCount == f.reportsCount + 1 && g.reportedBy == f.reportedBy + [entry]
    ensures g.reportsCount >= 3 ==> g.status == Flagged
    ensures g.reportsCount < 3 ==> g.status == f.status
    ensures g.updatedAt == Some(now)
    ensures g.(reportsCount := f.reportsCount, reportedBy := f.reportedBy, status := f.status,
               updatedAt := f.updatedAt) == f
  {
    var count := f.reportsCount + 1;
    FeedbackModel.PreSave(f.(reportsCount := count, reportedBy := f.reportedBy + [entry],
                             status := if count >= 3 then Flagged else f.status), now)
  }

  /** A run of reports against the same feedback. */
  function RecordReports(f: Feedback, entries: seq<ReportRef>, now: nat): Feedback
    decreases |entries|
  {
    if entries == [] then f
    else RecordReports(RecordReport(f, entries[0], now), entries[1..], now)
  }

  /** After any run of reports the count and the list grow by the run, and
      the feedback is flagged once its count has reached three. */
  lemma {:induction false} RecordReportsEffect(f: Feedback, entries: seq<ReportRef>, now: nat)
    ensures var g := RecordReports(f, entries, now);
      && g.reportsCount == f.reportsCount + |entries|
      && g.reportedBy == f.reportedBy + entries
      && g.isVisible == f.isVisible
      && (entries != [] && g.reportsCount >= 3 ==> g.status == Flagged)
      && (g.reportsCount < 3 ==> g.status == f.status)
    decreases |entries|
  {
    if entries != [] {
      var g1 := RecordReport(f, entries[0], now);
      RecordReportsEffect(g1, entries[1..], now);
      assert f.reportedBy + [entries[0]] + entries[1..] == f.reportedBy + entries;
      if |entries| > 1 && g1.reportsCount >= 3 {
        assert RecordReports(g1, entries[1..], now).status == Flagged;
      }
    }
  }

  /** A fresh feedback is flagged exactly from its third report on. */
  lemma FreshFeedbackFlaggedAtThird(f: Feedback, entries: seq<ReportRef>, now: nat)
    requires f.reportsCount == 0 && f.status == Normal
    ensures RecordReports(f, entries, now).status == (if |entries| >= 3 then Flagged else Normal)
  {
    RecordReportsEffect(f, entries, now);
  }

  /** Flagging leaves `isVisible` alone: a removed, invisible feedback that
      gets its third report is flagged and still invisible, so the
      visibility rule of the admin status edit no longer holds of it. */
  lemma FlaggingKeepsInvisible(f: Feedback, entry: ReportRef, now: nat)
    requires f.status == Removed && !f.isVisible && f.reportsCount == 2
    ensures var g := RecordReport(f, entry, now);
      g.status == Flagged && !g.isVisible && g.isVisible != VisibleFor(g.status)
  {
  }

  /** The risk level implied by a number of reports received. */
  function RiskFor(n: nat): RiskLevel {
    if n >= 10 then HighRisk else if n >= 5 then MediumRisk else LowRisk
  }

  /** The author after one more report received: one more count, the risk
      thresholds at five and ten, then saved. */
  function ReceiveReport(u: User, now: nat): (v: User)
    ensures v.reportsReceived == u.reportsReceived + 1
    ensures v.reportsReceived >= 5 ==> v.riskLevel == RiskFor(v.reportsReceived)
    ensures v.reportsReceived < 5 ==> v.riskLevel == u.riskLevel
    ensures v.lastActive == now
    ensures v.(reportsReceived := u.reportsReceived, riskLevel := u.riskLevel, lastActive := u.lastActive) == u
  {
    var count := u.reportsReceived + 1;
    var risk := if count >= 10 then HighRisk else if count >= 5 then MediumRisk else u.riskLevel;
    UserModel.PreSave(u.(reportsReceived := count, riskLevel := risk), now)
  }

  /** A risk level that matches the count keeps matching it. */
  lemma ReceiveReportKeepsRiskDerived(u: User, now: nat)
    requires u.riskLevel == RiskFor(u.reportsReceived)
    ensures ReceiveReport(u, now).riskLevel == RiskFor(ReceiveReport(u, now).reportsReceived)
  {
  }

  /** The risk level can go down: an admin's `high` becomes `medium` when
      the author's count is between five and nine. */
  lemma RiskCanDecrease(u: User, now: nat)
    requires u.riskLevel == HighRisk && 4 <= u.reportsReceived <= 8
    ensures ReceiveReport(u, now).riskLevel == MediumRisk
  {
  }

  function ReceiveReports(u: User, k: nat, now: nat): User
    decreases k
  {
    if k == 0 then u else ReceiveReports(ReceiveReport(u, now), k - 1, now)
  }

  /** From a matching start, after k more reports the risk level is the one
      the new count implies. */
  lemma {:induction false} ReceiveReportsRisk(u: User, k: nat, now: nat)
    requires u.riskLevel == RiskFor(u.reportsReceived)
    ensures ReceiveReports(u, k, now).reportsReceived == u.reportsReceived + k
    ensures ReceiveReports(u, k, now).riskLevel == RiskFor(u.reportsReceived + k)
    decreases k
  {
    if k > 0 {
      ReceiveReportKeepsRiskDerived(u, now);
      ReceiveReportsRisk(ReceiveReport(u, now), k - 1, now);
    }
  }

  // ---------------------------------------------------------------------
  // createReport

  predicate MissingFields(req: CreateReportRequest) {
    req.feedbackId.None? || req.reportedBy.None? || req.feedbackAuthor.None? || !Truthy(req.reason)
  }

  /** Some stored report has this reporter on this feedback. */
  predicate AlreadyReported(reports: map<string, Report>, feedbackId: nat, reporterId: string) {
    exists k :: k in reports && reports[k].feedbackId == feedbackId && reports[k].reportedBy.userId == reporterId
  }

  /** What `Report.create` rejects before storing: an incomplete party or a
      reason outside the enumeration. */
  predicate SchemaRejects(req: CreateReportRequest)
    requires !MissingFields(req)
  {
    || !PartyComplete(ResolveParty(req.reportedBy.value))
    || !PartyComplete(ResolveParty(req.feedbackAuthor.value))
    || ParseReason(req.reason.value).None?
  }

  /** The report a successful request stores. */
  function ReportFor(req: CreateReportRequest, reportId: string, now: nat): (r: Report)
    requires !MissingFields(req) && !SchemaRejects(req)
    ensures r.reportId == reportId && r.feedbackId == req.feedbackId.value
    ensures r.reportedBy == ResolveParty(req.reportedBy.value)
    ensures r.feedbackAuthor == ResolveParty(req.feedbackAuthor.value)
    ensures r.reason.Name() == req.reason.value && r.details == ReportDetails(req.details)
    ensures r.status == Pending && r.action == NoAction && r.reviewedBy == None && r.createdAt == now
  {
    NewReport(reportId, req.feedbackId.value, ResolveParty(req.reportedBy.value),
              ResolveParty(req.feedbackAuthor.value), ParseReason(req.reason.value).value,
              ReportDetails(req.details), now)
  }

  method CreateReport(db: Database, req: CreateReportRequest, now: nat) returns (res: Response<Report>)
    requires db.Valid()
    modifies db
    ensures db.Valid()
    ensures db.auditLog == old(db.auditLog) && db.nextFeedbackId == old(db.nextFeedbackId)
    ensures MissingFields(req) ==>
      res == Fail(400, "Missing required fields", None) && unchanged(db)
    ensures (!MissingFields(req)
      && AlreadyReported(old(db.reports), req.feedbackId.value, ResolveParty(req.reportedBy.value).userId)) ==>
      res == Fail(400, "You have already reported this feedback", None) && unchanged(db)
    ensures (!MissingFields(req)
      && !AlreadyReported(old(db.reports), req.feedbackId.value, ResolveParty(req.reportedBy.value).userId)
      && (SchemaRejects(req) || FormatReportId(|old(db.reports)|) in old(db.reports))) ==>
      res == Fail(500, "Failed to submit report", None) && unchanged(db)
    ensures res.Ok? <==>
      (&& !MissingFields(req) && !SchemaRejects(req)
       && !AlreadyReported(old(db.reports), req.feedbackId.value, ResolveParty(req.reportedBy.value).userId)
       && FormatReportId(|old(db.reports)|) !in old(db.reports))
    ensures res.Ok? ==>
      var id := FormatReportId(|old(db.reports)|);
      var fid := req.feedbackId.value;
      var author := ResolveParty(req.feedbackAuthor.value).userId;
      && res == Ok(201, ReportFor(req, id, now))
      && db.reports == old(db.reports)[id := res.data]
      && db.feedbacks == (if fid in old(db.feedbacks) then
           old(db.feedbacks)[fid := RecordReport(old(db.feedbacks)[fid],
                                                 ReportRef(res.data.reportedBy.userId, id, now), now)]
         else old(db.feedbacks))
      && db.users == (if author in old(db.users) then
           old(db.users)[author := ReceiveReport(old(db.users)[author], now)]
         else old(db.users))
  {
    if MissingFields(req) {
      return Fail(400, "Missing required fields", None);
    }
    var fid := req.feedbackId.value;
    var reporter := ResolveParty(req.reportedBy.value);
    if AlreadyReported(db.reports, fid, reporter.userId) {
      return Fail(400, "You have already reported this feedback", None);
    }
    if SchemaRejects(req) {
      return Fail(500, "Failed to submit report", None);
    }
    var id := FormatReportId(|db.reports|);
    if id in db.reports {
      // the unique index on reportId refuses the insert
      return Fail(500, "Failed to submit report", None);
    }
    var report := ReportFor(req, id, now);
    AddReport(db, report);
    FeedbackReported(db, fid, ReportRef(reporter.userId, id, now), now);
    AuthorReported(db, report.feedbackAuthor.userId, now);
    res := Ok(201, report);
  }

  /** The insert of `Report.create`. */
  method AddReport(db: Database, r: Report)
    requires db.Valid()
    requires r.reportId !in db.reports && r.status == Pending && r.reviewedBy == None && r.reviewedAt == None
    requires PartyComplete(r.reportedBy) && PartyComplete(r.feedbackAuthor) && |r.details| <= 500
    requires !AlreadyReported(db.reports, r.feedbackId, r.reportedBy.userId)
    modifies db
    ensures db.Valid()
    ensures db.reports == old(db.reports)[r.reportId := r]
    ensures db.users == old(db.users) && db.feedbacks == old(db.feedbacks)
    ensures db.auditLog == old(db.auditLog) && db.nextFeedbackId == old(db.nextFeedbackId)
  {
    InsertReportSound(db.reports, r);
    db.reports := db.reports[r.reportId := r];
  }

  /** The feedback side of a report: count, entry, flag, save. */
  method FeedbackReported(db: Database, fid: nat, entry: ReportRef, now: nat)
    requires db.Valid()
    modifies db
    ensures db.Valid()
    ensures db.feedbacks == (if fid in old(db.feedbacks) then
      old(db.feedbacks)[fid := RecordReport(old(db.feedbacks)[fid], entry, now)] else old(db.feedbacks))
    ensures db.users == old(db.users) && db.reports == old(db.reports)
    ensures db.auditLog == old(db.auditLog) && db.nextFeedbackId == old(db.nextFeedbackId)
  {
    if fid in db.feedbacks {
      var f := RecordReport(db.feedbacks[fid], entry, now);
      UpdateFeedbackSound(db.feedbacks, db.nextFeedbackId, fid, f);
      db.feedbacks := db.feedbacks[fid := f];
    }
  }

  /** The author side of a report: count, risk level, save. */
  method AuthorReported(db: Database, author: string, now: nat)
    requires db.Valid()
    modifies db
    ensures db.Valid()
    ensures db.users == (if author in old(db.users) then
      old(db.users)[author := ReceiveReport(old(db.users)[author], now)] else old(db.users))
    ensures db.feedbacks == old(db.feedbacks) && db.reports == old(db.reports)
    ensures db.auditLog == old(db.auditLog) && db.nextFeedbackId == old(db.nextFeedbackId)
  {
    if author in db.users {
      var u := ReceiveReport(db.users[author], now);
      UpdateUserSound(db.users, author, u);
      db.users := db.users[author := u];
    }
  }

  // ---------------------------------------------------------------------
  // getAllReports

  /** Whether the listing's status filter admits a report: no filter for a
      missing status or `all`, otherwise an exact match of the name. */
  predicate StatusFilterAdmits(status: Option<string>, r: Report) {
    !Truthy(status) || status.value == "all" || r.status.Name() == status.value
  }

  /** The ids of the stored reports the filter admits. */
  function ReportsAdmitted(reports: map<string, Report>, status: Option<string>): (keys: set<string>)
    ensures forall k :: k in keys <==> k in reports && StatusFilterAdmits(status, reports[k])
  {
    set k | k in reports && StatusFilterAdmits(status, reports[k])
  }

  /** The listed reports: exactly those the filter admits, newest first. */
  ghost function GetAllReports(reports: map<string, Report>, status: Option<string>): (r: seq<Report>)
    ensures |r| == |ReportsAdmitted(reports, status)|
    ensures forall k :: k in reports && StatusFilterAdmits(status, reports[k]) ==> reports[k] in r
    ensures forall i :: 0 <= i < |r| ==> r[i] in reports.Values && StatusFilterAdmits(status, r[i])
    ensures forall i, j :: 0 <= i < j < |r| ==> r[i].createdAt >= r[j].createdAt
  {
    var keys := ReportsAdmitted(reports, status);
    var r := NewestRecords(reports, keys, ReportCreated);
    assert forall i :: 0 <= i < |r| ==> r[i] in reports.Values && StatusFilterAdmits(status, r[i]) by {
      forall i | 0 <= i < |r| ensures r[i] in reports.Values && StatusFilterAdmits(status, r[i]) {
        var k :| k in keys && r[i] == reports[k];
      }
    }
    r
  }

  // ---------------------------------------------------------------------
  // reviewReport

  /** The audit severity of a review, decided on the raw action text. */
  function ReviewSeverity(action: Option<string>): (s: Severity)
    ensures s == High <==> action == Some("user_banned")
    ensures s == Medium <==> action == Some("user_suspended") || action == Some("content_removed")
    ensures s == Low <==> !(action == Some("user_banned") || action == Some("user_suspended")
                            || action == Some("content_removed"))
  {
    if action == Some("user_banned") then High
    else if action == Some("user_suspended") || action == Some("content_removed") then Medium
    else Low
  }

  /** `Action: ${action}`, where an absent action prints as `undefined`. */
  function ReviewDetails(action: Option<string>): string {
    "Action: " + (if action.Some? then action.value else "undefined")
  }

  /** The review fields as the handler assigns them, if the schema accepts
      them: the given status or `reviewed`, the given action or `none`. */
  function Reviewed(r: Report, status: Option<string>, action: Option<string>, now: nat): (o: Option<Report>)
    ensures o.Some? <==> (ParseReportStatus(OrElse(status, "reviewed")).Some?
                          && ParseReportAction(OrElse(action, "none")).Some?)
    ensures o.Some? ==> && o.value.status.Name() == OrElse(status, "reviewed")
                        && o.value.action.Name() == OrElse(action, "none")
                        && o.value.reviewedBy == Some("Admin") && o.value.reviewedAt == Some(now)
                        && o.value.(status := r.status, action := r.action, reviewedBy := r.reviewedBy,
                                    reviewedAt := r.reviewedAt) == r
  {
    var st := ParseReportStatus(OrElse(status, "reviewed"));
    var act := ParseReportAction(OrElse(action, "none"));
    if st.None? || act.None? then None
    else Some(r.(status := st.value, action := act.value, reviewedBy := Some("Admin"), reviewedAt := Some(now)))
  }

  /** `findByIdAndUpdate` of a removed feedback: no save hook runs. */
  function RemoveContent(f: Feedback): (g: Feedback)
    ensures g.status == Removed && !g.isVisible && g.isVisible == VisibleFor(g.status)
    ensures g.(status := f.status, isVisible := f.isVisible) == f
  {
    f.(status := Removed, isVisible := false)
  }

  /** `findOneAndUpdate` of a suspended or banned author: no save hook runs. */
  function SanctionAuthor(u: User, ban: bool, now: nat): (v: User)
    ensures ban ==> v.status == Banned && v.bannedAt == Some(now) && v.suspensionReason == "Severe violations"
                    && v.suspendedAt == u.suspendedAt
    ensures !ban ==> v.status == Suspended && v.suspendedAt == Some(now)
                     && v.suspensionReason == "Multiple reports received" && v.bannedAt == u.bannedAt
    ensures UserInvariant(v)
    ensures v.(status := u.status, bannedAt := u.bannedAt, suspendedAt := u.suspendedAt,
               suspensionReason := u.suspensionReason) == u
  {
    if ban then u.(status := Banned, bannedAt := Some(now), suspensionReason := "Severe violations")
    else u.(status := Suspended, suspendedAt := Some(now), suspensionReason := "Multiple reports received")
  }

  method ReviewReport(db: Database, reportId: string, action: Option<string>, status: Option<string>, now: nat)
    returns (res: Response<Report>)
    requires db.Valid()
    modifies db
    ensures db.Valid()
    ensures db.nextFeedbackId == old(db.nextFeedbackId)
    ensures reportId !in old(db.reports) ==> res == Fail(404, "Report not found", None) && unchanged(db)
    ensures reportId in old(db.reports) && Reviewed(old(db.reports)[reportId], status, action, now).None? ==>
      res == Fail(500, "Failed to review report", None) && unchanged(db)
    ensures res.Ok? <==> reportId in old(db.reports) && Reviewed(old(db.reports)[reportId], status, action, now).Some?
    ensures res.Ok? ==>
      var r := Reviewed(old(db.reports)[reportId], status, action, now).value;
      var fid := r.feedbackId;
      var author := r.feedbackAuthor.userId;
      && res == Ok(200, r)
      && db.reports == old(db.reports)[reportId := r]
      && db.feedbacks == (if action == Some("content_removed") && fid in old(db.feedbacks) then
           old(db.feedbacks)[fid := RemoveContent(old(db.feedbacks)[fid])]
         else old(db.feedbacks))
      && db.users == (if (action == Some("user_suspended") || action == Some("user_banned"))
                         && author in old(db.users) then
           old(db.users)[author := SanctionAuthor(old(db.users)[author], action == Some("user_banned"), now)]
         else old(db.users))
      && db.auditLog == old(db.auditLog) +
           [AuditEntry(now, "Admin", AuditAction.ReviewReport, "report", Trim(reportId),
                       Take(ReviewDetails(action), 1000), ReviewSeverity(action))]
  {
    if reportId !in db.reports {
      return Fail(404, "Report not found", None);
    }
    var reviewed := Reviewed(db.reports[reportId], status, action, now);
    if reviewed.None? {
      // the save's enum validation fails
      return Fail(500, "Failed to review report", None);
    }
    var r := reviewed.value;
    PutReviewedReport(db, r);
    ApplyReviewAction(db, r, action, now);
    RecordHandlerCall(db, AuditAction.ReviewReport, "report", reportId, ReviewDetails(action),
                      ReviewSeverity(action), now);
    res := Ok(200, r);
  }

  /** The save of the reviewed report. */
  method PutReviewedReport(db: Database, r: Report)
    requires db.Valid()
    requires r.reportId in db.reports
    requires r.feedbackId == db.reports[r.reportId].feedbackId
    requires r.reportedBy == db.reports[r.reportId].reportedBy
    requires r.feedbackAuthor == db.reports[r.reportId].feedbackAuthor
    requires r.details == db.reports[r.reportId].details
    requires r.reviewedBy.Some? && r.reviewedAt.Some?
    modifies db
    ensures db.Valid()
    ensures db.reports == old(db.reports)[r.reportId := r]
    ensures db.users == old(db.users) && db.feedbacks == old(db.feedbacks)
    ensures db.auditLog == old(db.auditLog) && db.nextFeedbackId == old(db.nextFeedbackId)
  {
    UpdateReportSound(db.reports, r);
    db.reports := db.reports[r.reportId := r];
  }

  /** The action-driven effect of a review on the feedback or its author. */
  method ApplyReviewAction(db: Database, r: Report, action: Option<string>, now: nat)
    requires db.Valid()
    modifies db
    ensures db.Valid()
    ensures db.feedbacks == (if action == Some("content_removed") && r.feedbackId in old(db.feedbacks) then
      old(db.feedbacks)[r.feedbackId := RemoveContent(old(db.feedbacks)[r.feedbackId])]
      else old(db.feedbacks))
    ensures db.users == (if (action == Some("user_suspended") || action == Some("user_banned"))
                            && r.feedbackAuthor.userId in old(db.users) then
      old(db.users)[r.feedbackAuthor.userId :=
        SanctionAuthor(old(db.users)[r.feedbackAuthor.userId], action == Some("user_banned"), now)]
      else old(db.users))
    ensures db.reports == old(db.reports)
    ensures db.auditLog == old(db.auditLog) && db.nextFeedbackId == old(db.nextFeedbackId)
  {
    if action == Some("content_removed") {
      RemoveReportedContent(db, r.feedbackId);
    } else if action == Some("user_suspended") || action == Some("user_banned") {
      SanctionReportedAuthor(db, r.feedbackAuthor.userId, action == Some("user_banned"), now);
    }
  }

  /** The `content_removed` action: the feedback, when it still exists, is
      hidden and marked removed. */
  method RemoveReportedContent(db: Database, fid: nat)
    requires db.Valid()
    modifies db
    ensures db.Valid()
    ensures db.feedbacks == (if fid in old(db.feedbacks) then
      old(db.feedbacks)[fid := RemoveContent(old(db.feedbacks)[fid])] else old(db.feedbacks))
    ensures db.users == old(db.users) && db.reports == old(db.reports)
    ensures db.auditLog == old(db.auditLog) && db.nextFeedbackId == old(db.nextFeedbackId)
  {
    if fid in db.feedbacks {
      var g := RemoveContent(db.feedbacks[fid]);
      UpdateFeedbackSound(db.feedbacks, db.nextFeedbackId, fid, g);
      db.feedbacks := db.feedbacks[fid := g];
    }
  }

  /** The `user_suspended` and `user_banned` actions: the author, when the
      account still exists, is sanctioned. */
  method SanctionReportedAuthor(db: Database, author: string, ban: bool, now: nat)
    requires db.Valid()
    modifies db
    ensures db.Valid()
    ensures db.users == (if author in old(db.users) then
      old(db.users)[author := SanctionAuthor(old(db.users)[author], ban, now)] else old(db.users))
    ensures db.feedbacks == old(db.feedbacks) && db.reports == old(db.reports)
    ensures db.auditLog == old(db.auditLog) && db.nextFeedbackId == old(db.nextFeedbackId)
  {
    if author in db.users {
      var v := SanctionAuthor(db.users[author], ban, now);
      UpdateUserSound(db.users, author, v);
      db.users := db.users[author := v];
    }
  }
}
