/** Admin user management (server/controllers/userController.js): the user
    listing with derived counts, one user's details, the status and risk
    edits, and the cascading delete. */
module UserController {
  import opened Common
  import opened Listing
  import opened FeedbackModel
  import opened ReportModel
  import opened UserModel
  import opened AuditModel
  import opened Store
  import opened AuditLog

  // ---------------------------------------------------------------------
  // Derived counts

  /** The feedback recorded under this author id. */
  function FeedbackKeysOf(feedbacks: map<nat, Feedback>, userId: string): set<nat> {
    set k | k in feedbacks && feedbacks[k].userId == userId
  }

  /** The reports that name this user as the feedback's author. */
  function ReportKeysAgainst(reports: map<string, Report>, userId: string): set<string> {
    set k | k in reports && reports[k].feedbackAuthor.userId == userId
  }

  /** A listed user: the stored record without its password, with both
      counters recounted from the other collections. */
  function WithStats(u: User, feedbacks: map<nat, Feedback>, reports: map<string, Report>): (v: User)
    ensures v.feedbackCount == |FeedbackKeysOf(feedbacks, u.userId)|
    ensures v.reportsReceived == |ReportKeysAgainst(reports, u.userId)|
    ensures v.password == ""
    ensures v.(feedbackCount := u.feedbackCount, reportsReceived := u.reportsReceived,
               password := u.password) == u
  {
    u.(password := "", feedbackCount := |FeedbackKeysOf(feedbacks, u.userId)|,
       reportsReceived := |ReportKeysAgainst(reports, u.userId)|)
  }

  /** The stored counters play no part in what is listed. */
  lemma WithStatsIgnoresStoredCounts(u: User, feedbacks: map<nat, Feedback>, reports: map<string, Report>,
                                     a: nat, b: nat)
    ensures WithStats(u.(feedbackCount := a, reportsReceived := b), feedbacks, reports)
         == WithStats(u, feedbacks, reports)
  {
  }

  // ---------------------------------------------------------------------
  // getAllUsers

  /** The query string; an absent parameter is `None`. */
  datatype UserQuery = UserQuery(status: Option<string>, riskLevel: Option<string>, search: Option<string>)

  /** Status and risk filters apply when given and not `all`; the trimmed
      search term, when not blank, must occur in the first name, last
      name, e-mail or user id, ignoring case. */
  predicate UserQueryAdmits(q: UserQuery, u: User) {
    && (!Truthy(q.status) || q.status.value == "all" || u.status.Name() == q.status.value)
    && (!Truthy(q.riskLevel) || q.riskLevel.value == "all" || u.riskLevel.Name() == q.riskLevel.value)
    && (!Truthy(q.search) || Trim(q.search.value) == "" ||
        var term := Trim(q.search.value);
        ContainsIgnoreCase(u.firstName, term) || ContainsIgnoreCase(u.lastName, term)
        || ContainsIgnoreCase(u.email, term) || ContainsIgnoreCase(u.userId, term))
  }

  /** The totals every listing carries. */
  datatype UserStats = UserStats(total: nat, active: nat, suspended: nat, banned: nat, highRisk: nat)

  function UsersWithStatus(users: map<string, User>, s: UserStatus): set<string> {
    set k | k in users && users[k].status == s
  }

  function UsersStats(users: map<string, User>): UserStats {
    UserStats(|users|, |UsersWithStatus(users, Active)|, |UsersWithStatus(users, Suspended)|,
              |UsersWithStatus(users, Banned)|, |HighRiskUsers(users)|)
  }

  function HighRiskUsers(users: map<string, User>): set<string> {
    set k | k in users && users[k].riskLevel == HighRisk
  }

  datatype UserListing = UserListing(data: seq<User>, stats: UserStats)

  /** `v` is the listed form of a stored user the query admits. */
  ghost predicate ListedFrom(users: map<string, User>, feedbacks: map<nat, Feedback>,
                             reports: map<string, Report>, q: UserQuery, v: User) {
    exists k :: k in users && UserQueryAdmits(q, users[k]) && v == WithStats(users[k], feedbacks, reports)
  }

  function UserCreated(u: User): nat { u.createdAt }

  /** The ids of the stored users the query admits. */
  function Admitted(users: map<string, User>, q: UserQuery): (keys: set<string>)
    ensures forall k :: k in keys <==> k in users && UserQueryAdmits(q, users[k])
  {
    set k | k in users && UserQueryAdmits(q, users[k])
  }

  /** The listing: every admitted user once, newest first, each with its
      counts; the totals over all users. */
  ghost function GetAllUsers(users: map<string, User>, feedbacks: map<nat, Feedback>,
                             reports: map<string, Report>, q: UserQuery): (r: UserListing)
    ensures |r.data| == |Admitted(users, q)|
    ensures forall k :: k in users && UserQueryAdmits(q, users[k]) ==>
      WithStats(users[k], feedbacks, reports) in r.data
    ensures forall i :: 0 <= i < |r.data| ==> ListedFrom(users, feedbacks, reports, q, r.data[i])
    ensures forall i, j :: 0 <= i < j < |r.data| ==> r.data[i].createdAt >= r.data[j].createdAt
    ensures r.stats == UsersStats(users)
  {
    var keys := Admitted(users, q);
    var ordered := NewestRecords(users, keys, UserCreated);
    var data := AllWithStats(ordered, feedbacks, reports);
    ListingCovers(users, feedbacks, reports, q, keys, ordered, data);
    UserListing(data, UsersStats(users))
  }

  function AllWithStats(us: seq<User>, feedbacks: map<nat, Feedback>, reports: map<string, Report>)
    : (r: seq<User>)
    ensures |r| == |us| && forall i :: 0 <= i < |us| ==> r[i] == WithStats(us[i], feedbacks, reports)
  {
    seq(|us|, i requires 0 <= i < |us| => WithStats(us[i], feedbacks, reports))
  }

  lemma ListingCovers(users: map<string, User>, feedbacks: map<nat, Feedback>, reports: map<string, Report>,
                      q: UserQuery, keys: set<string>, ordered: seq<User>, data: seq<User>)
    requires forall k :: k in keys <==> k in users && UserQueryAdmits(q, users[k])
    requires forall k :: k in keys ==> users[k] in ordered
    requires forall i :: 0 <= i < |ordered| ==> RecordOf(users, keys, ordered[i])
    requires |data| == |ordered| && forall i :: 0 <= i < |ordered| ==> data[i] == WithStats(ordered[i], feedbacks, reports)
    requires forall i, j :: 0 <= i < j < |ordered| ==> ordered[i].createdAt >= ordered[j].createdAt
    ensures forall k :: k in keys ==> WithStats(users[k], feedbacks, reports) in data
    ensures forall i :: 0 <= i < |data| ==> ListedFrom(users, feedbacks, reports, q, data[i])
    ensures forall i, j :: 0 <= i < j < |data| ==> data[i].createdAt >= data[j].createdAt
  {
    forall k | k in keys ensures WithStats(users[k], feedbacks, reports) in data {
      var i :| 0 <= i < |ordered| && ordered[i] == users[k];
      assert data[i] == WithStats(users[k], feedbacks, reports);
    }
    forall i | 0 <= i < |data| ensures ListedFrom(users, feedbacks, reports, q, data[i]) {
      assert RecordOf(users, keys, ordered[i]);
      var k :| k in keys && k in users && ordered[i] == users[k];
      assert data[i] == WithStats(users[k], feedbacks, reports);
    }
  }

  /** The totals do not depend on the filters. */
  lemma StatsIgnoreQuery(users: map<string, User>, feedbacks: map<nat, Feedback>,
                         reports: map<string, Report>, q1: UserQuery, q2: UserQuery)
    ensures GetAllUsers(users, feedbacks, reports, q1).stats == GetAllUsers(users, feedbacks, reports, q2).stats
  {
  }

  /** With no filters every user is listed. */
  lemma NoQueryListsAll(users: map<string, User>, feedbacks: map<nat, Feedback>, reports: map<string, Report>)
    ensures |GetAllUsers(users, feedbacks, reports, UserQuery(None, None, None)).data| == |users|
  {
    assert Admitted(users, UserQuery(None, None, None)) == users.Keys;
  }

  /** Every user has exactly one of the three statuses, so the three
      status totals add up to the total, and the high-risk total is
      within it. */
  lemma StatsPartition(users: map<string, User>)
    ensures var s := UsersStats(users);
      s.active + s.suspended + s.banned == s.total && s.highRisk <= s.total
  {
    StatusesPartition(users);
    SubsetCardinality(HighRiskUsers(users), users.Keys);
  }

  lemma StatusesPartition(users: map<string, User>)
    ensures |UsersWithStatus(users, Active)| + |UsersWithStatus(users, Suspended)|
          + |UsersWithStatus(users, Banned)| == |users|
  {
    var a, su, b := UsersWithStatus(users, Active), UsersWithStatus(users, Suspended), UsersWithStatus(users, Banned);
    assert a * su == {};
    assert (a + su) * b == {};
    assert a + su + b == users.Keys;
  }

  // ---------------------------------------------------------------------
  // getUserDetails

  datatype UserDetails = UserDetails(user: User, feedbacks: seq<Feedback>, reports: seq<Report>)

  /** One user without the password, the feedback under its id and the
      reports against it, each newest first; 404 for an unknown id. */
  ghost function GetUserDetails(users: map<string, User>, feedbacks: map<nat, Feedback>,
                                reports: map<string, Report>, userId: string): (r: Response<UserDetails>)
    ensures userId !in users <==> r == Fail(404, "User not found", None)
    ensures r.Ok? ==> && r.status == 200
                      && r.data.user == users[userId].(password := "")
                      && |r.data.feedbacks| == |FeedbackKeysOf(feedbacks, userId)|
                      && |r.data.reports| == |ReportKeysAgainst(reports, userId)|
    ensures r.Ok? ==> forall i :: 0 <= i < |r.data.feedbacks| ==>
      r.data.feedbacks[i] in feedbacks.Values && r.data.feedbacks[i].userId == userId
    ensures r.Ok? ==> forall k :: k in FeedbackKeysOf(feedbacks, userId) ==> feedbacks[k] in r.data.feedbacks
    ensures r.Ok? ==> forall i :: 0 <= i < |r.data.reports| ==>
      r.data.reports[i] in reports.Values && r.data.reports[i].feedbackAuthor.userId == userId
    ensures r.Ok? ==> forall k :: k in ReportKeysAgainst(reports, userId) ==> reports[k] in r.data.reports
    ensures r.Ok? ==> forall i, j :: 0 <= i < j < |r.data.feedbacks| ==>
      r.data.feedbacks[i].createdAt >= r.data.feedbacks[j].createdAt
    ensures r.Ok? ==> forall i, j :: 0 <= i < j < |r.data.reports| ==>
      r.data.reports[i].createdAt >= r.data.reports[j].createdAt
  {
    if userId !in users then Fail(404, "User not found", None)
    else
      Ok(200, UserDetails(users[userId].(password := ""), AuthoredNewest(feedbacks, userId),
                          AgainstNewest(reports, userId)))
  }

  /** `Feedback.find({ userId }).sort({ createdAt: -1 })`. */
  ghost function AuthoredNewest(feedbacks: map<nat, Feedback>, userId: string): (fs: seq<Feedback>)
    ensures |fs| == |FeedbackKeysOf(feedbacks, userId)|
    ensures forall i :: 0 <= i < |fs| ==> fs[i] in feedbacks.Values && fs[i].userId == userId
    ensures forall k :: k in FeedbackKeysOf(feedbacks, userId) ==> feedbacks[k] in fs
    ensures forall i, j :: 0 <= i < j < |fs| ==> fs[i].createdAt >= fs[j].createdAt
  {
    var fk := FeedbackKeysOf(feedbacks, userId);
    var fs := NewestRecords(feedbacks, fk, FeedbackCreated);
    RecordsSatisfy(feedbacks, fk, fs, (f: Feedback) => f.userId == userId);
    fs
  }

  /** `Report.find({ 'feedbackAuthor.userId': userId }).sort({ createdAt: -1 })`. */
  ghost function AgainstNewest(reports: map<string, Report>, userId: string): (rs: seq<Report>)
    ensures |rs| == |ReportKeysAgainst(reports, userId)|
    ensures forall i :: 0 <= i < |rs| ==> rs[i] in reports.Values && rs[i].feedbackAuthor.userId == userId
    ensures forall k :: k in ReportKeysAgainst(reports, userId) ==> reports[k] in rs
    ensures forall i, j :: 0 <= i < j < |rs| ==> rs[i].createdAt >= rs[j].createdAt
  {
    var rk := ReportKeysAgainst(reports, userId);
    var rs := NewestRecords(reports, rk, ReportCreated);
    RecordsSatisfy(reports, rk, rs, (r: Report) => r.feedbackAuthor.userId == userId);
    rs
  }

  // ---------------------------------------------------------------------
  // updateUserStatus

  /** The fields the handler assigns for a new status: a suspension or ban
      time and the reason (or ""), or, on reactivation, no times and no
      reason. A ban keeps an earlier suspension time. */
  function ApplyStatus(u: User, s: UserStatus, reason: Option<string>, now: nat): (v: User)
    ensures v.status == s && UserInvariant(v)
    ensures s == Suspended ==> && v.suspendedAt == Some(now) && v.bannedAt == u.bannedAt
                               && v.suspensionReason == OrElse(reason, "")
    ensures s == Banned ==> && v.bannedAt == Some(now) && v.suspendedAt == u.suspendedAt
                            && v.suspensionReason == OrElse(reason, "")
    ensures s == Active ==> v.suspendedAt == None && v.bannedAt == None && v.suspensionReason == ""
    ensures v.(status := u.status, suspendedAt := u.suspendedAt, bannedAt := u.bannedAt,
               suspensionReason := u.suspensionReason) == u
  {
    match s
    case Suspended => u.(status := s, suspendedAt := Some(now), suspensionReason := OrElse(reason, ""))
    case Banned => u.(status := s, bannedAt := Some(now), suspensionReason := OrElse(reason, ""))
    case Active => u.(status := s, suspendedAt := None, bannedAt := None, suspensionReason := "")
  }

  /** Reactivation undoes every trace of a suspension or ban. */
  lemma ReactivateClears(u: User, s: UserStatus, reason: Option<string>, reason': Option<string>,
                         t: nat, t': nat)
    ensures var v := ApplyStatus(ApplyStatus(u, s, reason, t), Active, reason', t');
      v == ApplyStatus(u, Active, reason', t')
  {
  }

  /** A user banned after a suspension keeps both times. */
  lemma BanAfterSuspension(u: User, r1: Option<string>, r2: Option<string>, t1: nat, t2: nat)
    ensures var v := ApplyStatus(ApplyStatus(u, Suspended, r1, t1), Banned, r2, t2);
      v.status == Banned && v.suspendedAt == Some(t1) && v.bannedAt == Some(t2)
  {
  }

  /** The audit action and severity of a status change. */
  function StatusAudit(s: UserStatus): (r: (AuditAction, Severity))
    ensures r.0 == Ban <==> r.1 == High
    ensures r.0 == Suspend <==> r.1 == Medium
    ensures r.0 == Approve <==> r.1 == Low
    ensures (r.0 == Ban <==> s == Banned) && (r.0 == Suspend <==> s == Suspended)
  {
    match s
    case Banned => (Ban, High)
    case Suspended => (Suspend, Medium)
    case Active => (Approve, Low)
  }

  /** `Reason: ${reason}` for a truthy reason, `User set to ${status}` otherwise. */
  function StatusDetails(s: UserStatus, reason: Option<string>): string {
    if Truthy(reason) then "Reason: " + reason.value else "User set to " + s.Name()
  }

  method UpdateUserStatus(db: Database, userId: string, status: Option<string>, reason: Option<string>, now: nat)
    returns (res: Response<User>)
    requires db.Valid()
    modifies db
    ensures db.Valid()
    ensures db.feedbacks == old(db.feedbacks) && db.reports == old(db.reports)
    ensures db.nextFeedbackId == old(db.nextFeedbackId)
    ensures (status.None? || ParseUserStatus(status.value).None?) ==>
      res == Fail(400, "Invalid status", None) && unchanged(db)
    ensures (status.Some? && ParseUserStatus(status.value).Some? && userId !in old(db.users)) ==>
      res == Fail(404, "User not found", None) && unchanged(db)
    ensures res.Ok? <==> status.Some? && ParseUserStatus(status.value).Some? && userId in old(db.users)
    ensures res.Ok? ==>
      var s := ParseUserStatus(status.value).value;
      && res == Ok(200, UserModel.PreSave(ApplyStatus(old(db.users)[userId], s, reason, now), now))
      && db.users == old(db.users)[userId := res.data]
      && db.auditLog == old(db.auditLog) +
           [AuditEntry(now, "Admin", StatusAudit(s).0, "user", Trim(userId),
                       Take(StatusDetails(s, reason), 1000), StatusAudit(s).1)]
  {
    if status.None? || ParseUserStatus(status.value).None? {
      return Fail(400, "Invalid status", None);
    }
    if userId !in db.users {
      return Fail(404, "User not found", None);
    }
    var s := ParseUserStatus(status.value).value;
    var v := UserModel.PreSave(ApplyStatus(db.users[userId], s, reason, now), now);
    PutUser(db, v);
    RecordHandlerCall(db, StatusAudit(s).0, "user", userId, StatusDetails(s, reason), StatusAudit(s).1, now);
    res := Ok(200, v);
  }

  /** The save of an edited user whose identity, e-mail and profile fields
      are those of the stored one. */
  method PutUser(db: Database, v: User)
    requires db.Valid()
    requires v.userId in db.users
    requires v.email == db.users[v.userId].email && v.firstName == db.users[v.userId].firstName
    requires v.lastName == db.users[v.userId].lastName && v.password == db.users[v.userId].password
    requires UserInvariant(v)
    modifies db
    ensures db.Valid()
    ensures db.users == old(db.users)[v.userId := v]
    ensures db.feedbacks == old(db.feedbacks) && db.reports == old(db.reports)
    ensures db.auditLog == old(db.auditLog) && db.nextFeedbackId == old(db.nextFeedbackId)
  {
    UpdateUserSound(db.users, v.userId, v);
    db.users := db.users[v.userId := v];
  }

  // ---------------------------------------------------------------------
  // updateUserRiskLevel

  method UpdateUserRiskLevel(db: Database, userId: string, riskLevel: Option<string>, now: nat)
    returns (res: Response<User>)
    requires db.Valid()
    modifies db
    ensures db.Valid()
    ensures db.feedbacks == old(db.feedbacks) && db.reports == old(db.reports)
    ensures db.auditLog == old(db.auditLog) && db.nextFeedbackId == old(db.nextFeedbackId)
    ensures (riskLevel.None? || ParseRiskLevel(riskLevel.value).None?) ==>
      res == Fail(400, "Invalid risk level", None) && unchanged(db)
    ensures (riskLevel.Some? && ParseRiskLevel(riskLevel.value).Some? && userId !in old(db.users)) ==>
      res == Fail(404, "User not found", None) && unchanged(db)
    ensures res.Ok? <==> riskLevel.Some? && ParseRiskLevel(riskLevel.value).Some? && userId in old(db.users)
    ensures res.Ok? ==>
      && res.status == 200
      && res.data.riskLevel.Name() == riskLevel.value && res.data.lastActive == now
      && res.data.(riskLevel := old(db.users)[userId].riskLevel,
                   lastActive := old(db.users)[userId].lastActive) == old(db.users)[userId]
      && db.users == old(db.users)[userId := res.data]
  {
    if riskLevel.None? || ParseRiskLevel(riskLevel.value).None? {
      return Fail(400, "Invalid risk level", None);
    }
    if userId !in db.users {
      return Fail(404, "User not found", None);
    }
    var v := UserModel.PreSave(db.users[userId].(riskLevel := ParseRiskLevel(riskLevel.value).value), now);
    PutUser(db, v);
    res := Ok(200, v);
  }

  // ---------------------------------------------------------------------
  // deleteUser

  /** The feedback left once everything under this author id is deleted. */
  function FeedbacksWithout(feedbacks: map<nat, Feedback>, userId: string): (r: map<nat, Feedback>)
    ensures forall k :: k in r <==> k in feedbacks && feedbacks[k].userId != userId
    ensures forall k :: k in r ==> r[k] == feedbacks[k]
  {
    map k | k in feedbacks && feedbacks[k].userId != userId :: feedbacks[k]
  }

  /** The reports left once every report this user filed or received is
      deleted. */
  function ReportsWithout(reports: map<string, Report>, userId: string): (r: map<string, Report>)
    ensures forall k :: k in r <==>
      k in reports && reports[k].reportedBy.userId != userId && reports[k].feedbackAuthor.userId != userId
    ensures forall k :: k in r ==> r[k] == reports[k]
  {
    map k | k in reports && reports[k].reportedBy.userId != userId
                         && reports[k].feedbackAuthor.userId != userId :: reports[k]
  }

  /** After the cascade the user has no feedback and no reports against it
      left, so a later listing would count zero for the id. */
  lemma CascadeLeavesNoCounts(feedbacks: map<nat, Feedback>, reports: map<string, Report>, userId: string)
    ensures FeedbackKeysOf(FeedbacksWithout(feedbacks, userId), userId) == {}
    ensures ReportKeysAgainst(ReportsWithout(reports, userId), userId) == {}
  {
  }

  /** Another user's feedback count survives the cascade. */
  lemma CascadeKeepsOthersFeedback(feedbacks: map<nat, Feedback>, userId: string, other: string)
    requires other != userId
    ensures FeedbackKeysOf(FeedbacksWithout(feedbacks, userId), other) == FeedbackKeysOf(feedbacks, other)
  {
  }

  /** Another user's count of reports received loses exactly the reports
      the deleted user filed against it. */
  lemma CascadeDropsReportsFiledByUser(reports: map<string, Report>, userId: string, other: string)
    requires other != userId
    ensures ReportKeysAgainst(ReportsWithout(reports, userId), other) ==
      ReportKeysAgainst(reports, other) - (set k | k in reports && reports[k].reportedBy.userId == userId)
  {
  }

  method DeleteUser(db: Database, userId: string, now: nat) returns (res: Response<()>)
    requires db.Valid()
    modifies db
    ensures db.Valid()
    ensures db.nextFeedbackId == old(db.nextFeedbackId)
    ensures userId !in old(db.users) <==> res == Fail(404, "User not found", None)
    ensures userId !in old(db.users) ==> unchanged(db)
    ensures res.Ok? <==> userId in old(db.users)
    ensures res.Ok? ==>
      && res == Ok(200, ())
      && db.users == old(db.users) - {userId}
      && db.feedbacks == FeedbacksWithout(old(db.feedbacks), userId)
      && db.reports == ReportsWithout(old(db.reports), userId)
      && db.auditLog == old(db.auditLog) +
           [AuditEntry(now, "Admin", Delete, "user", Trim(userId), "User and associated data deleted", High)]
  {
    if userId !in db.users {
      return Fail(404, "User not found", None);
    }
    RemoveUserData(db, userId);
    var details := "User and associated data deleted";
    RecordHandlerCall(db, Delete, "user", userId, details, High, now);
    assert Take(details, 1000) == details;
    res := Ok(200, ());
  }

  /** The three deletions of the cascade. */
  method RemoveUserData(db: Database, userId: string)
    requires db.Valid()
    modifies db
    ensures db.Valid()
    ensures db.users == old(db.users) - {userId}
    ensures db.feedbacks == FeedbacksWithout(old(db.feedbacks), userId)
    ensures db.reports == ReportsWithout(old(db.reports), userId)
    ensures db.auditLog == old(db.auditLog) && db.nextFeedbackId == old(db.nextFeedbackId)
  {
    var users, feedbacks, reports := db.users - {userId}, FeedbacksWithout(db.feedbacks, userId),
      ReportsWithout(db.reports, userId);
    DeleteSound(db.users, users, db.feedbacks, feedbacks, db.reports, reports, db.auditLog, db.nextFeedbackId);
    db.feedbacks := feedbacks;
    db.reports := reports;
    db.users := users;
  }
}
