/** The four collections the handlers work on, held in memory: users keyed
    by `userId`, feedback keyed by its numeric id, reports keyed by
    `reportId`, and the append-only audit log. */
module Store {
  import opened Common
  import opened FeedbackModel
  import opened ReportModel
  import opened UserModel
  import opened AuditModel

  predicate UsersKeyed(users: map<string, User>) {
    forall k :: k in users ==> users[k].userId == k
  }

  /** Each stored user satisfies the schema and the moderation invariant. */
  predicate UsersSound(users: map<string, User>) {
    forall k :: k in users ==> UserProfileValid(users[k]) && UserInvariant(users[k])
  }

  /** The unique index on `email`. */
  predicate UniqueEmails(users: map<string, User>) {
    forall a, b :: a in users && b in users && users[a].email == users[b].email ==> a == b
  }

  predicate FeedbacksKeyed(feedbacks: map<nat, Feedback>, nextId: nat) {
    forall k :: k in feedbacks ==> feedbacks[k].id == k && k < nextId
  }

  /** Each stored feedback satisfies the schema and keeps its counters. */
  predicate FeedbacksSound(feedbacks: map<nat, Feedback>) {
    forall k :: k in feedbacks ==>
      FeedbackTextValid(feedbacks[k]) && FeedbackInvariant(feedbacks[k])
  }

  predicate ReportsKeyed(reports: map<string, Report>) {
    forall k :: k in reports ==> reports[k].reportId == k
  }

  /** Each stored report names both parties in full and was reviewed by
      someone exactly when it has a review time. */
  predicate ReportsSound(reports: map<string, Report>) {
    forall k :: k in reports ==>
      PartyComplete(reports[k].reportedBy) && PartyComplete(reports[k].feedbackAuthor)
      && |reports[k].details| <= 500
      && (reports[k].reviewedBy.Some? <==> reports[k].reviewedAt.Some?)
  }

  /** No reporter has reported the same feedback twice. */
  predicate OneReportPerReporter(reports: map<string, Report>) {
    forall a, b ::
      (a in reports && b in reports && reports[a].feedbackId == reports[b].feedbackId
       && reports[a].reportedBy.userId == reports[b].reportedBy.userId) ==> a == b
  }

  predicate AuditSound(log: seq<AuditEntry>) {
    forall i :: 0 <= i < |log| ==> AuditEntryValid(log[i])
  }

  lemma AuditAppendSound(log: seq<AuditEntry>, e: AuditEntry)
    requires AuditSound(log) && AuditEntryValid(e)
    ensures AuditSound(log + [e])
  {
    assert forall i :: 0 <= i < |log| ==> (log + [e])[i] == log[i];
  }

  predicate StoreValid(users: map<string, User>, feedbacks: map<nat, Feedback>,
                       reports: map<string, Report>, log: seq<AuditEntry>, nextId: nat) {
    && UsersKeyed(users) && UsersSound(users) && UniqueEmails(users)
    && FeedbacksKeyed(feedbacks, nextId) && FeedbacksSound(feedbacks)
    && ReportsKeyed(reports) && ReportsSound(reports) && OneReportPerReporter(reports)
    && AuditSound(log)
  }

  class Database {
    var users: map<string, User>
    var feedbacks: map<nat, Feedback>
    var reports: map<string, Report>
    var auditLog: seq<AuditEntry>
    /** The id the next created feedback receives, standing for a fresh `_id`. */
    var nextFeedbackId: nat

    predicate Valid()
      reads this
    {
      StoreValid(users, feedbacks, reports, auditLog, nextFeedbackId)
    }

    constructor ()
      ensures Valid()
      ensures users == map[] && feedbacks == map[] && reports == map[]
      ensures auditLog == [] && nextFeedbackId == 0
    {
      users := map[];
      feedbacks := map[];
      reports := map[];
      auditLog := [];
      nextFeedbackId := 0;
    }
  }

  /** The user whose e-mail is `email`, if any; the unique index makes it
      the only one. */
  function UserByEmail(users: map<string, User>, email: string): (r: Option<string>)
    requires UniqueEmails(users)
    ensures r.Some? ==> r.value in users && users[r.value].email == email
    ensures r.None? ==> forall k :: k in users ==> users[k].email != email
  {
    if exists k :: k in users && users[k].email == email then
      var k :| k in users && users[k].email == email;
      Some(k)
    else None
  }

  // ---------------------------------------------------------------------
  // What each kind of write keeps

  /** Replacing a stored user by one with the same identity, e-mail and
      profile fields keeps every user-side invariant. */
  lemma UpdateUserSound(users: map<string, User>, k: string, u: User)
    requires UsersKeyed(users) && UsersSound(users) && UniqueEmails(users)
    requires k in users && u.userId == k && u.email == users[k].email
    requires UserProfileValid(u) && UserInvariant(u)
    ensures UsersKeyed(users[k := u]) && UsersSound(users[k := u]) && UniqueEmails(users[k := u])
  {
    var m := users[k := u];
    forall j | j in m ensures m[j].userId == j && UserProfileValid(m[j]) && UserInvariant(m[j]) {
      if j != k { assert m[j] == users[j]; }
    }
    forall a, b | a in m && b in m && m[a].email == m[b].email ensures a == b {
      assert m[a].email == users[a].email && m[b].email == users[b].email;
    }
  }

  /** Adding a user under a fresh key with a fresh e-mail. */
  lemma InsertUserSound(users: map<string, User>, u: User)
    requires UsersKeyed(users) && UsersSound(users) && UniqueEmails(users)
    requires u.userId !in users && forall k :: k in users ==> users[k].email != u.email
    requires UserProfileValid(u) && UserInvariant(u)
    ensures UsersKeyed(users[u.userId := u]) && UsersSound(users[u.userId := u])
    ensures UniqueEmails(users[u.userId := u])
  {
    var m := users[u.userId := u];
    forall j | j in m ensures m[j].userId == j && UserProfileValid(m[j]) && UserInvariant(m[j]) {
      if j != u.userId { assert m[j] == users[j]; }
    }
    forall a, b | a in m && b in m && m[a].email == m[b].email ensures a == b {
      if a != u.userId && b != u.userId {
        assert m[a] == users[a] && m[b] == users[b];
      }
    }
  }

  /** Replacing a stored feedback by one with the same id and text fields. */
  lemma UpdateFeedbackSound(feedbacks: map<nat, Feedback>, nextId: nat, k: nat, f: Feedback)
    requires FeedbacksKeyed(feedbacks, nextId) && FeedbacksSound(feedbacks)
    requires k in feedbacks && f.id == k
    requires f.name == feedbacks[k].name && f.email == feedbacks[k].email
    requires f.message == feedbacks[k].message && FeedbackInvariant(f)
    ensures FeedbacksKeyed(feedbacks[k := f], nextId) && FeedbacksSound(feedbacks[k := f])
  {
    var m := feedbacks[k := f];
    forall j | j in m
      ensures m[j].id == j && j < nextId
      ensures FeedbackTextValid(m[j]) && FeedbackInvariant(m[j])
    {
      if j != k { assert m[j] == feedbacks[j]; }
    }
  }

  /** Adding a feedback under the next id, which then moves on. */
  lemma InsertFeedbackSound(feedbacks: map<nat, Feedback>, nextId: nat, f: Feedback)
    requires FeedbacksKeyed(feedbacks, nextId) && FeedbacksSound(feedbacks)
    requires f.id == nextId && FeedbackTextValid(f) && FeedbackInvariant(f)
    ensures nextId !in feedbacks
    ensures FeedbacksKeyed(feedbacks[nextId := f], nextId + 1) && FeedbacksSound(feedbacks[nextId := f])
  {
    var m := feedbacks[nextId := f];
    forall j | j in m
      ensures m[j].id == j && j < nextId + 1
      ensures FeedbackTextValid(m[j]) && FeedbackInvariant(m[j])
    {
      if j != nextId { assert m[j] == feedbacks[j]; }
    }
  }

  /** Adding a report under a fresh key that no report of the same reporter
      on the same feedback precedes. */
  lemma InsertReportSound(reports: map<string, Report>, r: Report)
    requires ReportsKeyed(reports) && ReportsSound(reports) && OneReportPerReporter(reports)
    requires r.reportId !in reports
    requires PartyComplete(r.reportedBy) && PartyComplete(r.feedbackAuthor) && |r.details| <= 500
    requires r.reviewedBy.Some? <==> r.reviewedAt.Some?
    requires forall k :: k in reports ==>
      !(reports[k].feedbackId == r.feedbackId && reports[k].reportedBy.userId == r.reportedBy.userId)
    ensures ReportsKeyed(reports[r.reportId := r]) && ReportsSound(reports[r.reportId := r])
    ensures OneReportPerReporter(reports[r.reportId := r])
  {
  }

  /** Replacing a stored report by one with the same key, parties and
      feedback. */
  lemma UpdateReportSound(reports: map<string, Report>, r: Report)
    requires ReportsKeyed(reports) && ReportsSound(reports) && OneReportPerReporter(reports)
    requires r.reportId in reports
    requires r.feedbackId == reports[r.reportId].feedbackId
    requires r.reportedBy == reports[r.reportId].reportedBy
    requires r.feedbackAuthor == reports[r.reportId].feedbackAuthor
    requires |r.details| <= 500 && (r.reviewedBy.Some? <==> r.reviewedAt.Some?)
    ensures ReportsKeyed(reports[r.reportId := r]) && ReportsSound(reports[r.reportId := r])
    ensures OneReportPerReporter(reports[r.reportId := r])
  {
  }

  /** `b` keeps some of the entries of `a`, unchanged. */
  ghost predicate SubMap<K, V>(a: map<K, V>, b: map<K, V>) {
    forall k :: k in b ==> k in a && b[k] == a[k]
  }

  /** Deleting records keeps every invariant of what is left. */
  lemma DeleteSound(users: map<string, User>, users': map<string, User>,
                    feedbacks: map<nat, Feedback>, feedbacks': map<nat, Feedback>,
                    reports: map<string, Report>, reports': map<string, Report>,
                    log: seq<AuditEntry>, nextId: nat)
    requires StoreValid(users, feedbacks, reports, log, nextId)
    requires SubMap(users, users') && SubMap(feedbacks, feedbacks') && SubMap(reports, reports')
    ensures StoreValid(users', feedbacks', reports', log, nextId)
  {
  }
}
