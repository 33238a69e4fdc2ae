/** `createAuditLog` (server/utils/auditLog.js): fills in defaults, cuts
    the details, whitelists the severity, and appends one entry when the
    AuditLog schema accepts it. A rejected write is swallowed: the caller
    never sees it and the log is unchanged. */
module AuditLog {
  import opened Common
  import opened AuditModel
  import opened Store

  /** The options object; an absent property is `None`. */
  datatype AuditOptions = AuditOptions(
    admin: Option<string>,
    action: Option<string>,
    targetType: Option<string>,
    targetId: Option<string>,
    details: Option<string>,
    severity: Option<string>)

  /** The destructuring defaults apply only to absent properties. */
  function AdminOf(o: AuditOptions): string {
    if o.admin.Some? then o.admin.value else "Admin"
  }

  function DetailsOf(o: AuditOptions): string {
    if o.details.Some? then o.details.value else ""
  }

  /** Any severity outside low, medium and high is stored as low. */
  function SeverityOf(o: AuditOptions): (s: Severity)
    ensures o.severity.Some? && ParseSeverity(o.severity.value).Some? ==>
      s.Name() == o.severity.value
    ensures (o.severity.None? || ParseSeverity(o.severity.value).None?) ==> s == Low
  {
    if o.severity.Some? && ParseSeverity(o.severity.value).Some? then
      ParseSeverity(o.severity.value).value
    else Low
  }

  /** Whether the call gets past the early return and the schema: an action
      and a target type are given, the action is one of the enumeration,
      and the trimmed admin and target type are not empty. */
  predicate Accepted(o: AuditOptions) {
    && Truthy(o.action) && Truthy(o.targetType)
    && ParseAuditAction(o.action.value).Some?
    && Trim(AdminOf(o)) != "" && Trim(o.targetType.value) != ""
  }

  /** The entry a call would store, or `None` when nothing is stored. */
  function NormaliseAudit(o: AuditOptions, now: nat): (r: Option<AuditEntry>)
    ensures r.Some? <==> Accepted(o)
    ensures r.Some? ==> AuditEntryValid(r.value)
    ensures r.Some? ==> && r.value.timestamp == now
                        && r.value.admin == Trim(AdminOf(o))
                        && r.value.action.Name() == o.action.value
                        && r.value.targetType == Trim(o.targetType.value)
                        && r.value.targetId == Trim(OrElse(o.targetId, ""))
                        && r.value.details <= DetailsOf(o)
                        && |r.value.details| == Min(|DetailsOf(o)|, 1000)
                        && r.value.severity == SeverityOf(o)
  {
    if !Accepted(o) then None
    else
      var details := Take(DetailsOf(o), 1000);
      assert |details| == Min(|DetailsOf(o)|, 1000);
      Some(AuditEntry(now, Trim(AdminOf(o)), ParseAuditAction(o.action.value).value,
                      Trim(o.targetType.value), Trim(OrElse(o.targetId, "")),
                      details, SeverityOf(o)))
  }

  /** A call with an action or target type missing stores nothing. */
  lemma MissingActionOrTargetStoresNothing(o: AuditOptions, now: nat)
    requires !Truthy(o.action) || !Truthy(o.targetType)
    ensures NormaliseAudit(o, now) == None
  {
  }

  /** The calls the handlers make, with a literal admin, action name and
      target type, are always stored. */
  lemma HandlerCallStored(action: AuditAction, targetType: string, targetId: string,
                          details: string, severity: Severity, now: nat)
    requires Trim(targetType) == targetType && targetType != ""
    ensures var o := AuditOptions(Some("Admin"), Some(action.Name()), Some(targetType),
                                  Some(targetId), Some(details), Some(severity.Name()));
      NormaliseAudit(o, now) ==
        Some(AuditEntry(now, "Admin", action, targetType, Trim(targetId), Take(details, 1000), severity))
  {
    var o := AuditOptions(Some("Admin"), Some(action.Name()), Some(targetType),
                          Some(targetId), Some(details), Some(severity.Name()));
    AdminTrimmed();
    ActionRoundTrip(action);
    SeverityRoundTrip(severity);
    assert Accepted(o);
    var r := NormaliseAudit(o, now);
    assert r.value.action == action by {
      assert ParseAuditAction(action.Name()) == Some(r.value.action);
    }
    assert r.value.severity == severity;
    assert r.value.targetId == Trim(targetId) by {
      assert OrElse(o.targetId, "") == targetId;
    }
    PrefixOfLength(r.value.details, details, 1000);
  }

  /** A prefix is fixed by its length. */
  lemma PrefixOfLength(p: string, s: string, n: nat)
    requires p <= s && |p| == Min(|s|, n)
    ensures p == Take(s, n)
  {
  }

  lemma AdminTrimmed()
    ensures Trim("Admin") == "Admin"
  {
    TrimNoSpaceEnds("Admin");
  }

  /** The target types the handlers pass are already trimmed. */
  lemma TargetTypeTrimmed(t: string)
    requires t == "report" || t == "user"
    ensures Trim(t) == t
  {
    TrimNoSpaceEnds(t);
  }

  lemma ActionRoundTrip(a: AuditAction)
    ensures ParseAuditAction(a.Name()) == Some(a) && a.Name() != ""
  {
  }

  lemma SeverityRoundTrip(s: Severity)
    ensures ParseSeverity(s.Name()) == Some(s)
  {
  }

  /** `createAuditLog` proper: the log grows by the normalised entry, or not
      at all; no other collection changes. */
  method CreateAuditLog(db: Database, o: AuditOptions, now: nat)
    requires db.Valid()
    modifies db
    ensures db.Valid()
    ensures db.auditLog == old(db.auditLog) +
      (if NormaliseAudit(o, now).Some? then [NormaliseAudit(o, now).value] else [])
    ensures db.users == old(db.users) && db.feedbacks == old(db.feedbacks)
    ensures db.reports == old(db.reports) && db.nextFeedbackId == old(db.nextFeedbackId)
  {
    var e := NormaliseAudit(o, now);
    if e.Some? {
      AppendAudit(db, e.value);
    }
  }

  /** The write itself: one valid entry at the end of the log. */
  method AppendAudit(db: Database, e: AuditEntry)
    requires db.Valid() && AuditEntryValid(e)
    modifies db
    ensures db.Valid()
    ensures db.auditLog == old(db.auditLog) + [e]
    ensures db.users == old(db.users) && db.feedbacks == old(db.feedbacks)
    ensures db.reports == old(db.reports) && db.nextFeedbackId == old(db.nextFeedbackId)
  {
    AuditAppendSound(db.auditLog, e);
    db.auditLog := db.auditLog + [e];
  }

  /** A handler's audit call with literal admin and target type: exactly
      the expected entry is appended. */
  method RecordHandlerCall(db: Database, action: AuditAction, targetType: string, targetId: string,
                           details: string, severity: Severity, now: nat)
    requires db.Valid()
    requires targetType == "report" || targetType == "user"
    modifies db
    ensures db.Valid()
    ensures db.auditLog == old(db.auditLog) +
      [AuditEntry(now, "Admin", action, targetType, Trim(targetId), Take(details, 1000), severity)]
    ensures db.users == old(db.users) && db.feedbacks == old(db.feedbacks)
    ensures db.reports == old(db.reports) && db.nextFeedbackId == old(db.nextFeedbackId)
  {
    var o := AuditOptions(Some("Admin"), Some(action.Name()), Some(targetType), Some(targetId),
                          Some(details), Some(severity.Name()));
    TargetTypeTrimmed(targetType);
    HandlerCallStored(action, targetType, targetId, details, severity, now);
    CreateAuditLog(db, o, now);
  }
}
