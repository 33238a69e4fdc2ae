/** The AuditLog record (server/models/AuditLog.js): one entry per admin
    action, with its enumerations and the schema's setters and checks. */
module AuditModel {
  import opened Common

  datatype AuditAction = Delete | Ban | Suspend | Approve | Flag | StatusChange | ReviewReport | OtherAction
  {
    function Name(): string {
      match this
      case Delete => "delete"
      case Ban => "ban"
      case Suspend => "suspend"
      case Approve => "approve"
      case Flag => "flag"
      case StatusChange => "status_change"
      case ReviewReport => "review_report"
      case OtherAction => "other"
    }
  }

  /** Reads an action string; the inverse of `Name`. */
  function ParseAuditAction(s: string): (r: Option<AuditAction>)
    ensures forall x: AuditAction :: r == Some(x) <==> x.Name() == s
  {
    if s == "delete" then Some(Delete)
    else if s == "ban" then Some(Ban)
    else if s == "suspend" then Some(Suspend)
    else if s == "approve" then Some(Approve)
    else if s == "flag" then Some(Flag)
    else if s == "status_change" then Some(StatusChange)
    else if s == "review_report" then Some(ReviewReport)
    else if s == "other" then Some(OtherAction)
    else None
  }

  datatype Severity = Low | Medium | High
  {
    function Name(): string {
      match this
      case Low => "low"
      case Medium => "medium"
      case High => "high"
    }
  }

  /** Reads a severity string; the inverse of `Name`. */
  function ParseSeverity(s: string): (r: Option<Severity>)
    ensures forall x: Severity :: r == Some(x) <==> x.Name() == s
  {
    if s == "low" then Some(Low)
    else if s == "medium" then Some(Medium)
    else if s == "high" then Some(High)
    else None
  }

  datatype AuditEntry = AuditEntry(
    timestamp: nat,
    admin: string,
    action: AuditAction,
    targetType: string,
    targetId: string,
    details: string,
    severity: Severity)

  /** What the schema accepts: a non-empty admin and target type, details
      of at most 1000 characters. */
  predicate AuditEntryValid(e: AuditEntry) {
    e.admin != "" && e.targetType != "" && |e.details| <= 1000
  }
}
