/** The Feedback record (server/models/Feedback.js) with the fields the
    controllers read and write, its status enumeration, its defaults, the
    schema validators and the pre-save hook. */
module FeedbackModel {
  import opened Common
  import opened EmailPatterns

  datatype FeedbackStatus = Normal | Flagged | Hidden | Removed | Review
  {
    function Name(): string {
      match this
      case Normal => "normal"
      case Flagged => "flagged"
      case Hidden => "hidden"
      case Removed => "removed"
      case Review => "review"
    }
  }

  /** Reads a status string; the inverse of `Name`. */
  function ParseFeedbackStatus(s: string): (r: Option<FeedbackStatus>)
    ensures forall st: FeedbackStatus :: r == Some(st) <==> st.Name() == s
  {
    if s == "normal" then Some(Normal)
    else if s == "flagged" then Some(Flagged)
    else if s == "hidden" then Some(Hidden)
    else if s == "removed" then Some(Removed)
    else if s == "review" then Some(Review)
    else None
  }

  /** The visibility rule of the admin status edit: hidden and removed
      feedback is not visible, every other status is. */
  predicate VisibleFor(s: FeedbackStatus) {
    !(s == Hidden || s == Removed)
  }

  /** One entry of a feedback's `reportedBy` list. */
  datatype ReportRef = ReportRef(userId: string, reportId: string, createdAt: nat)

  datatype Feedback = Feedback(
    id: nat,
    name: string,
    email: string,
    message: string,
    userId: string,          // "" when the record carries no author id
    createdAt: nat,
    updatedAt: Option<nat>,
    likes: nat,
    likedBy: seq<string>,
    commentCount: nat,
    status: FeedbackStatus,
    isVisible: bool,
    adminNotes: string,
    reportsCount: nat,
    reportedBy: seq<ReportRef>)

  /** The sort key of the listings. */
  function FeedbackCreated(f: Feedback): nat { f.createdAt }

  /** What every stored feedback keeps: one like per liker and one report
      entry per counted report. */
  predicate FeedbackInvariant(f: Feedback) {
    f.likes == |f.likedBy| && f.reportsCount == |f.reportedBy|
  }

  /** The bounds of the schema, on values already trimmed and lower-cased. */
  ghost predicate FeedbackFieldsValid(name: string, email: string, message: string) {
    && name != "" && |name| <= 100
    && email != "" && |email| <= 254 && MatchesStrictPattern(email)
    && message != "" && |message| <= 1000
  }

  function NameError(name: string): Option<string> {
    if name == "" then Some("Name is required")
    else if |name| > 100 then Some("Name must be at most 100 characters")
    else None
  }

  function EmailError(email: string): Option<string> {
    if email == "" then Some("Email is required")
    else if |email| > 254 then Some("Email must be at most 254 characters")
    else if !StrictEmail(email) then Some("Please provide a valid email address")
    else None
  }

  function MessageError(message: string): Option<string> {
    if message == "" then Some("Message is required")
    else if |message| > 1000 then Some("Message must be at most 1000 characters")
    else None
  }

  /** The paths of the schema in order, with their verdicts. */
  function FeedbackChecks(name: string, email: string, message: string): seq<Check> {
    [Check("name", NameError(name)), Check("email", EmailError(email)),
     Check("message", MessageError(message))]
  }

  /** Schema validation of a new feedback: one error per failing path, in
      schema order, holding the message of its first failing validator. */
  function ValidateFeedback(name: string, email: string, message: string): (errs: seq<ValidatorError>)
    ensures errs == [] <==> FeedbackFieldsValid(name, email, message)
    ensures |errs| <= 3
    ensures forall i, j :: 0 <= i < j < |errs| ==> errs[i].path != errs[j].path
  {
    StrictEmailCorrect(email);
    var cs := FeedbackChecks(name, email, message);
    ErrorsDistinct(cs);
    Errors(cs)
  }

  /** A stored record's text fields pass every validator of the schema. */
  predicate FeedbackTextValid(f: Feedback) {
    NameError(f.name).None? && EmailError(f.email).None? && MessageError(f.message).None?
  }

  lemma FeedbackTextValidIff(f: Feedback)
    ensures FeedbackTextValid(f) <==> ValidateFeedback(f.name, f.email, f.message) == []
  {
  }

  /** Which message each kind of bad input produces. */
  lemma ValidateFeedbackMessages(name: string, email: string, message: string)
    ensures var errs := ValidateFeedback(name, email, message);
      && (ValidatorError("name", "Name is required") in errs <==> name == "")
      && (ValidatorError("name", "Name must be at most 100 characters") in errs <==> |name| > 100)
      && (ValidatorError("email", "Email is required") in errs <==> email == "")
      && (ValidatorError("email", "Please provide a valid email address") in errs <==>
            email != "" && |email| <= 254 && !MatchesStrictPattern(email))
      && (ValidatorError("message", "Message is required") in errs <==> message == "")
      && (ValidatorError("message", "Message must be at most 1000 characters") in errs <==> |message| > 1000)
  {
    StrictEmailCorrect(email);
    ErrorsByPath(name, email, message, ValidatorError("name", "Name is required"));
    ErrorsByPath(name, email, message, ValidatorError("name", "Name must be at most 100 characters"));
    ErrorsByPath(name, email, message, ValidatorError("email", "Email is required"));
    ErrorsByPath(name, email, message, ValidatorError("email", "Please provide a valid email address"));
    ErrorsByPath(name, email, message, ValidatorError("message", "Message is required"));
    ErrorsByPath(name, email, message, ValidatorError("message", "Message must be at most 1000 characters"));
  }

  lemma ErrorsByPath(name: string, email: string, message: string, e: ValidatorError)
    ensures e in ValidateFeedback(name, email, message) <==>
      || (e.path == "name" && NameError(name) == Some(e.message))
      || (e.path == "email" && EmailError(email) == Some(e.message))
      || (e.path == "message" && MessageError(message) == Some(e.message))
  {
    var cs := FeedbackChecks(name, email, message);
    ErrorsMember(cs, e);
    assert e.path == "name" && NameError(name) == Some(e.message) ==> cs[0] == Check(e.path, Some(e.message));
    assert e.path == "email" && EmailError(email) == Some(e.message) ==> cs[1] == Check(e.path, Some(e.message));
    assert e.path == "message" && MessageError(message) == Some(e.message) ==> cs[2] == Check(e.path, Some(e.message));
  }

  /** A new document as `Feedback.create({ name, email, message })` builds it:
      the trim and lowercase setters applied, every other field defaulted. */
  function NewFeedback(id: nat, name: string, email: string, message: string, now: nat): (f: Feedback)
    ensures f.id == id && f.createdAt == now && f.userId == ""
    ensures f.name == Trim(name) && f.email == Lower(Trim(email)) && f.message == Trim(message)
    ensures f.status == Normal && f.isVisible && f.likes == 0 && f.commentCount == 0
    ensures f.reportsCount == 0 && f.reportedBy == [] && f.adminNotes == ""
    ensures FeedbackInvariant(f) && f.isVisible == VisibleFor(f.status)
  {
    Feedback(id, Trim(name), Lower(Trim(email)), Trim(message), "", now, None,
             0, [], 0, Normal, true, "", 0, [])
  }

  /** The pre-save hook: every save stamps `updatedAt`, nothing else. */
  function PreSave(f: Feedback, now: nat): (g: Feedback)
    ensures g.updatedAt == Some(now) && g.(updatedAt := f.updatedAt) == f
  {
    f.(updatedAt := Some(now))
  }
}
