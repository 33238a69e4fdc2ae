/** The public feedback handlers (server/controllers/feedbackController.js):
    create, list, fetch one, delete. */
module FeedbackController {
  import opened Common
  import opened Listing
  import opened FeedbackModel
  import opened Store
  import opened ErrorHandler

  /** The request body; a missing or non-string property is `None`. */
  datatype FeedbackInput = FeedbackInput(name: Option<string>, email: Option<string>, message: Option<string>)

  /** The handler's own check: every field present and not empty. */
  predicate QuickCheckPasses(input: FeedbackInput) {
    Truthy(input.name) && Truthy(input.email) && Truthy(input.message)
  }

  /** The document `Feedback.create` builds from a body that passed the
      quick check. */
  function Candidate(input: FeedbackInput, id: nat, now: nat): Feedback
    requires QuickCheckPasses(input)
  {
    NewFeedback(id, input.name.value, input.email.value, input.message.value, now)
  }

  method CreateFeedback(db: Database, input: FeedbackInput, now: nat) returns (res: Response<Feedback>)
    requires db.Valid()
    modifies db
    ensures db.Valid()
    ensures db.users == old(db.users) && db.reports == old(db.reports) && db.auditLog == old(db.auditLog)
    ensures !QuickCheckPasses(input) ==>
      res == Fail(400, "Name, email, and message are required", None) && unchanged(db)
    ensures QuickCheckPasses(input) ==>
      var f := Candidate(input, old(db.nextFeedbackId), now);
      var errs := ValidateFeedback(f.name, f.email, f.message);
      && (errs != [] ==>
            res == Fail(400, "Validation error", Some(Details(errs))) && unchanged(db))
      && (errs == [] ==>
            && res == Ok(201, FeedbackModel.PreSave(f, now))
            && old(db.nextFeedbackId) !in old(db.feedbacks)
            && db.feedbacks == old(db.feedbacks)[old(db.nextFeedbackId) := res.data]
            && db.nextFeedbackId == old(db.nextFeedbackId) + 1)
  {
    if !QuickCheckPasses(input) {
      return Fail(400, "Name, email, and message are required", None);
    }
    var f := Candidate(input, db.nextFeedbackId, now);
    var errs := ValidateFeedback(f.name, f.email, f.message);
    if errs != [] {
      // Feedback.create rejects the document and the error middleware answers
      return HandleError(AppError("ValidationError", "", None, Some("Validation failed"), errs));
    }
    var stored := FeedbackModel.PreSave(f, now);
    StoreNewFeedback(db, stored);
    res := Ok(201, stored);
  }

  /** The write: the document lands under the next id, which moves on. */
  method StoreNewFeedback(db: Database, f: Feedback)
    requires db.Valid() && f.id == db.nextFeedbackId
    requires ValidateFeedback(f.name, f.email, f.message) == [] && FeedbackInvariant(f)
    modifies db
    ensures db.Valid()
    ensures old(db.nextFeedbackId) !in old(db.feedbacks)
    ensures db.feedbacks == old(db.feedbacks)[old(db.nextFeedbackId) := f]
    ensures db.nextFeedbackId == old(db.nextFeedbackId) + 1
    ensures db.users == old(db.users) && db.reports == old(db.reports) && db.auditLog == old(db.auditLog)
  {
    FeedbackTextValidIff(f);
    InsertFeedbackSound(db.feedbacks, db.nextFeedbackId, f);
    db.feedbacks := db.feedbacks[db.nextFeedbackId := f];
    db.nextFeedbackId := db.nextFeedbackId + 1;
  }

  /** The quick check looks at the raw text, the schema at the trimmed text:
      a name of spaces only gets past the first and is refused by the
      second with the schema's own message. */
  lemma BlankNameReachesSchema(input: FeedbackInput, id: nat, now: nat)
    requires QuickCheckPasses(input) && Trim(input.name.value) == ""
    ensures var f := Candidate(input, id, now);
      ValidatorError("name", "Name is required") in ValidateFeedback(f.name, f.email, f.message)
  {
    var f := Candidate(input, id, now);
    ValidateFeedbackMessages(f.name, f.email, f.message);
  }

  /** A stored feedback's text is what was sent, trimmed, with the e-mail
      lower-cased; saving it again changes none of it. */
  lemma StoredTextIsNormalised(input: FeedbackInput, id: nat, now: nat)
    requires QuickCheckPasses(input)
    ensures var f := Candidate(input, id, now);
      && f.name == Trim(input.name.value) && f.message == Trim(input.message.value)
      && f.email == Lower(Trim(input.email.value))
      && Trim(f.name) == f.name && Trim(f.message) == f.message
      && Lower(Trim(f.email)) == f.email
  {
    TrimIdempotent(input.name.value);
    TrimIdempotent(input.message.value);
    LowerTrimFixed(input.email.value);
  }

  /** The response's `details` name each failing field once. */
  lemma ValidationDetailsDistinct(f: Feedback)
    ensures var d := Details(ValidateFeedback(f.name, f.email, f.message));
      |d| <= 3 && forall i, j :: 0 <= i < j < |d| ==> d[i].field != d[j].field
  {
    DetailsKeepDistinct(ValidateFeedback(f.name, f.email, f.message));
  }

  datatype FeedbackList = FeedbackList(count: nat, data: seq<Feedback>)

  /** Every stored feedback, newest first, with `count` its length. */
  ghost function GetAllFeedbacks(feedbacks: map<nat, Feedback>): (r: FeedbackList)
    ensures r.count == |r.data| == |feedbacks|
    ensures forall k :: k in feedbacks ==> feedbacks[k] in r.data
    ensures forall i :: 0 <= i < |r.data| ==> r.data[i] in feedbacks.Values
    ensures forall i, j :: 0 <= i < j < |r.data| ==> r.data[i].createdAt >= r.data[j].createdAt
  {
    var data := NewestRecords(feedbacks, feedbacks.Keys, FeedbackCreated);
    RecordsSatisfy(feedbacks, feedbacks.Keys, data, (f: Feedback) => true);
    FeedbackList(|data|, data)
  }

  function GetFeedbackById(feedbacks: map<nat, Feedback>, id: nat): (r: Response<Feedback>)
    ensures id in feedbacks <==> r.Ok?
    ensures id in feedbacks ==> r == Ok(200, feedbacks[id])
    ensures id !in feedbacks ==> r == Fail(404, "Feedback not found", None)
  {
    if id in feedbacks then Ok(200, feedbacks[id]) else Fail(404, "Feedback not found", None)
  }

  method DeleteFeedback(db: Database, id: nat) returns (res: Response<()>)
    requires db.Valid()
    modifies db
    ensures db.Valid()
    ensures db.users == old(db.users) && db.reports == old(db.reports)
    ensures db.auditLog == old(db.auditLog) && db.nextFeedbackId == old(db.nextFeedbackId)
    ensures id !in old(db.feedbacks) <==> res == Fail(404, "Feedback not found", None)
    ensures id !in old(db.feedbacks) ==> unchanged(db)
    ensures id in old(db.feedbacks) ==> res == Ok(200, ()) && db.feedbacks == old(db.feedbacks) - {id}
  {
    if id !in db.feedbacks {
      return Fail(404, "Feedback not found", None);
    }
    var left := db.feedbacks - {id};
    DeleteSound(db.users, db.users, db.feedbacks, left, db.reports, db.reports, db.auditLog, db.nextFeedbackId);
    db.feedbacks := left;
    res := Ok(200, ());
  }

  /** Fetching after a delete finds nothing, and other ids are unaffected. */
  lemma DeleteThenFetch(feedbacks: map<nat, Feedback>, id: nat, other: nat)
    requires other != id
    ensures GetFeedbackById(feedbacks - {id}, id) == Fail(404, "Feedback not found", None)
    ensures GetFeedbackById(feedbacks - {id}, other) == GetFeedbackById(feedbacks, other)
  {
  }
}
