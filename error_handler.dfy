/** The error middleware (middleware/errorHandler.js): turns an error a
    handler passed on into the JSON error response. */
module ErrorHandler {
  import opened Common

  /** The fields of an error the middleware reads; an absent `statusCode`
      or `message` is `None`, and `errors` lists a validation error's
      entries in the order the schema reported them. */
  datatype AppError = AppError(
    name: string,
    kind: string,
    statusCode: Option<nat>,
    message: Option<string>,
    errors: seq<ValidatorError>)

  /** One `{ field, message }` per entry of `err.errors`, in order. */
  function Details(errs: seq<ValidatorError>): (d: seq<FieldDetail>)
    ensures |d| == |errs|
    ensures forall i :: 0 <= i < |errs| ==> d[i].field == errs[i].path && d[i].message == errs[i].message
  {
    if errs == [] then [] else [FieldDetail(errs[0].path, errs[0].message)] + Details(errs[1..])
  }

  /** Distinct paths give distinct fields. */
  lemma DetailsKeepDistinct(errs: seq<ValidatorError>)
    requires forall i, j :: 0 <= i < j < |errs| ==> errs[i].path != errs[j].path
    ensures var d := Details(errs); forall i, j :: 0 <= i < j < |d| ==> d[i].field != d[j].field
  {
  }

  /** The response: a validation error gives 400 with its details, a bad
      ObjectId gives 400, anything else its own status (or 500) and its
      own message (or a generic one). No response reports success. */
  function HandleError<T>(err: AppError): (r: Response<T>)
    ensures !r.Success()
    ensures err.name == "ValidationError" ==> r == Fail(400, "Validation error", Some(Details(err.errors)))
    ensures err.name == "CastError" && err.kind == "ObjectId" ==>
      r == Fail(400, "Invalid resource identifier", None)
    ensures err.name != "ValidationError" && !(err.name == "CastError" && err.kind == "ObjectId") ==>
      && r.Fail? && r.details == None
      && r.status == (if err.statusCode.Some? && err.statusCode.value != 0 then err.statusCode.value else 500)
      && r.error == OrElse(err.message, "Internal Server Error")
  {
    var status := if err.statusCode.Some? && err.statusCode.value != 0 then err.statusCode.value else 500;
    var message := OrElse(err.message, "Internal Server Error");
    if err.name == "ValidationError" then Fail(400, "Validation error", Some(Details(err.errors)))
    else if err.name == "CastError" && err.kind == "ObjectId" then Fail(400, "Invalid resource identifier", None)
    else Fail(status, message, None)
  }

  /** Only a validation error carries details. */
  lemma OnlyValidationHasDetails<T>(err: AppError)
    ensures (HandleError<T>(err).details.Some?) <==> err.name == "ValidationError"
  {
  }
}
