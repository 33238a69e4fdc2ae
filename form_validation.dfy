/** The feedback form's client-side checks (client/src/utils/validation.js). */
module FormValidation {
  import opened Common
  import opened EmailPatterns
  import opened FeedbackModel

  /** The form values; a missing value is `None`. */
  datatype FormData = FormData(name: Option<string>, email: Option<string>, message: Option<string>)

  /** The `errors` object: at most one message per field. */
  datatype FormErrors = FormErrors(name: Option<string>, email: Option<string>, message: Option<string>)

  datatype FormResult = FormResult(isValid: bool, errors: FormErrors)

  /** `isValidEmail`: present, and its trimmed text matches
      `^[^\s@]+@[^\s@]+\.[^\s@]+$`. */
  function IsValidEmail(email: Option<string>): (b: bool)
    ensures b <==> Truthy(email) && MatchesStrictPattern(Trim(email.value))
    ensures !Truthy(email) ==> !b
  {
    if !Truthy(email) then false
    else
      StrictEmailCorrect(Trim(email.value));
      StrictEmail(Trim(email.value))
  }

  function FormNameError(name: Option<string>): (e: Option<string>)
    ensures e == Some("Name is required.") <==> Trim(OrElse(name, "")) == ""
    ensures e == Some("Name must be at most 100 characters.") <==> |Trim(OrElse(name, ""))| > 100
    ensures e == None <==> Trim(OrElse(name, "")) != "" && |Trim(OrElse(name, ""))| <= 100
  {
    if !Truthy(name) || Trim(name.value) == "" then Some("Name is required.")
    else if |Trim(name.value)| > 100 then Some("Name must be at most 100 characters.")
    else None
  }

  function FormEmailError(email: Option<string>): (e: Option<string>)
    ensures e == Some("Email is required.") <==> Trim(OrElse(email, "")) == ""
    ensures e == Some("Please enter a valid email address.") <==>
      Trim(OrElse(email, "")) != "" && !MatchesStrictPattern(Trim(OrElse(email, "")))
    ensures e == None <==> MatchesStrictPattern(Trim(OrElse(email, "")))
  {
    StrictEmailCorrect(Trim(OrElse(email, "")));
    if !Truthy(email) || Trim(email.value) == "" then Some("Email is required.")
    else if !IsValidEmail(email) then Some("Please enter a valid email address.")
    else None
  }

  function FormMessageError(message: Option<string>): (e: Option<string>)
    ensures e == Some("Message is required.") <==> Trim(OrElse(message, "")) == ""
    ensures e == Some("Message must be at most 1000 characters.") <==> |Trim(OrElse(message, ""))| > 1000
    ensures e == None <==> Trim(OrElse(message, "")) != "" && |Trim(OrElse(message, ""))| <= 1000
  {
    if !Truthy(message) || Trim(message.value) == "" then Some("Message is required.")
    else if |Trim(message.value)| > 1000 then Some("Message must be at most 1000 characters.")
    else None
  }

  /** The trimmed fields satisfy every bound the form checks. */
  ghost predicate FormValid(form: FormData) {
    && Trim(OrElse(form.name, "")) != "" && |Trim(OrElse(form.name, ""))| <= 100
    && MatchesStrictPattern(Trim(OrElse(form.email, "")))
    && Trim(OrElse(form.message, "")) != "" && |Trim(OrElse(form.message, ""))| <= 1000
  }

  function ValidateFeedbackForm(form: FormData): (r: FormResult)
    ensures r.isValid <==> r.errors == FormErrors(None, None, None)
    ensures r.isValid <==> FormValid(form)
    ensures r.errors.name == Some("Name is required.") <==> Trim(OrElse(form.name, "")) == ""
    ensures r.errors.name == Some("Name must be at most 100 characters.") <==> |Trim(OrElse(form.name, ""))| > 100
    ensures r.errors.email == Some("Email is required.") <==> Trim(OrElse(form.email, "")) == ""
    ensures r.errors.email == Some("Please enter a valid email address.") <==>
      Trim(OrElse(form.email, "")) != "" && !MatchesStrictPattern(Trim(OrElse(form.email, "")))
    ensures r.errors.message == Some("Message is required.") <==> Trim(OrElse(form.message, "")) == ""
    ensures r.errors.message == Some("Message must be at most 1000 characters.") <==>
      |Trim(OrElse(form.message, ""))| > 1000
  {
    var errors := FormErrors(FormNameError(form.name), FormEmailError(form.email), FormMessageError(form.message));
    FormResult(errors == FormErrors(None, None, None), errors)
  }

  /** The form and the server schema agree on every form value except an
      address longer than 254 characters, which only the server refuses. */
  lemma FormAgreesWithSchema(form: FormData)
    ensures (ValidateFeedbackForm(form).isValid && |Trim(OrElse(form.email, ""))| <= 254) <==>
      FeedbackFieldsValid(Trim(OrElse(form.name, "")), Lower(Trim(OrElse(form.email, ""))),
                          Trim(OrElse(form.message, "")))
  {
    StrictLowerIff(Trim(OrElse(form.email, "")));
  }
}
