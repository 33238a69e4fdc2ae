/** Registration, login and the current-user lookup
    (server/controllers/authController.js). Password hashing and comparison
    are the parameters `hash` and `compare`; the random draws of the id
    generator are `draws` and `fallback`. */
module AuthController {
  import opened Common
  import opened EmailPatterns
  import opened UserModel
  import opened Store
  import opened ErrorHandler

  /** The request body of `register`; an absent property is `None`. */
  datatype RegisterInput = RegisterInput(
    firstName: Option<string>,
    lastName: Option<string>,
    email: Option<string>,
    password: Option<string>)

  /** What the handler's own checks ask of the body, all at once. */
  ghost predicate RegisterInputValid(input: RegisterInput) {
    && input.firstName.Some? && Trim(input.firstName.value) != ""
    && input.email.Some? && MatchesLoosePattern(Trim(input.email.value))
    && input.password.Some? && |input.password.value| >= 6
  }

  /** The handler's checks, in order; the first that fails gives the
      message of the 400 response. */
  function RegisterCheck(input: RegisterInput): (r: Option<string>)
    ensures r.None? <==> RegisterInputValid(input)
    ensures Trim(OrElse(input.firstName, "")) == "" ==> r == Some("First name is required")
    ensures Trim(OrElse(input.firstName, "")) != "" && Trim(OrElse(input.email, "")) == "" ==>
      r == Some("Email is required")
    ensures r.Some? ==> r.value in {"First name is required", "Email is required", "Password is required",
                                    "Invalid email format", "Password must be at least 6 characters"}
  {
    LooseEmailCorrect(Trim(OrElse(input.email, "")));
    if !Truthy(input.firstName) || Trim(input.firstName.value) == "" then Some("First name is required")
    else if !Truthy(input.email) || Trim(input.email.value) == "" then Some("Email is required")
    else if !Truthy(input.password) then Some("Password is required")
    else if !LooseEmail(Trim(input.email.value)) then Some("Invalid email format")
    else if |input.password.value| < 6 then Some("Password must be at least 6 characters")
    else None
  }

  /** The key of the account whose stored e-mail is the normalised `email`. */
  function Account(users: map<string, User>, email: string): (r: Option<string>)
    requires UniqueEmails(users)
    ensures r.Some? ==> r.value in users && users[r.value].email == Lower(Trim(email))
    ensures r.None? ==> forall k :: k in users ==> users[k].email != Lower(Trim(email))
  {
    UserByEmail(users, Lower(Trim(email)))
  }

  /** The document `User.create` is given, under identifier `id`. */
  function Registered(input: RegisterInput, id: string, hash: string -> string, now: nat): User
    requires RegisterCheck(input).None?
  {
    NewUser(id, Trim(input.firstName.value), Trim(OrElse(input.lastName, "")),
            Lower(Trim(input.email.value)), hash(input.password.value), now)
  }

  /** The fields of the new account the response shows. */
  datatype RegisteredUser = RegisteredUser(
    userId: string, firstName: string, lastName: string, email: string, createdAt: nat)

  function RegisteredView(u: User): RegisteredUser {
    RegisteredUser(u.userId, u.firstName, u.lastName, u.email, u.createdAt)
  }

  /** Identifiers the generator can return for these draws. */
  ghost predicate DrawnId(taken: set<string>, draws: seq<nat>, fallback: nat, id: string) {
    || (exists k :: FirstFreeAt(taken, draws, k) && id == UserIdFor(draws[k]))
    || ((forall k :: 0 <= k < |draws| ==> UserIdFor(draws[k]) in taken) && id == UserIdFor(fallback))
  }

  /** How `User.create` ends for document `u`: the schema first, then the
      unique index on `userId`, then the insert (through the save hook). */
  function CreateOutcome(users: map<string, User>, u: User, now: nat): Response<RegisteredUser> {
    var errs := ValidateUser(u);
    if errs != [] then HandleError(AppError("ValidationError", "", None, Some("Validation failed"), errs))
    else if u.userId in users then Fail(400, "Email already registered", None)
    else Ok(201, RegisteredView(UserModel.PreSave(u, now)))
  }

  /** Once the handler's checks pass, the schema can refuse the document only
      for a name over 50 characters or a hash under 6. */
  lemma RegisteredSchemaValid(input: RegisterInput, id: string, hash: string -> string, now: nat)
    requires RegisterCheck(input).None?
    ensures ValidateUser(Registered(input, id, hash, now)) == [] <==>
      |Trim(input.firstName.value)| <= 50 && |Trim(OrElse(input.lastName, ""))| <= 50
      && |hash(input.password.value)| >= 6
  {
    var u := Registered(input, id, hash, now);
    NewUserKeepsNormalised(id, input.firstName.value, OrElse(input.lastName, ""), input.email.value,
                           hash(input.password.value), now);
    LooseSurvivesLower(Trim(input.email.value));
    assert u.email == Lower(Trim(input.email.value));
  }

  /** The stored e-mail is the normalised form of the one sent. */
  lemma RegisteredEmailNormalised(input: RegisterInput, id: string, hash: string -> string, now: nat)
    requires RegisterCheck(input).None?
    ensures Registered(input, id, hash, now).email == Lower(Trim(input.email.value))
    ensures Registered(input, id, hash, now).firstName == Trim(input.firstName.value)
    ensures Registered(input, id, hash, now).lastName == Trim(OrElse(input.lastName, ""))
  {
    NewUserKeepsNormalised(id, input.firstName.value, OrElse(input.lastName, ""), input.email.value,
                           hash(input.password.value), now);
  }

  method Register(db: Database, input: RegisterInput, hash: string -> string,
                  draws: seq<nat>, fallback: nat, now: nat) returns (res: Response<RegisteredUser>)
    requires db.Valid()
    requires |draws| == 10 && forall k :: 0 <= k < |draws| ==> 1000 <= draws[k] <= 9999
    requires 100000 <= fallback <= 999999
    modifies db
    ensures db.Valid()
    ensures db.feedbacks == old(db.feedbacks) && db.reports == old(db.reports)
    ensures db.auditLog == old(db.auditLog) && db.nextFeedbackId == old(db.nextFeedbackId)
    ensures RegisterCheck(input).Some? ==> res == Fail(400, RegisterCheck(input).value, None)
    ensures RegisterCheck(input).None? && Account(old(db.users), input.email.value).Some? ==>
      res == Fail(400, "Email already registered. Please login instead.", None)
    ensures RegisterCheck(input).None? && Account(old(db.users), input.email.value).None? ==>
      exists id :: DrawnId(old(db.users).Keys, draws, fallback, id)
        && res == CreateOutcome(old(db.users), Registered(input, id, hash, now), now)
    ensures res.Fail? ==> unchanged(db)
    ensures res.Ok? ==>
      && res.data.userId !in old(db.users)
      && db.users == old(db.users)[res.data.userId :=
           UserModel.PreSave(Registered(input, res.data.userId, hash, now), now)]
  {
    var check := RegisterCheck(input);
    if check.Some? {
      return Fail(400, check.value, None);
    }
    var existing := Account(db.users, input.email.value);
    if existing.Some? {
      return Fail(400, "Email already registered. Please login instead.", None);
    }
    // the pre-validate hook of a new document without an identifier
    var generated := GenerateUniqueUserId(db.users.Keys, draws, fallback);
    var id := AssignUserId(true, "", generated);
    assert DrawnId(db.users.Keys, draws, fallback, id);
    var u := Registered(input, id, hash, now);
    RegisteredEmailNormalised(input, id, hash, now);
    res := CreateUser(db, u, now);
  }

  /** `User.create` on a document whose e-mail no account has. */
  method CreateUser(db: Database, u: User, now: nat) returns (res: Response<RegisteredUser>)
    requires db.Valid() && UserInvariant(u)
    requires forall k :: k in db.users ==> db.users[k].email != u.email
    modifies db
    ensures db.Valid()
    ensures res == CreateOutcome(old(db.users), u, now)
    ensures res.Fail? ==> unchanged(db)
    ensures res.Ok? ==> res.data.userId == u.userId && u.userId !in old(db.users)
    ensures res.Ok? ==> db.users == old(db.users)[u.userId := UserModel.PreSave(u, now)]
    ensures db.feedbacks == old(db.feedbacks) && db.reports == old(db.reports)
    ensures db.auditLog == old(db.auditLog) && db.nextFeedbackId == old(db.nextFeedbackId)
  {
    var errs := ValidateUser(u);
    if errs != [] {
      return HandleError(AppError("ValidationError", "", None, Some("Validation failed"), errs));
    }
    if u.userId in db.users {
      // duplicate key on the unique `userId` index (code 11000)
      return Fail(400, "Email already registered", None);
    }
    var stored := UserModel.PreSave(u, now);
    UserProfileValidIff(u);
    assert UserProfileValid(stored) && UserInvariant(stored);
    InsertUserSound(db.users, stored);
    db.users := db.users[u.userId := stored];
    res := Ok(201, RegisteredView(stored));
  }

  /** The fields of the account the login response shows. */
  datatype LoggedInUser = LoggedInUser(
    userId: string, firstName: string, lastName: string, email: string, lastLogin: nat)

  function LoggedInView(u: User): LoggedInUser {
    LoggedInUser(u.userId, u.firstName, u.lastName, u.email, u.lastLogin)
  }

  method Login(db: Database, email: Option<string>, password: Option<string>,
               compare: (string, string) -> bool, now: nat) returns (res: Response<LoggedInUser>)
    requires db.Valid()
    modifies db
    ensures db.Valid()
    ensures db.feedbacks == old(db.feedbacks) && db.reports == old(db.reports)
    ensures db.auditLog == old(db.auditLog) && db.nextFeedbackId == old(db.nextFeedbackId)
    ensures !Truthy(email) || !Truthy(password) ==>
      res == Fail(400, "Email and password are required", None)
    ensures Truthy(email) && Truthy(password) && Account(old(db.users), email.value).None? ==>
      res == Fail(401, "Invalid email or password. Please register first.", None)
    ensures Truthy(email) && Truthy(password) && Account(old(db.users), email.value).Some? ==>
      var k := Account(old(db.users), email.value).value;
      && (!compare(password.value, old(db.users)[k].password) ==>
            res == Fail(401, "Invalid email or password", None))
      && (compare(password.value, old(db.users)[k].password) ==>
            && db.users == old(db.users)[k := old(db.users)[k].(lastLogin := now, lastActive := now)]
            && res == Ok(200, LoggedInView(db.users[k])))
    ensures res.Fail? ==> unchanged(db)
  {
    if !Truthy(email) || !Truthy(password) {
      return Fail(400, "Email and password are required", None);
    }
    var found := Account(db.users, email.value);
    if found.None? {
      return Fail(401, "Invalid email or password. Please register first.", None);
    }
    var k := found.value;
    var u := db.users[k];
    if !compare(password.value, u.password) {
      return Fail(401, "Invalid email or password", None);
    }
    var v := RecordLogin(db, k, now);
    res := Ok(200, LoggedInView(v));
  }

  /** `user.lastLogin = new Date()` and the save, whose hook stamps
      `lastActive`. */
  method RecordLogin(db: Database, k: string, now: nat) returns (v: User)
    requires db.Valid() && k in db.users
    modifies db
    ensures db.Valid()
    ensures v == old(db.users)[k].(lastLogin := now, lastActive := now)
    ensures db.users == old(db.users)[k := v]
    ensures db.feedbacks == old(db.feedbacks) && db.reports == old(db.reports)
    ensures db.auditLog == old(db.auditLog) && db.nextFeedbackId == old(db.nextFeedbackId)
  {
    var u := db.users[k];
    v := UserModel.PreSave(u.(lastLogin := now), now);
    assert v == u.(lastLogin := now, lastActive := now);
    UpdateUserSound(db.users, k, v);
    db.users := db.users[k := v];
  }

  /** A login with the address as registered, in any case and with any
      surrounding white space, finds the new account. */
  lemma LoginFindsRegistered(users: map<string, User>, id: string, u: User, email: string, typed: string)
    requires UniqueEmails(users) && id in users && users[id] == u
    requires u.email == Lower(Trim(email)) && Lower(Trim(typed)) == Lower(Trim(email))
    ensures Account(users, typed) == Some(id)
  {
  }

  /** `.select('-password')`: the record without its hash. */
  function WithoutPassword(u: User): (v: User)
    ensures v.password == "" && v.(password := u.password) == u
  {
    u.(password := "")
  }

  function GetCurrentUser(users: map<string, User>, email: Option<string>): (r: Response<User>)
    requires UniqueEmails(users)
    ensures !Truthy(email) ==> r == Fail(400, "email query param is required", None)
    ensures Truthy(email) && Account(users, email.value).None? ==> r == Fail(404, "User not found", None)
    ensures r.Ok? <==> Truthy(email) && Account(users, email.value).Some?
    ensures r.Ok? ==> r.status == 200 && r.data.password == ""
    ensures r.Ok? ==>
      exists k :: k in users && users[k].email == Lower(Trim(email.value)) && r.data == WithoutPassword(users[k])
  {
    if !Truthy(email) then Fail(400, "email query param is required", None)
    else
      var found := Account(users, email.value);
      if found.None? then Fail(404, "User not found", None)
      else Ok(200, WithoutPassword(users[found.value]))
  }
}
