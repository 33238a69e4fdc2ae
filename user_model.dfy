/** The User record (server/models/models/User.js): moderation status and
    risk level, the schema's setters, defaults and validators, the hooks
    that stamp `lastActive` and assign a `U-` identifier, and the retry
    loop that picks a free identifier. */
module UserModel {
  import opened Common
  import opened EmailPatterns

  datatype UserStatus = Active | Suspended | Banned
  {
    function Name(): string {
      match this
      case Active => "active"
      case Suspended => "suspended"
      case Banned => "banned"
    }
  }

  /** Reads a user status string; the inverse of `Name`. */
  function ParseUserStatus(s: string): (r: Option<UserStatus>)
    ensures forall x: UserStatus :: r == Some(x) <==> x.Name() == s
  {
    if s == "active" then Some(Active)
    else if s == "suspended" then Some(Suspended)
    else if s == "banned" then Some(Banned)
    else None
  }

  datatype RiskLevel = LowRisk | MediumRisk | HighRisk
  {
    function Name(): string {
      match this
      case LowRisk => "low"
      case MediumRisk => "medium"
      case HighRisk => "high"
    }
  }

  /** Reads a risk level string; the inverse of `Name`. */
  function ParseRiskLevel(s: string): (r: Option<RiskLevel>)
    ensures forall x: RiskLevel :: r == Some(x) <==> x.Name() == s
  {
    if s == "low" then Some(LowRisk)
    else if s == "medium" then Some(MediumRisk)
    else if s == "high" then Some(HighRisk)
    else None
  }

  datatype User = User(
    userId: string,
    firstName: string,
    lastName: string,
    email: string,
    password: string,        // the stored hash
    createdAt: nat,
    lastLogin: nat,
    isActive: bool,
    status: UserStatus,
    riskLevel: RiskLevel,
    feedbackCount: nat,
    reportsReceived: nat,
    reportsSubmitted: nat,
    bannedAt: Option<nat>,
    suspendedAt: Option<nat>,
    suspensionReason: string,
    lastActive: nat)

  /** What the moderation handlers keep true of every stored user: a
      suspended user has a suspension time, a banned user a ban time, and
      an active user neither, and no reason either. */
  predicate UserInvariant(u: User) {
    && (u.status == Suspended ==> u.suspendedAt.Some?)
    && (u.status == Banned ==> u.bannedAt.Some?)
    && (u.status == Active ==> u.suspendedAt == None && u.bannedAt == None && u.suspensionReason == "")
  }

  /** A new document as `User.create` builds it: the trim and lowercase
      setters applied and every other field defaulted. */
  function NewUser(userId: string, firstName: string, lastName: string, email: string,
                   passwordHash: string, now: nat): (u: User)
    ensures u.userId == userId && u.password == passwordHash
    ensures u.firstName == Trim(firstName) && u.lastName == Trim(lastName)
    ensures u.email == Lower(Trim(email))
    ensures u.createdAt == now && u.lastLogin == now && u.lastActive == now
    ensures u.isActive && u.status == Active && u.riskLevel == LowRisk
    ensures u.feedbackCount == 0 && u.reportsReceived == 0 && u.reportsSubmitted == 0
    ensures u.bannedAt == None && u.suspendedAt == None && u.suspensionReason == ""
    ensures UserInvariant(u)
  {
    User(userId, Trim(firstName), Trim(lastName), Lower(Trim(email)), passwordHash,
         now, now, true, Active, LowRisk, 0, 0, 0, None, None, "", now)
  }

  /** Values the registration handler has already normalised pass through
      the setters unchanged. */
  lemma NewUserKeepsNormalised(userId: string, firstName: string, lastName: string, email: string,
                               passwordHash: string, now: nat)
    ensures var u := NewUser(userId, Trim(firstName), Trim(lastName), Lower(Trim(email)), passwordHash, now);
      u.firstName == Trim(firstName) && u.lastName == Trim(lastName) && u.email == Lower(Trim(email))
  {
    TrimIdempotent(firstName);
    TrimIdempotent(lastName);
    LowerTrimFixed(email);
  }

  /** The bounds of the schema, on values after the setters. */
  ghost predicate UserFieldsValid(u: User) {
    && u.firstName != "" && |u.firstName| <= 50
    && |u.lastName| <= 50
    && u.email != "" && MatchesLoosePattern(u.email)
    && u.password != "" && |u.password| >= 6
  }

  /** Mongoose's default message for a `maxlength` without a custom one. */
  function MaxLengthMessage(path: string, value: string, max: nat): string {
    "Path `" + path + "` (`" + value + "`) is longer than the maximum allowed length ("
      + NatToString(max) + ")."
  }

  function FirstNameError(v: string): Option<string> {
    if v == "" then Some("First name is required")
    else if |v| > 50 then Some(MaxLengthMessage("firstName", v, 50))
    else None
  }

  function LastNameError(v: string): Option<string> {
    if |v| > 50 then Some(MaxLengthMessage("lastName", v, 50)) else None
  }

  function UserEmailError(v: string): Option<string> {
    if v == "" then Some("Email is required")
    else if !LooseEmail(v) then Some("Invalid email format")
    else None
  }

  function PasswordError(v: string): Option<string> {
    if v == "" then Some("Password is required")
    else if |v| < 6 then Some("Password must be at least 6 characters")
    else None
  }

  /** The paths of the schema in order, with their verdicts. */
  function UserChecks(u: User): seq<Check> {
    [Check("firstName", FirstNameError(u.firstName)), Check("lastName", LastNameError(u.lastName)),
     Check("email", UserEmailError(u.email)), Check("password", PasswordError(u.password))]
  }

  /** Schema validation of a user document: one error per failing path, in
      schema order, holding the message of its first failing validator. */
  function ValidateUser(u: User): (errs: seq<ValidatorError>)
    ensures errs == [] <==> UserFieldsValid(u)
    ensures |errs| <= 4
    ensures forall i, j :: 0 <= i < j < |errs| ==> errs[i].path != errs[j].path
  {
    LooseEmailCorrect(u.email);
    var cs := UserChecks(u);
    ErrorsDistinct(cs);
    assert UserProfileValid(u) ==> forall i :: 0 <= i < |cs| ==> cs[i].error.None?;
    Errors(cs)
  }

  /** A stored record's profile fields pass every validator of the schema. */
  predicate UserProfileValid(u: User) {
    && FirstNameError(u.firstName).None? && LastNameError(u.lastName).None?
    && UserEmailError(u.email).None? && PasswordError(u.password).None?
  }

  lemma UserProfileValidIff(u: User)
    ensures UserProfileValid(u) <==> ValidateUser(u) == []
  {
  }

  /** The pre-save hook: every save stamps `lastActive`, nothing else. */
  function PreSave(u: User, now: nat): (v: User)
    ensures v.lastActive == now && v.(lastActive := u.lastActive) == u
  {
    u.(lastActive := now)
  }

  // ---------------------------------------------------------------------
  // User identifiers

  function UserIdFor(n: nat): string {
    "U-" + NatToString(n)
  }

  /** Different numbers give different identifiers, and the number of
      digits of the identifier is fixed by the range it was drawn from. */
  lemma UserIdForShape(a: nat, b: nat)
    ensures UserIdFor(a) == UserIdFor(b) ==> a == b
    ensures 1000 <= a <= 9999 ==> |UserIdFor(a)| == 6
    ensures 100000 <= a <= 999999 ==> |UserIdFor(a)| == 8
  {
    if UserIdFor(a) == UserIdFor(b) {
      assert NatToString(a) == UserIdFor(a)[2..] == UserIdFor(b)[2..] == NatToString(b);
      NatToStringInjective(a, b);
    }
    DigitCount(a);
  }

  lemma DigitCount(a: nat)
    ensures 1000 <= a <= 9999 ==> |NatToString(a)| == 4
    ensures 100000 <= a <= 999999 ==> |NatToString(a)| == 6
  {
    NatToStringLength(a, 3);
    NatToStringLength(a, 4);
    NatToStringLength(a, 5);
    NatToStringLength(a, 6);
    assert Pow10(3) == 1000 && Pow10(5) == 100000;
  }

  /** This attempt's candidate is free and every earlier one was taken. */
  predicate FirstFreeAt(taken: set<string>, draws: seq<nat>, k: int)
  {
    && 0 <= k < |draws|
    && UserIdFor(draws[k]) !in taken
    && forall j :: 0 <= j < k ==> UserIdFor(draws[j]) in taken
  }

  /** `generateUniqueUserId`: up to ten attempts, each a four-digit number
      drawn at random (`draws`), returning the first candidate no user has;
      after ten collisions a six-digit number (`fallback`), unchecked. */
  method GenerateUniqueUserId(taken: set<string>, draws: seq<nat>, fallback: nat) returns (id: string)
    requires |draws| == 10
    requires forall k :: 0 <= k < |draws| ==> 1000 <= draws[k] <= 9999
    requires 100000 <= fallback <= 999999
    ensures (exists k :: 0 <= k < 10 && UserIdFor(draws[k]) !in taken) ==>
      exists k :: FirstFreeAt(taken, draws, k) && id == UserIdFor(draws[k])
    ensures (forall k :: 0 <= k < 10 ==> UserIdFor(draws[k]) in taken) ==> id == UserIdFor(fallback)
  {
    for attempt := 0 to 10
      invariant forall j :: 0 <= j < attempt ==> UserIdFor(draws[j]) in taken
    {
      var candidate := UserIdFor(draws[attempt]);
      if candidate !in taken {
        assert FirstFreeAt(taken, draws, attempt);
        return candidate;
      }
    }
    id := UserIdFor(fallback);
  }

  /** The pre-validate hook: only a new document without an identifier gets
      a generated one. */
  function AssignUserId(isNew: bool, current: string, generated: string): (id: string)
    ensures current != "" ==> id == current
    ensures !isNew ==> id == current
    ensures isNew && current == "" ==> id == generated
  {
    if isNew && current == "" then generated else current
  }
}
