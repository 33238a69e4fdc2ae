# Echo moderation and feedback store, modelled in Dafny

Echo is a feedback board with an admin dashboard. Visitors post feedback
(name, e-mail, message) and report each other's posts. Registered users log in
by e-mail and password. Administrators can do the following:

- list, filter, re-status and bulk-delete feedback;
- review reports, which may remove the content or suspend or ban its author;
- change a user's status or risk level, or delete a user together with
  everything attached to the account.

Every administrative action appends an entry to an audit log.

This project models the server's handlers, the schemas they rely on, and the
small client helpers for the feedback form and the admin session flag.

The store is a class, `Store.Database`, with four collections:

- users, keyed by `userId`;
- feedback, keyed by a numeric id that stands for the document `_id`;
- reports, keyed by `reportId`;
- the audit log, which is append-only.

`Database.Valid()` is the invariant every handler keeps:

- keys agree with the records' own ids;
- every stored record passes its schema;
- e-mails are unique;
- a report count equals the length of the report list;
- no reporter has two reports on one feedback;
- a user's status agrees with its timestamps.

How each kind of code is modelled:

- **Handlers that change the store** are methods with `modifies db`. Their
  `ensures` give the whole new state and the response for every branch of
  the source.
- **Handlers that only read** are functions over the maps. The newest-first
  orderings are ghost functions, because the database leaves ties between
  equal timestamps unordered.
- **Schema validation** is a list of per-path checks. Each path reports the
  message of its first failing validator, in schema order.
- **Regular expressions** each get two definitions: what the pattern means,
  and a scan. A lemma proves the two agree.
- **Inputs the code does not control** are parameters: clock readings,
  random draws, password hashing and comparison, the request address.

Modules follow the source files:

| module | source |
|---|---|
| `Common` | shared helpers: `Option`, responses, trimming, case, decimals |
| `EmailPatterns` | the two e-mail regular expressions |
| `Listing` | newest-first ordering and `.skip().limit()` |
| `FeedbackModel`, `ReportModel`, `UserModel`, `AuditModel` | the four schemas and their hooks |
| `Store` | the collections and what each kind of write preserves |
| `AuditLog` | `server/utils/auditLog.js` |
| `ErrorHandler` | `middleware/errorHandler.js` |
| `FeedbackController`, `ReportController`, `UserController`, `AdminController`, `AuthController` | the five controllers |
| `FormValidation`, `UserIdentifier`, `AdminAuth` | the client form checks, the identifier middleware, the admin session flag |

## Model

| member | source | states |
|---|---|---|
| Common.Errors | server/models/Feedback.js:14-36 | No errors exactly when every path passes; at most one error per checked path |
| Common.ErrorsMember | server/models/Feedback.js:14-36 | An error is reported exactly when some path's first failing validator gives that path and message |
| Common.ErrorsDistinct | server/models/Feedback.js:14-36 | Paths checked once each give errors with pairwise distinct paths |
| Common.TrimIdempotent | server/models/Feedback.js:14-36 | The `trim` setter is idempotent, so a stored value passes through it unchanged |
| Common.LowerTrimFixed | server/models/Feedback.js:20-30 | Trimming and lower-casing commute; the normalised e-mail is a fixed point of normalisation |
| Common.IsSubstringCorrect | server/controllers/adminController.js:135-142 | The keyword scan finds the term exactly when it occurs at some position |
| EmailPatterns.StrictEmailCorrect | server/models/Feedback.js:20-30 | The scan accepts exactly the texts that split as local `@` domain `.` tld with no white space or `@` in any part |
| EmailPatterns.LooseEmailCorrect | server/models/models/User.js:25-32 | The scan accepts exactly the texts with no white space that split as a `@` b `.` c with all parts non-empty |
| EmailPatterns.StrictImpliesLoose | server/models/models/User.js:25-32 | Every address the feedback pattern accepts, the user pattern accepts too |
| EmailPatterns.LooseSurvivesLower | server/controllers/authController.js:40-55 | An address the loose pattern accepts is still accepted once lower-cased |
| EmailPatterns.StrictLowerIff | client/src/utils/validation.js:16-17 | The strict pattern accepts an address exactly when it accepts its lower-cased form |
| Listing.NewestFirst | server/controllers/feedbackController.js:51 | Every key exactly once, in non-increasing `createdAt` order |
| Listing.Page | server/controllers/adminController.js:160-173 | `.skip(s).limit(l)`: at most `l` items, the right count, each the item `s` places further on |
| Listing.NewestRecords | server/controllers/controllers/reportController.js:100 | Every selected record is listed, each listed one is selected, and the list is newest first |
| FeedbackModel.ParseFeedbackStatus | server/models/Feedback.js:60-64 | Reads exactly the five status names; the inverse of `Name` |
| FeedbackModel.ValidateFeedback | server/models/Feedback.js:14-36 | No errors exactly when name, e-mail and message meet every bound and the pattern; at most three errors, distinct paths |
| FeedbackModel.FeedbackTextValidIff | server/models/Feedback.js:14-36 | A record is schema-valid exactly when validation reports nothing |
| FeedbackModel.ValidateFeedbackMessages | server/models/Feedback.js:14-36 | Each of the six messages appears exactly for the input that triggers it |
| FeedbackModel.NewFeedback | server/models/Feedback.js:14-72 | The setters trim and lower-case; status normal, visible, zero likes, comments and reports |
| FeedbackModel.PreSave | server/models/Feedback.js:86-89 | A save stamps `updatedAt` and changes nothing else |
| ReportModel.ParseReason | server/models/Report.js:28-32 | Reads exactly the five reasons; the inverse of `Name` |
| ReportModel.ParseReportStatus | server/models/Report.js:38-42 | Reads exactly the four statuses; the inverse of `Name` |
| ReportModel.ParseReportAction | server/models/Report.js:45-49 | Reads exactly the five actions; the inverse of `Name` |
| ReportModel.NewReport | server/models/Report.js:33-53 | A new report is pending, has no action and has not been reviewed |
| ReportModel.ReportIdReadsBack | server/models/Report.js:56-61 | The id is `R-` then digits that read back as count + 1; six characters exactly below 10000 |
| ReportModel.FormatReportIdInjective | server/models/Report.js:59 | Different counts give different ids |
| ReportModel.AssignReportId | server/models/Report.js:56-61 | Only a new report without an id gets one; an existing id is kept |
| UserModel.ParseUserStatus | server/models/models/User.js:50-54 | Reads exactly the three statuses |
| UserModel.ParseRiskLevel | server/models/models/User.js:55-59 | Reads exactly the three risk levels |
| UserModel.NewUser | server/models/models/User.js:7-88 | Setters applied; active, low risk, zero counters, no ban or suspension; the user invariant holds |
| UserModel.NewUserKeepsNormalised | server/controllers/authController.js:67-72 | Names and e-mail the handler already normalised pass the setters unchanged |
| UserModel.ValidateUser | server/models/models/User.js:13-37 | No errors exactly when the profile meets every bound; at most four errors, distinct paths |
| UserModel.UserProfileValidIff | server/models/models/User.js:13-37 | A record is schema-valid exactly when validation reports nothing |
| UserModel.PreSave | server/models/models/User.js:90-93 | A save stamps `lastActive` and changes nothing else |
| UserModel.UserIdForShape | server/models/models/User.js:99-107 | Different numbers give different ids; 4-digit draws give 6-character ids, 6-digit draws 8-character ones |
| UserModel.GenerateUniqueUserId | server/models/models/User.js:96-108 | Returns the first of the ten candidates no user has; after ten collisions, the unchecked fallback |
| UserModel.AssignUserId | server/models/models/User.js:111-120 | Only a new document without an id gets the generated one |
| AuditModel.ParseAuditAction | server/models/AuditLog.js:12-16 | Reads exactly the eight actions; the inverse of `Name` |
| AuditModel.ParseSeverity | server/models/AuditLog.js:20-24 | Reads exactly the three severities |
| Store.UserByEmail | server/controllers/authController.js:57 | Finds the account with this e-mail, or establishes that there is none |
| Store.UpdateUserSound | server/controllers/userController.js:155 | Saving a user with the same identity and e-mail keeps every user invariant |
| Store.InsertUserSound | server/controllers/authController.js:67-72 | Inserting a user with a fresh id and e-mail keeps every user invariant, including unique e-mails |
| Store.InsertFeedbackSound | server/controllers/feedbackController.js:26-30 | Inserting a feedback under the next id keeps the feedback invariants |
| Store.InsertReportSound | server/controllers/controllers/reportController.js:33-47 | Inserting a report with no earlier report by the same reporter on the same feedback keeps one report per reporter |
| Store.UpdateReportSound | server/controllers/controllers/reportController.js:130-134 | Saving a reviewed report with the same parties keeps the report invariants |
| Store.DeleteSound | server/controllers/userController.js:250-257 | Any deletion keeps every invariant of what remains |
| AuditLog.SeverityOf | server/utils/auditLog.js:27 | A known severity is kept; anything else, or none, is `low` |
| AuditLog.NormaliseAudit | server/utils/auditLog.js:17-31 | An entry exists exactly when action and target type are given and valid; then it holds the defaults, the trimmed fields, the first 1000 characters of the details and the whitelisted severity |
| AuditLog.MissingActionOrTargetStoresNothing | server/utils/auditLog.js:19 | A missing action or target type stores nothing |
| AuditLog.HandlerCallStored | server/utils/auditLog.js:17-31 | A handler's call with literal admin and target type always stores the expected entry |
| AuditLog.CreateAuditLog | server/utils/auditLog.js:17-32 | The log grows by the normalised entry or not at all; a rejected write changes nothing else |
| AuditLog.RecordHandlerCall | server/utils/auditLog.js:17-32 | A handler's audit call appends exactly its entry |
| ErrorHandler.Details | middleware/errorHandler.js:12-15 | One `{field, message}` per validation error, in order |
| ErrorHandler.DetailsKeepDistinct | middleware/errorHandler.js:12-15 | Distinct error paths give distinct detail fields |
| ErrorHandler.HandleError | middleware/errorHandler.js:3-35 | Validation errors give 400 with details; an ObjectId cast error gives 400; otherwise the error's status or 500 and its message or a generic one; never success |
| ErrorHandler.OnlyValidationHasDetails | middleware/errorHandler.js:8-22 | Only a validation error carries `details` |
| FeedbackController.CreateFeedback | server/controllers/feedbackController.js:14-40 | A missing field gives 400 and no write; a schema failure gives 400 with details and no write; otherwise the trimmed, saved document under the next id, 201 |
| FeedbackController.StoreNewFeedback | server/controllers/feedbackController.js:26-30 | The insert: exactly one new record under the next id |
| FeedbackController.BlankNameReachesSchema | server/controllers/feedbackController.js:19-30 | A name of spaces passes the handler's check and is refused by the schema with "Name is required" |
| FeedbackController.StoredTextIsNormalised | server/models/Feedback.js:14-36 | The stored text is the trimmed input, the e-mail lower-cased, and is a fixed point of the setters |
| FeedbackController.ValidationDetailsDistinct | middleware/errorHandler.js:12-15 | The 400 response of a rejected feedback names each field at most once |
| FeedbackController.GetAllFeedbacks | server/controllers/feedbackController.js:49-61 | `count` equals the list length and the store size; every stored feedback listed, newest first |
| FeedbackController.GetFeedbackById | server/controllers/feedbackController.js:70-89 | The stored record, or 404 "Feedback not found" exactly when absent |
| FeedbackController.DeleteFeedback | server/controllers/feedbackController.js:98-120 | 404 and no change when absent; otherwise exactly that record is removed |
| FeedbackController.DeleteThenFetch | server/controllers/feedbackController.js:70-120 | After a delete the id is not found and every other id is unaffected |
| ReportController.ResolveParty | server/controllers/controllers/reportController.js:35-44 | Each camelCase property wins when truthy, else its snake_case spelling, else "" |
| ReportController.ReportDetails | server/controllers/controllers/reportController.js:46 | The first 500 characters of truthy details, else "" |
| ReportController.RecordReport | server/controllers/controllers/reportController.js:49-62 | One more count and entry; flagged from the third report; the invariant kept; nothing else changes |
| ReportController.RecordReportsEffect | server/controllers/controllers/reportController.js:51-60 | After a run of reports the count and list grow by the run, and the feedback is flagged once the count reaches three |
| ReportController.FreshFeedbackFlaggedAtThird | server/controllers/controllers/reportController.js:58-60 | A fresh feedback is flagged exactly from its third report |
| ReportController.FlaggingKeepsInvisible | server/controllers/controllers/reportController.js:58-60 | Flagging leaves visibility alone, so a removed feedback can be flagged and invisible |
| ReportController.ReceiveReport | server/controllers/controllers/reportController.js:64-76 | One more report received; risk high from 10, medium from 5, unchanged below |
| ReportController.ReceiveReportsRisk | server/controllers/controllers/reportController.js:68-73 | From a matching start, the risk level after k reports is the one the new count implies |
| ReportController.RiskCanDecrease | server/controllers/controllers/reportController.js:69-73 | An admin-set `high` drops to `medium` on the next report while the count is 5..9 |
| ReportController.ReportFor | server/controllers/controllers/reportController.js:33-47 | The stored report carries the resolved parties, the parsed reason and the cut details, pending |
| ReportController.CreateReport | server/controllers/controllers/reportController.js:9-91 | Succeeds exactly when the fields are present, the reporter has not reported this feedback, the schema accepts and the id is free; the 400 and 500 branches change nothing; success stores the report and updates the feedback and author when present |
| ReportController.ReportsAdmitted | server/controllers/controllers/reportController.js:96-98 | Exactly the reports matching a truthy status other than `all`; every report otherwise |
| ReportController.GetAllReports | server/controllers/controllers/reportController.js:94-114 | Exactly the reports the status filter admits, each once by count, newest first |
| ReportController.ReviewSeverity | server/controllers/controllers/reportController.js:161 | `high` exactly for a ban, `medium` exactly for suspension or removal, otherwise `low` |
| ReportController.Reviewed | server/controllers/controllers/reportController.js:130-134 | The given or default status and action, reviewed by Admin now, when the schema accepts them |
| ReportController.RemoveContent | server/controllers/controllers/reportController.js:136-140 | Removed and invisible; nothing else changes |
| ReportController.SanctionAuthor | server/controllers/controllers/reportController.js:141-159 | Banned or suspended with its time and reason; the invariant holds; nothing else changes |
| ReportController.ReviewReport | server/controllers/controllers/reportController.js:117-184 | 404 or 500 with no change; succeeds exactly for a known report whose review passes the enum checks, with the reviewed report, the action's effect and one audit entry |
| UserController.WithStats | server/controllers/userController.js:34-46 | The listed user has no password and counters recounted from feedback and reports |
| UserController.WithStatsIgnoresStoredCounts | server/controllers/userController.js:34-46 | Stored counters play no part in what is listed |
| UserController.Admitted | server/controllers/userController.js:20-30 | Exactly the users the status, risk and search filters admit |
| UserController.GetAllUsers | server/controllers/userController.js:15-76 | Every admitted user once, newest first, with recounted counters; totals over all users |
| UserController.StatsIgnoreQuery | server/controllers/userController.js:49-66 | The totals do not depend on the filters |
| UserController.NoQueryListsAll | server/controllers/userController.js:20-30 | With no filters every user is listed |
| UserController.StatsPartition | server/controllers/userController.js:49-66 | Active, suspended and banned add up to the total; high risk is at most the total |
| UserController.GetUserDetails | server/controllers/userController.js:83-115 | 404 "User not found" exactly when absent; otherwise the user without password, its feedback and the reports against it, newest first |
| UserController.AuthoredNewest | server/controllers/userController.js:95 | Exactly the user's feedback, each once by count, newest first |
| UserController.AgainstNewest | server/controllers/userController.js:96 | Exactly the reports naming the user as author, each once by count, newest first |
| UserController.ApplyStatus | server/controllers/userController.js:142-153 | The status's fields set, with the reason or default; reactivation clears them; the invariant holds |
| UserController.ReactivateClears | server/controllers/userController.js:142-153 | Reactivation undoes every trace of a suspension or ban |
| UserController.BanAfterSuspension | server/controllers/userController.js:142-153 | A ban after a suspension keeps both times |
| UserController.StatusAudit | server/controllers/userController.js:157-165 | Each status's audit action and severity |
| UserController.UpdateUserStatus | server/controllers/userController.js:122-180 | 400 for an unknown status, 404 for an unknown user; otherwise success, with the saved user and one audit entry |
| UserController.UpdateUserRiskLevel | server/controllers/userController.js:187-223 | 400 and 404 with no change; otherwise success, and only risk level and `lastActive` change |
| UserController.FeedbacksWithout | server/controllers/userController.js:241-248 | Exactly the feedback not under this author id |
| UserController.ReportsWithout | server/controllers/userController.js:241-248 | Exactly the reports this user neither filed nor received |
| UserController.CascadeLeavesNoCounts | server/controllers/userController.js:241-248 | Nothing remains under the deleted id |
| UserController.CascadeKeepsOthersFeedback | server/controllers/userController.js:241-248 | Another user's feedback survives |
| UserController.CascadeDropsReportsFiledByUser | server/controllers/userController.js:241-248 | Another user loses exactly the reports the deleted user filed against it |
| UserController.DeleteUser | server/controllers/userController.js:230-271 | 404 with no change; otherwise success, with the cascade, the user removed and one high-severity audit entry |
| AdminController.FeedbackGrowth | server/controllers/adminController.js:49-50 | 100 or 0 when last week had none; otherwise the percentage rounded half up |
| AdminController.GrowthBounds | server/controllers/adminController.js:49-50 | The rounded figure is the only integer within a half of the exact one, is at least -100, and is 0 for equal weeks |
| AdminController.ParseInt | server/controllers/adminController.js:157-158 | `parseInt(s, 10)`: `NaN` exactly when no digit follows the optional sign |
| AdminController.ParseIntReadsBack | server/controllers/adminController.js:157-158 | Reads back `String(n)` and `-String(n)`, ignoring text after the digits |
| AdminController.EffectiveLimit | server/controllers/adminController.js:125-157 | Always 1..100; 20 for a missing or unreadable limit |
| AdminController.EffectiveSkip | server/controllers/adminController.js:126-158 | Never negative; 0 for a missing or unreadable skip |
| AdminController.DefaultPaging | server/controllers/adminController.js:125-158 | Without parameters the page is the first twenty |
| AdminController.NonStatusIgnored | server/controllers/adminController.js:131-133 | `all` or any non-status text filters nothing |
| AdminController.Matching | server/controllers/adminController.js:129-155 | Exactly the feedback the status, keyword and date filters admit |
| AdminController.FilteredNewest | server/controllers/adminController.js:160-162 | Every match exactly once by count, only matches, newest first |
| AdminController.GetFilteredFeedback | server/controllers/adminController.js:118-178 | `total` counts the matches; `data` is the `skip`-window of length `min(limit, total - skip)` (none past the end) of the newest-first list of every match, so each item is stored and admitted |
| AdminController.Paged | server/controllers/adminController.js:160-173 | The response body: `total` is the whole result, `count` the page's length, and the page is the `limit`-long window starting `skip` records in |
| AdminController.PagesTile | server/controllers/adminController.js:157-173 | Consecutive pages neither overlap nor leave a gap |
| AdminController.WithStatus | server/controllers/adminController.js:199-205 | The new status; invisible exactly for hidden and removed |
| AdminController.UpdateFeedbackStatus | server/controllers/adminController.js:187-221 | 400 for an unknown status, 404 for an unknown id, with no change; otherwise success, with status and visibility set |
| AdminController.BulkDeleteCount | server/controllers/adminController.js:241-245 | The reported count is exactly the number of records that disappeared |
| AdminController.BulkDeleteFeedbacks | server/controllers/adminController.js:230-250 | 400 for a missing or empty array; otherwise success, with the listed records removed and their count returned |
| AuthController.RegisterCheck | server/controllers/authController.js:17-53 | No message exactly when the body meets every check; a blank first name is reported first; every message is one of the five |
| AuthController.Account | server/controllers/authController.js:55-57 | The account whose e-mail is the trimmed, lower-cased input, or none |
| AuthController.RegisteredSchemaValid | server/controllers/authController.js:65-72 | After the handler's checks, the schema refuses only a name over 50 characters or a hash under 6 |
| AuthController.RegisteredEmailNormalised | server/controllers/authController.js:55-72 | The stored e-mail is trimmed and lower-cased; the names are trimmed |
| AuthController.Register | server/controllers/authController.js:15-94 | Each 400 in order with no change; success inserts the new user under a drawn id |
| AuthController.CreateUser | server/controllers/authController.js:67-91 | The schema first, then the unique index, then exactly one insert |
| AuthController.Login | server/controllers/authController.js:103-149 | 400 and 401 with no change; success changes only `lastLogin` and `lastActive` of that user |
| AuthController.RecordLogin | server/controllers/authController.js:132-133 | Only `lastLogin` and `lastActive` change |
| AuthController.LoginFindsRegistered | server/controllers/authController.js:114-115 | A login with the registered address, in any case and spacing, finds the account |
| AuthController.GetCurrentUser | server/controllers/authController.js:158-185 | 400 without e-mail, 404 for an unknown one; otherwise the account without password |
| FormValidation.IsValidEmail | client/src/utils/validation.js:10-18 | False for an absent or empty value; otherwise true exactly when the trimmed text matches the strict pattern |
| FormValidation.FormNameError | client/src/utils/validation.js:31-35 | Required for blank, the length error above 100, otherwise none |
| FormValidation.FormEmailError | client/src/utils/validation.js:37-41 | Required for blank, the validity error when the pattern fails, otherwise none |
| FormValidation.FormMessageError | client/src/utils/validation.js:43-47 | Required for blank, the length error above 1000, otherwise none |
| FormValidation.ValidateFeedbackForm | client/src/utils/validation.js:28-55 | `isValid` exactly when there are no errors, exactly when every field meets its bound |
| FormValidation.FormAgreesWithSchema | client/src/utils/validation.js:28-55 | The form and the server schema agree except on addresses over 254 characters |
| UserIdentifier.FirstEntry | server/middleware/getUserIdentifier.js:11 | The text before the first comma |
| UserIdentifier.GetUserIdentifier | server/middleware/getUserIdentifier.js:8-15 | The trimmed first header entry when not blank, else the request address, else the socket address, else "" |
| UserIdentifier.OtherEntriesIgnored | server/middleware/getUserIdentifier.js:11 | Entries after the first comma never affect the result |
| AdminAuth.AdminSession.SetAdminAuthenticated | server/client/src/utils/adminAuth.js:6-18 | Sets or removes both flags; an unusable storage stops the remaining writes |
| AdminAuth.AdminSession.IsAdminAuthenticated | server/client/src/utils/adminAuth.js:20-34 | True exactly when both flags read `'true'`; a local flag without a session flag is cleared |
| AdminAuth.AdminSession.ClearAdminAuth | server/client/src/utils/adminAuth.js:36 | The same effect as setting the flag to false |

## Left out

- Networking and persistence. HTTP, Express and MongoDB are replaced by method calls on an in-memory store.
- Concurrency. Requests run one at a time. The audit write, which the source does not wait for, is taken to complete before the response.
- Partial writes. A handler that fails after an earlier write (for example `createReport` when saving the feedback fails) is not modelled. Every save of a record that passed validation succeeds.
- Data types. Request values that are not strings, such as numbers or arrays where text is expected, are not modelled. Absent values are `None`.
- Ids. Feedback ids are natural numbers, so a malformed ObjectId and the `CastError` path of every handler cannot arise. `ErrorHandler.HandleError` still models that branch.
- Regular expressions in search. The keyword and user-search filters pass user text as an unescaped regex, and this model treats it as a case-insensitive substring. The two differ on metacharacters.
- Unicode. Letter case covers `A`–`Z` only. White space is the ECMAScript set.
- String lengths. Every length bound and cut is counted in characters (code points): the maxlengths 100, 254 and 1000 of the feedback schema, the 50-character names and 6-character password minimum of the user schema, the password check of registration, `slice(0, 500)` of report details, `slice(0, 1000)` of audit details and the bounds of the client form. JavaScript counts UTF-16 code units, so a text with characters outside the Basic Multilingual Plane (an emoji, say) is longer there than here; a name of 51 emoji passes the model's 100-character bound but not the source's.
- Dates. Dates and time zones are outside the model.
  - `startDate` and `endDate` are given as already-converted inclusive bounds.
  - `getChartData`, the dashboard counts and the week windows of `getDashboardStats` are not modelled.
  - Only the growth formula is modelled.
- Floating point. `AdminController.FeedbackGrowth` uses exact integer rounding in place of `Math.round` on a float. "Half up" is the same rule, with no floating-point error.
- Hashing. bcrypt hashing and comparison are the parameters `hash` and `compare` of `AuthController.Register` and `AuthController.Login`.
- Randomness. The random draws of the id generator are parameters.
- Success messages. The `message` texts of success responses are not modelled. Error texts are.
- `UserIdentifier.GetUserIdentifier`: the write to `req.userIdentifier` and the single call of `next` are not modelled. The member returns the identifier.
- `AuthController.GetCurrentUser`: `.select('-password')` is modelled as an empty password field, not as an absent one.
- `UserController.GetAllUsers` and `UserController.GetUserDetails` list users with an empty password for the same reason.
- `AdminAuth.AdminSession`: each storage either works for every access or throws on every access. A storage that fails only on some accesses is not modelled.
- Strict mode. Fields the schemas do not declare (`userId`, `reportsCount` and `reportedBy` on feedback) are modelled as the controllers use them. Mongoose's strict mode would drop them.
- `FeedbackController.CreateFeedback` never stores an author id, as in the source, so a feedback's `userId` is always empty.
- Copies and old versions. `server/utils/utils/auditLog.js` and `server/server/middleware/getUserIdentifier.js` are identical copies of modelled files. `server/models/User.js` is an older schema without the moderation fields.
  - The controllers' `require('../models/User')` could name either schema. The model uses `server/models/models/User.js`, because the moderation handlers read and write its status, risk and counter fields.
  - The older schema also differs in two other ways: it reports Mongoose's default messages, and it generates the `userId` in a pre-save hook instead of pre-validate.
- The client form's rendering, the React pages and the client HTTP wrappers are not part of this model.
- `ReportController.ReviewReport` does not check that a report is still pending, as in the source. Count-based report ids can repeat once `UserController.DeleteUser` has removed reports. Such a repeat gives the 500 branch.
