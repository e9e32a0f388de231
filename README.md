# ai-task-manager, modelled in Dafny

This project models the core of a small task manager. The backend is an
Express/MongoDB service. It issues JSON Web Tokens (an access token of one
hour and a refresh token of one week), rotates refresh tokens through a
ledger of spent tokens, and guards each user's tasks. The frontend is a
React dashboard: an axios interceptor that refreshes the session, a
generic form, an error snackbar, a notification button, a calendar and an
editable grid.

The model has these parts. Values are datatypes; state that the source
updates in place is a class whose methods carry `modifies`.

- **Errors** (`errors.dfy`, `error_handler.dfy`): the `HttpError` class
  hierarchy, with one status code and one name per class, and the Express
  error handler. The handler answers `statusCode || 500` and
  `{ error: message || "" }`, and logs once.
- **Tokens** (`tokens.dfy`): a token is an abstract record. It holds the
  subject id, the issue time and the expiry as NumericDates (seconds,
  section 4.1.4 of RFC 7519). It also records whether the signature
  checks. `Generate` mints the pair. `GetUser` collapses every failure to
  one of two Unauthorized errors.
- **Ledger** (`invalid_token.dfy`): the `InvalidToken` collection. Its key
  is unique. Its pre-save hook derives `exp * 1000`. Pruning removes
  records whose expiry is strictly before now.
- **Users** (`users.dfy`): refresh-token rotation (`Rotate`, and the
  `RefreshTokens` method on the ledger). Single use is proved over any
  later sequence of rotations with a clock that does not go back. Also
  signup, sign-in and the profile projection.
- **Bearer middleware** (`authenticate_token.dfy`): JavaScript's
  `split(" ")`, token extraction from the `Authorization` header
  (section 2.1 of RFC 6750; the scheme is not checked), and the one `next`
  call.
- **Validation** (`validation.dfy`): the express-validator chains for task
  bodies and task ids, `trim()`, `onlyFirstError`, and the handler that
  reports the first message as a BadRequestError.
- **Task model and service** (`task_model.dfy`, `tasks_service.dfy`): the
  schema (defaults, enumerations, length bounds, owner reference, a
  `dueDate` bound fixed at load time), the save pipeline (validation, then
  the classifier on the first save only) and `toJSON`. The service is a
  class over a map from task id to task, with the not-found-then-forbidden
  guard.
- **Frontend** (`axios_errors.dfy`, `interceptor.dfy`, `auto_form.dfy`,
  `error_snackbar.dfy`, `client_tasks.dfy`, `notifications.dfy`,
  `calendar.dfy`, `crud_grid.dfy`): each component as a class over the
  state it keeps. Pure functions specify what it computes.

Time is an integer number of milliseconds (`Date.now()`). The network,
the NLP classifier, bcrypt and jsonwebtoken's parsing of a token string
are parameters of the operations that use them.

One more consequence is proved, though it is not listed as a finding.
Tokens minted in the same second for the same user are identical, so a
refresh made in the second its token was minted returns that same,
already spent, refresh token (`Users.SameSecondRotationReturnsSpentToken`).

## Model

| member | source | states |
|---|---|---|
| Errors.ClassStatus | backend/src/utils/errors.util.ts:1-51 | A class has no status code exactly when it is plain HttpError; every subclass's code is a 4xx |
| Errors.ClassOfStatus | backend/src/utils/errors.util.ts:8-51 | A class found for a code has exactly that code (400, 401, 403, 404 or 409) |
| Errors.StatusIdentifiesClass | backend/src/utils/errors.util.ts:13-49 | Each subclass is recovered from its status code |
| Errors.ClassesDistinct | backend/src/utils/errors.util.ts:8-51 | The five subclasses have pairwise distinct codes and names |
| Errors.ClassName | backend/src/utils/errors.util.ts:12-48 | Every class's `name` ends in "Error" (plain HttpError keeps Error's own) |
| Errors.StatusCode | backend/src/utils/errors.util.ts:2-13 | An HttpError's status code is its class's |
| Errors.Message | backend/src/utils/errors.util.ts:3-11 | An HttpError keeps the message it was built with |
| Errors.Code | backend/src/services/users.service.ts:24 | Only foreign errors (MongoDB's) carry a `code` |
| ErrorHandler.ResponseStatus | backend/src/middlewares/errorHandler.middleware.ts:11 | The status is the error's code when set and non-zero, else 500 |
| ErrorHandler.ResponseBody | backend/src/middlewares/errorHandler.middleware.ts:11 | The body's `error` is the message, or "" when there is none |
| ErrorHandler.HandleError | backend/src/middlewares/errorHandler.middleware.ts:10-11 | The error is logged first, and logged, `status`-ed and `json`-ed exactly once each |
| ErrorHandler.HttpErrorResponse | backend/src/middlewares/errorHandler.middleware.ts:11 | An HttpError subclass is answered with its class's code and its message |
| ErrorHandler.PlainHttpErrorIs500 | backend/src/middlewares/errorHandler.middleware.ts:11 | A plain HttpError, with no code, is answered 500 |
| ErrorHandler.StatusFromHierarchy | backend/src/middlewares/errorHandler.middleware.ts:11 | The response status of every HttpError is between 400 and 500 |
| Tokens.Sign | backend/src/utils/tokens.util.ts:8-9 | A signed token for the id, issued at the NumericDate of now, expiring `lifetime` seconds later |
| Tokens.Generate | backend/src/utils/tokens.util.ts:6-11 | Both tokens are signed, carry the same id and issue time, and expire 3600 s and 604800 s later; they differ |
| Tokens.Verifies | backend/src/utils/tokens.util.ts:21 | A token verifies when it was signed with the secret and its `exp`, when present, is still ahead of the clock in seconds |
| Tokens.GetUser | backend/src/utils/tokens.util.ts:13-35 | An absent or empty token gives "No token provided" before any check; every failed verification gives "Invalid token"; success exactly for a verifying token, returning its claims |
| Tokens.GetUserFailsUnauthorized | backend/src/utils/tokens.util.ts:15-33 | Every failure of GetUser is an UnauthorizedError (401) |
| Tokens.RoundTrip | backend/src/utils/tokens.util.ts:8-30 | A token minted at mintMs is accepted at nowMs exactly when nowMs is before its expiry, which lies within the last second before mint + lifetime; it returns the minted id |
| Tokens.DivBound | backend/src/utils/tokens.util.ts:20-30 | Seconds compare with a NumericDate the way their milliseconds do: n/1000 < k iff n < k*1000 |
| Tokens.ExpiryIsFinal | backend/src/utils/tokens.util.ts:21 | A token that no longer verifies never verifies again at a later time |
| Tokens.AcceptedIsUnexpired | backend/src/utils/tokens.util.ts:8-21 | A token that GetUser accepts has not reached the expiry fixed when it was minted |
| Tokens.KindsIndistinguishable | backend/src/utils/tokens.util.ts:8-21 | Within the access token's lifetime, GetUser accepts both tokens of a pair, each returning its claims for the same id |
| InvalidTokens.HookExpMs | backend/src/models/invalidToken.model.ts:9-17 | The hook succeeds exactly for a decodable token with a non-zero `exp`, giving `exp * 1000`, and fails with a plain Error "Invalid token" otherwise |
| InvalidTokens.Insert | backend/src/models/invalidToken.model.ts:4-17 | A save adds exactly the presented token with its exp in ms; a hook failure or an existing key (E11000) fails and leaves the ledger unchanged |
| InvalidTokens.Prune | backend/src/services/users.service.ts:68 | Pruning keeps exactly the records whose expiry is not before now |
| InvalidTokens.FreshRecordSurvivesPrune | backend/src/services/users.service.ts:65-68 | A token just recorded that still verifies at some later time survives a prune run at any time up to then |
| InvalidTokens.Ledger.FindOne | backend/src/services/users.service.ts:58 | `findOne({ refreshToken })` finds exactly the recorded tokens |
| InvalidTokens.Ledger.Save | backend/src/models/invalidToken.model.ts:4-17 | The method's success and new records are Insert's |
| InvalidTokens.Ledger.DeleteExpired | backend/src/services/users.service.ts:68 | The new records are Prune of the old ones |
| Users.Rotate | backend/src/services/users.service.ts:55-72 | An unverifiable token fails without touching the ledger; a recorded token fails with "Invalid token"; success exactly for a verifying, unrecorded token the hook accepts; then the token is recorded with its expiry, nothing else is added, and the pair is minted for its id |
| Users.RefreshTokens | backend/src/services/users.service.ts:55-72 | The method's answer and new ledger are Rotate's |
| Users.RotationRefusalsUnauthorized | backend/src/services/users.service.ts:56-62 | When the hook accepts the token, every refusal is an UnauthorizedError |
| Users.SpentStep | backend/src/services/users.service.ts:58-68 | One later rotation keeps a spent token spent: still recorded, or no longer verifying |
| Users.SpentPersists | backend/src/services/users.service.ts:58-68 | Any later sequence of rotations, with a clock that does not go back, keeps a spent token spent |
| Users.SingleUse | backend/src/services/users.service.ts:58-65 | After one successful rotation of R, every later rotation of R fails with an UnauthorizedError |
| Users.SameSecondRotationReturnsSpentToken | backend/src/services/users.service.ts:65-71 | A rotation in the second the token was minted returns that same token, and rotating it again fails |
| Users.AccessTokenRotates | backend/src/services/users.service.ts:56 | An unexpired access token is accepted by the refresh endpoint as well |
| Users.FindOne | backend/src/services/users.service.ts:39 | A user the query (`findOne({ email })` here, `findById` at line 75) matches, or none exactly when no user matches it |
| Users.SignupFailure | backend/src/services/users.service.ts:22-29 | Code 11000 becomes ConflictError "Email is already in use"; any other failure is rethrown unchanged |
| Users.Authenticate | backend/src/services/users.service.ts:32-53 | An unknown email gives NotFound "User not found"; a wrong password gives Unauthorized "Invalid email or password"; otherwise the pair for the user's id |
| Users.AuthenticateUnique | backend/src/services/users.service.ts:39-52 | With unique emails, each user signs in with a matching password and is refused otherwise |
| Users.Get | backend/src/services/users.service.ts:74-76 | The profile of the user with that id is exactly its name and email |
| Users.UserStore.Create | backend/src/services/users.service.ts:10-30 | A validation error or an existing email fails with the mapped error and adds no user; otherwise exactly the new user is appended and its pair returned |
| AuthenticateToken.Split | backend/src/middlewares/authenticateToken.middleware.ts:11 | `split(" ")` gives at least one part, and no part contains a space |
| AuthenticateToken.SplitJoin | backend/src/middlewares/authenticateToken.middleware.ts:11 | Joining the parts with single spaces gives the header back |
| AuthenticateToken.SplitNoSpace | backend/src/middlewares/authenticateToken.middleware.ts:11 | A string with no space splits into itself alone |
| AuthenticateToken.SplitFirstSpace | backend/src/middlewares/authenticateToken.middleware.ts:11 | Splitting cuts at the first space, whatever the first word is |
| AuthenticateToken.ExtractToken | backend/src/middlewares/authenticateToken.middleware.ts:10-11 | No header gives no token; an empty header is kept; otherwise the second space-separated word when there is one |
| AuthenticateToken.Presented | backend/src/middlewares/authenticateToken.middleware.ts:11-14 | The token handed to getUser is absent exactly when no word was extracted or the word is empty; any other word goes on to verification, as its decoding or, when it does not decode, as itself |
| AuthenticateToken.Authenticate | backend/src/middlewares/authenticateToken.middleware.ts:10-19 | No header fails with "No token provided"; every failure is "No token provided" or "Invalid token"; success needs a header with a space in it |
| AuthenticateToken.WordReachesVerification | backend/src/utils/tokens.util.ts:14-33 | A header with a non-empty second word is never answered "No token provided" |
| AuthenticateToken.HeaderWithoutSpace | backend/src/middlewares/authenticateToken.middleware.ts:11 | A header with no space fails like a missing one, with "No token provided" |
| AuthenticateToken.SchemeNotChecked | backend/src/middlewares/authenticateToken.middleware.ts:11 | Any first word is accepted in place of "Bearer" |
| AuthenticateToken.AuthenticateTokenMiddleware | backend/src/middlewares/authenticateToken.middleware.ts:9-19 | `next` is called once: with no argument and `req.user` set on success, or with the error and `req.user` untouched |
| Validation.OnlyFirstError | backend/src/middlewares/validationErrorHandler.middleware.ts:14 | The kept errors are among the given ones, no more of them, and no two are about the same field |
| Validation.OnlyFirstErrorSnoc | backend/src/middlewares/validationErrorHandler.middleware.ts:14 | Read left to right, the errors keep their order and an error is kept exactly when no earlier error is about its field |
| Validation.OnlyFirstErrorCoversFields | backend/src/middlewares/validationErrorHandler.middleware.ts:14 | Every field with an error keeps one |
| Validation.OnlyFirstErrorKeepsFirst | backend/src/middlewares/validationErrorHandler.middleware.ts:14 | The very first error stays first |
| Validation.ValidationErrorHandler | backend/src/middlewares/validationErrorHandler.middleware.ts:10-20 | `next` is called once: with the error raised while collecting, with nothing when there is no error, or with BadRequestError carrying the first error's message |
| Validation.Trim | backend/src/middlewares/validations/task.validation.middleware.ts:5-11 | `trim()` is empty exactly for input made only of JavaScript whitespace (`\s`), and otherwise starts and ends with a character outside it |
| Validation.TrimStart | backend/src/middlewares/validations/task.validation.middleware.ts:5-11 | The result is the suffix left after removing exactly the leading JavaScript whitespace |
| Validation.TrimEnd | backend/src/middlewares/validations/task.validation.middleware.ts:5-11 | The result is the prefix left after removing exactly the trailing JavaScript whitespace |
| Validation.TrimIdempotent | backend/src/middlewares/validations/task.validation.middleware.ts:5-11 | Trimming twice is trimming once |
| Validation.Length | backend/src/middlewares/validations/task.validation.middleware.ts:8 | The length `isLength` measures: never more than the number of code points, and equal to it when the text holds no U+FE0E or U+FE0F |
| Validation.TrimmedTextRules | backend/src/middlewares/validations/task.validation.middleware.ts:4-15 | After trimming, the field passes exactly when non-empty and at least `min` long as `isLength` counts (presentation selectors not counted); the first message is "required" for empty, otherwise "too short" |
| Validation.SelectorIsNotCounted | backend/src/middlewares/validations/task.validation.middleware.ts:4-9 | A category "ab" followed by U+FE0F is reported as too short, U+FE0F not counting |
| Validation.IdeographicSpaceIsMissing | backend/src/middlewares/validations/task.validation.middleware.ts:4-9 | A category of one U+3000 space is reported as missing |
| Validation.DueDateRules | backend/src/middlewares/validations/task.validation.middleware.ts:16-20 | "Invalid date format" exactly when not ISO 8601; "Date must be in the future" exactly when the date is not strictly after now |
| Validation.OptionalInRule | backend/src/middlewares/validations/task.validation.middleware.ts:21-28 | An optional field passes when absent or one of the allowed values, and otherwise fails with its one message |
| Validation.OptionalBooleanRule | backend/src/middlewares/validations/task.validation.middleware.ts:29-32 | `userReminded` passes when absent or boolean in validator.js's strict sense |
| Validation.NullIsChecked | backend/src/middlewares/validations/task.validation.middleware.ts:21-32 | `optional()` skips only an absent field, so a `null` status or userReminded fails |
| Validation.TaskIdValidation | backend/src/middlewares/validations/task.validation.middleware.ts:35-41 | The id passes exactly when it is a Mongo id (hexadecimal with an optional 0x/0h prefix, 24 characters); the first message is "Task ID is required" for "" and "Invalid Task ID format" otherwise |
| Validation.IsMongoId | backend/src/middlewares/validations/task.validation.middleware.ts:39-40 | An id passes when it is hexadecimal, with an optional 0x or 0h prefix in either case, and 24 characters long, the prefix included |
| Validation.PrefixedIdPasses | backend/src/middlewares/validations/task.validation.middleware.ts:39-40 | "0x" or "0H" and 22 hex digits pass the id rules; 22 bare digits do not |
| Validation.FirstMessage | backend/src/middlewares/validationErrorHandler.middleware.ts:14 | There is a first message exactly when there is an error |
| Validation.FirstMessageConcat | backend/src/middlewares/validationErrorHandler.middleware.ts:14 | The first message of two chains is the first chain's when it failed |
| Validation.TaskValidation | backend/src/middlewares/validations/task.validation.middleware.ts:3-33 | Every error names one of the six body fields, and the errors come grouped in chain order: category, description, dueDate, status, urgency, userReminded |
| Validation.LaterRules | backend/src/middlewares/validations/task.validation.middleware.ts:16-33 | The errors of the last four chains name dueDate, status, urgency or userReminded, in that order |
| Validation.TaskValidationPasses | backend/src/middlewares/validations/task.validation.middleware.ts:3-33 | A body passes exactly when every field is acceptable, the text lengths as `isLength` counts them |
| Validation.FirstFailingField | backend/src/middlewares/validations/task.validation.middleware.ts:3-33 | The reported message is the first failing text field's (category, then description; "required" before "too short"), and otherwise that of the later chains |
| Validation.LaterFirstMessage | backend/src/middlewares/validations/task.validation.middleware.ts:16-32 | After the text fields, the reported message is the first failing one in the order dueDate format, dueDate in the future, status, urgency, userReminded |
| Validation.IdErrorsComeFirst | backend/src/middlewares/validations/task.validation.middleware.ts:35-41 | With the id checked before the body, a bad id is what is reported |
| TaskModel.ParseStatus | backend/src/models/task.model.ts:20-24 | The status enumeration accepts exactly its three names |
| TaskModel.ParseUrgency | backend/src/models/task.model.ts:25 | The urgency enumeration accepts exactly its two names |
| TaskModel.EnumsRoundTrip | backend/src/models/task.model.ts:20-25 | Every member's name passes its enumeration check and reads back as that member |
| TaskModel.NewDraft | backend/src/models/task.model.ts:20-26 | A new document, corrected: owned by the caller, with defaults pending, normal and false for the fields the body omits |
| TaskModel.NewDraftAsWritten | backend/src/services/tasks.service.ts:26 | As written, a `userId` in the body replaces the caller as the owner |
| TaskModel.Assign | backend/src/services/tasks.service.ts:46 | An update, corrected: each supplied field overwrites, every other field and the owner are kept |
| TaskModel.AssignAsWritten | backend/src/services/tasks.service.ts:46 | As written, a `userId` in the body is copied too |
| TaskModel.AssignNothing | backend/src/services/tasks.service.ts:46 | An empty body changes nothing |
| TaskModel.Utf16Length | backend/src/models/task.model.ts:17-18 | The length mongoose compares: at least the number of code points and at most twice it |
| TaskModel.Valid | backend/src/models/task.model.ts:7-25 | The schema validators: an existing owner, a category of at least 3 and a description of at least 10 UTF-16 units, a due date not before the load-time bound, status and urgency within their enumerations |
| TaskModel.AstralCategoryIsLongEnough | backend/src/models/task.model.ts:17 | A category of one emoji outside the basic plane and one letter is long enough, the emoji counting as two units |
| TaskModel.Save | backend/src/models/task.model.ts:5-55 | A save succeeds exactly for a valid document (existing owner, UTF-16 lengths 3 and 10, due date not before the load-time bound, enumerations) and fails with a ValidationError otherwise; it stores the fields as given, and the urgency comes from the classifier only on a first save it answers |
| TaskModel.ResaveKeepsUrgency | backend/src/models/task.model.ts:47-51 | Saving a stored task again changes nothing, urgency included |
| TaskModel.PastDueDateAccepted | backend/src/models/task.model.ts:19 | A due date already past is accepted when it is not before the load-time bound |
| TaskModel.NewTaskDefaults | backend/src/models/task.model.ts:20-26 | A task saved with only the required fields is pending and not reminded, and normal unless classified |
| TaskModel.ToJson | backend/src/models/task.model.ts:37-45 | The JSON of a task, with its owner added back, is that task: nothing but the owner is dropped |
| TaskModel.FromJson | backend/src/models/task.model.ts:37-45 | Rebuilding a task keeps the JSON's `id` and takes the given owner |
| TaskModel.JsonRoundTrip | backend/src/models/task.model.ts:37-45 | `toJSON` keeps `id` and every other field and drops exactly the owner: adding the owner back restores the task |
| TasksService.Get | backend/src/services/tasks.service.ts:4-16 | NotFound "Task not found" for a missing id, checked first; Forbidden for another user's task; otherwise the task |
| TasksService.GetAll | backend/src/services/tasks.service.ts:18-20 | Exactly the tasks whose owner is the user |
| TasksService.TaskStore.Create | backend/src/services/tasks.service.ts:22-31 | Corrected create (the task is built with NewDraft, not the as-written spread of line 26): on success exactly one task is added, owned by the caller, and the caller's tasks are returned; on failure nothing changes |
| TasksService.TaskStore.Update | backend/src/services/tasks.service.ts:33-51 | Corrected update (the body is applied with Assign, not the as-written `Object.assign` of line 46, which also copies `userId`): after the guard, the one task is replaced by its validated update; the guard's or validation's failure leaves the store unchanged |
| TasksService.TaskStore.Remove | backend/src/services/tasks.service.ts:53-59 | After the guard exactly that task is deleted and the caller's other tasks are returned; a missing or foreign task leaves the store unchanged |
| TasksService.UpdateTouchesOneTask | backend/src/services/tasks.service.ts:43-48 | The updated task keeps its id and owner and takes exactly the supplied fields |
| TasksService.CreateAsWrittenHandsTaskToOtherUser | backend/src/services/tasks.service.ts:26-30 | As written, a body naming another user, with any valid category and description, creates a task owned by that user, missing from the caller's list |
| TasksService.CreateOwnedByCaller | backend/src/services/tasks.service.ts:26 | Corrected, every created task belongs to the caller |
| TasksService.UpdateAsWrittenReassignsOwner | backend/src/services/tasks.service.ts:43-50 | As written, an update whose body names another user, its other fields valid, hands the task to that user: gone from the owner's list and open to the other user |
| TasksService.UpdateKeepsOwner | backend/src/services/tasks.service.ts:46 | Corrected, an update never changes the owner |
| AxiosErrors.ServerMessage | frontend/src/components/ErrorSnackbar.tsx:37 | The server's `error` field, exactly when there is a response carrying one |
| Interceptor.ShouldRefresh | frontend/src/App.tsx:20-25 | The refresh test: the server's message is "No token provided" or "Invalid token", and the request has not been retried |
| Interceptor.Intercept | frontend/src/App.tsx:16-50 | Corrected refresh (the answer to the refresh post is handled directly; as written it re-enters the interceptor, see RefreshChainAsWritten): a refresh is posted exactly for "No token provided" or "Invalid token" on a request not yet retried. A new pair rewrites both cookies for one day, sets both headers and replays. A refused refresh expires both cookies, goes to "/sign-in" and rejects. Anything else is rejected unchanged, with no state change |
| Interceptor.ReplayIsNotRefreshedAgain | frontend/src/App.tsx:24-39 | When the replayed request fails again it is rejected without a second refresh |
| Interceptor.Client.OnResponseError | frontend/src/App.tsx:18-49 | Corrected refresh, as in Intercept: the new cookies, headers, location, `_retry` flag and outcome are Intercept's; the refresh post sent, if any, is recorded |
| Interceptor.Client.constructor | frontend/src/App.tsx:13-15 | The default header is built from the access cookie at load |
| Interceptor.RefreshChainAsWritten | frontend/src/App.tsx:29 | As written, each refused refresh re-enters the interceptor; the count of posts once it settles |
| Interceptor.RefusedRefreshNeverSettlesAsWritten | frontend/src/App.tsx:20-45 | As written, a refresh refused with a token message never settles within any number of posts |
| Interceptor.RefusedRefreshSignsOut | frontend/src/App.tsx:40-45 | Corrected, a refused refresh makes one post, expires both cookies and goes to "/sign-in" |
| AutoForm.Entry | frontend/src/components/AutoForm.tsx:45-53 | A field's entry is non-empty exactly when it fails, and then it is its errorMessage |
| AutoForm.ErrorsAfter | frontend/src/components/AutoForm.tsx:44-54 | After the loop every field has an entry, and every name that had an entry still has one |
| AutoForm.ErrorsAfterEntries | frontend/src/components/AutoForm.tsx:44-54 | The entry of the last field of each name is that field's own |
| AutoForm.ErrorsAfterKeepsOthers | frontend/src/components/AutoForm.tsx:49-52 | Entries for names not in the form are unchanged |
| AutoForm.FieldWithoutMessageNeverBlocks | frontend/src/components/AutoForm.tsx:45-48 | A field without an errorMessage never blocks the submit, whatever its input (the task form's dueDate field) |
| AutoForm.Form.HandleSubmit | frontend/src/components/AutoForm.tsx:39-63 | The errors are ErrorsAfter; `onSubmit` is called once with the inputs exactly when no field fails; its rejection is stored in `serverError` |
| AutoForm.Form.HandleChange | frontend/src/components/AutoForm.tsx:65-69 | Only the named input changes |
| ErrorSnackbar.Message | frontend/src/components/ErrorSnackbar.tsx:37-38 | The server's message when present (an empty one included), else "Something went wrong" |
| ErrorSnackbar.Snackbar.constructor | frontend/src/components/ErrorSnackbar.tsx:9 | Open exactly when mounted with an error |
| ErrorSnackbar.Snackbar.HandleClose | frontend/src/components/ErrorSnackbar.tsx:11-18 | A click-away leaves `open` unchanged; any other close clears it |
| ErrorSnackbar.Snackbar.ErrorChanged | frontend/src/components/ErrorSnackbar.tsx:24 | A changed `error` sets `open` to whether there is one; the snackbar is never open without an error |
| Notifications.Due | frontend/src/pages/dashboard/components/NotificationsButton.tsx:22-33 | The kept tasks are exactly the urgent, pending tasks due strictly between one day before and three days after now |
| Notifications.Insert | frontend/src/pages/dashboard/components/NotificationsButton.tsx:34 | Inserting into a list sorted latest-first keeps it sorted and adds exactly that task |
| Notifications.SortByDueDesc | frontend/src/pages/dashboard/components/NotificationsButton.tsx:34 | The sort is a permutation, latest due date first |
| Notifications.NotificationList | frontend/src/pages/dashboard/components/NotificationsButton.tsx:22-34 | The notifications are exactly the notification tasks, latest due date first |
| Notifications.Unread | frontend/src/pages/dashboard/components/NotificationsButton.tsx:36-38 | The unread ones are exactly the notifications not yet reminded |
| Notifications.BadgeCount | frontend/src/pages/dashboard/components/NotificationsButton.tsx:61 | The badge shows the number of unread notifications, and is zero exactly when every notification task is reminded |
| Notifications.BadgeCountsUnreadTasks | frontend/src/pages/dashboard/components/NotificationsButton.tsx:61 | With distinct ids, the badge equals the number of distinct tasks of the list that are notifications and not reminded |
| Notifications.SortKeepsUnreadCount | frontend/src/pages/dashboard/components/NotificationsButton.tsx:34 | Sorting by due date keeps the number of unread tasks |
| Notifications.Marked | frontend/src/pages/dashboard/components/NotificationsButton.tsx:45-46 | Marking sets `userReminded` on exactly the tasks with the given ids |
| Notifications.ClosingClickClearsBadge | frontend/src/pages/dashboard/components/NotificationsButton.tsx:43-61 | After a closing click the badge shows nothing |
| Notifications.ClosingClickTouchesOnlyUnread | frontend/src/pages/dashboard/components/NotificationsButton.tsx:43-53 | With distinct ids, a closing click changes exactly the unread notifications, only in `userReminded` |
| Notifications.NotificationsButton.HandleClick | frontend/src/pages/dashboard/components/NotificationsButton.tsx:42-57 | A click while closed opens and changes no task; while open it closes, marks the unread notifications and sends each one reminded, in order |
| Calendar.FormatAsWritten | frontend/src/pages/dashboard/components/Calendar.tsx:31 | As written, the date string is sixteen characters long and its hour field reads 01 to 12, a 12-hour clock |
| Calendar.FormatAsWrittenConfusesHalfDays | frontend/src/pages/dashboard/components/Calendar.tsx:31 | As written, every due date gets the same date string as the time twelve hours away |
| Calendar.Format | frontend/src/pages/dashboard/components/Calendar.tsx:31 | The corrected 24-hour format is sixteen characters long |
| Calendar.FormatRoundTrip | frontend/src/pages/dashboard/components/Calendar.tsx:31 | Every field of the due date is read back from the corrected format |
| Calendar.FormatInjective | frontend/src/pages/dashboard/components/Calendar.tsx:31 | Distinct due dates get distinct corrected date strings |
| Calendar.EventOf | frontend/src/pages/dashboard/components/Calendar.tsx:27-33 | The event's title is the description; its colour is red for urgent and blue otherwise; its date is the corrected 24-hour Format, not the as-written `hh` format of line 31 |
| Calendar.Pending | frontend/src/pages/dashboard/components/Calendar.tsx:25-26 | The filter keeps no more tasks than it is given, and none of them is completed |
| Calendar.PendingMembers | frontend/src/pages/dashboard/components/Calendar.tsx:26 | A task is kept exactly when it is in the list and not completed |
| Calendar.PendingConcat | frontend/src/pages/dashboard/components/Calendar.tsx:26 | The filter works task by task, keeping the input order |
| Calendar.Events | frontend/src/pages/dashboard/components/Calendar.tsx:25-33 | There is exactly one event per pending task, and the i-th event is the event of the i-th pending task (dated with the corrected format, as in EventOf) |
| Calendar.EventsConcat | frontend/src/pages/dashboard/components/Calendar.tsx:25-27 | Events are produced task by task, in input order |
| Calendar.EventsOfOneTask | frontend/src/pages/dashboard/components/Calendar.tsx:26-33 | A completed task yields no event; any other yields exactly its event |
| CrudGrid.GetActions | frontend/src/pages/dashboard/components/FullFeaturedCrudGrid.tsx:155-212 | A row in edit mode shows Save and Cancel; any other row shows Edit and Delete |
| CrudGrid.EditStopPrevented | frontend/src/pages/dashboard/components/FullFeaturedCrudGrid.tsx:46-53 | An edit stop is prevented exactly when it is a row focus-out |
| CrudGrid.StatusColor | frontend/src/pages/dashboard/components/FullFeaturedCrudGrid.tsx:89-93 | The status chip is green (success) exactly for a completed task, and never red (error) |
| CrudGrid.UrgencyColor | frontend/src/pages/dashboard/components/FullFeaturedCrudGrid.tsx:95-98 | The urgency chip is red (error) exactly for an urgent task, and green (success) otherwise |
| CrudGrid.ChipColorsDistinguish | frontend/src/pages/dashboard/components/FullFeaturedCrudGrid.tsx:89-98 | The status colours (warning, primary, success) and the urgency colours (success, error) tell their values apart |
| CrudGrid.RowsOf | frontend/src/pages/dashboard/components/FullFeaturedCrudGrid.tsx:42 | The rows are the tasks, in order, none of them new |
| CrudGrid.RowIndex | frontend/src/pages/dashboard/components/FullFeaturedCrudGrid.tsx:72 | `rows.find`: the first row with the id, or none |
| CrudGrid.WithoutRowMembers | frontend/src/pages/dashboard/components/FullFeaturedCrudGrid.tsx:74 | The filter keeps exactly the rows with another id |
| CrudGrid.WithoutRowConcat | frontend/src/pages/dashboard/components/FullFeaturedCrudGrid.tsx:74 | The filter works row by row, keeping the order |
| CrudGrid.CancelRemovesOneRow | frontend/src/pages/dashboard/components/FullFeaturedCrudGrid.tsx:72-75 | Cancelling a new row with its own id leaves exactly the rows before it, then the rows after it |
| CrudGrid.WithoutAbsent | frontend/src/pages/dashboard/components/FullFeaturedCrudGrid.tsx:74 | Filtering out an id no row has changes nothing |
| CrudGrid.ActionsFollowModes | frontend/src/pages/dashboard/components/FullFeaturedCrudGrid.tsx:55-59 | After Edit a row offers Save and Cancel, after Save or Cancel it offers Edit and Delete, and other rows' actions are unchanged |
| CrudGrid.Grid.EditClick | frontend/src/pages/dashboard/components/FullFeaturedCrudGrid.tsx:55-56 | That row goes into edit mode; every other entry is unchanged |
| CrudGrid.Grid.SaveClick | frontend/src/pages/dashboard/components/FullFeaturedCrudGrid.tsx:58-59 | That row goes back to view mode; every other entry is unchanged |
| CrudGrid.Grid.CancelClick | frontend/src/pages/dashboard/components/FullFeaturedCrudGrid.tsx:66-76 | That row goes to view mode discarding modifications. `rows` loses that id exactly when the row is new. A missing row throws after the mode update |
| CrudGrid.Grid.RowModesModelChange | frontend/src/pages/dashboard/components/FullFeaturedCrudGrid.tsx:84-85 | The grid's model replaces the row modes |
| CrudGrid.Grid.TasksChanged | frontend/src/pages/dashboard/components/FullFeaturedCrudGrid.tsx:217 | `rows` is replaced by the new tasks |

## Left out

- JWT signing, verification and encoding: a token is an abstract record, and verification is a predicate on its signature flag and expiry. The middleware's decoding of a token string is a parameter.
- bcrypt, and the regex and trim/lowercase rules of the user schema: password checks and user validation are parameters. Email normalisation is not modelled.
- The NLP service (nlp-api/, backend/src/services/nlp.service.ts) is a classifier parameter. It answers an urgency or nothing. An answer outside the enumeration, which the hook would store unvalidated, is not modelled.
- Fresh ObjectIds for new users and tasks are required as parameters. A malformed id passed to `findById` (a CastError, answered with status 500) is not modelled; this includes the 0x/0h-prefixed ids that pass `isMongoId`.
- Request bodies hold strings, booleans and `null`. JSON numbers, arrays and objects, and express-validator's string conversion of them, are not modelled.
- TaskModel.Save: a failed validation is one fixed ValidationError. Mongoose's message, "Task validation failed: " followed by `path: message` for each failing path, is not modelled; its entries quote the offending values, and their order depends on when the asynchronous `userId` check finishes.
- Users.Rotate: one clock reading `nowMs` stands for the three separate reads of `refreshTokens`: the expiry check of `jwt.verify`, the `Date.now()` of the prune and the issue time of the new pair. Rotate's results, and SameSecondRotationReturnsSpentToken, rely on the three falling in the same second.
- Concurrency: two simultaneous rotations of one token, and MongoDB's unique index deciding between them. Only sequential uniqueness is modelled.
- The un-awaited `deleteMany` in `refreshTokens`: modelled as a prune that may or may not have run (`pruneRuns`).
- React rendering and batching: each handler runs on the state of the last render. Two clicks between renders are not modelled.
- The network round-trips of the frontend are not modelled: the PUT and DELETE requests of the grid and the notification button, and `setTasks(response.data)`. The notification button keeps its locally changed list and records the request bodies. Grid deletion and `processRowUpdate` are left out.
- Notifications.SortByDueDesc: stability (equal due dates keeping their order) is not stated; only sortedness and permutation are.
- Dates on the frontend are integer milliseconds. The one-day and three-day offsets are fixed 86400000 ms steps, so days across a daylight-saving change are not modelled. Conversion to local time is a parameter of the calendar.
- The grid's `valueFormatter` ("DD/MM/YYYY hh:mm A") is display only and is not modelled.
- frontend/src/utils/cookies is not part of this model: `setCookie(name, value, days)` is a map update, and a negative lifetime expires the cookie.
- `console.error` and `window.location` side effects beyond the recorded location are not modelled.

## Findings

| source | as written | input that shows it | evidently intended | confidence | as-written member | corrected member |
|---|---|---|---|---|---|---|
| backend/src/services/tasks.service.ts:26 | `new Task({ userId, ...taskData })` lets a `userId` in the body replace the caller | POST /tasks with body `{ userId: <another user's id>, category, description, dueDate }` | The task belongs to the caller | high (not executed) | TasksService.CreateAsWrittenHandsTaskToOtherUser | TasksService.CreateOwnedByCaller |
| backend/src/services/tasks.service.ts:46 | `Object.assign(task, taskData)` copies a `userId` from the body | PUT /tasks/:id by the owner with body `{ userId: <another user's id>, category: "work", description: "prepare the report", dueDate: <an ISO date in the future> }`, which passes the body rules | Only the task's own fields change; the owner stays | high (not executed) | TasksService.UpdateAsWrittenReassignsOwner | TasksService.UpdateKeepsOwner |
| frontend/src/App.tsx:29 | The refresh post goes through the same interceptor on a fresh config; a refresh refused with "Invalid token" or "No token provided" refreshes again with the same cookie, without bound | A request answered "Invalid token" while the refresh cookie holds a spent or expired token | One refresh post; on refusal, clear both cookies and go to "/sign-in" | medium (not executed) | Interceptor.RefusedRefreshNeverSettlesAsWritten | Interceptor.RefusedRefreshSignsOut |
| frontend/src/pages/dashboard/components/Calendar.tsx:31 | `format("YYYY-MM-DD hh:mm")` prints a 12-hour hour without a meridiem | A task due at 14:30 local time gets the date string of 02:30 | "YYYY-MM-DD HH:mm", the 24-hour hour | high (not executed) | Calendar.FormatAsWrittenConfusesHalfDays | Calendar.FormatRoundTrip |
