# Telegram login, request gate and account store of a task-reward backend

This project models, in Dafny, the sequential core of a small backend for a
Telegram "mining"/task-reward application. It then proves the properties that
code promises.

- **Request gate** (`AuthHandler`, in `auth_handler.dfy`). This is the
  middleware in front of the authenticated routes.
  - It classifies the `Authorization` header as missing, bad scheme, empty
    token, invalid token, claims that throw, or accepted.
  - The header rule follows the code, not section 2.1 of RFC 6750. The prefix
    must be exactly `"Bearer "` (case-sensitive). The token is
    `header.split(" ")[1]`.
  - The access-token verifier is a function-valued parameter that returns an
    `Option<Payload>`.
  - `Gate` is the pure decision, a function of the header and the verifier.
    The method `Handle` takes the same branches on a live `Request` object. It
    sets `req.user` and `req.session`, records the 401 reply, and reports how
    many times `next()` was called.
- **Telegram login check** (`AuthService`, first half). It builds the
  data-check string:
  - drop `hash`;
  - sort the remaining keys;
  - write each as `key=value`;
  - join the lines with `"\n"`.

  It then compares the hex HMAC of that string with `hash`. SHA-256, the HMAC
  and the development-mode flag are parameters.
- **Account store** (`AuthService`, second half). The functions `FindOrCreate`,
  `CheckUserExists`, `CompletedTasks` and `ClaimMining` specify the operations
  on a value `Db` that holds the user, wallet and task collections. The class
  `Store` holds those collections as maps. Its methods `FindOrCreateUser` and
  `ClaimMiningPoints` update the maps one save at a time, in the source's
  order, and their postconditions tie the new state to those
  functions.
  - `FindByTelegramId` models `findOne({telegramId})`. It returns the first
    match in id order. The store's invariant `Valid` keeps Telegram ids
    unique.
- **Task controller** (`TaskController`, in `task_controller.dfy`). It models
  the `createTask` guard and the `imageUrl ?? ""` default, the response for
  each outcome, and the arguments `completeTask` forwards to the task service.
  The task service is a parameter.
- `Text` holds the JavaScript string operations the core uses: `startsWith`,
  `split`, `join`, the default string order of `sort`, and decimal rendering.
  `Wrappers` holds `Option` and `Result`.

Where a JavaScript value can be `undefined` or `null`, the model uses
`Option`. A thrown error becomes a `Failure` or a dedicated outcome. Balances
and points are exact `real`s, so `points * 0.1` is exactly a tenth.

Behaviour of the code worth knowing, which the model keeps:

- The token is the piece of the header between the first and the second
  space. A header whose text after `"Bearer "` starts with a space gives an
  empty token (`"Bearer  x"`), and only `"a"` of `"Bearer a b"` reaches the
  verifier.
- `auth_date` is signed like any other field. Its freshness is never checked,
  although Telegram's login-widget documentation suggests it as a guard against outdated data.
- A field value that holds a newline can imitate further fields in the
  data-check string (`NewlineImitatesField`). Changing the value of a field
  that is already there always changes the string.

## Model

| member | source | states |
|---|---|---|
| AuthHandler.Token | src/middleware/auth-handler.ts:20 | `split(" ")[1]` exists exactly when the header holds a space; it is then the text from just after the first space up to the next space or the end, and holds no space |
| AuthHandler.TokenPassed | src/middleware/auth-handler.ts:10-25 | Nothing is passed for a missing header or one without the prefix; with the prefix, a token is passed exactly when a character other than a space follows `"Bearer "`; a passed token is non-empty and space-free, follows `"Bearer "` directly, and is followed by a space or the end of the header |
| AuthHandler.PlainBearerToken | src/middleware/auth-handler.ts:20-31 | For `"Bearer " + x` with a non-empty, space-free `x`, the verifier receives exactly `x` |
| AuthHandler.EmptyTokenExactly | src/middleware/auth-handler.ts:20-25 | With the prefix in place, the outcome is "Invalid token format" exactly when nothing or a space follows `"Bearer "` |
| AuthHandler.Decide | src/middleware/auth-handler.ts:31-44 | No answer from the verifier is an invalid token; claims without `user` throw; otherwise the request is accepted with the session `{telegramId, user._id}` of the claims |
| AuthHandler.Gate | src/middleware/auth-handler.ts:6-46 | The gate's decision, a total function of the header and the verifier, with one outcome per exit of the middleware |
| AuthHandler.ReplyOf | src/middleware/auth-handler.ts:10-44 | The gate sends no reply exactly when it accepts, i.e. when it calls `next()`; every other exit replies with status 401 |
| AuthHandler.EarlyRejectExamples | src/middleware/auth-handler.ts:10-18 | A missing or empty header gives "Access token is missing"; `"Token abc"` and the lower-case `"bearer abc"` give the format message |
| AuthHandler.TokenBetweenSpaces | src/middleware/auth-handler.ts:14-20 | After the exact prefix `"Bearer "`, the token is the text up to the next space or the end; it holds no space, and the header starts with the prefix followed by it |
| AuthHandler.EmptyTokenExamples | src/middleware/auth-handler.ts:20-25 | `"Bearer "` and `"Bearer  x"` give an empty token and "Invalid token format" |
| AuthHandler.SecondPieceOnly | src/middleware/auth-handler.ts:20-31 | For `"Bearer " + x + " " + y` with a non-empty, space-free `x`, the verifier receives exactly `x`, whatever `y` is |
| AuthHandler.VerifierSeesOnlyToken | src/middleware/auth-handler.ts:10-32 | The three header rejections do not depend on the verifier; otherwise the outcome depends only on the verifier's answer for the passed token |
| AuthHandler.AcceptedExactly | src/middleware/auth-handler.ts:31-41 | Acceptance holds iff a token is passed, the verifier returns claims for it, and the claims carry `user`; the session is then `{telegramId, user._id}` of those claims |
| AuthHandler.Handle | src/middleware/auth-handler.ts:6-46 | On the live request: `next()` called once on acceptance and never otherwise; the 401 reply otherwise; `req.user` set on acceptance and when reading `user._id` throws; `req.session` set only on acceptance |
| AuthService.VerifyTelegramLogin | src/modules/auth/auth-service.ts:20-37 | True in development mode; false without `hash`; a passing HMAC equals `hash` and signs the payload with `hash` taken out |
| AuthService.ProductionDecision | src/modules/auth/auth-service.ts:32-36 | Outside development, the result is true iff `hash` is present and equals hex(HMAC(SHA256(botToken), data-check string)) exactly |
| AuthService.DataCheckKeys | src/modules/auth/auth-service.ts:26-28 | The keys used are exactly the payload's keys other than `hash`, strictly ascending |
| AuthService.DataCheckLines | src/modules/auth/auth-service.ts:26-29 | One line per non-`hash` key; the i-th line reads back as the i-th ascending key, `=`, and that field's value |
| AuthService.DataCheckString | src/modules/auth/auth-service.ts:26-30 | Empty without signed fields; otherwise it starts with the first line and ends with the last, with no newline before or after |
| AuthService.KeyOrderIsCanonical | src/modules/auth/auth-service.ts:26-28 | Any ascending listing of the signed keys is the listing used, so the order the fields arrived in does not matter |
| AuthService.DataCheckStringLines | src/modules/auth/auth-service.ts:26-30 | With newline-free fields and at least one signed field, splitting the string at newlines gives back exactly the lines, so there are no extra newlines |
| AuthService.NewlineImitatesField | src/modules/auth/auth-service.ts:29-30 | For signed keys `a` before `b`, the payload `{a: x + "\n" + (b + "=" + y)}` and the different payload `{a: x, b: y}` give the same data-check string (for instance `{a: "1\nb=2"}` and `{a: "1", b: "2"}`), so newline-free fields are needed for the lines to split back |
| AuthService.HashNotSigned | src/modules/auth/auth-service.ts:26-27 | Replacing or removing `hash` leaves the data-check string unchanged |
| AuthService.OtherLineUnchanged | src/modules/auth/auth-service.ts:26-29 | Changing one signed field keeps the key order and the line of every other signed field |
| AuthService.ValueChangeChangesCheckString | src/modules/auth/auth-service.ts:26-30 | Changing the value of one signed field changes the data-check string, for every payload and every new value |
| AuthService.TamperedPayloadRejected | src/modules/auth/auth-service.ts:26-36 | With a collision-free HMAC, any payload whose signed field gets a different value fails verification under the original hash |
| AuthService.FindByTelegramId | src/modules/auth/auth-service.ts:46 | A found user is stored with that Telegram id and no stored user with a lower id has it; None means no stored user below the counter has it |
| AuthService.FindFrom | src/modules/auth/auth-service.ts:46 | The lookup by Telegram id returns a user with that id and never skips one; None means no user in the scanned id range has that Telegram id |
| AuthService.FindByTelegramIdExact | src/modules/auth/auth-service.ts:46 | In a valid store the lookup returns `u` iff `u` is the user with that Telegram id, and None iff there is no such user |
| AuthService.EmptyDb | src/modules/auth/auth-service.ts:46 | The empty store satisfies the invariant (ids below the counter, wallets owned by users, unique Telegram ids) |
| AuthService.FindOrCreate | src/modules/auth/auth-service.ts:39-81 | The returned user has the Telegram id and `firstTime` set; nothing is deleted and tasks are untouched; a known id returns the user found and creates no wallet |
| AuthService.FindOrCreateNewUser | src/modules/auth/auth-service.ts:48-62 | On an unknown Telegram id, exactly one user is added under a fresh id; no other user and no task changes |
| AuthService.NewUserFields | src/modules/auth/auth-service.ts:50-60 | The created user has all three balances 0, empty task, deposit and withdrawal lists, `firstTime` set, and the given name, or `"user_" + id` when the name is missing or empty |
| AuthService.FindOrCreateNewWallet | src/modules/auth/auth-service.ts:64-73 | On an unknown Telegram id, exactly one wallet is added, with the generated address, `encrypt(privateKey, password)` and the new user's id; the new user owns exactly one wallet |
| AuthService.FindOrCreateExisting | src/modules/auth/auth-service.ts:46-80 | On a known Telegram id, that user is returned and the only change to the store is its `firstTime := true` |
| AuthService.FindOrCreateKeepsValid | src/modules/auth/auth-service.ts:39-81 | The invariant is preserved (at most one user per Telegram id), and the returned user has that Telegram id and `firstTime = true` |
| AuthService.FindOrCreateIdempotent | src/modules/auth/auth-service.ts:39-81 | A second call with the same Telegram id returns the same user and leaves the store as the first call left it, so no second wallet is created |
| AuthService.Store.FindOrCreateUser | src/modules/auth/auth-service.ts:39-81 | The in-place steps (look up; create and save the user; create and save the wallet; re-arm the flag) end in exactly the state `FindOrCreate` specifies, and keep the invariant |
| AuthService.LoginTwice | src/modules/auth/auth-service.ts:39-81 | Two logins in a row on a live store return the same user id, and the store ends as after the first |
| AuthService.CheckUserExists | src/modules/auth/auth-service.ts:83-86 | True only for a stored user with that Telegram id and the flag set; false when no stored user has the id |
| AuthService.CheckUserExistsExactly | src/modules/auth/auth-service.ts:83-86 | True iff a user with that Telegram id exists and its `firstTime` is true |
| AuthService.CompletedTasks | src/modules/auth/auth-service.ts:88-98 | Empty for a missing user; otherwise exactly the stored tasks whose id is in the user's `completedTask` list, keyed by id |
| AuthService.ClaimMining | src/modules/auth/auth-service.ts:100-122 | Fails with "User not found" exactly for an unknown user; otherwise no document is added or removed, wallets and tasks are untouched, and the receipt is the success message with the old balance plus `points` |
| AuthService.ClaimBookkeeping | src/modules/auth/auth-service.ts:100-121 | The claimer gains exactly `points` (no sign check) and `lastMiningClaim = now`; a resolvable upline other than the claimer gains `points * 0.1`; no other user, wallet or task changes; the receipt carries the claimer's balance after the add |
| AuthService.ClaimSelfUpline | src/modules/auth/auth-service.ts:106-120 | Writes happen in the source's order, with the upline re-read after the claimer's save: a self-referencing user is stored with `points * 1.1` more, while the receipt reports only `points` more |
| AuthService.ClaimKeepsValid | src/modules/auth/auth-service.ts:100-122 | A claim preserves the store's invariant |
| AuthService.ClaimTotal | src/modules/auth/auth-service.ts:106-116 | A claim raises the users' total coins by `points`, plus `points * 0.1` when the upline resolves |
| AuthService.Store.ClaimMiningPoints | src/modules/auth/auth-service.ts:100-122 | The two sequential saves on the live store end in exactly the state `ClaimMining` specifies; an unknown user leaves the store unchanged |
| TaskController.ValidateCreateTask | src/modules/task/task-controller.ts:12-16 | The guard accepts exactly a non-empty title with a positive reward, and every rejection is "Invalid request"; title, reward and link are forwarded unchanged, and the image URL becomes `""` only when missing |
| TaskController.CreateTask | src/modules/task/task-controller.ts:7-22 | A 200 response carries the service's task for the validated input; every error is "Invalid request" or "Failed to create task"; the development response is never used |
| TaskController.CreateTaskOutcomes | src/modules/task/task-controller.ts:12-21 | A rejected body never reaches the service; a created task is sent with status 200; a service failure gives "Failed to create task" |
| TaskController.CompleteTask | src/modules/task/task-controller.ts:23-34 | Without a session the answer is "Failed to complete task"; a development response carries the service's result for the session's user id and the task id; the only error is "Failed to complete task" |
| TaskController.CompleteTaskBehindGate | src/modules/task/task-controller.ts:25-33 | After the gate accepts, the service receives the token's `user._id` and the path's task id unchanged, and its result or failure decides the response |
| Text.StartsWith | src/middleware/auth-handler.ts:14 | `startsWith` compares character by character, case-sensitively, and fails when the prefix is longer |
| Text.Split | src/middleware/auth-handler.ts:20 | `split` gives at least one piece, the first is the text before the first separator, and no piece holds the separator |
| Text.Join | src/modules/auth/auth-service.ts:30 | `join` of no pieces is empty, of one piece is that piece, and otherwise starts with the first piece |
| Text.JoinLast | src/modules/auth/auth-service.ts:30 | A join ends with its last piece: there is no trailing separator |
| Text.JoinDiffersAt | src/modules/auth/auth-service.ts:30 | Two lists of pieces that differ in exactly one position join to different strings |
| Text.JoinSplit | src/middleware/auth-handler.ts:20 | Joining the pieces of `split(c)` with `c` gives back the string |
| Text.SplitJoin | src/modules/auth/auth-service.ts:30 | Splitting a `join` of separator-free pieces gives back the pieces |
| Text.BelowLexicographic | src/modules/auth/auth-service.ts:28 | The order `sort` uses: `a` comes before `b` iff `a` is a proper prefix of `b` or has the smaller character at the first position where they differ |
| Text.SortedElements | src/modules/auth/auth-service.ts:28 | The sorted keys list every key of the set once, in strictly ascending order |
| Text.AscendingUnique | src/modules/auth/auth-service.ts:28 | Two strictly ascending sequences with the same elements are equal |
| Text.Decimal | src/modules/auth/auth-service.ts:52 | An integer is written as an optional minus sign, present exactly for negatives, followed by decimal digits |
| Text.DecimalRoundTrip | src/modules/auth/auth-service.ts:52 | Reading back what `Decimal` writes gives the integer, so distinct Telegram ids give distinct default user names |

## Left out

- The HMAC-SHA-256 and SHA-256 computations (FIPS 180-4, RFC 2104) are abstract function parameters. Only the equality decision is modelled. `TamperedPayloadRejected` assumes the HMAC is collision-free as a stand-in for its cryptographic strength.
- The access-token verification (JWT signature and expiry) is a function-valued parameter. `jwt-service` is not part of this model, so an exception thrown inside it is not modelled either.
- Wallet generation, which is random, and private-key encryption are parameters: the generated address and key, and an `encrypt` function.
- MongoDB and Mongoose mechanics are replaced by map lookups and updates, and document ids by a store counter. The not-modelled mechanics are: ObjectId casting errors, `lean`, `$in` queries, and failed saves. So a user saved without a wallet after a failed wallet save is not modelled.
- `findOne` is modelled as the first match in id order, which stands in for MongoDB's natural order.
- Concurrent requests, and the lost updates they cause on balances, are outside a sequential model.
- Balances and points are exact reals. JavaScript's floating-point rounding of `points * 0.1` and non-finite numbers are not modelled.
- The timestamps `now`, the bot token, the encryption password and the development flag are parameters. The real values come from the clock, `process.env` and the secret configuration.
- Payload fields are modelled as the strings a template literal makes of them. For keys, `undefined`/`null` body fields and numbers, the model also makes these simplifications:
  - `DataCheckKeys`: orders keys by Unicode scalar value, which can differ from JavaScript's UTF-16 code-unit order for characters above U+FFFF.
  - `TaskController.ValidateCreateTask`: fields of a type other than the declared one are not modelled (for example a string reward, or NaN).
  - `UserNameFor`: treats the Telegram id as an integer.
- Express routing in `src/modules/task/task-routes.ts` is left out. Its only logic is the order of registration: `createTask` is registered before `taskRoute.use(authHandler)`, so it runs without the gate, while `completeTask` is registered after it and runs behind the gate. `CompleteTaskBehindGate` states the effect of that composition; `CreateTask` takes no session.
- The bodies of the response helpers, console logging, `getImageLink`, `getUserTasks` and the task service are left out. `src/utils/response-util` and `src/modules/task/task-service` are not part of this model.
