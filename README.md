# A verified model of the apnisec backend core

This project models the server side of the apnisec issue tracker in Dafny:

- the fixed-window rate limiter;
- the issue store and its owner-only update and delete;
- registration, login and profile updates over the user table;
- the edge middleware that turns the `token` cookie into an `x-user-id` header;
- the request handlers and the JSON envelope every answer is wrapped in.

The layers keep the source's shape.

- **Stateful objects are classes.** The limiter's `limits` map, the two database tables and the response cookie jar are fields that methods update in place.
- **Decision logic is functions.** The middleware, the token check, the handler guards and the error-to-response mapping are functions from request facts to one outcome.
- **Each method is tied to a specification function.** For example, `RateLimiter.CheckLimit` is proved to compute `RateLimiting.Check`. The properties are then proved about those functions.

Modules, one per file:

| module | file | source |
|---|---|---|
| `Common` | common.dfy | thrown `{statusCode, message}` objects, results, JSON body fields, requests |
| `ApiResponses` | api_response.dfy | `ApiResponse.success` / `error` |
| `BaseHandlers` | base_handler.dfy | `BaseHandler.handleWrapper`, the `x-user-id` guard every handler repeats |
| `RateLimiting` | rate_limiter.dfy | `RateLimiter` |
| `Tables` | tables.dfy | a table of rows with a unique key: `findUnique` and an in-place row update |
| `IssueRepositories` | issue_repository.dfy | `IssueRepository` and the `Issue` row |
| `IssueServices` | issue_service.dfy | `IssueService` |
| `UserStore` | user_store.dfy | the `User` row, `SafeUser`, the user repository |
| `AuthServices` | auth_service.dfy | `AuthService` |
| `UserServices` | user_service.dfy | `UserService` |
| `TokenGate` | auth_middleware.dfy | `AuthMiddleware.verify` |
| `EdgeMiddleware` | middleware.dfy | `middleware` and `config.matcher` |
| `IssueHandlers` | issue_handler.dfy | `IssueHandler` |
| `UserHandlers` | user_handler.dfy | `UserHandler` |
| `AuthHandlers` | auth_handler.dfy | `AuthHandler` and the cookie it sets |
| `SignInFlow` | sign_in_flow.dfy | register, then login, then `GET /api/auth/me` through the middleware |

### Environment as parameters

- **Clock.** Every reading of `Date.now()` / `new Date()` is a parameter: `now` for stored times, `timestamp` for the envelope's ISO string.
- **Generated ids.** The id the database generates for a new row is a parameter `newId`. It must not be in use yet.
- **Crypto.** The password hasher, the token signer and the token verifier are function-typed parameters and are not interpreted:
  - `hash`;
  - `compare`;
  - `generateToken`;
  - `verifyToken`, a partial function: `None` stands for every way it throws.

### Behaviour kept as the code has it

- **Soft-deleted issues stay reachable by id.** `findById` has no `deletedAt` filter, so their owner can still update or delete them.
- **The issue update payload is written unfiltered.** An owner may change `userId` (handing the issue to someone else) or `deletedAt` (reviving it). See `IssueServices.OwnerPayloadIsUnfiltered`.
- **A duplicate e-mail is a 400**, as `register` throws it.
- **Two identical profile lookups.** `UserService.getProfile` and `AuthService.getUserProfile` are the same code in two services. The model keeps both, as `UserServices.UserService.GetProfile` and `AuthServices.AuthService.GetUserProfile`, with the same contract.
- **A registration body may choose its role**, `ADMIN` included. Only a missing role falls back to `CLIENT`.

## Model

| member | source | states |
|---|---|---|
| `ApiResponses.Success` | src/backend/utils/ApiResponse.ts:2-9 | the envelope is a success carrying `data` and the timestamp unchanged; the message is the given one or `'Success'`; it has no `code` key |
| `ApiResponses.Error` | src/backend/utils/ApiResponse.ts:11-19 | the envelope is a failure carrying the message, `details` and timestamp unchanged; `code` is the given one or 400; it has no `data` key |
| `BaseHandlers.StatusOf` | src/backend/handlers/BaseHandler.ts:13 | `error.statusCode` when it is truthy (present and non-zero), otherwise 500; never 0 |
| `BaseHandlers.MessageOf` | src/backend/handlers/BaseHandler.ts:14 | `error.message` when non-empty, otherwise `'Internal Server Error'`; never empty |
| `BaseHandlers.HandleWrapper` | src/backend/handlers/BaseHandler.ts:5-20 | a value becomes a 200 success envelope of that value; a thrown object becomes a failure envelope whose HTTP status equals its `code` (`StatusOf`), with `MessageOf` and `details` passed through; success iff the operation returned |
| `BaseHandlers.ServiceErrorsReachTheClient` | src/backend/handlers/BaseHandler.ts:12-18 | a thrown `{statusCode, message}` with both truthy reaches the client with exactly that status, code and message |
| `BaseHandlers.RequireUserId` | src/backend/handlers/IssueHandler.ts:13-14 | succeeds iff the `x-user-id` header is present and non-empty, with its value; otherwise `{401, 'Unauthorized'}` |
| `RateLimiting.Check` | src/backend/rate-limit/RateLimiter.ts:62-83 | with no record or an expired one (`now > resetTime`) the request is allowed and the record becomes `{1, now + windowMs}`; inside the window it is allowed iff `count < maxRequests`, and then only `count` grows by one; a denied request leaves the map unchanged; no other identifier's record changes |
| `RateLimiting.Remaining` | src/backend/rate-limit/RateLimiter.ts:90-99 | `maxRequests` without a live record, otherwise `max(0, maxRequests - count)` |
| `RateLimiting.CheckKeepsBounded` | src/backend/rate-limit/RateLimiter.ts:62-83 | every stored count stays at least 1 and, when `maxRequests >= 1`, at most `maxRequests` |
| `RateLimiting.DeniedIffNoneRemaining` | src/backend/rate-limit/RateLimiter.ts:76-78 | with a positive cap, `checkLimit` denies exactly when `getRemainingRequests` reports 0 |
| `RateLimiting.AllowedUsesOneRequest` | src/backend/rate-limit/RateLimiter.ts:67-82 | an allowed request lowers the remaining count of its window by exactly one (a fresh window starts at `maxRequests - 1`) |
| `RateLimiting.CheckSize` | src/backend/rate-limit/RateLimiter.ts:121-123 | the map grows by one entry exactly when an untracked identifier is checked |
| `RateLimiting.ResetStartsFreshWindow` | src/backend/rate-limit/RateLimiter.ts:105-107 | after `resetLimit(id)` the next check of `id` is allowed and opens the window `{1, now + windowMs}` |
| `RateLimiting.CheckAll` | src/backend/rate-limit/RateLimiter.ts:62-83 | a run of checks on one identifier gives one answer per call, tracks that identifier once the run is non-empty, and leaves every other identifier's record as it was |
| `RateLimiting.ActiveWindowRun` | src/backend/rate-limit/RateLimiter.ts:76-82 | inside a window whose record already counts `count`, the k-th further call is allowed iff `count + k < maxRequests` |
| `RateLimiting.FirstMaxRequestsAllowed` | src/backend/rate-limit/RateLimiter.ts:62-83 | from a fresh window, and staying inside it, exactly the first `maxRequests` calls are allowed and all later ones are denied |
| `RateLimiting.RateLimiter.constructor` | src/backend/rate-limit/RateLimiter.ts:31-35 | an empty map with the given window and cap |
| `RateLimiting.RateLimiter.WithDefaults` | src/backend/rate-limit/RateLimiter.ts:31-35 | an empty map, a 15-minute window and a cap of 100 |
| `RateLimiting.RateLimiter.CheckLimit` | src/backend/rate-limit/RateLimiter.ts:62-83 | answer and new map are exactly `Check` of the old map; the count bounds are kept |
| `RateLimiting.RateLimiter.GetRemainingRequests` | src/backend/rate-limit/RateLimiter.ts:90-99 | returns `Remaining` without changing the map, between 0 and the cap |
| `RateLimiting.RateLimiter.ResetLimit` | src/backend/rate-limit/RateLimiter.ts:105-107 | removes exactly `id` from the map |
| `RateLimiting.RateLimiter.ClearAll` | src/backend/rate-limit/RateLimiter.ts:113-115 | the map becomes empty |
| `RateLimiting.RateLimiter.GetSize` | src/backend/rate-limit/RateLimiter.ts:121-123 | the number of tracked identifiers |
| `Tables.FindBy` | src/backend/repositories/IssueRepository.ts:30-32 | `None` iff no row has the key; otherwise a row of the table with that key |
| `Tables.FindByFindsRow` | src/backend/repositories/IssueRepository.ts:30-32 | with unique keys, looking up a row's key finds that very row |
| `Tables.Put` | src/backend/repositories/IssueRepository.ts:52-57 | same length; the row with the new row's key is replaced by it, every other row is unchanged |
| `Tables.PutFacts` | src/backend/repositories/IssueRepository.ts:52-57 | rewriting a row keeps keys unique, makes the new row the one found, and leaves every other key's lookup unchanged |
| `Tables.AppendFacts` | src/backend/repositories/IssueRepository.ts:16-23 | appending a row with a fresh key keeps keys unique, makes it findable, and leaves every other lookup unchanged |
| `IssueRepositories.ApplyPatch` | src/backend/repositories/IssueRepository.ts:52-57 | every field present in the payload is written, every absent one kept; the id never changes |
| `IssueRepositories.ApplyPatchLaws` | src/backend/repositories/IssueRepository.ts:52-57 | an empty payload changes nothing; applying the same payload twice equals applying it once |
| `IssueRepositories.InsertNewestFirst` | src/backend/repositories/IssueRepository.ts:42 | inserting into a newest-first list keeps it newest first and adds exactly that row |
| `IssueRepositories.NoNewerThanHead` | src/backend/repositories/IssueRepository.ts:42 | a rearrangement of the tail of a newest-first list plus an older row has nothing newer than its head |
| `IssueRepositories.SortNewestFirst` | src/backend/repositories/IssueRepository.ts:42 | the result is ordered by `createdAt` descending and is a permutation of its input |
| `IssueRepositories.Select` | src/backend/repositories/IssueRepository.ts:41 | exactly the rows that satisfy the filter, each no more often than in the table |
| `IssueRepositories.SortedSelection` | src/backend/repositories/IssueRepository.ts:39-44 | a sorted selection holds exactly the selected rows |
| `IssueRepositories.SelectSameFilter` | src/backend/repositories/IssueRepository.ts:76-81 | two filters that agree on the table's rows select the same list |
| `IssueRepositories.IssueRepository.constructor` | src/backend/repositories/IssueRepository.ts:9 | an empty table |
| `IssueRepositories.IssueRepository.FindById` | src/backend/repositories/IssueRepository.ts:30-32 | the row with that id, soft-deleted or not; `None` iff no row has it |
| `IssueRepositories.IssueRepository.FindAll` | src/backend/repositories/IssueRepository.ts:39-44 | exactly the rows that satisfy `where` and are not soft-deleted, newest first |
| `IssueRepositories.IssueRepository.FindByUserId` | src/backend/repositories/IssueRepository.ts:76-81 | exactly the user's rows that are not soft-deleted, newest first |
| `IssueRepositories.IssueRepository.Create` | src/backend/repositories/IssueRepository.ts:16-23 | appends a row with the given fields, `status` OPEN, `createdAt` now and no `deletedAt`; every other id's row is unchanged |
| `IssueRepositories.IssueRepository.Update` | src/backend/repositories/IssueRepository.ts:52-57 | the row becomes `ApplyPatch` of itself; every other id's row is unchanged |
| `IssueRepositories.IssueRepository.SoftDelete` | src/backend/repositories/IssueRepository.ts:64-69 | only `deletedAt` of that row changes, to now; every other row is unchanged |
| `IssueRepositories.IssueRepository.Write` | src/backend/repositories/IssueRepository.ts:52-57 | the row with the issue's id is replaced; ids stay unique; every other id's row is unchanged |
| `IssueRepositories.FindByUserIdIsFindAll` | src/backend/repositories/IssueRepository.ts:76-81 | `findByUserId(u)` equals `findAll({ userId: u })` |
| `IssueRepositories.SoftDeletedRowsStayFindable` | src/backend/repositories/IssueRepository.ts:30-44 | a soft-deleted row is still found by id but appears in no listing |
| `IssueServices.Authorize` | src/backend/services/IssueService.ts:47-55 | 404 iff the issue is absent, 403 iff it belongs to someone else, otherwise the issue itself |
| `IssueServices.IssueService.constructor` | src/backend/services/IssueService.ts:10-13 | the service works on the given repository |
| `IssueServices.IssueService.CreateIssue` | src/backend/services/IssueService.ts:21-37 | stores and returns a new OPEN issue owned by the caller, carrying `data`'s title, description and type |
| `IssueServices.IssueService.Update` | src/backend/services/IssueService.ts:46-58 | 404 for a missing id, then 403 for a non-owner, with the store unchanged; the owner's payload is applied to that row alone |
| `IssueServices.IssueService.Delete` | src/backend/services/IssueService.ts:66-78 | the same 404-then-403 checks; the owner's delete soft-deletes that row at `now` |
| `IssueServices.IssueService.GetUserIssues` | src/backend/services/IssueService.ts:85-87 | exactly `findByUserId(userId)`: the caller's live issues |
| `IssueServices.OnlyOwnerPasses` | src/backend/services/IssueService.ts:53-55 | the check passes iff the caller owns the issue; anyone else gets 403, a missing issue 404 |
| `IssueServices.OwnerPayloadIsUnfiltered` | src/backend/services/IssueService.ts:57 | the owner of a soft-deleted issue passes the check, and the payload can reassign `userId` and clear `deletedAt` |
| `UserStore.Strip` | src/backend/services/AuthService.ts:40 | id, email, name and role are those of the stored user |
| `UserStore.StripForgetsOnlyHash` | src/backend/services/AuthService.ts:71 | two users have the same safe view iff they differ at most in `passwordHash` |
| `UserStore.ApplyUserUpdate` | src/backend/services/UserService.ts:55 | `name` and `passwordHash` are written when present; id, email and role never change |
| `UserStore.UserRepository.constructor` | src/backend/repositories/UserRepository.ts:16-18 | an empty table |
| `UserStore.UserRepository.FindById` | src/backend/repositories/BaseRepository.ts:8-10 | the user with that id, `None` iff there is none |
| `UserStore.UserRepository.FindByEmail` | src/backend/repositories/UserRepository.ts:25-27 | the user with that exact e-mail, `None` iff there is none |
| `UserStore.UserRepository.Create` | src/backend/repositories/BaseRepository.ts:4-6 | appends a user with a fresh id and e-mail and no name; both lookups find it; ids and e-mails stay unique |
| `UserStore.UserRepository.Update` | src/backend/repositories/BaseRepository.ts:16-18 | that user becomes `ApplyUserUpdate` of itself; no other id's user changes; uniqueness is kept |
| `UserStore.SameEmailPut` | src/backend/repositories/BaseRepository.ts:16-18 | rewriting a user without changing id or e-mail keeps e-mails unique |
| `AuthServices.AuthService.constructor` | src/backend/services/AuthService.ts:15-17 | the service works on the given user table |
| `AuthServices.AuthService.Register` | src/backend/services/AuthService.ts:26-46 | `{400, 'User already exists'}` iff the e-mail is taken, creating nothing; otherwise stores `hash(password)` (never the password) with role defaulting to CLIENT and returns the stored user without its hash |
| `AuthServices.AuthService.Login` | src/backend/services/AuthService.ts:54-73 | succeeds iff the e-mail exists and `compare` accepts the password; every failure is `{401, 'Invalid credentials'}`; the token is signed over the stored id, email and role; the user is returned without its hash |
| `AuthServices.AuthService.GetUserProfile` | src/backend/services/AuthService.ts:80-87 | 404 iff the id is unknown, else the stored user without its hash |
| `AuthServices.NoUserExistenceOracle` | src/backend/services/AuthService.ts:55-63 | an unknown e-mail and a wrong password give the identical result |
| `AuthServices.RegisteredUserCanLogIn` | src/backend/services/AuthService.ts:26-73 | a stored registration logs in with its password when `compare(p, hash(p))` holds, and gets a token over its own claims |
| `UserServices.BuildUpdate` | src/backend/services/UserService.ts:41-49 | `name` is in the update iff `data.name !== undefined` (so `null` and `''` count), `passwordHash` iff the password is truthy, and then it is `hash(password)` |
| `UserServices.UserService.constructor` | src/backend/services/UserService.ts:11-13 | the service works on the given user table |
| `UserServices.UserService.GetProfile` | src/backend/services/UserService.ts:20-27 | 404 iff the id is unknown, else the stored user without its hash |
| `UserServices.UserService.UpdateProfile` | src/backend/services/UserService.ts:35-58 | 404 for an unknown user, then `{400, 'No valid fields to update'}` for an empty update, with the table unchanged; otherwise only that user's name and/or hash change and the result lacks the hash |
| `TokenGate.Verify` | src/backend/security/AuthMiddleware.ts:5-18 | a missing or empty `token` cookie is 'Token missing'; otherwise the verifier's payload unchanged, or 'Invalid token' for any verifier failure |
| `TokenGate.VerifyReadsOnlyTokenCookie` | src/backend/security/AuthMiddleware.ts:6-10 | requests with the same `token` cookie get the same answer; without a token the verifier is never consulted |
| `EdgeMiddleware.IdentityHeaders` | src/middleware.ts:10-13 | all incoming headers are copied, and `x-user-id`/`x-user-role` are set from the payload, overwriting what the client sent |
| `EdgeMiddleware.Middleware` | src/middleware.ts:5-32 | forward iff verification succeeds, with the identity headers; otherwise a 401 `{success: false, message: 'Unauthorized'}` iff the path starts with `/api/`, else a redirect to `/login`; exactly one of the three |
| `EdgeMiddleware.Gate` | src/middleware.ts:34-42 | the middleware runs exactly on the matcher's paths |
| `EdgeMiddleware.ForwardedIdentityIsVerified` | src/middleware.ts:7-19 | a forwarded request's identity headers are the verified payload's, and every other header is passed on as sent |
| `EdgeMiddleware.MatcherExamples` | src/middleware.ts:34-42 | the dashboard, profile, issue, user-profile and `/api/auth/me` paths are gated; `/api/auth/login` and `/dashboards` are not |
| `IssueHandlers.ParseIssueType` | src/backend/handlers/IssueHandler.ts:24-26 | recognises exactly the three `IssueType` names |
| `IssueHandlers.CreateArgs` | src/backend/handlers/IssueHandler.ts:11-34 | 401 without `x-user-id` first, then `{400, 'Title and Type are required'}`, then `{400, 'Invalid Issue Type'}`; passes iff all three checks pass, and then gives the header user as owner, the title, the parsed type and the description or `''` |
| `IssueHandlers.CreateChecksIdentityFirst` | src/backend/handlers/IssueHandler.ts:13-18 | without `x-user-id` the body plays no part: the answer is 401 whatever it holds |
| `IssueHandlers.IssueHandler.constructor` | src/backend/handlers/IssueHandler.ts:7-9 | the handler uses the given service |
| `IssueHandlers.IssueHandler.Create` | src/backend/handlers/IssueHandler.ts:11-36 | a failed check answers with its error and stores nothing; otherwise exactly one new OPEN issue is stored and returned in a 200 envelope |
| `IssueHandlers.IssueHandler.Update` | src/backend/handlers/IssueHandler.ts:38-46 | 401 without `x-user-id`; otherwise the body reaches the service unmodified, and the answer and new table are the service's |
| `IssueHandlers.IssueHandler.Delete` | src/backend/handlers/IssueHandler.ts:48-56 | 401 without `x-user-id`; the service's 404/403 pass through; a soft delete answers `{success: true}` |
| `IssueHandlers.IssueHandler.List` | src/backend/handlers/IssueHandler.ts:58-66 | 401 without `x-user-id`; otherwise 200 with the caller's live issues only |
| `UserHandlers.ProfileArgs` | src/backend/handlers/UserHandler.ts:19-36 | 401 without `x-user-id`; 400 when neither name nor password is truthy; 400 for a truthy password shorter than 6; passes iff none applies, forwarding exactly `{name, password}` |
| `UserHandlers.HandlerChecksCoverService` | src/backend/handlers/UserHandler.ts:28-36 | whatever passes the handler's checks builds a non-empty update, so the service's "No valid fields" answer is unreachable through this route |
| `UserHandlers.UserHandler.constructor` | src/backend/handlers/UserHandler.ts:6-8 | the handler uses the given service |
| `UserHandlers.UserHandler.GetProfile` | src/backend/handlers/UserHandler.ts:10-17 | 401 without `x-user-id`; 404 for an unknown user; else 200 with the user without its hash |
| `UserHandlers.UserHandler.UpdateProfile` | src/backend/handlers/UserHandler.ts:19-38 | a failed check answers with its error and changes nothing; 404 for an unknown user; otherwise that user is updated and returned without its hash, and no other user changes |
| `AuthHandlers.Credentials` | src/backend/handlers/AuthHandler.ts:18-20 | passes iff both e-mail and password are truthy, else `{400, 'Email and password are required'}` |
| `AuthHandlers.TokenCookieOptions` | src/backend/handlers/AuthHandler.ts:39-45 | `httpOnly`, `sameSite: 'strict'`, `maxAge` 86400, `path '/'`, and `secure` exactly in production |
| `AuthHandlers.CookieJar.constructor` | src/backend/handlers/AuthHandler.ts:39 | an empty jar |
| `AuthHandlers.CookieJar.Set` | src/backend/handlers/AuthHandler.ts:39-45 | the named cookie is set, replacing any old one; no other cookie changes |
| `AuthHandlers.AuthHandler.constructor` | src/backend/handlers/AuthHandler.ts:8-10 | the handler uses the given service |
| `AuthHandlers.AuthHandler.Register` | src/backend/handlers/AuthHandler.ts:12-25 | 400 before the service without credentials; the body's role reaches the service as sent; a taken e-mail is 400 with nothing stored; else the new user without its hash |
| `AuthHandlers.AuthHandler.Login` | src/backend/handlers/AuthHandler.ts:27-49 | 400 without credentials; a failed login answers the service's error and sets no cookie; a successful one sets only the `token` cookie with those options and answers with the safe user, not the token |
| `AuthHandlers.AuthHandler.GetMe` | src/backend/handlers/AuthHandler.ts:51-62 | 401 without `x-user-id`; 404 for an unknown user; else 200 with the user without its hash |
| `AuthHandlers.LoginFailureIsUniform` | src/backend/handlers/AuthHandler.ts:36 | every failed login reaches the client as the same 401 'Invalid credentials' envelope |
| `SignInFlow.RoleName` | src/backend/services/AuthService.ts:65-69 | each role has its own claim string |
| `SignInFlow.CookieValues` | src/backend/security/AuthMiddleware.ts:6 | the cookies a client sends back are the values of those set |
| `SignInFlow.ThroughEdge` | src/middleware.ts:5-19 | a `/api/auth/me` request carrying a signed token is forwarded with `x-user-id` set to the token's id |
| `SignInFlow.RegisterLoginMe` | src/backend/handlers/AuthHandler.ts:12-62 | register, login and `me` with the cookie all answer 200 with the new account: the same e-mail, no name and role CLIENT |
| `SignInFlow.MatcherMe` | src/middleware.ts:40 | `/api/auth/me` is gated |
| `SignInFlow.FindsAppended` | src/backend/repositories/UserRepository.ts:25-27 | a user appended to a table with unique keys is what both lookups find |

## Left out

- Password hashing (bcrypt) and JWT signing and verification are not interpreted; they are function parameters. The sign-in flow assumes three things: `compare` accepts a password against its own hash, `generateToken` never returns an empty token, and `verifyToken` returns the claims of any token `generateToken` signed.
- The welcome and issue-created e-mails and the audit service are left out. They are fire-and-forget calls whose failures are caught, so they cannot change a result or the store. For the same reason `IssueService` does not hold the user repository that it reads only to find the e-mail address.
- The limiter's static singleton (`getInstance`, `resetInstance`, `check`) is not modelled. The limiter is an ordinary object built by one of its two constructors.
- `RateLimiting.RateLimiter.CheckLimit` and the other operations take the clock reading as a parameter and use unbounded integers. Millisecond arithmetic beyond 2^53 is not modelled.
- No request is concurrent. `async`/`await` is plain sequencing here.
- Database failures are outside the model:
  - Prisma validation of enum values (an unknown `status` in an update payload, or an unknown `role` at registration);
  - a `null` role;
  - uniqueness violations from a concurrent writer;
  - `update`/`softDelete` on an id that vanished between the check and the write.
  
  The repository methods therefore require the row to exist, or the id and e-mail to be fresh, as their callers have already checked.
- `IssueRepositories.IssuePatch` covers the writable columns the model has. `id` and `updatedAt` in a payload are not modelled, and neither is the `updatedAt` column itself.
- Request bodies are modelled only as parsed fields that are missing, `null` or strings. Invalid JSON, and fields of other JSON types (numbers, objects), are left out. So is the `length` of a non-string password.
- `UserHandlers.ProfileArgs` measures a password in Unicode characters. JavaScript's `length` counts UTF-16 code units, so the two differ for characters outside the Basic Multilingual Plane.
- Header names are matched exactly. The case-insensitivity of HTTP header lookup is not modelled, since every header here is written in lower case.
- `IssueRepositories.SortNewestFirst` fixes one order for issues with equal `createdAt`. The database leaves that order unspecified.
- `IssueRepositories.IssueRepository.FindAll` takes its caller's filter as a predicate on rows. A filter that names `deletedAt` itself is not modelled.
- The `IssueType` values (VAPT, REDTEAM, CLOUD) and the issue statuses come from the dashboard's form and status badge. The database schema is not part of this model.
- The route files that wire handlers to URLs, the React pages and components, the theme context, and the cookie transport between browser and server are not part of this model.
