# Authentication core of a FastAPI account service, modelled in Dafny

The service registers users, logs them in with a signed JSON Web Token
(RFC 7519, HS256 as in section 3.2 of RFC 7518, expiry in the `exp` claim of
section 4.1.4 of RFC 7519), lets them read and update their account, change
their password, and reset it with a one-hour, single-use reset token. Login
is guarded by a per-IP fixed-window rate limiter. A Svelte front end keeps
the session token and the user's permissions in four stores and in
`localStorage`.

The project models four parts of it:

- `rate_limit.dfy` (module `RateLimit`): the `ip_request_counts` dictionary
  and `rate_limit`. The pure `Step` says what one request does to the map.
  Lemmas prove the rejection rule, the wait reported with a 429, that an
  admitted request adds 1 to its own IP's count only, that counts stay at or
  below 5, and the burst behaviour: 5 admitted, then 429, then admitted
  again once the window has passed. Class `RateLimiter` holds the map and
  follows `Step`.
- `accounts.dfy` (module `Accounts`): the `users` and
  `password_reset_tokens` tables as maps (`Db`). Each route is a function
  from the store before to the store after plus the reply, and lemmas relate
  the routes to each other. `verify_email` picks any matching row with
  `.first()`, so it is a relation (`VerifyEmailStep`) instead. `api.dfy`
  (module `Api`): class `AuthApi` holds the two tables as map fields. Its
  methods are the routes, written statement by statement like the handlers.
  Each is proved to produce exactly the store and reply its `Accounts`
  function gives, and to keep the table constraints (`Valid`).
- `auth.dfy` (module `Auth`): `create_access_token`, `decode_access_token`
  and `verify_token` over JSON claims. The JWT library and bcrypt are
  function-valued collaborators (`JwtCodec`, `Bcrypt`). What the service
  relies on them for is stated as predicates (`RoundTrips`, `ChecksOwnHash`,
  `RejectsOtherPasswords`) that lemmas take as hypotheses.
- `database.dfy` (module `Database`): the normalisation of `DATABASE_URL`
  (Python's `startswith`, `replace(…, 1)` and `in` on strings, written out),
  the module globals `engine` and `SessionLocal` (class `Config`), and
  `get_db`'s refusal when nothing is configured.
- `auth_store.dfy` (module `AuthStore`): the four writable stores and
  `localStorage` as fields of class `Stores`. The pure `Initial`,
  `SetPermissions` and `Cleared` specify its initialisation and its two
  functions.

Time is whole seconds, passed in as `now`. The random values the code draws
(bcrypt salts, uuid4 reset tokens) are parameters.

Where the source's own comments and its code differ, the model follows the code:

- The docstring of `rate_limit` (main.py:141) calls it sliding-window. It is
  a fixed window: the count drops to 0 when 60 s have passed since the window
  began (main.py:146-147).
- The column comment at backend/models/sql_models.py:36 says the verification
  token is used during sign-up. Registration instead stores the user already
  verified and stores no token ("Auto-verify for development",
  main.py:221-222). So a freshly registered user can log in at once
  (`RegisterThenLogin`), and `verify-email` can only ever answer 404 for such
  users (`RegisterLeavesNothingToVerify`).
- A missing signing secret is not refused at start-up. The model takes the
  keyed codec as given.

Other behaviour of the source that the model keeps:

- `UserCreate` accepts any username string, the empty one included
  (main.py:178-181), and `login` issues a token for it (main.py:274).
  `read_current_user` refuses a falsy username (main.py:289-290), so such
  an account gets a token that every authenticated route answers with 401
  (`EmptyUsernameTokenRefused`).
- `read_current_user` (main.py:295) and `update_user` (main.py:315) return
  the whole user row. The row they return carries the bcrypt `password` hash
  and the `verification_token`, and the model's `UserRow` reply keeps both.

## Model

| member | source | states |
|---|---|---|
| RateLimit.WindowAt | backend/main.py:133-147 | an unseen IP starts a window `{count 0, reset_time now}`; a window 60 s old or older restarts at now; a younger one is kept |
| RateLimit.Step | backend/main.py:140-158 | one request adds at most its own IP to the map and leaves every other IP's entry unchanged |
| RateLimit.StepRejection | backend/main.py:146-156 | a request is rejected iff the IP has a window younger than 60 s whose count is already ≥ 5; rejection leaves the map unchanged; the wait is `reset_time + 60 − now`, always > 0 and ≤ 60 when the window did not start in the future |
| RateLimit.StepAdmission | backend/main.py:146-158 | an admitted request adds exactly 1 to its IP's current-window count (giving `{1, now}` for an unseen IP or expired window) and leaves every other IP's entry unchanged |
| RateLimit.StepPreservesInvariants | backend/main.py:146-158 | every count stays within 0..5, and no window starts after the latest request time |
| RateLimit.RunWithinWindow | backend/main.py:136-158 | inside one window with `used` requests counted, the next `5 − used` requests pass and each later one is rejected with the time left in the window |
| RateLimit.FixedWindowBurst | backend/main.py:136-158 | from an IP without a live window, the first 5 requests in 60 s pass, the 6th and later get 429, and a request once the window has elapsed passes again |
| RateLimit.RateLimiter.constructor | backend/main.py:133-135 | the process starts with an empty `ip_request_counts` |
| RateLimit.RateLimiter.RateLimit | backend/main.py:140-158 | `rate_limit` updates the map and decides exactly as `Step`; a rejection changes nothing; counts stay ≤ 5 |
| Accounts.UserWithEmail | backend/main.py:268 | the email lookup returns a user holding that email, and returns none only when no user holds it |
| Accounts.UserWithEmailIsUnique | backend/models/sql_models.py:26 | with the unique email constraint, the user found is the one holding the email |
| Accounts.Register | backend/main.py:211-234 | an existing email gives 400 "Email already registered" and no change; a free email with a taken username fails at commit with 500 and no change; otherwise exactly one row is added: hashed password, not admin, verified, no verification token |
| Accounts.RegisterPreservesValid | backend/main.py:211-225 | registration keeps the primary-key and unique-email constraints and, on success, grows the user table by exactly one |
| Accounts.VerifyEmailStep | backend/main.py:239-246 | a verify-email step answers the success message or 404, keeps every user, and changes no user's fields other than `email_is_verified` and `verification_token` |
| Accounts.VerificationTokenSingleUse | backend/main.py:239-246 | a verification token held by one user succeeds once; the same token then gets 404 and changes nothing |
| Accounts.RegisterLeavesNothingToVerify | backend/main.py:215-245 | registration never stores the token it generates, so afterwards every `verify-email` call answers 404 |
| Accounts.LoginClaims | backend/main.py:274 | the token payload holds exactly `username` and `is_admin` of the user |
| Accounts.Login | backend/main.py:268-276 | the reply is a token or an HTTP error, and the error is 400 or 403; 400 "Invalid credentials" iff the email is unknown or the password fails; 403 "Email not verified" iff the password matched on an unverified account; a token iff the user exists, the password checks and the email is verified; the token encodes `{username, is_admin}` plus `exp` one week on |
| Accounts.LoginHidesWhichCredentialFailed | backend/main.py:268-270 | an unknown email and a wrong password produce the same 400 "Invalid credentials" |
| Accounts.ReadCurrentUser | backend/main.py:284-295 | a bearer token resolves to a stored user iff it decodes and carries a non-empty string `username` naming a stored row; otherwise 401 "Invalid authentication credentials" |
| Accounts.LoginTokenIdentifiesUser | backend/main.py:274-295 | for a non-empty username, the token a login returns resolves to the same user until one week after issue, and is refused after |
| Accounts.EmptyUsernameTokenRefused | backend/main.py:274-290 | a user named "" obtains a token from login, but `read_current_user` answers 401 for it at every time |
| Accounts.UpdateData | backend/main.py:304 | `dict(exclude_unset=True)` yields one assignment per sent field, username first, carrying the sent value |
| Accounts.ApplyAll | backend/main.py:310-311 | a run of `setattr` calls that never sets a field leaves that field as it was |
| Accounts.ApplyOnlySentFields | backend/main.py:304-311 | the `setattr` loop changes exactly the fields that were sent, each to the sent value |
| Accounts.Commit | backend/main.py:313-315 | the commit fails with 500 and no change iff the username is null or the email is held by another row; every other commit returns the updated row |
| Accounts.UpdateUser | backend/main.py:304-315 | an unresolved token gives the 401 of `read_current_user`; 400 "Username already taken" iff the token resolves and a sent username is already stored; the updated row iff the token resolves, a sent username is neither null nor stored, and the resulting email is held by no other row; every error leaves the store unchanged |
| Accounts.UpdateRejectsTakenUsername | backend/main.py:306-308 | any requested username already in the store, the caller's own included, gives 400 "Username already taken" and no change |
| Accounts.CommitPreservesValid | backend/main.py:310-315 | a successful commit rewrites only the caller's row, under its new key, and keeps the constraints |
| Accounts.UpdateChangesOnlySentFields | backend/main.py:304-315 | a successful update changes only the caller's row and only the sent fields, leaves reset records alone, and keeps the constraints |
| Accounts.ChangePassword | backend/main.py:324-329 | an unresolved token gives the 401 of `read_current_user` and no change; a wrong current password gives 400 "Incorrect current password" and no change; otherwise the caller's hash, and nothing else, becomes `hash(new)` |
| Accounts.ChangePasswordTakesEffect | backend/main.py:324-327 | after a change the new password checks and, for a collision-free hash, a different old password no longer does |
| Accounts.RequestPasswordReset | backend/main.py:345-363 | the reply is always the generic message; users never change; a record `{email, token, now + 1 h}` is added iff the email belongs to a user (and the fresh token is not already stored) |
| Accounts.ResetRequestHidesAccounts | backend/main.py:345-363 | the replies for an existing and a missing account are identical, and the missing one changes nothing |
| Accounts.ResetRequestsAccumulate | backend/main.py:345-352 | two requests for one email leave both records outstanding |
| Accounts.ConfirmPasswordReset | backend/main.py:384-399 | the reply is 400, 404 or "Password has been reset"; 400 iff the token is unknown or `expires ≤ now`; 404 (record kept) iff its owner is gone; so a live token whose owner exists succeeds, the owner's hash becomes `hash(new)` and the record is deleted; errors change nothing |
| Accounts.ResetTokenSingleUse | backend/main.py:384-399 | once a token has reset a password, confirming with it again gives 400 and changes nothing |
| Accounts.ConfirmPreservesValid | backend/main.py:392-398 | confirming a reset keeps the table constraints |
| Accounts.ResetWorkflow | backend/main.py:345-399 | a reset requested for a registered email confirms within the hour; the new password then passes login's credential check and the token is spent; from the hour on the token gets 400 |
| Accounts.RegisterThenLogin | backend/main.py:211-276 | a freshly registered account obtains a token with its password |
| Api.RateLimitDetail | backend/main.py:152-155 | the 429 detail is "Rate limit exceeded. Try again in ", the wait as printed by `IntString`, then " seconds"; for a wait ≥ 0 the middle is digits whose decimal value is the wait |
| Api.IntString | backend/main.py:155 | the f-string form of an integer: digits whose decimal value is the number, with a leading `-` when negative |
| Api.DecimalValueOfNatString | backend/main.py:155 | reading back the printed digits of a natural number gives that number |
| Api.SetAttributes | backend/main.py:310-311 | the `setattr` loop over the sent fields yields exactly `ApplyAll` of them, so only sent fields change (`ApplyOnlySentFields`) |
| Api.AuthApi.FindUserByEmail | backend/main.py:211 | the compiled email lookup returns the one user holding the email |
| Api.AuthApi.RegisterUser | backend/main.py:208-234 | the handler's new store and reply are exactly `Register`'s; constraints kept |
| Api.AuthApi.VerifyEmail | backend/main.py:237-246 | the handler verifies one holder of the token and clears it, or answers 404 unchanged; reset records untouched |
| Api.AuthApi.Login | backend/main.py:262-276 | the limiter consumes a slot before the credentials are looked at; a rejected request answers 429 with the wait; otherwise the reply is `Login`'s |
| Api.AuthApi.ReadCurrentUserRoute | backend/main.py:282-295 | the row of the user the token names, or 401 |
| Api.AuthApi.UpdateUser | backend/main.py:298-315 | the `setattr` loop and commit give exactly `UpdateUser`'s store and reply; constraints kept |
| Api.AuthApi.ChangePassword | backend/main.py:318-329 | the handler's new store and reply are exactly `ChangePassword`'s |
| Api.AuthApi.RequestPasswordReset | backend/main.py:342-363 | the handler's new store and reply are exactly `RequestPasswordReset`'s |
| Api.AuthApi.ConfirmPasswordReset | backend/main.py:382-399 | the handler's new store and reply are exactly `ConfirmPasswordReset`'s; constraints kept |
| Auth.HashPassword | backend/auth.py:48-51 | under the bcrypt hypotheses the password checks against its hash and no other password does |
| Auth.VerifyPassword | backend/auth.py:53-54 | under the bcrypt hypotheses a password checks against any hash made from it, and fails against any hash made from a different password |
| Auth.TokenPayload | backend/auth.py:22-24 | the encoded payload is the caller's claims plus `exp` = issue time + delta, overwriting any `exp` given; every other claim is kept |
| Auth.CreateAccessToken | backend/auth.py:11-26 | fails with ValueError exactly when there is no `username` key; otherwise encodes `TokenPayload` |
| Auth.DecodeAccessToken | backend/auth.py:28-38 | the payload for a valid token; 401 "Token expired" exactly for an expired signature; 401 "Invalid token" exactly for any other library error |
| Auth.VerifyToken | backend/auth.py:40-45 | returns or raises what `decode_access_token` does, so it only ever raises 401 |
| Auth.IssuedTokenRoundTrip | backend/auth.py:19-38 | given the library's round trip, a freshly issued token decodes to its payload, `username` intact, before `exp`, and is "Token expired" from `exp` on |
| Database.StartsWith | backend/database.py:16 | `startswith` holds iff the prefix fits and matches character by character |
| Database.Contains | backend/database.py:19 | `in` holds iff the pattern occurs at some index |
| Database.ReplaceFirst | backend/database.py:17 | with no occurrence the string is unchanged; otherwise exactly the first occurrence is replaced |
| Database.FindFrom | backend/database.py:17-19 | the first index at or after `from` where the pattern occurs, or none when it occurs nowhere there |
| Database.ReplaceFirstOfPrefix | backend/database.py:16-17 | for a URL starting with `postgres://`, `replace(…, 1)` replaces exactly that prefix |
| Database.RewriteScheme | backend/database.py:16-17 | a leading `postgres://` becomes `postgresql://`; any other URL is unchanged |
| Database.NormalizeUrl | backend/database.py:15-20 | the result contains "sslmode", does not start with `postgres://`, and is the rewritten URL with or without `?sslmode=require` |
| Database.RewriteKeepsSslMode | backend/database.py:16-19 | the scheme rewrite neither creates nor destroys an occurrence of "sslmode" |
| Database.NormalizeUrlAppendsIffAbsent | backend/database.py:19-20 | `?sslmode=require` is appended iff "sslmode" occurs nowhere in the URL as given |
| Database.NormalizeUrlIdempotent | backend/database.py:16-20 | normalising a normalised URL leaves it unchanged |
| Database.NormalizeUrlKeepsBody | backend/database.py:16-20 | apart from the scheme and the optional suffix the URL's characters are kept in order |
| Database.Config.constructor | backend/database.py:10-39 | with DATABASE_URL unset or empty, `engine` and `SessionLocal` stay None; otherwise the URL is normalised and both are set iff the engine could be created |
| Database.Config.GetDb | backend/database.py:43-49 | raises "Database is not configured…" iff `SessionLocal` is None; otherwise a session bound to the engine |
| Database.UnconfiguredGetDb | backend/database.py:12-45 | with no DATABASE_URL, `get_db` raises instead of yielding a session |
| AuthStore.Initial | frontend/src/lib/stores/auth.js:4-16 | `token` holds the stored token only in a browser and only when it is present and non-empty, else null; `isAdmin` false, `username` and `userRank` null |
| AuthStore.SetPermissions | frontend/src/lib/stores/auth.js:22-32 | `isAdmin` is written whenever `is_admin` is defined (false and null too); `userRank` and `username` only for truthy values; `token` and localStorage never change |
| AuthStore.Cleared | frontend/src/lib/stores/auth.js:35-43 | every store is reset (`token`, `username`, `userRank` null, `isAdmin` false) and, in a browser, the `token` key is removed |
| AuthStore.ClearIdempotent | frontend/src/lib/stores/auth.js:35-43 | clearing twice equals clearing once |
| AuthStore.LogoutSurvivesReload | frontend/src/lib/stores/auth.js:10-43 | after a logout in the browser, a reload starts without a token |
| AuthStore.ClearForgetsPermissions | frontend/src/lib/stores/auth.js:22-43 | clearing after setting permissions gives the same state as clearing alone |
| AuthStore.Stores.constructor | frontend/src/lib/stores/auth.js:4-16 | module load leaves the stores as `Initial` says |
| AuthStore.Stores.SetPermissionsForUser | frontend/src/lib/stores/auth.js:22-32 | the stores change exactly as `SetPermissions` says |
| AuthStore.Stores.ClearAuth | frontend/src/lib/stores/auth.js:35-43 | the stores and localStorage change exactly as `Cleared` says |

## Left out

- Email delivery (`send_verification_email`, `send_password_reset_email`, backend/CRM/email_manager.py): HTTP calls to an outside service. Their outcome changes neither the store nor the reply of `register_user`, because failures there are caught and logged (main.py:228-232). The verification link is therefore not built.
- The fallback in `request_password_reset` (main.py:355-360): it runs when storage or email delivery raises, sends a second email with an unstored token, and can itself raise. Its failures come from outside the model. A reset-token collision on the unique `token` column is the one case kept: the commit fails, the handler swallows it, and the store is unchanged.
- `delete_user`, `request_password_reset_simple` and `verify_user_manual`: one-line store or notifier calls outside the authentication core. `get_current_user` is not used by any modelled route.
- bcrypt's salting and hashing, and JWT HS256 signing and verification: foreign library code. The properties relied on are hypotheses (`ChecksOwnHash`, `RejectsOtherPasswords`, `RoundTrips`), not proved facts. `RejectsOtherPasswords` is an idealisation that real bcrypt does not meet. bcrypt reads only the first 72 bytes of a password, so two passwords that share those bytes each check against the other's hash. The second half of `ChangePasswordTakesEffect` holds only under that idealisation.
- A `JWT_SECRET` that is missing at start-up: configuration. The codec is taken as already keyed.
- SQLAlchemy sessions, `create_engine`'s connection options, `create_all`, and main.py's `MockSession` version of `get_db` (main.py:52-59, 100-128): persistence plumbing. The tables are maps. Whether `create_engine` succeeds is the parameter `engineCreated`.
- FastAPI app construction, CORS, OAuth2 form parsing, and Pydantic/`EmailStr` validation (main.py:66-97, 178-200): transport plumbing.
- The other columns of `users` (`badges`, `role`, `reputation`, `wallet_address`, `user_rank`, `profile_complete`, `created_at`, `last_login`) and the reset table's integer `id`. Registration writes their column defaults, and the rows returned by `read_current_user` and `update_user` echo them. No authentication decision depends on them, so `User`, and the `UserRow` reply built from it, keep only six columns.
- Concurrency: `ip_request_counts` is shared between async requests. The model is sequential.
- RateLimit.StepRejection: time is whole seconds, so `int()` truncation of the wait is the identity and the bound is 1..60. With float seconds it would be 0..60.
- Accounts.ReadCurrentUser: a `username` claim that is truthy but not a string is taken to match no row; the SQL comparison of such a value is not modelled.
- Accounts.VerificationTokenSingleUse: assumes at most one user holds the token. `verification_token` has no unique constraint, and `.first()` may pick any holder.
- Accounts.RegisterThenLogin, Accounts.ResetWorkflow, Accounts.ChangePasswordTakesEffect: these hold only under the bcrypt hypotheses named above.
- Auth.IssuedTokenRoundTrip, Accounts.LoginTokenIdentifiesUser, Accounts.EmptyUsernameTokenRefused: these hold only under the JWT round-trip hypothesis `RoundTrips`. Accounts.LoginTokenIdentifiesUser is stated only for a non-empty username, because the source refuses the empty one.
- Python's `datetime` objects: times and `exp` are integer seconds. JavaScript `NaN` is left out of truthiness.
- `backend/reset_db.py` (a DROP TABLE script) and `backend/config.py` (library upload limits) are not part of this model.
