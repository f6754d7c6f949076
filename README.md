# Email-verified user accounts: a Dafny model

This project models the decision logic of a small Express application: sign-up with email verification, login, and admin user management. The model covers:

- **Email gateway.** Each route file keeps its own daily counter of emails sent through SendGrid (`emailsSentToday`) and the day that counter belongs to (`emailResetTime`). Once 95 primary sends have been counted that day, the gateway goes straight to Resend. A SendGrid failure falls back to Resend exactly once.
- **Verification tokens.** Sign-up issues a token with a 24-hour expiry. `/verify-email/:token` accepts the first record (in natural order) holding that token with an expiry strictly after now. It then verifies the account and clears the token. `/request-verification` answers "already verified" or "still pending for N minutes", or else stores a new token before sending it.
- **Sign-up and login.** The address pattern and the password length check. The ordered error list. The duplicate-email check. The login chain of checks, up to setting the session.
- **Admin routes and guards.** List, detail, role toggle, and delete with a self-delete guard. The four middleware guards.
- **The `tblUsers` schema.** Defaults, required fields, the role enum, the unique email index, and the `lowercase`/`trim` setters.

How the model is built:

- The store is a class `Store.UserStore` holding a `map<Id, User>`. Ids are allocated in insertion order, which stands for MongoDB's natural order. Its invariant `Valid()` is that every stored document passes schema validation and emails are unique.
- The handlers are methods of `AuthRouter`, `VerificationRouter` and module `AdminRoutes`. Each router owns its own `EmailGateway.Gateway`, so the two counters are independent objects.
- The handlers that decide or change state are proved against pure functions: `Send`, `Reset`, `Issue`, `Consume`, `DecideResend`, `Reissued`, `SignupErrors`, `CheckLogin`, `ToggleRole`, `ListUsers`. The listed properties are then proved about those functions. The store methods, `Logout`, `ShowUser` and `DeleteUser` state their new state or answer directly.

These are inputs to the model:

- the current time in milliseconds (`now`) and the calendar day (`today`, for `toDateString()`);
- each provider's success or failure;
- the bcrypt hash, and the bcrypt comparison (a function parameter);
- the random token;
- whether `session.destroy` succeeded.

## Model

| member | source | states |
|---|---|---|
| EmailGateway.Reset | routes/auth.js:17-24 | the counter restarts at 0 and the marker becomes today exactly when today differs from the marker; on the same day both are unchanged |
| EmailGateway.ResetIdempotent | routes/auth.js:17-24 | resetting twice on one day is the same as resetting once |
| EmailGateway.Gateway.ResetEmailCount | routes/auth.js:17-24 | the gateway's counter and marker become `Reset` of their old values |
| EmailGateway.Send | routes/auth.js:62-117 | at 95 or more only Resend is asked and the counter stays; otherwise SendGrid is asked first; its success adds exactly 1 and reports sent; its failure asks Resend exactly once, leaves the counter, and reports Resend's answer |
| EmailGateway.Gateway.SendViaResend | routes/auth.js:92-117 | one Resend request, whose failure is reported as not sent |
| EmailGateway.Gateway.SendVerificationEmail | routes/auth.js:37-89 | the answer, the provider calls and the new counter are exactly `Send` of the old counter |
| EmailGateway.CounterCountsPrimaryDeliveries | routes/auth.js:67-76 | over any run of sends on one day, the counter grows by exactly the number of SendGrid deliveries and never exceeds 95 |
| EmailGateway.LimitBoundary | routes/auth.js:68-76 | a success at 94 brings the counter to 95, and at 95 SendGrid is skipped |
| EmailGateway.Gateway.constructor | routes/verification.js:12-13 | a gateway starts at 0 on the day its module is loaded; each router constructs its own |
| Validation.ValidateEmail | routes/auth.js:27-30 | `validateEmail` as a left-to-right scan; its meaning is stated by the next three rows |
| Validation.ValidateEmailIsAddress | routes/auth.js:27-30 | `validateEmail` holds iff the string is L '@' R, with L and R non-empty and free of whitespace and '@', and R holding a '.' that is neither its first nor its last character |
| Validation.ValidateEmailMatchesPattern | routes/auth.js:28 | the scanner accepts exactly the strings of the literal three-group reading of `/^[^\s@]+@[^\s@]+\.[^\s@]+$/` |
| Validation.AddressMatchesPattern | routes/auth.js:28 | the L '@' R reading and the three-group reading of the pattern are equivalent |
| Validation.ValidEmailHasNoSpace | routes/auth.js:28 | an accepted address contains no `\s` character anywhere |
| Validation.ValidatePassword | routes/auth.js:32-34 | at least 8 characters always pass; a passing password has at least 4 characters, because `.length` counts UTF-16 units |
| Validation.ValidatePasswordBmp | routes/auth.js:32-34 | for text inside the Basic Multilingual Plane, the check holds iff the password has at least 8 characters |
| Text.Utf16Length | routes/auth.js:33 | `.length` lies between the number of code points and twice that |
| Text.Utf16LengthBmp | routes/auth.js:33 | without astral characters `.length` is the number of characters |
| Text.Trim | models/User.js:9 | the trimmed string has no `\s` at either end, and the input is exactly some `\s`, then the result, then only `\s` |
| Text.TrimFixed | models/User.js:9 | a string with no `\s` at either end is its own trim |
| Text.LowerTrimIdempotent | models/User.js:8-9 | applying the lowercase and trim setters a second time changes nothing |
| UserSchema.NormalizeEmail | models/User.js:8-9 | the `trim` and then `lowercase` setters applied to an email; its properties are the next three rows |
| UserSchema.NormalizeEmailIdempotent | models/User.js:4-10 | normalising an already stored email leaves it the same |
| UserSchema.NormalizeEmailIsNormal | models/User.js:8-9 | the setters' output has no `\s` at either end and no capital letter |
| UserSchema.NormalEmailIsFixed | models/User.js:8-9 | an email is normal iff the setters leave it unchanged |
| UserSchema.Conforms | models/User.js:4-23 | save-time validation: email present and in setter-normal form, password present, role in the enum |
| UserSchema.NewUser | models/User.js:15-43 | a new document gets the given email (normalised) and hash and the schema defaults: unverified, role "user", no lastVerificationEmailSent, count 0, createdAt now |
| UserSchema.NewUserConforms | models/User.js:4-23 | a new document passes validation iff its normalised email and its hash are non-empty |
| Store.TokenAccepts | routes/auth.js:220-223 | the token filter: the document holds that token and its expiry is strictly after now (`$gt`) |
| Store.FindFirst | routes/auth.js:220-223 | the result is the first id in natural order whose document matches the filter, or none when no document in range matches |
| Store.UserStore.FindOne | routes/auth.js:150 | `findOne` finds the first matching document, or none when no stored document matches |
| Store.UserStore.FindByEmailIsUnique | models/User.js:7 | with the unique index, an email lookup finds exactly the one document holding that email |
| Store.InsertKeepsEmailsUnique | models/User.js:7 | adding a document whose email is free keeps emails unique |
| Store.UserStore.Insert | routes/auth.js:179 | `save()` of a new document stores it under a fresh id iff it passes validation and its email is free; otherwise nothing changes |
| Store.UserStore.Save | routes/auth.js:237 | `save()` of a loaded document replaces exactly that document |
| Store.UserStore.FindByIdAndDelete | routes/admin.js:84 | removes exactly that id and returns the removed document, or none |
| Tokens.Issue | routes/auth.js:166-177 | the sign-up record is unverified and accepts a token iff it is the issued one and the time is before now + 24·60·60·1000 |
| Tokens.Consume | routes/auth.js:234-237 | verification sets `isVerified`, clears token and expiry, changes nothing else, and afterwards no token is accepted |
| Tokens.SecondUseFails | routes/auth.js:220-237 | once the only record holding a token is consumed, no lookup of that token succeeds, at any later time |
| Tokens.UpdateKeepsTokensConsistent | routes/auth.js:234-237 | storing a record that keeps "token and expiry set together; a verified user holds no token" keeps it store-wide |
| Tokens.RemoveKeepsTokensConsistent | routes/admin.js:84 | deleting a record keeps that invariant for the others |
| Tokens.CeilDiv | routes/verification.js:162 | `Math.ceil(n / d)`: the least q with n ≤ q·d |
| Tokens.DecideResend | routes/verification.js:147-168 | "already verified" iff verified; "pending" iff unverified with an expiry after now, with the minutes rounded up and at least 1; otherwise reissue |
| Tokens.Reissued | routes/verification.js:172-179 | a reissue sets the new token, expiry now + 24h, lastVerificationEmailSent now, and the count (0 if missing) plus 1, and changes nothing else |
| Tokens.ReissuedIsPending | routes/verification.js:157-173 | within 24 hours of a reissue the policy answers "pending" with between 1 and 1440 minutes |
| Tokens.ReissuedExpires | routes/verification.js:157-173 | 24 hours or more after a reissue the policy reissues again |
| AuthRoutes.SignupErrors | routes/auth.js:126-142 | each message is present iff its check fails: email, then password, then mismatch, in that order and nothing else |
| AuthRoutes.AuthRouter.Signup | routes/auth.js:120-211 | any validation error means no lookup, no write and no email. A registered email is rejected with the store unchanged. Otherwise the record is stored before the send, kept whatever the send reports, and the page follows the send |
| AuthRoutes.AuthRouter.VerifyEmail | routes/auth.js:214-248 | succeeds iff some document holds the token with an expiry after now; then exactly the first such document is consumed; otherwise the store is unchanged |
| AuthRoutes.CheckLogin | routes/auth.js:259-294 | rejects missing fields, then unknown email or wrong password with one shared message, then an unverified user with its own message; accepts iff every check passes |
| AuthRoutes.LoginDoesNotRevealAccounts | routes/auth.js:268-285 | an unknown email and a wrong password produce the identical answer |
| AuthRoutes.AuthRouter.Login | routes/auth.js:251-315 | the page follows `CheckLogin` on the document found for the email, and the session's userId and email are written only when it accepts |
| AuthRoutes.AuthRouter.Logout | routes/auth.js:318-330 | a destroyed session is emptied and the user goes to /; on failure the session stays and the user goes to /dashboard |
| VerificationRoutes.VerificationRouter.RequestVerification | routes/verification.js:120-211 | empty email gives an error and no change. Unknown email gives "not found" and no change. Otherwise the answer follows `DecideResend`: already verified and pending change nothing; reissue stores `Reissued` and then sends through this file's own counter |
| VerificationRoutes.VerificationRouter.ReissueAndSend | routes/verification.js:172-201 | the new token is saved before the send is attempted, so a failed send leaves it stored |
| Guards.IsLoggedIn | middleware/authMiddleware.js:3-9 | passes iff the session has a userId; otherwise redirects to /login |
| Guards.IsVerified | middleware/authMiddleware.js:11-17 | decides exactly as `isLoggedIn`, never reading the verification flag |
| Guards.IsNotLoggedIn | middleware/authMiddleware.js:19-25 | passes iff the session has no userId; otherwise redirects to /dashboard |
| Guards.IsAdminAsWritten | middleware/authMiddleware.js:27-48 | no session redirects to /login; every logged-in user, missing or present, is denied with 403 |
| Guards.AdminRoleDeniedAsWritten | middleware/authMiddleware.js:35 | a user whose role is "admin" is denied by the guard as written and admitted by the corrected one |
| Guards.IsAdmin | middleware/authMiddleware.js:27-41 | no session redirects to /login; passes iff the user exists with role "admin"; otherwise denies with 403 |
| AdminRoutes.ToggleRole | routes/admin.js:53 | the result is in the role enum, and it is "user" iff the old role was "admin" |
| AdminRoutes.ToggleTwice | routes/admin.js:52-54 | toggling twice restores a role of the enum |
| AdminRoutes.ToggleTwiceOutsideEnum | routes/admin.js:52-54 | outside the enum two toggles end at "user", not at the original |
| AdminRoutes.ToggleAdmin | routes/admin.js:42-67 | behind the guard: a missing id gives 404 and no change; otherwise only that document's role changes; there is no self-check |
| AdminRoutes.DeleteUser | routes/admin.js:70-98 | behind the guard: the caller's own id, in canonical form, is refused before any store call; a missing id gives 404; otherwise exactly that document is removed |
| AdminRoutes.Public | routes/admin.js:26 | `select('-password')`: the document's id and every path except the password |
| AdminRoutes.PublicDropsOnlyPassword | routes/admin.js:26 | two documents have the same view iff they differ at most in the password |
| AdminRoutes.InsertByNewest | routes/admin.js:10 | inserting into a newest-first sequence keeps it sorted and adds exactly that element |
| AdminRoutes.SortByNewest | routes/admin.js:10 | `sort({ createdAt: -1 })`: newest first, and a permutation of its input |
| AdminRoutes.Natural | routes/admin.js:10 | each password-less view of a document in the id range occurs exactly once, and nothing else occurs |
| AdminRoutes.ListUsers | routes/admin.js:10 | newest first; every stored user exactly once, without the password; nothing else |
| AdminRoutes.ListAllUsers | routes/admin.js:7-20 | behind the guard, the page lists `ListUsers` of the store |
| AdminRoutes.ShowUser | routes/admin.js:23-39 | behind the guard, the password-less document, or "User not found" |
| Scenarios.SampleEmailIsValid | routes/auth.js:27-30 | "a@b.com" passes `validateEmail` |
| Scenarios.SamplePasswordIsValid | routes/auth.js:32-34 | "12345678" passes `validatePassword` |
| Scenarios.SampleSignupIsClean | routes/auth.js:126-147 | the sample form produces no validation error, and its address is stored as typed |
| Scenarios.ValidEmailStoresNonEmpty | routes/auth.js:128 | an address that passes the pattern check is stored non-empty, so sign-up's record passes validation |
| Scenarios.SignupThenResend | routes/verification.js:157-168 | a clean sign-up (address in any letter case, non-empty hash) on an empty store with SendGrid succeeding, then an immediate resend request: the resend answers pending for 1440 minutes; the sign-up route's counter is 1, because SendGrid delivered, and the resend route's is 0 |

## Left out

- HTTP, page rendering, JSON bodies and `console.log` are left out. Handler results are outcome datatypes that carry the messages and statuses.
- SendGrid and Resend calls are not modelled. Each is a success or failure input. The HTML body and the verification URL are not modelled.
- `bcrypt.hash` and `bcrypt.compare` are not modelled. The hash is given, and the comparison is a function parameter.
- `crypto.randomBytes` is not modelled. The token is a parameter. The model does not assume tokens are distinct; `SecondUseFails` names that assumption.
- Wall-clock time and `toDateString()` are not modelled. Time is integer milliseconds and the day is an integer. `lastVerificationEmailSent` and the expiry use the one `now`, where the source calls `Date.now()` and `new Date()` separately.
- The `catch` branches are left out: a database error, a bad ObjectId cast, or a throw inside the handlers. Those produce the generic "An error occurred" and 500 responses. `Insert` refusing a document stands in for a failed `save()` at sign-up.
- Concurrency is left out. That includes the race between the duplicate check and the unique index, and unsynchronised counters across requests. Each handler is one sequential step.
- Validation.ValidatePassword: its contract gives only the bounds (8 characters always pass, a passing password has at least 4), not an exact iff. The exact iff holds for text in the Basic Multilingual Plane, where `ValidatePasswordBmp` proves it. Astral characters count twice in `.length`.
- NormalizeEmail: lowercasing covers ASCII letters only. JavaScript's full Unicode case mapping is not modelled.
- Validation.ValidateEmail: the regex runs per UTF-16 unit while the model scans code points. No character outside the BMP is `\s` or '@', so the answers agree.
- The duplicate `/verify-email/:token` handler at routes/verification.js:213-248 is not modelled separately. It is identical to routes/auth.js:214-248, and it is never reached, because `authRoutes` is registered first (server.js:47,49).
- GET `/verify-account` (routes/verification.js:109-117) is not modelled. It only renders a page.
- `server.js` and `routes/pages.js` are not part of this model. They are application wiring and page renders behind the guards already modelled.
- AdminRoutes.SortByNewest: the order among users with the same `createdAt` is not modelled. The sort is proved sorted and a permutation, which is all the query promises.
- Guards.IsAdmin is the corrected guard, and the admin handlers use it (see Findings). The guard as written is `Guards.IsAdminAsWritten`.
- AdminRoutes.DeleteUser: the path id and the session id are one `Id`, so ids are compared in canonical form. The source compares strings (routes/admin.js:76) and then casts the path string to an ObjectId (line 84). Hex digits cast case-insensitively, so an admin's own id spelled in upper case would pass the self-check and delete their own record. The model does not capture that bypass.
- Form fields are modelled as absent or a string. The body parsers (server.js:21-22) also accept objects and arrays, and `findOne({ email })` reads an object such as `{"$ne": null}` as a query operator. Such an operator filter can match an arbitrary document at routes/verification.js:135 and routes/auth.js:266. Sign-up is not exposed. Its pattern check at routes/auth.js:128 tests an object as the text "[object Object]", which has no '@'. So the handler returns with an error before its lookup at line 150. Operator filters are not modelled.
- Scenarios.SignupThenResend: the scenario is stated for any clean form, with the address in any letter case, and a non-empty hash; bcrypt never returns an empty one. The sample form is shown clean separately, by `SampleSignupIsClean`.

## Findings

| source | as written | input that shows it | evidently intended | confidence | as-written member | corrected member |
|---|---|---|---|---|---|---|
| middleware/authMiddleware.js:35 | `isAdmin` denies whenever `user.isAdmin` is falsy, but the schema (models/User.js:3-44) declares no `isAdmin` path, so the read is always `undefined` | a logged-in user whose document has `role: 'admin'` is answered 403 "Access Denied" | admit exactly the users whose `role` is `'admin'`, the only place the schema keeps admin status | high (Mongoose leaves undeclared paths undefined in strict mode); not executed | Guards.IsAdminAsWritten, Guards.AdminRoleDeniedAsWritten | Guards.IsAdmin |
