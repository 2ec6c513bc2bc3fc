# Email/password authentication: a verified model

This project models the core of a small web authentication service: the
server's credential and token lifecycle (signup, email verification with a
six-digit code, login, logout, forgot-password with a one-hour reset token,
password reset, session check), the browser-side store that mirrors the
signed-in state, and the reset-password page's submit guard and
https-to-http redirect.

Modules, one concern each:

- `Wrappers` — `Option`, for JavaScript fields that may be absent.
- `Users` — the stored user record, the sanitized record sent to clients,
  the document store's `findOne` as "the first record satisfying the query",
  the bcrypt collaborator as an opaque `hash` function with
  `Matches(p, d) := hash(p) == d`, and the store invariant `WellFormed`
  (emails unique, every token stored with its expiry).
- `Tokens` — the verification code (an integer draw in [100000, 999999]
  written as six decimal digits) and the reset token (twenty random bytes
  written as forty lower-case hex digits), with their read-back lemmas.
- `AuthSpec` — each handler as a pure function from the store and the request
  (plus the clock, the random draw and how the email send ended) to the HTTP
  response and the store after the handler's saves.
- `AuthProperties` — properties over several calls: the invariant each
  handler keeps, failures that look alike, tokens that work once,
  credentials that work after signup and after reset.
- `AuthController` — the handlers as the source runs them: a `UserTable`
  class whose methods look a record up, assign its fields one at a time and
  save it back; each method is proved equal to its `AuthSpec` function and to
  keep the table well formed.
- `AuthStore` — the client store as a class with its six fields
  (`user`, `isAuthenticated`, `error`, `isLoading`, `isCheckingAuth`,
  `message`) and one method per action, each taking the outcome of its HTTP
  call (`Ok(data)` or `Err(server message)`). Every action keeps the store's
  invariant that no user is held while it says nobody is signed in.
- `ResetPage` — the submit check and the redirect address.

Behaviour of the source that the model keeps on purpose:

- In `signup` and `resetPassword`, a missing request field and an empty one
  are the same (both are falsy to the handlers' `!field` tests); both are the
  empty string here. The other handlers test nothing and pass their fields on
  as they are; for them only present string fields are modelled.
- Six-digit codes can collide. Verification picks the first unexpired record
  holding the code, so "a code works once" is proved for the record it
  verified, and "a second use fails" when no other record holds that code.
  The same holds for reset tokens.
- Signup saves the record and sets the session cookie before it sends the
  verification email. When that send fails the answer is a 400 carrying the
  mail error's message, yet the record stays and the cookie is set.
- A failed welcome email after verification gives 500 "Server error", and a
  failed confirmation email after a reset gives 500 "Error resetting
  password". In both cases the record was already updated. A failed reset
  email in forgot-password is only logged.
- The forgot-password answer includes `resetURL` with the live token in it.
  So whoever knows a registered email can set a new password from the answer
  alone (`ForgotResponseDisclosesToken`). When no other record already held
  the fresh token, the account changed is the one whose email was given.
- Login does not look at `isVerified`: unverified accounts can log in.

## Model

| member | source | states |
|---|---|---|
| `Users.Sanitize` | backend/controllers/auth.controller.js:45-48 | the user sent back keeps every field of the record except the password, which has no place in the result type |
| `Users.SanitizeHidesPassword` | backend/controllers/auth.controller.js:108-111 | two records that differ only in their digest are sent back identically |
| `Users.Matches` | backend/controllers/auth.controller.js:95 | a password is accepted whenever its digest is the stored one (bcrypt compare as equality of digests) |
| `Users.Satisfies` | backend/controllers/auth.controller.js:58-61 | a record satisfies a code or token query only when it holds that code or token and an expiry, and never once that expiry is at or before now (`$gt: Date.now()`); the email query is equality of email |
| `Users.FindOne` | backend/controllers/auth.controller.js:58-61 | the result is the first record matching the query (email equal; or token equal with expiry strictly after now), and none exactly when no record matches |
| `Users.FindOneAppend` | backend/controllers/auth.controller.js:20-36 | saving a new record changes no earlier lookup; the new one is found only when nothing before it matches |
| `Users.FindByOwnEmail` | backend/controllers/auth.controller.js:91 | with unique emails, the lookup by a record's email finds that record |
| `Tokens.DecimalString` | backend/controllers/auth.controller.js:28 | `toString` of a number gives a non-empty digit string with no leading zero |
| `Tokens.ParseDecimalString` | backend/controllers/auth.controller.js:28 | the decimal string reads back as the number |
| `Tokens.DecimalLength` | backend/controllers/auth.controller.js:28 | a number in [10^k, 10^(k+1)) has k+1 digits |
| `Tokens.VerificationCode` | backend/controllers/auth.controller.js:28 | the stored code for a draw in [100000, 999999] is six digits with no leading zero and denotes the draw |
| `Tokens.Hex` | backend/controllers/auth.controller.js:133 | hex encoding gives two hex digits per byte |
| `Tokens.UnhexHex` | backend/controllers/auth.controller.js:133 | the bytes can be read back from their hex encoding |
| `Tokens.ResetToken` | backend/controllers/auth.controller.js:133 | the reset token for twenty bytes is forty hex digits |
| `AuthSpec.Signup` | backend/controllers/auth.controller.js:12-53 | a record is added exactly when all fields are present and the email is new; existing records are untouched; the new record stores hash(password), the six-digit code expiring now + 86 400 000, unverified, no reset token; 201 with the sanitized record and a session for it exactly when the mail went out; a failed send gives 400 with its message but keeps the record and the cookie |
| `AuthSpec.NewUser` | backend/controllers/auth.controller.js:29-35 | the new record is unverified, holds no reset token or last login, and its code matches exactly until its expiry |
| `AuthSpec.VerifyEmail` | backend/controllers/auth.controller.js:55-86 | with no record holding the code unexpired: 400 "Invalid or expired verification code", store unchanged; otherwise that first record becomes verified with both code fields cleared, and the answer is 200 with it, or 500 when the welcome mail fails |
| `AuthSpec.Login` | backend/controllers/auth.controller.js:88-117 | 200 exactly when the email is known and the password matches its digest; every other case is the one 400 "Invalid credentials" with the store unchanged; success sets only lastLogin to now and opens a session for that record |
| `AuthSpec.Logout` | backend/controllers/auth.controller.js:119-122 | always 200, clears the cookie |
| `AuthSpec.ResetUrl` | backend/controllers/auth.controller.js:151 | the link is baseUrl, then "/reset-password/", then the token, and nothing else |
| `AuthSpec.ForgotPassword` | backend/controllers/auth.controller.js:124-174 | unknown email: 400 "User not found", store unchanged; otherwise the record gets the token and expiry now + 3 600 000 and the answer is 200 with resetURL = baseUrl + "/reset-password/" + token |
| `AuthSpec.ResetPassword` | backend/controllers/auth.controller.js:176-220 | empty password: 400 before any lookup; no record holding the token unexpired: 400 "Invalid or expired reset token", store unchanged; otherwise that record gets hash(new password) and both reset fields cleared, answer 200, or 500 when the confirmation mail fails |
| `AuthSpec.CheckAuth` | backend/controllers/auth.controller.js:222-234 | 200 with the sanitized record exactly when the session's user exists, otherwise 400 "User not found" |
| `AuthProperties.SignupMissingField` | backend/controllers/auth.controller.js:16-18 | a missing field gives 400 "All fields are required", the same whatever the store holds, and saves nothing |
| `AuthProperties.SignupDuplicate` | backend/controllers/auth.controller.js:20-25 | a registered email gives 400 "User already exists" and the store is unchanged |
| `AuthProperties.SignupPreservesWellFormed` | backend/controllers/auth.controller.js:20-36 | signup keeps emails unique and tokens paired with expiries |
| `AuthProperties.SignupThenLogin` | backend/controllers/auth.controller.js:27-36 | after signing up with a new email, login with the same email and password succeeds as the new record |
| `AuthProperties.VerifyPreservesWellFormed` | backend/controllers/auth.controller.js:67-70 | verification keeps the store well formed |
| `AuthProperties.UnknownAndExpiredCodesLookAlike` | backend/controllers/auth.controller.js:58-64 | a code never issued and a code past its expiry get the identical 400 answer |
| `AuthProperties.VerifyConsumesCode` | backend/controllers/auth.controller.js:67-70 | after a verification the record is verified and matches no code at any time; the same code later finds at most another record that held it |
| `AuthProperties.VerifyTwiceFails` | backend/controllers/auth.controller.js:58-70 | when no other record holds the code, a second verification with it fails |
| `AuthProperties.LoginPreservesWellFormed` | backend/controllers/auth.controller.js:102-103 | login keeps the store well formed |
| `AuthProperties.UnknownEmailAndWrongPasswordLookAlike` | backend/controllers/auth.controller.js:91-98 | an unknown email and a wrong password for a known email give the identical answer and store |
| `AuthProperties.ForgotPreservesWellFormed` | backend/controllers/auth.controller.js:136-139 | forgot-password keeps the store well formed |
| `AuthProperties.ForgotIgnoresMailFailure` | backend/controllers/auth.controller.js:154-166 | a failed reset email changes neither the answer nor the store |
| `AuthProperties.ResetMissingPassword` | backend/controllers/auth.controller.js:181-186 | an empty password gives 400 "Password is required", the same whatever the store holds, and changes nothing |
| `AuthProperties.ResetPreservesWellFormed` | backend/controllers/auth.controller.js:200-205 | reset keeps the store well formed |
| `AuthProperties.ForgotThenReset` | backend/controllers/auth.controller.js:133-139 | the issued token resets a password at any time strictly before its hour is up |
| `AuthProperties.ForgotResponseDisclosesToken` | backend/controllers/auth.controller.js:162-166 | the forgot-password answer holds the live token after baseUrl + "/reset-password/", and using it is never refused as invalid; when no other record held that token, it sets the asking account's password to the new digest and clears its token |
| `AuthProperties.ResetConsumesToken` | backend/controllers/auth.controller.js:202-205 | after a reset the record holds no token; the same token later finds at most another record that held it |
| `AuthProperties.ResetTwiceFails` | backend/controllers/auth.controller.js:188-205 | when no other record holds the token, a second reset with it fails |
| `AuthProperties.ResetThenLogin` | backend/controllers/auth.controller.js:200-205 | after a reset the new password logs the owner in and an old password with a different digest is refused |
| `AuthController.UserTable.constructor` | backend/controllers/auth.controller.js:20 | the table starts empty, well formed, with the given password hash |
| `AuthController.UserTable.Signup` | backend/controllers/auth.controller.js:12-53 | the in-place handler gives exactly the response and store of `AuthSpec.Signup` and keeps the table well formed |
| `AuthController.UserTable.VerifyEmail` | backend/controllers/auth.controller.js:55-86 | the in-place handler gives exactly the response and store of `AuthSpec.VerifyEmail` and keeps the table well formed |
| `AuthController.UserTable.Login` | backend/controllers/auth.controller.js:88-117 | the in-place handler gives exactly the response and store of `AuthSpec.Login` and keeps the table well formed |
| `AuthController.UserTable.Logout` | backend/controllers/auth.controller.js:119-122 | answers as `AuthSpec.Logout` and leaves the table alone |
| `AuthController.UserTable.ForgotPassword` | backend/controllers/auth.controller.js:124-174 | the in-place handler gives exactly the response and store of `AuthSpec.ForgotPassword` and keeps the table well formed |
| `AuthController.UserTable.ResetPassword` | backend/controllers/auth.controller.js:176-220 | the in-place handler gives exactly the response and store of `AuthSpec.ResetPassword` and keeps the table well formed |
| `AuthController.UserTable.CheckAuth` | backend/controllers/auth.controller.js:222-234 | answers as `AuthSpec.CheckAuth` without changing the table |
| `AuthStore.ErrorText` | frontend/vite-project/src/store/authStore.js:38 | the error is the server's message when there is a non-empty one, otherwise the action's default text |
| `AuthStore.AuthStore.constructor` | frontend/vite-project/src/store/authStore.js:24-29 | starts with no user, not authenticated, no error, not loading, checking auth, no message; the invariant "no user held while not authenticated" holds from here on and every action keeps it |
| `AuthStore.AuthStore.Begin` | frontend/vite-project/src/store/authStore.js:32 | before the call: loading, no error, and no message when asked; user, isAuthenticated and isCheckingAuth untouched |
| `AuthStore.AuthStore.Fail` | frontend/vite-project/src/store/authStore.js:37-41 | on failure: error is the server message or the default, loading ends, a fresh error with that text is thrown, nothing else changes |
| `AuthStore.AuthStore.SignIn` | frontend/vite-project/src/store/authStore.js:35 | on success of signup, login or verify: user is the response's user, authenticated, loading ends |
| `AuthStore.AuthStore.Signup` | frontend/vite-project/src/store/authStore.js:31-42 | posts the three fields to /signup; success signs the response's user in; failure sets the error (default "Error signing up") and keeps user and isAuthenticated; loading always ends |
| `AuthStore.AuthStore.Login` | frontend/vite-project/src/store/authStore.js:44-60 | posts to /login; success signs the user in with no error; failure sets the error (default "Error logging in") and keeps user and isAuthenticated; loading always ends |
| `AuthStore.AuthStore.Logout` | frontend/vite-project/src/store/authStore.js:62-72 | posts to /logout; success clears user and isAuthenticated; failure sets the error (default "Error logging out"); loading always ends |
| `AuthStore.AuthStore.VerifyEmail` | frontend/vite-project/src/store/authStore.js:74-85 | posts the code to /verify-email; success signs the response's user in; failure sets the error (default "Error verifying email"); loading always ends |
| `AuthStore.AuthStore.ForgotPassword` | frontend/vite-project/src/store/authStore.js:87-98 | clears message first; success sets message to the server's; failure sets the error (default "Error sending reset password email"); user and isAuthenticated never change; loading always ends |
| `AuthStore.AuthStore.ResetPassword` | frontend/vite-project/src/store/authStore.js:100-111 | posts the password to /reset-password/ + token; clears message first; success sets message to the server's; failure sets the error (default "Error resetting password"); user and isAuthenticated never change |
| `AuthStore.AuthStore.CheckAuth` | frontend/vite-project/src/store/authStore.js:113-130 | never touches isLoading, error or message; always ends the auth check; success signs the user in; failure signs out and rethrows the call's own error |
| `ResetPage.CheckSubmit` | frontend/vite-project/src/pages/ResetPasswordPage.jsx:44-52 | accepted exactly when the passwords match and are at least 6 long; any mismatch is reported as a mismatch; matching but shorter is too short |
| `ResetPage.MismatchReportedFirst` | frontend/vite-project/src/pages/ResetPasswordPage.jsx:44-47 | a mismatched pair, short or not, shows "Passwords do not match" |
| `ResetPage.RefusalText` | frontend/vite-project/src/pages/ResetPasswordPage.jsx:44-52 | a mismatch shows "Passwords do not match" and a short password "Password must be at least 6 characters long"; the two toasts differ |
| `ResetPage.HandleSubmit` | frontend/vite-project/src/pages/ResetPasswordPage.jsx:41-64 | the store's resetPassword is called, with the token and the password, exactly when the check accepts; a refusal shows its toast and leaves the store unchanged; an accepted submit ends with the store's resetPassword state (message set from the reply, or the error set and thrown), isCheckingAuth, user and isAuthenticated untouched |
| `ResetPage.PortSuffix` | frontend/vite-project/src/pages/ResetPasswordPage.jsx:23 | no port gives nothing; a port gives ":" followed by exactly that port |
| `ResetPage.HttpUrl` | frontend/vite-project/src/pages/ResetPasswordPage.jsx:23-24 | the rewritten address is the current host, port (when there is one) and path under "http:" |
| `ResetPage.RedirectTarget` | frontend/vite-project/src/pages/ResetPasswordPage.jsx:18-28 | a redirect happens exactly when the protocol is "https:", and goes to the http address of the same place |
| `ResetPage.RedirectSettles` | frontend/vite-project/src/pages/ResetPasswordPage.jsx:18-28 | the page reached over http does not redirect again |

## Left out

- Persistence and the database driver: the store is an in-memory sequence and a record's position stands for its `_id`. Failures of `save` or of a query, and the catch blocks that only they reach, are not modelled; only the email-send failures are.
- The user schema file is not part of this model. Its defaults are left out except one: a new record is taken to start with `isVerified` false, which `signup` does not set itself (auth.controller.js:29-35). The `createdAt`/`updatedAt`/`_id`/`__v` fields are left out, and a new record has no `lastLogin`.
- bcrypt: `hash` is a deterministic opaque function parameter. Salting, the cost factor and the 72-byte input limit are not modelled.
- `Math.random()` is floating point; signup takes the integer draw in [100000, 999999] instead. `crypto.randomBytes(20)` becomes the twenty bytes as a parameter.
- `generateTokenAndSetCookie` is not part of this model: the response records only which user id the session cookie names, or that it is cleared. JWT signing, cookie flags and expiry are left out. `checkAuth` receives the user id the session middleware decoded; that middleware is not part of this model.
- AuthSpec.Login: a field absent from the body reaches `bcryptjs.compare` (or `findOne`) as `undefined`; the rejection that follows and the catch at auth.controller.js:113-116, answering 400 with the thrown message, are not modelled.
- AuthSpec.VerifyEmail: the code is passed to `findOne` untested; an absent code is not modelled.
- AuthSpec.ForgotPassword: the email is passed to `findOne` untested; an absent email is not modelled.
- ResetPage.HttpUrl: the path comes from react-router's `useLocation()` (ResetPasswordPage.jsx:15, 24) and the rest from `window.location`; the two are taken to agree, with no router base path.
- Request bodies are strings. Non-string JSON values (numbers, objects, arrays) are not modelled.
- The environment-based choice of `baseUrl` (auth.controller.js:142-149) and `getApiUrl` (authStore.js:5-15): `baseUrl` is a parameter and request paths are relative to the API base.
- Logging, email templates and sending (only the send's outcome is a parameter), toasts, `setTimeout` navigation, the React component state and rendering, and the assignment to `window.location.href` itself.
- AuthStore.AuthStore.Signup: the state while the call is in flight is `Begin`'s postcondition. The action's own contract states only the state after the call; the same holds for the other five actions that call `Begin`.
- AuthStore.Payload keeps only the `user` and `message` fields of a response body that the store reads.
- ResetPage.CheckSubmit: the length is counted in characters; JavaScript's `length` counts UTF-16 code units, which differ for characters outside the Basic Multilingual Plane.
- Concurrent requests on the same record and overlapping client actions.
- The server wiring in backend/index.js (Express, CORS, cookie parsing, static files).
