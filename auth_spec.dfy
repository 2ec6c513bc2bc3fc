/**
 * The seven request handlers of the authentication controller as pure steps:
 * each takes the user store and the request (plus the clock, the random draw
 * and the outcome of the email send, which the handler cannot choose) and
 * yields the HTTP response together with the store after the handler's saves.
 *
 * Request fields are strings. signup and resetPassword test their fields for
 * truthiness, so for them the empty string also stands for an absent field;
 * the other handlers pass fields on untested, and an absent field there is
 * not modelled.
 */
module AuthSpec {
  import opened Wrappers
  import opened Users
  import opened Tokens

  /** `24 * 60 * 60 * 1000`: a verification code lives one day. */
  const VerificationLifetime: int := 24 * 60 * 60 * 1000
  /** `1 * 60 * 60 * 1000`: a reset token lives one hour. */
  const ResetLifetime: int := 1 * 60 * 60 * 1000

  const AllFieldsRequired := "All fields are required"
  const UserAlreadyExists := "User already exists"
  const UserCreated := "User created successfully"
  const InvalidVerificationCode := "Invalid or expired verification code"
  const EmailVerified := "Email verified successfully"
  const ServerError := "Server error"
  const InvalidCredentials := "Invalid credentials"
  const LoggedIn := "Logged in successfully"
  const LoggedOut := "Logged out successfully"
  const UserNotFound := "User not found"
  const ResetLinkSent := "Password reset link sent to your email"
  const PasswordRequired := "Password is required"
  const InvalidResetToken := "Invalid or expired reset token"
  const ResetSuccessful := "Password reset successful"
  const ErrorResettingPassword := "Error resetting password"

  /** How the awaited email send ended; a failure carries the error's message. */
  datatype Mail = Delivered | Undelivered(reason: string)

  /** What the response does to the session cookie. */
  datatype Cookie = Untouched | SetSession(userId: nat) | Cleared

  /** The status code and the JSON body `{ success, message, user, resetURL }`. */
  datatype Response = Response(
    status: nat,
    success: bool,
    message: Option<string>,
    user: Option<PublicUser>,
    resetURL: Option<string>,
    cookie: Cookie)

  datatype Step = Step(response: Response, users: seq<User>)

  function Failure(status: nat, text: string): Response
  {
    Response(status, false, Some(text), None, None, Untouched)
  }

  /** `success` is true exactly on 2xx answers, only those carry a user, and
      every failure says why. */
  predicate Consistent(r: Response)
  {
    (r.success <==> 200 <= r.status < 300) &&
    (r.user.Some? ==> r.success) &&
    (!r.success ==> r.message.Some?)
  }

  /** The record `signup` creates. The handler does not set `isVerified`; the
      record starts unverified because the schema's default is taken to be
      false. The code matches exactly until its expiry. */
  function NewUser(email: string, digest: Digest, name: string, code: string, expiresAt: int): (u: User)
    ensures !u.isVerified && TokensPaired(u)
    ensures u.resetPasswordToken.None? && u.lastLogin.None?
    ensures forall t :: Satisfies(u, ByVerificationCode(code, t)) <==> t < expiresAt
  {
    User(email, digest, name, false, Some(code), Some(expiresAt), None, None, None)
  }

  /** POST /signup. `draw` is the integer the random code generator produced. */
  function Signup(users: seq<User>, hash: string -> Digest, email: string, password: string,
                  name: string, now: int, draw: int, mail: Mail): (s: Step)
    requires MinCode <= draw <= MaxCode
    ensures Consistent(s.response)
    ensures s.users == users || (|s.users| == |users| + 1 && s.users[..|users|] == users)
    ensures |s.users| != |users| <==>
      email != "" && password != "" && name != "" && FindOne(users, ByEmail(email)).None?
    ensures |s.users| != |users| ==>
      var u := s.users[|users|];
      u.email == email && u.password == hash(password) && u.name == name && !u.isVerified &&
      u.verificationToken == Some(VerificationCode(draw)) &&
      u.verificationTokenExpiresAt == Some(now + VerificationLifetime) &&
      u.resetPasswordToken.None? && u.resetPasswordExpiresAt.None? && u.lastLogin.None?
    ensures s.response.status == 201 <==> |s.users| != |users| && mail.Delivered?
    ensures s.response.status == 201 ==>
      s.response.user == Some(Sanitize(s.users[|users|])) && s.response.cookie == SetSession(|users|)
    ensures s.response.status != 201 ==> s.response.status == 400
    ensures |s.users| == |users| ==> s.response.cookie == Untouched
    ensures |s.users| != |users| && mail.Undelivered? ==>
      s.response == Response(400, false, Some(mail.reason), None, None, SetSession(|users|))
  {
    if email == "" || password == "" || name == "" then
      Step(Failure(400, AllFieldsRequired), users)
    else if FindOne(users, ByEmail(email)).Some? then
      Step(Failure(400, UserAlreadyExists), users)
    else
      var u := NewUser(email, hash(password), name, VerificationCode(draw), now + VerificationLifetime);
      var users' := users + [u];
      assert users'[..|users|] == users;
      match mail
      case Delivered =>
        Step(Response(201, true, Some(UserCreated), Some(Sanitize(u)), None, SetSession(|users|)), users')
      case Undelivered(reason) =>
        Step(Response(400, false, Some(reason), None, None, SetSession(|users|)), users')
  }

  /** POST /verify-email. */
  function VerifyEmail(users: seq<User>, code: string, now: int, mail: Mail): (s: Step)
    ensures Consistent(s.response)
    ensures |s.users| == |users|
    ensures FindOne(users, ByVerificationCode(code, now)).None? ==>
      s == Step(Failure(400, InvalidVerificationCode), users)
    ensures FindOne(users, ByVerificationCode(code, now)).Some? ==>
      var i := FindOne(users, ByVerificationCode(code, now)).value;
      s.users == users[i := users[i].(isVerified := true, verificationToken := None,
                                      verificationTokenExpiresAt := None)] &&
      s.response.status == (if mail.Delivered? then 200 else 500) &&
      (mail.Delivered? ==> s.response.user == Some(Sanitize(s.users[i])))
  {
    match FindOne(users, ByVerificationCode(code, now))
    case None => Step(Failure(400, InvalidVerificationCode), users)
    case Some(i) =>
      var u := users[i].(isVerified := true, verificationToken := None, verificationTokenExpiresAt := None);
      var users' := users[i := u];
      if mail.Delivered? then
        Step(Response(200, true, Some(EmailVerified), Some(Sanitize(u)), None, Untouched), users')
      else
        Step(Failure(500, ServerError), users')
  }

  /** The password check of `login`: the email is known and the password
      matches the stored digest. */
  predicate LoginAccepted(users: seq<User>, hash: string -> Digest, email: string, password: string)
  {
    FindOne(users, ByEmail(email)).Some? &&
    Matches(hash, password, users[FindOne(users, ByEmail(email)).value].password)
  }

  /** POST /login. */
  function Login(users: seq<User>, hash: string -> Digest, email: string, password: string,
                 now: int): (s: Step)
    ensures Consistent(s.response)
    ensures s.response.status == 200 <==> LoginAccepted(users, hash, email, password)
    ensures s.response.status != 200 ==> s == Step(Failure(400, InvalidCredentials), users)
    ensures s.response.status == 200 ==>
      var i := FindOne(users, ByEmail(email)).value;
      s.users == users[i := users[i].(lastLogin := Some(now))] &&
      s.response.user == Some(Sanitize(s.users[i])) && s.response.cookie == SetSession(i)
  {
    match FindOne(users, ByEmail(email))
    case None => Step(Failure(400, InvalidCredentials), users)
    case Some(i) =>
      if !Matches(hash, password, users[i].password) then
        Step(Failure(400, InvalidCredentials), users)
      else
        var u := users[i].(lastLogin := Some(now));
        Step(Response(200, true, Some(LoggedIn), Some(Sanitize(u)), None, SetSession(i)), users[i := u])
  }

  /** POST /logout: clears the cookie and always succeeds. */
  function Logout(): (r: Response)
    ensures Consistent(r)
    ensures r.status == 200 && r.cookie == Cleared && r.user.None?
  {
    Response(200, true, Some(LoggedOut), None, None, Cleared)
  }

  /** The link mailed by `forgotPassword`. */
  function ResetUrl(baseUrl: string, token: string): (url: string)
    ensures |url| == |baseUrl| + 16 + |token|
    ensures url[..|baseUrl|] == baseUrl && url[|baseUrl|..|baseUrl| + 16] == "/reset-password/"
    ensures url[|baseUrl| + 16..] == token
  {
    baseUrl + "/reset-password/" + token
  }

  /** POST /forgot-password. `bytes` are the twenty random bytes drawn for the
      token; `baseUrl` is the client address the environment selects. */
  function ForgotPassword(users: seq<User>, email: string, bytes: seq<Byte>, now: int,
                          baseUrl: string, mail: Mail): (s: Step)
    requires |bytes| == ResetTokenBytes
    ensures Consistent(s.response)
    ensures |s.users| == |users|
    ensures FindOne(users, ByEmail(email)).None? ==> s == Step(Failure(400, UserNotFound), users)
    ensures FindOne(users, ByEmail(email)).Some? ==>
      var i := FindOne(users, ByEmail(email)).value;
      s.users == users[i := users[i].(resetPasswordToken := Some(ResetToken(bytes)),
                                      resetPasswordExpiresAt := Some(now + ResetLifetime))] &&
      s.response.status == 200 &&
      s.response.resetURL == Some(ResetUrl(baseUrl, ResetToken(bytes)))
  {
    match FindOne(users, ByEmail(email))
    case None => Step(Failure(400, UserNotFound), users)
    case Some(i) =>
      var token := ResetToken(bytes);
      var u := users[i].(resetPasswordToken := Some(token), resetPasswordExpiresAt := Some(now + ResetLifetime));
      // A failed send is only logged: `mail` has no bearing on the answer.
      Step(Response(200, true, Some(ResetLinkSent), None, Some(ResetUrl(baseUrl, token)), Untouched), users[i := u])
  }

  /** POST /reset-password/:token. */
  function ResetPassword(users: seq<User>, hash: string -> Digest, token: string, password: string,
                         now: int, mail: Mail): (s: Step)
    ensures Consistent(s.response)
    ensures |s.users| == |users|
    ensures password == "" ==> s == Step(Failure(400, PasswordRequired), users)
    ensures password != "" && FindOne(users, ByResetToken(token, now)).None? ==>
      s == Step(Failure(400, InvalidResetToken), users)
    ensures password != "" && FindOne(users, ByResetToken(token, now)).Some? ==>
      var i := FindOne(users, ByResetToken(token, now)).value;
      s.users == users[i := users[i].(password := hash(password), resetPasswordToken := None,
                                      resetPasswordExpiresAt := None)] &&
      s.response.status == (if mail.Delivered? then 200 else 500)
  {
    if password == "" then
      Step(Failure(400, PasswordRequired), users)
    else
      match FindOne(users, ByResetToken(token, now))
      case None => Step(Failure(400, InvalidResetToken), users)
      case Some(i) =>
        var u := users[i].(password := hash(password), resetPasswordToken := None, resetPasswordExpiresAt := None);
        if mail.Delivered? then
          Step(Response(200, true, Some(ResetSuccessful), None, None, Untouched), users[i := u])
        else
          Step(Failure(500, ErrorResettingPassword), users[i := u])
  }

  /** GET /check-auth, for the user id the session cookie carried. */
  function CheckAuth(users: seq<User>, userId: nat): (r: Response)
    ensures Consistent(r)
    ensures r.status == 200 <==> userId < |users|
    ensures r.status == 200 ==> r.user == Some(Sanitize(users[userId])) && r.message.None?
    ensures r.status != 200 ==> r == Failure(400, UserNotFound)
  {
    if userId < |users| then Response(200, true, None, Some(Sanitize(users[userId])), None, Untouched)
    else Failure(400, UserNotFound)
  }
}
