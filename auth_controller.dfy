/**
 * The authentication controller as the source runs it: each handler looks a
 * record up, assigns to its fields one by one and saves it back into the
 * store. Every handler is proved to produce exactly the response and store
 * that the matching function of AuthSpec describes, and to keep the store
 * well formed (emails unique, tokens paired with their expiries).
 */
module AuthController {
  import opened Wrappers
  import opened Users
  import opened Tokens
  import opened AuthSpec
  import AuthProperties

  /** The `User` collection, with the bcrypt hash the server was started with. */
  class UserTable {
    const hash: string -> Digest
    var users: seq<User>

    ghost predicate Valid()
      reads this
    {
      WellFormed(users)
    }

    constructor (hash: string -> Digest)
      ensures Valid() && this.hash == hash && users == []
    {
      this.hash := hash;
      users := [];
    }

    method Signup(email: string, password: string, name: string, now: int, draw: int, mail: Mail)
      returns (response: Response)
      requires Valid()
      requires MinCode <= draw <= MaxCode
      modifies this
      ensures Valid()
      ensures Step(response, users) == AuthSpec.Signup(old(users), hash, email, password, name, now, draw, mail)
    {
      AuthProperties.SignupPreservesWellFormed(users, hash, email, password, name, now, draw, mail);
      if email == "" || password == "" || name == "" {
        // thrown, then answered by the catch block
        return Failure(400, AllFieldsRequired);
      }
      var userAlreadyExists := FindOne(users, ByEmail(email));
      if userAlreadyExists.Some? {
        return Failure(400, UserAlreadyExists);
      }
      var hashedPassword := hash(password);
      var verificationToken := VerificationCode(draw);
      var user := NewUser(email, hashedPassword, name, verificationToken, now + VerificationLifetime);
      users := users + [user];
      var id := |users| - 1;
      // the session cookie is set before the verification email is sent
      match mail
      case Delivered =>
        response := Response(201, true, Some(UserCreated), Some(Sanitize(user)), None, SetSession(id));
      case Undelivered(reason) =>
        response := Response(400, false, Some(reason), None, None, SetSession(id));
    }

    method VerifyEmail(code: string, now: int, mail: Mail) returns (response: Response)
      requires Valid()
      modifies this
      ensures Valid()
      ensures Step(response, users) == AuthSpec.VerifyEmail(old(users), code, now, mail)
    {
      AuthProperties.VerifyPreservesWellFormed(users, code, now, mail);
      var found := FindOne(users, ByVerificationCode(code, now));
      if found.None? {
        return Failure(400, InvalidVerificationCode);
      }
      var i := found.value;
      var user := users[i];
      user := user.(isVerified := true);
      user := user.(verificationToken := None);
      user := user.(verificationTokenExpiresAt := None);
      users := users[i := user];
      if mail.Undelivered? {
        return Failure(500, ServerError);
      }
      response := Response(200, true, Some(EmailVerified), Some(Sanitize(user)), None, Untouched);
    }

    method Login(email: string, password: string, now: int) returns (response: Response)
      requires Valid()
      modifies this
      ensures Valid()
      ensures Step(response, users) == AuthSpec.Login(old(users), hash, email, password, now)
    {
      AuthProperties.LoginPreservesWellFormed(users, hash, email, password, now);
      var found := FindOne(users, ByEmail(email));
      if found.None? {
        return Failure(400, InvalidCredentials);
      }
      var i := found.value;
      var isPasswordValid := Matches(hash, password, users[i].password);
      if !isPasswordValid {
        return Failure(400, InvalidCredentials);
      }
      var user := users[i].(lastLogin := Some(now));
      users := users[i := user];
      response := Response(200, true, Some(LoggedIn), Some(Sanitize(user)), None, SetSession(i));
    }

    method Logout() returns (response: Response)
      ensures response == AuthSpec.Logout()
    {
      response := Response(200, true, Some(LoggedOut), None, None, Cleared);
    }

    method ForgotPassword(email: string, bytes: seq<Byte>, now: int, baseUrl: string, mail: Mail)
      returns (response: Response)
      requires Valid()
      requires |bytes| == ResetTokenBytes
      modifies this
      ensures Valid()
      ensures Step(response, users) == AuthSpec.ForgotPassword(old(users), email, bytes, now, baseUrl, mail)
    {
      AuthProperties.ForgotPreservesWellFormed(users, email, bytes, now, baseUrl, mail);
      var found := FindOne(users, ByEmail(email));
      if found.None? {
        return Failure(400, UserNotFound);
      }
      var i := found.value;
      var resetToken := ResetToken(bytes);
      var resetTokenExpiresAt := now + ResetLifetime;
      var user := users[i];
      user := user.(resetPasswordToken := Some(resetToken));
      user := user.(resetPasswordExpiresAt := Some(resetTokenExpiresAt));
      users := users[i := user];
      var resetURL := ResetUrl(baseUrl, resetToken);
      // a failed send is logged and otherwise ignored
      response := Response(200, true, Some(ResetLinkSent), None, Some(resetURL), Untouched);
    }

    method ResetPassword(token: string, password: string, now: int, mail: Mail) returns (response: Response)
      requires Valid()
      modifies this
      ensures Valid()
      ensures Step(response, users) == AuthSpec.ResetPassword(old(users), hash, token, password, now, mail)
    {
      AuthProperties.ResetPreservesWellFormed(users, hash, token, password, now, mail);
      if password == "" {
        return Failure(400, PasswordRequired);
      }
      var found := FindOne(users, ByResetToken(token, now));
      if found.None? {
        return Failure(400, InvalidResetToken);
      }
      var i := found.value;
      var hashedPassword := hash(password);
      var user := users[i];
      user := user.(password := hashedPassword);
      user := user.(resetPasswordToken := None);
      user := user.(resetPasswordExpiresAt := None);
      users := users[i := user];
      if mail.Undelivered? {
        return Failure(500, ErrorResettingPassword);
      }
      response := Response(200, true, Some(ResetSuccessful), None, None, Untouched);
    }

    method CheckAuth(userId: nat) returns (response: Response)
      ensures response == AuthSpec.CheckAuth(users, userId)
    {
      if userId >= |users| {
        return Failure(400, UserNotFound);
      }
      response := Response(200, true, None, Some(Sanitize(users[userId])), None, Untouched);
    }
  }
}
