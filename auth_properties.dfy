/**
 * What the handlers promise over several calls: the store invariant each keeps,
 * failures that do not depend on the store or that look alike to a caller,
 * tokens that work once, and credentials that work after signup and reset.
 */
module AuthProperties {
  import opened Wrappers
  import opened Users
  import opened Tokens
  import opened AuthSpec

  // ----- signup -----

  /** A missing field is rejected before the store is consulted: the answer is
      the same whatever the store holds, and nothing is saved. */
  lemma SignupMissingField(users1: seq<User>, users2: seq<User>, hash: string -> Digest,
                           email: string, password: string, name: string, now: int, draw: int, mail: Mail)
    requires MinCode <= draw <= MaxCode
    requires email == "" || password == "" || name == ""
    ensures Signup(users1, hash, email, password, name, now, draw, mail) ==
            Step(Failure(400, AllFieldsRequired), users1)
    ensures Signup(users1, hash, email, password, name, now, draw, mail).response ==
            Signup(users2, hash, email, password, name, now, draw, mail).response
  {
  }

  /** A registered email is refused and the existing record is left as it was. */
  lemma SignupDuplicate(users: seq<User>, hash: string -> Digest, email: string, password: string,
                        name: string, now: int, draw: int, mail: Mail)
    requires MinCode <= draw <= MaxCode
    requires email != "" && password != "" && name != ""
    requires exists k :: 0 <= k < |users| && users[k].email == email
    ensures Signup(users, hash, email, password, name, now, draw, mail) ==
            Step(Failure(400, UserAlreadyExists), users)
  {
    var k :| 0 <= k < |users| && users[k].email == email;
    assert Satisfies(users[k], ByEmail(email));
  }

  lemma SignupPreservesWellFormed(users: seq<User>, hash: string -> Digest, email: string, password: string,
                                  name: string, now: int, draw: int, mail: Mail)
    requires MinCode <= draw <= MaxCode
    requires WellFormed(users)
    ensures WellFormed(Signup(users, hash, email, password, name, now, draw, mail).users)
  {
  }

  /** Whoever signed up can log in with the same email and password, whether
      or not the verification email went out, and is logged in as the new record. */
  lemma {:induction false} SignupThenLogin(users: seq<User>, hash: string -> Digest, email: string, password: string,
                        name: string, now: int, draw: int, mail: Mail, later: int)
    requires MinCode <= draw <= MaxCode
    requires email != "" && password != "" && name != ""
    requires forall k :: 0 <= k < |users| ==> users[k].email != email
    ensures var s := Signup(users, hash, email, password, name, now, draw, mail);
      |s.users| == |users| + 1 &&
      Login(s.users, hash, email, password, later).response.status == 200 &&
      Login(s.users, hash, email, password, later).response.cookie == SetSession(|users|)
  {
    var s := Signup(users, hash, email, password, name, now, draw, mail);
    assert s.users == users + [s.users[|users|]];
    FindOneAppend(users, s.users[|users|], ByEmail(email));
  }

  // ----- verifyEmail -----

  lemma VerifyPreservesWellFormed(users: seq<User>, code: string, now: int, mail: Mail)
    requires WellFormed(users)
    ensures WellFormed(VerifyEmail(users, code, now, mail).users)
  {
    var f := FindOne(users, ByVerificationCode(code, now));
    if f.Some? {
      var i := f.value;
      UpdateKeepsWellFormed(users, i,
        users[i].(isVerified := true, verificationToken := None, verificationTokenExpiresAt := None));
    }
  }

  /** A code that was never issued and a code that has expired get the very
      same answer. */
  lemma UnknownAndExpiredCodesLookAlike(users: seq<User>, unknown: string, expired: string, now: int, mail: Mail)
    requires forall k :: 0 <= k < |users| ==> users[k].verificationToken != Some(unknown)
    requires forall k :: 0 <= k < |users| && users[k].verificationToken == Some(expired) ==>
      users[k].verificationTokenExpiresAt.Some? && users[k].verificationTokenExpiresAt.value <= now
    ensures VerifyEmail(users, unknown, now, mail) == VerifyEmail(users, expired, now, mail)
    ensures VerifyEmail(users, expired, now, mail).response == Failure(400, InvalidVerificationCode)
  {
  }

  /** A code verifies its record once: afterwards the record holds no code, so
      the same code finds at most another record that happens to hold it too. */
  lemma VerifyConsumesCode(users: seq<User>, code: string, now: int, mail: Mail, later: int)
    requires FindOne(users, ByVerificationCode(code, now)).Some?
    ensures var i := FindOne(users, ByVerificationCode(code, now)).value;
      var s := VerifyEmail(users, code, now, mail);
      s.users[i].isVerified &&
      (forall c, t :: !Satisfies(s.users[i], ByVerificationCode(c, t))) &&
      var again := FindOne(s.users, ByVerificationCode(code, later));
      again.None? || (again.value != i && Satisfies(users[again.value], ByVerificationCode(code, later)))
  {
  }

  /** When no other record holds the code, verifying with it a second time fails. */
  lemma {:induction false} VerifyTwiceFails(users: seq<User>, code: string, now: int, mail: Mail, later: int, mail2: Mail)
    requires FindOne(users, ByVerificationCode(code, now)).Some?
    requires forall k :: 0 <= k < |users| && k != FindOne(users, ByVerificationCode(code, now)).value ==>
      users[k].verificationToken != Some(code)
    ensures var s := VerifyEmail(users, code, now, mail);
      VerifyEmail(s.users, code, later, mail2).response == Failure(400, InvalidVerificationCode)
  {
    VerifyConsumesCode(users, code, now, mail, later);
  }

  // ----- login -----

  lemma LoginPreservesWellFormed(users: seq<User>, hash: string -> Digest, email: string, password: string, now: int)
    requires WellFormed(users)
    ensures WellFormed(Login(users, hash, email, password, now).users)
  {
    if LoginAccepted(users, hash, email, password) {
      var i := FindOne(users, ByEmail(email)).value;
      UpdateKeepsWellFormed(users, i, users[i].(lastLogin := Some(now)));
    }
  }

  /** An unknown email and a wrong password for a known email get the same
      answer and change nothing, so a caller cannot tell which it was. */
  lemma UnknownEmailAndWrongPasswordLookAlike(users: seq<User>, hash: string -> Digest,
                                              unknown: string, p1: string, known: string, p2: string, now: int)
    requires forall k :: 0 <= k < |users| ==> users[k].email != unknown
    requires exists k :: 0 <= k < |users| && users[k].email == known
    requires forall k :: 0 <= k < |users| && users[k].email == known ==> !Matches(hash, p2, users[k].password)
    ensures Login(users, hash, unknown, p1, now) == Login(users, hash, known, p2, now)
    ensures Login(users, hash, unknown, p1, now) == Step(Failure(400, InvalidCredentials), users)
  {
    var k :| 0 <= k < |users| && users[k].email == known;
    assert Satisfies(users[k], ByEmail(known));
  }

  // ----- forgotPassword -----

  lemma ForgotPreservesWellFormed(users: seq<User>, email: string, bytes: seq<Byte>, now: int,
                                  baseUrl: string, mail: Mail)
    requires |bytes| == ResetTokenBytes
    requires WellFormed(users)
    ensures WellFormed(ForgotPassword(users, email, bytes, now, baseUrl, mail).users)
  {
    var f := FindOne(users, ByEmail(email));
    if f.Some? {
      var i := f.value;
      UpdateKeepsWellFormed(users, i, users[i].(resetPasswordToken := Some(ResetToken(bytes)),
                                                resetPasswordExpiresAt := Some(now + ResetLifetime)));
    }
  }

  /** A failed reset email is swallowed: the answer and the store are the same
      as when it was delivered. */
  lemma ForgotIgnoresMailFailure(users: seq<User>, email: string, bytes: seq<Byte>, now: int,
                                 baseUrl: string, reason: string)
    requires |bytes| == ResetTokenBytes
    ensures ForgotPassword(users, email, bytes, now, baseUrl, Undelivered(reason)) ==
            ForgotPassword(users, email, bytes, now, baseUrl, Delivered)
  {
  }

  // ----- resetPassword -----

  /** A missing password is rejected before the store is consulted. */
  lemma ResetMissingPassword(users1: seq<User>, users2: seq<User>, hash: string -> Digest, token: string,
                             now: int, mail: Mail)
    ensures ResetPassword(users1, hash, token, "", now, mail) == Step(Failure(400, PasswordRequired), users1)
    ensures ResetPassword(users1, hash, token, "", now, mail).response ==
            ResetPassword(users2, hash, token, "", now, mail).response
  {
  }

  lemma ResetPreservesWellFormed(users: seq<User>, hash: string -> Digest, token: string, password: string,
                                 now: int, mail: Mail)
    requires WellFormed(users)
    ensures WellFormed(ResetPassword(users, hash, token, password, now, mail).users)
  {
    var f := FindOne(users, ByResetToken(token, now));
    if password != "" && f.Some? {
      var i := f.value;
      UpdateKeepsWellFormed(users, i, users[i].(password := hash(password), resetPasswordToken := None,
                                                resetPasswordExpiresAt := None));
    }
  }

  /** The token issued by forgotPassword resets a password at any time before
      its hour is up. */
  lemma {:induction false} ForgotThenReset(users: seq<User>, hash: string -> Digest, email: string, bytes: seq<Byte>,
                        now: int, baseUrl: string, mail: Mail, password: string, later: int, mail2: Mail)
    requires |bytes| == ResetTokenBytes
    requires exists k :: 0 <= k < |users| && users[k].email == email
    requires password != ""
    requires later < now + ResetLifetime
    ensures var f := ForgotPassword(users, email, bytes, now, baseUrl, mail);
      var r := ResetPassword(f.users, hash, ResetToken(bytes), password, later, mail2);
      r.response.status == (if mail2.Delivered? then 200 else 500)
  {
    var k :| 0 <= k < |users| && users[k].email == email;
    assert Satisfies(users[k], ByEmail(email));
    var i := FindOne(users, ByEmail(email)).value;
    var f := ForgotPassword(users, email, bytes, now, baseUrl, mail);
    assert Satisfies(f.users[i], ByResetToken(ResetToken(bytes), later));
  }

  /** The forgotPassword answer carries the live token inside `resetURL`: a
      caller who knows only a registered email can read the token from the
      answer and set a new password with it, without access to the mailbox.
      When no record held that token before, it is the asking account whose
      password changes. */
  lemma {:induction false} ForgotResponseDisclosesToken(users: seq<User>, hash: string -> Digest, email: string,
                        bytes: seq<Byte>, now: int, baseUrl: string, mail: Mail,
                        password: string, later: int, mail2: Mail)
    requires |bytes| == ResetTokenBytes
    requires exists k :: 0 <= k < |users| && users[k].email == email
    requires password != ""
    requires later < now + ResetLifetime
    ensures var f := ForgotPassword(users, email, bytes, now, baseUrl, mail);
      f.response.resetURL.Some? &&
      |f.response.resetURL.value| == |baseUrl| + 16 + 40 &&
      var leaked := f.response.resetURL.value[|baseUrl| + 16..];
      var r := ResetPassword(f.users, hash, leaked, password, later, mail2);
      r.response.status != 400 &&
      ((forall k :: 0 <= k < |users| ==> users[k].resetPasswordToken != Some(ResetToken(bytes))) ==>
        var i := FindOne(users, ByEmail(email)).value;
        r.users[i].password == hash(password) && r.users[i].resetPasswordToken.None?)
  {
    var f := ForgotPassword(users, email, bytes, now, baseUrl, mail);
    var token := ResetToken(bytes);
    assert f.response.resetURL.value[|baseUrl| + 16..] == token;
    ForgotThenReset(users, hash, email, bytes, now, baseUrl, mail, password, later, mail2);
    var i := FindOne(users, ByEmail(email)).value;
    if forall k :: 0 <= k < |users| ==> users[k].resetPasswordToken != Some(token) {
      assert forall j :: 0 <= j < |users| && j != i ==> f.users[j] == users[j];
      assert Satisfies(f.users[i], ByResetToken(token, later));
      assert FindOne(f.users, ByResetToken(token, later)) == Some(i);
    }
  }

  /** A reset token works once: the reset record no longer holds a token, so
      the same token finds at most another record that happens to hold it too. */
  lemma ResetConsumesToken(users: seq<User>, hash: string -> Digest, token: string, password: string,
                           now: int, mail: Mail, later: int)
    requires password != ""
    requires FindOne(users, ByResetToken(token, now)).Some?
    ensures var i := FindOne(users, ByResetToken(token, now)).value;
      var s := ResetPassword(users, hash, token, password, now, mail);
      (forall t, w :: !Satisfies(s.users[i], ByResetToken(t, w))) &&
      var again := FindOne(s.users, ByResetToken(token, later));
      again.None? || (again.value != i && Satisfies(users[again.value], ByResetToken(token, later)))
  {
  }

  /** When no other record holds the token, resetting with it a second time fails. */
  lemma {:induction false} ResetTwiceFails(users: seq<User>, hash: string -> Digest, token: string, password: string,
                        now: int, mail: Mail, password2: string, later: int, mail2: Mail)
    requires password != "" && password2 != ""
    requires FindOne(users, ByResetToken(token, now)).Some?
    requires forall k :: 0 <= k < |users| && k != FindOne(users, ByResetToken(token, now)).value ==>
      users[k].resetPasswordToken != Some(token)
    ensures var s := ResetPassword(users, hash, token, password, now, mail);
      ResetPassword(s.users, hash, token, password2, later, mail2).response == Failure(400, InvalidResetToken)
  {
    ResetConsumesToken(users, hash, token, password, now, mail, later);
  }

  /** After a reset the new password logs the owner in, and an old password
      that does not match the new digest is refused. Emails being unique is
      what makes the login find the reset record. */
  lemma {:induction false} ResetThenLogin(users: seq<User>, hash: string -> Digest, token: string, password: string,
                       now: int, mail: Mail, other: string, later: int)
    requires WellFormed(users)
    requires password != ""
    requires FindOne(users, ByResetToken(token, now)).Some?
    ensures var i := FindOne(users, ByResetToken(token, now)).value;
      var s := ResetPassword(users, hash, token, password, now, mail);
      Login(s.users, hash, users[i].email, password, later).response.status == 200 &&
      Login(s.users, hash, users[i].email, password, later).response.cookie == SetSession(i) &&
      (hash(other) != hash(password) ==>
        Login(s.users, hash, users[i].email, other, later).response.status == 400)
  {
    var i := FindOne(users, ByResetToken(token, now)).value;
    var s := ResetPassword(users, hash, token, password, now, mail);
    ResetPreservesWellFormed(users, hash, token, password, now, mail);
    FindByOwnEmail(s.users, i);
  }
}
