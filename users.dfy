/**
 * The user record kept by the credential store and the two collaborators the
 * handlers lean on: the document store's `findOne` lookup and the bcrypt hash.
 *
 * The store is a sequence of records. Records are never removed, so a record's
 * position in the sequence stands for its database `_id`.
 */
module Users {
  import opened Wrappers

  /** A bcrypt digest. It is a type of its own, so a plaintext password can
      never be stored where a digest belongs. */
  datatype Digest = Digest(text: string)

  /** `bcryptjs.compare(password, digest)`: the hash itself is a parameter
      (`hash`) that the model never looks inside. A password always matches
      the digest made from it. */
  predicate Matches(hash: string -> Digest, password: string, digest: Digest): (m: bool)
    ensures digest == hash(password) ==> m
  {
    hash(password) == digest
  }

  /** One stored user document. Times are milliseconds since the epoch. */
  datatype User = User(
    email: string,
    password: Digest,
    name: string,
    isVerified: bool,
    verificationToken: Option<string>,
    verificationTokenExpiresAt: Option<int>,
    resetPasswordToken: Option<string>,
    resetPasswordExpiresAt: Option<int>,
    lastLogin: Option<int>)

  /** What a handler sends back to a client: the record without `password`. */
  datatype PublicUser = PublicUser(
    email: string,
    name: string,
    isVerified: bool,
    verificationToken: Option<string>,
    verificationTokenExpiresAt: Option<int>,
    resetPasswordToken: Option<string>,
    resetPasswordExpiresAt: Option<int>,
    lastLogin: Option<int>)

  /** `{ ...user._doc, password: undefined }` and `.select("-password")`. */
  function Sanitize(u: User): (p: PublicUser)
    ensures p.email == u.email && p.name == u.name && p.isVerified == u.isVerified
    ensures p.verificationToken == u.verificationToken
    ensures p.verificationTokenExpiresAt == u.verificationTokenExpiresAt
    ensures p.resetPasswordToken == u.resetPasswordToken
    ensures p.resetPasswordExpiresAt == u.resetPasswordExpiresAt
    ensures p.lastLogin == u.lastLogin
  {
    PublicUser(u.email, u.name, u.isVerified, u.verificationToken, u.verificationTokenExpiresAt,
               u.resetPasswordToken, u.resetPasswordExpiresAt, u.lastLogin)
  }

  /** A sanitized record reveals nothing about the stored digest. */
  lemma SanitizeHidesPassword(u: User, other: Digest)
    ensures Sanitize(u.(password := other)) == Sanitize(u)
  {
  }

  /** The three query documents the handlers pass to `User.findOne`. An
      `{ $gt: now }` condition on an absent expiry matches nothing. */
  datatype Filter =
    | ByEmail(email: string)
    | ByVerificationCode(code: string, now: int)
    | ByResetToken(token: string, now: int)

  predicate Satisfies(u: User, f: Filter): (m: bool)
    ensures f.ByEmail? ==> (m <==> u.email == f.email)
    ensures m && f.ByVerificationCode? ==> u.verificationToken == Some(f.code)
    ensures m && f.ByResetToken? ==> u.resetPasswordToken == Some(f.token)
    ensures m && f.ByVerificationCode? ==> u.verificationTokenExpiresAt.Some?
    ensures m && f.ByResetToken? ==> u.resetPasswordExpiresAt.Some?
    ensures (f.ByVerificationCode? && u.verificationTokenExpiresAt.Some? &&
             u.verificationTokenExpiresAt.value <= f.now) ==> !m
    ensures (f.ByResetToken? && u.resetPasswordExpiresAt.Some? &&
             u.resetPasswordExpiresAt.value <= f.now) ==> !m
  {
    match f
    case ByEmail(e) => u.email == e
    case ByVerificationCode(c, now) =>
      u.verificationToken == Some(c) &&
      u.verificationTokenExpiresAt.Some? && u.verificationTokenExpiresAt.value > now
    case ByResetToken(t, now) =>
      u.resetPasswordToken == Some(t) &&
      u.resetPasswordExpiresAt.Some? && u.resetPasswordExpiresAt.value > now
  }

  /** `User.findOne(filter)`: the position of the first record that satisfies
      the filter, or nothing. */
  function FindOne(users: seq<User>, f: Filter): (r: Option<nat>)
    ensures r.Some? ==> r.value < |users| && Satisfies(users[r.value], f)
    ensures r.Some? ==> forall j :: 0 <= j < r.value ==> !Satisfies(users[j], f)
    ensures r.None? <==> forall j :: 0 <= j < |users| ==> !Satisfies(users[j], f)
  {
    if |users| == 0 then None
    else if Satisfies(users[0], f) then Some(0)
    else
      match FindOne(users[1..], f)
      case None => None
      case Some(i) => Some(i + 1)
  }

  /** Appending a record leaves every earlier answer of `findOne` alone. */
  lemma {:induction false} FindOneAppend(users: seq<User>, u: User, f: Filter)
    ensures FindOne(users + [u], f) ==
      if FindOne(users, f).Some? then FindOne(users, f)
      else if Satisfies(u, f) then Some(|users|)
      else None
  {
    assert forall j :: 0 <= j < |users| ==> (users + [u])[j] == users[j];
    assert (users + [u])[|users|] == u;
  }

  /** No two records share an email address. */
  predicate EmailsUnique(users: seq<User>)
  {
    forall i, j :: 0 <= i < j < |users| ==> users[i].email != users[j].email
  }

  /** Each token is stored together with its expiry, or neither is. */
  predicate TokensPaired(u: User)
  {
    u.verificationToken.Some? == u.verificationTokenExpiresAt.Some? &&
    u.resetPasswordToken.Some? == u.resetPasswordExpiresAt.Some?
  }

  /** The invariant every handler keeps over the whole store. */
  predicate WellFormed(users: seq<User>)
  {
    EmailsUnique(users) &&
    forall i :: 0 <= i < |users| ==> users[i].email != "" && TokensPaired(users[i])
  }

  /** With unique emails, looking a record up by its email finds that record. */
  lemma FindByOwnEmail(users: seq<User>, k: nat)
    requires EmailsUnique(users)
    requires k < |users|
    ensures FindOne(users, ByEmail(users[k].email)) == Some(k)
  {
    assert Satisfies(users[k], ByEmail(users[k].email));
  }

  /** Changing record `i` without touching any email keeps emails unique. */
  lemma UpdateKeepsWellFormed(users: seq<User>, i: nat, u: User)
    requires WellFormed(users)
    requires i < |users|
    requires u.email == users[i].email && TokensPaired(u)
    ensures WellFormed(users[i := u])
  {
    var users' := users[i := u];
    forall a, b | 0 <= a < b < |users'| ensures users'[a].email != users'[b].email {
      assert users'[a].email == users[a].email && users'[b].email == users[b].email;
    }
  }
}
