/**
 * The account lifecycle of backend/src/controllers/auth.controller.js:
 * the user collection as a table keyed by email, and the handlers that
 * read or update one record of it. Request bodies become parameters, the
 * clock is `now` (milliseconds), the random tokens and the new record's
 * id are parameters, and whether the outgoing mail was delivered is a
 * parameter too. bcrypt is an ideal hash: a digest remembers its salt and
 * its secret, and comparing checks the secret.
 */
module Accounts {
  import opened Wrappers
  import opened Text
  import opened SignupRules

  type Email = string
  type Token = string
  type UserId = string

  /** Lifetime of a verification link: 24 hours in milliseconds. */
  const VerificationLifetime: int := 24 * 60 * 60 * 1000
  /** Lifetime of a password-reset link: 15 minutes in milliseconds. */
  const ResetLifetime: int := 15 * 60 * 1000

  datatype Digest = Bcrypt(salt: nat, secret: string)

  /** `bcrypt.hash(password, salt)`: the digest accepts the hashed password and no other. */
  function HashPassword(password: string, salt: nat): (d: Digest)
    ensures ComparePassword(password, d)
    ensures forall other :: ComparePassword(other, d) ==> other == password
    ensures d.salt == salt
  {
    Bcrypt(salt, password)
  }

  /** `bcrypt.compare(password, hash)`. */
  predicate ComparePassword(password: string, hash: Digest) {
    hash.secret == password
  }

  /** One document of the user collection; `None` is a field left undefined. */
  datatype User = User(
    id: UserId,
    fullName: string,
    email: Email,
    password: Digest,
    profilePic: string,
    isVerified: bool,
    verificationToken: Option<Token>,
    verificationTokenExpire: Option<int>,
    resetPasswordToken: Option<Token>,
    resetPasswordExpire: Option<int>)

  /** The HTTP status and the `message` of a JSON reply. */
  datatype Reply = Reply(status: int, message: string)

  const ServerError := Reply(500, "Internal Server Error")
  const InvalidCredentials := Reply(400, "Invalid credentials")
  const VerifyFirst := Reply(400, "Please verify your email first")

  /** The reply for a request the signup guards refuse. */
  function IssueReply(issue: SignupIssue): (r: Reply)
    ensures r.status == 400
  {
    match issue
    case FieldsMissing => Reply(400, "All fields are required")
    case BadEmailFormat => Reply(400, "Invalid email address")
    case DisposableDomain => Reply(400, "Disposable emails are not allowed")
    case ForbiddenWord => Reply(400, "Invalid email address")
  }

  /** What a successful login sends back; an empty profile picture is sent as null. */
  datatype Profile = Profile(id: UserId, fullName: string, email: Email, profilePic: Option<string>)

  /** `{ _id, fullName, email, profilePic: user.profilePic || null }`. */
  function ProfileOf(u: User): Profile {
    Profile(u.id, u.fullName, u.email, if u.profilePic == "" then None else Some(u.profilePic))
  }

  datatype LoginResult = LoggedIn(profile: Profile) | Rejected(reply: Reply)

  /** A stored token equals `t` and its expiry is strictly later than `now` (the query's `$gt`). */
  predicate Unexpired(stored: Option<Token>, expire: Option<int>, t: Token, now: int) {
    stored == Some(t) && expire.Some? && expire.value > now
  }

  predicate CanVerifyWith(u: User, t: Token, now: int) {
    Unexpired(u.verificationToken, u.verificationTokenExpire, t, now)
  }

  predicate CanResetWith(u: User, t: Token, now: int) {
    Unexpired(u.resetPasswordToken, u.resetPasswordExpire, t, now)
  }

  type Table = map<Email, User>

  /** Every record sits under its own email, so `findOne({ email })` is a key lookup. */
  predicate KeyedByEmail(t: Table) {
    forall e :: e in t ==> t[e].email == e
  }

  predicate IdsDistinct(t: Table) {
    forall e1, e2 :: e1 in t && e2 in t && e1 != e2 ==> t[e1].id != t[e2].id
  }

  /** No two records hold the same verification token (random 32-byte tokens do not collide). */
  predicate VerificationTokensDistinct(t: Table) {
    forall e1, e2 :: e1 in t && e2 in t && e1 != e2 && t[e1].verificationToken.Some? ==>
      t[e1].verificationToken != t[e2].verificationToken
  }

  /** No two records hold the same reset token. */
  predicate ResetTokensDistinct(t: Table) {
    forall e1, e2 :: e1 in t && e2 in t && e1 != e2 && t[e1].resetPasswordToken.Some? ==>
      t[e1].resetPasswordToken != t[e2].resetPasswordToken
  }

  predicate WellFormed(t: Table) {
    KeyedByEmail(t) && IdsDistinct(t) && VerificationTokensDistinct(t) && ResetTokensDistinct(t)
  }

  /** A freshly drawn verification token is held by no record. */
  predicate VerificationTokenUnused(t: Table, tok: Token) {
    forall e :: e in t ==> t[e].verificationToken != Some(tok)
  }

  predicate ResetTokenUnused(t: Table, tok: Token) {
    forall e :: e in t ==> t[e].resetPasswordToken != Some(tok)
  }

  predicate IdUnused(t: Table, id: UserId) {
    forall e :: e in t ==> t[e].id != id
  }

  /** Inserting a record under a new email, with a fresh id and fresh tokens, keeps the table well formed. */
  lemma InsertKeepsWellFormed(t: Table, u: User)
    requires WellFormed(t) && u.email !in t && IdUnused(t, u.id)
    requires u.verificationToken.Some? ==> VerificationTokenUnused(t, u.verificationToken.value)
    requires u.resetPasswordToken.Some? ==> ResetTokenUnused(t, u.resetPasswordToken.value)
    ensures WellFormed(t[u.email := u])
  {
  }

  class AccountStore {
    /** The user collection. */
    var users: Table

    ghost predicate Valid()
      reads this
    {
      WellFormed(users)
    }

    constructor ()
      ensures Valid() && users == map[]
    {
      users := map[];
    }

    /**
     * `signup`: the guards, then the duplicate check, then the new record,
     * which is saved before the mail goes out.
     */
    method Signup(fullName: string, email: Email, password: string,
                  salt: nat, token: Token, id: UserId, now: int, mailDelivered: bool)
      returns (reply: Reply)
      requires Valid()
      requires VerificationTokenUnused(users, token) && IdUnused(users, id)
      modifies this
      ensures Valid()
      ensures CheckSignup(fullName, email, password).Some? ==>
        reply == IssueReply(CheckSignup(fullName, email, password).value) && users == old(users)
      ensures CheckSignup(fullName, email, password).None? && email in old(users) ==>
        reply == Reply(400, "Email already exists") && users == old(users)
      ensures CheckSignup(fullName, email, password).None? && email !in old(users) ==>
        && users == old(users)[email := User(id, fullName, email, HashPassword(password, salt), "",
                                             false, Some(token), Some(now + VerificationLifetime),
                                             None, None)]
        && |users| == |old(users)| + 1
        && reply == (if mailDelivered then Reply(201, "Signup successful! Please check your email to verify your account.")
                     else ServerError)
    {
      var issue := CheckSignup(fullName, email, password);
      if issue.Some? {
        reply := IssueReply(issue.value);
        return;
      }
      if email in users {
        reply := Reply(400, "Email already exists");
        return;
      }
      var u := User(id, fullName, email, HashPassword(password, salt), "",
                    false, Some(token), Some(now + VerificationLifetime), None, None);
      InsertKeepsWellFormed(users, u);
      users := users[email := u];
      if mailDelivered {
        reply := Reply(201, "Signup successful! Please check your email to verify your account.");
      } else {
        reply := ServerError;
      }
    }

    /** `User.findOne({ verificationToken: token, verificationTokenExpire: { $gt: now } })`. */
    method FindByVerificationToken(token: Token, now: int) returns (r: Option<Email>)
      requires Valid()
      ensures r.Some? ==> r.value in users && CanVerifyWith(users[r.value], token, now)
      ensures r.Some? ==> forall e :: e in users && users[e].verificationToken == Some(token) ==> e == r.value
      ensures r.None? ==> forall e :: e in users ==> !CanVerifyWith(users[e], token, now)
    {
      if e :| e in users && CanVerifyWith(users[e], token, now) {
        r := Some(e);
      } else {
        r := None;
      }
    }

    /** `verifyEmail`: a live token verifies its record and is consumed. */
    method VerifyEmail(token: Token, now: int) returns (reply: Reply)
      requires Valid()
      modifies this
      ensures Valid()
      ensures reply.status == 200 <==> exists e :: e in old(users) && CanVerifyWith(old(users)[e], token, now)
      ensures reply.status != 200 ==>
        reply == Reply(400, "Invalid or expired verification link") && users == old(users)
      ensures reply.status == 200 ==>
        && reply.message == "Email verified successfully!"
        && (forall e :: e in old(users) && CanVerifyWith(old(users)[e], token, now) ==>
              users == old(users)[e := old(users)[e].(isVerified := true,
                                                      verificationToken := None,
                                                      verificationTokenExpire := None)])
        && VerificationTokenUnused(users, token)
    {
      var found := FindByVerificationToken(token, now);
      match found
      case None =>
        reply := Reply(400, "Invalid or expired verification link");
      case Some(e) =>
        var u := users[e];
        users := users[e := u.(isVerified := true, verificationToken := None, verificationTokenExpire := None)];
        reply := Reply(200, "Email verified successfully!");
    }

    /**
     * `login`: unknown email, then unverified account, then the password
     * check. A request without a password (`None`) gets that far only on a
     * verified account, where `bcrypt.compare` throws and the reply is 500.
     */
    method Login(email: Email, password: Option<string>) returns (r: LoginResult)
      ensures email !in users ==> r == Rejected(InvalidCredentials)
      ensures email in users && !users[email].isVerified ==> r == Rejected(VerifyFirst)
      ensures email in users && users[email].isVerified && password.None? ==> r == Rejected(ServerError)
      ensures email in users && users[email].isVerified && password.Some? &&
              !ComparePassword(password.value, users[email].password) ==>
                r == Rejected(InvalidCredentials)
      ensures r.LoggedIn? <==>
        email in users && users[email].isVerified && password.Some?
        && ComparePassword(password.value, users[email].password)
      ensures r.LoggedIn? ==> r.profile == ProfileOf(users[email])
    {
      if email !in users {
        return Rejected(InvalidCredentials);
      }
      var u := users[email];
      if !u.isVerified {
        return Rejected(VerifyFirst);
      }
      if password.None? {
        return Rejected(ServerError);
      }
      if !ComparePassword(password.value, u.password) {
        return Rejected(InvalidCredentials);
      }
      r := LoggedIn(ProfileOf(u));
    }

    /** `forgotPassword`: any existing account, verified or not, gets a new reset token. */
    method ForgotPassword(email: Email, token: Token, now: int, mailDelivered: bool) returns (reply: Reply)
      requires Valid()
      requires ResetTokenUnused(users, token)
      modifies this
      ensures Valid()
      ensures email !in old(users) ==> reply == Reply(400, "User not found") && users == old(users)
      ensures email in old(users) ==>
        && users == old(users)[email := old(users)[email].(resetPasswordToken := Some(token),
                                                           resetPasswordExpire := Some(now + ResetLifetime))]
        && reply == (if mailDelivered then Reply(200, "Password reset link sent to email") else ServerError)
    {
      if email !in users {
        reply := Reply(400, "User not found");
        return;
      }
      var u := users[email];
      users := users[email := u.(resetPasswordToken := Some(token), resetPasswordExpire := Some(now + ResetLifetime))];
      if mailDelivered {
        reply := Reply(200, "Password reset link sent to email");
      } else {
        reply := ServerError;
      }
    }

    /** `User.findOne({ resetPasswordToken: token, resetPasswordExpire: { $gt: now } })`. */
    method FindByResetToken(token: Token, now: int) returns (r: Option<Email>)
      requires Valid()
      ensures r.Some? ==> r.value in users && CanResetWith(users[r.value], token, now)
      ensures r.Some? ==> forall e :: e in users && users[e].resetPasswordToken == Some(token) ==> e == r.value
      ensures r.None? ==> forall e :: e in users ==> !CanResetWith(users[e], token, now)
    {
      if e :| e in users && CanResetWith(users[e], token, now) {
        r := Some(e);
      } else {
        r := None;
      }
    }

    /** `resetPassword`: a live reset token sets a new hash and is consumed. */
    method ResetPassword(token: Token, password: string, salt: nat, now: int) returns (reply: Reply)
      requires Valid()
      modifies this
      ensures Valid()
      ensures reply.status == 200 <==> exists e :: e in old(users) && CanResetWith(old(users)[e], token, now)
      ensures reply.status != 200 ==> reply == Reply(400, "Invalid or expired token") && users == old(users)
      ensures reply.status == 200 ==>
        && reply.message == "Password reset successful!"
        && (forall e :: e in old(users) && CanResetWith(old(users)[e], token, now) ==>
              users == old(users)[e := old(users)[e].(password := HashPassword(password, salt),
                                                      resetPasswordToken := None,
                                                      resetPasswordExpire := None)])
        && ResetTokenUnused(users, token)
    {
      var found := FindByResetToken(token, now);
      match found
      case None =>
        reply := Reply(400, "Invalid or expired token");
      case Some(e) =>
        var u := users[e];
        users := users[e := u.(password := HashPassword(password, salt),
                               resetPasswordToken := None, resetPasswordExpire := None)];
        reply := Reply(200, "Password reset successful!");
    }

    /** `regenerateVerificationToken`: only an existing, unverified account gets a new link. */
    method RegenerateVerificationToken(email: Email, token: Token, now: int, mailDelivered: bool)
      returns (reply: Reply)
      requires Valid()
      requires VerificationTokenUnused(users, token)
      modifies this
      ensures Valid()
      ensures email == "" ==> reply == Reply(400, "Email is required") && users == old(users)
      ensures email != "" && email !in old(users) ==> reply == Reply(404, "User not found") && users == old(users)
      ensures email != "" && email in old(users) && old(users)[email].isVerified ==>
        reply == Reply(400, "Email already verified") && users == old(users)
      ensures email != "" && email in old(users) && !old(users)[email].isVerified ==>
        && users == old(users)[email := old(users)[email].(verificationToken := Some(token),
                                                           verificationTokenExpire := Some(now + VerificationLifetime))]
        && (old(users)[email].verificationToken.Some? ==>
              VerificationTokenUnused(users, old(users)[email].verificationToken.value))
        && reply == (if mailDelivered then Reply(200, "Verification email resent successfully!") else ServerError)
    {
      if email == "" {
        reply := Reply(400, "Email is required");
        return;
      }
      if email !in users {
        reply := Reply(404, "User not found");
        return;
      }
      var u := users[email];
      if u.isVerified {
        reply := Reply(400, "Email already verified");
        return;
      }
      users := users[email := u.(verificationToken := Some(token), verificationTokenExpire := Some(now + VerificationLifetime))];
      if mailDelivered {
        reply := Reply(200, "Verification email resent successfully!");
      } else {
        reply := ServerError;
      }
    }

    /** `User.findByIdAndUpdate(userId, ...)`'s lookup by id. */
    method FindById(id: UserId) returns (r: Option<Email>)
      requires Valid()
      ensures r.Some? ==> r.value in users && users[r.value].id == id
      ensures r.None? ==> IdUnused(users, id)
    {
      if e :| e in users && users[e].id == id {
        r := Some(e);
      } else {
        r := None;
      }
    }

    /**
     * `updateProfile` for the signed-in user `id`: the picture is required;
     * `upload` is the URL the image store gave back, or `None` if the
     * upload failed. An id with no record makes the handler dereference a
     * null document, which ends in the same 500.
     */
    method UpdateProfile(id: UserId, profilePic: string, upload: Option<string>) returns (reply: Reply)
      requires Valid()
      modifies this
      ensures Valid()
      ensures profilePic == "" ==> reply == Reply(400, "Profile picture is required") && users == old(users)
      ensures profilePic != "" && (upload.None? || IdUnused(old(users), id)) ==>
        reply == ServerError && users == old(users)
      ensures profilePic != "" && upload.Some? && !IdUnused(old(users), id) ==>
        && reply.status == 200
        && exists e :: e in old(users) && old(users)[e].id == id
             && users == old(users)[e := old(users)[e].(profilePic := upload.value)]
    {
      if profilePic == "" {
        reply := Reply(400, "Profile picture is required");
        return;
      }
      if upload.None? {
        reply := ServerError;
        return;
      }
      var found := FindById(id);
      match found
      case None =>
        reply := ServerError;
      case Some(e) =>
        users := users[e := users[e].(profilePic := upload.value)];
        reply := Reply(200, "");
    }
  }

  /** A fresh signup is stored unverified, so logging in is refused until the link is used. */
  method SignupThenLoginScenario(fullName: string, email: Email, password: string, token: Token, now: int)
    requires CheckSignup(fullName, email, password) == None
  {
    var store := new AccountStore();
    var reply := store.Signup(fullName, email, password, 7, token, "u1", now, true);
    assert reply.status == 201 && email in store.users;
    var early := store.Login(email, Some(password));
    assert early == Rejected(VerifyFirst);
  }

  /** An expired link does nothing, a live link works once, and the account then logs in. */
  method VerifyOnceScenario(store: AccountStore, email: Email, password: string, token: Token, now: int)
    requires store.Valid() && email in store.users
    requires store.users[email].verificationToken == Some(token)
    requires store.users[email].verificationTokenExpire == Some(now + VerificationLifetime)
    requires ComparePassword(password, store.users[email].password)
    modifies store
  {
    var reply := store.VerifyEmail(token, now + VerificationLifetime);
    assert reply.status == 400;
    reply := store.VerifyEmail(token, now + 1000);
    assert reply.status == 200;
    var login := store.Login(email, Some(password));
    assert login.LoggedIn? && login.profile.email == email;
    reply := store.VerifyEmail(token, now + 2000);
    assert reply.status == 400;
  }

  /** A reset link works once, and afterwards only the new password logs in. */
  method ResetOnceScenario(store: AccountStore, email: Email, oldPassword: string, newPassword: string,
                           r: Token, now: int)
    requires store.Valid() && email in store.users && store.users[email].isVerified
    requires ResetTokenUnused(store.users, r) && oldPassword != newPassword
    modifies store
  {
    var reply := store.ForgotPassword(email, r, now, true);
    assert reply.status == 200;
    assert CanResetWith(store.users[email], r, now + 1000);
    reply := store.ResetPassword(r, newPassword, 8, now + 1000);
    assert reply.status == 200 && store.users[email].password == HashPassword(newPassword, 8);
    reply := store.ResetPassword(r, oldPassword, 9, now + 2000);
    assert reply.status == 400;
    var login := store.Login(email, Some(oldPassword));
    assert login == Rejected(InvalidCredentials);
    login := store.Login(email, Some(newPassword));
    assert login.LoggedIn?;
  }

  /** A regenerated link replaces the old one: the old token no longer verifies, the new one does. */
  method RegenerateScenario(store: AccountStore, email: Email, t1: Token, t2: Token, now: int)
    requires store.Valid() && email != "" && email in store.users && !store.users[email].isVerified
    requires store.users[email].verificationToken == Some(t1)
    requires VerificationTokenUnused(store.users, t2)
    modifies store
  {
    var reply := store.RegenerateVerificationToken(email, t2, now, true);
    assert reply.status == 200;
    reply := store.VerifyEmail(t1, now + 1000);
    assert reply.status == 400;
    assert CanVerifyWith(store.users[email], t2, now + 1000);
    reply := store.VerifyEmail(t2, now + 1000);
    assert reply.status == 200;
  }
}
