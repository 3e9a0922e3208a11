/**
 * The account workflows of backend/main.py as functions from the store
 * before a request to the store after it and the reply. The store holds the
 * `users` and `password_reset_tokens` tables of backend/models/sql_models.py.
 */
module Accounts {
  import opened Wrappers
  import opened Auth

  /** `timedelta(hours=1)` in seconds. */
  const ResetTokenLifetime: int := 60 * 60

  const RegisteredMessage: string := "Registration successful! You can now log in."
  const EmailTakenDetail: string := "Email already registered"
  const InternalErrorDetail: string := "Internal Server Error"
  const VerifiedMessage: string := "Email verified successfully. You may now log in."
  const InvalidVerificationDetail: string := "Invalid or expired token"
  const InvalidCredentialsDetail: string := "Invalid credentials"
  const EmailNotVerifiedDetail: string := "Email not verified"
  const BadAuthenticationDetail: string := "Invalid authentication credentials"
  const UsernameTakenDetail: string := "Username already taken"
  const IncorrectPasswordDetail: string := "Incorrect current password"
  const PasswordUpdatedMessage: string := "Password updated successfully"
  const ResetRequestedMessage: string := "If an account exists with this email, a reset link has been sent"
  const InvalidResetDetail: string := "Invalid or expired token"
  const UserNotFoundDetail: string := "User not found"
  const PasswordResetMessage: string := "Password has been reset successfully"

  /**
   * A row of `users`: the columns the authentication routes read or write.
   * `password` holds the bcrypt hash.
   */
  datatype User = User(
    username: string,
    password: string,
    isAdmin: bool,
    email: Option<string>,
    emailIsVerified: bool,
    verificationToken: Option<string>)

  /** A row of `password_reset_tokens`; `expires` is in seconds. */
  datatype ResetRecord = ResetRecord(email: string, token: string, expires: int)

  /** The two tables: users by primary key `username`, reset records by their unique `token`. */
  datatype Db = Db(users: map<string, User>, resets: map<string, ResetRecord>)

  /** What a route answers: a message, the bearer token, the user row, or a raised HTTPException. */
  datatype Reply =
    | Message(text: string)
    | BearerToken(accessToken: string)
    | UserRow(user: User)
    | HttpException(status: int, detail: string)

  /** The store after a request and the reply sent. */
  datatype Outcome = Outcome(db: Db, reply: Reply)

  /** No two users share an email (the `unique=True` constraint; NULLs may repeat). */
  ghost predicate EmailsUnique(users: map<string, User>) {
    forall n, m :: n in users && m in users && n != m && users[n].email.Some? ==> users[n].email != users[m].email
  }

  /** The table constraints: keys are the rows' primary keys and emails are unique. */
  ghost predicate Valid(db: Db) {
    && (forall n :: n in db.users ==> db.users[n].username == n)
    && EmailsUnique(db.users)
    && (forall t :: t in db.resets ==> db.resets[t].token == t)
  }

  /** `query(DBUser).filter(DBUser.email == email).first()`, as a username. */
  ghost function UserWithEmail(users: map<string, User>, email: string): (r: Option<string>)
    ensures r.Some? ==> r.value in users && users[r.value].email == Some(email)
    ensures r.None? <==> forall n :: n in users ==> users[n].email != Some(email)
  {
    if exists n :: n in users && users[n].email == Some(email) then
      var n :| n in users && users[n].email == Some(email);
      Some(n)
    else
      None
  }

  /** With unique emails the user found is the only one holding that email. */
  lemma UserWithEmailIsUnique(users: map<string, User>, email: string, n: string)
    requires EmailsUnique(users)
    requires n in users && users[n].email == Some(email)
    ensures UserWithEmail(users, email) == Some(n)
  {
  }

  // ------------------------------------------------------------------ register

  /** The row `register_user` inserts: a hashed password, auto-verified, no token, not admin. */
  function NewUser(username: string, email: string, hashed: string): User {
    User(username, hashed, false, Some(email), true, None)
  }

  /** `register_user` (main.py:211-234). */
  ghost function Register(db: Db, username: string, email: string, password: string, bcrypt: Bcrypt, salt: string): (r: Outcome)
    ensures r.reply.HttpException? ==> r.db == db
    ensures UserWithEmail(db.users, email).Some? ==> r.reply == HttpException(400, EmailTakenDetail)
    ensures UserWithEmail(db.users, email).None? && username in db.users ==>
      r == Outcome(db, HttpException(500, InternalErrorDetail))
    ensures r.reply.Message? <==> UserWithEmail(db.users, email).None? && username !in db.users
    ensures r.reply.Message? ==>
      && r.reply.text == RegisteredMessage
      && r.db.resets == db.resets
      && r.db.users == db.users[username := NewUser(username, email, HashPassword(bcrypt, password, salt))]
  {
    if UserWithEmail(db.users, email).Some? then
      Outcome(db, HttpException(400, EmailTakenDetail))
    else if username in db.users then
      // the primary key is not checked before commit; the IntegrityError surfaces as a 500
      Outcome(db, HttpException(500, InternalErrorDetail))
    else
      var user := NewUser(username, email, HashPassword(bcrypt, password, salt));
      Outcome(db.(users := db.users[username := user]), Message(RegisteredMessage))
  }

  /** Registration keeps the table constraints and adds exactly one user. */
  lemma RegisterPreservesValid(db: Db, username: string, email: string, password: string, bcrypt: Bcrypt, salt: string)
    requires Valid(db)
    ensures Valid(Register(db, username, email, password, bcrypt, salt).db)
    ensures var r := Register(db, username, email, password, bcrypt, salt);
      r.reply.Message? ==> |r.db.users| == |db.users| + 1
  {
    var r := Register(db, username, email, password, bcrypt, salt);
    if r.reply.Message? {
      forall n, m | n in r.db.users && m in r.db.users && n != m && r.db.users[n].email.Some?
        ensures r.db.users[n].email != r.db.users[m].email
      {
        if n == username {
          assert m in db.users;
        } else if m == username {
          assert n in db.users;
        }
      }
    }
  }

  // ------------------------------------------------------------------ verify-email

  /** Every user's pending verification token has been cleared. */
  ghost predicate NoPendingVerification(users: map<string, User>) {
    forall n :: n in users ==> users[n].verificationToken == None
  }

  /**
   * `verify_email` (main.py:239-246): some user holding `token` becomes
   * verified with the token cleared, or 404 when no user holds it.
   */
  ghost predicate VerifyEmailStep(users: map<string, User>, token: string, users': map<string, User>, reply: Reply)
    ensures VerifyEmailStep(users, token, users', reply) ==>
      && users'.Keys == users.Keys
      && (reply == Message(VerifiedMessage) || reply == HttpException(404, InvalidVerificationDetail))
      && forall n :: n in users ==>
           users'[n] == users[n].(emailIsVerified := users'[n].emailIsVerified, verificationToken := users'[n].verificationToken)
  {
    if exists n :: n in users && users[n].verificationToken == Some(token) then
      && reply == Message(VerifiedMessage)
      && exists n :: n in users && users[n].verificationToken == Some(token)
           && users' == users[n := users[n].(emailIsVerified := true, verificationToken := None)]
    else
      users' == users && reply == HttpException(404, InvalidVerificationDetail)
  }

  /** A token held by at most one user verifies once; the same token then gets 404. */
  lemma VerificationTokenSingleUse(users0: map<string, User>, token: string, users1: map<string, User>, reply1: Reply,
                                    users2: map<string, User>, reply2: Reply)
    requires forall n, m ::
      n in users0 && m in users0 && users0[n].verificationToken == Some(token) && users0[m].verificationToken == Some(token)
      ==> n == m
    requires VerifyEmailStep(users0, token, users1, reply1) && reply1 == Message(VerifiedMessage)
    requires VerifyEmailStep(users1, token, users2, reply2)
    ensures reply2 == HttpException(404, InvalidVerificationDetail) && users2 == users1
  {
    var n :| n in users0 && users0[n].verificationToken == Some(token)
           && users1 == users0[n := users0[n].(emailIsVerified := true, verificationToken := None)];
    forall m | m in users1
      ensures users1[m].verificationToken != Some(token)
    {
      if m != n {
        assert users1[m] == users0[m];
      }
    }
  }

  /** Registered users carry no verification token, so `verify_email` can only answer 404 for them. */
  lemma RegisterLeavesNothingToVerify(db: Db, username: string, email: string, password: string, bcrypt: Bcrypt, salt: string,
                                       token: string, users': map<string, User>, reply: Reply)
    requires NoPendingVerification(db.users)
    requires VerifyEmailStep(Register(db, username, email, password, bcrypt, salt).db.users, token, users', reply)
    ensures NoPendingVerification(Register(db, username, email, password, bcrypt, salt).db.users)
    ensures reply == HttpException(404, InvalidVerificationDetail)
  {
    var users := Register(db, username, email, password, bcrypt, salt).db.users;
    assert forall n :: n in users ==> users[n].verificationToken == None;
  }

  // ------------------------------------------------------------------ login

  /** The claims `login` puts in the access token: exactly the username and the admin flag. */
  function LoginClaims(user: User): (c: Claims)
    ensures c.Keys == {UsernameClaim, IsAdminClaim}
    ensures c[UsernameClaim] == JStr(user.username) && c[IsAdminClaim] == JBool(user.isAdmin)
  {
    map[UsernameClaim := JStr(user.username), IsAdminClaim := JBool(user.isAdmin)]
  }

  /** `login` after the rate limiter has admitted the request (main.py:268-276). */
  ghost function Login(db: Db, email: string, password: string, bcrypt: Bcrypt, codec: JwtCodec, now: int): (r: Reply)
    ensures r.HttpException? || r.BearerToken?
    ensures r.HttpException? ==>
      r == HttpException(400, InvalidCredentialsDetail) || r == HttpException(403, EmailNotVerifiedDetail)
    ensures r == HttpException(400, InvalidCredentialsDetail) <==>
      var n := UserWithEmail(db.users, email);
      n.None? || !VerifyPassword(bcrypt, password, db.users[n.value].password)
    ensures r == HttpException(403, EmailNotVerifiedDetail) <==>
      var n := UserWithEmail(db.users, email);
      n.Some? && VerifyPassword(bcrypt, password, db.users[n.value].password) && !db.users[n.value].emailIsVerified
    ensures r.BearerToken? <==>
      var n := UserWithEmail(db.users, email);
      n.Some? && VerifyPassword(bcrypt, password, db.users[n.value].password) && db.users[n.value].emailIsVerified
    ensures r.BearerToken? ==>
      r.accessToken == codec.encode(TokenPayload(LoginClaims(db.users[UserWithEmail(db.users, email).value]), now, DefaultExpiresDelta))
  {
    var found := UserWithEmail(db.users, email);
    if found.None? || !VerifyPassword(bcrypt, password, db.users[found.value].password) then
      HttpException(400, InvalidCredentialsDetail)
    else
      var user := db.users[found.value];
      if !user.emailIsVerified then
        HttpException(403, EmailNotVerifiedDetail)
      else
        BearerToken(CreateAccessToken(codec, LoginClaims(user), now, DefaultExpiresDelta).value)
  }

  /** An unknown email and a wrong password are indistinguishable: both get 400 "Invalid credentials". */
  lemma LoginHidesWhichCredentialFailed(db: Db, email: string, password: string, bcrypt: Bcrypt, codec: JwtCodec, now: int)
    requires Valid(db)
    requires forall n :: n in db.users && db.users[n].email == Some(email) ==> !VerifyPassword(bcrypt, password, db.users[n].password)
    ensures Login(db, email, password, bcrypt, codec, now) == HttpException(400, InvalidCredentialsDetail)
  {
  }

  // ------------------------------------------------------------------ current user

  /** Python truthiness of a JSON value, as `not` sees it. */
  predicate Truthy(v: Json) {
    match v
    case JStr(s) => s != ""
    case JBool(b) => b
    case JInt(i) => i != 0
    case JNull => false
  }

  /**
   * `read_current_user`'s resolution of a bearer token to a stored username
   * (main.py:284-295): any decoding failure, a missing or falsy `username`
   * claim, or no such user gives 401. A non-string claim matches no row.
   */
  function ReadCurrentUser(db: Db, codec: JwtCodec, token: string, now: int): (r: Result<string, Reply>)
    ensures r.Failure? ==> r.error == HttpException(401, BadAuthenticationDetail)
    ensures r.Success? <==>
      && codec.decode(token, now).Decoded?
      && UsernameClaim in codec.decode(token, now).payload
      && codec.decode(token, now).payload[UsernameClaim].JStr?
      && codec.decode(token, now).payload[UsernameClaim].s != ""
      && codec.decode(token, now).payload[UsernameClaim].s in db.users
    ensures r.Success? ==> r.value == codec.decode(token, now).payload[UsernameClaim].s
  {
    match DecodeAccessToken(codec, token, now)
    case Failure(_) => Failure(HttpException(401, BadAuthenticationDetail))
    case Success(payload) =>
      if UsernameClaim !in payload || !Truthy(payload[UsernameClaim]) then
        Failure(HttpException(401, BadAuthenticationDetail))
      else
        match payload[UsernameClaim]
        case JStr(name) =>
          if name in db.users then Success(name) else Failure(HttpException(401, BadAuthenticationDetail))
        case _ => Failure(HttpException(401, BadAuthenticationDetail))
  }

  /**
   * The token a successful login returns identifies the same user to every
   * authenticated route until it expires a week later.
   */
  lemma LoginTokenIdentifiesUser(db: Db, email: string, password: string, bcrypt: Bcrypt, codec: JwtCodec, issuedAt: int, now: int)
    requires Valid(db) && RoundTrips(codec)
    requires Login(db, email, password, bcrypt, codec, issuedAt).BearerToken?
    requires db.users[UserWithEmail(db.users, email).value].username != ""
    ensures var token := Login(db, email, password, bcrypt, codec, issuedAt).accessToken;
      now < issuedAt + DefaultExpiresDelta ==>
        ReadCurrentUser(db, codec, token, now) == Success(UserWithEmail(db.users, email).value)
    ensures var token := Login(db, email, password, bcrypt, codec, issuedAt).accessToken;
      issuedAt + DefaultExpiresDelta <= now ==> ReadCurrentUser(db, codec, token, now).Failure?
  {
    var user := db.users[UserWithEmail(db.users, email).value];
    IssuedTokenRoundTrip(codec, LoginClaims(user), issuedAt, DefaultExpiresDelta, now);
  }

  /**
   * Registration takes any username string, "" included, and login issues a
   * token for it; `read_current_user` refuses a falsy username
   * (main.py:289-290), so that account holds a token no authenticated route
   * accepts, before expiry as after.
   */
  lemma EmptyUsernameTokenRefused(db: Db, email: string, password: string, bcrypt: Bcrypt, codec: JwtCodec,
                                  issuedAt: int, now: int)
    requires Valid(db) && RoundTrips(codec)
    requires Login(db, email, password, bcrypt, codec, issuedAt).BearerToken?
    requires db.users[UserWithEmail(db.users, email).value].username == ""
    ensures ReadCurrentUser(db, codec, Login(db, email, password, bcrypt, codec, issuedAt).accessToken, now)
      == Failure(HttpException(401, BadAuthenticationDetail))
  {
    var user := db.users[UserWithEmail(db.users, email).value];
    IssuedTokenRoundTrip(codec, LoginClaims(user), issuedAt, DefaultExpiresDelta, now);
  }

  // ------------------------------------------------------------------ update

  /** A field of a PATCH body: absent, or sent (possibly as null). */
  datatype Field<T> = Unset | Sent(value: T)

  /** `UserUpdate`: both fields optional and nullable. */
  datatype UserUpdate = UserUpdate(username: Field<Option<string>>, email: Field<Option<string>>)

  /** One `setattr(current_user, key, value)`. */
  datatype Assignment = SetUsername(username: Option<string>) | SetEmail(email: Option<string>)

  /** `user_update.dict(exclude_unset=True).items()`: the sent fields, in declaration order. */
  function UpdateData(update: UserUpdate): (items: seq<Assignment>)
    ensures |items| == (if update.username.Sent? then 1 else 0) + (if update.email.Sent? then 1 else 0)
    ensures update.username.Sent? ==> items[0] == SetUsername(update.username.value)
    ensures update.email.Sent? ==> items[|items| - 1] == SetEmail(update.email.value)
  {
    (if update.username.Sent? then [SetUsername(update.username.value)] else [])
    + (if update.email.Sent? then [SetEmail(update.email.value)] else [])
  }

  /** The attributes of the ORM object that `setattr` may touch; a username may be set to null in memory. */
  datatype Attributes = Attributes(username: Option<string>, email: Option<string>)

  /** The attributes after a run of `setattr` calls. */
  function ApplyAll(attrs: Attributes, items: seq<Assignment>): (r: Attributes)
    ensures (forall k :: 0 <= k < |items| ==> !items[k].SetUsername?) ==> r.username == attrs.username
    ensures (forall k :: 0 <= k < |items| ==> !items[k].SetEmail?) ==> r.email == attrs.email
    decreases |items|
  {
    if items == [] then attrs
    else
      var last := items[|items| - 1];
      var before := ApplyAll(attrs, items[..|items| - 1]);
      match last
      case SetUsername(u) => before.(username := u)
      case SetEmail(e) => before.(email := e)
  }

  /** Only the fields actually sent change, and each takes the sent value. */
  lemma {:induction false} ApplyOnlySentFields(attrs: Attributes, update: UserUpdate)
    ensures ApplyAll(attrs, UpdateData(update)).username
      == if update.username.Sent? then update.username.value else attrs.username
    ensures ApplyAll(attrs, UpdateData(update)).email
      == if update.email.Sent? then update.email.value else attrs.email
  {
    var items := UpdateData(update);
    if update.username.Sent? && update.email.Sent? {
      assert items[..1] == [SetUsername(update.username.value)];
      assert items[..1][..0] == [];
    } else if update.username.Sent? || update.email.Sent? {
      assert items[..0] == [];
    }
  }

  /**
   * The commit of `update_user`: a null primary key or an email already held
   * by another row fails with a 500 and nothing is stored.
   */
  function Commit(db: Db, current: string, attrs: Attributes): (r: Outcome)
    requires current in db.users
    ensures r.reply.HttpException? || r.reply.UserRow?
    ensures r.reply.HttpException? ==> r == Outcome(db, HttpException(500, InternalErrorDetail))
    ensures r.reply.HttpException? <==>
      || attrs.username.None?
      || (attrs.email.Some? && exists n :: n in db.users && n != current && db.users[n].email == attrs.email)
  {
    if attrs.username.None? then
      Outcome(db, HttpException(500, InternalErrorDetail))
    else if attrs.email.Some? && exists n :: n in db.users && n != current && db.users[n].email == attrs.email then
      Outcome(db, HttpException(500, InternalErrorDetail))
    else
      var row := db.users[current].(username := attrs.username.value, email := attrs.email);
      Outcome(db.(users := (db.users - {current})[row.username := row]), UserRow(row))
  }

  /** `update_user` (main.py:304-315) for the user the bearer token resolves to. */
  function UpdateUser(db: Db, codec: JwtCodec, token: string, now: int, update: UserUpdate): (r: Outcome)
    ensures r.reply.HttpException? ==> r.db == db
    ensures r.reply.HttpException? || r.reply.UserRow?
    ensures ReadCurrentUser(db, codec, token, now).Failure? ==>
      r == Outcome(db, ReadCurrentUser(db, codec, token, now).error)
    ensures r.reply == HttpException(400, UsernameTakenDetail) <==>
      && ReadCurrentUser(db, codec, token, now).Success?
      && update.username.Sent? && update.username.value.Some? && update.username.value.value in db.users
    ensures r.reply.UserRow? <==>
      && ReadCurrentUser(db, codec, token, now).Success?
      && !(update.username.Sent? && update.username.value.None?)
      && !(update.username.Sent? && update.username.value.Some? && update.username.value.value in db.users)
      && var current := ReadCurrentUser(db, codec, token, now).value;
         var email := if update.email.Sent? then update.email.value else db.users[current].email;
         !(email.Some? && exists n :: n in db.users && n != current && db.users[n].email == email)
  {
    match ReadCurrentUser(db, codec, token, now)
    case Failure(e) => Outcome(db, e)
    case Success(current) =>
      if update.username.Sent? && update.username.value.Some? && update.username.value.value in db.users then
        Outcome(db, HttpException(400, UsernameTakenDetail))
      else
        var user := db.users[current];
        var attrs := Attributes(Some(user.username), user.email);
        ApplyOnlySentFields(attrs, update);
        Commit(db, current, ApplyAll(attrs, UpdateData(update)))
  }

  /** Any username already in the store is refused with 400, including the caller's own. */
  lemma UpdateRejectsTakenUsername(db: Db, codec: JwtCodec, token: string, now: int, update: UserUpdate)
    requires ReadCurrentUser(db, codec, token, now).Success?
    requires update.username.Sent? && update.username.value.Some? && update.username.value.value in db.users
    ensures UpdateUser(db, codec, token, now, update) == Outcome(db, HttpException(400, UsernameTakenDetail))
  {
  }

  /** A commit that succeeds rewrites only the caller's row, under its new key, and keeps the table constraints. */
  lemma CommitPreservesValid(db: Db, current: string, attrs: Attributes)
    requires Valid(db) && current in db.users
    requires attrs.username.Some? && (attrs.username.value == current || attrs.username.value !in db.users)
    requires Commit(db, current, attrs).reply.UserRow?
    ensures var r := Commit(db, current, attrs);
      && r.reply.user == db.users[current].(username := attrs.username.value, email := attrs.email)
      && r.db.users == (db.users - {current})[attrs.username.value := r.reply.user]
      && r.db.resets == db.resets
      && Valid(r.db)
  {
    var r := Commit(db, current, attrs);
    var row := r.reply.user;
    forall n, m | n in r.db.users && m in r.db.users && n != m && r.db.users[n].email.Some?
      ensures r.db.users[n].email != r.db.users[m].email
    {
      if n == row.username {
        assert m in db.users && m != current;
      } else if m == row.username {
        assert n in db.users && n != current;
      } else {
        assert n in db.users && m in db.users;
      }
    }
  }

  /**
   * A successful update rewrites only the caller's row, changes only the
   * fields that were sent, and keeps the table constraints.
   */
  lemma UpdateChangesOnlySentFields(db: Db, codec: JwtCodec, token: string, now: int, update: UserUpdate)
    requires Valid(db)
    requires UpdateUser(db, codec, token, now, update).reply.UserRow?
    ensures var current := ReadCurrentUser(db, codec, token, now).value;
      var r := UpdateUser(db, codec, token, now, update);
      && Some(r.reply.user.username) == (if update.username.Sent? then update.username.value else Some(current))
      && r.reply.user.email == (if update.email.Sent? then update.email.value else db.users[current].email)
      && r.reply.user == db.users[current].(username := r.reply.user.username, email := r.reply.user.email)
      && r.db.users == (db.users - {current})[r.reply.user.username := r.reply.user]
      && r.db.resets == db.resets
      && Valid(r.db)
  {
    var current := ReadCurrentUser(db, codec, token, now).value;
    var user := db.users[current];
    var attrs := Attributes(Some(user.username), user.email);
    ApplyOnlySentFields(attrs, update);
    CommitPreservesValid(db, current, ApplyAll(attrs, UpdateData(update)));
  }

  // ------------------------------------------------------------------ change password

  /** `change_password` (main.py:324-329) for the user the bearer token resolves to. */
  function ChangePassword(db: Db, codec: JwtCodec, bcrypt: Bcrypt, token: string, now: int,
                          currentPassword: string, newPassword: string, salt: string): (r: Outcome)
    ensures r.reply.HttpException? ==> r.db == db
    ensures ReadCurrentUser(db, codec, token, now).Failure? ==>
      r == Outcome(db, ReadCurrentUser(db, codec, token, now).error)
    ensures var current := ReadCurrentUser(db, codec, token, now);
      current.Success? && !VerifyPassword(bcrypt, currentPassword, db.users[current.value].password) ==>
        r == Outcome(db, HttpException(400, IncorrectPasswordDetail))
    ensures r.reply == Message(PasswordUpdatedMessage) <==>
      var current := ReadCurrentUser(db, codec, token, now);
      current.Success? && VerifyPassword(bcrypt, currentPassword, db.users[current.value].password)
    ensures r.reply == Message(PasswordUpdatedMessage) ==>
      var current := ReadCurrentUser(db, codec, token, now).value;
      r.db == db.(users := db.users[current := db.users[current].(password := HashPassword(bcrypt, newPassword, salt))])
  {
    match ReadCurrentUser(db, codec, token, now)
    case Failure(e) => Outcome(db, e)
    case Success(current) =>
      var user := db.users[current];
      if !VerifyPassword(bcrypt, currentPassword, user.password) then
        Outcome(db, HttpException(400, IncorrectPasswordDetail))
      else
        Outcome(db.(users := db.users[current := user.(password := HashPassword(bcrypt, newPassword, salt))]),
                Message(PasswordUpdatedMessage))
  }

  /**
   * After a password change the new password is accepted and, for an
   * idealised hash, the old one (if different) is not.
   */
  lemma ChangePasswordTakesEffect(db: Db, codec: JwtCodec, bcrypt: Bcrypt, token: string, now: int,
                                  currentPassword: string, newPassword: string, salt: string)
    requires ChecksOwnHash(bcrypt)
    requires ChangePassword(db, codec, bcrypt, token, now, currentPassword, newPassword, salt).reply.Message?
    ensures var current := ReadCurrentUser(db, codec, token, now).value;
      var users := ChangePassword(db, codec, bcrypt, token, now, currentPassword, newPassword, salt).db.users;
      && VerifyPassword(bcrypt, newPassword, users[current].password)
      && (RejectsOtherPasswords(bcrypt) && currentPassword != newPassword ==>
            !VerifyPassword(bcrypt, currentPassword, users[current].password))
  {
  }

  // ------------------------------------------------------------------ password reset

  /**
   * `request_password_reset` (main.py:345-363) with `resetToken` the fresh
   * uuid4 value. A token colliding with a stored one fails the unique
   * constraint at commit, which the handler swallows.
   */
  ghost function RequestPasswordReset(db: Db, email: string, resetToken: string, now: int): (r: Outcome)
    ensures r.reply == Message(ResetRequestedMessage)
    ensures r.db.users == db.users
    ensures r.db.resets != db.resets <==> UserWithEmail(db.users, email).Some? && resetToken !in db.resets
    ensures r.db.resets != db.resets ==>
      r.db.resets == db.resets[resetToken := ResetRecord(email, resetToken, now + ResetTokenLifetime)]
  {
    if UserWithEmail(db.users, email).Some? && resetToken !in db.resets then
      Outcome(db.(resets := db.resets[resetToken := ResetRecord(email, resetToken, now + ResetTokenLifetime)]),
              Message(ResetRequestedMessage))
    else
      Outcome(db, Message(ResetRequestedMessage))
  }

  /** The reply to a reset request cannot tell whether an account exists. */
  lemma ResetRequestHidesAccounts(db1: Db, db2: Db, email: string, token1: string, token2: string, now1: int, now2: int)
    requires UserWithEmail(db1.users, email).Some? && UserWithEmail(db2.users, email).None?
    ensures RequestPasswordReset(db1, email, token1, now1).reply == RequestPasswordReset(db2, email, token2, now2).reply
    ensures RequestPasswordReset(db2, email, token2, now2).db == db2
  {
  }

  /** Several reset records may be outstanding for one email: a second request keeps the first record. */
  lemma ResetRequestsAccumulate(db: Db, email: string, token1: string, token2: string, t1: int, t2: int)
    requires UserWithEmail(db.users, email).Some?
    requires token1 !in db.resets && token2 !in db.resets && token1 != token2
    ensures var db2 := RequestPasswordReset(RequestPasswordReset(db, email, token1, t1).db, email, token2, t2).db;
      && db2.resets[token1] == ResetRecord(email, token1, t1 + ResetTokenLifetime)
      && db2.resets[token2] == ResetRecord(email, token2, t2 + ResetTokenLifetime)
  {
    var db1 := RequestPasswordReset(db, email, token1, t1).db;
    assert db1.users == db.users;
  }

  /**
   * `confirm_password_reset` (main.py:384-399): the record must exist and
   * expire strictly after `now`; its owner must exist; then the password is
   * re-hashed and the record deleted.
   */
  ghost function ConfirmPasswordReset(db: Db, token: string, newPassword: string, bcrypt: Bcrypt, salt: string, now: int): (r: Outcome)
    ensures r.reply.HttpException? || r.reply == Message(PasswordResetMessage)
    ensures r.reply.HttpException? ==>
      r.reply == HttpException(400, InvalidResetDetail) || r.reply == HttpException(404, UserNotFoundDetail)
    ensures r.reply.HttpException? ==> r.db == db
    ensures r.reply == HttpException(400, InvalidResetDetail) <==> token !in db.resets || db.resets[token].expires <= now
    ensures r.reply == HttpException(404, UserNotFoundDetail) <==>
      token in db.resets && db.resets[token].expires > now && UserWithEmail(db.users, db.resets[token].email).None?
    ensures r.reply.Message? ==>
      && r.reply.text == PasswordResetMessage
      && token in db.resets
      && var owner := UserWithEmail(db.users, db.resets[token].email).value;
         r.db == Db(db.users[owner := db.users[owner].(password := HashPassword(bcrypt, newPassword, salt))],
                    db.resets - {token})
  {
    if token !in db.resets || db.resets[token].expires <= now then
      Outcome(db, HttpException(400, InvalidResetDetail))
    else
      var record := db.resets[token];
      var owner := UserWithEmail(db.users, record.email);
      if owner.None? then
        Outcome(db, HttpException(404, UserNotFoundDetail))
      else
        var user := db.users[owner.value];
        Outcome(Db(db.users[owner.value := user.(password := HashPassword(bcrypt, newPassword, salt))], db.resets - {token}),
                Message(PasswordResetMessage))
  }

  /** A reset token is single-use: once redeemed, confirming with it again fails with 400. */
  lemma ResetTokenSingleUse(db: Db, token: string, p1: string, p2: string, bcrypt: Bcrypt, s1: string, s2: string, t1: int, t2: int)
    requires ConfirmPasswordReset(db, token, p1, bcrypt, s1, t1).reply.Message?
    ensures var db1 := ConfirmPasswordReset(db, token, p1, bcrypt, s1, t1).db;
      ConfirmPasswordReset(db1, token, p2, bcrypt, s2, t2) == Outcome(db1, HttpException(400, InvalidResetDetail))
  {
  }

  /** Confirming a reset keeps the table constraints. */
  lemma ConfirmPreservesValid(db: Db, token: string, newPassword: string, bcrypt: Bcrypt, salt: string, now: int)
    requires Valid(db)
    ensures Valid(ConfirmPasswordReset(db, token, newPassword, bcrypt, salt, now).db)
  {
    var r := ConfirmPasswordReset(db, token, newPassword, bcrypt, salt, now);
    if r.reply.Message? {
      var owner := UserWithEmail(db.users, db.resets[token].email).value;
      forall n, m | n in r.db.users && m in r.db.users && n != m && r.db.users[n].email.Some?
        ensures r.db.users[n].email != r.db.users[m].email
      {
        assert r.db.users[n].email == db.users[n].email && r.db.users[m].email == db.users[m].email;
      }
    }
  }

  /**
   * The reset workflow end to end: a reset requested for a registered email
   * can be confirmed within the hour, after which the new password passes
   * the login credential check and the token is spent; from the hour on the
   * token is refused.
   */
  lemma ResetWorkflow(db: Db, email: string, resetToken: string, requestedAt: int,
                      newPassword: string, bcrypt: Bcrypt, salt: string, now: int, codec: JwtCodec)
    requires Valid(db) && ChecksOwnHash(bcrypt)
    requires UserWithEmail(db.users, email).Some? && resetToken !in db.resets
    ensures var db1 := RequestPasswordReset(db, email, resetToken, requestedAt).db;
      var r := ConfirmPasswordReset(db1, resetToken, newPassword, bcrypt, salt, now);
      if now < requestedAt + ResetTokenLifetime then
        && r.reply == Message(PasswordResetMessage)
        && Login(r.db, email, newPassword, bcrypt, codec, now) != HttpException(400, InvalidCredentialsDetail)
        && resetToken !in r.db.resets
      else
        r == Outcome(db1, HttpException(400, InvalidResetDetail))
  {
    var owner := UserWithEmail(db.users, email).value;
    var db1 := RequestPasswordReset(db, email, resetToken, requestedAt).db;
    var r := ConfirmPasswordReset(db1, resetToken, newPassword, bcrypt, salt, now);
    if now < requestedAt + ResetTokenLifetime {
      UserWithEmailIsUnique(db1.users, email, owner);
      ConfirmPreservesValid(db1, resetToken, newPassword, bcrypt, salt, now);
      assert r.db.users[owner].email == Some(email);
      UserWithEmailIsUnique(r.db.users, email, owner);
    }
  }

  /** A freshly registered account passes login with its password: registration auto-verifies. */
  lemma RegisterThenLogin(db: Db, username: string, email: string, password: string, bcrypt: Bcrypt, salt: string,
                          codec: JwtCodec, now: int)
    requires Valid(db) && ChecksOwnHash(bcrypt)
    requires Register(db, username, email, password, bcrypt, salt).reply.Message?
    ensures Login(Register(db, username, email, password, bcrypt, salt).db, email, password, bcrypt, codec, now).BearerToken?
  {
    var db1 := Register(db, username, email, password, bcrypt, salt).db;
    RegisterPreservesValid(db, username, email, password, bcrypt, salt);
    UserWithEmailIsUnique(db1.users, email, username);
  }
}
