/**
 * The authentication routes of backend/main.py as methods of an object
 * holding the user store and the reset-token store, each proved to follow
 * its specification in module Accounts.
 */
module Api {
  import opened Wrappers
  import opened Auth
  import opened Accounts
  import RateLimit

  /** Every character is a decimal digit. */
  predicate IsDigits(s: string) {
    forall k :: 0 <= k < |s| ==> '0' <= s[k] <= '9'
  }

  /** The number a string of decimal digits denotes, most significant digit first. */
  function DecimalValue(s: string): nat
    requires IsDigits(s)
  {
    if s == [] then 0 else 10 * DecimalValue(s[..|s| - 1]) + (s[|s| - 1] as int - '0' as int)
  }

  /** Decimal digits of a natural number, as Python's f-string prints it. */
  function NatString(n: nat): (s: string)
    ensures |s| > 0 && IsDigits(s)
    ensures n > 0 ==> s[0] != '0'
  {
    if n < 10 then ["0123456789"[n]] else NatString(n / 10) + ["0123456789"[n % 10]]
  }

  /** Reading back the digits `NatString` prints gives the number. */
  lemma {:induction false} DecimalValueOfNatString(n: nat)
    ensures DecimalValue(NatString(n)) == n
  {
    var s := NatString(n);
    if n < 10 {
      assert s[..0] == [];
    } else {
      assert s[..|s| - 1] == NatString(n / 10);
      DecimalValueOfNatString(n / 10);
    }
  }

  /** Decimal form of an integer, with a leading minus sign when negative. */
  function IntString(i: int): (s: string)
    ensures i >= 0 ==> IsDigits(s) && DecimalValue(s) == i
    ensures i < 0 ==> |s| > 1 && s[0] == '-' && IsDigits(s[1..]) && DecimalValue(s[1..]) == -i
  {
    if i < 0 then
      DecimalValueOfNatString(-i);
      assert ("-" + NatString(-i))[1..] == NatString(-i);
      "-" + NatString(-i)
    else
      DecimalValueOfNatString(i);
      NatString(i)
  }

  const RateLimitPrefix: string := "Rate limit exceeded. Try again in "
  const RateLimitSuffix: string := " seconds"

  /** The 429 detail of `rate_limit` (main.py:152-155): the wait in decimal between a fixed prefix and suffix. */
  function RateLimitDetail(waitSeconds: int): (d: string)
    ensures |d| > |RateLimitPrefix| + |RateLimitSuffix|
    ensures d[..|RateLimitPrefix|] == RateLimitPrefix && d[|d| - |RateLimitSuffix|..] == RateLimitSuffix
    ensures d[|RateLimitPrefix|..|d| - |RateLimitSuffix|] == IntString(waitSeconds)
    ensures waitSeconds >= 0 ==>
      var digits := d[|RateLimitPrefix|..|d| - |RateLimitSuffix|];
      IsDigits(digits) && DecimalValue(digits) == waitSeconds
  {
    var d := RateLimitPrefix + IntString(waitSeconds) + RateLimitSuffix;
    assert d[|RateLimitPrefix|..|d| - |RateLimitSuffix|] == IntString(waitSeconds);
    d
  }

  /** The `for key, value in update_data.items(): setattr(current_user, key, value)` loop of `update_user`. */
  method SetAttributes(initial: Attributes, updateData: seq<Assignment>) returns (attrs: Attributes)
    ensures attrs == ApplyAll(initial, updateData)
  {
    attrs := initial;
    var i := 0;
    while i < |updateData|
      invariant 0 <= i <= |updateData|
      invariant attrs == ApplyAll(initial, updateData[..i])
    {
      assert updateData[..i + 1][..i] == updateData[..i];
      match updateData[i] {
        case SetUsername(u) => attrs := attrs.(username := u);
        case SetEmail(e) => attrs := attrs.(email := e);
      }
      i := i + 1;
    }
    assert updateData[..i] == updateData;
  }

  /** The application: the two tables, bcrypt, and the JWT library keyed with JWT_SECRET. */
  class AuthApi {
    var users: map<string, User>
    var resets: map<string, ResetRecord>
    const bcrypt: Bcrypt
    const jwt: JwtCodec

    ghost function State(): Db
      reads this
    {
      Db(users, resets)
    }

    ghost predicate Valid()
      reads this
    {
      Accounts.Valid(State())
    }

    constructor (db: Db, bcrypt: Bcrypt, jwt: JwtCodec)
      requires Accounts.Valid(db)
      ensures Valid() && State() == db && this.bcrypt == bcrypt && this.jwt == jwt
    {
      users := db.users;
      resets := db.resets;
      this.bcrypt := bcrypt;
      this.jwt := jwt;
    }

    /** `db.query(DBUser).filter(DBUser.email == email).first()`. */
    method FindUserByEmail(email: string) returns (found: Option<string>)
      requires Valid()
      ensures found == UserWithEmail(users, email)
    {
      if exists n :: n in users && users[n].email == Some(email) {
        var n :| n in users && users[n].email == Some(email);
        UserWithEmailIsUnique(users, email, n);
        found := Some(n);
      } else {
        found := None;
      }
    }

    /**
     * `register_user`. The verification email that follows is left out: its
     * outcome is caught and logged and changes neither the store nor the reply.
     */
    method RegisterUser(username: string, email: string, password: string, salt: string) returns (reply: Reply)
      requires Valid()
      modifies this
      ensures Valid()
      ensures Outcome(State(), reply) == Register(old(State()), username, email, password, bcrypt, salt)
    {
      RegisterPreservesValid(State(), username, email, password, bcrypt, salt);
      var existing := FindUserByEmail(email);
      if existing.Some? {
        return HttpException(400, EmailTakenDetail);
      }
      var hashed := HashPassword(bcrypt, password, salt);
      var row := NewUser(username, email, hashed);
      if username in users {
        // db.commit() fails on the primary key
        return HttpException(500, InternalErrorDetail);
      }
      users := users[username := row];
      reply := Message(RegisteredMessage);
    }

    /** `verify_email`: one user holding the token is verified and the token cleared. */
    method VerifyEmail(token: string) returns (reply: Reply)
      requires Valid()
      modifies this
      ensures Valid()
      ensures resets == old(resets)
      ensures VerifyEmailStep(old(users), token, users, reply)
    {
      if exists n :: n in users && users[n].verificationToken == Some(token) {
        var n :| n in users && users[n].verificationToken == Some(token);
        users := users[n := users[n].(emailIsVerified := true, verificationToken := None)];
        reply := Message(VerifiedMessage);
        assert forall m :: m in users ==> users[m].email == old(users)[m].email;
      } else {
        reply := HttpException(404, InvalidVerificationDetail);
      }
    }

    /**
     * `login` with its `rate_limit` dependency: the limiter consumes a slot
     * for the client's IP before the credentials are looked at.
     */
    method Login(limiter: RateLimit.RateLimiter, clientIp: string, email: string, password: string, now: int)
      returns (reply: Reply)
      requires Valid() && limiter.Valid()
      modifies limiter
      ensures limiter.Valid()
      ensures var step := RateLimit.Step(old(limiter.ipRequestCounts), clientIp, now);
        && limiter.ipRequestCounts == step.counts
        && reply == if step.admission.Rejected? then HttpException(429, RateLimitDetail(step.admission.waitSeconds))
                    else Accounts.Login(State(), email, password, bcrypt, jwt, now)
    {
      var admission := limiter.RateLimit(clientIp, now);
      if admission.Rejected? {
        return HttpException(429, RateLimitDetail(admission.waitSeconds));
      }
      var found := FindUserByEmail(email);
      if found.None? || !VerifyPassword(bcrypt, password, users[found.value].password) {
        return HttpException(400, InvalidCredentialsDetail);
      }
      var user := users[found.value];
      if !user.emailIsVerified {
        return HttpException(403, EmailNotVerifiedDetail);
      }
      var accessToken := CreateAccessToken(jwt, LoginClaims(user), now, DefaultExpiresDelta);
      reply := BearerToken(accessToken.value);
    }

    /** `read_current_user`: the row of the user the bearer token names, or 401. */
    method ReadCurrentUserRoute(token: string, now: int) returns (reply: Reply)
      ensures reply.UserRow? <==> ReadCurrentUser(State(), jwt, token, now).Success?
      ensures reply.UserRow? ==> reply.user == users[ReadCurrentUser(State(), jwt, token, now).value]
      ensures !reply.UserRow? ==> reply == HttpException(401, BadAuthenticationDetail)
    {
      var current := ReadCurrentUser(Db(users, resets), jwt, token, now);
      if current.Failure? {
        return current.error;
      }
      reply := UserRow(users[current.value]);
    }

    /** `update_user`: the sent fields are applied one `setattr` at a time, then committed. */
    method UpdateUser(token: string, now: int, update: UserUpdate) returns (reply: Reply)
      requires Valid()
      modifies this
      ensures Valid()
      ensures Outcome(State(), reply) == Accounts.UpdateUser(old(State()), jwt, token, now, update)
    {
      var resolved := ReadCurrentUser(Db(users, resets), jwt, token, now);
      if resolved.Failure? {
        return resolved.error;
      }
      var current := resolved.value;
      var updateData := UpdateData(update);
      if update.username.Sent? && update.username.value.Some? && update.username.value.value in users {
        return HttpException(400, UsernameTakenDetail);
      }
      var user := users[current];
      var initial := Attributes(Some(user.username), user.email);
      var attrs := SetAttributes(initial, updateData);
      ApplyOnlySentFields(initial, update);
      // db.commit()
      if attrs.username.None? {
        return HttpException(500, InternalErrorDetail);
      }
      if attrs.email.Some? && exists n :: n in users && n != current && users[n].email == attrs.email {
        return HttpException(500, InternalErrorDetail);
      }
      CommitPreservesValid(State(), current, attrs);
      var row := user.(username := attrs.username.value, email := attrs.email);
      users := (users - {current})[row.username := row];
      reply := UserRow(row);
    }

    /** `change_password`: the stored hash is replaced only when the current password checks. */
    method ChangePassword(token: string, now: int, currentPassword: string, newPassword: string, salt: string)
      returns (reply: Reply)
      requires Valid()
      modifies this
      ensures Valid()
      ensures Outcome(State(), reply) == Accounts.ChangePassword(old(State()), jwt, bcrypt, token, now, currentPassword, newPassword, salt)
    {
      var resolved := ReadCurrentUser(Db(users, resets), jwt, token, now);
      if resolved.Failure? {
        return resolved.error;
      }
      var current := resolved.value;
      if !VerifyPassword(bcrypt, currentPassword, users[current].password) {
        return HttpException(400, IncorrectPasswordDetail);
      }
      users := users[current := users[current].(password := HashPassword(bcrypt, newPassword, salt))];
      assert forall m :: m in users ==> users[m].email == old(users)[m].email;
      reply := Message(PasswordUpdatedMessage);
    }

    /**
     * `request_password_reset` with `resetToken` the uuid4 it draws. The reset
     * email and the fallback taken when storage or email fails are left out.
     */
    method RequestPasswordReset(email: string, resetToken: string, now: int) returns (reply: Reply)
      requires Valid()
      modifies this
      ensures Valid()
      ensures Outcome(State(), reply) == Accounts.RequestPasswordReset(old(State()), email, resetToken, now)
    {
      var found := FindUserByEmail(email);
      if found.Some? {
        var expires := now + ResetTokenLifetime;
        var record := ResetRecord(email, resetToken, expires);
        if resetToken !in resets {
          resets := resets[resetToken := record];
        }
      }
      reply := Message(ResetRequestedMessage);
    }

    /** `confirm_password_reset`: redeem an unexpired reset token once. */
    method ConfirmPasswordReset(token: string, newPassword: string, salt: string, now: int) returns (reply: Reply)
      requires Valid()
      modifies this
      ensures Valid()
      ensures Outcome(State(), reply) == Accounts.ConfirmPasswordReset(old(State()), token, newPassword, bcrypt, salt, now)
    {
      ConfirmPreservesValid(State(), token, newPassword, bcrypt, salt, now);
      if token !in resets || !(resets[token].expires > now) {
        return HttpException(400, InvalidResetDetail);
      }
      var record := resets[token];
      var owner := FindUserByEmail(record.email);
      if owner.None? {
        return HttpException(404, UserNotFoundDetail);
      }
      users := users[owner.value := users[owner.value].(password := HashPassword(bcrypt, newPassword, salt))];
      resets := resets - {token};
      reply := Message(PasswordResetMessage);
    }
  }
}
