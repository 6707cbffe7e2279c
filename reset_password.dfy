/**
 * POST /api/auth/reset-password (src/app/api/auth/reset-password/route.ts): consume a live
 * password-reset token and store the bcrypt hash of the new password, in one transaction.
 */
module ResetPasswordRoute {
  import opened Common
  import opened Strings
  import opened Tokens
  import opened CredentialStore
  import SigninRoute
  import Bcrypt

  datatype ResetBody = ResetBody(token: JsonField, password: JsonField)

  const InvalidPayload := Response(400, ErrorBody("Invalid reset payload"))
  const InvalidResetLink := Response(400, ErrorBody("This reset link is invalid or has expired."))
  const PasswordUpdated := Response(200, MessageBody("Password updated. You can sign in with the new password."))
  const ResetFailed := Response(500, ErrorBody("Unable to reset password right now"))

  /**
   * The handler. `salt` is the randomness `bcrypt.hash(password, 12)` draws. A record whose
   * owner is gone makes the transaction's update throw; both writes roll back and the handler
   * answers 500.
   */
  function Reset(s: Store, p: Platform, now: Time, salt: Salt, body: Json<ResetBody>): Outcome {
    match body
    case Malformed => Outcome(s, ResetFailed, None)
    case Object(f) =>
      if !(TokenField(f.token) && PasswordField(f.password)) then Outcome(s, InvalidPayload, None)
      else
        var h := p.hashToken(f.token.value);
        if h !in s.passwordResetToken || s.passwordResetToken[h].expiresAt < now then Outcome(s, InvalidResetLink, None)
        else
          var rec := s.passwordResetToken[h];
          if !HasUserId(s.users, rec.userId) then Outcome(s, ResetFailed, None)
          else
            var hash := p.bcryptHash(f.password.value, salt);
            Outcome(s.(users := UpdateUser(s.users, rec.userId, SetPasswordHash(hash)),
                       passwordResetToken := s.passwordResetToken - {h}),
                    PasswordUpdated, None)
  }

  /**
   * A body whose token is not a string of at least 10 characters, or whose password is not a
   * string of 8..72, gets 400 "Invalid reset payload" before any lookup and changes nothing; a
   * body that is not JSON gets 500.
   */
  lemma ResetInvalidPayload(s: Store, p: Platform, now: Time, salt: Salt, f: ResetBody)
    requires !(TokenField(f.token) && PasswordField(f.password))
    ensures Reset(s, p, now, salt, Object(f)) == Outcome(s, InvalidPayload, None)
    ensures Reset(s, p, now, salt, Malformed) == Outcome(s, ResetFailed, None)
  {
  }

  /** Everything but a success leaves the store as it was (an expired record is not deleted). */
  lemma ResetFailureLeavesStore(s: Store, p: Platform, now: Time, salt: Salt, body: Json<ResetBody>)
    ensures Reset(s, p, now, salt, body).response != PasswordUpdated ==> Reset(s, p, now, salt, body).store == s
    ensures Reset(s, p, now, salt, body).email.None?
  {
  }

  /**
   * A success: the token was a live reset token; its owner now holds the bcrypt hash of the new
   * password, keeps their verification state, and that record is gone; every other user and the
   * other tables are unchanged.
   */
  lemma ResetEffect(s: Store, p: Platform, now: Time, salt: Salt, f: ResetBody)
    requires Reset(s, p, now, salt, Object(f)).response == PasswordUpdated
    ensures var o := Reset(s, p, now, salt, Object(f));
      var h := p.hashToken(f.token.value);
      && h in s.passwordResetToken && s.passwordResetToken[h].expiresAt >= now
      && PasswordField(f.password)
      && o.store.passwordResetToken == s.passwordResetToken - {h}
      && o.store.emailVerificationToken == s.emailVerificationToken
      && o.store.verificationToken == s.verificationToken
      && o.store.users.Keys == s.users.Keys
      && (forall e :: e in s.users && s.users[e].id == s.passwordResetToken[h].userId ==>
            o.store.users[e] == s.users[e].(passwordHash := Some(p.bcryptHash(f.password.value, salt))))
      && (forall e :: e in s.users && s.users[e].id != s.passwordResetToken[h].userId ==>
            o.store.users[e] == s.users[e])
  {
  }

  /** A live record with an existing owner is always honoured, including at its expiry instant. */
  lemma ResetAcceptsLiveToken(s: Store, p: Platform, now: Time, salt: Salt, f: ResetBody)
    requires TokenField(f.token) && PasswordField(f.password)
    requires p.hashToken(f.token.value) in s.passwordResetToken
    requires s.passwordResetToken[p.hashToken(f.token.value)].expiresAt >= now
    requires HasUserId(s.users, s.passwordResetToken[p.hashToken(f.token.value)].userId)
    ensures Reset(s, p, now, salt, Object(f)).response == PasswordUpdated
  {
  }

  /**
   * An unknown token and a stored but expired one get the same 400 "invalid or has expired"
   * reply, and neither changes anything: the expired record stays stored.
   */
  lemma ResetRefusesUnknownOrExpired(s: Store, p: Platform, now: Time, salt: Salt, f: ResetBody)
    requires TokenField(f.token) && PasswordField(f.password)
    requires var h := p.hashToken(f.token.value);
      h !in s.passwordResetToken || s.passwordResetToken[h].expiresAt < now
    ensures Reset(s, p, now, salt, Object(f)) == Outcome(s, InvalidResetLink, None)
  {
  }

  /** Reset tokens are single-use. */
  lemma ResetTokenSingleUse(s: Store, p: Platform, now1: Time, now2: Time, salt1: Salt, salt2: Salt,
                            f: ResetBody, g: ResetBody)
    requires Reset(s, p, now1, salt1, Object(f)).response == PasswordUpdated
    requires g.token == f.token && PasswordField(g.password)
    ensures var s1 := Reset(s, p, now1, salt1, Object(f)).store;
      Reset(s1, p, now2, salt2, Object(g)) == Outcome(s1, InvalidResetLink, None)
  {
  }

  /**
   * After a reset the owner's hash matches exactly the passwords bcrypt cannot tell from the new
   * one: those with the same 72-byte key (`Bcrypt.Key`). For NUL-free ASCII passwords that is the
   * new password alone (Bcrypt.AsciiKeyInjective); the old one matches only if it shares that key.
   */
  lemma ResetChangesPassword(s: Store, p: Platform, now: Time, salt: Salt, f: ResetBody, e: string)
    requires BcryptKeyed(p)
    requires Reset(s, p, now, salt, Object(f)).response == PasswordUpdated
    requires e in s.users && s.users[e].id == s.passwordResetToken[p.hashToken(f.token.value)].userId
    ensures var u := Reset(s, p, now, salt, Object(f)).store.users[e];
      && u.passwordHash.Some?
      && (forall other :: p.bcryptCompare(other, u.passwordHash.value) <==>
            Bcrypt.Key(other) == Bcrypt.Key(f.password.value))
      && u.emailVerified == s.users[e].emailVerified
  {
    ResetEffect(s, p, now, salt, f);
  }

  /**
   * The same through the sign-in route, for a verified owner: the new password gives 200, and
   * any other well-formed password 200 if it has the new one's 72-byte bcrypt key, else 401.
   */
  lemma ResetThenSignin(s: Store, p: Platform, now: Time, salt: Salt, f: ResetBody, email: JsonField,
                        other: string)
    requires Invariant(s) && BcryptKeyed(p)
    requires Reset(s, p, now, salt, Object(f)).response == PasswordUpdated
    requires EmailField(p, email)
    requires var e := ToLower(email.value);
      e in s.users && s.users[e].id == s.passwordResetToken[p.hashToken(f.token.value)].userId
      && s.users[e].emailVerified.Some?
    requires PasswordField(Str(other))
    ensures var s1 := Reset(s, p, now, salt, Object(f)).store;
      && SigninRoute.Signin(s1, p, Object(SigninRoute.SigninBody(email, f.password))) == SigninRoute.SignedIn
      && SigninRoute.Signin(s1, p, Object(SigninRoute.SigninBody(email, Str(other)))) ==
           (if Bcrypt.Key(other) == Bcrypt.Key(f.password.value) then SigninRoute.SignedIn
            else SigninRoute.BadCredentials)
  {
    ResetChangesPassword(s, p, now, salt, f, ToLower(email.value));
  }

  lemma ResetKeepsInvariant(s: Store, p: Platform, now: Time, salt: Salt, body: Json<ResetBody>)
    requires Invariant(s)
    ensures Invariant(Reset(s, p, now, salt, body).store)
    ensures UsersProgress(s.users, Reset(s, p, now, salt, body).store.users)
  {
    var o := Reset(s, p, now, salt, body);
    if o.response == PasswordUpdated {
      var h := p.hashToken(body.fields.token.value);
      var hash := p.bcryptHash(body.fields.password.value, salt);
      var id := s.passwordResetToken[h].userId;
      UpdateUserKeepsInvariant(s, id, SetPasswordHash(hash));
      var u := s.(users := UpdateUser(s.users, id, SetPasswordHash(hash)));
      SubTableValid(u.users, u.passwordResetToken, u.passwordResetToken - {h});
    }
  }
}
