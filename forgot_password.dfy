/**
 * POST /api/auth/forgot-password (src/app/api/auth/forgot-password/route.ts): replace the
 * user's password-reset token by a fresh one valid for 60 minutes and mail the reset link,
 * answering the same way whether or not the e-mail is registered.
 */
module ForgotPasswordRoute {
  import opened Common
  import opened Strings
  import opened Tokens
  import opened Email
  import opened CredentialStore

  const InvalidBody := Response(400, ErrorBody("Invalid request body"))
  const LinkOnTheWay := Response(200, MessageBody("If that email is registered, a reset link is on the way."))
  const ForgotFailed := Response(500, ErrorBody("Unable to process request right now"))

  function Forgot(s: Store, p: Platform, c: Context, body: Json<EmailBody>): Outcome {
    match body
    case Malformed => Outcome(s, ForgotFailed, None)
    case Object(f) =>
      if !EmailField(p, f.email) then Outcome(s, InvalidBody, None)
      else
        var email := ToLower(f.email.value);
        match FindUser(s.users, email)
        case None => Outcome(s, LinkOnTheWay, None)
        case Some(user) =>
          var cleared := s.(passwordResetToken := DeleteMany(s.passwordResetToken, user.id));
          var token := GenerateToken(c.entropy.tokenBytes);
          var record := TokenRecord(user.id, AddMinutesToNow(c.now, PasswordResetExpiryMinutes));
          match Create(cleared.passwordResetToken, p.hashToken(token), record)
          case None => Outcome(cleared, ForgotFailed, None)
          case Some(t) =>
            var issued := cleared.(passwordResetToken := t);
            var mail := ResetEmail(c.mailer.env, email, token);
            if SendEmail(c.mailer.env, mail, c.mailer.providerThrows).Rethrown?
            then Outcome(issued, ForgotFailed, Some(mail))
            else Outcome(issued, LinkOnTheWay, Some(mail))
  }

  /**
   * A body whose `email` is not an e-mail string gets 400 and changes nothing; a body that is
   * not JSON makes `request.json()` throw, which the handler answers with 500.
   */
  lemma ForgotInvalidBody(s: Store, p: Platform, c: Context, f: EmailBody)
    requires !EmailField(p, f.email)
    ensures Forgot(s, p, c, Object(f)) == Outcome(s, InvalidBody, None)
    ensures Forgot(s, p, c, Malformed) == Outcome(s, ForgotFailed, None)
  {
  }

  /**
   * No account enumeration through the reply: a registered and an unregistered e-mail get the
   * same 200 body whenever storing and sending succeed; only the unknown e-mail sends nothing.
   */
  lemma ForgotSameReply(s: Store, p: Platform, c: Context, f: EmailBody)
    requires EmailField(p, f.email)
    requires !(ProviderConfigured(c.mailer.env) && c.mailer.providerThrows)
    requires var e := ToLower(f.email.value);
      e in s.users ==> p.hashToken(GenerateToken(c.entropy.tokenBytes)) !in DeleteMany(s.passwordResetToken, s.users[e].id)
    ensures Forgot(s, p, c, Object(f)).response == LinkOnTheWay
    ensures Forgot(s, p, c, Object(f)).email.None? <==> ToLower(f.email.value) !in s.users
    ensures ToLower(f.email.value) !in s.users ==> Forgot(s, p, c, Object(f)).store == s
  {
  }

  /**
   * For a registered e-mail the user ends with exactly one reset token, the hash of the mailed
   * token, expiring one hour from now, and every other user's rows stay as they were; the
   * e-mail goes to that address and carries the `/reset-password?token=` link. The reply is
   * 200, or 500 if sending throws, and the new token stays stored either way.
   */
  lemma ForgotReissues(s: Store, p: Platform, c: Context, f: EmailBody)
    requires EmailField(p, f.email) && ToLower(f.email.value) in s.users
    requires OnePerUser(s.passwordResetToken)
    requires p.hashToken(GenerateToken(c.entropy.tokenBytes)) !in
             DeleteMany(s.passwordResetToken, s.users[ToLower(f.email.value)].id)
    ensures var o := Forgot(s, p, c, Object(f));
      var e := ToLower(f.email.value);
      var id := s.users[e].id;
      var token := GenerateToken(c.entropy.tokenBytes);
      && TokensOf(o.store.passwordResetToken, id) == {p.hashToken(token)}
      && o.store.passwordResetToken[p.hashToken(token)] == TokenRecord(id, c.now + 3_600_000)
      && (forall u :: u != id ==> TokensOf(o.store.passwordResetToken, u) == TokensOf(s.passwordResetToken, u))
      && (forall k :: k in s.passwordResetToken && s.passwordResetToken[k].userId != id ==>
            k in o.store.passwordResetToken && o.store.passwordResetToken[k] == s.passwordResetToken[k])
      && o.email.Some? && o.email.value.to == e
      && Contains(o.email.value.html, ResetUrl(c.mailer.env, token))
      && o.response == (if ProviderConfigured(c.mailer.env) && c.mailer.providerThrows then ForgotFailed else LinkOnTheWay)
  {
    ReissueFacts(s.passwordResetToken, s.users[ToLower(f.email.value)].id,
                 p.hashToken(GenerateToken(c.entropy.tokenBytes)),
                 AddMinutesToNow(c.now, PasswordResetExpiryMinutes));
  }

  /** Forgot-password never modifies a user nor the two verification tables. */
  lemma ForgotTouchesOnlyResetTokens(s: Store, p: Platform, c: Context, body: Json<EmailBody>)
    ensures Forgot(s, p, c, body).store.users == s.users
    ensures Forgot(s, p, c, body).store.emailVerificationToken == s.emailVerificationToken
    ensures Forgot(s, p, c, body).store.verificationToken == s.verificationToken
  {
  }

  lemma ForgotKeepsInvariant(s: Store, p: Platform, c: Context, body: Json<EmailBody>)
    requires Invariant(s)
    ensures Invariant(Forgot(s, p, c, body).store)
  {
    if body.Object? && EmailField(p, body.fields.email) {
      var email := ToLower(body.fields.email.value);
      if email in s.users {
        assert HasUserId(s.users, s.users[email].id);
        ReissueKeepsInvariant(s, PasswordResetTokens, s.users[email].id,
                              p.hashToken(GenerateToken(c.entropy.tokenBytes)),
                              AddMinutesToNow(c.now, PasswordResetExpiryMinutes));
      }
    }
  }
}
