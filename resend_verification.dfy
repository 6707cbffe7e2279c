/**
 * POST /api/auth/resend-verification (src/app/api/auth/resend-verification/route.ts). As
 * written it clears and issues tokens in the `verificationToken` table, which verify-email never
 * reads.
 */
module ResendVerificationRoute {
  import opened Common
  import opened Strings
  import opened Tokens
  import opened Email
  import opened CredentialStore
  import VerifyEmailRoute

  const InvalidBody := Response(400, ErrorBody("Invalid request body"))
  const MaybeOnTheWay := Response(200, MessageBody("If the account exists, a new link is on the way."))
  const AlreadyVerified := Response(200, MessageBody("This account is already verified."))
  const Resent := Response(200, MessageBody("Verification email resent."))
  const ResendFailed := Response(500, ErrorBody("Unable to resend verification email right now"))

  function Resend(s: Store, p: Platform, c: Context, body: Json<EmailBody>): Outcome {
    match body
    case Malformed => Outcome(s, ResendFailed, None)
    case Object(f) =>
      if !EmailField(p, f.email) then Outcome(s, InvalidBody, None)
      else
        var email := ToLower(f.email.value);
        match FindUser(s.users, email)
        case None => Outcome(s, MaybeOnTheWay, None)
        case Some(user) =>
          if user.emailVerified.Some? then Outcome(s, AlreadyVerified, None)
          else
            var cleared := s.(verificationToken := DeleteMany(s.verificationToken, user.id));
            var token := GenerateToken(c.entropy.tokenBytes);
            var record := TokenRecord(user.id, AddMinutesToNow(c.now, VerificationExpiryMinutes));
            match Create(cleared.verificationToken, p.hashToken(token), record)
            case None => Outcome(cleared, ResendFailed, None)
            case Some(t) =>
              var issued := cleared.(verificationToken := t);
              var mail := VerificationEmail(c.mailer.env, email, token);
              if SendEmail(c.mailer.env, mail, c.mailer.providerThrows).Rethrown?
              then Outcome(issued, ResendFailed, Some(mail))
              else Outcome(issued, Resent, Some(mail))
  }

  /** Invalid bodies, unknown e-mails and verified accounts change nothing and send nothing. */
  lemma ResendNoOpCases(s: Store, p: Platform, c: Context, f: EmailBody)
    ensures !EmailField(p, f.email) ==> Resend(s, p, c, Object(f)) == Outcome(s, InvalidBody, None)
    ensures EmailField(p, f.email) && ToLower(f.email.value) !in s.users ==>
      Resend(s, p, c, Object(f)) == Outcome(s, MaybeOnTheWay, None)
    ensures EmailField(p, f.email) && ToLower(f.email.value) in s.users
            && s.users[ToLower(f.email.value)].emailVerified.Some? ==>
      Resend(s, p, c, Object(f)) == Outcome(s, AlreadyVerified, None)
  {
  }

  /** The reply tells whether the account exists: the reissue message differs from the unknown-user one. */
  lemma ResendRevealsAccount(s: Store, p: Platform, c: Context, f: EmailBody)
    requires Resend(s, p, c, Object(f)).response == Resent
    ensures ToLower(f.email.value) in s.users
    ensures Resent != MaybeOnTheWay
  {
  }

  /**
   * For an unverified user: afterwards exactly one `verificationToken` of that user, under the
   * hash of the new raw token and expiring 1440 minutes from now; users, the e-mail verification
   * table, the reset table and other users' rows are untouched.
   */
  lemma ResendReissues(s: Store, p: Platform, c: Context, f: EmailBody)
    requires EmailField(p, f.email)
    requires ToLower(f.email.value) in s.users && s.users[ToLower(f.email.value)].emailVerified.None?
    requires OnePerUser(s.verificationToken)
    requires p.hashToken(GenerateToken(c.entropy.tokenBytes)) !in
             DeleteMany(s.verificationToken, s.users[ToLower(f.email.value)].id)
    ensures var o := Resend(s, p, c, Object(f));
      var id := s.users[ToLower(f.email.value)].id;
      var hash := p.hashToken(GenerateToken(c.entropy.tokenBytes));
      && o.store.users == s.users
      && o.store.emailVerificationToken == s.emailVerificationToken
      && o.store.passwordResetToken == s.passwordResetToken
      && TokensOf(o.store.verificationToken, id) == {hash}
      && o.store.verificationToken[hash] == TokenRecord(id, c.now + 86_400_000)
      && (forall u :: u != id ==> TokensOf(o.store.verificationToken, u) == TokensOf(s.verificationToken, u))
      && (forall k :: k in s.verificationToken && s.verificationToken[k].userId != id ==>
            k in o.store.verificationToken && o.store.verificationToken[k] == s.verificationToken[k])
      && o.response == (if ProviderConfigured(c.mailer.env) && c.mailer.providerThrows then ResendFailed else Resent)
  {
    var id := s.users[ToLower(f.email.value)].id;
    ReissueFacts(s.verificationToken, id, p.hashToken(GenerateToken(c.entropy.tokenBytes)),
                 AddMinutesToNow(c.now, VerificationExpiryMinutes));
  }

  /** Resend never touches users or the e-mail verification table, whatever the request. */
  lemma ResendKeepsVerificationTable(s: Store, p: Platform, c: Context, body: Json<EmailBody>)
    ensures Resend(s, p, c, body).store.users == s.users
    ensures Resend(s, p, c, body).store.emailVerificationToken == s.emailVerificationToken
    ensures Resend(s, p, c, body).store.passwordResetToken == s.passwordResetToken
  {
  }

  /**
   * As written, the link a resend mails is refused by verify-email: the new row lands in the
   * `verificationToken` table, while verify-email looks in `emailVerificationToken`.
   */
  lemma ResentTokenRefused(s: Store, p: Platform, c: Context, f: EmailBody, now: Time)
    requires Resend(s, p, c, Object(f)).response == Resent
    requires FromRandomBytes(c.entropy)
    requires p.hashToken(GenerateToken(c.entropy.tokenBytes)) !in s.emailVerificationToken
    ensures var s1 := Resend(s, p, c, Object(f)).store;
      VerifyEmailRoute.VerifyGet(s1, p, now, Some(GenerateToken(c.entropy.tokenBytes)))
        == Outcome(s1, VerifyEmailRoute.InvalidLink, None)
  {
    GeneratedTokenShape(c.entropy.tokenBytes);
  }

  lemma ResendKeepsInvariant(s: Store, p: Platform, c: Context, body: Json<EmailBody>)
    requires Invariant(s)
    ensures Invariant(Resend(s, p, c, body).store)
    ensures Resend(s, p, c, body).store.users == s.users
  {
    if body.Object? && EmailField(p, body.fields.email) {
      var email := ToLower(body.fields.email.value);
      if email in s.users && s.users[email].emailVerified.None? {
        assert HasUserId(s.users, s.users[email].id);
        ReissueKeepsInvariant(s, VerificationTokens, s.users[email].id,
                              p.hashToken(GenerateToken(c.entropy.tokenBytes)),
                              AddMinutesToNow(c.now, VerificationExpiryMinutes));
      }
    }
  }
}
