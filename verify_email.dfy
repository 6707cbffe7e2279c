/**
 * GET and POST /api/auth/verify-email (src/app/api/auth/verify-email/route.ts): consume an
 * e-mail verification token and mark its owner verified, in one transaction.
 */
module VerifyEmailRoute {
  import opened Common
  import opened Tokens
  import opened CredentialStore

  datatype VerifyBody = VerifyBody(token: JsonField)

  const MissingToken := Response(400, ErrorBody("Missing token"))
  const InvalidLink := Response(400, ErrorBody("Verification link is invalid or expired."))
  const InvalidTokenBody := Response(400, ErrorBody("Missing or invalid token"))
  const EmailVerified := Response(200, MessageBody("Email verified successfully. You can now sign in."))

  /** A stored token is live until its expiry instant included: the route rejects only `expiresAt < now`. */
  predicate Live(rec: TokenRecord, now: Time) {
    !(rec.expiresAt < now)
  }

  /**
   * `handleVerification(token)`. A null or empty token is missing. The update and the delete
   * run in one transaction; should the owner be gone the update throws, both are rolled back,
   * and the error escapes the handler (there is no try/catch in this file).
   */
  function HandleVerification(s: Store, p: Platform, now: Time, token: Option<string>): Outcome {
    if token.None? || token.value == "" then Outcome(s, MissingToken, None)
    else
      var h := p.hashToken(token.value);
      if h !in s.emailVerificationToken || !Live(s.emailVerificationToken[h], now) then Outcome(s, InvalidLink, None)
      else
        var rec := s.emailVerificationToken[h];
        if !HasUserId(s.users, rec.userId) then Outcome(s, UncaughtError, None)
        else
          Outcome(s.(users := UpdateUser(s.users, rec.userId, SetEmailVerified(now)),
                     emailVerificationToken := s.emailVerificationToken - {h}),
                  EmailVerified, None)
  }

  /** GET: the `token` query parameter, `null` when absent. */
  function VerifyGet(s: Store, p: Platform, now: Time, tokenParam: Option<string>): Outcome {
    HandleVerification(s, p, now, tokenParam)
  }

  /** POST: `{ token }` must be a string of at least 10 characters before any lookup. */
  function VerifyPost(s: Store, p: Platform, now: Time, body: Json<VerifyBody>): Outcome {
    match body
    case Malformed => Outcome(s, UncaughtError, None)
    case Object(f) =>
      if !TokenField(f.token) then Outcome(s, InvalidTokenBody, None)
      else HandleVerification(s, p, now, Some(f.token.value))
  }

  /** Every failure leaves the store as it was; in particular an expired token stays stored. */
  lemma VerifyFailureLeavesStore(s: Store, p: Platform, now: Time, token: Option<string>)
    ensures HandleVerification(s, p, now, token).response != EmailVerified ==>
      HandleVerification(s, p, now, token).store == s
    ensures token.None? || token == Some("") ==> HandleVerification(s, p, now, token).response == MissingToken
  {
  }

  /** A token from `generateToken` passes the POST schema, so POST then behaves as GET. */
  lemma GeneratedTokenAccepted(s: Store, p: Platform, now: Time, random: seq<Byte>)
    requires |random| == TokenByteLength
    ensures TokenField(Str(GenerateToken(random)))
    ensures VerifyPost(s, p, now, Object(VerifyBody(Str(GenerateToken(random)))))
         == VerifyGet(s, p, now, Some(GenerateToken(random)))
  {
    GeneratedTokenShape(random);
  }

  /** A short POST token is refused with 400 before anything is looked up. */
  lemma ShortTokenRefused(s: Store, p: Platform, now: Time, t: string)
    requires |t| < TokenMinLength
    ensures VerifyPost(s, p, now, Object(VerifyBody(Str(t)))) == Outcome(s, InvalidTokenBody, None)
  {
  }

  /**
   * When there is a stored token under the token's hash: it is accepted exactly when not
   * expired (so `expiresAt == now` is accepted), and then its owner's `emailVerified` becomes
   * `now`, that one record is deleted, and no other user and no other record changes.
   */
  lemma VerifyAcceptsLiveToken(s: Store, p: Platform, now: Time, t: string)
    requires Invariant(s)
    requires t != "" && p.hashToken(t) in s.emailVerificationToken
    ensures var h := p.hashToken(t);
      var rec := s.emailVerificationToken[h];
      var o := HandleVerification(s, p, now, Some(t));
      && (o.response == EmailVerified <==> rec.expiresAt >= now)
      && (o.response == EmailVerified ==>
            && o.store.emailVerificationToken == s.emailVerificationToken - {h}
            && o.store.verificationToken == s.verificationToken
            && o.store.passwordResetToken == s.passwordResetToken
            && o.store.users.Keys == s.users.Keys
            && (forall e :: e in s.users && s.users[e].id == rec.userId ==>
                  o.store.users[e] == s.users[e].(emailVerified := Some(now)))
            && (forall e :: e in s.users && s.users[e].id != rec.userId ==> o.store.users[e] == s.users[e]))
  {
  }

  /** A token whose hash is not stored is refused whenever it is presented. */
  lemma UnknownTokenRefused(s: Store, p: Platform, now: Time, t: string)
    requires t != "" && p.hashToken(t) !in s.emailVerificationToken
    ensures HandleVerification(s, p, now, Some(t)) == Outcome(s, InvalidLink, None)
  {
  }

  /**
   * A stored but expired token gets the same 400 as an unknown one, and its record stays
   * stored.
   */
  lemma ExpiredTokenRefused(s: Store, p: Platform, now: Time, t: string)
    requires t != "" && p.hashToken(t) in s.emailVerificationToken
    requires s.emailVerificationToken[p.hashToken(t)].expiresAt < now
    ensures HandleVerification(s, p, now, Some(t)) == Outcome(s, InvalidLink, None)
  {
  }

  /** Tokens are single-use: after a successful verification the same token is refused. */
  lemma VerifyTokenSingleUse(s: Store, p: Platform, now1: Time, now2: Time, t: string)
    requires HandleVerification(s, p, now1, Some(t)).response == EmailVerified
    ensures var s1 := HandleVerification(s, p, now1, Some(t)).store;
      HandleVerification(s1, p, now2, Some(t)) == Outcome(s1, InvalidLink, None)
  {
  }

  lemma VerifyKeepsInvariant(s: Store, p: Platform, now: Time, token: Option<string>)
    requires Invariant(s)
    ensures Invariant(HandleVerification(s, p, now, token).store)
    ensures UsersProgress(s.users, HandleVerification(s, p, now, token).store.users)
  {
    if token.Some? && token.value != "" {
      var h := p.hashToken(token.value);
      if h in s.emailVerificationToken && Live(s.emailVerificationToken[h], now) {
        var rec := s.emailVerificationToken[h];
        UpdateUserKeepsInvariant(s, rec.userId, SetEmailVerified(now));
        var u := s.(users := UpdateUser(s.users, rec.userId, SetEmailVerified(now)));
        SubTableValid(u.users, u.emailVerificationToken, u.emailVerificationToken - {h});
      }
    }
  }
}
