/**
 * The account lifecycle as a whole: every route and the `linkAccount` event as one transition
 * relation on the store, the invariant and the forward progress every run keeps, and complete
 * sign-up, verification and password-reset journeys.
 */
module Lifecycle {
  import opened Common
  import opened Strings
  import opened Tokens
  import opened Email
  import opened CredentialStore
  import SignupRoute
  import SigninRoute
  import AuthOptions
  import VerifyEmailRoute
  import ResendVerificationRoute
  import ForgotPasswordRoute
  import ResetPasswordRoute
  import Bcrypt

  datatype Request =
    | SignupRequest(signup: Json<SignupRoute.SignupBody>)
    | SigninRequest(signin: Json<SigninRoute.SigninBody>)
    | VerifyGetRequest(tokenParam: Option<string>)
    | VerifyPostRequest(verify: Json<VerifyEmailRoute.VerifyBody>)
    | ResendRequest(resend: Json<EmailBody>)
    | ForgotRequest(forgot: Json<EmailBody>)
    | ResetRequest(reset: Json<ResetPasswordRoute.ResetBody>)
    | LinkAccountEvent(userId: UserId)

  /** The store after one request, served at `c.now` with the randomness in `c`. */
  function Next(s: Store, p: Platform, c: Context, r: Request): Store {
    match r
    case SignupRequest(b) => SignupRoute.Signup(s, p, c, b).store
    case SigninRequest(_) => s
    case VerifyGetRequest(t) => VerifyEmailRoute.VerifyGet(s, p, c.now, t).store
    case VerifyPostRequest(b) => VerifyEmailRoute.VerifyPost(s, p, c.now, b).store
    case ResendRequest(b) => ResendVerificationRoute.Resend(s, p, c, b).store
    case ForgotRequest(b) => ForgotPasswordRoute.Forgot(s, p, c, b).store
    case ResetRequest(b) => ResetPasswordRoute.Reset(s, p, c.now, c.entropy.salt, b).store
    case LinkAccountEvent(id) => AuthOptions.LinkAccount(s, id, c.now)
  }

  /** The reply to one request: the route's response, or none for the `linkAccount` event. */
  function Reply(s: Store, p: Platform, c: Context, r: Request): Option<Response> {
    match r
    case SignupRequest(b) => Some(SignupRoute.Signup(s, p, c, b).response)
    case SigninRequest(b) => Some(SigninRoute.Signin(s, p, b))
    case VerifyGetRequest(t) => Some(VerifyEmailRoute.VerifyGet(s, p, c.now, t).response)
    case VerifyPostRequest(b) => Some(VerifyEmailRoute.VerifyPost(s, p, c.now, b).response)
    case ResendRequest(b) => Some(ResendVerificationRoute.Resend(s, p, c, b).response)
    case ForgotRequest(b) => Some(ForgotPasswordRoute.Forgot(s, p, c, b).response)
    case ResetRequest(b) => Some(ResetPasswordRoute.Reset(s, p, c.now, c.entropy.salt, b).response)
    case LinkAccountEvent(_) => None
  }

  /** What the database guarantees a request: a signup receives an id no user has. */
  predicate Admissible(s: Store, c: Context, r: Request) {
    r.SignupRequest? ==> !HasUserId(s.users, c.entropy.userId)
  }

  lemma UsersProgressTransitive(a: map<string, User>, b: map<string, User>, d: map<string, User>)
    requires UsersProgress(a, b) && UsersProgress(b, d)
    ensures UsersProgress(a, d)
  {
  }

  /** Every admissible request keeps the store invariant and moves the users forward. */
  lemma NextKeepsInvariant(s: Store, p: Platform, c: Context, r: Request)
    requires Invariant(s) && Admissible(s, c, r)
    ensures Invariant(Next(s, p, c, r))
    ensures UsersProgress(s.users, Next(s, p, c, r).users)
  {
    match r
    case SignupRequest(b) => SignupRoute.SignupKeepsInvariant(s, p, c, b);
    case SigninRequest(_) =>
    case VerifyGetRequest(t) => VerifyEmailRoute.VerifyKeepsInvariant(s, p, c.now, t);
    case VerifyPostRequest(b) =>
      if b.Object? && TokenField(b.fields.token) {
        VerifyEmailRoute.VerifyKeepsInvariant(s, p, c.now, Some(b.fields.token.value));
      }
    case ResendRequest(b) => ResendVerificationRoute.ResendKeepsInvariant(s, p, c, b);
    case ForgotRequest(b) =>
      ForgotPasswordRoute.ForgotKeepsInvariant(s, p, c, b);
      ForgotPasswordRoute.ForgotTouchesOnlyResetTokens(s, p, c, b);
    case ResetRequest(b) => ResetPasswordRoute.ResetKeepsInvariant(s, p, c.now, c.entropy.salt, b);
    case LinkAccountEvent(id) => AuthOptions.LinkAccountKeepsInvariant(s, id, c.now);
  }

  /** The store after serving a sequence of requests in order. */
  function Run(s: Store, p: Platform, trace: seq<(Context, Request)>): Store
    decreases |trace|
  {
    if trace == [] then s else Run(Next(s, p, trace[0].0, trace[0].1), p, trace[1..])
  }

  /** Every request of the run is admissible in the state it meets. */
  ghost predicate AdmissibleRun(s: Store, p: Platform, trace: seq<(Context, Request)>)
    decreases |trace|
  {
    trace == [] ||
    (Admissible(s, trace[0].0, trace[0].1) && AdmissibleRun(Next(s, p, trace[0].0, trace[0].1), p, trace[1..]))
  }

  /**
   * Any run of admissible requests from a valid store ends in a valid store in which every
   * earlier account still exists under the same id, and every verified account is still verified.
   */
  lemma {:induction false} RunKeepsInvariant(s: Store, p: Platform, trace: seq<(Context, Request)>)
    requires Invariant(s) && AdmissibleRun(s, p, trace)
    ensures Invariant(Run(s, p, trace))
    ensures UsersProgress(s.users, Run(s, p, trace).users)
    decreases |trace|
  {
    if trace != [] {
      var s1 := Next(s, p, trace[0].0, trace[0].1);
      NextKeepsInvariant(s, p, trace[0].0, trace[0].1);
      RunKeepsInvariant(s1, p, trace[1..]);
      UsersProgressTransitive(s.users, s1.users, Run(s1, p, trace[1..]).users);
    }
  }

  // ---- end-to-end journeys ----

  /**
   * Sign up, sign in before verifying (403), verify with the mailed token within its day (200),
   * sign in again (200).
   */
  lemma SignupVerifySignin(s: Store, p: Platform, c: Context, later: Time, email: string, password: string)
    requires Invariant(s) && BcryptSound(p) && FromRandomBytes(c.entropy)
    requires EmailField(p, Str(email)) && PasswordField(Str(password))
    requires ToLower(email) !in s.users && !HasUserId(s.users, c.entropy.userId)
    requires p.hashToken(SignupRoute.IssuedToken(c)) !in DeleteMany(s.emailVerificationToken, c.entropy.userId)
    requires !(ProviderConfigured(c.mailer.env) && c.mailer.providerThrows)
    requires later <= c.now + 86_400_000
    ensures var signup := SignupRoute.Signup(s, p, c, Object(SignupRoute.SignupBody(Missing, Str(email), Str(password))));
      var credentials := Object(SigninRoute.SigninBody(Str(email), Str(password)));
      var verified := VerifyEmailRoute.VerifyGet(signup.store, p, later, Some(SignupRoute.IssuedToken(c)));
      && signup.response == SignupRoute.AccountCreated
      && SigninRoute.Signin(signup.store, p, credentials) == SigninRoute.NotVerified
      && verified.response == VerifyEmailRoute.EmailVerified
      && SigninRoute.Signin(verified.store, p, credentials) == SigninRoute.SignedIn
  {
    var b := SignupRoute.SignupBody(Missing, Str(email), Str(password));
    assert SignupRoute.ParseSignup(p, b).Some? by { assert SignupRoute.NameField(Missing) == Some(None); }
    SignupRoute.SignupWrites(s, p, c, b);
    GeneratedTokenShape(c.entropy.tokenBytes);
    var s1 := SignupRoute.Signup(s, p, c, Object(b)).store;
    var e := ToLower(email);
    assert s1.users[e].id == c.entropy.userId;
    assert HasUserId(s1.users, c.entropy.userId);
    SignupRoute.SignupKeepsInvariant(s, p, c, Object(b));
    VerifyEmailRoute.VerifyAcceptsLiveToken(s1, p, later, SignupRoute.IssuedToken(c));
  }

  /**
   * Sign up, ask for a reset (the generic 200), reset with the mailed token within the hour
   * (200): the new password then gets 403, the account being unverified, and the old one 401
   * unless it has the new one's 72-byte bcrypt key (`Bcrypt.Key`), in which case bcrypt still
   * accepts it and it gets 403 too.
   */
  lemma SignupForgotReset(s: Store, p: Platform, c: Context, c2: Context, later: Time,
                          email: string, password: string, newPassword: string)
    requires Invariant(s) && BcryptKeyed(p)
    requires FromRandomBytes(c.entropy) && FromRandomBytes(c2.entropy)
    requires EmailField(p, Str(email)) && PasswordField(Str(password)) && PasswordField(Str(newPassword))
    requires ToLower(email) !in s.users && !HasUserId(s.users, c.entropy.userId)
    requires p.hashToken(SignupRoute.IssuedToken(c)) !in DeleteMany(s.emailVerificationToken, c.entropy.userId)
    requires p.hashToken(GenerateToken(c2.entropy.tokenBytes)) !in DeleteMany(s.passwordResetToken, c.entropy.userId)
    requires !(ProviderConfigured(c.mailer.env) && c.mailer.providerThrows)
    requires !(ProviderConfigured(c2.mailer.env) && c2.mailer.providerThrows)
    requires later <= c2.now + 3_600_000
    ensures var s1 := SignupRoute.Signup(s, p, c, Object(SignupRoute.SignupBody(Missing, Str(email), Str(password)))).store;
      var forgot := ForgotPasswordRoute.Forgot(s1, p, c2, Object(EmailBody(Str(email))));
      var reset := ResetPasswordRoute.Reset(forgot.store, p, later, c2.entropy.salt,
                     Object(ResetPasswordRoute.ResetBody(Str(GenerateToken(c2.entropy.tokenBytes)), Str(newPassword))));
      && forgot.response == ForgotPasswordRoute.LinkOnTheWay
      && reset.response == ResetPasswordRoute.PasswordUpdated
      && SigninRoute.Signin(reset.store, p, Object(SigninRoute.SigninBody(Str(email), Str(password)))) ==
           (if Bcrypt.Key(password) == Bcrypt.Key(newPassword) then SigninRoute.NotVerified else SigninRoute.BadCredentials)
      && SigninRoute.Signin(reset.store, p, Object(SigninRoute.SigninBody(Str(email), Str(newPassword)))) == SigninRoute.NotVerified
  {
    var b := SignupRoute.SignupBody(Missing, Str(email), Str(password));
    assert SignupRoute.ParseSignup(p, b).Some? by { assert SignupRoute.NameField(Missing) == Some(None); }
    SignupRoute.SignupWrites(s, p, c, b);
    SignupRoute.SignupKeepsInvariant(s, p, c, Object(b));
    var s1 := SignupRoute.Signup(s, p, c, Object(b)).store;
    var e := ToLower(email);
    var id := c.entropy.userId;
    assert s1.users[e].id == id;
    assert s1.passwordResetToken == s.passwordResetToken;
    var f := EmailBody(Str(email));
    ForgotPasswordRoute.ForgotReissues(s1, p, c2, f);
    ForgotPasswordRoute.ForgotTouchesOnlyResetTokens(s1, p, c2, Object(f));
    var s2 := ForgotPasswordRoute.Forgot(s1, p, c2, Object(f)).store;
    var token := GenerateToken(c2.entropy.tokenBytes);
    GeneratedTokenShape(c2.entropy.tokenBytes);
    var rb := ResetPasswordRoute.ResetBody(Str(token), Str(newPassword));
    assert HasUserId(s2.users, id);
    ResetPasswordRoute.ResetAcceptsLiveToken(s2, p, later, c2.entropy.salt, rb);
    ResetPasswordRoute.ResetChangesPassword(s2, p, later, c2.entropy.salt, rb, e);
  }

  /** A reset with a token nobody issued is refused with 400 and changes nothing. */
  lemma GarbageResetRefused(s: Store, p: Platform, now: Time, salt: Salt)
    requires p.hashToken("garbage-token") !in s.passwordResetToken
    ensures var body := Object(ResetPasswordRoute.ResetBody(Str("garbage-token"), Str("anything12")));
      ResetPasswordRoute.Reset(s, p, now, salt, body) == Outcome(s, ResetPasswordRoute.InvalidResetLink, None)
  {
  }

  /**
   * Issuing twice leaves one live token: after two forgot-password requests the first token is
   * refused, and the second resets the password within its hour.
   */
  lemma SecondResetTokenWins(s: Store, p: Platform, c1: Context, c2: Context, now: Time, salt: Salt,
                             f: EmailBody, password: string)
    requires OnePerUser(s.passwordResetToken)
    requires EmailField(p, f.email) && ToLower(f.email.value) in s.users
    requires PasswordField(Str(password))
    requires var id := s.users[ToLower(f.email.value)].id;
      && p.hashToken(GenerateToken(c1.entropy.tokenBytes)) !in DeleteMany(s.passwordResetToken, id)
      && p.hashToken(GenerateToken(c2.entropy.tokenBytes))
           !in DeleteMany(ForgotPasswordRoute.Forgot(s, p, c1, Object(f)).store.passwordResetToken, id)
    requires p.hashToken(GenerateToken(c1.entropy.tokenBytes)) != p.hashToken(GenerateToken(c2.entropy.tokenBytes))
    requires TokenField(Str(GenerateToken(c1.entropy.tokenBytes)))
    ensures var s1 := ForgotPasswordRoute.Forgot(s, p, c1, Object(f)).store;
      var s2 := ForgotPasswordRoute.Forgot(s1, p, c2, Object(f)).store;
      var first := Object(ResetPasswordRoute.ResetBody(Str(GenerateToken(c1.entropy.tokenBytes)), Str(password)));
      ResetPasswordRoute.Reset(s2, p, now, salt, first) == Outcome(s2, ResetPasswordRoute.InvalidResetLink, None)
    ensures var s1 := ForgotPasswordRoute.Forgot(s, p, c1, Object(f)).store;
      var s2 := ForgotPasswordRoute.Forgot(s1, p, c2, Object(f)).store;
      var second := ResetPasswordRoute.ResetBody(Str(GenerateToken(c2.entropy.tokenBytes)), Str(password));
      TokenField(second.token) && now <= c2.now + 3_600_000 ==>
        ResetPasswordRoute.Reset(s2, p, now, salt, Object(second)).response == ResetPasswordRoute.PasswordUpdated
  {
    var id := s.users[ToLower(f.email.value)].id;
    ForgotPasswordRoute.ForgotReissues(s, p, c1, f);
    var s1 := ForgotPasswordRoute.Forgot(s, p, c1, Object(f)).store;
    ForgotPasswordRoute.ForgotTouchesOnlyResetTokens(s, p, c1, Object(f));
    ForgotPasswordRoute.ForgotReissues(s1, p, c2, f);
    var s2 := ForgotPasswordRoute.Forgot(s1, p, c2, Object(f)).store;
    var h1 := p.hashToken(GenerateToken(c1.entropy.tokenBytes));
    assert h1 in s1.passwordResetToken && s1.passwordResetToken[h1].userId == id;
    assert h1 !in TokensOf(s2.passwordResetToken, id);
    assert h1 !in s2.passwordResetToken;
    ForgotPasswordRoute.ForgotTouchesOnlyResetTokens(s1, p, c2, Object(f));
    var second := ResetPasswordRoute.ResetBody(Str(GenerateToken(c2.entropy.tokenBytes)), Str(password));
    if TokenField(second.token) && now <= c2.now + 3_600_000 {
      assert s2.users == s.users && s.users[ToLower(f.email.value)].id == id;
      assert HasUserId(s2.users, id);
      ResetPasswordRoute.ResetAcceptsLiveToken(s2, p, now, salt, second);
    }
  }
}
