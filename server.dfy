/**
 * The route handlers as they run: one database shared by all requests, whose four collections
 * the handlers update in place, one statement per Prisma call. Each handler is proved to do
 * exactly what the route's function says and to keep the store invariant.
 */
module Server {
  import opened Common
  import opened Strings
  import opened Tokens
  import opened Email
  import opened CredentialStore
  import SignupRoute
  import SigninRoute
  import AuthOptions
  import VerifyEmailRoute
  import ResendVerificationRoute
  import ForgotPasswordRoute
  import ResetPasswordRoute
  import Lifecycle

  class AuthServer {
    const platform: Platform
    var users: map<string, User>
    var emailVerificationToken: TokenTable
    var verificationToken: TokenTable
    var passwordResetToken: TokenTable

    function State(): Store
      reads this
    {
      Store(users, emailVerificationToken, verificationToken, passwordResetToken)
    }

    ghost predicate Valid()
      reads this
    {
      Invariant(State())
    }

    /** A fresh, empty database. */
    constructor(p: Platform)
      ensures platform == p && State() == EmptyStore && Valid()
    {
      platform := p;
      users := map[];
      emailVerificationToken := map[];
      verificationToken := map[];
      passwordResetToken := map[];
      EmptyStoreValid();
    }

    /** `POST /api/auth/signup`. */
    method Signup(c: Context, body: Json<SignupRoute.SignupBody>) returns (response: Response, mail: Option<Payload>)
      requires Valid() && !HasUserId(users, c.entropy.userId)
      modifies this
      ensures Valid() && UsersProgress(old(users), users)
      ensures Outcome(State(), response, mail) == SignupRoute.Signup(old(State()), platform, c, body)
    {
      SignupRoute.SignupKeepsInvariant(State(), platform, c, body);
      mail := None;
      if body.Malformed? {
        return SignupRoute.SignupFailed, None;
      }
      var parsed := SignupRoute.ParseSignup(platform, body.fields);
      if parsed.None? {
        return SignupRoute.InvalidSignup, None;
      }
      var data := parsed.value;
      var email := ToLower(data.email);
      if email in users {
        return SignupRoute.EmailTaken, None;
      }
      var user := User(c.entropy.userId, data.name, Some(platform.bcryptHash(data.password, c.entropy.salt)), None);
      users := users[email := user];
      emailVerificationToken := DeleteMany(emailVerificationToken, user.id);
      var token := GenerateToken(c.entropy.tokenBytes);
      var tokenHash := platform.hashToken(token);
      if tokenHash in emailVerificationToken {
        return SignupRoute.SignupFailed, None;
      }
      emailVerificationToken := emailVerificationToken[tokenHash := TokenRecord(user.id, AddMinutesToNow(c.now, VerificationExpiryMinutes))];
      var payload := VerificationEmail(c.mailer.env, email, token);
      mail := Some(payload);
      var sent := SendEmail(c.mailer.env, payload, c.mailer.providerThrows);
      response := if sent.Rethrown? then SignupRoute.SignupFailed else SignupRoute.AccountCreated;
    }

    /** `POST /api/auth/signin`: reads the users and writes nothing. */
    method Signin(body: Json<SigninRoute.SigninBody>) returns (response: Response)
      ensures response == SigninRoute.Signin(State(), platform, body)
    {
      response := SigninRoute.Signin(State(), platform, body);
    }

    /** The Credentials provider's `authorize`, reading the users. */
    method Authorize(credentials: Option<AuthOptions.Credentials>) returns (result: AuthOptions.AuthorizeResult)
      ensures result == AuthOptions.Authorize(State(), platform, credentials)
    {
      result := AuthOptions.Authorize(State(), platform, credentials);
    }

    /** `events.linkAccount`: stamps the user's `emailVerified` only when it is unset. */
    method LinkAccount(id: UserId, now: Time)
      requires Valid()
      modifies this
      ensures Valid() && UsersProgress(old(users), users)
      ensures State() == AuthOptions.LinkAccount(old(State()), id, now)
    {
      AuthOptions.LinkAccountKeepsInvariant(State(), id, now);
      if exists e :: e in users && users[e].id == id && users[e].emailVerified.None? {
        users := UpdateUser(users, id, SetEmailVerified(now));
      }
    }

    /** `handleVerification`, with the update and the delete applied together. */
    method HandleVerification(now: Time, token: Option<string>) returns (response: Response)
      requires Valid()
      modifies this
      ensures Valid() && UsersProgress(old(users), users)
      ensures Outcome(State(), response, None) == VerifyEmailRoute.HandleVerification(old(State()), platform, now, token)
    {
      VerifyEmailRoute.VerifyKeepsInvariant(State(), platform, now, token);
      if token.None? || token.value == "" {
        return VerifyEmailRoute.MissingToken;
      }
      var tokenHash := platform.hashToken(token.value);
      if tokenHash !in emailVerificationToken || emailVerificationToken[tokenHash].expiresAt < now {
        return VerifyEmailRoute.InvalidLink;
      }
      var record := emailVerificationToken[tokenHash];
      if !HasUserId(users, record.userId) {
        return UncaughtError;
      }
      users := UpdateUser(users, record.userId, SetEmailVerified(now));
      emailVerificationToken := emailVerificationToken - {tokenHash};
      response := VerifyEmailRoute.EmailVerified;
    }

    /** `GET /api/auth/verify-email?token=…`. */
    method VerifyGet(now: Time, tokenParam: Option<string>) returns (response: Response)
      requires Valid()
      modifies this
      ensures Valid() && UsersProgress(old(users), users)
      ensures Outcome(State(), response, None) == VerifyEmailRoute.VerifyGet(old(State()), platform, now, tokenParam)
    {
      response := HandleVerification(now, tokenParam);
    }

    /** `POST /api/auth/verify-email`. */
    method VerifyPost(now: Time, body: Json<VerifyEmailRoute.VerifyBody>) returns (response: Response)
      requires Valid()
      modifies this
      ensures Valid() && UsersProgress(old(users), users)
      ensures Outcome(State(), response, None) == VerifyEmailRoute.VerifyPost(old(State()), platform, now, body)
    {
      if body.Malformed? {
        return UncaughtError;
      }
      if !TokenField(body.fields.token) {
        return VerifyEmailRoute.InvalidTokenBody;
      }
      response := HandleVerification(now, Some(body.fields.token.value));
    }

    /** `POST /api/auth/resend-verification`. */
    method Resend(c: Context, body: Json<EmailBody>) returns (response: Response, mail: Option<Payload>)
      requires Valid()
      modifies this
      ensures Valid() && users == old(users)
      ensures Outcome(State(), response, mail) == ResendVerificationRoute.Resend(old(State()), platform, c, body)
    {
      ResendVerificationRoute.ResendKeepsInvariant(State(), platform, c, body);
      mail := None;
      if body.Malformed? {
        return ResendVerificationRoute.ResendFailed, None;
      }
      if !EmailField(platform, body.fields.email) {
        return ResendVerificationRoute.InvalidBody, None;
      }
      var email := ToLower(body.fields.email.value);
      var found := FindUser(users, email);
      if found.None? {
        return ResendVerificationRoute.MaybeOnTheWay, None;
      }
      var user := found.value;
      if user.emailVerified.Some? {
        return ResendVerificationRoute.AlreadyVerified, None;
      }
      verificationToken := DeleteMany(verificationToken, user.id);
      var token := GenerateToken(c.entropy.tokenBytes);
      var tokenHash := platform.hashToken(token);
      if tokenHash in verificationToken {
        return ResendVerificationRoute.ResendFailed, None;
      }
      verificationToken := verificationToken[tokenHash := TokenRecord(user.id, AddMinutesToNow(c.now, VerificationExpiryMinutes))];
      var payload := VerificationEmail(c.mailer.env, email, token);
      mail := Some(payload);
      var sent := SendEmail(c.mailer.env, payload, c.mailer.providerThrows);
      response := if sent.Rethrown? then ResendVerificationRoute.ResendFailed else ResendVerificationRoute.Resent;
    }

    /** `POST /api/auth/forgot-password`. */
    method Forgot(c: Context, body: Json<EmailBody>) returns (response: Response, mail: Option<Payload>)
      requires Valid()
      modifies this
      ensures Valid() && users == old(users)
      ensures Outcome(State(), response, mail) == ForgotPasswordRoute.Forgot(old(State()), platform, c, body)
    {
      ForgotPasswordRoute.ForgotKeepsInvariant(State(), platform, c, body);
      mail := None;
      if body.Malformed? {
        return ForgotPasswordRoute.ForgotFailed, None;
      }
      if !EmailField(platform, body.fields.email) {
        return ForgotPasswordRoute.InvalidBody, None;
      }
      var email := ToLower(body.fields.email.value);
      var found := FindUser(users, email);
      if found.None? {
        return ForgotPasswordRoute.LinkOnTheWay, None;
      }
      var user := found.value;
      passwordResetToken := DeleteMany(passwordResetToken, user.id);
      var token := GenerateToken(c.entropy.tokenBytes);
      var tokenHash := platform.hashToken(token);
      if tokenHash in passwordResetToken {
        return ForgotPasswordRoute.ForgotFailed, None;
      }
      passwordResetToken := passwordResetToken[tokenHash := TokenRecord(user.id, AddMinutesToNow(c.now, PasswordResetExpiryMinutes))];
      var payload := ResetEmail(c.mailer.env, email, token);
      mail := Some(payload);
      var sent := SendEmail(c.mailer.env, payload, c.mailer.providerThrows);
      response := if sent.Rethrown? then ForgotPasswordRoute.ForgotFailed else ForgotPasswordRoute.LinkOnTheWay;
    }

    /** `POST /api/auth/reset-password`, with the password update and the delete applied together. */
    method Reset(now: Time, salt: Salt, body: Json<ResetPasswordRoute.ResetBody>) returns (response: Response)
      requires Valid()
      modifies this
      ensures Valid() && UsersProgress(old(users), users)
      ensures Outcome(State(), response, None) == ResetPasswordRoute.Reset(old(State()), platform, now, salt, body)
    {
      ResetPasswordRoute.ResetKeepsInvariant(State(), platform, now, salt, body);
      if body.Malformed? {
        return ResetPasswordRoute.ResetFailed;
      }
      var f := body.fields;
      if !(TokenField(f.token) && PasswordField(f.password)) {
        return ResetPasswordRoute.InvalidPayload;
      }
      var tokenHash := platform.hashToken(f.token.value);
      if tokenHash !in passwordResetToken || passwordResetToken[tokenHash].expiresAt < now {
        return ResetPasswordRoute.InvalidResetLink;
      }
      var record := passwordResetToken[tokenHash];
      if !HasUserId(users, record.userId) {
        return ResetPasswordRoute.ResetFailed;
      }
      var passwordHash := platform.bcryptHash(f.password.value, salt);
      users := UpdateUser(users, record.userId, SetPasswordHash(passwordHash));
      passwordResetToken := passwordResetToken - {tokenHash};
      response := ResetPasswordRoute.PasswordUpdated;
    }

    /**
     * Serves one request of any kind: the store moves exactly as the lifecycle relation says, and
     * the reply is that route's reply.
     */
    method Serve(c: Context, r: Lifecycle.Request) returns (response: Option<Response>)
      requires Valid() && Lifecycle.Admissible(State(), c, r)
      modifies this
      ensures Valid() && UsersProgress(old(users), users)
      ensures State() == Lifecycle.Next(old(State()), platform, c, r)
      ensures response == Lifecycle.Reply(old(State()), platform, c, r)
    {
      Lifecycle.NextKeepsInvariant(State(), platform, c, r);
      var mail: Option<Payload>;
      var answer: Response;
      match r {
        case SignupRequest(b) => answer, mail := Signup(c, b);
        case SigninRequest(b) => answer := Signin(b);
        case VerifyGetRequest(t) => answer := VerifyGet(c.now, t);
        case VerifyPostRequest(b) => answer := VerifyPost(c.now, b);
        case ResendRequest(b) => answer, mail := Resend(c, b);
        case ForgotRequest(b) => answer, mail := Forgot(c, b);
        case ResetRequest(b) => answer := Reset(c.now, c.entropy.salt, b);
        case LinkAccountEvent(id) =>
          LinkAccount(id, c.now);
          return None;
      }
      response := Some(answer);
    }
  }
}
