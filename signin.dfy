/**
 * POST /api/auth/signin (src/app/api/auth/signin/route.ts): a read-only credential check that
 * chooses a status; nothing is written.
 */
module SigninRoute {
  import opened Common
  import opened Strings
  import opened CredentialStore

  datatype SigninBody = SigninBody(email: JsonField, password: JsonField)

  const InvalidSignin := Response(400, ErrorBody("Invalid sign-in data"))
  const BadCredentials := Response(401, ErrorBody("Incorrect email or password"))
  const NotVerified := Response(403, ErrorBody("Please verify your email before signing in."))
  const SignedIn := Response(200, MessageBody("Signed in successfully."))
  const SigninFailed := Response(500, ErrorBody("Unable to sign in right now"))

  /**
   * The handler. A user without a password hash (one created through OAuth) makes
   * `bcrypt.compare` reject its `null` argument, which the handler turns into a 500.
   */
  function Signin(s: Store, p: Platform, body: Json<SigninBody>): Response {
    match body
    case Malformed => SigninFailed
    case Object(f) =>
      if !(EmailField(p, f.email) && PasswordField(f.password)) then InvalidSignin
      else
        match FindUser(s.users, ToLower(f.email.value))
        case None => BadCredentials
        case Some(user) =>
          if user.passwordHash.None? then SigninFailed
          else if !p.bcryptCompare(f.password.value, user.passwordHash.value) then BadCredentials
          else if user.emailVerified.None? then NotVerified
          else SignedIn
  }

  /** The outcome of a well-formed request, case by case: unknown e-mail and wrong password are
      the same 401; 403 needs the right password and no verification; 200 needs both. */
  lemma SigninDecision(s: Store, p: Platform, f: SigninBody)
    requires EmailField(p, f.email) && PasswordField(f.password)
    ensures var r := Signin(s, p, Object(f));
      var e := ToLower(f.email.value);
      && (e !in s.users ==> r == BadCredentials)
      && (e in s.users && s.users[e].passwordHash.Some? ==>
            && (r == BadCredentials <==> !p.bcryptCompare(f.password.value, s.users[e].passwordHash.value))
            && (r == NotVerified <==> p.bcryptCompare(f.password.value, s.users[e].passwordHash.value)
                                       && s.users[e].emailVerified.None?)
            && (r == SignedIn <==> p.bcryptCompare(f.password.value, s.users[e].passwordHash.value)
                                    && s.users[e].emailVerified.Some?))
  {
  }

  /** Sign-in answers 200 only for the right password of a verified account, and an unknown
      account is indistinguishable from a wrong password. */
  lemma SignedInOnlyWhenVerified(s: Store, p: Platform, body: Json<SigninBody>)
    ensures Signin(s, p, body) == SignedIn ==>
      var e := ToLower(body.fields.email.value);
      && body.Object? && e in s.users && s.users[e].emailVerified.Some?
      && p.bcryptCompare(body.fields.password.value, s.users[e].passwordHash.value)
    ensures Signin(s, p, body).status == 401 ==> Signin(s, p, body) == BadCredentials
  {
  }

  /** The password is checked before the verification state: an unverified account with a wrong
      password gets 401, not 403. */
  lemma PasswordBeforeVerification(s: Store, p: Platform, f: SigninBody)
    requires EmailField(p, f.email) && PasswordField(f.password)
    requires ToLower(f.email.value) in s.users
    requires var u := s.users[ToLower(f.email.value)];
      u.passwordHash.Some? && u.emailVerified.None? && !p.bcryptCompare(f.password.value, u.passwordHash.value)
    ensures Signin(s, p, Object(f)) == BadCredentials
  {
  }
}
