/**
 * POST /api/auth/signup (src/app/api/auth/signup/route.ts): validate, reject a taken e-mail,
 * create the user, clear and issue an e-mail verification token, send the link.
 */
module SignupRoute {
  import opened Common
  import opened Strings
  import opened Tokens
  import opened Email
  import opened CredentialStore

  datatype SignupBody = SignupBody(name: JsonField, email: JsonField, password: JsonField)

  datatype SignupData = SignupData(name: Option<string>, email: string, password: string)

  const NameMinLength: nat := 2
  const NameMaxLength: nat := 60

  const InvalidSignup := Response(400, ErrorBody("Invalid signup data"))
  const EmailTaken := Response(409, ErrorBody("An account with this email already exists"))
  const SignupFailed := Response(500, ErrorBody("Unable to create account right now"))
  const AccountCreated :=
    Response(201, MessageBody("Account created. Please verify your email using the link we just sent."))

  /** The `.transform` step of `nameField`: falsy or blank becomes undefined, else the trimmed text. */
  function NameTransform(value: Option<string>): Option<string> {
    if value.None? || value.value == "" then None
    else
      var trimmed := Trim(value.value);
      if |trimmed| == 0 then None else Some(trimmed)
  }

  /**
   * `nameField`: an optional union of a string that is 2..60 long after trimming (and yields the
   * trimmed text) and the literal "", then transformed. None means the field fails the schema.
   */
  function NameField(f: JsonField): Option<Option<string>> {
    match f
    case Missing => Some(NameTransform(None))
    case NonString => None
    case Str(v) =>
      var t := Trim(v);
      if NameMinLength <= |t| <= NameMaxLength then Some(NameTransform(Some(t)))
      else if v == "" then Some(NameTransform(Some("")))
      else None
  }

  /** What the name field accepts and what it stores: absent or "" give no name, a long enough
      text gives its trimmed form, anything else (a blank string of spaces included) is refused. */
  lemma NameFieldCases(f: JsonField)
    ensures f.Missing? ==> NameField(f) == Some(None)
    ensures f.NonString? ==> NameField(f).None?
    ensures f == Str("") ==> NameField(f) == Some(None)
    ensures f.Str? && NameMinLength <= |Trim(f.value)| <= NameMaxLength ==> NameField(f) == Some(Some(Trim(f.value)))
    ensures f.Str? && f.value != "" && !(NameMinLength <= |Trim(f.value)| <= NameMaxLength) ==> NameField(f).None?
  {
    match f
    case Missing =>
    case NonString =>
    case Str(v) =>
      var t := Trim(v);
      if NameMinLength <= |t| <= NameMaxLength {
        TrimIdempotent(v);
        assert NameTransform(Some(t)) == Some(t);
      } else if v == "" {
        assert NameTransform(Some("")) == None;
      }
  }

  /** `signupSchema.safeParse(body)`. */
  function ParseSignup(p: Platform, b: SignupBody): (r: Option<SignupData>)
    ensures r.Some? <==> NameField(b.name).Some? && EmailField(p, b.email) && PasswordField(b.password)
  {
    if NameField(b.name).Some? && EmailField(p, b.email) && PasswordField(b.password)
    then Some(SignupData(NameField(b.name).value, b.email.value, b.password.value))
    else None
  }

  /** The route handler, as a function of the store before the request. */
  function Signup(s: Store, p: Platform, c: Context, body: Json<SignupBody>): Outcome {
    match body
    case Malformed => Outcome(s, SignupFailed, None)
    case Object(fields) =>
      match ParseSignup(p, fields)
      case None => Outcome(s, InvalidSignup, None)
      case Some(data) =>
        var email := ToLower(data.email);
        if email in s.users then Outcome(s, EmailTaken, None)
        else
          var user := User(c.entropy.userId, data.name, Some(p.bcryptHash(data.password, c.entropy.salt)), None);
          var created := s.(users := s.users[email := user]);
          var cleared := created.(emailVerificationToken := DeleteMany(created.emailVerificationToken, user.id));
          var token := GenerateToken(c.entropy.tokenBytes);
          var record := TokenRecord(user.id, AddMinutesToNow(c.now, VerificationExpiryMinutes));
          match Create(cleared.emailVerificationToken, p.hashToken(token), record)
          case None => Outcome(cleared, SignupFailed, None)
          case Some(t) =>
            var issued := cleared.(emailVerificationToken := t);
            var mail := VerificationEmail(c.mailer.env, email, token);
            if SendEmail(c.mailer.env, mail, c.mailer.providerThrows).Rethrown?
            then Outcome(issued, SignupFailed, Some(mail))
            else Outcome(issued, AccountCreated, Some(mail))
  }

  /** The raw token a signup issues. */
  function IssuedToken(c: Context): string {
    GenerateToken(c.entropy.tokenBytes)
  }

  /** A body the schema refuses is answered 400 and nothing is written or sent. */
  lemma InvalidSignupLeavesStore(s: Store, p: Platform, c: Context, b: SignupBody)
    requires ParseSignup(p, b).None?
    ensures Signup(s, p, c, Object(b)) == Outcome(s, InvalidSignup, None)
  {
  }

  /** An e-mail is taken whatever its case: a second signup that differs only in letter case is a
      409 with nothing written. */
  lemma SignupCaseInsensitiveConflict(s: Store, p: Platform, c1: Context, c2: Context, b1: SignupBody, b2: SignupBody)
    requires ParseSignup(p, b1).Some? && ParseSignup(p, b2).Some?
    requires Signup(s, p, c1, Object(b1)).response == AccountCreated
    requires |b1.email.value| == |b2.email.value|
    requires forall i :: 0 <= i < |b1.email.value| ==> LowerChar(b1.email.value[i]) == LowerChar(b2.email.value[i])
    ensures var s1 := Signup(s, p, c1, Object(b1)).store;
      Signup(s1, p, c2, Object(b2)) == Outcome(s1, EmailTaken, None)
  {
    CaseVariantsLowerAlike(b1.email.value, b2.email.value);
  }

  /**
   * What a signup that gets past validation and the duplicate check writes: the new user under
   * the lower-cased e-mail, unverified, with the bcrypt hash of the password and the normalised
   * name; exactly one e-mail verification token for that user, stored under the hash of the raw
   * token and expiring 1440 minutes from now; nothing else changes. The raw token goes only into
   * the link of the verification e-mail. The reply is 201, or 500 if sending throws, and the
   * writes stay either way.
   */
  lemma SignupWrites(s: Store, p: Platform, c: Context, b: SignupBody)
    requires ParseSignup(p, b).Some?
    requires ToLower(b.email.value) !in s.users
    requires OnePerUser(s.emailVerificationToken)
    requires p.hashToken(IssuedToken(c)) !in DeleteMany(s.emailVerificationToken, c.entropy.userId)
    ensures var o := Signup(s, p, c, Object(b));
      var email := ToLower(b.email.value);
      var hash := p.hashToken(IssuedToken(c));
      && o.store.users == s.users[email := User(c.entropy.userId, ParseSignup(p, b).value.name,
                                                 Some(p.bcryptHash(b.password.value, c.entropy.salt)), None)]
      && TokensOf(o.store.emailVerificationToken, c.entropy.userId) == {hash}
      && o.store.emailVerificationToken[hash] == TokenRecord(c.entropy.userId, c.now + 86_400_000)
      && (forall u :: u != c.entropy.userId ==>
            TokensOf(o.store.emailVerificationToken, u) == TokensOf(s.emailVerificationToken, u))
      && (forall k :: k in s.emailVerificationToken && s.emailVerificationToken[k].userId != c.entropy.userId ==>
            k in o.store.emailVerificationToken && o.store.emailVerificationToken[k] == s.emailVerificationToken[k])
      && o.store.verificationToken == s.verificationToken
      && o.store.passwordResetToken == s.passwordResetToken
      && o.email == Some(VerificationEmail(c.mailer.env, email, IssuedToken(c)))
      && Contains(o.email.value.html, VerificationUrl(c.mailer.env, IssuedToken(c)))
      && o.response == (if ProviderConfigured(c.mailer.env) && c.mailer.providerThrows then SignupFailed else AccountCreated)
  {
    ReissueFacts(s.emailVerificationToken, c.entropy.userId, p.hashToken(IssuedToken(c)),
                 AddMinutesToNow(c.now, VerificationExpiryMinutes));
  }

  /** Every signup keeps the store invariant, given that the database hands out a new user id. */
  lemma SignupKeepsInvariant(s: Store, p: Platform, c: Context, body: Json<SignupBody>)
    requires Invariant(s)
    requires !HasUserId(s.users, c.entropy.userId)
    ensures Invariant(Signup(s, p, c, body).store)
    ensures UsersProgress(s.users, Signup(s, p, c, body).store.users)
  {
    if body.Object? && ParseSignup(p, body.fields).Some? && ToLower(body.fields.email.value) !in s.users {
      var data := ParseSignup(p, body.fields).value;
      var email := ToLower(data.email);
      var user := User(c.entropy.userId, data.name, Some(p.bcryptHash(data.password, c.entropy.salt)), None);
      LowerIsLowerCase(data.email);
      AddUserKeepsInvariant(s, email, user);
      var created := s.(users := s.users[email := user]);
      var h := p.hashToken(IssuedToken(c));
      var rec := TokenRecord(user.id, AddMinutesToNow(c.now, VerificationExpiryMinutes));
      ReissueKeepsInvariant(created, EmailVerificationTokens, user.id, h, rec.expiresAt);
      var d := DeleteMany(created.emailVerificationToken, user.id);
      var cleared := created.(emailVerificationToken := d);
      assert cleared == created.WithTable(EmailVerificationTokens, d);
      if h in d {
        assert Signup(s, p, c, body).store == cleared;
      } else {
        var issued := cleared.(emailVerificationToken := Create(d, h, rec).value);
        assert issued == created.WithTable(EmailVerificationTokens, Create(d, h, rec).value);
        assert Signup(s, p, c, body).store == issued;
      }
    } else {
      assert Signup(s, p, c, body).store == s;
    }
  }
}
