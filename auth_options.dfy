/**
 * The parts of the NextAuth options in src/lib/auth.ts that carry logic: the Credentials
 * provider's `authorize`, the `session` callback and the `linkAccount` event.
 */
module AuthOptions {
  import opened Common
  import opened Strings
  import opened CredentialStore

  /** The `credentials` argument of `authorize`; each entry may be absent. */
  datatype Credentials = Credentials(email: Option<string>, password: Option<string>)

  /** What `authorize` returns, or the message of the `Error` it throws. */
  datatype AuthorizeResult =
    | Authorized(id: UserId, email: string, name: Option<string>)
    | Rejected(message: string)

  const MissingCredentials := "Please provide both email and password."
  const IncorrectCredentials := "Incorrect email or password."
  const VerifyFirst := "Please verify your email before signing in."

  /** JavaScript truthiness of an optional string: present and not empty. */
  predicate Truthy(s: Option<string>) {
    s.Some? && s.value != ""
  }

  function Authorize(s: Store, p: Platform, credentials: Option<Credentials>): AuthorizeResult {
    if credentials.None? || !Truthy(credentials.value.email) || !Truthy(credentials.value.password)
    then Rejected(MissingCredentials)
    else
      var email := ToLower(credentials.value.email.value);
      match FindUser(s.users, email)
      case None => Rejected(IncorrectCredentials)
      case Some(user) =>
        if !Truthy(user.passwordHash) then Rejected(IncorrectCredentials)
        else if !p.bcryptCompare(credentials.value.password.value, user.passwordHash.value) then Rejected(IncorrectCredentials)
        else if user.emailVerified.None? then Rejected(VerifyFirst)
        else Authorized(user.id, email, user.name)
  }

  /**
   * `authorize` succeeds exactly for the right password of a verified account found under the
   * lower-cased e-mail, and then returns that user's id, e-mail and name and nothing else.
   */
  lemma AuthorizeSucceedsExactly(s: Store, p: Platform, email: string, password: string)
    requires email != "" && password != ""
    ensures var r := Authorize(s, p, Some(Credentials(Some(email), Some(password))));
      var e := ToLower(email);
      && (r.Authorized? <==>
            e in s.users && Truthy(s.users[e].passwordHash)
            && p.bcryptCompare(password, s.users[e].passwordHash.value)
            && s.users[e].emailVerified.Some?)
      && (r.Authorized? ==> r == Authorized(s.users[e].id, e, s.users[e].name))
  {
  }

  /** A missing account, a missing or empty password hash and a wrong password are one and the
      same rejection; the right password of an unverified account gets the verify-email one. */
  lemma AuthorizeRejections(s: Store, p: Platform, email: string, password: string)
    requires email != "" && password != ""
    ensures var r := Authorize(s, p, Some(Credentials(Some(email), Some(password))));
      var e := ToLower(email);
      && (e !in s.users ==> r == Rejected(IncorrectCredentials))
      && (e in s.users && !Truthy(s.users[e].passwordHash) ==> r == Rejected(IncorrectCredentials))
      && ((e in s.users && Truthy(s.users[e].passwordHash) && !p.bcryptCompare(password, s.users[e].passwordHash.value))
            ==> r == Rejected(IncorrectCredentials))
      && ((e in s.users && Truthy(s.users[e].passwordHash) && p.bcryptCompare(password, s.users[e].passwordHash.value)
           && s.users[e].emailVerified.None?) ==> r == Rejected(VerifyFirst))
  {
  }

  /** Either credential missing or empty is refused before the store is consulted. */
  lemma AuthorizeNeedsBoth(s: Store, p: Platform, c: Option<Credentials>)
    requires c.None? || !Truthy(c.value.email) || !Truthy(c.value.password)
    ensures Authorize(s, p, c) == Rejected(MissingCredentials)
  {
  }

  /** The e-mail is lower-cased before the lookup, so the case of the typed address is irrelevant. */
  lemma AuthorizeIgnoresCase(s: Store, p: Platform, e1: string, e2: string, password: string)
    requires ToLower(e1) == ToLower(e2) && e1 != "" && e2 != ""
    ensures Authorize(s, p, Some(Credentials(Some(e1), Some(password))))
         == Authorize(s, p, Some(Credentials(Some(e2), Some(password))))
  {
  }

  datatype SessionUser = SessionUser(id: Option<string>, name: Option<string>, email: Option<string>)
  datatype Session = Session(user: Option<SessionUser>, expires: string)
  /** The JWT as far as the callback reads it: its subject. */
  datatype Jwt = Jwt(sub: Option<string>)

  /** `callbacks.session`: copy a truthy `token.sub` into `session.user.id` when there is a user. */
  function SessionCallback(session: Session, token: Jwt): (r: Session)
    ensures r.expires == session.expires
    ensures r.user.Some? <==> session.user.Some?
    ensures session.user.Some? && Truthy(token.sub) ==>
      r.user.value == session.user.value.(id := token.sub)
    ensures !(session.user.Some? && Truthy(token.sub)) ==> r == session
  {
    if session.user.Some? && Truthy(token.sub) then session.(user := Some(session.user.value.(id := token.sub)))
    else session
  }

  /** `events.linkAccount`: stamp `emailVerified` with the current time only if it is not set. */
  function LinkAccount(s: Store, id: UserId, now: Tokens.Time): (r: Store)
    ensures r.emailVerificationToken == s.emailVerificationToken && r.verificationToken == s.verificationToken
    ensures r.passwordResetToken == s.passwordResetToken
    ensures r.users.Keys == s.users.Keys
  {
    if exists e :: e in s.users && s.users[e].id == id && s.users[e].emailVerified.None?
    then s.(users := UpdateUser(s.users, id, SetEmailVerified(now)))
    else s
  }

  /** With unique ids: the linked user ends up verified, a verified timestamp is never replaced,
      and no other user changes. */
  lemma LinkAccountEffect(s: Store, id: UserId, now: Tokens.Time)
    requires UniqueIds(s.users)
    ensures var r := LinkAccount(s, id, now);
      && (forall e :: e in s.users && s.users[e].id != id ==> r.users[e] == s.users[e])
      && (forall e :: e in s.users && s.users[e].id == id && s.users[e].emailVerified.Some? ==> r.users[e] == s.users[e])
      && (forall e :: e in s.users && s.users[e].id == id && s.users[e].emailVerified.None? ==>
            r.users[e] == s.users[e].(emailVerified := Some(now)))
  {
  }

  /** Linking twice is linking once: the second event finds the timestamp set and does nothing. */
  lemma LinkAccountIdempotent(s: Store, id: UserId, t1: Tokens.Time, t2: Tokens.Time)
    requires UniqueIds(s.users)
    ensures LinkAccount(LinkAccount(s, id, t1), id, t2) == LinkAccount(s, id, t1)
  {
    LinkAccountEffect(s, id, t1);
  }

  lemma LinkAccountKeepsInvariant(s: Store, id: UserId, now: Tokens.Time)
    requires Invariant(s)
    ensures Invariant(LinkAccount(s, id, now))
    ensures UsersProgress(s.users, LinkAccount(s, id, now).users)
  {
    UpdateUserKeepsInvariant(s, id, SetEmailVerified(now));
  }
}
