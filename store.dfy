/**
 * The credential store the auth route handlers work on, in place of the Prisma client
 * (src/lib/prisma.ts is not part of this model): a user table keyed by lower-case e-mail and
 * three token tables keyed by their unique `tokenHash`. Also the request and response shapes
 * shared by the routes, and the opaque functions the routes call (zod's e-mail check, SHA-256,
 * bcrypt).
 */
module CredentialStore {
  import opened Common
  import opened Strings
  import opened Tokens
  import Email
  import Bcrypt

  type UserId = nat
  /** The hex SHA-256 digest `hashToken` stores in place of a raw token. */
  type Digest = string
  /** The random salt bcrypt draws for each hash; an explicit input here. */
  type Salt = nat

  datatype User = User(
    id: UserId,
    name: Option<string>,
    passwordHash: Option<string>,
    emailVerified: Option<Time>)

  /** A token row without its `tokenHash`, which is the row's key in its table. */
  datatype TokenRecord = TokenRecord(userId: UserId, expiresAt: Time)

  type TokenTable = map<Digest, TokenRecord>

  datatype TableName = EmailVerificationTokens | VerificationTokens | PasswordResetTokens

  datatype Store = Store(
    users: map<string, User>,
    emailVerificationToken: TokenTable,
    verificationToken: TokenTable,
    passwordResetToken: TokenTable)
  {
    function Table(n: TableName): TokenTable {
      match n
      case EmailVerificationTokens => emailVerificationToken
      case VerificationTokens => verificationToken
      case PasswordResetTokens => passwordResetToken
    }

    /** This store with table `n` replaced and everything else kept. */
    function WithTable(n: TableName, t: TokenTable): (s: Store)
      ensures s.Table(n) == t && s.users == users
      ensures forall m :: m != n ==> s.Table(m) == Table(m)
    {
      match n
      case EmailVerificationTokens => this.(emailVerificationToken := t)
      case VerificationTokens => this.(verificationToken := t)
      case PasswordResetTokens => this.(passwordResetToken := t)
    }
  }

  const EmptyStore := Store(map[], map[], map[], map[])

  /**
   * The library functions the routes call and this model leaves opaque: zod's `.email()` test,
   * `hashToken` (SHA-256 in hex), `bcrypt.hash(password, 12)` with its salt, and `bcrypt.compare`.
   */
  datatype Platform = Platform(
    isEmail: string -> bool,
    hashToken: string -> Digest,
    bcryptHash: (string, Salt) -> string,
    bcryptCompare: (string, string) -> bool)

  /** The one property of bcrypt the routes rely on: a password matches its own hash. */
  ghost predicate BcryptSound(p: Platform) {
    forall pw, salt :: p.bcryptCompare(pw, p.bcryptHash(pw, salt))
  }

  /**
   * bcryptjs hashes a password through its 72-byte key (`Bcrypt.Key`: the UTF-8 bytes and a NUL,
   * read cyclically): a hash matches every password with the same key as the hashed one and,
   * bcrypt being collision resistant, no other.
   */
  ghost predicate BcryptKeyed(p: Platform) {
    forall pw, other, salt :: p.bcryptCompare(other, p.bcryptHash(pw, salt)) <==> Bcrypt.Key(other) == Bcrypt.Key(pw)
  }

  /** One field of a parsed JSON body: absent, a string, or some other JSON value. */
  datatype JsonField = Missing | Str(value: string) | NonString

  /** `await request.json()`: a parse failure throws; otherwise the fields the schema looks at. */
  datatype Json<T> = Malformed | Object(fields: T)

  /** The `{ email }` body of resend-verification and forgot-password. */
  datatype EmailBody = EmailBody(email: JsonField)

  /** `z.string().email()`, with zod's e-mail pattern left to the platform. */
  predicate EmailField(p: Platform, f: JsonField) {
    f.Str? && p.isEmail(f.value)
  }

  const PasswordMinLength: nat := 8
  const PasswordMaxLength: nat := 72
  const TokenMinLength: nat := 10

  /** `z.string().min(8).max(72)`. */
  predicate PasswordField(f: JsonField) {
    f.Str? && PasswordMinLength <= |f.value| <= PasswordMaxLength
  }

  /** `z.string().min(10)`. */
  predicate TokenField(f: JsonField) {
    f.Str? && TokenMinLength <= |f.value|
  }

  /** A JSON reply `{ message }` or `{ error }`, or an exception that escaped the handler. */
  datatype Body = MessageBody(message: string) | ErrorBody(error: string) | Unhandled

  datatype Response = Response(status: int, body: Body)

  /** What the framework answers for an exception the handler does not catch. */
  const UncaughtError := Response(500, Unhandled)

  /** The e-mail sender as an abstract action: its configuration and whether the provider call throws. */
  datatype Mailer = Mailer(env: Email.Env, providerThrows: bool)

  /** What a request gets from outside: the clock, randomness for ids, tokens and salts, and the mailer. */
  datatype Entropy = Entropy(userId: UserId, tokenBytes: seq<Byte>, salt: Salt)

  datatype Context = Context(now: Time, entropy: Entropy, mailer: Mailer)

  /** `crypto.randomBytes(TOKEN_BYTE_LENGTH)` always yields exactly that many bytes. */
  predicate FromRandomBytes(f: Entropy) {
    |f.tokenBytes| == TokenByteLength
  }

  /** The result of a route: the store afterwards, the reply, and the e-mail handed to `sendEmail`. */
  datatype Outcome = Outcome(store: Store, response: Response, email: Option<Email.Payload>)

  // ---- the Prisma operations the routes use ----

  /** `user.findUnique({ where: { email } })`. */
  function FindUser(users: map<string, User>, email: string): (r: Option<User>)
    ensures r.Some? <==> email in users
    ensures r.Some? ==> r.value == users[email]
  {
    if email in users then Some(users[email]) else None
  }

  predicate HasUserId(users: map<string, User>, id: UserId) {
    exists e :: e in users && users[e].id == id
  }

  datatype UserPatch = SetEmailVerified(at: Time) | SetPasswordHash(hash: string)

  function Patch(u: User, patch: UserPatch): User {
    match patch
    case SetEmailVerified(at) => u.(emailVerified := Some(at))
    case SetPasswordHash(h) => u.(passwordHash := Some(h))
  }

  /** `user.update({ where: { id }, data })` for a user that exists: only that user's row changes. */
  function UpdateUser(users: map<string, User>, id: UserId, patch: UserPatch): (r: map<string, User>)
    ensures r.Keys == users.Keys
    ensures forall e :: e in users && users[e].id != id ==> r[e] == users[e]
    ensures forall e :: e in users && users[e].id == id ==> r[e] == Patch(users[e], patch)
  {
    map e | e in users :: if users[e].id == id then Patch(users[e], patch) else users[e]
  }

  /** The token hashes a table holds for one user. */
  function TokensOf(t: TokenTable, id: UserId): set<Digest> {
    set h | h in t && t[h].userId == id
  }

  /** `deleteMany({ where: { userId } })`: every row of that user goes, all other rows stay as they were. */
  function DeleteMany(t: TokenTable, id: UserId): (r: TokenTable)
    ensures TokensOf(r, id) == {}
    ensures forall h :: h in r <==> h in t && t[h].userId != id
    ensures forall h :: h in r ==> r[h] == t[h]
  {
    map h | h in t && t[h].userId != id :: t[h]
  }

  /** `create({ data })`: fails (the unique index on `tokenHash`) when the hash is already stored. */
  function Create(t: TokenTable, h: Digest, rec: TokenRecord): (r: Option<TokenTable>)
    ensures r.None? <==> h in t
    ensures r.Some? ==> r.value.Keys == t.Keys + {h} && r.value[h] == rec
    ensures r.Some? ==> forall k :: k in t ==> r.value[k] == t[k]
  {
    if h in t then None else Some(t[h := rec])
  }

  // ---- invariants every route preserves ----

  /** Every key of the user table is a lower-cased e-mail. */
  ghost predicate LowercaseKeys(users: map<string, User>) {
    forall e :: e in users ==> IsLowerCase(e)
  }

  ghost predicate UniqueIds(users: map<string, User>) {
    forall e1, e2 :: e1 in users && e2 in users && users[e1].id == users[e2].id ==> e1 == e2
  }

  /** At most one token per user in a table. */
  ghost predicate OnePerUser(t: TokenTable) {
    forall h1, h2 :: h1 in t && h2 in t && t[h1].userId == t[h2].userId ==> h1 == h2
  }

  ghost predicate OwnersExist(users: map<string, User>, t: TokenTable) {
    forall h :: h in t ==> HasUserId(users, t[h].userId)
  }

  ghost predicate TableValid(users: map<string, User>, t: TokenTable) {
    OwnersExist(users, t) && OnePerUser(t)
  }

  ghost predicate Invariant(s: Store) {
    && LowercaseKeys(s.users)
    && UniqueIds(s.users)
    && TableValid(s.users, s.emailVerificationToken)
    && TableValid(s.users, s.verificationToken)
    && TableValid(s.users, s.passwordResetToken)
  }

  lemma TablesValid(s: Store, n: TableName)
    requires Invariant(s)
    ensures TableValid(s.users, s.Table(n))
  {
  }

  lemma EmptyStoreValid()
    ensures Invariant(EmptyStore)
  {
  }

  /**
   * A user table evolves forward: no user disappears, ids never change, and a verified user
   * stays verified.
   */
  ghost predicate UsersProgress(before: map<string, User>, after: map<string, User>) {
    && before.Keys <= after.Keys
    && (forall e :: e in before ==> after[e].id == before[e].id)
    && (forall e :: e in before && before[e].emailVerified.Some? ==> after[e].emailVerified.Some?)
  }

  /** A `OnePerUser` table with exactly the row `rec` for one user: deleteMany then create. */
  lemma {:induction false} ReissueFacts(t: TokenTable, id: UserId, h: Digest, exp: Time)
    requires OnePerUser(t)
    requires h !in DeleteMany(t, id)
    ensures var r := Create(DeleteMany(t, id), h, TokenRecord(id, exp)).value;
      && OnePerUser(r)
      && TokensOf(r, id) == {h}
      && r[h] == TokenRecord(id, exp)
      && (forall u :: u != id ==> TokensOf(r, u) == TokensOf(t, u))
      && (forall k :: k in r && k != h ==> k in t && r[k] == t[k])
      && (forall k :: k in t && t[k].userId != id ==> k in r && r[k] == t[k])
  {
    var d := DeleteMany(t, id);
    var r := Create(d, h, TokenRecord(id, exp)).value;
    assert r == d[h := TokenRecord(id, exp)];
    forall u | u != id
      ensures TokensOf(r, u) == TokensOf(t, u)
    {
      assert forall k :: k in TokensOf(r, u) ==> k in TokensOf(t, u);
      assert forall k :: k in TokensOf(t, u) ==> k in TokensOf(r, u);
    }
    assert forall k :: k in TokensOf(r, id) ==> k == h;
  }

  /** Adding a user under a new lower-case key and a new id keeps the invariant. */
  lemma AddUserKeepsInvariant(s: Store, e: string, u: User)
    requires Invariant(s)
    requires IsLowerCase(e) && e !in s.users && !HasUserId(s.users, u.id)
    ensures Invariant(s.(users := s.users[e := u]))
    ensures UsersProgress(s.users, s.users[e := u])
    ensures HasUserId(s.users[e := u], u.id)
  {
    var users := s.users[e := u];
    assert users[e].id == u.id;
    SameIdsKeepOwners(s.users, users, s.emailVerificationToken);
    SameIdsKeepOwners(s.users, users, s.verificationToken);
    SameIdsKeepOwners(s.users, users, s.passwordResetToken);
  }

  /** Clearing one user's rows of a table and then creating one for them keeps the invariant. */
  lemma ReissueKeepsInvariant(s: Store, n: TableName, id: UserId, h: Digest, exp: Time)
    requires Invariant(s) && HasUserId(s.users, id)
    ensures Invariant(s.WithTable(n, DeleteMany(s.Table(n), id)))
    ensures h !in DeleteMany(s.Table(n), id) ==>
      Invariant(s.WithTable(n, Create(DeleteMany(s.Table(n), id), h, TokenRecord(id, exp)).value))
  {
    TablesValid(s, n);
    var d := DeleteMany(s.Table(n), id);
    SubTableValid(s.users, s.Table(n), d);
    if h !in d {
      ReissueFacts(s.Table(n), id, h, exp);
      var r := Create(d, h, TokenRecord(id, exp)).value;
      assert OwnersExist(s.users, r) by {
        forall k | k in r ensures HasUserId(s.users, r[k].userId) {
          if k != h { assert k in s.Table(n) && r[k] == s.Table(n)[k]; }
        }
      }
    }
  }

  /** A user table with the same keys and the same ids serves as owner for the same rows. */
  lemma SameIdsKeepOwners(users: map<string, User>, r: map<string, User>, t: TokenTable)
    requires OwnersExist(users, t)
    requires users.Keys <= r.Keys && forall e :: e in users ==> r[e].id == users[e].id
    ensures OwnersExist(r, t)
  {
    forall h | h in t
      ensures HasUserId(r, t[h].userId)
    {
      var w :| w in users && users[w].id == t[h].userId;
      assert w in r && r[w].id == t[h].userId;
    }
  }

  /** Patching a user row keeps keys and ids, hence every invariant. */
  lemma UpdateUserKeepsInvariant(s: Store, id: UserId, patch: UserPatch)
    requires Invariant(s)
    ensures Invariant(s.(users := UpdateUser(s.users, id, patch)))
    ensures UsersProgress(s.users, UpdateUser(s.users, id, patch))
  {
    var r := UpdateUser(s.users, id, patch);
    SameIdsKeepOwners(s.users, r, s.emailVerificationToken);
    SameIdsKeepOwners(s.users, r, s.verificationToken);
    SameIdsKeepOwners(s.users, r, s.passwordResetToken);
  }

  /** Removing rows from a table keeps it valid. */
  lemma SubTableValid(users: map<string, User>, t: TokenTable, r: TokenTable)
    requires TableValid(users, t)
    requires forall h :: h in r ==> h in t && r[h] == t[h]
    ensures TableValid(users, r)
  {
  }
}
