/**
 * src/modules/auth/auth.service.ts: registering a user and logging in, each answered with the user's
 * profile and a signed access token. bcrypt and jsonwebtoken are not modelled; their three entry points
 * are the fields of a `Crypto` value, and the random salt bcrypt draws is a parameter.
 */
module AuthService {
  import opened Wrappers
  import opened ErrorHandler
  import opened Types
  import opened Query
  import opened Database
  import opened AuthValidation
  import opened AuthMiddleware

  /** The bcrypt cost factor every password is hashed with. */
  const SALT_ROUNDS: nat := 12

  /** `env.JWT_SECRET` and `env.JWT_TTL`. */
  datatype AuthConfig = AuthConfig(jwtSecret: string, jwtTtl: string)

  /**
   * `bcrypt.hash(password, rounds)` with the salt it draws made explicit, `bcrypt.compare(password, hash)`,
   * and `jwt.sign(payload, secret, { expiresIn })`.
   */
  datatype Crypto = Crypto(
    bcryptHash: (string, nat, string) -> string,
    bcryptCompare: (string, string) -> bool,
    jwtSign: (AuthPayload, string, string) -> string)

  datatype AuthResult = AuthResult(user: UserDTO, accessToken: string)

  const InvalidCredentials: ErrorValue := ServiceError(401, "Invalid credentials", "INVALID_CREDENTIALS")

  const EMAIL_REGISTERED: string := "Email already registered"
  const HANDLE_TAKEN: string := "Handle already taken"

  function HashPassword(crypto: Crypto, password: string, salt: string): string {
    crypto.bcryptHash(password, SALT_ROUNDS, salt)
  }

  function VerifyPassword(crypto: Crypto, password: string, hash: string): bool {
    crypto.bcryptCompare(password, hash)
  }

  function GenerateToken(crypto: Crypto, config: AuthConfig, payload: AuthPayload): string {
    crypto.jwtSign(payload, config.jwtSecret, config.jwtTtl)
  }

  /** `toUserDTO`: every field of the row except the password hash. */
  function ToUserDTO(u: User): UserDTO {
    UserDTO(u.id, u.handle, u.email, u.name, u.createdAt)
  }

  /** The result both operations answer with: the profile, and a token for `{ userId, handle }` of that user. */
  function Answer(crypto: Crypto, config: AuthConfig, u: User): AuthResult {
    AuthResult(ToUserDTO(u), GenerateToken(crypto, config, AuthPayload(u.id, u.handle)))
  }

  /** `findFirst({ where: { OR: [{ email }, { handle }] } })`. */
  function ExistingUser(users: seq<User>, email: string, handle: string): (r: Option<User>)
    ensures r.Some? <==> exists i :: 0 <= i < |users| && (users[i].email == email || users[i].handle == handle)
    ensures r.Some? ==> r.value in users && (r.value.email == email || r.value.handle == handle)
  {
    FindFirst(users, (u: User) => u.email == email || u.handle == handle)
  }

  /**
   * The 409 USER_EXISTS error for a registration whose email or handle is stored already. Its message looks
   * only at the row the lookup found: 'Email already registered' when that row has the email, else
   * 'Handle already taken'.
   */
  function RegisterConflict(users: seq<User>, body: RegisterBody): (r: Option<ErrorValue>)
    ensures r.Some? <==> exists i :: 0 <= i < |users| && (users[i].email == body.email || users[i].handle == body.handle)
    ensures r.Some? ==>
      exists u :: u in users && (u.email == body.email || u.handle == body.handle) &&
                  r.value == ServiceError(409, if u.email == body.email then EMAIL_REGISTERED else HANDLE_TAKEN, "USER_EXISTS")
  {
    match ExistingUser(users, body.email, body.handle)
    case None => None
    case Some(existing) =>
      Some(ServiceError(409, if existing.email == body.email then EMAIL_REGISTERED else HANDLE_TAKEN, "USER_EXISTS"))
  }

  /** The row `register` asks the database to create: the body's fields, with the password hashed. */
  function NewUserRow(body: RegisterBody, crypto: Crypto, salt: string, newId: string, now: nat): (row: User)
    ensures row.email == body.email && row.handle == body.handle && row.name == body.name
    ensures row.passwordHash == crypto.bcryptHash(body.password, 12, salt)
  {
    User(newId, body.email, body.handle, body.name, HashPassword(crypto, body.password, salt), now)
  }

  /**
   * `register`: refuses a taken email or handle with 409 USER_EXISTS and leaves the users as they were;
   * otherwise appends the new row and answers with its profile and a token for `{ newId, handle }`.
   * The generated id is fresh, as the database's id generator promises.
   */
  method Register(db: Store, body: RegisterBody, crypto: Crypto, config: AuthConfig, salt: string, newId: string, now: nat)
    returns (r: Result<AuthResult, ErrorValue>)
    requires db.Valid()
    requires !HasUser(db.users, newId)
    modifies db
    ensures db.Valid()
    ensures db.follows == old(db.follows) && db.posts == old(db.posts)
    ensures match RegisterConflict(old(db.users), body)
      case Some(e) => r == Failure(e) && db.users == old(db.users)
      case None =>
        var row := NewUserRow(body, crypto, salt, newId, now);
        db.users == old(db.users) + [row] && r == Success(Answer(crypto, config, row))
  {
    var conflict := RegisterConflict(db.users, body);
    if conflict.Some? {
      return Failure(conflict.value);
    }
    var row := NewUserRow(body, crypto, salt, newId, now);
    var created := db.CreateUser(row);
    assert created.Success?;
    r := Success(Answer(crypto, config, created.value));
  }

  /** When the lookup finds a row with the email, the message is 'Email already registered'. */
  lemma EmailConflictMessage(users: seq<User>, body: RegisterBody)
    requires exists i :: 0 <= i < |users| && users[i].email == body.email
    requires forall i :: 0 <= i < |users| ==> users[i].handle != body.handle
    ensures RegisterConflict(users, body) == Some(ServiceError(409, EMAIL_REGISTERED, "USER_EXISTS"))
  {
  }

  /** When only the handle is stored, the message is 'Handle already taken'. */
  lemma HandleConflictMessage(users: seq<User>, body: RegisterBody)
    requires exists i :: 0 <= i < |users| && users[i].handle == body.handle
    requires forall i :: 0 <= i < |users| ==> users[i].email != body.email
    ensures RegisterConflict(users, body) == Some(ServiceError(409, HANDLE_TAKEN, "USER_EXISTS"))
  {
  }

  /** The same body registered twice: the one stored row holds both, and the email is what is reported. */
  lemma BothHeldByOneRowMessage(users: seq<User>, k: nat, body: RegisterBody)
    requires k < |users| && users[k].email == body.email && users[k].handle == body.handle
    requires forall i :: 0 <= i < |users| && i != k ==> users[i].email != body.email && users[i].handle != body.handle
    ensures RegisterConflict(users, body) == Some(ServiceError(409, EMAIL_REGISTERED, "USER_EXISTS"))
  {
  }

  /**
   * The lookup has no `orderBy`, so which of several matching rows it finds is up to the database. When the
   * email belongs to one user and the handle to another, the answer can be 'Handle already taken' although
   * the email is registered too: here the table order puts the handle's row first.
   */
  lemma SplitConflictReportsHandle()
    ensures var users := [User("u1", "one@example.com", "shared", "One", "h1", 1),
                          User("u2", "two@example.com", "second", "Two", "h2", 2)];
      RegisterConflict(users, RegisterBody("two@example.com", "shared", "Three", "secret"))
        == Some(ServiceError(409, HANDLE_TAKEN, "USER_EXISTS"))
  {
    var users := [User("u1", "one@example.com", "shared", "One", "h1", 1),
                  User("u2", "two@example.com", "second", "Two", "h2", 2)];
    assert users[0].handle == "shared";
    assert users[0].email != "two@example.com";
  }

  /** `findFirst({ where: { OR: [{ email: x }, { handle: x }] } })` for the login identifier. */
  function LoginMatch(users: seq<User>, emailOrHandle: string): (r: Option<User>)
    ensures r.Some? <==> exists i :: 0 <= i < |users| && (users[i].email == emailOrHandle || users[i].handle == emailOrHandle)
    ensures r.Some? ==> r.value in users && (r.value.email == emailOrHandle || r.value.handle == emailOrHandle)
  {
    FindFirst(users, (u: User) => u.email == emailOrHandle || u.handle == emailOrHandle)
  }

  /**
   * `login`: 401 INVALID_CREDENTIALS, the same error, for an unknown identifier and for a wrong password;
   * otherwise the profile of a user the identifier names, whose stored hash the password matches, and a
   * token for that user.
   */
  function Login(users: seq<User>, emailOrHandle: string, password: string, crypto: Crypto, config: AuthConfig): (r: Result<AuthResult, ErrorValue>)
    ensures r.Failure? ==> r.error == InvalidCredentials
    ensures (forall i :: 0 <= i < |users| ==> users[i].email != emailOrHandle && users[i].handle != emailOrHandle) ==> r.Failure?
    ensures r.Success? ==>
      exists u :: u in users && (u.email == emailOrHandle || u.handle == emailOrHandle) &&
                  crypto.bcryptCompare(password, u.passwordHash) && r.value == Answer(crypto, config, u)
  {
    match LoginMatch(users, emailOrHandle)
    case None => Failure(InvalidCredentials)
    case Some(u) =>
      if !VerifyPassword(crypto, password, u.passwordHash) then Failure(InvalidCredentials)
      else Success(Answer(crypto, config, u))
  }

  /** When exactly one stored user answers to the identifier, login succeeds exactly when the password matches that user's hash. */
  lemma LoginSingleMatch(users: seq<User>, k: nat, emailOrHandle: string, password: string, crypto: Crypto, config: AuthConfig)
    requires k < |users| && (users[k].email == emailOrHandle || users[k].handle == emailOrHandle)
    requires forall i :: 0 <= i < |users| && i != k ==> users[i].email != emailOrHandle && users[i].handle != emailOrHandle
    ensures Login(users, emailOrHandle, password, crypto, config) ==
      if crypto.bcryptCompare(password, users[k].passwordHash) then Success(Answer(crypto, config, users[k]))
      else Failure(InvalidCredentials)
  {
    var m := LoginMatch(users, emailOrHandle);
    var j :| 0 <= j < |users| && users[j] == m.value;
  }

  /**
   * After a registration that passed the conflict check, logging in with the same email and password gives
   * the new user and its token, provided bcrypt accepts the password against its own hash and the stored
   * handles are valid ones (so none of them can equal an email, which holds an '@').
   */
  lemma LoginByEmailAfterRegister(users: seq<User>, body: RegisterBody, crypto: Crypto, config: AuthConfig, salt: string, newId: string, now: nat)
    requires RegisterConflict(users, body).None?
    requires '@' in body.email
    requires forall i :: 0 <= i < |users| ==> HandleOk(users[i].handle)
    requires crypto.bcryptCompare(body.password, HashPassword(crypto, body.password, salt))
    ensures var row := NewUserRow(body, crypto, salt, newId, now);
      Login(users + [row], body.email, body.password, crypto, config) == Success(Answer(crypto, config, row))
  {
    var row := NewUserRow(body, crypto, salt, newId, now);
    forall i | 0 <= i < |users| ensures users[i].handle != body.email {
      HandleHasNoAt(users[i].handle);
    }
    FindFirstAfterMisses(users, row, (u: User) => u.email == body.email || u.handle == body.email);
  }

  /** The same with the handle as identifier, provided the stored emails each hold an '@' and the new handle is valid. */
  lemma LoginByHandleAfterRegister(users: seq<User>, body: RegisterBody, crypto: Crypto, config: AuthConfig, salt: string, newId: string, now: nat)
    requires RegisterConflict(users, body).None?
    requires HandleOk(body.handle)
    requires forall i :: 0 <= i < |users| ==> '@' in users[i].email
    requires crypto.bcryptCompare(body.password, HashPassword(crypto, body.password, salt))
    ensures var row := NewUserRow(body, crypto, salt, newId, now);
      Login(users + [row], body.handle, body.password, crypto, config) == Success(Answer(crypto, config, row))
  {
    var row := NewUserRow(body, crypto, salt, newId, now);
    HandleHasNoAt(body.handle);
    FindFirstAfterMisses(users, row, (u: User) => u.email == body.handle || u.handle == body.handle);
  }
}
