/** The authentication service: password registration and login, Telegram Mini App
    login with find-or-create of the account, the four default categories seeded for a
    new Telegram user, and the claims of the issued JWT. The stores are repository
    objects; bcrypt, JWT signing, `url.ParseQuery` and the init-data cryptography are
    parameters collected in `Env`. */
module Auth {
  import opened Base
  import opened Users
  import opened InitData
  import opened Calendar

  /** A spending category as `createDefaultCategories` fills it. */
  datatype Category = Category(userId: nat, name: string, color: string, icon: string, isDefault: bool)

  datatype Template = Template(name: string, color: string, icon: string)

  /** The four defaults, in the order they are created. */
  const DefaultTemplates: seq<Template> := [
    Template("Еда", "#F97316", "\U{1F354}"),
    Template("Транспорт", "#0EA5E9", "\U{1F695}"),
    Template("Дом", "#22C55E", "\U{1F3E0}"),
    Template("Подписки", "#8B5CF6", "\U{1F4F1}")
  ]

  /** The JWT claims: `user_id` and `exp`, in Unix seconds. */
  datatype Claims = Claims(userId: nat, exp: int)

  datatype LoginResponse = LoginResponse(token: string, user: User)

  datatype AuthError =
    | InvalidCredentials
    | StoreFailed(cause: StoreError)
    | EmailCheckFailed
    | EmailTaken
    | EmptyEmail
    | EmptyUsername
    | PasswordTooShort
    | HashFailed
    | SigningFailed

  /** The collaborators that are not modelled: query parsing, the init-data
      cryptography, the `user` JSON decoder, bcrypt and HS256 signing. A `None`
      from `bcryptHash` or `jwtSign` is the library's error. */
  datatype Env = Env(
    parseQuery: string -> Query,
    crypto: Crypto,
    parseUser: Bytes -> UserJson,
    bcryptHash: string -> Option<string>,
    bcryptMatches: (string, string) -> bool,
    jwtSign: (Claims, string) -> Option<string>)

  // ------------------------------------------------------------------ tokens

  /** `generateToken`: the token lives 24 hours from `now`. */
  function TokenClaims(userId: nat, now: int64): (c: Claims)
    ensures c.userId == userId && c.exp - now == SecondsPerDay
  {
    Claims(userId, now + SecondsPerDay)
  }

  function GenerateToken(userId: nat, now: int64, secret: string, env: Env): (r: Result<string, AuthError>)
    ensures r.Ok? <==> env.jwtSign(TokenClaims(userId, now), secret).Some?
    ensures r.Ok? ==> env.jwtSign(TokenClaims(userId, now), secret) == Some(r.value)
    ensures r.Err? ==> r.error == SigningFailed
  {
    match env.jwtSign(TokenClaims(userId, now), secret)
    case Some(token) => Ok(token)
    case None => Err(SigningFailed)
  }

  /** The response for `user`, or the signing error. */
  function Respond(user: User, now: int64, secret: string, env: Env): (r: Result<LoginResponse, AuthError>)
    ensures r.Ok? ==> r.value.user == user && GenerateToken(user.id, now, secret, env) == Ok(r.value.token)
    ensures r.Err? ==> r.error == SigningFailed
  {
    match GenerateToken(user.id, now, secret, env)
    case Ok(token) => Ok(LoginResponse(token, user))
    case Err(e) => Err(e)
  }

  // ---------------------------------------------------------- registration

  /** `validateRegister`: empty email, then empty username, then a password shorter
      than 6 bytes (Go's `len`), each reported by its own error. */
  function ValidateRegister(req: RegisterRequest): (r: Option<AuthError>)
    ensures r.None? <==> req.email != [] && req.username != [] && Utf8Len(req.password) >= 6
    ensures req.email == [] ==> r == Some(EmptyEmail)
    ensures req.email != [] && req.username == [] ==> r == Some(EmptyUsername)
    ensures req.email != [] && req.username != [] && Utf8Len(req.password) < 6 ==> r == Some(PasswordTooShort)
  {
    if req.email == [] then Some(EmptyEmail)
    else if req.username == [] then Some(EmptyUsername)
    else if Utf8Len(req.password) < 6 then Some(PasswordTooShort)
    else None
  }

  /** Every request that passes the binding tags also passes `validateRegister`:
      the service's checks are weaker than the handler's, a password of 6 characters
      having at least 6 bytes. */
  lemma BindingImpliesValidRegister(req: RegisterRequest)
    requires RegisterRequestBinds(req)
    ensures ValidateRegister(req).None?
  {
    Utf8LenAtLeastRunes(req.password);
  }

  datatype RegisterFaults = RegisterFaults(lookup: Option<StoreError>, create: Option<StoreError>)

  /** The account `Register` stores: email, username and hash, no Telegram anchor. */
  function RegisteredUser(req: RegisterRequest, hashed: string): User {
    User(0, None, None, Some(req.email), Some(req.username), Some(hashed))
  }

  /** `Register` on a snapshot of the users: the result and the new rows. */
  function RegisterOutcome(rows: seq<User>, req: RegisterRequest, faults: RegisterFaults, now: int64, secret: string, env: Env)
    : (out: (Result<LoginResponse, AuthError>, seq<User>))
    ensures out.1 == rows || (|out.1| == |rows| + 1 && out.1[..|rows|] == rows && out.1[|rows|].email == Some(req.email))
    ensures out.0.Ok? ==> ValidateRegister(req).None? && out.0.value.user.email == Some(req.email) &&
                          out.0.value.user.telegramId.None?
  {
    if ValidateRegister(req).Some? then (Err(ValidateRegister(req).value), rows)
    else
      match LookupOf(FindByEmail(rows, req.email), faults.lookup)
      case Failed(_) => (Err(EmailCheckFailed), rows)
      case Found(_) => (Err(EmailTaken), rows)
      case NotFound =>
        match env.bcryptHash(req.password)
        case None => (Err(HashFailed), rows)
        case Some(hashed) =>
          var (created, rows') := InsertUser(rows, RegisteredUser(req, hashed), faults.create);
          match created
          case Err(e) => (Err(StoreFailed(e)), rows)
          case Ok(user) => (Respond(user, now, secret, env), rows')
  }

  /** A request that fails validation is answered by its validation error before the
      store is consulted. */
  lemma RegisterValidatesFirst(rows: seq<User>, req: RegisterRequest, faults: RegisterFaults, now: int64, secret: string, env: Env)
    requires ValidateRegister(req).Some?
    ensures RegisterOutcome(rows, req, faults, now, secret, env) == (Err(ValidateRegister(req).value), rows)
  {
  }

  /** An email already in use is refused and nothing is stored. */
  lemma {:induction false} RegisterRejectsTakenEmail(rows: seq<User>, i: nat, req: RegisterRequest, faults: RegisterFaults, now: int64, secret: string, env: Env)
    requires UniqueIndexes(rows) && i < |rows| && rows[i].email == Some(req.email)
    requires ValidateRegister(req).None? && faults.lookup.None?
    ensures RegisterOutcome(rows, req, faults, now, secret, env) == (Err(EmailTaken), rows)
  {
    EmailIdentifiesUser(rows, i, req.email);
  }

  /** A successful registration appended exactly one user, with the next id, the
      request's email and username, bcrypt's hash of the password and no Telegram id;
      its token carries that id. Any failure before the insert leaves the rows alone. */
  lemma RegisterOk(rows: seq<User>, req: RegisterRequest, faults: RegisterFaults, now: int64, secret: string, env: Env)
    requires WellFormed(rows)
    ensures var (r, rows') := RegisterOutcome(rows, req, faults, now, secret, env);
            WellFormed(rows') &&
            (r.Ok? ==>
               ValidateRegister(req).None? && FindByEmail(rows, req.email).None? &&
               env.bcryptHash(req.password) == Some(r.value.user.password.value) &&
               r.value.user == RegisteredUser(req, r.value.user.password.value).(id := |rows| + 1) &&
               r.value.user.telegramId.None? &&
               rows' == rows + [r.value.user] &&
               env.jwtSign(Claims(|rows| + 1, now + SecondsPerDay), secret) == Some(r.value.token)) &&
            (r.Err? && r.error != SigningFailed ==> rows' == rows) &&
            (r.Err? && r.error == SigningFailed ==>
               |rows'| == |rows| + 1 && rows'[..|rows|] == rows && rows'[|rows|].email == Some(req.email))
  {
  }

  // ------------------------------------------------------------ password login

  /** `Login` on a snapshot of the users. */
  function LoginOutcome(rows: seq<User>, req: LoginRequest, fault: Option<StoreError>, now: int64, secret: string, env: Env)
    : (r: Result<LoginResponse, AuthError>)
    ensures r.Ok? ==> r.value.user in rows && r.value.user.email == Some(req.email) && r.value.user.password.Some?
    ensures r.Err? ==> r.error == InvalidCredentials || r.error == SigningFailed
  {
    match LookupOf(FindByEmail(rows, req.email), fault)
    case Found(user) =>
      if user.password.None? || !env.bcryptMatches(user.password.value, req.password) then Err(InvalidCredentials)
      else Respond(user, now, secret, env)
    case _ => Err(InvalidCredentials)
  }

  /** A login succeeds only for the stored user with that email whose stored hash
      matches the password; every lookup error, a missing password or a mismatch is
      `InvalidCredentials`, and the only other error is a signing failure. */
  lemma LoginSoundness(rows: seq<User>, req: LoginRequest, fault: Option<StoreError>, now: int64, secret: string, env: Env)
    ensures var r := LoginOutcome(rows, req, fault, now, secret, env);
            (r.Ok? ==>
               fault.None? && r.value.user in rows && r.value.user.email == Some(req.email) &&
               r.value.user.password.Some? && env.bcryptMatches(r.value.user.password.value, req.password) &&
               env.jwtSign(Claims(r.value.user.id, now + SecondsPerDay), secret) == Some(r.value.token)) &&
            (r.Err? ==> r.error == InvalidCredentials || r.error == SigningFailed) &&
            (fault.Some? || FindByEmail(rows, req.email).None? ==> r == Err(InvalidCredentials)) &&
            (fault.None? && FindByEmail(rows, req.email).Some? ==>
               var user := FindByEmail(rows, req.email).value;
               (user.password.None? || !env.bcryptMatches(user.password.value, req.password) ==> r == Err(InvalidCredentials)) &&
               (user.password.Some? && env.bcryptMatches(user.password.value, req.password) ==>
                  r == Respond(user, now, secret, env)))
  {
  }

  /** A user created through Telegram has no password and can never log in with one. */
  lemma TelegramUserCannotPasswordLogin(rows: seq<User>, i: nat, tid: int64, req: LoginRequest, fault: Option<StoreError>, now: int64, secret: string, env: Env)
    requires i < |rows| && rows[i] == NewTelegramUser(tid).(id := i + 1)
    ensures LoginOutcome(rows, req, fault, now, secret, env).Ok? ==> LoginOutcome(rows, req, fault, now, secret, env).value.user != rows[i]
  {
  }

  // ------------------------------------------------------- default categories

  function DefaultCategory(userId: nat, t: Template): Category {
    Category(userId, t.name, t.color, t.icon, true)
  }

  /** The categories stored after the first `n` create attempts, where the attempts
      whose index is in `failing` are the ones the store refuses. */
  function SeededUpTo(userId: nat, failing: set<nat>, n: nat): seq<Category>
    requires n <= |DefaultTemplates|
  {
    if n == 0 then []
    else SeededUpTo(userId, failing, n - 1) +
         (if n - 1 in failing then [] else [DefaultCategory(userId, DefaultTemplates[n - 1])])
  }

  function Seeded(userId: nat, failing: set<nat>): seq<Category> {
    SeededUpTo(userId, failing, |DefaultTemplates|)
  }

  /** Every stored default belongs to the user and is marked default, and a failed
      create does not stop the later ones: each attempt that succeeds is stored, in
      template order. */
  lemma {:induction false} SeededShape(userId: nat, failing: set<nat>, n: nat)
    requires n <= |DefaultTemplates|
    ensures |SeededUpTo(userId, failing, n)| <= n
    ensures forall c | c in SeededUpTo(userId, failing, n) :: c.userId == userId && c.isDefault
    ensures forall c | c in SeededUpTo(userId, failing, n) ::
              exists j | 0 <= j < n && j !in failing :: c == DefaultCategory(userId, DefaultTemplates[j])
    ensures forall i | 0 <= i < n && i !in failing :: DefaultCategory(userId, DefaultTemplates[i]) in SeededUpTo(userId, failing, n)
    ensures forall i | 0 <= i < n :: i in failing ==> DefaultCategory(userId, DefaultTemplates[i]) !in SeededUpTo(userId, failing, n)
  {
    if n > 0 {
      SeededShape(userId, failing, n - 1);
      DefaultNamesDistinct();
      var last := DefaultCategory(userId, DefaultTemplates[n - 1]);
      var prev := SeededUpTo(userId, failing, n - 1);
      var added := if n - 1 in failing then [] else [last];
      assert SeededUpTo(userId, failing, n) == prev + added;
      assert forall x :: x in prev + added <==> x in prev || x in added;
      forall i | 0 <= i < n && i in failing
        ensures DefaultCategory(userId, DefaultTemplates[i]) !in SeededUpTo(userId, failing, n)
      {
        var c := DefaultCategory(userId, DefaultTemplates[i]);
        if i == n - 1 {
          forall d | d in SeededUpTo(userId, failing, n - 1) ensures d.name != c.name {
            var j :| 0 <= j < n - 1 && j !in failing && d == DefaultCategory(userId, DefaultTemplates[j]);
            assert DefaultTemplates[j].name != DefaultTemplates[i].name;
          }
        } else {
          assert c.name != last.name;
        }
      }
    }
  }

  /** The four defaults have different names. */
  lemma DefaultNamesDistinct()
    ensures forall i, j | 0 <= i < j < |DefaultTemplates| :: DefaultTemplates[i].name != DefaultTemplates[j].name
  {
    assert DefaultTemplates[0].name[0] == 'Е' && DefaultTemplates[1].name[0] == 'Т';
    assert DefaultTemplates[2].name[0] == 'Д' && DefaultTemplates[3].name[0] == 'П';
  }

  /** With no failures, exactly the four defaults are stored, in their fixed order. */
  lemma SeededWithoutFailures(userId: nat)
    ensures Seeded(userId, {}) == [
      Category(userId, "Еда", "#F97316", "\U{1F354}", true),
      Category(userId, "Транспорт", "#0EA5E9", "\U{1F695}", true),
      Category(userId, "Дом", "#22C55E", "\U{1F3E0}", true),
      Category(userId, "Подписки", "#8B5CF6", "\U{1F4F1}", true)]
  {
    assert SeededUpTo(userId, {}, 1) == [DefaultCategory(userId, DefaultTemplates[0])];
    assert SeededUpTo(userId, {}, 2) == SeededUpTo(userId, {}, 1) + [DefaultCategory(userId, DefaultTemplates[1])];
    assert SeededUpTo(userId, {}, 3) == SeededUpTo(userId, {}, 2) + [DefaultCategory(userId, DefaultTemplates[2])];
  }

  /** The category repository: its rows are the stored categories. */
  class CategoryRepository {
    var rows: seq<Category>

    constructor ()
      ensures rows == []
    {
      rows := [];
    }

    method Create(c: Category, fault: Option<StoreError>) returns (r: Option<StoreError>)
      modifies this
      ensures r == fault
      ensures rows == old(rows) + (if fault.None? then [c] else [])
    {
      r := fault;
      if fault.None? {
        rows := rows + [c];
      }
    }
  }

  // ----------------------------------------------------------- Telegram login

  /** The account `LoginWithTelegram` creates: the Telegram id doubles as the chat id. */
  function NewTelegramUser(tid: int64): User {
    User(0, Some(tid), Some(tid), None, None, None)
  }

  datatype TelegramFaults = TelegramFaults(
    lookup: Option<StoreError>,
    create: Option<StoreError>,
    update: Option<StoreError>,
    seeding: set<nat>)

  datatype State = State(users: seq<User>, categories: seq<Category>)

  /** `LoginWithTelegram` on a snapshot of both stores, given the validator's answer:
      find the user by Telegram id, create one (and seed its categories) if there is
      none, backfill a missing chat id, then issue the token. */
  function TelegramLogin(s: State, verified: Result<int64, VerifyError>, faults: TelegramFaults, now: int64, secret: string, env: Env)
    : (out: (Result<LoginResponse, AuthError>, State))
    ensures out.0.Ok? ==> verified.Ok? && out.0.value.user.telegramId == Some(verified.value)
    ensures |s.users| <= |out.1.users| <= |s.users| + 1
    ensures s.categories <= out.1.categories
  {
    match verified
    case Err(_) => (Err(InvalidCredentials), s)
    case Ok(tid) =>
      match LookupOf(FindByTelegramID(s.users, tid), faults.lookup)
      case Failed(e) => (Err(StoreFailed(e)), s)
      case NotFound =>
        var (created, rows) := InsertUser(s.users, NewTelegramUser(tid), faults.create);
        (match created
         case Err(e) => (Err(StoreFailed(e)), s)
         case Ok(user) => (Respond(user, now, secret, env), State(rows, s.categories + Seeded(user.id, faults.seeding))))
      case Found(user) =>
        if user.telegramChatId.Some? then (Respond(user, now, secret, env), s)
        else
          var patched := user.(telegramChatId := Some(tid));
          var (_, rows) := SaveUser(s.users, patched, faults.update);
          (Respond(patched, now, secret, env), State(rows, s.categories))
  }

  /** Init data that fails verification is `InvalidCredentials`, and neither store
      is touched. */
  lemma TelegramRejectsUnverified(s: State, verified: Result<int64, VerifyError>, faults: TelegramFaults, now: int64, secret: string, env: Env)
    requires verified.Err?
    ensures TelegramLogin(s, verified, faults, now, secret, env) == (Err(InvalidCredentials), s)
  {
  }

  /** A lookup error other than not-found is returned as is, and nothing changes. */
  lemma TelegramPropagatesLookupError(s: State, tid: int64, faults: TelegramFaults, now: int64, secret: string, env: Env)
    requires faults.lookup.Some?
    ensures TelegramLogin(s, Ok(tid), faults, now, secret, env) == (Err(StoreFailed(faults.lookup.value)), s)
  {
  }

  /** An unknown Telegram id creates exactly one user, whose Telegram id and chat id
      are that id and who has no email, username or password, and then seeds the
      defaults for it; with a healthy store the creation cannot fail. */
  lemma TelegramFirstLogin(s: State, tid: int64, faults: TelegramFaults, now: int64, secret: string, env: Env)
    requires faults.lookup.None? && faults.create.None?
    requires FindByTelegramID(s.users, tid).None?
    ensures var created := NewTelegramUser(tid).(id := |s.users| + 1);
            TelegramLogin(s, Ok(tid), faults, now, secret, env) ==
              (Respond(created, now, secret, env),
               State(s.users + [created], s.categories + Seeded(|s.users| + 1, faults.seeding)))
  {
    var created := NewTelegramUser(tid).(id := |s.users| + 1);
    forall i | 0 <= i < |s.users| ensures !Conflict(s.users[i], NewTelegramUser(tid)) {
      assert s.users[i].telegramId != Some(tid);
    }
  }

  /** A known user is never duplicated and gets no new categories. The chat id is
      written only when it was missing; the answer does not depend on whether that
      update succeeds, and it carries the chat id either way. */
  lemma TelegramReturningUser(s: State, tid: int64, user: User, faults: TelegramFaults, now: int64, secret: string, env: Env)
    requires faults.lookup.None? && FindByTelegramID(s.users, tid) == Some(user)
    ensures var (r, s') := TelegramLogin(s, Ok(tid), faults, now, secret, env);
            var patched := if user.telegramChatId.Some? then user else user.(telegramChatId := Some(tid));
            r == Respond(patched, now, secret, env) &&
            r == TelegramLogin(s, Ok(tid), faults.(update := None), now, secret, env).0 &&
            s'.categories == s.categories && |s'.users| == |s.users| &&
            (user.telegramChatId.Some? ==> s'.users == s.users) &&
            (user.telegramChatId.None? ==> s'.users == SaveUser(s.users, patched, faults.update).1)
  {
  }

  /** Both stores' invariants survive a Telegram login. */
  lemma TelegramLoginPreservesWellFormed(s: State, verified: Result<int64, VerifyError>, faults: TelegramFaults, now: int64, secret: string, env: Env)
    requires WellFormed(s.users)
    ensures WellFormed(TelegramLogin(s, verified, faults, now, secret, env).1.users)
  {
  }

  /** After a login for `tid`, the rows hold a user with that Telegram id at the
      position of its primary key. */
  lemma {:induction false} TelegramLoginLeavesAccount(s: State, tid: int64, faults: TelegramFaults, now: int64, secret: string, env: Env)
    requires WellFormed(s.users)
    requires TelegramLogin(s, Ok(tid), faults, now, secret, env).0.Ok?
    ensures var (r, s') := TelegramLogin(s, Ok(tid), faults, now, secret, env);
            1 <= r.value.user.id <= |s'.users| && s'.users[r.value.user.id - 1].telegramId == Some(tid)
  {
    var (r, s') := TelegramLogin(s, Ok(tid), faults, now, secret, env);
    var found := FindByTelegramID(s.users, tid);
    if found.Some? {
      var user := found.value;
      var i :| 0 <= i < |s.users| && s.users[i] == user;
      assert user.id == i + 1;
    }
  }

  /** Logging in again with the same Telegram id creates no user and no category,
      and answers with the same account. */
  lemma {:induction false} TelegramLoginIdempotent(s: State, tid: int64, first: TelegramFaults, second: TelegramFaults, now: int64, now': int64, secret: string, env: Env)
    requires WellFormed(s.users)
    requires TelegramLogin(s, Ok(tid), first, now, secret, env).0.Ok?
    requires second.lookup.None?
    ensures var (r1, s1) := TelegramLogin(s, Ok(tid), first, now, secret, env);
            var (r2, s2) := TelegramLogin(s1, Ok(tid), second, now', secret, env);
            |s2.users| == |s1.users| && s2.categories == s1.categories &&
            (r2.Ok? ==> r2.value.user.id == r1.value.user.id)
  {
    var (r1, s1) := TelegramLogin(s, Ok(tid), first, now, secret, env);
    TelegramLoginPreservesWellFormed(s, Ok(tid), first, now, secret, env);
    TelegramLoginLeavesAccount(s, tid, first, now, secret, env);
    var i := r1.value.user.id - 1;
    TelegramIdIdentifiesUser(s1.users, i, tid);
    TelegramReturningUser(s1, tid, s1.users[i], second, now', secret, env);
  }

  // ------------------------------------------------------------- the service

  /** `authService`: the two repositories, the JWT secret and the bot token. */
  class AuthService {
    const users: UserRepository
    const categories: CategoryRepository
    const jwtSecret: string
    const botToken: Bytes

    ghost predicate Valid()
      reads this, users
    {
      users.Valid()
    }

    constructor (users: UserRepository, categories: CategoryRepository, jwtSecret: string, botToken: Bytes)
      requires users.Valid()
      ensures Valid()
      ensures this.users == users && this.categories == categories
      ensures this.jwtSecret == jwtSecret && this.botToken == botToken
    {
      this.users := users;
      this.categories := categories;
      this.jwtSecret := jwtSecret;
      this.botToken := botToken;
    }

    method CreateDefaultCategories(userId: nat, failing: set<nat>)
      modifies categories
      ensures categories.rows == old(categories.rows) + Seeded(userId, failing)
    {
      var i := 0;
      while i < |DefaultTemplates|
        invariant 0 <= i <= |DefaultTemplates|
        invariant categories.rows == old(categories.rows) + SeededUpTo(userId, failing, i)
      {
        var category := DefaultCategory(userId, DefaultTemplates[i]);
        var ignored := categories.Create(category, if i in failing then Some(Other("create failed")) else None);
        i := i + 1;
      }
    }

    method LoginWithTelegram(initData: string, now: int64, env: Env, faults: TelegramFaults)
      returns (r: Result<LoginResponse, AuthError>)
      requires Valid()
      modifies users, categories
      ensures Valid()
      ensures (r, State(users.rows, categories.rows)) ==
              TelegramLogin(State(old(users.rows), old(categories.rows)),
                            Verify(env.parseQuery(initData), botToken, now, env.crypto, env.parseUser),
                            faults, now, jwtSecret, env)
    {
      var verified := ValidateTelegramInitData(env.parseQuery(initData), botToken, now, env.crypto, env.parseUser);
      if verified.Err? {
        return Err(InvalidCredentials);
      }
      r := SignInTelegramUser(verified.value, now, env, faults);
    }

    /** The part of `LoginWithTelegram` after the init data has been verified. */
    method SignInTelegramUser(tid: int64, now: int64, env: Env, faults: TelegramFaults)
      returns (r: Result<LoginResponse, AuthError>)
      requires Valid()
      modifies users, categories
      ensures Valid()
      ensures (r, State(users.rows, categories.rows)) ==
              TelegramLogin(State(old(users.rows), old(categories.rows)), Ok(tid), faults, now, jwtSecret, env)
    {
      var found := users.GetByTelegramID(tid, faults.lookup);
      var user: User;
      match found {
        case Failed(e) =>
          return Err(StoreFailed(e));
        case NotFound =>
          var created := users.Create(NewTelegramUser(tid), faults.create);
          if created.Err? {
            return Err(StoreFailed(created.error));
          }
          user := created.value;
          CreateDefaultCategories(user.id, faults.seeding);
        case Found(u) =>
          user := u;
          if user.telegramChatId.None? {
            user := user.(telegramChatId := Some(tid));
            var ignored := users.Update(user, faults.update);
          }
      }
      r := Respond(user, now, jwtSecret, env);
    }

    method Register(req: RegisterRequest, now: int64, env: Env, faults: RegisterFaults)
      returns (r: Result<LoginResponse, AuthError>)
      requires Valid()
      modifies users
      ensures Valid()
      ensures (r, users.rows) == RegisterOutcome(old(users.rows), req, faults, now, jwtSecret, env)
    {
      var invalid := ValidateRegister(req);
      if invalid.Some? {
        return Err(invalid.value);
      }
      var existing := users.GetByEmail(req.email, faults.lookup);
      if existing.Failed? {
        return Err(EmailCheckFailed);
      }
      if existing.Found? {
        return Err(EmailTaken);
      }
      var hashed := env.bcryptHash(req.password);
      if hashed.None? {
        return Err(HashFailed);
      }
      var created := users.Create(RegisteredUser(req, hashed.value), faults.create);
      if created.Err? {
        return Err(StoreFailed(created.error));
      }
      r := Respond(created.value, now, jwtSecret, env);
    }

    method Login(req: LoginRequest, now: int64, env: Env, fault: Option<StoreError>)
      returns (r: Result<LoginResponse, AuthError>)
      ensures r == LoginOutcome(users.rows, req, fault, now, jwtSecret, env)
    {
      var found := users.GetByEmail(req.email, fault);
      if !found.Found? {
        return Err(InvalidCredentials);
      }
      var user := found.row;
      if user.password.None? || !env.bcryptMatches(user.password.value, req.password) {
        return Err(InvalidCredentials);
      }
      r := Respond(user, now, jwtSecret, env);
    }
  }
}
