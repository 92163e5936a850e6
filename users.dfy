/** The user record (`models.User`), the request shapes bound from JSON, and the user
    repository as a store of rows that enforces the record's unique indexes. */
module Users {
  import opened Base

  /** A stored account. Every identity anchor is optional: a Telegram-created user has
      no email, username or password, a registered user has no Telegram id.
      `telegramChatId` is the chat that notifications go to. */
  datatype User = User(
    id: nat,
    telegramId: Option<int64>,
    telegramChatId: Option<int64>,
    email: Option<string>,
    username: Option<string>,
    password: Option<string>)

  datatype RegisterRequest = RegisterRequest(email: string, username: string, password: string)
  datatype LoginRequest = LoginRequest(email: string, password: string)
  datatype TelegramAuthRequest = TelegramAuthRequest(initData: string)

  /** Bytes that Go's `len` counts for a string held as UTF-8. */
  function Utf8Width(c: char): (n: nat)
    ensures 1 <= n <= 4
  {
    var code := c as int;
    if code < 0x80 then 1 else if code < 0x800 then 2 else if code < 0x1_0000 then 3 else 4
  }

  function Utf8Len(s: string): (n: nat)
  {
    if s == [] then 0 else Utf8Width(s[0]) + Utf8Len(s[1..])
  }

  /** A string is never shorter in bytes than in characters. */
  lemma {:induction false} Utf8LenAtLeastRunes(s: string)
    ensures |s| <= Utf8Len(s) <= 4 * |s|
  {
    if s != [] { Utf8LenAtLeastRunes(s[1..]); }
  }

  /** The `binding` tags of `RegisterRequest`: every field required, a username of
      at least 3 and a password of at least 6 characters (the validator counts runes).
      The email-format check is not modelled. */
  predicate RegisterRequestBinds(req: RegisterRequest) {
    req.email != [] && |req.username| >= 3 && |req.password| >= 6
  }

  /** `LoginRequest` requires both fields. */
  predicate LoginRequestBinds(req: LoginRequest) {
    req.email != [] && req.password != []
  }

  /** `TelegramAuthRequest` requires `init_data`. */
  predicate TelegramAuthRequestBinds(req: TelegramAuthRequest) {
    req.initData != []
  }

  /** Two present anchors that are equal collide in a unique index; absent (NULL)
      anchors never do. */
  predicate Collide<T(==)>(a: Option<T>, b: Option<T>) {
    a.Some? && a == b
  }

  predicate Conflict(u: User, v: User) {
    Collide(u.telegramId, v.telegramId) || Collide(u.email, v.email) || Collide(u.username, v.username)
  }

  /** The unique indexes on `telegram_id`, `email` and `username`. */
  predicate UniqueIndexes(rows: seq<User>) {
    forall i, j | 0 <= i < j < |rows| :: !Conflict(rows[i], rows[j])
  }

  /** Primary keys are assigned in insertion order, starting at 1. */
  predicate IdsArePositions(rows: seq<User>) {
    forall i | 0 <= i < |rows| :: rows[i].id == i + 1
  }

  predicate WellFormed(rows: seq<User>) {
    UniqueIndexes(rows) && IdsArePositions(rows)
  }

  predicate ConflictsWithAny(rows: seq<User>, u: User) {
    exists i | 0 <= i < |rows| :: Conflict(rows[i], u)
  }

  /** The first row (lowest id) that satisfies `matches`, as `First` returns it. */
  function FindFirst(rows: seq<User>, matches: User -> bool): (r: Option<User>)
    ensures r.Some? ==> r.value in rows && matches(r.value)
    ensures r.None? <==> forall i | 0 <= i < |rows| :: !matches(rows[i])
  {
    if rows == [] then None
    else if matches(rows[0]) then Some(rows[0])
    else FindFirst(rows[1..], matches)
  }

  /** `GetByTelegramID`: a stored user with that Telegram id, or none when no row has it. */
  function FindByTelegramID(rows: seq<User>, tid: int64): (r: Option<User>)
    ensures r.Some? ==> r.value in rows && r.value.telegramId == Some(tid)
    ensures r.None? <==> forall i | 0 <= i < |rows| :: rows[i].telegramId != Some(tid)
  {
    FindFirst(rows, (u: User) => u.telegramId == Some(tid))
  }

  /** `GetByEmail`: a stored user with that email, or none when no row has it. */
  function FindByEmail(rows: seq<User>, email: string): (r: Option<User>)
    ensures r.Some? ==> r.value in rows && r.value.email == Some(email)
    ensures r.None? <==> forall i | 0 <= i < |rows| :: rows[i].email != Some(email)
  {
    FindFirst(rows, (u: User) => u.email == Some(email))
  }

  /** `GetByID`: a stored user with that id, or none when no row has it. */
  function FindByID(rows: seq<User>, id: nat): (r: Option<User>)
    ensures r.Some? ==> r.value in rows && r.value.id == id
    ensures r.None? <==> forall i | 0 <= i < |rows| :: rows[i].id != id
  {
    FindFirst(rows, (u: User) => u.id == id)
  }

  lemma FindFirstIsEarliest(rows: seq<User>, matches: User -> bool, i: nat)
    requires i < |rows| && matches(rows[i])
    requires forall j | 0 <= j < i :: !matches(rows[j])
    ensures FindFirst(rows, matches) == Some(rows[i])
  {
    if i > 0 { FindFirstIsEarliest(rows[1..], matches, i - 1); }
  }

  /** The unique index on `telegram_id`: at most one user has a given Telegram id,
      so the lookup finds exactly that user. */
  lemma {:induction false} TelegramIdIdentifiesUser(rows: seq<User>, i: nat, tid: int64)
    requires UniqueIndexes(rows)
    requires i < |rows| && rows[i].telegramId == Some(tid)
    ensures FindByTelegramID(rows, tid) == Some(rows[i])
  {
    forall j | 0 <= j < i ensures rows[j].telegramId != Some(tid) {
      assert !Conflict(rows[j], rows[i]);
    }
    FindFirstIsEarliest(rows, (u: User) => u.telegramId == Some(tid), i);
  }

  /** The unique index on `email`: the email lookup finds the one user with it. */
  lemma {:induction false} EmailIdentifiesUser(rows: seq<User>, i: nat, email: string)
    requires UniqueIndexes(rows)
    requires i < |rows| && rows[i].email == Some(email)
    ensures FindByEmail(rows, email) == Some(rows[i])
  {
    forall j | 0 <= j < i ensures rows[j].email != Some(email) {
      assert !Conflict(rows[j], rows[i]);
    }
    FindFirstIsEarliest(rows, (u: User) => u.email == Some(email), i);
  }

  /** With ids assigned by position, the row with id `k` is the `k`-th one. */
  lemma {:induction false} FindByIDIsPosition(rows: seq<User>, id: nat)
    requires IdsArePositions(rows)
    ensures FindByID(rows, id) == if 1 <= id <= |rows| then Some(rows[id - 1]) else None
  {
    if 1 <= id <= |rows| {
      FindFirstIsEarliest(rows, (u: User) => u.id == id, id - 1);
    }
  }

  /** `Create`: the store assigns the next id; a collision with a unique index or a
      store fault is an error and inserts nothing. */
  function InsertUser(rows: seq<User>, u: User, fault: Option<StoreError>): (r: (Result<User, StoreError>, seq<User>))
    ensures r.0.Ok? <==> fault.None? && !ConflictsWithAny(rows, u)
    ensures r.0.Ok? ==> r.0.value == u.(id := |rows| + 1) && r.1 == rows + [r.0.value]
    ensures r.0.Err? ==> r.1 == rows
    ensures WellFormed(rows) ==> WellFormed(r.1)
  {
    if fault.Some? then (Err(fault.value), rows)
    else if ConflictsWithAny(rows, u) then (Err(UniqueViolation), rows)
    else
      var created := u.(id := |rows| + 1);
      assert forall i | 0 <= i < |rows| :: !Conflict(rows[i], created);
      (Ok(created), rows + [created])
  }

  /** `Update`: overwrites the row with the record's id; a missing row, a collision
      with another row's unique anchors or a store fault is an error and changes nothing. */
  function SaveUser(rows: seq<User>, u: User, fault: Option<StoreError>): (r: (Result<User, StoreError>, seq<User>))
    ensures r.0.Ok? ==> 1 <= u.id <= |rows| && r.1 == rows[u.id - 1 := u] && r.0.value == u
    ensures r.0.Err? ==> r.1 == rows
    ensures WellFormed(rows) ==> WellFormed(r.1)
  {
    if fault.Some? then (Err(fault.value), rows)
    else if !(1 <= u.id <= |rows|) || rows[u.id - 1].id != u.id then (Err(Other("record not found")), rows)
    else if exists i | 0 <= i < |rows| && i != u.id - 1 :: Conflict(rows[i], u) then (Err(UniqueViolation), rows)
    else (Ok(u), rows[u.id - 1 := u])
  }

  /** The user repository: its rows are the persisted users. Each call takes the
      fault the store may raise, which the model does not predict. */
  class UserRepository {
    var rows: seq<User>

    ghost predicate Valid()
      reads this
    {
      WellFormed(rows)
    }

    constructor ()
      ensures Valid() && rows == []
    {
      rows := [];
    }

    method GetByTelegramID(tid: int64, fault: Option<StoreError>) returns (r: Lookup<User>)
      ensures r == LookupOf(FindByTelegramID(rows, tid), fault)
    {
      r := LookupOf(FindByTelegramID(rows, tid), fault);
    }

    method GetByEmail(email: string, fault: Option<StoreError>) returns (r: Lookup<User>)
      ensures r == LookupOf(FindByEmail(rows, email), fault)
    {
      r := LookupOf(FindByEmail(rows, email), fault);
    }

    method GetByID(id: nat, fault: Option<StoreError>) returns (r: Lookup<User>)
      ensures r == LookupOf(FindByID(rows, id), fault)
    {
      r := LookupOf(FindByID(rows, id), fault);
    }

    method Create(u: User, fault: Option<StoreError>) returns (r: Result<User, StoreError>)
      requires Valid()
      modifies this
      ensures Valid()
      ensures (r, rows) == InsertUser(old(rows), u, fault)
    {
      var step := InsertUser(rows, u, fault);
      r, rows := step.0, step.1;
    }

    method Update(u: User, fault: Option<StoreError>) returns (r: Result<User, StoreError>)
      requires Valid()
      modifies this
      ensures Valid()
      ensures (r, rows) == SaveUser(old(rows), u, fault)
    {
      var step := SaveUser(rows, u, fault);
      r, rows := step.0, step.1;
    }
  }
}
