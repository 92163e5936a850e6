/** Verification of Telegram Mini App init data (`validateTelegramInitData`).
    The blob arrives already split into (key, value) pairs; the model starts from
    the `url.Values` map that `url.ParseQuery` builds from them. HMAC-SHA256, hex
    encoding and `json.Unmarshal` of the `user` field are parameters. */
module InitData {
  import opened Base
  import opened ByteStrings
  import opened Decimal

  datatype Pair = Pair(key: Bytes, value: Bytes)

  /** The outcome of `url.ParseQuery`: a parse error, or the decoded pairs in order. */
  datatype Query = Malformed | Parsed(pairs: seq<Pair>)

  /** `url.Values`: every key maps to the values it was given, in input order. */
  type Values = map<Bytes, seq<Bytes>>

  const HashKey: Bytes := Ascii("hash")
  const AuthDateKey: Bytes := Ascii("auth_date")
  const IdKey: Bytes := Ascii("id")
  const UserKey: Bytes := Ascii("user")
  /** The HMAC key that derives the secret from the bot token. */
  const WebAppData: Bytes := Ascii("WebAppData")
  const Equals: Bytes := [61]
  const Newline: Bytes := [10]
  /** Maximum accepted age of `auth_date`, in seconds. */
  const MaxAge: int := 86400

  datatype VerifyError =
    | MalformedQuery
    | HashMissing
    | AuthDateMissing
    | AuthDateInvalid
    | AuthExpired
    | SignatureMismatch
    | IdInvalid
    | UserMissing
    | UserInvalid

  /** What `json.Unmarshal` makes of the `user` field: an error, an object without
      an `id` (which leaves the id 0), or an object with an `int64` id. */
  datatype UserJson = Unparsable | WithoutId | WithId(id: int64)

  datatype Crypto = Crypto(hmacSha256: (Bytes, Bytes) -> Bytes, hexEncode: Bytes -> Bytes)

  // ---------------------------------------------------------------- url.Values

  predicate HasKey(pairs: seq<Pair>, k: Bytes) {
    exists i | 0 <= i < |pairs| :: pairs[i].key == k
  }

  /** The values given for `k`, in the order of the input. */
  function ValuesOf(pairs: seq<Pair>, k: Bytes): seq<Bytes> {
    if pairs == [] then []
    else ValuesOf(pairs[..|pairs| - 1], k) + (if pairs[|pairs| - 1].key == k then [pairs[|pairs| - 1].value] else [])
  }

  /** The map `url.ParseQuery` builds: one entry per key that occurs, holding all its
      values in order. */
  function Collect(pairs: seq<Pair>): (m: Values)
    ensures forall k :: k in m <==> HasKey(pairs, k)
    ensures forall k | k in m :: m[k] == ValuesOf(pairs, k) && |m[k]| > 0
  {
    if pairs == [] then map[]
    else
      var prefix := pairs[..|pairs| - 1];
      var last := pairs[|pairs| - 1];
      var m := Collect(prefix);
      CollectStep(pairs, m);
      m[last.key := (if last.key in m then m[last.key] else []) + [last.value]]
  }

  /** Adding the last pair to the map of the others gives the map of all pairs. */
  lemma CollectStep(pairs: seq<Pair>, m: Values)
    requires pairs != []
    requires forall k :: k in m <==> HasKey(pairs[..|pairs| - 1], k)
    requires forall k | k in m :: m[k] == ValuesOf(pairs[..|pairs| - 1], k) && |m[k]| > 0
    ensures var last := pairs[|pairs| - 1];
            var m' := m[last.key := (if last.key in m then m[last.key] else []) + [last.value]];
            (forall k :: k in m' <==> HasKey(pairs, k)) &&
            (forall k | k in m' :: m'[k] == ValuesOf(pairs, k) && |m'[k]| > 0)
  {
    CollectStepKeys(pairs, m);
    CollectStepValues(pairs, m);
  }

  lemma CollectStepKeys(pairs: seq<Pair>, m: Values)
    requires pairs != []
    requires forall k :: k in m <==> HasKey(pairs[..|pairs| - 1], k)
    ensures var last := pairs[|pairs| - 1];
            forall k :: k in m || k == last.key <==> HasKey(pairs, k)
  {
    HasKeyPrefix(pairs);
  }

  lemma CollectStepValues(pairs: seq<Pair>, m: Values)
    requires pairs != []
    requires forall k :: k in m <==> HasKey(pairs[..|pairs| - 1], k)
    requires forall k | k in m :: m[k] == ValuesOf(pairs[..|pairs| - 1], k) && |m[k]| > 0
    ensures var last := pairs[|pairs| - 1];
            var m' := m[last.key := (if last.key in m then m[last.key] else []) + [last.value]];
            forall k | k in m' :: m'[k] == ValuesOf(pairs, k) && |m'[k]| > 0
  {
    var last := pairs[|pairs| - 1];
    var m' := m[last.key := (if last.key in m then m[last.key] else []) + [last.value]];
    forall k | k in m' ensures m'[k] == ValuesOf(pairs, k) && |m'[k]| > 0 {
      CollectValueAt(pairs, m, k);
    }
  }

  /** The same for one key. */
  lemma CollectValueAt(pairs: seq<Pair>, m: Values, k: Bytes)
    requires pairs != []
    requires k in m <==> HasKey(pairs[..|pairs| - 1], k)
    requires k in m ==> m[k] == ValuesOf(pairs[..|pairs| - 1], k)
    ensures var last := pairs[|pairs| - 1];
            var m' := m[last.key := (if last.key in m then m[last.key] else []) + [last.value]];
            k in m' ==> m'[k] == ValuesOf(pairs, k)
  {
    var last := pairs[|pairs| - 1];
    if k == last.key && k !in m {
      EmptyValuesOfAbsent(pairs[..|pairs| - 1], k);
    }
  }

  lemma HasKeyPrefix(pairs: seq<Pair>)
    requires pairs != []
    ensures forall k :: HasKey(pairs, k) <==> HasKey(pairs[..|pairs| - 1], k) || pairs[|pairs| - 1].key == k
  {
    var prefix := pairs[..|pairs| - 1];
    assert forall i | 0 <= i < |prefix| :: prefix[i] == pairs[i];
  }

  /** `Values.Get`: the first value of the key, or "" when the key is absent. */
  function Get(values: Values, key: Bytes): (r: Bytes)
    ensures key in values && |values[key]| > 0 ==> r == values[key][0]
    ensures key !in values ==> r == []
  {
    if key in values && |values[key]| > 0 then values[key][0] else []
  }

  predicate FirstValuesPresent(values: Values) {
    forall k | k in values :: |values[k]| > 0
  }

  /** Only the first occurrence of a key is authoritative: `Get` returns the value of
      the earliest pair with that key, whatever later pairs say. */
  lemma FirstValueWins(pairs: seq<Pair>, i: nat)
    requires i < |pairs|
    requires forall j | 0 <= j < i :: pairs[j].key != pairs[i].key
    ensures Get(Collect(pairs), pairs[i].key) == pairs[i].value
  {
    FirstOfValuesOf(pairs, i);
    assert HasKey(pairs, pairs[i].key);
  }

  /** The values of a key start with the value of its first pair. */
  lemma {:induction false} FirstOfValuesOf(pairs: seq<Pair>, i: nat)
    requires i < |pairs|
    requires forall j | 0 <= j < i :: pairs[j].key != pairs[i].key
    ensures |ValuesOf(pairs, pairs[i].key)| > 0 && ValuesOf(pairs, pairs[i].key)[0] == pairs[i].value
    decreases |pairs|
  {
    var k := pairs[i].key;
    var prefix := pairs[..|pairs| - 1];
    assert ValuesOf(pairs, k) == ValuesOf(prefix, k) + (if pairs[|pairs| - 1].key == k then [pairs[|pairs| - 1].value] else []);
    if i < |prefix| {
      assert prefix[i] == pairs[i];
      assert forall j | 0 <= j < i :: prefix[j] == pairs[j];
      FirstOfValuesOf(prefix, i);
    } else {
      assert forall j | 0 <= j < |prefix| :: prefix[j] == pairs[j];
      EmptyValuesOfAbsent(prefix, k);
    }
  }

  lemma {:induction false} EmptyValuesOfAbsent(pairs: seq<Pair>, k: Bytes)
    ensures !HasKey(pairs, k) ==> ValuesOf(pairs, k) == []
    decreases |pairs|
  {
    if pairs != [] && !HasKey(pairs, k) {
      var prefix := pairs[..|pairs| - 1];
      assert forall j | 0 <= j < |prefix| :: prefix[j] == pairs[j];
      EmptyValuesOfAbsent(prefix, k);
    }
  }

  // ------------------------------------------------------- data-check string

  function Line(key: Bytes, value: Bytes): Bytes {
    key + Equals + value
  }

  /** One `key=firstValue` line per key of `keys`, in that order. */
  function LinesOf(values: Values, keys: seq<Bytes>): (lines: seq<Bytes>)
    requires FirstValuesPresent(values)
    requires forall i | 0 <= i < |keys| :: keys[i] in values
    ensures |lines| == |keys|
  {
    seq(|keys|, i requires 0 <= i < |keys| => Line(keys[i], values[keys[i]][0]))
  }

  /** `keys` lists every element of `s` exactly once: one possible iteration order of a map. */
  ghost predicate IsEnumeration(keys: seq<Bytes>, s: set<Bytes>) {
    (forall i, j | 0 <= i < j < |keys| :: keys[i] != keys[j]) &&
    (forall k :: k in keys <==> k in s)
  }

  ghost function Enumerate(s: set<Bytes>): (keys: seq<Bytes>)
    ensures IsEnumeration(keys, s)
    decreases |s|
  {
    if s == {} then []
    else
      assert exists k :: k in s;
      var k :| k in s;
      [k] + Enumerate(s - {k})
  }

  /** The data-check string of the remaining fields: the `key=firstValue` lines sorted
      bytewise as whole lines and joined by a single newline. */
  ghost function CheckString(values: Values): Bytes
    requires FirstValuesPresent(values)
  {
    Join(Sort(LinesOf(values, Enumerate(values.Keys))), Newline)
  }

  /** Dropping one entry of an enumeration enumerates the rest of the set. */
  lemma RemoveAt(b: seq<Bytes>, j: nat, s: set<Bytes>)
    requires IsEnumeration(b, s) && j < |b|
    ensures IsEnumeration(b[..j] + b[j + 1..], s - {b[j]})
  {
    var b' := b[..j] + b[j + 1..];
    assert forall i | 0 <= i < |b'| :: b'[i] == (if i < j then b[i] else b[i + 1]);
    forall x ensures x in b' <==> x in s - {b[j]} {
      if x in s - {b[j]} {
        var i :| 0 <= i < |b| && b[i] == x;
        if i < j { assert b'[i] == x; } else { assert b'[i - 1] == x; }
      }
    }
  }

  lemma LinesOfRemoveAt(values: Values, b: seq<Bytes>, j: nat)
    requires FirstValuesPresent(values)
    requires forall i | 0 <= i < |b| :: b[i] in values
    requires j < |b|
    ensures multiset(LinesOf(values, b)) == multiset(LinesOf(values, b[..j] + b[j + 1..])) + multiset{LinesOf(values, b)[j]}
  {
    var lb := LinesOf(values, b);
    assert lb == lb[..j] + [lb[j]] + lb[j + 1..];
    assert LinesOf(values, b[..j] + b[j + 1..]) == lb[..j] + lb[j + 1..];
  }

  /** Taking one key out of both orders keeps their lines equal up to order. */
  lemma LinesStep(values: Values, a: seq<Bytes>, b: seq<Bytes>, j: nat)
    requires FirstValuesPresent(values)
    requires forall i | 0 <= i < |a| :: a[i] in values
    requires forall i | 0 <= i < |b| :: b[i] in values
    requires 0 < |a| && j < |b| && b[j] == a[0]
    requires multiset(LinesOf(values, a[1..])) == multiset(LinesOf(values, b[..j] + b[j + 1..]))
    ensures multiset(LinesOf(values, a)) == multiset(LinesOf(values, b))
  {
    LinesOfRemoveAt(values, a, 0);
    LinesOfRemoveAt(values, b, j);
    assert a[..0] + a[1..] == a[1..];
  }

  /** Two iteration orders of the same keys give the same lines, up to order. */
  lemma {:induction false} EnumerationsGiveSameLines(values: Values, a: seq<Bytes>, b: seq<Bytes>, s: set<Bytes>)
    requires FirstValuesPresent(values) && s <= values.Keys
    requires IsEnumeration(a, s) && IsEnumeration(b, s)
    ensures multiset(LinesOf(values, a)) == multiset(LinesOf(values, b))
    decreases |a|
  {
    if a == [] {
      assert s == {};
    } else {
      var k := a[0];
      assert k in b;
      var j :| 0 <= j < |b| && b[j] == k;
      var a', b' := a[1..], b[..j] + b[j + 1..];
      RemoveAt(a, 0, s);
      assert a[..0] + a[1..] == a';
      RemoveAt(b, j, s);
      EnumerationsGiveSameLines(values, a', b', s - {k});
      LinesStep(values, a, b, j);
    }
  }

  /** The data-check string depends on the map only, never on the order in which the
      keys are visited. */
  lemma CheckStringIsOrderIndependent(values: Values, keys: seq<Bytes>)
    requires FirstValuesPresent(values)
    requires IsEnumeration(keys, values.Keys)
    ensures Join(Sort(LinesOf(values, keys)), Newline) == CheckString(values)
  {
    EnumerationsGiveSameLines(values, keys, Enumerate(values.Keys), values.Keys);
    SortPermutationInvariant(LinesOf(values, keys), LinesOf(values, Enumerate(values.Keys)));
  }

  /** The data-check string reads only the keys and their first values. */
  lemma CheckStringReadsFirstValues(v: Values, w: Values)
    requires FirstValuesPresent(v) && FirstValuesPresent(w)
    requires v.Keys == w.Keys
    requires forall k | k in v :: v[k][0] == w[k][0]
    ensures CheckString(v) == CheckString(w)
  {
    assert LinesOf(v, Enumerate(v.Keys)) == LinesOf(w, Enumerate(w.Keys));
  }

  // ------------------------------------------------------------- freshness

  /** The freshness test as written: `time.Now().Unix()-authDate > 86400` on `int64`,
      whose subtraction wraps around. */
  function ExpiredAsWritten(now: int64, authDate: int64): (r: bool)
    ensures Int64Min <= now - authDate <= Int64Max ==> (r <==> now - authDate > MaxAge)
  {
    Wrap64(now - authDate) > MaxAge
  }

  /** The freshness test as intended: the exact age exceeds 24 hours. An age of
      exactly 86400 s, and a future `auth_date`, are accepted. */
  function Expired(now: int64, authDate: int64): bool {
    now - authDate > MaxAge
  }

  /** The intended test is monotone: an older `auth_date` is never fresher. */
  lemma ExpiredIsMonotone(now: int64, older: int64, newer: int64)
    requires older <= newer
    ensures Expired(now, newer) ==> Expired(now, older)
    ensures newer >= now - MaxAge ==> !Expired(now, newer)
  {
  }

  /** The wrap-around breaks monotonicity: at a present-day clock, the most negative
      `auth_date` passes the test that `auth_date = 0` fails. */
  lemma ExpiredAsWrittenNotMonotone()
    ensures ExpiredAsWritten(1_700_000_000, 0)
    ensures !ExpiredAsWritten(1_700_000_000, Int64Min)
    ensures Expired(1_700_000_000, Int64Min)
  {
    assert Wrap64(1_700_000_000 - Int64Min) == 1_700_000_000 + Int64Min;
  }

  // ------------------------------------------------------------- signature

  /** `hex(HMAC(HMAC("WebAppData", botToken), dataCheckString))`. */
  function ExpectedHash(crypto: Crypto, botToken: Bytes, dataCheckString: Bytes): Bytes {
    var secret := crypto.hmacSha256(WebAppData, botToken);
    crypto.hexEncode(crypto.hmacSha256(secret, dataCheckString))
  }

  // ---------------------------------------------------------------- identity

  /** A non-empty top-level `id` wins, and a parse error in it is an error; otherwise
      the `user` JSON is required, and an object without `id` gives 0. */
  function ResolveId(values: Values, parseUser: Bytes -> UserJson): (r: Result<int64, VerifyError>)
    ensures Get(values, IdKey) != [] ==> (r.Ok? <==> ParseInt64(Get(values, IdKey)).Some?)
    ensures Get(values, IdKey) != [] && r.Ok? ==> ParseInt64(Get(values, IdKey)) == Some(r.value)
    ensures Get(values, IdKey) != [] && r.Err? ==> r.error == IdInvalid
    ensures Get(values, IdKey) == [] ==>
              (r.Ok? <==> Get(values, UserKey) != [] && !parseUser(Get(values, UserKey)).Unparsable?)
    ensures Get(values, IdKey) == [] && r.Ok? ==>
              r.value == (match parseUser(Get(values, UserKey)) case WithId(id) => id case _ => 0)
    ensures Get(values, IdKey) == [] && Get(values, UserKey) == [] ==> r == Err(UserMissing)
  {
    var idStr := Get(values, IdKey);
    if idStr != [] then
      match ParseInt64(idStr)
      case Some(id) => Ok(id)
      case None => Err(IdInvalid)
    else
      var userJson := Get(values, UserKey);
      if userJson == [] then Err(UserMissing)
      else
        match parseUser(userJson)
        case Unparsable => Err(UserInvalid)
        case WithoutId => Ok(0)
        case WithId(id) => Ok(id)
  }

  // --------------------------------------------------------- the validator

  /** The whole check, in the order the code performs it. */
  ghost function Verify(q: Query, botToken: Bytes, now: int64, crypto: Crypto, parseUser: Bytes -> UserJson)
    : (r: Result<int64, VerifyError>)
    ensures q.Malformed? ==> r == Err(MalformedQuery)
    ensures q.Parsed? ==>
              (r.Ok? <==> Signed(Collect(q.pairs), botToken, crypto) && Fresh(Collect(q.pairs), now) &&
                          ResolveId(Collect(q.pairs) - {HashKey}, parseUser).Ok?)
  {
    match q
    case Malformed => Err(MalformedQuery)
    case Parsed(pairs) => VerifyValues(Collect(pairs), botToken, now, crypto, parseUser)
  }

  /** The checks after parsing, on the `url.Values` map: `hash` first, then the
      remaining fields without it. */
  ghost function VerifyValues(values: Values, botToken: Bytes, now: int64, crypto: Crypto, parseUser: Bytes -> UserJson)
    : (r: Result<int64, VerifyError>)
    requires FirstValuesPresent(values)
    ensures Get(values, HashKey) == [] ==> r == Err(HashMissing)
    ensures r.Ok? ==> Signed(values, botToken, crypto) && Fresh(values, now)
    ensures Signed(values, botToken, crypto) && Fresh(values, now) ==> r == ResolveId(values - {HashKey}, parseUser)
  {
    var hash := Get(values, HashKey);
    if hash == [] then Err(HashMissing)
    else
      assert Get(values - {HashKey}, AuthDateKey) == Get(values, AuthDateKey);
      VerifyFields(values - {HashKey}, hash, botToken, now, crypto, parseUser)
  }

  /** `auth_date`, then the signature over `rest`, then the identity. */
  ghost function VerifyFields(rest: Values, hash: Bytes, botToken: Bytes, now: int64, crypto: Crypto, parseUser: Bytes -> UserJson)
    : (r: Result<int64, VerifyError>)
    requires FirstValuesPresent(rest)
    ensures r.Ok? <==> Fresh(rest, now) && ExpectedHash(crypto, botToken, CheckString(rest)) == hash &&
                       ResolveId(rest, parseUser).Ok?
    ensures r.Ok? ==> r == ResolveId(rest, parseUser)
  {
    Decide(Get(rest, AuthDateKey), ExpectedHash(crypto, botToken, CheckString(rest)), hash, now,
           ResolveId(rest, parseUser))
  }

  /** The order of the checks on `auth_date` and the signature, given the field
      value, the recomputed and the received hash and the identity lookup. */
  function Decide(authDateStr: Bytes, expected: Bytes, hash: Bytes, now: int64, identity: Result<int64, VerifyError>)
    : (r: Result<int64, VerifyError>)
    ensures authDateStr == [] ==> r == Err(AuthDateMissing)
    ensures authDateStr != [] && ParseInt64(authDateStr).None? ==> r == Err(AuthDateInvalid)
    ensures ParseInt64(authDateStr).Some? && Expired(now, ParseInt64(authDateStr).value) ==> r == Err(AuthExpired)
    ensures ParseInt64(authDateStr).Some? && !Expired(now, ParseInt64(authDateStr).value) ==>
              r == if expected != hash then Err(SignatureMismatch) else identity
  {
    if authDateStr == [] then Err(AuthDateMissing)
    else
      match ParseInt64(authDateStr)
      case None => Err(AuthDateInvalid)
      case Some(authDate) =>
        if Expired(now, authDate) then Err(AuthExpired)
        else if expected != hash then Err(SignatureMismatch)
        else identity
  }

  /** `hash` is present and equals the signature recomputed over every other field;
      the `hash` entry itself is not among the signed lines. */
  ghost predicate Signed(values: Values, botToken: Bytes, crypto: Crypto)
    requires FirstValuesPresent(values)
  {
    var hash := Get(values, HashKey);
    hash != [] && ExpectedHash(crypto, botToken, CheckString(values - {HashKey})) == hash
  }

  /** `auth_date` is a decimal `int64` no more than 24 hours old. */
  predicate Fresh(values: Values, now: int64) {
    var authDate := ParseInt64(Get(values, AuthDateKey));
    authDate.Some? && !Expired(now, authDate.value)
  }

  /** An identity is returned only for parsed init data whose `hash` matches the
      recomputed signature and whose `auth_date` is fresh; the identity is the one
      `ResolveId` finds among the fields other than `hash`. */
  lemma VerifiedImpliesSignedAndFresh(q: Query, botToken: Bytes, now: int64, crypto: Crypto, parseUser: Bytes -> UserJson)
    requires Verify(q, botToken, now, crypto, parseUser).Ok?
    ensures q.Parsed?
    ensures Signed(Collect(q.pairs), botToken, crypto)
    ensures Fresh(Collect(q.pairs), now)
    ensures Verify(q, botToken, now, crypto, parseUser) == ResolveId(Collect(q.pairs) - {HashKey}, parseUser)
  {
    var values := Collect(q.pairs);
    assert Get(values - {HashKey}, AuthDateKey) == Get(values, AuthDateKey);
  }

  /** Every check that fails stops verification with its own error: a missing or
      empty `hash`, then a missing, empty or non-decimal `auth_date`, then an
      expired one, then a signature mismatch. */
  lemma RejectionsInOrder(values: Values, botToken: Bytes, now: int64, crypto: Crypto, parseUser: Bytes -> UserJson)
    requires FirstValuesPresent(values)
    ensures Get(values, HashKey) == [] ==> VerifyValues(values, botToken, now, crypto, parseUser) == Err(HashMissing)
    ensures Get(values, HashKey) != [] && Get(values, AuthDateKey) == [] ==>
              VerifyValues(values, botToken, now, crypto, parseUser) == Err(AuthDateMissing)
    ensures Get(values, HashKey) != [] && Get(values, AuthDateKey) != [] && ParseInt64(Get(values, AuthDateKey)).None? ==>
              VerifyValues(values, botToken, now, crypto, parseUser) == Err(AuthDateInvalid)
    ensures Get(values, HashKey) != [] && !Fresh(values, now) ==>
              VerifyValues(values, botToken, now, crypto, parseUser).Err?
    ensures Get(values, HashKey) != [] && ParseInt64(Get(values, AuthDateKey)).Some? &&
            Expired(now, ParseInt64(Get(values, AuthDateKey)).value) ==>
              VerifyValues(values, botToken, now, crypto, parseUser) == Err(AuthExpired)
    ensures Get(values, HashKey) != [] && Fresh(values, now) && !Signed(values, botToken, crypto) ==>
              VerifyValues(values, botToken, now, crypto, parseUser) == Err(SignatureMismatch)
  {
    assert Get(values - {HashKey}, AuthDateKey) == Get(values, AuthDateKey);
  }

  /** The converse of `VerifiedImpliesSignedAndFresh`: parsed init data that is
      signed and fresh is accepted with the identity `ResolveId` finds, and a
      malformed top-level `id` is reported as `IdInvalid`. */
  lemma SignedAndFreshIsVerified(pairs: seq<Pair>, botToken: Bytes, now: int64, crypto: Crypto, parseUser: Bytes -> UserJson)
    requires Signed(Collect(pairs), botToken, crypto) && Fresh(Collect(pairs), now)
    ensures Verify(Parsed(pairs), botToken, now, crypto, parseUser) == ResolveId(Collect(pairs) - {HashKey}, parseUser)
    ensures var id := Get(Collect(pairs), IdKey);
            id != [] && ParseInt64(id).None? ==> Verify(Parsed(pairs), botToken, now, crypto, parseUser) == Err(IdInvalid)
  {
    var values := Collect(pairs);
    assert Get(values - {HashKey}, IdKey) == Get(values, IdKey);
  }

  /** The age limit is inclusive and open towards the future: signed init data whose
      `auth_date` is exactly 86400 s old, or later than `now`, is accepted. */
  lemma AcceptedAtAgeLimit(pairs: seq<Pair>, authDate: int64, botToken: Bytes, now: int64, crypto: Crypto, parseUser: Bytes -> UserJson)
    requires Signed(Collect(pairs), botToken, crypto)
    requires ParseInt64(Get(Collect(pairs), AuthDateKey)) == Some(authDate)
    requires authDate == now - MaxAge || authDate > now
    ensures Verify(Parsed(pairs), botToken, now, crypto, parseUser) == ResolveId(Collect(pairs) - {HashKey}, parseUser)
  {
    ExpiredIsMonotone(now, authDate, authDate);
    SignedAndFreshIsVerified(pairs, botToken, now, crypto, parseUser);
  }

  /** Two maps with the same keys and first values. */
  predicate SameFirstValues(v: Values, w: Values) {
    FirstValuesPresent(v) && FirstValuesPresent(w) && v.Keys == w.Keys &&
    forall k | k in v :: v[k][0] == w[k][0]
  }

  lemma SameFirstValuesGet(v: Values, w: Values, k: Bytes)
    requires SameFirstValues(v, w)
    ensures Get(v, k) == Get(w, k)
  {
  }

  /** Deleting the same key from both keeps them alike. */
  lemma SameFirstValuesRemove(v: Values, w: Values, key: Bytes)
    requires SameFirstValues(v, w)
    ensures SameFirstValues(v - {key}, w - {key})
  {
  }

  lemma ResolveIdReadsGet(v: Values, w: Values, parseUser: Bytes -> UserJson)
    requires Get(v, IdKey) == Get(w, IdKey) && Get(v, UserKey) == Get(w, UserKey)
    ensures ResolveId(v, parseUser) == ResolveId(w, parseUser)
  {
  }

  lemma VerifyFieldsReadsFirstValues(v: Values, w: Values, hash: Bytes, botToken: Bytes, now: int64, crypto: Crypto, parseUser: Bytes -> UserJson)
    requires SameFirstValues(v, w)
    ensures VerifyFields(v, hash, botToken, now, crypto, parseUser) == VerifyFields(w, hash, botToken, now, crypto, parseUser)
  {
    SameFirstValuesGet(v, w, AuthDateKey);
    SameFirstValuesGet(v, w, IdKey);
    SameFirstValuesGet(v, w, UserKey);
    ResolveIdReadsGet(v, w, parseUser);
    CheckStringReadsFirstValues(v, w);
  }

  /** Verification reads only the keys present and their first values. */
  lemma VerifyReadsFirstValues(v: Values, w: Values, botToken: Bytes, now: int64, crypto: Crypto, parseUser: Bytes -> UserJson)
    requires SameFirstValues(v, w)
    ensures VerifyValues(v, botToken, now, crypto, parseUser) == VerifyValues(w, botToken, now, crypto, parseUser)
  {
    SameFirstValuesGet(v, w, HashKey);
    SameFirstValuesRemove(v, w, HashKey);
    VerifyFieldsReadsFirstValues(v - {HashKey}, w - {HashKey}, Get(v, HashKey), botToken, now, crypto, parseUser);
  }

  /** A later duplicate of a key already present changes nothing: a forged duplicate
      cannot replace the signed value, the hash, the date or the id. */
  lemma DuplicateKeyIgnored(pairs: seq<Pair>, extra: Pair, botToken: Bytes, now: int64, crypto: Crypto, parseUser: Bytes -> UserJson)
    requires HasKey(pairs, extra.key)
    ensures Verify(Parsed(pairs + [extra]), botToken, now, crypto, parseUser) == Verify(Parsed(pairs), botToken, now, crypto, parseUser)
  {
    var longer := pairs + [extra];
    var v, w := Collect(pairs), Collect(longer);
    assert longer[..|longer| - 1] == pairs;
    HasKeyPrefix(longer);
    assert v.Keys == w.Keys;
    forall k | k in v ensures v[k][0] == w[k][0] {
      assert ValuesOf(longer, k) == ValuesOf(pairs, k) + (if extra.key == k then [extra.value] else []);
    }
    VerifyReadsFirstValues(v, w, botToken, now, crypto, parseUser);
  }

  /** The first pair that carries `k`. */
  lemma {:induction false} FirstIndexOf(pairs: seq<Pair>, k: Bytes) returns (i: nat)
    requires HasKey(pairs, k)
    ensures i < |pairs| && pairs[i].key == k
    ensures forall j | 0 <= j < i :: pairs[j].key != k
  {
    if pairs[0].key == k {
      i := 0;
    } else {
      assert HasKey(pairs[1..], k) by {
        var j :| 0 <= j < |pairs| && pairs[j].key == k;
        assert pairs[1..][j - 1] == pairs[j];
      }
      var i' := FirstIndexOf(pairs[1..], k);
      i := i' + 1;
      assert forall j | 1 <= j < i :: pairs[j] == pairs[1..][j - 1];
    }
  }

  /** When no key is repeated, `Get` reads the value of the one pair with that key,
      and any reordering of the pairs agrees with it. */
  lemma ReorderedGet(p: seq<Pair>, q: seq<Pair>, k: Bytes)
    requires forall i, j | 0 <= i < j < |p| :: p[i].key != p[j].key
    requires multiset(p) == multiset(q)
    requires HasKey(q, k)
    ensures HasKey(p, k) && Get(Collect(p), k) == Get(Collect(q), k)
  {
    var i := FirstIndexOf(q, k);
    FirstValueWins(q, i);
    assert q[i] in multiset(p);
    var j :| 0 <= j < |p| && p[j] == q[i];
    FirstValueWins(p, j);
  }

  /** The order of the input pairs does not matter when no key is repeated: a
      reordering has the same keys and first values, and is verified alike. */
  lemma InputOrderIgnored(p: seq<Pair>, q: seq<Pair>, botToken: Bytes, now: int64, crypto: Crypto, parseUser: Bytes -> UserJson)
    requires forall i, j | 0 <= i < j < |p| :: p[i].key != p[j].key
    requires multiset(p) == multiset(q)
    ensures Collect(p).Keys == Collect(q).Keys
    ensures forall k :: Get(Collect(p), k) == Get(Collect(q), k)
    ensures Verify(Parsed(p), botToken, now, crypto, parseUser) == Verify(Parsed(q), botToken, now, crypto, parseUser)
  {
    var v, w := Collect(p), Collect(q);
    forall k ensures (k in v <==> k in w) && Get(v, k) == Get(w, k) {
      if HasKey(q, k) {
        ReorderedGet(p, q, k);
      } else {
        forall j | 0 <= j < |p| ensures p[j].key != k {
          assert p[j] in multiset(q);
        }
      }
    }
    assert SameFirstValues(v, w);
    VerifyReadsFirstValues(v, w, botToken, now, crypto, parseUser);
  }

  /** The `for k, v := range values` loop: one `k=v[0]` line per key, visiting the
      keys in whatever order the map yields them. */
  method DataCheckPairs(values: Values) returns (pairs: seq<Bytes>)
    requires FirstValuesPresent(values)
    ensures multiset(pairs) == multiset(LinesOf(values, Enumerate(values.Keys)))
    ensures Join(Sort(pairs), Newline) == CheckString(values)
  {
    pairs := [];
    var remaining := values.Keys;
    ghost var visited: seq<Bytes> := [];
    while remaining != {}
      invariant remaining <= values.Keys
      invariant forall k :: k in visited <==> k in values.Keys && k !in remaining
      invariant forall i, j | 0 <= i < j < |visited| :: visited[i] != visited[j]
      invariant pairs == LinesOf(values, visited)
      decreases |remaining|
    {
      var k :| k in remaining;
      pairs := pairs + [Line(k, values[k][0])];
      visited := visited + [k];
      remaining := remaining - {k};
    }
    EnumerationsGiveSameLines(values, visited, Enumerate(values.Keys), values.Keys);
    CheckStringIsOrderIndependent(values, visited);
  }

  /** Whatever order the map is iterated in, the validator returns `Verify`'s answer:
      an id only if `hash` is present, `auth_date` is a fresh decimal and the
      recomputed signature equals `hash`; otherwise the first failing check's error. */
  method ValidateTelegramInitData(q: Query, botToken: Bytes, now: int64, crypto: Crypto, parseUser: Bytes -> UserJson)
    returns (r: Result<int64, VerifyError>)
    ensures r == Verify(q, botToken, now, crypto, parseUser)
  {
    if q.Malformed? {
      return Err(MalformedQuery);
    }
    var values := Collect(q.pairs);
    var hash := Get(values, HashKey);
    if hash == [] {
      return Err(HashMissing);
    }
    values := values - {HashKey};

    var authDateStr := Get(values, AuthDateKey);
    if authDateStr == [] {
      return Err(AuthDateMissing);
    }
    var authDate := ParseInt64(authDateStr);
    if authDate.None? {
      return Err(AuthDateInvalid);
    }
    if Expired(now, authDate.value) {
      return Err(AuthExpired);
    }

    var pairs := DataCheckPairs(values);
    var dataCheckString := Join(Sort(pairs), Newline);

    if ExpectedHash(crypto, botToken, dataCheckString) != hash {
      return Err(SignatureMismatch);
    }
    r := ResolveId(values, parseUser);
  }
}
