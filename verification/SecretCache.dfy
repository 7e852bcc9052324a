/** The two caches in front of the encrypted secrets: `get_secret_value` keeps a decrypted value for 300
    seconds, and the Solana client keeps what that returned for another 300.  Rows are written and
    removed, readers read and later fill their cache, and entries vanish, in any interleaving. */
module SecretCache {
  import opened TimedStore

  const CACHE_TTL := 300.0
  const AUTHORITY := "marketplace_program_authority"

  type Cipher = seq<bv8>

  /** Fernet under the master key in use; decryption may fail. */
  type Decrypt = Cipher -> Option<string>

  datatype Secret = Secret(encrypted: Cipher, active: bool, expiresAt: Option<real>)

  datatype Database = Database(secrets: map<string, Secret>, superuser: bool)

  predicate Expired(x: Secret, now: real) { x.expiresAt.Some? && x.expiresAt.value < now }

  /** What reading a secret from the database at `now` gives; None when it raises. */
  function Value(db: Database, name: string, now: real, dec: Decrypt): Option<string> {
    if name in db.secrets && db.superuser && db.secrets[name].active && !Expired(db.secrets[name], now)
    then dec(db.secrets[name].encrypted) else None
  }

  /** An empty string counts as a miss (and an empty environment variable as unset). */
  predicate Truthy(v: Option<string>) { v.Some? && v.value != "" }

  /** What was read from database number `version` at `readAt` and handed on at `obtainedAt`; or the
      environment's key, taken because that read raised. */
  datatype Reading = Reading(value: string, version: nat, readAt: real, obtainedAt: real, fallback: bool)

  datatype Cached = Cached(reading: Reading, expires: real)

  datatype Filler = FillSecret(name: string, reading: Reading) | FillKey(reading: Reading)

  /** `history` holds every state the database was in and `changed` the instant each began. */
  datatype State = State(
    now: real,
    history: seq<Database>, changed: seq<real>,
    secretCache: map<string, Cached>, keyCache: Option<Cached>,
    fillers: seq<Filler>)

  datatype Event =
    | Tick(elapsed: real)
    | Write(name: string, secret: Secret)
    | Remove(name: string)
    | SetSuperuser(exist: bool)
    | ReadSecret(name: string)
    | ReadKey
    | Fill(filler: nat)
    | EvictSecret(name: string)
    | EvictKey

  /** What does not change during a run: decryption, the environment's key, and how long at most a reader
      takes from obtaining a value to caching it. */
  datatype World = World(dec: Decrypt, environment: Option<string>, delay: real)

  function Current(s: State): Database
    requires s.history != []
  {
    s.history[|s.history| - 1]
  }

  function Live(c: Cached, now: real): Option<string> { if now < c.expires then Some(c.reading.value) else None }

  function CachedSecret(s: State, name: string): Option<string> {
    if name in s.secretCache then Live(s.secretCache[name], s.now) else None
  }

  function CachedKey(s: State): Option<string> {
    if s.keyCache.Some? then Live(s.keyCache.value, s.now) else None
  }

  predicate SecretHit(s: State, name: string) { Truthy(CachedSecret(s, name)) }

  predicate KeyHit(s: State) { Truthy(CachedKey(s)) }

  /** What `get_secret_value` answers, given what its cache and the database hold; None when it raises. */
  function SecretAnswer(cached: Option<string>, stored: Option<string>): Option<string> {
    if Truthy(cached) then cached else stored
  }

  /** What `_get_program_authority_key` answers, given its cache entry, the answer of `get_secret_value`
      and the environment variable. */
  function KeyAnswer(cached: Option<string>, secret: Option<string>, environment: Option<string>): Option<string> {
    if Truthy(cached) then cached
    else if secret.Some? then secret
    else if Truthy(environment) then environment
    else None
  }

  function GetSecret(s: State, name: string, w: World): Option<string>
    requires s.history != []
  {
    SecretAnswer(CachedSecret(s, name), Value(Current(s), name, s.now, w.dec))
  }

  function GetKey(s: State, w: World): Option<string>
    requires s.history != []
  {
    KeyAnswer(CachedKey(s), GetSecret(s, AUTHORITY, w), w.environment)
  }

  function FreshReading(s: State, value: string, fallback: bool): Reading
    requires s.history != []
  {
    Reading(value, |s.history| - 1, s.now, s.now, fallback)
  }

  /** The fillers that a call to `_get_program_authority_key` starts. */
  function KeyFillers(s: State, w: World): seq<Filler>
    requires s.history != []
  {
    if KeyHit(s) then []
    else if SecretHit(s, AUTHORITY) then [FillKey(s.secretCache[AUTHORITY].reading.(obtainedAt := s.now))]
    else match Value(Current(s), AUTHORITY, s.now, w.dec)
      case Some(v) => [FillSecret(AUTHORITY, FreshReading(s, v, false)), FillKey(FreshReading(s, v, false))]
      case None => if Truthy(w.environment) then [FillKey(FreshReading(s, w.environment.value, true))] else []
  }

  function SecretFillers(s: State, name: string, w: World): seq<Filler>
    requires s.history != []
  {
    if SecretHit(s, name) || Value(Current(s), name, s.now, w.dec) == None then []
    else [FillSecret(name, FreshReading(s, Value(Current(s), name, s.now, w.dec).value, false))]
  }

  function Change(s: State, db: Database): State { s.(history := s.history + [db], changed := s.changed + [s.now]) }

  function DoFill(s: State, f: Filler): State {
    match f
    case FillSecret(name, r) => s.(secretCache := s.secretCache[name := Cached(r, s.now + CACHE_TTL)])
    case FillKey(r) => s.(keyCache := Some(Cached(r, s.now + CACHE_TTL)))
  }

  function Apply(s: State, e: Event, w: World): (s': State)
    requires s.history != []
    ensures s'.history != []
  {
    var db := Current(s);
    match e
    case Tick(d) => if d < 0.0 then s else s.(now := s.now + d)
    case Write(name, x) => Change(s, db.(secrets := db.secrets[name := x]))
    case Remove(name) => Change(s, db.(secrets := db.secrets - {name}))
    case SetSuperuser(b) => Change(s, db.(superuser := b))
    case ReadSecret(name) => s.(fillers := s.fillers + SecretFillers(s, name, w))
    case ReadKey => s.(fillers := s.fillers + KeyFillers(s, w))
    case Fill(j) =>
      if j < |s.fillers| && s.now <= s.fillers[j].reading.obtainedAt + w.delay then
        DoFill(s, s.fillers[j]).(fillers := s.fillers[..j] + s.fillers[j + 1..])
      else s
    case EvictSecret(name) => s.(secretCache := s.secretCache - {name})
    case EvictKey => s.(keyCache := None)
  }

  function Run(now: real, db: Database, es: seq<Event>, w: World): (s: State)
    ensures s.history != []
  {
    if es == [] then State(now, [db], [now], map[], None, [])
    else Apply(Run(now, db, es[..|es| - 1], w), es[|es| - 1], w)
  }

  // ---------------------------------------------------------------- the invariant

  /** At instant `at` the database was number `n` of its history. */
  ghost predicate StoodAt(s: State, n: nat, at: real)
    requires |s.changed| == |s.history|
  {
    && n < |s.history|
    && (forall i: nat :: i <= n ==> s.changed[i] <= at)
    && (forall i: nat :: n < i < |s.history| ==> at <= s.changed[i])
  }

  ghost predicate ReadingOk(s: State, name: string, r: Reading, w: World)
    requires |s.changed| == |s.history|
  {
    && r.readAt <= r.obtainedAt <= s.now && StoodAt(s, r.version, r.readAt)
    && Value(s.history[r.version], name, r.readAt, w.dec) == (if r.fallback then None else Some(r.value))
    && (r.fallback ==> w.environment == Some(r.value) && r.obtainedAt == r.readAt)
    && r.obtainedAt <= r.readAt + w.delay + CACHE_TTL
  }

  ghost predicate FillerOk(s: State, f: Filler, w: World)
    requires |s.changed| == |s.history|
  {
    match f
    case FillSecret(name, r) => ReadingOk(s, name, r, w) && !r.fallback && r.obtainedAt == r.readAt
    case FillKey(r) => ReadingOk(s, AUTHORITY, r, w)
  }

  ghost predicate Inv(s: State, w: World) {
    && |s.changed| == |s.history| > 0
    && (forall i: nat :: i < |s.changed| ==> s.changed[i] <= s.now)
    && (forall j: nat :: j < |s.fillers| ==> FillerOk(s, s.fillers[j], w))
    && (forall name :: name in s.secretCache ==>
          && FillerOk(s, FillSecret(name, s.secretCache[name].reading), w)
          && s.secretCache[name].expires <= s.secretCache[name].reading.readAt + w.delay + CACHE_TTL)
    && (s.keyCache.Some? ==>
          && FillerOk(s, FillKey(s.keyCache.value.reading), w)
          && s.keyCache.value.expires <= s.keyCache.value.reading.obtainedAt + w.delay + CACHE_TTL)
  }

  lemma FillerKept(s: State, s': State, f: Filler, w: World)
    requires |s.changed| == |s.history| && |s'.changed| == |s'.history| && FillerOk(s, f, w)
    requires s.now <= s'.now && s.history <= s'.history && s.changed <= s'.changed
    requires forall i: nat :: |s.history| <= i < |s'.history| ==> s.now <= s'.changed[i]
    ensures FillerOk(s', f, w)
  {
    assert forall i: nat :: i < |s.history| ==> s'.history[i] == s.history[i] && s'.changed[i] == s.changed[i];
  }

  /** A step that leaves the caches and fillers alone keeps the invariant. */
  lemma QuietInv(s: State, s': State, w: World)
    requires Inv(s, w) && |s'.changed| == |s'.history|
    requires s.now <= s'.now && s.history <= s'.history && s.changed <= s'.changed
    requires forall i: nat :: |s.history| <= i < |s'.history| ==> s.now <= s'.changed[i] <= s'.now
    requires s'.fillers == s.fillers && s'.secretCache == s.secretCache && s'.keyCache == s.keyCache
    ensures Inv(s', w)
  {
    forall f | FillerOk(s, f, w) ensures FillerOk(s', f, w) {
      FillerKept(s, s', f, w);
    }
    assert forall i: nat :: i < |s.history| ==> s'.changed[i] == s.changed[i];
  }

  lemma ReadInv(s: State, e: Event, w: World)
    requires Inv(s, w) && 0.0 <= w.delay && (e.ReadSecret? || e.ReadKey?)
    ensures Inv(Apply(s, e, w), w)
  {
    var started := if e.ReadKey? then KeyFillers(s, w) else SecretFillers(s, e.name, w);
    assert StoodAt(s, |s.history| - 1, s.now);
    forall j: nat | j < |started| ensures FillerOk(s, started[j], w) {}
    FillersInv(s, Apply(s, e, w), w);
  }

  /** A step that only drops cache entries and starts sound fillers keeps the invariant. */
  lemma FillersInv(s: State, s': State, w: World)
    requires Inv(s, w)
    requires s' == s.(fillers := s'.fillers, secretCache := s'.secretCache, keyCache := s'.keyCache)
    requires s'.keyCache == s.keyCache || s'.keyCache == None
    requires forall name :: name in s'.secretCache ==> name in s.secretCache && s'.secretCache[name] == s.secretCache[name]
    requires forall j: nat :: j < |s'.fillers| ==> s'.fillers[j] in s.fillers || FillerOk(s, s'.fillers[j], w)
    ensures Inv(s', w)
  {
    forall f | FillerOk(s, f, w) ensures FillerOk(s', f, w) {
      FillerKept(s, s', f, w);
    }
  }

  lemma FillInv(s: State, j: nat, w: World)
    requires Inv(s, w) && j < |s.fillers| && s.now <= s.fillers[j].reading.obtainedAt + w.delay
    ensures Inv(DoFill(s, s.fillers[j]), w)
  {
    var s' := DoFill(s, s.fillers[j]);
    assert FillerOk(s, s.fillers[j], w);
    forall f | FillerOk(s, f, w) ensures FillerOk(s', f, w) {
      FillerKept(s, s', f, w);
    }
  }

  lemma FillStepInv(s: State, j: nat, w: World)
    requires Inv(s, w)
    ensures Inv(Apply(s, Fill(j), w), w)
  {
    if j < |s.fillers| && s.now <= s.fillers[j].reading.obtainedAt + w.delay {
      FillInv(s, j, w);
      FillersInv(DoFill(s, s.fillers[j]), Apply(s, Fill(j), w), w);
    }
  }

  lemma StepInv(s: State, e: Event, w: World)
    requires Inv(s, w) && 0.0 <= w.delay
    ensures Inv(Apply(s, e, w), w)
  {
    match e
    case Tick(_) => QuietInv(s, Apply(s, e, w), w);
    case Write(_, _) => QuietInv(s, Apply(s, e, w), w);
    case Remove(_) => QuietInv(s, Apply(s, e, w), w);
    case SetSuperuser(_) => QuietInv(s, Apply(s, e, w), w);
    case ReadSecret(_) => ReadInv(s, e, w);
    case ReadKey => ReadInv(s, e, w);
    case Fill(j) => FillStepInv(s, j, w);
    case _ => FillersInv(s, Apply(s, e, w), w);
  }

  lemma {:induction false} RunInv(now: real, db: Database, es: seq<Event>, w: World)
    requires 0.0 <= w.delay
    ensures Inv(Run(now, db, es, w), w)
  {
    if es != [] {
      RunInv(now, db, es[..|es| - 1], w);
      StepInv(Run(now, db, es[..|es| - 1], w), es[|es| - 1], w);
    }
  }

  // ---------------------------------------------------------------- how old an answer may be

  lemma SecretRecent(s: State, w: World, name: string) returns (n: nat, at: real)
    requires Inv(s, w) && 0.0 <= w.delay && GetSecret(s, name, w).Some?
    ensures StoodAt(s, n, at) && s.now - 300.0 - w.delay < at <= s.now
    ensures Value(s.history[n], name, at, w.dec) == GetSecret(s, name, w)
  {
    if SecretHit(s, name) {
      n, at := s.secretCache[name].reading.version, s.secretCache[name].reading.readAt;
    } else {
      n, at := |s.history| - 1, s.now;
    }
  }

  ghost predicate Stored(s: State, w: World, n: nat, at: real)
    requires |s.changed| == |s.history| && s.history != [] && n < |s.history|
  {
    s.now - 600.0 - 2.0 * w.delay < at && Value(s.history[n], AUTHORITY, at, w.dec) == GetKey(s, w)
  }

  ghost predicate FellBack(s: State, w: World, n: nat, at: real)
    requires |s.changed| == |s.history| && s.history != [] && n < |s.history|
  {
    s.now - 300.0 - w.delay < at && Value(s.history[n], AUTHORITY, at, w.dec) == None && GetKey(s, w) == w.environment
  }

  lemma KeyRecent(s: State, w: World) returns (n: nat, at: real)
    requires Inv(s, w) && 0.0 <= w.delay && GetKey(s, w).Some?
    ensures StoodAt(s, n, at) && at <= s.now
    ensures Stored(s, w, n, at) || FellBack(s, w, n, at)
  {
    if KeyHit(s) {
      n, at := s.keyCache.value.reading.version, s.keyCache.value.reading.readAt;
    } else if GetSecret(s, AUTHORITY, w).Some? {
      n, at := SecretRecent(s, w, AUTHORITY);
    } else {
      n, at := |s.history| - 1, s.now;
    }
  }

  /** A secret can be read exactly while it is stored and active, has not run out, some superuser exists and its
      ciphertext can be decrypted; on the second of its expiry it still can. */
  lemma ReadableIff(db: Database, name: string, now: real, dec: Decrypt, v: string)
    ensures Value(db, name, now, dec) == Some(v) <==>
      && name in db.secrets && dec(db.secrets[name].encrypted) == Some(v)
      && db.superuser && db.secrets[name].active
      && (db.secrets[name].expiresAt == None || now <= db.secrets[name].expiresAt.value)
  {}

  /** The client's key is its own cached entry, else the secret of the marketplace's authority as cached or stored,
      else the environment's key; an empty entry or variable counts as none. */
  lemma KeyComesFrom(s: State, w: World)
    requires s.history != []
    ensures
      var own, name := CachedKey(s), "marketplace_program_authority";
      && (own.Some? && own.value != "" ==> GetKey(s, w) == own)
      && (own in {None, Some("")} ==>
            && (CachedSecret(s, name).Some? && CachedSecret(s, name).value != "" ==> GetKey(s, w) == CachedSecret(s, name))
            && (CachedSecret(s, name) in {None, Some("")} ==>
                  var stored := Value(s.history[|s.history| - 1], name, s.now, w.dec);
                  && (stored.Some? ==> GetKey(s, w) == stored)
                  && (stored == None ==> GetKey(s, w) == if w.environment == Some("") then None else w.environment)))
  {}

  /** Whatever `get_secret_value` returns was the active, unexpired value of the secret at some instant
      less than 300 seconds (and one filling delay) ago. */
  lemma SecretIsRecent(now: real, db: Database, es: seq<Event>, w: World, name: string) returns (n: nat, at: real)
    requires 0.0 <= w.delay && GetSecret(Run(now, db, es, w), name, w).Some?
    ensures
      var s := Run(now, db, es, w);
      && |s.changed| == |s.history| && StoodAt(s, n, at) && s.now - 300.0 - w.delay < at <= s.now
      && Value(s.history[n], name, at, w.dec) == GetSecret(s, name, w)
  {
    RunInv(now, db, es, w);
    n, at := SecretRecent(Run(now, db, es, w), w, name);
  }

  /** Whatever `_get_program_authority_key` returns was the stored key at some instant less than 600
      seconds (and two delays) ago, unless it is the environment's key, and then the stored key could
      not be read at some instant less than 300 seconds (and one delay) ago. */
  lemma KeyIsRecent(now: real, db: Database, es: seq<Event>, w: World) returns (n: nat, at: real)
    requires 0.0 <= w.delay && GetKey(Run(now, db, es, w), w).Some?
    ensures
      var s := Run(now, db, es, w);
      && |s.changed| == |s.history| && StoodAt(s, n, at) && at <= s.now
      && (Stored(s, w, n, at) || FellBack(s, w, n, at))
  {
    RunInv(now, db, es, w);
    n, at := KeyRecent(Run(now, db, es, w), w);
  }

  /** Version `v` stood before `at`, so only it or a later one can have stood then. */
  lemma LaterVersion(s: State, v: nat, n: nat, at: real)
    requires |s.changed| == |s.history| && v < |s.history| && s.changed[v] < at && StoodAt(s, n, at)
    ensures v <= n
  {}

  /** A row that expires can only become unreadable by that. */
  lemma ReadableEarlier(db: Database, name: string, earlier: real, later: real, dec: Decrypt)
    requires earlier <= later && Value(db, name, later, dec).Some?
    ensures Value(db, name, earlier, dec) == Value(db, name, later, dec)
  {}

  /** From version `v` on, whatever else changed, the secret has been `plaintext` and still can be read. */
  ghost predicate RotatedTo(s: State, v: nat, name: string, plaintext: string, dec: Decrypt) {
    v < |s.history| && forall n: nat :: v <= n < |s.history| ==> Value(s.history[n], name, s.now, dec) == Some(plaintext)
  }

  /** From version `v` on the secret has been one that could not be read after `since`: removed, deactivated,
      expired, undecryptable, or without a superuser to decrypt it. */
  ghost predicate RevokedSince(s: State, v: nat, since: real, name: string, dec: Decrypt) {
    v < |s.history| && forall n: nat :: v <= n < |s.history| ==> Value(s.history[n], name, since, dec) == None
  }

  lemma Rotated(s: State, w: World, v: nat, name: string, plaintext: string)
    requires Inv(s, w) && 0.0 <= w.delay && RotatedTo(s, v, name, plaintext, w.dec)
    requires s.changed[v] <= s.now - 300.0 - w.delay
    ensures GetSecret(s, name, w) == Some(plaintext)
  {
    assert Value(s.history[|s.history| - 1], name, s.now, w.dec) == Some(plaintext);
    var n, at := SecretRecent(s, w, name);
    LaterVersion(s, v, n, at);
    ReadableEarlier(s.history[n], name, at, s.now, w.dec);
  }

  lemma KeyRotated(s: State, w: World, v: nat, key: string)
    requires Inv(s, w) && 0.0 <= w.delay && RotatedTo(s, v, AUTHORITY, key, w.dec)
    requires s.changed[v] <= s.now - 600.0 - 2.0 * w.delay
    ensures GetKey(s, w) == Some(key)
  {
    Rotated(s, w, v, AUTHORITY, key);
    var n, at := KeyRecent(s, w);
    LaterVersion(s, v, n, at);
    ReadableEarlier(s.history[n], AUTHORITY, at, s.now, w.dec);
  }

  lemma Refused(s: State, w: World, v: nat, name: string)
    requires Inv(s, w) && 0.0 <= w.delay && RevokedSince(s, v, s.now - 300.0 - w.delay, name, w.dec)
    requires s.changed[v] <= s.now - 300.0 - w.delay
    ensures GetSecret(s, name, w) == None
  {
    if GetSecret(s, name, w).Some? {
      var n, at := SecretRecent(s, w, name);
      LaterVersion(s, v, n, at);
      ReadableEarlier(s.history[n], name, s.now - 300.0 - w.delay, at, w.dec);
    }
  }

  /** Once a rotation is old enough, `get_secret_value` returns the new value, whatever was cached when and
      whatever happened to other secrets since. */
  lemma RotationTakesEffect(now: real, db: Database, es: seq<Event>, w: World, v: nat, name: string, plaintext: string)
    requires 0.0 <= w.delay
    requires
      var s := Run(now, db, es, w);
      && RotatedTo(s, v, name, plaintext, w.dec)
      && v < |s.changed| && s.changed[v] <= s.now - 300.0 - w.delay
    ensures GetSecret(Run(now, db, es, w), name, w) == Some(plaintext)
  {
    RunInv(now, db, es, w);
    Rotated(Run(now, db, es, w), w, v, name, plaintext);
  }

  /** The same for the client's key, after twice the time; the environment's key is then out of use too. */
  lemma KeyRotationTakesEffect(now: real, db: Database, es: seq<Event>, w: World, v: nat, key: string)
    requires 0.0 <= w.delay
    requires
      var s := Run(now, db, es, w);
      && RotatedTo(s, v, AUTHORITY, key, w.dec)
      && v < |s.changed| && s.changed[v] <= s.now - 600.0 - 2.0 * w.delay
    ensures GetKey(Run(now, db, es, w), w) == Some(key)
  {
    RunInv(now, db, es, w);
    KeyRotated(Run(now, db, es, w), w, v, key);
  }

  /** A secret that has been unreadable for long enough is refused, whatever was cached when and whatever
      happened to other secrets since. */
  lemma RevocationTakesEffect(now: real, db: Database, es: seq<Event>, w: World, v: nat, name: string)
    requires 0.0 <= w.delay
    requires
      var s := Run(now, db, es, w);
      && RevokedSince(s, v, s.now - 300.0 - w.delay, name, w.dec)
      && v < |s.changed| && s.changed[v] <= s.now - 300.0 - w.delay
    ensures GetSecret(Run(now, db, es, w), name, w) == None
  {
    RunInv(now, db, es, w);
    Refused(Run(now, db, es, w), w, v, name);
  }

  lemma Extended(now: real, db: Database, es: seq<Event>, e: Event, w: World) returns (longer: seq<Event>)
    ensures Run(now, db, longer, w) == Apply(Run(now, db, es, w), e, w)
  {
    longer := es + [e];
    assert longer[..|es|] == es;
  }

  /** A secret is read and cached, and then replaced at once. */
  lemma SecretServed(db: Database, key: string, next: Secret, w: World) returns (es: seq<Event>)
    requires 0.0 <= w.delay && Value(db, AUTHORITY, 0.0, w.dec) == Some(key)
    ensures Run(0.0, db, es, w) ==
      State(0.0, [db, db.(secrets := db.secrets[AUTHORITY := next])], [0.0, 0.0],
            map[AUTHORITY := Cached(Reading(key, 0, 0.0, 0.0, false), 300.0)], None, [])
  {
    var r := Reading(key, 0, 0.0, 0.0, false);
    var s0 := State(0.0, [db], [0.0], map[], None, []);
    var s1 := s0.(fillers := [FillSecret(AUTHORITY, r)]);
    var s2 := s0.(secretCache := map[AUTHORITY := Cached(r, 300.0)]);
    es := Extended(0.0, db, [], ReadSecret(AUTHORITY), w);
    assert Apply(s0, ReadSecret(AUTHORITY), w) == s1;
    es := Extended(0.0, db, es, Fill(0), w);
    assert Apply(s1, Fill(0), w) == s2;
    es := Extended(0.0, db, es, Write(AUTHORITY, next), w);
  }

  lemma KeyTakenOver(s: State, r: Reading, w: World)
    requires s.history != [] && s.keyCache == None && s.fillers == [] && r.value != ""
    requires AUTHORITY in s.secretCache && s.secretCache[AUTHORITY].reading == r && s.now < s.secretCache[AUTHORITY].expires
    ensures Apply(s, ReadKey, w) == s.(fillers := [FillKey(r.(obtainedAt := s.now))])
  {
    assert SecretHit(s, AUTHORITY) && !KeyHit(s);
  }

  lemma KeyFilled(s: State, r: Reading, w: World)
    requires s.history != [] && s.fillers == [FillKey(r)] && r.obtainedAt == s.now && 0.0 <= w.delay
    ensures Apply(s, Fill(0), w) == s.(fillers := [], keyCache := Some(Cached(r, s.now + CACHE_TTL)))
  {}

  /** Just before its entry expires, that secret is handed on to the client, which caches it again. */
  lemma KeyServed(db: Database, es: seq<Event>, r: Reading, w: World, gap: real) returns (fs: seq<Event>)
    requires 0.0 < gap <= 300.0 && 0.0 <= w.delay && r.value != ""
    requires
      var s := Run(0.0, db, es, w);
      && s.now == 0.0 && s.keyCache == None && s.fillers == []
      && AUTHORITY in s.secretCache && s.secretCache[AUTHORITY] == Cached(r, 300.0)
    ensures Run(0.0, db, fs, w) == Run(0.0, db, es, w).(
      now := 300.0 - gap, keyCache := Some(Cached(r.(obtainedAt := 300.0 - gap), 600.0 - gap)))
  {
    var s, t := Run(0.0, db, es, w), 300.0 - gap;
    var r' := r.(obtainedAt := t);
    var s1 := s.(now := t);
    var s2 := s1.(fillers := [FillKey(r')]);
    fs := Extended(0.0, db, es, Tick(t), w);
    assert Apply(s, Tick(t), w) == s1;
    KeyTakenOver(s1, r, w);
    fs := Extended(0.0, db, fs, ReadKey, w);
    KeyFilled(s2, r', w);
    fs := Extended(0.0, db, fs, Fill(0), w);
  }

  /** The bound of 600 seconds is sharp: a key replaced right after it was read is still returned at any
      time less than that later. */
  lemma OldKeyServedForTenMinutes(db: Database, key: string, next: Secret, w: World, gap: real) returns (es: seq<Event>)
    requires 0.0 < gap <= 300.0 && 0.0 <= w.delay && key != ""
    requires Value(db, AUTHORITY, 0.0, w.dec) == Some(key)
    ensures
      var s := Run(0.0, db, es, w);
      && s.now == 600.0 - 2.0 * gap && s.changed == [0.0, 0.0]
      && Current(s).secrets == db.secrets[AUTHORITY := next] && GetKey(s, w) == Some(key)
  {
    es := SecretServed(db, key, next, w);
    es := KeyServed(db, es, Reading(key, 0, 0.0, 0.0, false), w, gap);
    es := Extended(0.0, db, es, Tick(300.0 - gap), w);
  }

  /** The stored key cannot be read, and the environment's is used and cached. */
  lemma FallsBack(db: Database, w: World) returns (es: seq<Event>)
    requires 0.0 <= w.delay && w.environment.Some? && w.environment.value != "" && AUTHORITY !in db.secrets
    ensures Run(0.0, db, es, w) ==
      State(0.0, [db], [0.0], map[], Some(Cached(Reading(w.environment.value, 0, 0.0, 0.0, true), 300.0)), [])
  {
    var r := Reading(w.environment.value, 0, 0.0, 0.0, true);
    var s0 := State(0.0, [db], [0.0], map[], None, []);
    var s1 := s0.(fillers := [FillKey(r)]);
    es := Extended(0.0, db, [], ReadKey, w);
    assert Apply(s0, ReadKey, w) == s1;
    es := Extended(0.0, db, es, Fill(0), w);
    assert Apply(s1, Fill(0), w) == s0.(keyCache := Some(Cached(r, 300.0)));
  }

  /** The environment's key, once it was used because the stored one could not be read, goes on being used for up to
      300 seconds after the stored one is back. */
  lemma FallbackOutlivesRepair(db: Database, next: Secret, w: World, key: string, gap: real) returns (es: seq<Event>)
    requires 0.0 < gap <= 300.0 && 0.0 <= w.delay && w.environment.Some? && w.environment.value != ""
    requires "marketplace_program_authority" !in db.secrets && db.superuser
    requires next.active && next.expiresAt == None && w.dec(next.encrypted) == Some(key)
    ensures
      var s := Run(0.0, db, es, w);
      && s.now == 300.0 - gap && s.changed == [0.0, 0.0] && |s.history| == 2
      && Value(s.history[1], "marketplace_program_authority", s.now, w.dec) == Some(key) && GetKey(s, w) == w.environment
  {
    es := FallsBack(db, w);
    es := Extended(0.0, db, es, Write("marketplace_program_authority", next), w);
    es := Extended(0.0, db, es, Tick(300.0 - gap), w);
  }
}
