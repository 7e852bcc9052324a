/** The two-layer cache: one local store per process, one shared Redis, and a Redis set of keys per
    collection.  Here every call is whole: it takes no time and nothing comes between its accesses.
    Any Redis call may raise, and a local entry may be evicted at any time. */
module CacheLayers {
  import opened TimedStore

  /** How long a value read from Redis stays in the local layer. */
  const BACK_POPULATION := 60.0

  datatype State<V> = State(
    now: real,
    locals: seq<Store<string, V>>,
    redis: Store<string, V>,
    index: map<string, set<string>>)

  /** In every call, Redis answers `answers` requests and raises on the next one. */
  datatype Event<V> =
    | Tick(elapsed: real)
    | Get(key: string, answers: nat)
    | Set(key: string, data: Option<V>, ttl: real, collection: Option<string>, answers: nat)
    | Delete(key: string, answers: nat)
    | Invalidate(address: string, answers: nat)
    | InvalidateAll(answers: nat)
    | Evict(key: string)

  function Members<V>(s: State<V>, a: string): set<string> { if a in s.index then s.index[a] else {} }

  function SetLocal<V>(s: State<V>, p: nat, m: Store<string, V>): State<V>
    requires p < |s.locals|
  {
    s.(locals := s.locals[p := m])
  }

  // ---------------------------------------------------------------- the operations

  function DoGet<V>(s: State<V>, p: nat, key: string, answers: nat): (State<V>, Option<V>)
    requires p < |s.locals|
  {
    if Readable(s.locals[p], key, s.now) then (s, Some(s.locals[p][key].value))
    else if answers >= 1 && Readable(s.redis, key, s.now) then
      var v := s.redis[key].value;
      (SetLocal(s, p, Put(s.locals[p], key, v, s.now, BACK_POPULATION)), Some(v))
    else (s, None)
  }

  /** `setex` refuses a time to live that is not positive.  An empty collection address is none. */
  function DoSet<V>(s: State<V>, p: nat, key: string, data: Option<V>, ttl: real, collection: Option<string>, answers: nat)
    : (State<V>, bool)
    requires p < |s.locals|
  {
    match data
    case None => (s, false)
    case Some(v) =>
      var s1 := SetLocal(s, p, Put(s.locals[p], key, v, s.now, ttl));
      if answers < 1 || ttl <= 0.0 then (s1, false)
      else
        var s2 := s1.(redis := Put(s.redis, key, v, s.now, ttl));
        if collection == None then (s2, true)
        else if answers < 2 then (s2, false)
        else (s2.(index := s.index[collection.value := Members(s, collection.value) + {key}]), true)
  }

  function DoDelete<V>(s: State<V>, p: nat, key: string, answers: nat): (State<V>, bool)
    requires p < |s.locals|
  {
    var s1 := SetLocal(s, p, s.locals[p] - {key});
    if answers < 1 then (s1, false) else (s1.(redis := s.redis - {key}), true)
  }

  function LiveIn<V>(m: Store<string, V>, keys: set<string>, now: real): set<string> {
    set k | k in keys && Readable(m, k, now)
  }

  /** The deletion counts the key of the set itself too, and the result takes it off again. */
  function DoInvalidate<V>(s: State<V>, p: nat, a: string, answers: nat): (State<V>, int)
    requires p < |s.locals|
  {
    var keys := Members(s, a);
    if answers < 2 || keys == {} then (s, 0)
    else
      var deleted := |LiveIn(s.redis, keys, s.now)| + 1;
      (SetLocal(s, p, s.locals[p] - keys).(redis := s.redis - keys, index := s.index - {a}), deleted - 1)
  }

  function DoInvalidateAll<V>(s: State<V>, p: nat, answers: nat): (State<V>, bool)
    requires p < |s.locals|
  {
    var s1 := SetLocal(s, p, map[]);
    if answers < 1 then (s1, false) else (s1.(redis := map[], index := map[]), true)
  }

  // ---------------------------------------------------------------- what calls answer, and what a failure leaves

  /** `set` answers true exactly if everything was written.  Whatever Redis does, a value with a positive time to
      live is found by this process at once. */
  lemma SetAnswers<V>(s: State<V>, p: nat, key: string, v: V, ttl: real, collection: Option<string>, answers: nat, n: nat)
    requires p < |s.locals|
    ensures DoSet(s, p, key, None, ttl, collection, answers) == (s, false)
    ensures
      var (s', ok) := DoSet(s, p, key, Some(v), ttl, collection, answers);
      && (ok <==> ttl > 0.0 && answers >= if collection == None then 1 else 2)
      && (ttl > 0.0 ==> DoGet(s', p, key, n) == (s', Some(v)))
      && (ttl > 0.0 && answers >= 1 ==> s'.redis == s.redis[key := Entry(v, s.now + ttl)])
      && (ttl <= 0.0 || answers == 0 ==> s'.redis == s.redis)
      && (ok && collection.Some? ==> Members(s', collection.value) == Members(s, collection.value) + {key})
      && (!ok || collection == None ==> s'.index == s.index)
      && (forall a :: Some(a) != collection ==> Members(s', a) == Members(s, a))
  {}

  /** `delete` answers whether Redis did.  If it did not, the next `get` finds what Redis still has and puts it
      back. */
  lemma DeleteAnswers<V>(s: State<V>, p: nat, key: string, answers: nat, n: nat)
    requires p < |s.locals| && n > 0
    ensures
      var (s', ok) := DoDelete(s, p, key, answers);
      && (ok <==> answers > 0) && key !in s'.locals[p]
      && (ok ==> DoGet(s', p, key, n).1 == None)
      && (!ok ==> s'.redis == s.redis && DoGet(s', p, key, n).1 == Lookup(s.redis, key, s.now))
      && (forall k :: k != key ==> DoGet(s', p, k, n).1 == DoGet(s, p, k, n).1)
      && s'.index == s.index
  {}

  /** Clearing everything answers whether Redis was cleared too; nothing is found then, and otherwise what Redis
      still has. */
  lemma InvalidateAllAnswers<V>(s: State<V>, p: nat, answers: nat, n: nat, key: string)
    requires p < |s.locals| && n > 0
    ensures
      var (s', ok) := DoInvalidateAll(s, p, answers);
      && (ok <==> answers > 0)
      && DoGet(s', p, key, n).1 == (if ok then None else Lookup(s.redis, key, s.now))
      && (forall a :: Members(s', a) == if ok then {} else Members(s, a))
  {}

  /** An invalidation that Redis does not let through changes nothing. */
  lemma InvalidationFails<V>(s: State<V>, p: nat, a: string, answers: nat)
    requires p < |s.locals| && answers < 2
    ensures DoInvalidate(s, p, a, answers) == (s, 0)
  {}

  /** What a `get` found in Redis is found for another 60 seconds, whatever becomes of Redis. */
  lemma FoundForAMinute<V>(s: State<V>, p: nat, key: string, d: real, redis: Store<string, V>)
    requires p < |s.locals| && !Readable(s.locals[p], key, s.now) && Readable(s.redis, key, s.now) && 0.0 <= d < 60.0
    ensures
      var s' := Apply(Apply(s, p, Get(key, 1)), p, Tick(d));
      |s'.locals| == |s.locals| && DoGet(s'.(redis := redis), p, key, 0).1 == Some(s.redis[key].value)
  {}

  /** No call touches the local layer of another process. */
  lemma OthersUntouched<V>(s: State<V>, p: nat, e: Event<V>, q: nat)
    requires p < |s.locals| && q < |s.locals| && p != q
    ensures Apply(s, p, e).locals[q] == s.locals[q]
  {}

  // ---------------------------------------------------------------- runs

  function Apply<V>(s: State<V>, p: nat, e: Event<V>): State<V>
    requires p < |s.locals|
  {
    match e
    case Tick(d) => if d < 0.0 then s else s.(now := s.now + d)
    case Get(k, n) => DoGet(s, p, k, n).0
    case Set(k, data, ttl, c, n) => DoSet(s, p, k, data, ttl, c, n).0
    case Delete(k, n) => DoDelete(s, p, k, n).0
    case Invalidate(a, n) => DoInvalidate(s, p, a, n).0
    case InvalidateAll(n) => DoInvalidateAll(s, p, n).0
    case Evict(k) => SetLocal(s, p, s.locals[p] - {k})
  }

  function Initial<V>(processes: nat, now: real): State<V> {
    State(now, seq(processes, _ => map[]), map[], map[])
  }

  /** Each event comes with the process that it happens in; other events change nothing. */
  function Run<V>(processes: nat, now: real, es: seq<(nat, Event<V>)>): (s: State<V>)
    ensures |s.locals| == processes
  {
    if es == [] then Initial(processes, now)
    else
      var s, e := Run(processes, now, es[..|es| - 1]), es[|es| - 1];
      if e.0 < processes then Apply(s, e.0, e.1) else s
  }
}
