/** In one process, with Redis answering and whole calls one after another, the two layers behave as one plain
    map. */
module CacheRefinement {
  import opened TimedStore
  import opened CacheLayers

  /** The plain map: the last value set since the last deletion, until when it must be found, and
      under which collections the key was set. */
  datatype Plain<V> = Plain(now: real, values: Store<string, V>, under: map<string, set<string>>)

  function Under<V>(m: Plain<V>, a: string): set<string> { if a in m.under then m.under[a] else {} }

  function PlainStep<V>(m: Plain<V>, e: Event<V>): Plain<V> {
    match e
    case Tick(d) => if d < 0.0 then m else m.(now := m.now + d)
    case Set(k, Some(v), ttl, c, _) =>
      if ttl <= 0.0 then m
      else
        var m1 := m.(values := m.values[k := Entry(v, m.now + ttl)]);
        if c == None then m1 else m1.(under := m.under[c.value := Under(m, c.value) + {k}])
    case Delete(k, _) => m.(values := m.values - {k})
    case Invalidate(a, _) => m.(values := m.values - Under(m, a), under := m.under - {a})
    case InvalidateAll(_) => m.(values := map[], under := map[])
    case _ => m
  }

  function PlainRun<V>(now: real, es: seq<(nat, Event<V>)>): Plain<V> {
    if es == [] then Plain(now, map[], map[]) else PlainStep(PlainRun(now, es[..|es| - 1]), es[|es| - 1].1)
  }

  /** Everything happens in process 0 and Redis answers every request. */
  ghost predicate OneProcess<V>(es: seq<(nat, Event<V>)>) {
    forall i: nat :: i < |es| ==> es[i].0 == 0 && Answers(es[i].1)
  }

  predicate Answers<V>(e: Event<V>) {
    e.Tick? || e.Evict? || e.answers >= 2
  }

  /** A readable local entry holds the plain map's value, at most 60 seconds beyond its time. */
  ghost predicate LocalAgrees<V>(s: State<V>, m: Plain<V>)
    requires |s.locals| == 1
  {
    forall k :: k in s.locals[0] && s.now < s.locals[0][k].expires ==>
      k in m.values && s.locals[0][k].value == m.values[k].value
      && s.locals[0][k].expires <= m.values[k].expires + BACK_POPULATION
  }

  ghost predicate Refines<V>(s: State<V>, m: Plain<V>) {
    && |s.locals| == 1 && s.now == m.now && s.redis == m.values && s.index == m.under && LocalAgrees(s, m)
    && forall a :: a in s.index ==> s.index[a] != {}
  }

  lemma GetRefines<V>(s: State<V>, m: Plain<V>, k: string, answers: nat)
    requires Refines(s, m) && answers >= 1
    ensures Refines(DoGet(s, 0, k, answers).0, m)
  {
    if !Readable(s.locals[0], k, s.now) && Readable(s.redis, k, s.now) {
      assert DoGet(s, 0, k, answers).0.locals[0] == Put(s.locals[0], k, s.redis[k].value, s.now, BACK_POPULATION);
    }
  }

  lemma SetRefines<V>(s: State<V>, m: Plain<V>, k: string, data: Option<V>, ttl: real, c: Option<string>, answers: nat)
    requires Refines(s, m) && answers >= 2
    ensures Refines(DoSet(s, 0, k, data, ttl, c, answers).0, PlainStep(m, Set(k, data, ttl, c, answers)))
  {
    if data.Some? {
      assert DoSet(s, 0, k, data, ttl, c, answers).0.locals[0] == Put(s.locals[0], k, data.value, s.now, ttl);
    }
  }

  lemma StepRefines<V>(s: State<V>, m: Plain<V>, e: Event<V>)
    requires Refines(s, m) && Answers(e)
    ensures Refines(Apply(s, 0, e), PlainStep(m, e))
  {
    match e
    case Get(k, n) => GetRefines(s, m, k, n);
    case Set(k, data, ttl, c, n) => SetRefines(s, m, k, data, ttl, c, n);
    case Invalidate(a, n) =>
      if Members(s, a) == {} {
        assert m.values - {} == m.values && m.under - {a} == m.under;
      }
    case _ =>
  }

  lemma {:induction false} RunRefines<V>(now: real, es: seq<(nat, Event<V>)>)
    requires OneProcess(es)
    ensures Refines(Run(1, now, es), PlainRun(now, es))
  {
    if es != [] {
      RunRefines(now, es[..|es| - 1]);
      StepRefines(Run(1, now, es[..|es| - 1]), PlainRun(now, es[..|es| - 1]), es[|es| - 1].1);
    }
  }

  /** `get` finds the last value set since the last deletion for as long as its time to live lasts;
      in the 60 seconds after that it finds the same value or nothing; then it finds nothing. */
  lemma GetAgreesWithPlainMap<V>(now: real, es: seq<(nat, Event<V>)>, key: string)
    requires OneProcess(es)
    ensures
      var m, found := PlainRun(now, es), DoGet(Run(1, now, es), 0, key, 2).1;
      if key !in m.values then found == None
      else if m.now < m.values[key].expires then found == Some(m.values[key].value)
      else if m.now < m.values[key].expires + 60.0 then found in {None, Some(m.values[key].value)}
      else found == None
  {
    RunRefines(now, es);
  }

  /** After `invalidate_collection_caches(a)` no key set under `a` is readable in either layer, every
      other key reads as before, and the result is the number of `a`'s keys that were live in Redis. */
  lemma InvalidationIsExact<V>(now: real, es: seq<(nat, Event<V>)>, a: string)
    requires OneProcess(es)
    ensures
      var s, m := Run(1, now, es), PlainRun(now, es);
      var (s', count) := DoInvalidate(s, 0, a, 2);
      && (forall k :: k in Under(m, a) ==> k !in s'.locals[0] && k !in s'.redis)
      && (forall k :: k !in Under(m, a) ==>
            && Lookup(s'.locals[0], k, s.now) == Lookup(s.locals[0], k, s.now)
            && Lookup(s'.redis, k, s.now) == Lookup(s.redis, k, s.now))
      && Members(s', a) == {} && (forall b :: b != a ==> Members(s', b) == Members(s, b))
      && count == |LiveIn(m.values, Under(m, a), m.now)|
  {
    RunRefines(now, es);
    if Members(Run(1, now, es), a) == {} {
      assert LiveIn(PlainRun(now, es).values, {}, PlainRun(now, es).now) == {};
    }
  }

  /** With a second process the plain map is not refined: what that process has in its local layer
      it goes on reading after a deletion or an invalidation by another process.  (Processes whose first
      layer is one shared Redis are one process of this model.) */
  lemma OtherProcessKeepsReading<V>(s: State<V>, p: nat, q: nat, key: string, a: string, answers: nat)
    requires p < |s.locals| && q < |s.locals| && p != q && Readable(s.locals[q], key, s.now)
    ensures DoGet(DoDelete(s, p, key, answers).0, q, key, 2).1 == DoGet(s, q, key, 2).1 == Some(s.locals[q][key].value)
    ensures DoGet(DoInvalidate(s, p, a, answers).0, q, key, 2).1 == Some(s.locals[q][key].value)
    ensures DoGet(DoInvalidateAll(s, p, answers).0, q, key, 2).1 == Some(s.locals[q][key].value)
  {}
}
