/** Runs in which a provider's counters reach their bounds or, when the trackings of calls overlap, pass them,
    and with them the exact conditions under which the bounds hold. */
module ProviderOverspending {
  import opened ProviderQuota

  // ---------------------------------------------------------------- states that runs reach

  ghost function Reachable(r: Rule, c: Setting): iset<State> { iset es | Obeys(r, es, c) :: Run(es, c) }

  ghost predicate Closed(reach: iset<State>, r: Rule, c: Setting) {
    forall s, e :: s in reach && Allows(r, s, e, Apply(s, e, c)) ==> Apply(s, e, c) in reach
  }

  lemma ReachableClosed(r: Rule, c: Setting)
    ensures Closed(Reachable(r, c), r, c) && Empty() in Reachable(r, c)
  {
    forall s, e | s in Reachable(r, c) && Allows(r, s, e, Apply(s, e, c)) ensures Apply(s, e, c) in Reachable(r, c) {
      var es :| Obeys(r, es, c) && Run(es, c) == s;
      assert (es + [e])[..|es|] == es;
      assert Run(es + [e], c) == Apply(s, e, c) && Obeys(r, es + [e], c);
    }
    assert Run([], c) == Empty() && Obeys(r, [], c);
  }

  lemma RunTo(s: State, r: Rule, c: Setting) returns (es: seq<Event>)
    requires s in Reachable(r, c)
    ensures Obeys(r, es, c) && Run(es, c) == s
  {
    es :| Obeys(r, es, c) && Run(es, c) == s;
  }

  lemma Move(reach: iset<State>, r: Rule, s: State, e: Event, s': State, c: Setting)
    requires Closed(reach, r, c) && s in reach && Apply(s, e, c) == s' && Allows(r, s, e, s')
    ensures s' in reach
  {}

  // ---------------------------------------------------------------- requests that pass and call

  /** Requests are spent one after another behind some that are stopped in the middle of something. */
  function Waiting(n: nat, tier: string, c: Setting): seq<Request> { seq(n, _ => Request(tier, Passed, c.k, false)) }

  /** At most one more wrapper may exist, and no tracking is stopped, unless all runs are allowed. */
  ghost predicate Fits(r: Rule, front: seq<Request>) { r.Free? || front == [] }

  lemma {:induction false} WaitingAlone(n: nat, tier: string, c: Setting)
    ensures Wrappers(Waiting(n, tier, c)) == 0
    ensures !AnyFresh(Waiting(n, tier, c))
  {
    if n > 0 {
      assert Waiting(n, tier, c)[..n - 1] == Waiting(n - 1, tier, c);
      WaitingAlone(n - 1, tier, c);
    }
  }

  lemma {:induction false} FirstAlone(x: Request, n: nat, tier: string, c: Setting)
    ensures Wrappers([x] + Waiting(n, tier, c)) <= 1
    ensures !Fresh(x) ==> !AnyFresh([x] + Waiting(n, tier, c))
  {
    var rs := [x] + Waiting(n, tier, c);
    if n == 0 {
      assert rs == [x] && rs[..0] == [];
    } else {
      assert rs[..n] == [x] + Waiting(n - 1, tier, c);
      FirstAlone(x, n - 1, tier, c);
    }
  }

  /** The state after `m` calls for a tier. */
  function Spent(s: State, tier: string, m: nat): State {
    if m == 0 then s
    else s.(daily := s.daily + m, tiers := s.tiers[tier := Usage(s.tiers, tier) + m], calls := s.calls + m)
  }

  lemma SpentMore(s: State, tier: string, m: nat, n: nat)
    ensures Spent(Spent(s, tier, m), tier, n) == Spent(s, tier, m + n)
  {
    var a := Usage(s.tiers, tier);
    assert s.tiers[tier := a + m][tier := a + m + n] == s.tiers[tier := a + m + n];
  }

  lemma CheckedDaily(s: State, front: seq<Request>, n: nat, tier: string, c: Setting)
    requires s.requests == front + Waiting(n, tier, c) && |front| + n < c.w && s.daily < c.limit
    ensures Apply(s, CheckDaily(tier), c)
         == s.(requests := front + Waiting(n, tier, c) + [Request(tier, SawDaily, c.k, false)])
  {}

  lemma CheckedTier(s: State, front: seq<Request>, n: nat, tier: string, c: Setting)
    requires s.requests == front + Waiting(n, tier, c) + [Request(tier, SawDaily, c.k, false)]
    requires Usage(s.tiers, tier) < TierLimit(c, tier)
    ensures Apply(s, CheckTier(|front| + n, 0), c) == s.(requests := front + Waiting(n + 1, tier, c))
  {
    var i := |front| + n;
    assert s.requests[i] == Request(tier, SawDaily, c.k, false);
    assert s.requests[i := Request(tier, Passed, c.k, false)] == front + Waiting(n + 1, tier, c);
  }

  lemma CheckAlone(n: nat, tier: string, c: Setting)
    ensures Wrappers([] + Waiting(n, tier, c) + [Request(tier, SawDaily, c.k, false)]) == 0
    ensures !AnyFresh([] + Waiting(n, tier, c) + [Request(tier, SawDaily, c.k, false)])
    ensures Wrappers([] + Waiting(n, tier, c)) == 0 && !AnyFresh([] + Waiting(n, tier, c))
  {
    var rs := [] + Waiting(n, tier, c) + [Request(tier, SawDaily, c.k, false)];
    assert [] + Waiting(n, tier, c) == Waiting(n, tier, c) && rs[..n] == Waiting(n, tier, c);
    WaitingAlone(n, tier, c);
  }

  /** While both counters are below their limits, one more request passes both checks. */
  lemma PassOne(reach: iset<State>, r: Rule, s: State, front: seq<Request>, n: nat, tier: string, c: Setting)
    requires Closed(reach, r, c) && s in reach && s.requests == front + Waiting(n, tier, c) && Fits(r, front)
    requires |front| + n < c.w && QuotaAvailable(s.daily, Usage(s.tiers, tier), c.limit, TierLimit(c, tier))
    ensures s.(requests := front + Waiting(n + 1, tier, c)) in reach
  {
    var s1 := s.(requests := front + Waiting(n, tier, c) + [Request(tier, SawDaily, c.k, false)]);
    var s2 := s.(requests := front + Waiting(n + 1, tier, c));
    CheckAlone(n, tier, c);
    CheckAlone(n + 1, tier, c);
    CheckedDaily(s, front, n, tier, c);
    Move(reach, r, s, CheckDaily(tier), s1, c);
    CheckedTier(s1, front, n, tier, c);
    Move(reach, r, s1, CheckTier(|front| + n, 0), s2, c);
  }

  lemma {:induction false} PassChecks(reach: iset<State>, r: Rule, s: State, front: seq<Request>, n: nat, tier: string, c: Setting)
    requires Closed(reach, r, c) && s in reach && s.requests == front && |front| + n <= c.w && Fits(r, front)
    requires QuotaAvailable(s.daily, Usage(s.tiers, tier), c.limit, TierLimit(c, tier))
    ensures s.(requests := front + Waiting(n, tier, c)) in reach
  {
    if n == 0 {
      assert front + Waiting(0, tier, c) == front;
    } else {
      PassChecks(reach, r, s, front, n - 1, tier, c);
      PassOne(reach, r, s.(requests := front + Waiting(n - 1, tier, c)), front, n - 1, tier, c);
    }
  }

  /** One request stands between the stopped and the waiting ones. */
  function Line(front: seq<Request>, x: Request, n: nat, tier: string, c: Setting): seq<Request> {
    front + ([x] + Waiting(n, tier, c))
  }

  lemma LineAt(front: seq<Request>, x: Request, y: Request, n: nat, tier: string, c: Setting)
    ensures Line(front, x, n, tier, c)[|front|] == x
    ensures Line(front, x, n, tier, c)[|front| := y] == Line(front, y, n, tier, c)
    ensures Remove(Line(front, x, n, tier, c), |front|) == front + Waiting(n, tier, c)
    ensures (front + Waiting(n + 1, tier, c))[|front| := y] == Line(front, y, n, tier, c)
    ensures front == [] ==> Wrappers(Line(front, x, n, tier, c)) <= 1
    ensures front == [] && !Fresh(x) ==> !AnyFresh(Line(front, x, n, tier, c))
  {
    FirstAlone(x, n, tier, c);
    if front == [] {
      assert Line(front, x, n, tier, c) == [x] + Waiting(n, tier, c);
    }
  }

  /** A step in the tracking of that request's call. */
  lemma TrackOne(reach: iset<State>, r: Rule, s: State, s': State, front: seq<Request>, x: Request, y: Request, n: nat, tier: string, c: Setting)
    requires Closed(reach, r, c) && s in reach && Fits(r, front) && s.requests == Line(front, x, n, tier, c)
    requires s'.requests == Line(front, y, n, tier, c)
    requires TrackRequest(s, |front|) == s'
    requires x.stage.Granted? ==> !Fresh(x)
    ensures s' in reach
  {
    LineAt(front, x, y, n, tier, c);
    LineAt(front, y, y, n, tier, c);
    Move(reach, r, s, Track(|front|), s', c);
  }

  function Calling(tier: string, stage: Stage, left: nat): Request { Request(tier, stage, left, false) }

  lemma DailyRead(s: State, front: seq<Request>, left: nat, n: nat, tier: string, c: Setting)
    requires 0 < left && s.requests == Line(front, Calling(tier, Granted, left), n, tier, c)
    ensures TrackRequest(s, |front|) == s.(requests := Line(front, Calling(tier, CountedDaily(s.daily + 1), left), n, tier, c))
  {
    LineAt(front, Calling(tier, Granted, left), Calling(tier, CountedDaily(s.daily + 1), left), n, tier, c);
  }

  lemma TierRead(s: State, front: seq<Request>, d: nat, left: nat, n: nat, tier: string, c: Setting)
    requires s.requests == Line(front, Calling(tier, CountedDaily(d), left), n, tier, c)
    ensures TrackRequest(s, |front|) ==
      s.(requests := Line(front, Calling(tier, CountedBoth(d, Usage(s.tiers, tier) + 1), left), n, tier, c))
  {
    LineAt(front, Calling(tier, CountedDaily(d), left), Calling(tier, CountedBoth(d, Usage(s.tiers, tier) + 1), left), n, tier, c);
  }

  /** It reads both counters. */
  lemma ReadBoth(reach: iset<State>, r: Rule, s: State, front: seq<Request>, left: nat, n: nat, tier: string, c: Setting)
    requires Closed(reach, r, c) && s in reach && Fits(r, front) && 0 < left
    requires s.requests == Line(front, Calling(tier, Granted, left), n, tier, c)
    ensures s.(requests := Line(front, Calling(tier, CountedBoth(s.daily + 1, Usage(s.tiers, tier) + 1), left), n, tier, c)) in reach
  {
    var x0, x1 := Calling(tier, Granted, left), Calling(tier, CountedDaily(s.daily + 1), left);
    var x2 := Calling(tier, CountedBoth(s.daily + 1, Usage(s.tiers, tier) + 1), left);
    var s1 := s.(requests := Line(front, x1, n, tier, c));
    DailyRead(s, front, left, n, tier, c);
    TrackOne(reach, r, s, s1, front, x0, x1, n, tier, c);
    TierRead(s1, front, s.daily + 1, left, n, tier, c);
    TrackOne(reach, r, s1, s.(requests := Line(front, x2, n, tier, c)), front, x1, x2, n, tier, c);
  }

  /** The state once the values read are written. */
  function Written(s: State, tier: string, d: nat, u: nat): State {
    s.(daily := d, tiers := s.tiers[tier := u], calls := s.calls + 1)
  }

  lemma DailyWritten(s: State, front: seq<Request>, d: nat, u: nat, left: nat, n: nat, tier: string, c: Setting)
    requires s.requests == Line(front, Calling(tier, CountedBoth(d, u), left), n, tier, c)
    ensures TrackRequest(s, |front|) ==
      s.(daily := d, calls := s.calls + 1, requests := Line(front, Calling(tier, WroteDaily(u), left), n, tier, c))
  {
    LineAt(front, Calling(tier, CountedBoth(d, u), left), Calling(tier, WroteDaily(u), left), n, tier, c);
  }

  lemma TierWritten(s: State, front: seq<Request>, u: nat, left: nat, n: nat, tier: string, c: Setting)
    requires 0 < left && s.requests == Line(front, Calling(tier, WroteDaily(u), left), n, tier, c)
    ensures TrackRequest(s, |front|) ==
      s.(tiers := s.tiers[tier := u], requests := Line(front, Calling(tier, Granted, left - 1), n, tier, c))
  {
    LineAt(front, Calling(tier, WroteDaily(u), left), Calling(tier, Granted, left - 1), n, tier, c);
  }

  lemma WriteBoth(reach: iset<State>, r: Rule, s: State, front: seq<Request>, d: nat, u: nat, left: nat, n: nat, tier: string, c: Setting)
    requires Closed(reach, r, c) && s in reach && Fits(r, front) && 0 < left
    requires s.requests == Line(front, Calling(tier, CountedBoth(d, u), left), n, tier, c)
    ensures Written(s, tier, d, u).(requests := Line(front, Calling(tier, Granted, left - 1), n, tier, c)) in reach
  {
    var x2, x3 := Calling(tier, CountedBoth(d, u), left), Calling(tier, WroteDaily(u), left);
    var x4 := Calling(tier, Granted, left - 1);
    var s1 := s.(daily := d, calls := s.calls + 1, requests := Line(front, x3, n, tier, c));
    DailyWritten(s, front, d, u, left, n, tier, c);
    TrackOne(reach, r, s, s1, front, x2, x3, n, tier, c);
    TierWritten(s1, front, u, left, n, tier, c);
    TrackOne(reach, r, s1, Written(s, tier, d, u).(requests := Line(front, x4, n, tier, c)), front, x3, x4, n, tier, c);
  }

  lemma {:induction false} Calls(reach: iset<State>, r: Rule, s: State, front: seq<Request>, left: nat, n: nat, m: nat, tier: string, c: Setting)
    requires Closed(reach, r, c) && s in reach && Fits(r, front) && m <= left
    requires s.requests == Line(front, Calling(tier, Granted, left), n, tier, c)
    ensures Spent(s, tier, m).(requests := Line(front, Calling(tier, Granted, left - m), n, tier, c)) in reach
  {
    if m > 0 {
      Calls(reach, r, s, front, left, n, m - 1, tier, c);
      var s1 := Spent(s, tier, m - 1).(requests := Line(front, Calling(tier, Granted, left - m + 1), n, tier, c));
      var d, u := s1.daily + 1, Usage(s1.tiers, tier) + 1;
      ReadBoth(reach, r, s1, front, left - m + 1, n, tier, c);
      var s2 := s1.(requests := Line(front, Calling(tier, CountedBoth(d, u), left - m + 1), n, tier, c));
      WriteBoth(reach, r, s2, front, d, u, left - m + 1, n, tier, c);
      SpentMore(s, tier, m - 1, 1);
    }
  }

  lemma FirstGranted(s: State, front: seq<Request>, n: nat, tier: string, c: Setting)
    requires 0 < n && s.requests == front + Waiting(n, tier, c)
    ensures Apply(s, Grant(|front|), c) == s.(requests := Line(front, Calling(tier, Granted, c.k), n - 1, tier, c))
  {
    assert s.requests[|front|] == Request(tier, Passed, c.k, false);
    LineAt(front, Request(tier, Passed, c.k, false), Calling(tier, Granted, c.k), n - 1, tier, c);
  }

  lemma GrantFirst(reach: iset<State>, r: Rule, s: State, front: seq<Request>, n: nat, tier: string, c: Setting)
    requires Closed(reach, r, c) && s in reach && Fits(r, front) && 0 < n && s.requests == front + Waiting(n, tier, c)
    ensures s.(requests := Line(front, Calling(tier, Granted, c.k), n - 1, tier, c)) in reach
  {
    var x := Calling(tier, Granted, c.k);
    FirstGranted(s, front, n, tier, c);
    LineAt(front, x, x, n - 1, tier, c);
    CheckAlone(n, tier, c);
    Move(reach, r, s, Grant(|front|), s.(requests := Line(front, x, n - 1, tier, c)), c);
  }

  lemma FirstReleased(s: State, front: seq<Request>, x: Request, n: nat, tier: string, c: Setting)
    requires s.requests == Line(front, x, n, tier, c)
    ensures Apply(s, Release(|front|), c) == s.(requests := front + Waiting(n, tier, c))
  {
    LineAt(front, x, x, n, tier, c);
  }

  lemma ReleaseFirst(reach: iset<State>, r: Rule, s: State, front: seq<Request>, x: Request, n: nat, tier: string, c: Setting)
    requires Closed(reach, r, c) && s in reach && Fits(r, front) && s.requests == Line(front, x, n, tier, c)
    ensures s.(requests := front + Waiting(n, tier, c)) in reach
  {
    FirstReleased(s, front, x, n, tier, c);
    CheckAlone(n, tier, c);
    Move(reach, r, s, Release(|front|), s.(requests := front + Waiting(n, tier, c)), c);
  }

  /** Of `n` requests that passed, the first is granted its wrapper, makes `m` calls and drops it. */
  lemma UseFirst(reach: iset<State>, r: Rule, s: State, front: seq<Request>, n: nat, m: nat, tier: string, c: Setting)
    requires Closed(reach, r, c) && s in reach && Fits(r, front) && 0 < n && m <= c.k && s.requests == front + Waiting(n, tier, c)
    ensures Spent(s, tier, m).(requests := front + Waiting(n - 1, tier, c)) in reach
  {
    var x, y := Calling(tier, Granted, c.k), Calling(tier, Granted, c.k - m);
    var s1 := s.(requests := Line(front, x, n - 1, tier, c));
    GrantFirst(reach, r, s, front, n, tier, c);
    Calls(reach, r, s1, front, c.k, n - 1, m, tier, c);
    ReleaseFirst(reach, r, Spent(s, tier, m).(requests := Line(front, y, n - 1, tier, c)), front, y, n - 1, tier, c);
  }

  function Product(n: nat, k: nat): nat { if n == 0 then 0 else Product(n - 1, k) + k }

  lemma {:induction false} ProductIsTimes(n: nat, k: nat)
    ensures Product(n, k) == n * k
  {
    if n > 0 {
      ProductIsTimes(n - 1, k);
      assert n * k == (n - 1) * k + k;
    }
  }

  /** The first `m` of `n` requests that passed make all their calls, one request after the other. */
  lemma {:induction false} UseMany(reach: iset<State>, r: Rule, s: State, front: seq<Request>, n: nat, m: nat, tier: string, c: Setting)
    requires Closed(reach, r, c) && s in reach && Fits(r, front) && m <= n && s.requests == front + Waiting(n, tier, c)
    ensures Spent(s, tier, Product(m, c.k)).(requests := front + Waiting(n - m, tier, c)) in reach
    decreases m
  {
    if m > 0 {
      UseMany(reach, r, s, front, n, m - 1, tier, c);
      var s1 := Spent(s, tier, Product(m - 1, c.k)).(requests := front + Waiting(n - m + 1, tier, c));
      UseFirst(reach, r, s1, front, n - m + 1, c.k, tier, c);
      SpentMore(s, tier, Product(m - 1, c.k), c.k);
    }
  }

  /** The state after `m` calls, the tier's counter forgotten after each of them. */
  function Unnoticed(s: State, tier: string, m: nat): State {
    s.(daily := s.daily + m, tiers := s.tiers - {tier}, calls := s.calls + m)
  }

  lemma ForgetTierBehind(reach: iset<State>, r: Rule, s: State, tier: string, c: Setting)
    requires Closed(reach, r, c) && s in reach && Fits(r, s.requests)
    ensures s.(tiers := s.tiers - {tier}) in reach
  {
    assert s.requests == [] ==> Wrappers(s.requests) == 0;
    Move(reach, r, s, ForgetTier(tier), s.(tiers := s.tiers - {tier}), c);
  }

  /** One request makes a call, and the tier's counter is forgotten: every tier's calls keep the daily counter in
      the cache, but only its own calls keep a tier's. */
  lemma CallUnnoticed(reach: iset<State>, r: Rule, s: State, tier: string, c: Setting)
    requires Closed(reach, r, c) && s in reach && Fits(r, s.requests) && |s.requests| < c.w && 0 < c.k
    requires QuotaAvailable(s.daily, Usage(s.tiers, tier), c.limit, TierLimit(c, tier)) && Usage(s.tiers, tier) == 0
    ensures Unnoticed(s, tier, 1) in reach
  {
    var front := s.requests;
    PassChecks(reach, r, s, front, 1, tier, c);
    UseFirst(reach, r, s.(requests := front + Waiting(1, tier, c)), front, 1, 1, tier, c);
    assert front + Waiting(0, tier, c) == front;
    var s1 := Spent(s, tier, 1);
    assert s1 in reach;
    ForgetTierBehind(reach, r, s1, tier, c);
    assert s.tiers[tier := 1] - {tier} == s.tiers - {tier};
  }

  /** `m` calls by one request after another, as long as the daily limit allows. */
  lemma {:induction false} Spend(reach: iset<State>, r: Rule, s: State, front: seq<Request>, m: nat, tier: string, c: Setting)
    requires Closed(reach, r, c) && s in reach && Fits(r, front) && |front| < c.w && 0 < c.k
    requires s.daily + m <= c.limit && 0 < TierLimit(c, tier) && s.requests == front
    ensures Unnoticed(s, tier, m) in reach
  {
    if m == 0 {
      ForgetTierBehind(reach, r, s, tier, c);
    } else {
      var s1 := Unnoticed(s, tier, m - 1);
      Spend(reach, r, s, front, m - 1, tier, c);
      CallUnnoticed(reach, r, s1, tier, c);
      assert s1.tiers - {tier} == s.tiers - {tier};
    }
  }

  // ---------------------------------------------------------------- the bounds are reached

  lemma OvershootState(reach: iset<State>, tier: string, c: Setting) returns (s': State)
    requires Closed(reach, OneWrapper, c) && Empty() in reach && 0 < c.w && 0 < c.k && 0 < c.limit && 0 < TierLimit(c, tier)
    ensures s' in reach && s'.daily == c.limit - 1 + Product(c.w, c.k)
  {
    var s := Unnoticed(Empty(), tier, c.limit - 1);
    Spend(reach, OneWrapper, Empty(), [], c.limit - 1, tier, c);
    PassChecks(reach, OneWrapper, s, [], c.w, tier, c);
    var s1 := s.(requests := [] + Waiting(c.w, tier, c));
    UseMany(reach, OneWrapper, s1, [], c.w, c.w, tier, c);
    s' := Spent(s1, tier, Product(c.w, c.k)).(requests := [] + Waiting(c.w - c.w, tier, c));
  }

  /** The bound is reached for every `w` and `k`, with undivided trackings and without two wrappers ever
      existing at a time: a check that was passed is not repeated when the wrapper is used.  So to count the
      granted wrappers is not enough; already with two requests and one call each the limit is exceeded. */
  lemma ChecksInFlightOvershoot(c: Setting, tier: string) returns (es: seq<Event>)
    requires 0 < c.w && 0 < c.k && 0 < c.limit && 0 < TierLimit(c, tier)
    ensures Obeys(OneWrapper, es, c) && Run(es, c).daily == c.limit - 1 + c.w * c.k
  {
    ReachableClosed(OneWrapper, c);
    var s := OvershootState(Reachable(OneWrapper, c), tier, c);
    es := RunTo(s, OneWrapper, c);
    ProductIsTimes(c.w, c.k);
  }

  lemma AtLeastTwo(w: nat, k: nat)
    ensures 1 < w * k <==> 0 < k && 0 < w && (1 < w || 1 < k)
  {
    if 1 < w && 0 < k {
      assert w * 1 <= w * k;
    } else if 0 < w && 1 < k {
      assert 1 * k <= w * k;
    }
  }

  /** No call can ever be made. */
  ghost predicate NothingToCall(c: Setting) {
    c.k == 0 || c.limit <= 0 || forall t :: TierLimit(c, t) <= 0
  }

  function Positive(n: int): nat { if n <= 0 then 0 else n }

  /** The daily limit is kept in all runs, and in all undivided runs, exactly when at most one call can be in
      flight (or no call can be made at all). */
  lemma LimitKeptIff(c: Setting)
    ensures NothingToCall(c) || c.w * c.k <= 1 <==> forall es :: Run(es, c).daily <= Positive(c.limit)
    ensures NothingToCall(c) || c.w * c.k <= 1 <==>
      forall es :: Obeys(Undivided, es, c) ==> Run(es, c).daily <= Positive(c.limit)
  {
    AtLeastTwo(c.w, c.k);
    if NothingToCall(c) {
      forall es ensures Run(es, c).daily <= Positive(c.limit) {
        NoCalls(es, c);
      }
    } else if c.w * c.k <= 1 {
      forall es ensures Run(es, c).daily <= Positive(c.limit) {
        CountersBounded(es, c, "");
      }
    } else {
      var tier :| 0 < TierLimit(c, tier);
      var es := ChecksInFlightOvershoot(c, tier);
      OneWrapperIsUndivided(es, c);
    }
  }

  /** Then no request ever tracks a call. */
  predicate CannotCall(x: Request) { !Tracking(x) && (x.left == 0 || x.stage == SawDaily) }

  lemma {:induction false} NoCalls(es: seq<Event>, c: Setting)
    requires NothingToCall(c)
    ensures Run(es, c).daily == 0 && Run(es, c).calls == 0
    ensures forall i: nat :: i < |Run(es, c).requests| ==> CannotCall(Run(es, c).requests[i])
    ensures 0 < c.k ==> c.limit <= 0 ==> Run(es, c).requests == []
    ensures forall i: nat :: i < |Run(es, c).requests| ==> Run(es, c).requests[i].left <= c.k
  {
    if es != [] {
      NoCalls(es[..|es| - 1], c);
      NoCallsStep(Run(es[..|es| - 1], c), es[|es| - 1], c);
    }
  }

  lemma NoCallsStep(s: State, e: Event, c: Setting)
    requires NothingToCall(c) && s.daily == 0 && s.calls == 0
    requires forall i: nat :: i < |s.requests| ==> CannotCall(s.requests[i]) && s.requests[i].left <= c.k
    requires 0 < c.k ==> c.limit <= 0 ==> s.requests == []
    ensures
      var s' := Apply(s, e, c);
      && s'.daily == 0 && s'.calls == 0
      && (forall i: nat :: i < |s'.requests| ==> CannotCall(s'.requests[i]) && s'.requests[i].left <= c.k)
      && (0 < c.k ==> c.limit <= 0 ==> s'.requests == [])
  {
    var s' := Apply(s, e, c);
    if e.CheckTier? && e.i < |s.requests| && 0 < c.k {
      assert TierLimit(c, s.requests[e.i].tier) <= 0;
    }
    if (e.CheckTier? || e.Release?) && e.i < |s.requests| {
      assert forall j: nat :: j < |s.requests| - 1 ==> Remove(s.requests, e.i)[j] == s.requests[if j < e.i then j else j + 1];
    }
  }

  // ---------------------------------------------------------------- overlapping trackings

  /** The last request that passed makes all its calls but one and stops when it has read the counters for that. */
  lemma LastStops(reach: iset<State>, s: State, front: seq<Request>, tier: string, c: Setting)
    requires Closed(reach, Free, c) && s in reach && 0 < c.k && s.requests == front + Waiting(1, tier, c)
    ensures
      var s' := Spent(s, tier, c.k - 1);
      s'.(requests := front + [Calling(tier, CountedBoth(s'.daily + 1, Usage(s'.tiers, tier) + 1), 1)]) in reach
  {
    var s1 := s.(requests := Line(front, Calling(tier, Granted, c.k), 0, tier, c));
    var s2 := Spent(s, tier, c.k - 1).(requests := Line(front, Calling(tier, Granted, 1), 0, tier, c));
    GrantFirst(reach, Free, s, front, 1, tier, c);
    Calls(reach, Free, s1, front, c.k, 0, c.k - 1, tier, c);
    assert Spent(s1, tier, c.k - 1).(requests := s2.requests) == s2;
    ReadBoth(reach, Free, s2, front, 1, 0, tier, c);
    LastInLine(front, Calling(tier, CountedBoth(s2.daily + 1, Usage(s2.tiers, tier) + 1), 1), tier, c);
  }

  /** The values read for the last of `n` times `k` calls. */
  function High(s: State, n: nat, tier: string, c: Setting): Stage {
    CountedBoth(s.daily + Product(n, c.k), Usage(s.tiers, tier) + Product(n, c.k))
  }

  /** Of `n` requests that passed all but one spend everything, and the last one stops before it writes for its
      last call. */
  lemma StoppedHigh(reach: iset<State>, s: State, front: seq<Request>, n: nat, tier: string, c: Setting) returns (s': State)
    requires Closed(reach, Free, c) && s in reach && 0 < n && 0 < c.k && s.requests == front + Waiting(n, tier, c)
    ensures s' in reach && s'.requests == front + [Calling(tier, High(s, n, tier, c), 1)] && s'.forgets == s.forgets
  {
    var p := Product(n - 1, c.k);
    var s1 := Spent(s, tier, p).(requests := front + Waiting(1, tier, c));
    UseMany(reach, Free, s, front, n, n - 1, tier, c);
    LastStops(reach, s1, front, tier, c);
    var s2 := Spent(s1, tier, c.k - 1);
    s' := s2.(requests := front + [Calling(tier, CountedBoth(s2.daily + 1, Usage(s2.tiers, tier) + 1), 1)]);
  }

  lemma LastInLine(front: seq<Request>, x: Request, tier: string, c: Setting)
    ensures Line(front, x, 0, tier, c) == front + [x]
  {
    assert [x] + Waiting(0, tier, c) == [x];
  }

  /** A single stopped request goes on: the values it read are written over whatever the counters are now. */
  lemma WritesLate(reach: iset<State>, s: State, rest: seq<Request>, d: nat, u: nat, left: nat, tier: string, c: Setting)
    requires Closed(reach, Free, c) && s in reach && 0 < left
    requires s.requests == [Calling(tier, CountedBoth(d, u), left)] + rest
    ensures Written(s, tier, d, u).(requests := [Calling(tier, Granted, left - 1)] + rest) in reach
  {
    var x3, x4 := Calling(tier, WroteDaily(u), left), Calling(tier, Granted, left - 1);
    var s1 := s.(daily := d, calls := s.calls + 1, requests := [x3] + rest);
    var s2 := Written(s, tier, d, u).(requests := [x4] + rest);
    assert s.requests[0 := x3] == s1.requests && s1.requests[0 := x4] == s2.requests;
    Move(reach, Free, s, Track(0), s1, c);
    Move(reach, Free, s1, Track(0), s2, c);
  }

  /** Behind one stopped request `w - 1` new ones pass, it writes, and they spend all their calls. */
  lemma RefillAndWrite(reach: iset<State>, s: State, d: nat, u: nat, tier: string, c: Setting) returns (s': State)
    requires Closed(reach, Free, c) && s in reach && 0 < c.w && s.requests == [Calling(tier, CountedBoth(d, u), 1)]
    requires QuotaAvailable(s.daily, Usage(s.tiers, tier), c.limit, TierLimit(c, tier))
    ensures s' in reach && s'.daily == d + Product(c.w - 1, c.k) && s'.forgets == s.forgets
  {
    var x, y := Calling(tier, CountedBoth(d, u), 1), Calling(tier, Granted, 0);
    PassChecks(reach, Free, s, [x], c.w - 1, tier, c);
    var s1 := s.(requests := [x] + Waiting(c.w - 1, tier, c));
    WritesLate(reach, s1, Waiting(c.w - 1, tier, c), d, u, 1, tier, c);
    var s2 := Written(s1, tier, d, u).(requests := [y] + Waiting(c.w - 1, tier, c));
    UseMany(reach, Free, s2, [y], c.w - 1, c.w - 1, tier, c);
    s' := Spent(s2, tier, Product(c.w - 1, c.k)).(requests := [y] + Waiting(c.w - 1 - (c.w - 1), tier, c));
  }

  /** Both counters are forgotten while a request is stopped. */
  lemma Forgotten(reach: iset<State>, s: State, tier: string, c: Setting) returns (s': State)
    requires Closed(reach, Free, c) && s in reach
    ensures s' in reach && s'.requests == s.requests && s'.daily == Usage(s'.tiers, tier) == 0
  {
    var s1 := s.(daily := 0, forgets := s.forgets + 1);
    s' := s1.(tiers := s1.tiers - {tier});
    Move(reach, Free, s, ForgetDaily, s1, c);
    Move(reach, Free, s1, ForgetTier(tier), s', c);
  }

  lemma ForgottenState(reach: iset<State>, tier: string, c: Setting) returns (s': State)
    requires Closed(reach, Free, c) && Empty() in reach && 0 < c.w && 0 < c.k && 0 < c.limit && 0 < TierLimit(c, tier)
    ensures s' in reach && s'.daily == c.limit - 1 + Product(c.w, c.k) + Product(c.w - 1, c.k)
  {
    var s := Unnoticed(Empty(), tier, c.limit - 1);
    Spend(reach, Free, Empty(), [], c.limit - 1, tier, c);
    PassChecks(reach, Free, s, [], c.w, tier, c);
    s' := StoppedHigh(reach, s.(requests := [] + Waiting(c.w, tier, c)), [], c.w, tier, c);
    s' := Forgotten(reach, s', tier, c);
    var high := High(s, c.w, tier, c);
    assert s'.requests == [Calling(tier, high, 1)];
    s' := RefillAndWrite(reach, s', high.daily, high.usage, tier, c);
  }

  /** When a counter at its ceiling was read and is then forgotten, new requests pass, and the late write puts
      the old value under their calls. */
  lemma ForgottenMeanwhile(c: Setting, tier: string) returns (es: seq<Event>)
    requires 0 < c.w && 0 < c.k && 0 < c.limit && 0 < TierLimit(c, tier)
    ensures Run(es, c).daily == c.limit - 1 + (2 * c.w - 1) * c.k
  {
    ReachableClosed(Free, c);
    var s := ForgottenState(Reachable(Free, c), tier, c);
    TwoProducts(c.w, c.w - 1, 2 * c.w - 1, c.k);
    es := RunTo(s, Free, c);
  }

  lemma TwoProducts(m: nat, n: nat, t: nat, k: nat)
    requires t == m + n
    ensures Product(m, k) + Product(n, k) == t * k
  {
    ProductIsTimes(m, k);
    ProductIsTimes(n, k);
  }

  /** The first request stops when it has read both counters at zero; others spend up to the limit but one. */
  lemma StoppedLow(reach: iset<State>, m: nat, tier: string, c: Setting)
    requires Closed(reach, Free, c) && Empty() in reach && 1 < c.w && 0 < c.k && m <= c.limit && 0 < TierLimit(c, tier) && 0 < c.limit
    ensures Unnoticed(Empty(), tier, m).(requests := [Calling(tier, CountedBoth(1, 1), c.k)]) in reach
  {
    var s0, x := Empty(), Calling(tier, CountedBoth(1, 1), c.k);
    PassChecks(reach, Free, s0, [], 1, tier, c);
    GrantFirst(reach, Free, s0.(requests := [] + Waiting(1, tier, c)), [], 1, tier, c);
    var s1 := s0.(requests := Line([], Calling(tier, Granted, c.k), 0, tier, c));
    ReadBoth(reach, Free, s1, [], c.k, 0, tier, c);
    LastInLine([], x, tier, c);
    assert [] + [x] == [x];
    Spend(reach, Free, s0.(requests := [x]), [x], m, tier, c);
    assert Unnoticed(s0.(requests := [x]), tier, m) == Unnoticed(s0, tier, m).(requests := [x]);
  }

  /** A stopped request writes the low values it read, and is dropped; the tier's counter is forgotten. */
  lemma WritesLow(reach: iset<State>, s: State, y: Request, tier: string, c: Setting) returns (s': State)
    requires Closed(reach, Free, c) && s in reach && 0 < c.k && s.requests == [Calling(tier, CountedBoth(1, 1), c.k)] + [y]
    ensures s' in reach && s'.requests == [y] && s'.daily == 1 && Usage(s'.tiers, tier) == 0 && s'.forgets == s.forgets
  {
    WritesLate(reach, s, [y], 1, 1, c.k, tier, c);
    var s1 := Written(s, tier, 1, 1).(requests := [Calling(tier, Granted, c.k - 1)] + [y]);
    var s2 := s1.(requests := [y]);
    assert Remove(s1.requests, 0) == [y];
    Move(reach, Free, s1, Release(0), s2, c);
    s' := s2.(tiers := s2.tiers - {tier});
    Move(reach, Free, s2, ForgetTier(tier), s', c);
  }

  lemma WrittenLateState(reach: iset<State>, tier: string, c: Setting) returns (s': State)
    requires Closed(reach, Free, c) && Empty() in reach && 1 < c.w && 0 < c.k && 1 < c.limit && 0 < TierLimit(c, tier)
    ensures s' in reach && s'.daily == c.limit - 1 + Product(c.w - 1, c.k) + Product(c.w - 1, c.k) && s'.forgets == 0
  {
    var x, w := Calling(tier, CountedBoth(1, 1), c.k), c.w - 1;
    var s := Unnoticed(Empty(), tier, c.limit - 1).(requests := [x]);
    StoppedLow(reach, c.limit - 1, tier, c);
    PassChecks(reach, Free, s, [x], w, tier, c);
    s' := StoppedHigh(reach, s.(requests := [x] + Waiting(w, tier, c)), [x], w, tier, c);
    var high := High(s, w, tier, c);
    s' := WritesLow(reach, s', Calling(tier, high, 1), tier, c);
    s' := RefillAndWrite(reach, s', high.daily, high.usage, tier, c);
  }

  /** Even if the daily counter is never forgotten: a request that read low and writes late lets new requests pass, and
      one that read high and writes after that puts the old value under their calls. */
  lemma WrittenLate(c: Setting, tier: string) returns (es: seq<Event>)
    requires 1 < c.w && 0 < c.k && 1 < c.limit && 0 < TierLimit(c, tier)
    ensures Run(es, c).forgets == 0 && Run(es, c).daily == c.limit - 1 + (2 * c.w - 2) * c.k
  {
    ReachableClosed(Free, c);
    var s := WrittenLateState(Reachable(Free, c), tier, c);
    TwoProducts(c.w - 1, c.w - 1, 2 * c.w - 2, c.k);
    es := RunTo(s, Free, c);
  }

  /** The ceiling of `limit - 1 + w * k` is kept in all runs exactly when requests do not overlap (or no call can
      be made at all). */
  lemma CeilingKeptIff(c: Setting)
    ensures NothingToCall(c) || c.w <= 1 <==> forall es :: Run(es, c).daily <= Ceiling(c.limit, c)
  {
    if NothingToCall(c) {
      forall es ensures Run(es, c).daily <= Ceiling(c.limit, c) {
        NoCalls(es, c);
        assert 0 <= c.w * c.k;
      }
    } else if c.w <= 1 {
      forall es ensures Run(es, c).daily <= Ceiling(c.limit, c) {
        CountersBounded(es, c, "");
      }
    } else {
      var tier :| 0 < TierLimit(c, tier);
      var es := ForgottenMeanwhile(c, tier);
      Larger(c.w, c.k);
    }
  }

  lemma Larger(w: nat, k: nat)
    requires 1 < w && 0 < k
    ensures w * k < (2 * w - 1) * k
  {
    assert (2 * w - 1) * k == w * k + (w - 1) * k;
  }

  // ---------------------------------------------------------------- lost counts

  /** Two requests suffice to lose a whole limit of calls: one stops when it has read both counters at zero, the
      other and its successors spend the limit, and the first writes a one over it. */
  lemma LimitLost(c: Setting, tier: string)
    requires 1 < c.w && 0 < c.k && 0 < c.limit && 0 < TierLimit(c, tier)
    ensures exists es :: Run(es, c).forgets == 0 && Run(es, c).calls == c.limit + 1 && Run(es, c).daily == 1
  {
    var reach, x := Reachable(Free, c), Calling(tier, CountedBoth(1, 1), c.k);
    ReachableClosed(Free, c);
    StoppedLow(reach, c.limit, tier, c);
    var s := Unnoticed(Empty(), tier, c.limit).(requests := [x]);
    assert [x] + [] == [x];
    WritesLate(reach, s, [], 1, 1, c.k, tier, c);
  }

  /** The daily counter is the number of calls, as long as it is not forgotten, in all runs exactly when requests
      do not overlap (or no call can be made at all). */
  lemma CallsCountedIff(c: Setting)
    ensures NothingToCall(c) || c.w <= 1 <==>
      forall es :: Run(es, c).forgets == 0 ==> Run(es, c).calls == Run(es, c).daily
  {
    if NothingToCall(c) {
      forall es | Run(es, c).forgets == 0 ensures Run(es, c).calls == Run(es, c).daily {
        NoCalls(es, c);
      }
    } else if c.w <= 1 {
      forall es | Run(es, c).forgets == 0 ensures Run(es, c).calls == Run(es, c).daily {
        CallsBounded(es, c);
      }
    } else {
      var tier :| 0 < TierLimit(c, tier);
      LimitLost(c, tier);
    }
  }

  // ---------------------------------------------------------------- forgotten counters

  /** The daily counter is forgotten and a whole limit is spent again. */
  lemma SpendAgain(reach: iset<State>, s: State, tier: string, c: Setting)
    requires Closed(reach, OneWrapper, c) && s in reach && 0 < c.w && 0 < c.k && 0 < c.limit && 0 < TierLimit(c, tier) && s.requests == []
    ensures Unnoticed(s.(daily := 0, forgets := s.forgets + 1), tier, c.limit) in reach
  {
    var s1 := s.(daily := 0, forgets := s.forgets + 1);
    Move(reach, OneWrapper, s, ForgetDaily, s1, c);
    Spend(reach, OneWrapper, s1, [], c.limit, tier, c);
  }

  lemma {:induction false} LimitsSpent(reach: iset<State>, n: nat, tier: string, c: Setting) returns (s: State)
    requires Closed(reach, OneWrapper, c) && Empty() in reach && 0 < c.w && 0 < c.k && 0 < c.limit && 0 < TierLimit(c, tier)
    ensures s in reach && s.requests == [] && s.daily == c.limit && s.forgets == n && s.calls == Product(n + 1, c.limit)
  {
    if n == 0 {
      s := Unnoticed(Empty(), tier, c.limit);
      Spend(reach, OneWrapper, Empty(), [], c.limit, tier, c);
    } else {
      var s1 := LimitsSpent(reach, n - 1, tier, c);
      SpendAgain(reach, s1, tier, c);
      s := Unnoticed(s1.(daily := 0, forgets := s1.forgets + 1), tier, c.limit);
    }
  }

  /** The counter lives in the cache for less than a day.  Each time it is forgotten a whole limit of
      calls can be made again, by one request after another: `n` forgets allow `n + 1` limits. */
  lemma ForgottenCounterOverspends(c: Setting, tier: string, n: nat)
    requires 0 < c.w && 0 < c.k && 0 < c.limit && 0 < TierLimit(c, tier)
    ensures exists es ::
      && Obeys(OneWrapper, es, c) && Run(es, c).forgets == n
      && Run(es, c).daily == c.limit && Run(es, c).calls == (n + 1) * c.limit
  {
    ReachableClosed(OneWrapper, c);
    var s := LimitsSpent(Reachable(OneWrapper, c), n, tier, c);
    ProductIsTimes(n + 1, c.limit);
  }
}
