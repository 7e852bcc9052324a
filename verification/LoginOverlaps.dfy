/** Runs of the login lockout that reach its bounds or, when requests overlap, break them, and with them the
    exact conditions under which the bounds hold. */
module LoginOverlaps {
  import opened TimedStore
  import opened LoginLockout

  // ---------------------------------------------------------------- states that runs reach

  ghost function Reachable(d: Discipline, now: real, ttl: real): iset<State> {
    iset es | Obeys(d, now, es, ttl) :: Run(now, es, ttl)
  }

  ghost predicate Closed(reach: iset<State>, d: Discipline, ttl: real) {
    forall s, e :: s in reach && Allows(d, s, e, Apply(s, e, ttl)) ==> Apply(s, e, ttl) in reach
  }

  lemma ReachableClosed(d: Discipline, now: real, ttl: real)
    ensures Closed(Reachable(d, now, ttl), d, ttl) && Initial(now) in Reachable(d, now, ttl)
  {
    var reach := Reachable(d, now, ttl);
    forall s, e | s in reach && Allows(d, s, e, Apply(s, e, ttl)) ensures Apply(s, e, ttl) in reach {
      var es :| Obeys(d, now, es, ttl) && Run(now, es, ttl) == s;
      assert (es + [e])[..|es|] == es;
      assert Obeys(d, now, es + [e], ttl) && Run(now, es + [e], ttl) == Apply(s, e, ttl);
    }
    assert Obeys(d, now, [], ttl) && Run(now, [], ttl) == Initial(now);
  }

  lemma RunTo(s: State, d: Discipline, now: real, ttl: real) returns (es: seq<Event>)
    requires s in Reachable(d, now, ttl)
    ensures Obeys(d, now, es, ttl) && Run(now, es, ttl) == s
  {
    es :| Obeys(d, now, es, ttl) && Run(now, es, ttl) == s;
  }

  lemma Move(reach: iset<State>, d: Discipline, s: State, e: Event, s': State, ttl: real)
    requires Closed(reach, d, ttl) && s in reach && Apply(s, e, ttl) == s' && Allows(d, s, e, s')
    ensures s' in reach
  {}

  /** `p` passwords may be looked at at a time. */
  predicate Room(d: Discipline, p: nat) {
    match d
    case InFlight(m) => p <= m
    case Apart(k) => p <= k
    case OneLogin => p <= 1
  }

  // ---------------------------------------------------------------- failures at one instant

  function Copies(n: nat, now: real): seq<real> { seq(n, _ => now) }

  /** The state after `n` more failed logins at one instant, with `p` passwords being looked at. */
  function After(f: seq<real>, n: nat, p: nat, now: real, ttl: real): State {
    State(now,
          Cache(if n == 0 then None else Some(Entry(n, now + ttl)),
                if n < 5 then None else Some(Entry(now + LOCKOUT_TIME, now + ttl))),
          p, [], f + Copies(n, now))
  }

  lemma PostOne(reach: iset<State>, d: Discipline, f: seq<real>, n: nat, p: nat, now: real, ttl: real)
    requires Closed(reach, d, ttl) && After(f, n, p, now, ttl) in reach && n < 5 && Room(d, p + 1)
    ensures After(f, n, p + 1, now, ttl) in reach
  {
    Move(reach, d, After(f, n, p, now, ttl), Start(true), After(f, n, p + 1, now, ttl), ttl);
  }

  /** The state while the next failure is being counted. */
  function Counting(f: seq<real>, n: nat, p: nat, stage: Stage, now: real, ttl: real): State {
    After(f, n, p, now, ttl).(busy := [stage], failures := f + Copies(n + 1, now))
  }

  lemma Answered(f: seq<real>, n: nat, p: nat, now: real, ttl: real)
    requires 0 < p
    ensures Apply(After(f, n, p, now, ttl), Answer(false), ttl) == Counting(f, n, p - 1, Failed, now, ttl)
  {
    assert Copies(n, now) + [now] == Copies(n + 1, now);
    assert f + Copies(n, now) + [now] == f + (Copies(n, now) + [now]);
  }

  lemma FailOne(reach: iset<State>, d: Discipline, f: seq<real>, n: nat, p: nat, now: real, ttl: real)
    requires Closed(reach, d, ttl) && After(f, n, p, now, ttl) in reach && 0 < p && Room(d, p)
    ensures Counting(f, n, p - 1, Failed, now, ttl) in reach
  {
    var s := Counting(f, n, p - 1, Failed, now, ttl);
    Answered(f, n, p, now, ttl);
    assert Logins(s.busy) == 1;
    Move(reach, d, After(f, n, p, now, ttl), Answer(false), s, ttl);
  }

  /** The single busy request goes on. */
  lemma Goes1(reach: iset<State>, d: Discipline, s: State, c: Cache, stage: Stage, ttl: real)
    requires Closed(reach, d, ttl) && s in reach && |s.busy| == 1 && Advance(s.cache, s.busy[0], s.now, ttl) == (c, Goes(stage))
    requires Allows(d, s, Step(0), s.(cache := c, busy := [stage]))
    ensures s.(cache := c, busy := [stage]) in reach
  {
    assert s.busy[0 := stage] == [stage];
    Move(reach, d, s, Step(0), s.(cache := c, busy := [stage]), ttl);
  }

  lemma Ends1(reach: iset<State>, d: Discipline, s: State, c: Cache, ttl: real)
    requires Closed(reach, d, ttl) && s in reach && |s.busy| == 1 && Advance(s.cache, s.busy[0], s.now, ttl) == (c, Ends)
    requires Allows(d, s, Step(0), s.(cache := c, busy := []))
    ensures s.(cache := c, busy := []) in reach
  {
    assert Remove(s.busy, 0) == [];
    Move(reach, d, s, Step(0), s.(cache := c, busy := []), ttl);
  }

  lemma CountOne(reach: iset<State>, d: Discipline, f: seq<real>, n: nat, p: nat, now: real, ttl: real)
    requires Closed(reach, d, ttl) && Counting(f, n, p, Failed, now, ttl) in reach && Room(d, p + 1)
    ensures After(f, n + 1, p, now, ttl) in reach
  {
    var s1 := Counting(f, n, p, Failed, now, ttl);
    var s2 := s1.(busy := [Counted(n + 1)]);
    var c := s1.cache.(attempts := Some(Entry(n + 1, now + ttl)));
    assert Logins(s2.busy) == 1;
    Goes1(reach, d, s1, s1.cache, Counted(n + 1), ttl);
    if n + 1 < 5 {
      Ends1(reach, d, s2, c, ttl);
    } else {
      var s3 := s2.(cache := c, busy := [MustLock]);
      var s4 := s3.(busy := [Locking(now + LOCKOUT_TIME)]);
      assert Logins(s3.busy) == 1 && Logins(s4.busy) == 1;
      Goes1(reach, d, s2, c, MustLock, ttl);
      Goes1(reach, d, s3, c, Locking(now + LOCKOUT_TIME), ttl);
      Ends1(reach, d, s4, c.(lockout := Some(Entry(now + LOCKOUT_TIME, now + ttl))), ttl);
    }
  }

  /** `j` more logins pass the check and then all of them fail, one after the other. */
  lemma Burst(reach: iset<State>, d: Discipline, f: seq<real>, n: nat, j: nat, now: real, ttl: real)
    requires Closed(reach, d, ttl) && After(f, n, 0, now, ttl) in reach && n < 5 && Room(d, j)
    ensures After(f, n + j, 0, now, ttl) in reach
  {
    PostAll(reach, d, f, n, j, now, ttl);
    FailAll(reach, d, f, n, j, now, ttl);
  }

  lemma {:induction false} PostAll(reach: iset<State>, d: Discipline, f: seq<real>, n: nat, j: nat, now: real, ttl: real)
    requires Closed(reach, d, ttl) && After(f, n, 0, now, ttl) in reach && n < 5 && Room(d, j)
    ensures After(f, n, j, now, ttl) in reach
  {
    if j > 0 {
      PostAll(reach, d, f, n, j - 1, now, ttl);
      PostOne(reach, d, f, n, j - 1, now, ttl);
    }
  }

  lemma {:induction false} FailAll(reach: iset<State>, d: Discipline, f: seq<real>, n: nat, j: nat, now: real, ttl: real)
    requires Closed(reach, d, ttl) && After(f, n, j, now, ttl) in reach && Room(d, j)
    ensures After(f, n + j, 0, now, ttl) in reach
    decreases j
  {
    if j > 0 {
      FailOne(reach, d, f, n, j, now, ttl);
      CountOne(reach, d, f, n, j - 1, now, ttl);
      FailAll(reach, d, f, n + 1, j - 1, now, ttl);
    }
  }

  /** Four failures one by one and `k` more together. */
  lemma FourAndMore(reach: iset<State>, d: Discipline, f: seq<real>, k: nat, now: real, ttl: real)
    requires Closed(reach, d, ttl) && After(f, 0, 0, now, ttl) in reach && 0 < k && Room(d, k)
    ensures After(f, 4 + k, 0, now, ttl) in reach
  {
    Burst(reach, d, f, 0, 1, now, ttl);
    Burst(reach, d, f, 1, 1, now, ttl);
    Burst(reach, d, f, 2, 1, now, ttl);
    Burst(reach, d, f, 3, 1, now, ttl);
    Burst(reach, d, f, 4, k, now, ttl);
  }

  lemma InitialIsAfter(now: real, ttl: real)
    ensures Initial(now) == After([], 0, 0, now, ttl)
  {
    assert [] + Copies(0, now) == [];
  }

  // ---------------------------------------------------------------- after a wait

  /** A check that finds the lockout over clears both entries and passes. */
  lemma CheckPasses(reach: iset<State>, d: Discipline, s: State, until: real, ttl: real)
    requires Closed(reach, d, ttl) && s in reach && s.busy == [] && s.pending == 0 && Room(d, 1) && !d.OneLogin?
    requires Attempts(s.cache) >= 5 && s.cache.lockout.Some? && s.cache.lockout.value.value == until
    requires until != 0.0 && until - s.now < 1.0
    ensures s.(cache := Cache(None, None), pending := 1) in reach
  {
    var s1 := s.(busy := [SawLimit(true)]);
    assert s.busy + [SawLimit(true)] == s1.busy;
    Move(reach, d, s, Start(true), s1, ttl);
    Goes1(reach, d, s1, s.cache, SawLockout(true, until), ttl);
    Goes1(reach, d, s1.(busy := [SawLockout(true, until)]), s.cache, Clearing(true), ttl);
    var c := s.cache.(attempts := None);
    Goes1(reach, d, s1.(busy := [Clearing(true)]), c, ClearingLockout(true), ttl);
    var s2 := s1.(cache := c, busy := [ClearingLockout(true)]);
    assert Remove(s2.busy, 0) == [];
    Move(reach, d, s2, Step(0), s.(cache := Cache(None, None), pending := 1), ttl);
  }

  /** After `4 + k` failures and a wait of `gap`, in which the counter may be forgotten, one more password is
      looked at and found wrong. */
  lemma WaitedFailure(reach: iset<State>, d: Discipline, k: nat, gap: real, forget: bool, now: real, ttl: real)
    returns (s': State)
    requires Closed(reach, d, ttl) && Initial(now) in reach
    requires 0.0 <= now && 0.0 <= gap && 0 < k && Room(d, k) && !d.OneLogin?
    requires if forget then ttl <= gap else 299.0 < gap
    ensures s' in reach && s'.failures == Copies(4 + k, now) + [now + gap]
  {
    InitialIsAfter(now, ttl);
    FourAndMore(reach, d, [], k, now, ttl);
    var s := After([], 4 + k, 0, now, ttl);
    var s1 := s.(now := now + gap);
    assert s.failures == Copies(4 + k, now);
    Move(reach, d, s, Tick(gap), s1, ttl);
    s' := LastFails(reach, d, s1, forget, ttl);
  }

  lemma WaitAndFail(d: Discipline, k: nat, gap: real, forget: bool, now: real, ttl: real) returns (es: seq<Event>)
    requires 0.0 <= now && 0.0 <= gap && 0 < k && Room(d, k) && !d.OneLogin?
    requires if forget then ttl <= gap else 299.0 < gap
    ensures Obeys(d, now, es, ttl) && Run(now, es, ttl).failures == Copies(4 + k, now) + [now + gap]
  {
    ReachableClosed(d, now, ttl);
    var s := WaitedFailure(Reachable(d, now, ttl), d, k, gap, forget, now, ttl);
    es := RunTo(s, d, now, ttl);
  }

  lemma LastFails(reach: iset<State>, d: Discipline, s: State, forget: bool, ttl: real) returns (s': State)
    requires Closed(reach, d, ttl) && s in reach && s.busy == [] && s.pending == 0 && Room(d, 1) && !d.OneLogin?
    requires s.cache.attempts.Some? && s.cache.lockout.Some? && s.cache.lockout.value.value > 0.0 && Attempts(s.cache) >= 5
    requires if forget then s.cache.attempts.value.expires <= s.now else s.cache.lockout.value.value - s.now < 1.0
    ensures s' in reach && s'.failures == s.failures + [s.now]
  {
    var s1: State;
    if forget {
      var s0 := s.(cache := s.cache.(attempts := None));
      s1 := s0.(pending := 1);
      Move(reach, d, s, ForgetAttempts, s0, ttl);
      Move(reach, d, s0, Start(true), s1, ttl);
    } else {
      CheckPasses(reach, d, s, s.cache.lockout.value.value, ttl);
      s1 := s.(cache := Cache(None, None), pending := 1);
    }
    s' := s1.(pending := 0, busy := [Failed], failures := s.failures + [s.now]);
    assert s1.busy + [Failed] == s'.busy;
    Move(reach, d, s1, Answer(false), s', ttl);
  }

  // ---------------------------------------------------------------- exact conditions

  lemma {:induction false} NoLogins(d: Discipline, now: real, es: seq<Event>, ttl: real)
    requires Obeys(d, now, es, ttl) && (d == Apart(0) || d == InFlight(0))
    ensures Run(now, es, ttl).pending == 0 && Run(now, es, ttl).failures == []
  {
    if es != [] {
      NoLogins(d, now, es[..|es| - 1], ttl);
    }
  }

  /** The bound of `5 + k` failures holds in all runs with at most `k` passwords looked at at a time and
      undivided checks and outcomes exactly when entries live longer than 299 seconds (or `k` is 0). */
  lemma BoundHoldsIffTtl(now: real, k: nat, ttl: real)
    requires 0.0 <= now
    ensures k == 0 || ttl > 299.0 <==> forall es :: Obeys(Apart(k), now, es, ttl) ==> Spread(Run(now, es, ttl).failures, k)
  {
    if k == 0 {
      forall es | Obeys(Apart(k), now, es, ttl) ensures Spread(Run(now, es, ttl).failures, k) {
        NoLogins(Apart(0), now, es, ttl);
      }
    } else if ttl > 299.0 {
      forall es | Obeys(Apart(k), now, es, ttl) ensures Spread(Run(now, es, ttl).failures, k) {
        RunInv(now, es, k, ttl);
      }
    } else {
      var es := ForgottenInTime(Apart(k), k, now, ttl);
    }
  }

  /** Short-lived entries let `5 + k` failures happen within 299 seconds. */
  lemma ForgottenInTime(d: Discipline, k: nat, now: real, ttl: real) returns (es: seq<Event>)
    requires 0.0 <= now && 0 < k && Room(d, k) && !d.OneLogin? && ttl <= 299.0
    ensures Obeys(d, now, es, ttl) && !Spread(Run(now, es, ttl).failures, k)
  {
    var gap := if ttl < 0.0 then 0.0 else ttl;
    es := WaitAndFail(d, k, gap, true, now, ttl);
    var f := Run(now, es, ttl).failures;
    assert f[0 + 4 + k] - f[0] == gap;
  }

  /** Two passwords looked at together let six failures happen at once. */
  lemma SixAtOnce(d: Discipline, now: real, ttl: real) returns (es: seq<Event>)
    requires Room(d, 2)
    ensures Obeys(d, now, es, ttl) && !Spread(Run(now, es, ttl).failures, 1)
  {
    ReachableClosed(d, now, ttl);
    InitialIsAfter(now, ttl);
    FourAndMore(Reachable(d, now, ttl), d, [], 2, now, ttl);
    var f := After([], 6, 0, now, ttl).failures;
    assert f[0 + 4 + 1] - f[0] == 0.0;
    es := RunTo(After([], 6, 0, now, ttl), d, now, ttl);
  }

  /** Six failures span more than 299 seconds in all runs with at most `m` requests in flight, page views
      included, exactly when requests do not overlap and entries live longer than that (or there are no
      requests). */
  lemma SixFailureBoundIff(now: real, m: nat, ttl: real)
    requires 0.0 <= now
    ensures m == 0 || (m == 1 && ttl > 299.0) <==>
      forall es :: Obeys(InFlight(m), now, es, ttl) ==> Spread(Run(now, es, ttl).failures, 1)
  {
    if m == 0 {
      forall es | Obeys(InFlight(m), now, es, ttl) ensures Spread(Run(now, es, ttl).failures, 1) {
        NoLogins(InFlight(0), now, es, ttl);
      }
    } else if m == 1 && ttl > 299.0 {
      forall es | Obeys(InFlight(m), now, es, ttl) ensures Spread(Run(now, es, ttl).failures, 1) {
        OneIsApart(now, es, ttl);
        RunInv(now, es, 1, ttl);
      }
    } else if m == 1 {
      var es := ForgottenInTime(InFlight(m), 1, now, ttl);
    } else {
      var es := SixAtOnce(InFlight(m), now, ttl);
    }
  }

  /** The same where checks and outcomes are undivided: exactly when only one password is looked at at a time
      and entries live long enough. */
  lemma SixFailureBoundApartIff(now: real, k: nat, ttl: real)
    requires 0.0 <= now
    ensures k == 0 || (k == 1 && ttl > 299.0) <==>
      forall es :: Obeys(Apart(k), now, es, ttl) ==> Spread(Run(now, es, ttl).failures, 1)
  {
    if k == 0 {
      forall es | Obeys(Apart(k), now, es, ttl) ensures Spread(Run(now, es, ttl).failures, 1) {
        NoLogins(Apart(0), now, es, ttl);
      }
    } else if k == 1 {
      BoundHoldsIffTtl(now, 1, ttl);
    } else {
      var es := SixAtOnce(Apart(k), now, ttl);
    }
  }

  /** The bounds cannot be improved for any `k`: `int` cuts the last second off the lockout, and all passwords
      looked at together can be wrong. */
  lemma BoundIsSharp(now: real, gap: real, k: nat, ttl: real)
    requires 0.0 <= now && 299.0 < gap && k > 0
    ensures exists es ::
      Obeys(Apart(k), now, es, ttl) && Run(now, es, ttl).failures == Copies(4 + k, now) + [now + gap]
    ensures exists es ::
      Obeys(InFlight(1), now, es, ttl) && Run(now, es, ttl).failures == Copies(5, now) + [now + gap]
  {
    var es := WaitAndFail(Apart(k), k, gap, false, now, ttl);
    var fs := WaitAndFail(InFlight(1), 1, gap, false, now, ttl);
  }

  /** Without a limit on the requests in flight there is none on the failures. */
  lemma OverlappingRequests(now: real, n: nat, ttl: real)
    ensures exists es :: Obeys(InFlight(n), now, es, ttl) && Run(now, es, ttl).failures == Copies(n, now)
  {
    var d := InFlight(n);
    ReachableClosed(d, now, ttl);
    InitialIsAfter(now, ttl);
    Burst(Reachable(d, now, ttl), d, [], 0, n, now, ttl);
    assert After([], n, 0, now, ttl).failures == Copies(n, now);
  }

  // ---------------------------------------------------------------- lost counts

  /** A round of failures being counted: the counter is at `r`, `p` passwords are looked at. */
  function Round(r: nat, p: nat, busy: seq<Stage>, f: nat, now: real, ttl: real): State {
    State(now, Cache(if r == 0 then None else Some(Entry(r, now + ttl)), None), p, busy, Copies(f, now))
  }

  function Stages(n: nat, stage: Stage): seq<Stage> { seq(n, _ => stage) }

  lemma {:induction false} RoundPosts(reach: iset<State>, r: nat, f: nat, p: nat, k: nat, now: real, ttl: real)
    requires Closed(reach, InFlight(k), ttl) && Round(r, 0, [], f, now, ttl) in reach && r < 5 && p <= k
    ensures Round(r, p, [], f, now, ttl) in reach
  {
    if p > 0 {
      RoundPosts(reach, r, f, p - 1, k, now, ttl);
      Move(reach, InFlight(k), Round(r, p - 1, [], f, now, ttl), Start(true), Round(r, p, [], f, now, ttl), ttl);
    }
  }

  /** All of them fail, and none is counted yet. */
  lemma {:induction false} RoundFails(reach: iset<State>, r: nat, f: nat, j: nat, k: nat, now: real, ttl: real)
    requires Closed(reach, InFlight(k), ttl) && Round(r, k, [], f, now, ttl) in reach && j <= k
    ensures Round(r, k - j, Stages(j, Failed), f + j, now, ttl) in reach
  {
    if j == 0 {
      assert Stages(0, Failed) == [];
    } else {
      RoundFails(reach, r, f, j - 1, k, now, ttl);
      var s := Round(r, k - j + 1, Stages(j - 1, Failed), f + j - 1, now, ttl);
      var s' := Round(r, k - j, Stages(j, Failed), f + j, now, ttl);
      assert s.busy + [Failed] == s'.busy && s.failures + [now] == s'.failures;
      Move(reach, InFlight(k), s, Answer(false), s', ttl);
    }
  }

  /** All of them read the same count. */
  lemma {:induction false} RoundReads(reach: iset<State>, r: nat, f: nat, j: nat, k: nat, now: real, ttl: real)
    requires Closed(reach, InFlight(k), ttl) && Round(r, 0, Stages(k, Failed), f, now, ttl) in reach && j <= k
    ensures Round(r, 0, Stages(j, Counted(r + 1)) + Stages(k - j, Failed), f, now, ttl) in reach
  {
    if j == 0 {
      assert Stages(0, Counted(r + 1)) + Stages(k, Failed) == Stages(k, Failed);
    } else {
      RoundReads(reach, r, f, j - 1, k, now, ttl);
      var s := Round(r, 0, Stages(j - 1, Counted(r + 1)) + Stages(k - j + 1, Failed), f, now, ttl);
      var s' := Round(r, 0, Stages(j, Counted(r + 1)) + Stages(k - j, Failed), f, now, ttl);
      assert s.busy[j - 1] == Failed && s.busy[j - 1 := Counted(r + 1)] == s'.busy;
      Move(reach, InFlight(k), s, Step(j - 1), s', ttl);
    }
  }

  /** And all of them write it, raised by one. */
  lemma {:induction false} RoundWrites(reach: iset<State>, c: nat, r: nat, f: nat, j: nat, k: nat, now: real, ttl: real)
    requires Closed(reach, InFlight(k), ttl) && j <= k && r + 1 < 5 && c in {r, r + 1}
    requires Round(c, 0, Stages(j, Counted(r + 1)), f, now, ttl) in reach
    ensures Round(if j == 0 then c else r + 1, 0, [], f, now, ttl) in reach
    decreases j
  {
    if j == 0 {
      assert Stages(0, Counted(r + 1)) == [];
    } else {
      var s := Round(c, 0, Stages(j, Counted(r + 1)), f, now, ttl);
      var s' := Round(r + 1, 0, Stages(j - 1, Counted(r + 1)), f, now, ttl);
      assert s.busy[0] == Counted(r + 1) && Remove(s.busy, 0) == s'.busy;
      Move(reach, InFlight(k), s, Step(0), s', ttl);
      RoundWrites(reach, r + 1, r, f, j - 1, k, now, ttl);
    }
  }

  lemma {:induction false} Rounds(reach: iset<State>, r: nat, k: nat, now: real, ttl: real)
    requires Closed(reach, InFlight(k), ttl) && Initial(now) in reach && r < 5 && 0 < k
    ensures Round(r, 0, [], r * k, now, ttl) in reach
  {
    if r == 0 {
      assert Copies(0, now) == [];
    } else {
      var f := (r - 1) * k;
      Rounds(reach, r - 1, k, now, ttl);
      RoundPosts(reach, r - 1, f, k, k, now, ttl);
      RoundFails(reach, r - 1, f, k, k, now, ttl);
      RoundReads(reach, r - 1, f + k, k, k, now, ttl);
      assert Stages(k, Counted(r)) + Stages(0, Failed) == Stages(k, Counted(r));
      RoundWrites(reach, r - 1, r - 1, f + k, k, k, now, ttl);
      assert f + k == r * k;
    }
  }

  /** With `k` requests in flight counts get lost: in each of five rounds all `k` logins read the same count and
      write the same next one, so that `5k` failures happen at one instant, more than the `4 + k` that
      undivided outcomes would allow. */
  lemma CountsLost(now: real, k: nat, ttl: real)
    requires 0 < k
    ensures exists es :: Obeys(InFlight(k), now, es, ttl) && Run(now, es, ttl).failures == Copies(5 * k, now)
  {
    var reach := Reachable(InFlight(k), now, ttl);
    ReachableClosed(InFlight(k), now, ttl);
    Rounds(reach, 4, k, now, ttl);
    RoundPosts(reach, 4, 4 * k, k, k, now, ttl);
    RoundFails(reach, 4, 4 * k, k, k, now, ttl);
    assert Round(4, 0, Stages(k, Failed), 5 * k, now, ttl) in reach;
  }

  // ---------------------------------------------------------------- a page view that forgets

  /** Five failures, and when their lockout is over a page view that has seen so and is about to clear it. */
  function Stalled(now: real, ttl: real): State {
    After([], 5, 0, now, ttl).(now := now + LOCKOUT_TIME, busy := [Clearing(false)])
  }

  /** The page view alone. */
  lemma PageViewLooks(reach: iset<State>, s: State, until: real, ttl: real)
    requires Closed(reach, OneLogin, ttl) && s in reach && s.busy == [] && s.pending == 0
    requires Attempts(s.cache) >= 5 && s.cache.lockout.Some? && s.cache.lockout.value.value == until == s.now != 0.0
    ensures s.(busy := [Clearing(false)]) in reach
  {
    var s1, s2 := s.(busy := [SawLimit(false)]), s.(busy := [SawLockout(false, until)]);
    assert s.busy + [SawLimit(false)] == s1.busy;
    assert Logins(s1.busy) == 0 && Logins(s2.busy) == 0 && Logins([Clearing(false)]) == 0;
    Move(reach, OneLogin, s, Start(false), s1, ttl);
    Goes1(reach, OneLogin, s1, s.cache, SawLockout(false, until), ttl);
    Goes1(reach, OneLogin, s2, s.cache, Clearing(false), ttl);
  }

  lemma PageViewStalls(reach: iset<State>, now: real, ttl: real)
    requires Closed(reach, OneLogin, ttl) && Initial(now) in reach && 0.0 <= now
    ensures Stalled(now, ttl) in reach
  {
    InitialIsAfter(now, ttl);
    FourAndMore(reach, OneLogin, [], 1, now, ttl);
    var s := After([], 5, 0, now, ttl);
    var s1 := s.(now := now + LOCKOUT_TIME);
    assert Logins(s1.busy) == 0;
    Move(reach, OneLogin, s, Tick(LOCKOUT_TIME), s1, ttl);
    PageViewLooks(reach, s1, now + LOCKOUT_TIME, ttl);
  }

  /** A step of a login beside the stalled page view. */
  lemma Beside(reach: iset<State>, s: State, c: Cache, x: Stage, y: Stage, ttl: real)
    requires Closed(reach, OneLogin, ttl) && s in reach && s.pending == 0 && s.busy == [Clearing(false), x]
    requires Advance(s.cache, x, s.now, ttl) == (c, Goes(y))
    ensures s.(cache := c, busy := [Clearing(false), y]) in reach
  {
    var s' := s.(cache := c, busy := [Clearing(false), y]);
    assert s.busy[1 := y] == s'.busy;
    OneBeside(y);
    Move(reach, OneLogin, s, Step(1), s', ttl);
  }

  lemma OneBeside(y: Stage)
    ensures Logins([Clearing(false), y]) <= 1 && Logins([Clearing(false)]) == 0
  {
    assert [Clearing(false), y][..1] == [Clearing(false)] && [Clearing(false)][..0] == [];
  }

  /** A login clears the entries itself, fails and is counted. */
  lemma LoginBeside(reach: iset<State>, now: real, ttl: real)
    requires Closed(reach, OneLogin, ttl) && Stalled(now, ttl) in reach && 0.0 <= now
    ensures
      var t := now + LOCKOUT_TIME;
      State(t, Cache(Some(Entry(1, t + ttl)), None), 0, [Clearing(false)], Copies(5, now) + [t]) in reach
  {
    var s, t, v := Stalled(now, ttl), now + LOCKOUT_TIME, Clearing(false);
    var s1 := s.(busy := [v, SawLimit(true)]);
    var c := s.cache.(attempts := None);
    assert s.busy + [SawLimit(true)] == s1.busy;
    assert s.failures == Copies(5, now);
    OneBeside(SawLimit(true));
    Move(reach, OneLogin, s, Start(true), s1, ttl);
    Beside(reach, s1, s.cache, SawLimit(true), SawLockout(true, t), ttl);
    Beside(reach, s1.(busy := [v, SawLockout(true, t)]), s.cache, SawLockout(true, t), Clearing(true), ttl);
    Beside(reach, s1.(busy := [v, Clearing(true)]), c, Clearing(true), ClearingLockout(true), ttl);
    var s2 := s1.(cache := c, busy := [v, ClearingLockout(true)]);
    var s3 := s.(cache := Cache(None, None), pending := 1);
    assert Remove(s2.busy, 1) == [v];
    Move(reach, OneLogin, s2, Step(1), s3, ttl);
    LoginFailsBeside(reach, s3, t, ttl);
  }

  lemma LoginFailsBeside(reach: iset<State>, s: State, t: real, ttl: real)
    requires Closed(reach, OneLogin, ttl) && s in reach && s.now == t
    requires s.cache == Cache(None, None) && s.pending == 1 && s.busy == [Clearing(false)]
    ensures s.(cache := Cache(Some(Entry(1, t + ttl)), None), pending := 0, failures := s.failures + [t]) in reach
  {
    var v := Clearing(false);
    var s1 := s.(pending := 0, busy := [v, Failed], failures := s.failures + [t]);
    var s2 := s1.(busy := [v, Counted(1)]);
    assert s.busy + [Failed] == s1.busy;
    OneBeside(Failed);
    Move(reach, OneLogin, s, Answer(false), s1, ttl);
    Beside(reach, s1, s1.cache, Failed, Counted(1), ttl);
    assert Remove(s2.busy, 1) == [v];
    Move(reach, OneLogin, s2, Step(1), s2.(cache := Cache(Some(Entry(1, t + ttl)), None), busy := [v]), ttl);
  }

  /** A page view is enough to break the bound of six: it reads that the lockout is over and pauses; a login
      clears the entries and fails; the page view's own two deletions then forget that failure, and five more
      logins fail.  No two logins overlap, and six failures happen at one instant. */
  lemma PageViewForgetsFailure(now: real, ttl: real)
    requires 0.0 <= now
    ensures exists es :: Obeys(OneLogin, now, es, ttl) && Run(now, es, ttl).failures == Copies(5, now) + Copies(6, now + 300.0)
  {
    var reach, t := Reachable(OneLogin, now, ttl), now + LOCKOUT_TIME;
    ReachableClosed(OneLogin, now, ttl);
    PageViewStalls(reach, now, ttl);
    LoginBeside(reach, now, ttl);
    var f := Copies(5, now) + [t];
    var s := State(t, Cache(Some(Entry(1, t + ttl)), None), 0, [Clearing(false)], f);
    assert Logins([ClearingLockout(false)]) == 0 && Logins([]) == 0;
    Goes1(reach, OneLogin, s, Cache(None, None), ClearingLockout(false), ttl);
    Ends1(reach, OneLogin, s.(cache := Cache(None, None), busy := [ClearingLockout(false)]), Cache(None, None), ttl);
    assert f + Copies(0, t) == f;
    FourAndMore(reach, OneLogin, f, 1, t, ttl);
    assert f + Copies(5, t) == Copies(5, now) + Copies(6, t);
  }
}
