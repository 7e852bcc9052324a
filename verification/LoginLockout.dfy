/** The login lockout of one IP address: an attempts counter and a lockout time in the cache.  Requests are
    cut at every access to the cache and at every reading of the clock, and all of them interleave.  The
    cache is one that all processes share; it answers every request, is not cleared, and keeps an entry at
    least for its time to live. */
module LoginLockout {
  import opened TimedStore

  const MAX_LOGIN_ATTEMPTS := 5
  const LOCKOUT_TIME := 300.0

  /** The two cache keys of the address.  An entry is certain to be there until it expires; after
      that the cache may go on answering it until it forgets it. */
  datatype Cache = Cache(attempts: Option<Entry<int>>, lockout: Option<Entry<real>>)

  function Attempts(c: Cache): int { if c.attempts.Some? then c.attempts.value.value else 0 }

  // ---------------------------------------------------------------- whole calls

  datatype Verdict = Allowed | Denied(timeLeft: int)

  /** An uninterrupted check. */
  function CheckRateLimit(c: Cache, now: real, ttl: real): (Cache, Verdict) {
    if Attempts(c) < MAX_LOGIN_ATTEMPTS then (c, Allowed)
    else if c.lockout.Some? && c.lockout.value.value != 0.0 then
      var timeLeft := Truncate(c.lockout.value.value - now);
      if timeLeft > 0 then (c, Denied(timeLeft)) else (Cache(None, None), Allowed)
    else
      (c.(lockout := Some(Entry(now + LOCKOUT_TIME, now + ttl))), Denied(300))
  }

  function IncrementFailedAttempt(c: Cache, now: real, ttl: real): Cache {
    var n := Attempts(c) + 1;
    var c' := c.(attempts := Some(Entry(n, now + ttl)));
    if n >= MAX_LOGIN_ATTEMPTS then c'.(lockout := Some(Entry(now + LOCKOUT_TIME, now + ttl))) else c'
  }

  /** A lockout counts down in whole seconds: `n` seconds are left until `n` is down to nothing, which it is a
      second before the end. */
  lemma DeniedUntil(c: Cache, now: real, ttl: real, until: real)
    requires Attempts(c) >= 5 && c.lockout.Some? && c.lockout.value.value == until != 0.0
    ensures
      var (c', verdict) := CheckRateLimit(c, now, ttl);
      && (until - now < 1.0 ==> c' == Cache(None, None) && verdict == Allowed)
      && (until - now >= 1.0 ==>
            && c' == c && verdict.Denied? && verdict.timeLeft >= 1
            && verdict.timeLeft as real <= until - now < verdict.timeLeft as real + 1.0)
  {}

  /** From the fifth failure on an address is locked out for 299 to 300 seconds: a check `d` seconds later tells it
      how many of the 300 are left, and the first one after 299 seconds lets it in and forgets everything. */
  lemma LockedOut(c: Cache, failed: real, d: real, ttl: real)
    requires Attempts(c) >= 4 && failed + 300.0 != 0.0
    ensures
      var (c', verdict) := CheckRateLimit(IncrementFailedAttempt(c, failed, ttl), failed + d, ttl);
      && (d > 299.0 ==> c' == Cache(None, None) && verdict == Allowed)
      && (d <= 299.0 ==>
            && c' == IncrementFailedAttempt(c, failed, ttl) && Attempts(c') == Attempts(c) + 1
            && verdict.Denied? && verdict.timeLeft as real <= 300.0 - d < verdict.timeLeft as real + 1.0)
  {}

  /** Up to four failures lock nobody out; five without a lockout time, which can have been forgotten, start a new
      lockout of 300 seconds. */
  lemma NotLockedOut(c: Cache, now: real, ttl: real)
    ensures Attempts(c) < 5 ==> CheckRateLimit(c, now, ttl) == (c, Allowed)
    ensures Attempts(c) < 4 ==> IncrementFailedAttempt(c, now, ttl) == c.(attempts := Some(Entry(Attempts(c) + 1, now + ttl)))
    ensures Attempts(c) >= 5 && (c.lockout == None || c.lockout.value.value == 0.0) ==>
      CheckRateLimit(c, now, ttl) == (c.(lockout := Some(Entry(now + 300.0, now + ttl))), Denied(300))
  {}

  // ---------------------------------------------------------------- requests step by step

  /** What a request has done and read so far.  A page view checks like a login (`post`), but ends with it. */
  datatype Stage =
    | SawLimit(post: bool)
    | SawLockout(post: bool, until: real)
    | Unlocked(post: bool)
    | Arming(post: bool, until: real)
    | Clearing(post: bool)
    | ClearingLockout(post: bool)
    | Failed
    | Counted(n: int)
    | MustLock
    | Locking(until: real)
    | Resetting
    | ResettingLockout

  datatype Next = Goes(stage: Stage) | Passes | Ends

  /** `pending` logins passed the check and have their password looked at; `busy` are the requests in the
      middle of a check, of counting a failure or of resetting.  `failures` are the instants at which
      passwords were found wrong since the last right one. */
  datatype State = State(now: real, cache: Cache, pending: nat, busy: seq<Stage>, failures: seq<real>)

  /** `Start` reads the count; `Answer` is the verdict about a password; `Step` is the next action of a
      request in the middle of something. */
  datatype Event =
    | Tick(elapsed: real)
    | Start(post: bool)
    | Answer(ok: bool)
    | Step(i: nat)
    | ForgetAttempts
    | ForgetLockout

  function Advance(c: Cache, stage: Stage, now: real, ttl: real): (Cache, Next) {
    match stage
    case SawLimit(post) =>
      (c, Goes(if c.lockout.Some? && c.lockout.value.value != 0.0 then SawLockout(post, c.lockout.value.value) else Unlocked(post)))
    case SawLockout(post, until) => if Truncate(until - now) > 0 then (c, Ends) else (c, Goes(Clearing(post)))
    case Unlocked(post) => (c, Goes(Arming(post, now + LOCKOUT_TIME)))
    case Arming(_, until) => (c.(lockout := Some(Entry(until, now + ttl))), Ends)
    case Clearing(post) => (c.(attempts := None), Goes(ClearingLockout(post)))
    case ClearingLockout(post) => (c.(lockout := None), if post then Passes else Ends)
    case Failed => (c, Goes(Counted(Attempts(c) + 1)))
    case Counted(n) => (c.(attempts := Some(Entry(n, now + ttl))), if n >= MAX_LOGIN_ATTEMPTS then Goes(MustLock) else Ends)
    case MustLock => (c, Goes(Locking(now + LOCKOUT_TIME)))
    case Locking(until) => (c.(lockout := Some(Entry(until, now + ttl))), Ends)
    case Resetting => (c.(attempts := None), Goes(ResettingLockout))
    case ResettingLockout => (c.(lockout := None), Ends)
  }

  function Remove(busy: seq<Stage>, i: nat): seq<Stage>
    requires i < |busy|
  {
    busy[..i] + busy[i + 1..]
  }

  function StepRequest(s: State, i: nat, ttl: real): State
    requires i < |s.busy|
  {
    var (c, next) := Advance(s.cache, s.busy[i], s.now, ttl);
    match next
    case Goes(stage) => s.(cache := c, busy := s.busy[i := stage])
    case Passes => s.(cache := c, busy := Remove(s.busy, i), pending := s.pending + 1)
    case Ends => s.(cache := c, busy := Remove(s.busy, i))
  }

  function Apply(s: State, e: Event, ttl: real): State {
    match e
    case Tick(d) => if d < 0.0 then s else s.(now := s.now + d)
    case Start(post) =>
      if Attempts(s.cache) >= MAX_LOGIN_ATTEMPTS then s.(busy := s.busy + [SawLimit(post)])
      else if post then s.(pending := s.pending + 1)
      else s
    case Answer(ok) =>
      if s.pending == 0 then s
      else if ok then s.(pending := s.pending - 1, busy := s.busy + [Resetting], failures := [])
      else s.(pending := s.pending - 1, busy := s.busy + [Failed], failures := s.failures + [s.now])
    case Step(i) => if i < |s.busy| then StepRequest(s, i, ttl) else s
    case ForgetAttempts =>
      if s.cache.attempts.Some? && s.cache.attempts.value.expires <= s.now then s.(cache := s.cache.(attempts := None)) else s
    case ForgetLockout =>
      if s.cache.lockout.Some? && s.cache.lockout.value.expires <= s.now then s.(cache := s.cache.(lockout := None)) else s
  }

  function Initial(now: real): State { State(now, Cache(None, None), 0, [], []) }

  function Run(now: real, es: seq<Event>, ttl: real): State {
    if es == [] then Initial(now) else Apply(Run(now, es[..|es| - 1], ttl), es[|es| - 1], ttl)
  }

  // ---------------------------------------------------------------- how requests may overlap

  function Logins(busy: seq<Stage>): nat {
    if busy == [] then 0
    else
      var last := busy[|busy| - 1];
      var view := (last.SawLimit? || last.SawLockout? || last.Unlocked? || last.Arming? || last.Clearing? || last.ClearingLockout?) && !last.post;
      Logins(busy[..|busy| - 1]) + if view then 0 else 1
  }

  /** `InFlight(m)`: at most `m` requests at a time, page views included.  `Apart(k)`: at most `k` passwords
      are looked at at a time, and nothing comes between the actions of a check, of counting a failure or
      of resetting.  `OneLogin`: two requests at a time, but one login. */
  datatype Discipline = InFlight(m: nat) | Apart(k: nat) | OneLogin

  predicate Allows(d: Discipline, s: State, e: Event, s': State) {
    match d
    case InFlight(m) => s'.pending + |s'.busy| <= m
    case Apart(k) => s'.pending <= k && (s.busy == [] || e.Step? || e.Tick? || e.ForgetAttempts? || e.ForgetLockout? || s' == s)
    case OneLogin => s'.pending + |s'.busy| <= 2 && s'.pending + Logins(s'.busy) <= 1
  }

  ghost predicate Obeys(d: Discipline, now: real, es: seq<Event>, ttl: real) {
    es != [] ==>
      && Obeys(d, now, es[..|es| - 1], ttl)
      && Allows(d, Run(now, es[..|es| - 1], ttl), es[|es| - 1], Run(now, es, ttl))
  }

  /** What a discipline says about every moment of a run. */
  lemma {:induction false} AtEveryMoment(d: Discipline, now: real, es: seq<Event>, ttl: real, n: nat)
    requires Obeys(d, now, es, ttl) && n <= |es|
    ensures
      var s := Run(now, es[..n], ttl);
      match d
      case InFlight(m) => s.pending + |s.busy| <= m
      case Apart(k) => s.pending <= k
      case OneLogin => s.pending + |s.busy| <= 2 && s.pending + Logins(s.busy) <= 1
    decreases |es|
  {
    if n == |es| {
      assert es[..n] == es;
    } else {
      assert es[..|es| - 1][..n] == es[..n];
      AtEveryMoment(d, now, es[..|es| - 1], ttl, n);
    }
  }

  // ---------------------------------------------------------------- the window

  /** The `m`-th failure from the last is recent. */
  ghost predicate Recent(now: real, failures: seq<real>, m: nat) {
    0 < m <= |failures| && now - failures[|failures| - m] <= LOCKOUT_TIME - 1.0
  }

  ghost predicate Ordered(now: real, failures: seq<real>) {
    && (forall i: nat, j: nat :: i <= j < |failures| ==> failures[i] <= failures[j])
    && (forall i: nat :: i < |failures| ==> 0.0 <= failures[i] <= now)
  }

  /** Any `5 + k` failures in a row span more than 299 seconds. */
  ghost predicate Spread(failures: seq<real>, k: nat) {
    forall i: nat, j: nat :: j == i + 4 + k < |failures| ==> failures[j] - failures[i] > LOCKOUT_TIME - 1.0
  }

  /** The counter covers the recent failures. */
  ghost predicate Covered(c: Cache, now: real, f: seq<real>, ttl: real) {
    && (forall m: nat :: 1 <= m <= 5 && Recent(now, f, m) ==> c.attempts.Some? && Attempts(c) >= m)
    && (Recent(now, f, 1) ==> f[|f| - 1] + ttl <= c.attempts.value.expires)
  }

  /** Once the counter is at the limit, a lockout outlasts the last recent failure. */
  ghost predicate Locked(c: Cache, now: real, f: seq<real>, ttl: real) {
    Recent(now, f, 1) && Attempts(c) >= MAX_LOGIN_ATTEMPTS ==>
      && c.lockout.Some?
      && f[|f| - 1] + LOCKOUT_TIME <= c.lockout.value.value
      && f[|f| - 1] + ttl <= c.lockout.value.expires
  }

  function BeforeLast(f: seq<real>): seq<real>
    requires f != []
  {
    f[..|f| - 1]
  }

  predicate Outlasts(until: real, f: seq<real>)
    requires f != []
  {
    f[|f| - 1] + LOCKOUT_TIME <= until
  }

  /** What holds while a request is in the middle of something. */
  ghost predicate StageOk(c: Cache, now: real, f: seq<real>, stage: Stage, ttl: real) {
    match stage
    case SawLimit(_) => Covered(c, now, f, ttl) && Locked(c, now, f, ttl) && (Recent(now, f, 1) ==> Attempts(c) >= MAX_LOGIN_ATTEMPTS)
    case SawLockout(_, until) => Covered(c, now, f, ttl) && Locked(c, now, f, ttl) && (Recent(now, f, 1) ==> Outlasts(until, f))
    case Failed => f != [] && Covered(c, now, BeforeLast(f), ttl) && Locked(c, now, BeforeLast(f), ttl)
    case Counted(n) => 0 < n && forall m: nat :: 1 <= m <= 5 && Recent(now, f, m) ==> m <= n
    case MustLock => Covered(c, now, f, ttl)
    case Locking(until) => Covered(c, now, f, ttl) && (Recent(now, f, 1) ==> Outlasts(until, f))
    case Resetting => f == []
    case ResettingLockout => f == []
    case _ => !Recent(now, f, 1)
  }

  ghost predicate BusyOk(s: State, ttl: real) {
    if s.busy == [] then Covered(s.cache, s.now, s.failures, ttl) && Locked(s.cache, s.now, s.failures, ttl)
    else |s.busy| == 1 && StageOk(s.cache, s.now, s.failures, s.busy[0], ttl)
  }

  /** The fifth recent failure and all further ones had their passwords looked at together. */
  ghost predicate WindowOk(now: real, pending: nat, f: seq<real>, k: nat) {
    && 0.0 <= now && pending <= k && Ordered(now, f) && Spread(f, k)
    && (forall m: nat :: 5 <= m && Recent(now, f, m) ==> m + pending <= 4 + k)
  }

  ghost predicate Inv(s: State, k: nat, ttl: real) {
    WindowOk(s.now, s.pending, s.failures, k) && 0 <= Attempts(s.cache) && BusyOk(s, ttl)
  }

  lemma RecentIsNested(now: real, f: seq<real>)
    requires Ordered(now, f)
    ensures forall m: nat, n: nat :: 0 < m <= n && Recent(now, f, n) ==> Recent(now, f, m)
  {}

  // ---------------------------------------------------------------- time and expiry

  lemma CoveredLater(c: Cache, now: real, later: real, f: seq<real>, ttl: real)
    requires now <= later
    ensures forall m: nat :: Recent(later, f, m) ==> Recent(now, f, m)
    ensures Covered(c, now, f, ttl) ==> Covered(c, later, f, ttl)
    ensures Locked(c, now, f, ttl) ==> Locked(c, later, f, ttl)
  {
    assert forall m: nat :: Recent(later, f, m) ==> Recent(now, f, m);
  }

  /** Time only makes failures less recent. */
  lemma TickInv(s: State, d: real, k: nat, ttl: real)
    requires Inv(s, k, ttl) && d >= 0.0
    ensures Inv(s.(now := s.now + d), k, ttl)
  {
    CoveredLater(s.cache, s.now, s.now + d, s.failures, ttl);
    if s.busy != [] && s.busy[0].Failed? {
      CoveredLater(s.cache, s.now, s.now + d, BeforeLast(s.failures), ttl);
    }
  }

  function Forget(c: Cache, e: Event, now: real): Cache {
    if e.ForgetAttempts? && c.attempts.Some? && c.attempts.value.expires <= now then c.(attempts := None)
    else if e.ForgetLockout? && c.lockout.Some? && c.lockout.value.expires <= now then c.(lockout := None)
    else c
  }

  /** The cache forgets only what no recent failure needs. */
  lemma ForgetKeeps(c: Cache, e: Event, now: real, f: seq<real>, ttl: real)
    requires Ordered(now, f) && ttl > LOCKOUT_TIME - 1.0 && Covered(c, now, f, ttl)
    ensures Covered(Forget(c, e, now), now, f, ttl)
    ensures Recent(now, f, 1) ==> Forget(c, e, now).attempts == c.attempts
    ensures Locked(c, now, f, ttl) ==> Locked(Forget(c, e, now), now, f, ttl)
  {
    RecentIsNested(now, f);
  }

  lemma ForgetInv(s: State, e: Event, k: nat, ttl: real)
    requires Inv(s, k, ttl) && (e.ForgetAttempts? || e.ForgetLockout?) && ttl > LOCKOUT_TIME - 1.0
    ensures Inv(Apply(s, e, ttl), k, ttl)
  {
    assert Apply(s, e, ttl) == s.(cache := Forget(s.cache, e, s.now));
    if s.busy != [] && s.busy[0].Failed? {
      ForgetKeeps(s.cache, e, s.now, BeforeLast(s.failures), ttl);
    } else if Covered(s.cache, s.now, s.failures, ttl) {
      ForgetKeeps(s.cache, e, s.now, s.failures, ttl);
    }
  }

  // ---------------------------------------------------------------- what requests do

  lemma StartInv(s: State, post: bool, k: nat, ttl: real)
    requires Inv(s, k, ttl) && s.busy == [] && Apply(s, Start(post), ttl).pending <= k
    ensures Inv(Apply(s, Start(post), ttl), k, ttl)
  {
    RecentIsNested(s.now, s.failures);
    assert Attempts(s.cache) < MAX_LOGIN_ATTEMPTS ==> !Recent(s.now, s.failures, 5);
  }

  lemma FailedRecent(now: real, f: seq<real>)
    requires Ordered(now, f)
    ensures forall m: nat :: 2 <= m && Recent(now, f + [now], m) ==> Recent(now, f, m - 1)
  {
    forall m: nat | 2 <= m && Recent(now, f + [now], m) ensures Recent(now, f, m - 1) {
      assert (f + [now])[|f| + 1 - m] == f[|f| - (m - 1)];
    }
  }

  lemma FailedSpread(now: real, f: seq<real>, k: nat)
    requires 0.0 <= now && Ordered(now, f) && Spread(f, k) && 0 < k && !Recent(now, f, 4 + k)
    ensures Ordered(now, f + [now]) && Spread(f + [now], k)
  {}

  lemma AnswerInv(s: State, ok: bool, k: nat, ttl: real)
    requires Inv(s, k, ttl) && s.busy == [] && s.pending > 0
    ensures Inv(Apply(s, Answer(ok), ttl), k, ttl)
  {
    if !ok {
      FailedRecent(s.now, s.failures);
      FailedSpread(s.now, s.failures, k);
      assert BeforeLast(s.failures + [s.now]) == s.failures;
    }
  }

  /** The last failure is counted on top of the ones before it. */
  lemma CountedOk(c: Cache, now: real, f: seq<real>, ttl: real)
    requires f != [] && 0 <= Attempts(c) && Covered(c, now, BeforeLast(f), ttl)
    ensures forall m: nat :: 1 <= m <= 5 && Recent(now, f, m) ==> m <= Attempts(c) + 1
  {
    forall m: nat | 2 <= m <= 5 && Recent(now, f, m) ensures m <= Attempts(c) + 1 {
      assert BeforeLast(f)[|f| - 1 - (m - 1)] == f[|f| - m];
      assert Recent(now, BeforeLast(f), m - 1);
    }
  }

  /** A check passes only when no failure is recent. */
  lemma AdvanceOk(c: Cache, now: real, f: seq<real>, stage: Stage, ttl: real)
    requires 0 <= Attempts(c) && Ordered(now, f) && StageOk(c, now, f, stage, ttl)
    ensures
      var (c', next) := Advance(c, stage, now, ttl);
      && 0 <= Attempts(c')
      && match next
         case Goes(stage') => StageOk(c', now, f, stage', ttl)
         case Passes => !Recent(now, f, 1) && Covered(c', now, f, ttl) && Locked(c', now, f, ttl)
         case Ends => Covered(c', now, f, ttl) && Locked(c', now, f, ttl)
  {
    RecentIsNested(now, f);
    if stage.Failed? {
      CountedOk(c, now, f, ttl);
    }
  }

  lemma StepInv(s: State, k: nat, ttl: real)
    requires Inv(s, k, ttl) && s.busy != [] && Apply(s, Step(0), ttl).pending <= k
    ensures Inv(Apply(s, Step(0), ttl), k, ttl)
  {
    AdvanceOk(s.cache, s.now, s.failures, s.busy[0], ttl);
    RecentIsNested(s.now, s.failures);
  }

  lemma ApplyInv(s: State, e: Event, k: nat, ttl: real)
    requires Inv(s, k, ttl) && ttl > LOCKOUT_TIME - 1.0 && Allows(Apart(k), s, e, Apply(s, e, ttl))
    ensures Inv(Apply(s, e, ttl), k, ttl)
  {
    if Apply(s, e, ttl) != s {
      match e
      case Tick(d) => TickInv(s, d, k, ttl);
      case Start(post) => StartInv(s, post, k, ttl);
      case Answer(ok) => AnswerInv(s, ok, k, ttl);
      case Step(i) => StepInv(s, k, ttl);
      case _ => ForgetInv(s, e, k, ttl);
    }
  }

  lemma {:induction false} RunInv(now: real, es: seq<Event>, k: nat, ttl: real)
    requires 0.0 <= now && ttl > LOCKOUT_TIME - 1.0 && Obeys(Apart(k), now, es, ttl)
    ensures Inv(Run(now, es, ttl), k, ttl)
  {
    if es != [] {
      RunInv(now, es[..|es| - 1], k, ttl);
      ApplyInv(Run(now, es[..|es| - 1], ttl), es[|es| - 1], k, ttl);
    }
  }

  // ---------------------------------------------------------------- the bounds

  /** If at most `k` passwords are looked at at a time and nothing comes between the actions of a check, of
      counting a failure or of resetting, any `5 + k` failed logins with no successful one among them span
      more than 299 seconds, as long as cache entries live longer than that. */
  lemma FailuresSpan(now: real, es: seq<Event>, k: nat, ttl: real)
    requires 0.0 <= now && Obeys(Apart(k), now, es, ttl) && ttl > 299.0
    ensures forall i: nat, j: nat :: j == i + 4 + k < |Run(now, es, ttl).failures| ==>
              Run(now, es, ttl).failures[j] - Run(now, es, ttl).failures[i] > 299.0
  {
    RunInv(now, es, k, ttl);
  }

  lemma {:induction false} OneIsApart(now: real, es: seq<Event>, ttl: real)
    requires Obeys(InFlight(1), now, es, ttl)
    ensures Obeys(Apart(1), now, es, ttl) && Run(now, es, ttl).pending + |Run(now, es, ttl).busy| <= 1
  {
    if es != [] {
      OneIsApart(now, es[..|es| - 1], ttl);
    }
  }

  /** With one request at a time, page views included, any six failed logins span more than 299 seconds. */
  lemma SixFailuresSpan(now: real, es: seq<Event>, ttl: real)
    requires 0.0 <= now && Obeys(InFlight(1), now, es, ttl) && ttl > 299.0
    ensures forall i: nat, j: nat :: j == i + 5 < |Run(now, es, ttl).failures| ==>
              Run(now, es, ttl).failures[j] - Run(now, es, ttl).failures[i] > 299.0
  {
    OneIsApart(now, es, ttl);
    FailuresSpan(now, es, 1, ttl);
  }

  // ---------------------------------------------------------------- whole calls are undisturbed requests

  function Steps(s: State, n: nat, ttl: real): State
    decreases n
  {
    if n == 0 then s else Steps(Apply(s, Step(0), ttl), n - 1, ttl)
  }

  /** A single busy request goes on. */
  lemma Solo(s: State, stage: Stage, ttl: real)
    requires s.busy == [stage]
    ensures
      var (c, next) := Advance(s.cache, stage, s.now, ttl);
      Apply(s, Step(0), ttl) == match next
        case Goes(x) => s.(cache := c, busy := [x])
        case Passes => s.(cache := c, busy := [], pending := s.pending + 1)
        case Ends => s.(cache := c, busy := [])
  {
    assert Remove(s.busy, 0) == [];
    assert forall x :: s.busy[0 := x] == [x];
  }

  lemma OneStep(s: State, s': State, n: nat, ttl: real)
    requires Apply(s, Step(0), ttl) == s'
    ensures Steps(s, n + 1, ttl) == Steps(s', n, ttl)
  {}

  /** A lockout that was found is over, or it is not. */
  lemma UndisturbedLookup(s: State, post: bool, until: real, ttl: real) returns (n: nat)
    requires s.busy == [SawLockout(post, until)]
    ensures Steps(s, n, ttl) ==
      if Truncate(until - s.now) > 0 then s.(busy := [])
      else s.(cache := Cache(None, None), busy := [], pending := if post then s.pending + 1 else s.pending)
  {
    Solo(s, SawLockout(post, until), ttl);
    if Truncate(until - s.now) > 0 {
      OneStep(s, s.(busy := []), 0, ttl);
      n := 1;
    } else {
      var s1 := s.(busy := [Clearing(post)]);
      var s2 := s.(cache := s.cache.(attempts := None), busy := [ClearingLockout(post)]);
      var s3 := s.(cache := Cache(None, None), busy := [], pending := if post then s.pending + 1 else s.pending);
      Solo(s1, Clearing(post), ttl);
      Solo(s2, ClearingLockout(post), ttl);
      OneStep(s, s1, 2, ttl);
      OneStep(s1, s2, 1, ttl);
      OneStep(s2, s3, 0, ttl);
      n := 3;
    }
  }

  /** No lockout was found. */
  lemma UndisturbedArming(s: State, post: bool, ttl: real)
    requires s.busy == [Unlocked(post)]
    ensures Steps(s, 2, ttl) ==
      s.(cache := s.cache.(lockout := Some(Entry(s.now + LOCKOUT_TIME, s.now + ttl))), busy := [])
  {
    var s1 := s.(busy := [Arming(post, s.now + LOCKOUT_TIME)]);
    Solo(s, Unlocked(post), ttl);
    Solo(s1, Arming(post, s.now + LOCKOUT_TIME), ttl);
    OneStep(s, s1, 1, ttl);
    OneStep(s1, s.(cache := s.cache.(lockout := Some(Entry(s.now + LOCKOUT_TIME, s.now + ttl))), busy := []), 0, ttl);
  }

  /** A check that nothing interrupts. */
  lemma UndisturbedCheck(s: State, post: bool, ttl: real) returns (n: nat)
    requires s.busy == []
    ensures
      var (c, verdict) := CheckRateLimit(s.cache, s.now, ttl);
      Steps(Apply(s, Start(post), ttl), n, ttl)
        == s.(cache := c, pending := if post && verdict.Allowed? then s.pending + 1 else s.pending)
  {
    n := 0;
    if Attempts(s.cache) >= MAX_LOGIN_ATTEMPTS {
      var s1 := s.(busy := [SawLimit(post)]);
      assert Apply(s, Start(post), ttl) == s1;
      Solo(s1, SawLimit(post), ttl);
      if s.cache.lockout.Some? && s.cache.lockout.value.value != 0.0 {
        var s2 := s.(busy := [SawLockout(post, s.cache.lockout.value.value)]);
        n := UndisturbedLookup(s2, post, s.cache.lockout.value.value, ttl);
        OneStep(s1, s2, n, ttl);
        n := n + 1;
      } else {
        var s2 := s.(busy := [Unlocked(post)]);
        UndisturbedArming(s2, post, ttl);
        OneStep(s1, s2, 2, ttl);
        n := 3;
      }
    }
  }

  /** The fifth failure was counted, and the lockout is set. */
  lemma UndisturbedLocking(s: State, ttl: real)
    requires s.busy == [MustLock]
    ensures Steps(s, 2, ttl) ==
      s.(cache := s.cache.(lockout := Some(Entry(s.now + LOCKOUT_TIME, s.now + ttl))), busy := [])
  {
    var s1 := s.(busy := [Locking(s.now + LOCKOUT_TIME)]);
    Solo(s, MustLock, ttl);
    Solo(s1, Locking(s.now + LOCKOUT_TIME), ttl);
    OneStep(s, s1, 1, ttl);
    OneStep(s1, s.(cache := s.cache.(lockout := Some(Entry(s.now + LOCKOUT_TIME, s.now + ttl))), busy := []), 0, ttl);
  }

  /** A failure is counted. */
  lemma UndisturbedCounting(s: State, ttl: real) returns (n: nat)
    requires s.busy == [Failed]
    ensures Steps(s, n, ttl) == s.(cache := IncrementFailedAttempt(s.cache, s.now, ttl), busy := [])
  {
    var m := Attempts(s.cache) + 1;
    var c := s.cache.(attempts := Some(Entry(m, s.now + ttl)));
    var s1 := s.(busy := [Counted(m)]);
    Solo(s, Failed, ttl);
    Solo(s1, Counted(m), ttl);
    if m >= MAX_LOGIN_ATTEMPTS {
      var s2 := s.(cache := c, busy := [MustLock]);
      UndisturbedLocking(s2, ttl);
      OneStep(s1, s2, 2, ttl);
      OneStep(s, s1, 3, ttl);
      n := 4;
    } else {
      OneStep(s1, s.(cache := c, busy := []), 0, ttl);
      OneStep(s, s1, 1, ttl);
      n := 2;
    }
  }

  /** A wrong password whose counting nothing interrupts. */
  lemma UndisturbedFailure(s: State, ttl: real) returns (n: nat)
    requires s.busy == [] && s.pending > 0
    ensures Steps(Apply(s, Answer(false), ttl), n, ttl) ==
      s.(cache := IncrementFailedAttempt(s.cache, s.now, ttl), pending := s.pending - 1, failures := s.failures + [s.now])
  {
    var s1 := s.(pending := s.pending - 1, busy := [Failed], failures := s.failures + [s.now]);
    assert Apply(s, Answer(false), ttl) == s1;
    n := UndisturbedCounting(s1, ttl);
  }

  /** A right password whose resetting nothing interrupts. */
  lemma UndisturbedSuccess(s: State, ttl: real)
    requires s.busy == [] && s.pending > 0
    ensures Steps(Apply(s, Answer(true), ttl), 2, ttl) == s.(cache := Cache(None, None), pending := s.pending - 1, failures := [])
  {
    var s0 := s.(pending := s.pending - 1, failures := []);
    var s1 := s0.(busy := [Resetting]);
    var s2 := s0.(cache := s.cache.(attempts := None), busy := [ResettingLockout]);
    assert Apply(s, Answer(true), ttl) == s1;
    Solo(s1, Resetting, ttl);
    Solo(s2, ResettingLockout, ttl);
    OneStep(s1, s2, 1, ttl);
    OneStep(s2, s0.(cache := Cache(None, None)), 0, ttl);
  }
}
