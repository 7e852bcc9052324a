/** The daily and per-tier credit counters of one provider on one day.  A request first reads the daily
    counter, then its tier's, is then granted a wrapper, and calls the provider through it; each call first
    reads both counters and then writes both.  Requests interleave between all of these. */
module ProviderQuota {
  import opened TimedStore

  datatype Stage =
    | SawDaily
    | Passed
    | Granted
    | CountedDaily(daily: nat)
    | CountedBoth(daily: nat, usage: nat)
    | WroteDaily(usage: nat)

  /** A request in flight, which may call `left` times once it has its wrapper.  The keys it uses in a check
      or in the tracking of a call are those of the day on which that began; they are `stale` if a new day
      began since. */
  datatype Request = Request(tier: string, stage: Stage, left: nat, stale: bool)

  /** `calls` are the calls tracked, under the day's own keys, since the last new day, and `forgets` how often
      the cache forgot the daily counter in that time. */
  datatype State = State(daily: nat, tiers: map<string, nat>, requests: seq<Request>, calls: nat, forgets: nat)

  /** At most `w` requests are in flight, from the reading of the daily counter until the wrapper is
      dropped, and each makes at most `k` calls. */
  datatype Setting = Setting(limit: int, allocations: map<string, real>, w: nat, k: nat)

  /** `Track` is the next action in the tracking of a call.  `earlier` is what a check that began on an earlier
      day finds in that day's counter. */
  datatype Event =
    | CheckDaily(tier: string)
    | CheckTier(i: nat, earlier: nat)
    | Grant(i: nat)
    | Track(i: nat)
    | Release(i: nat)
    | ForgetDaily
    | ForgetTier(tier: string)
    | NewDay

  function Usage(tiers: map<string, nat>, tier: string): nat { if tier in tiers then tiers[tier] else 0 }

  /** A tier gets its share of the daily credits, a tenth if it has none configured. */
  function TierCredits(allocations: map<string, real>, dailyCredits: int, tier: string): int {
    Truncate(dailyCredits as real * (if tier in allocations then allocations[tier] else 0.10))
  }

  function TierLimit(c: Setting, tier: string): int { TierCredits(c.allocations, c.limit, tier) }

  /** One more request stays within a tier's part of the credits exactly if that part of them, taken exactly, is
      not exceeded: nothing is lost by cutting it off to whole credits. */
  lemma TierRoom(allocations: map<string, real>, dailyCredits: int, tier: string, usage: nat)
    ensures tier in allocations ==>
      (usage < TierCredits(allocations, dailyCredits, tier) <==> (usage + 1) as real <= allocations[tier] * dailyCredits as real)
    ensures tier !in allocations ==>
      (usage < TierCredits(allocations, dailyCredits, tier) <==> 10 * (usage + 1) <= dailyCredits)
  {
    if tier in allocations {
      assert dailyCredits as real * allocations[tier] == allocations[tier] * dailyCredits as real;
    }
  }

  function SharesOf(allocations: map<string, real>, tiers: seq<string>): real
    requires forall t :: t in tiers ==> t in allocations
  {
    if tiers == [] then 0.0 else SharesOf(allocations, tiers[1..]) + allocations[tiers[0]]
  }

  function CreditsOf(allocations: map<string, real>, dailyCredits: int, tiers: seq<string>): int {
    if tiers == [] then 0 else CreditsOf(allocations, dailyCredits, tiers[1..]) + TierCredits(allocations, dailyCredits, tiers[0])
  }

  lemma ShareOfTier(allocations: map<string, real>, dailyCredits: int, tier: string)
    requires 0 <= dailyCredits && tier in allocations && 0.0 <= allocations[tier]
    ensures 0 <= TierCredits(allocations, dailyCredits, tier)
    ensures TierCredits(allocations, dailyCredits, tier) as real <= allocations[tier] * dailyCredits as real
  {
    var x := allocations[tier] * dailyCredits as real;
    NotNegative(allocations[tier], dailyCredits as real);
    assert dailyCredits as real * allocations[tier] == x;
  }

  lemma NotNegative(x: real, y: real)
    requires 0.0 <= x && 0.0 <= y
    ensures 0.0 <= x * y
  {}

  lemma AtMostWhole(x: real, d: int, n: int)
    requires x <= 1.0 && 0 <= d && n as real <= x * d as real
    ensures n <= d
  {
    NotNegative(1.0 - x, d as real);
    assert (1.0 - x) * d as real == d as real - x * d as real;
  }

  lemma Distributed(x: real, y: real, d: real)
    ensures (x + y) * d == x * d + y * d
  {}

  lemma {:induction false} CreditsWithinShares(allocations: map<string, real>, dailyCredits: int, tiers: seq<string>)
    requires 0 <= dailyCredits && forall t :: t in tiers ==> t in allocations && 0.0 <= allocations[t]
    ensures 0 <= CreditsOf(allocations, dailyCredits, tiers)
    ensures CreditsOf(allocations, dailyCredits, tiers) as real <= SharesOf(allocations, tiers) * dailyCredits as real
  {
    if tiers != [] {
      assert tiers[0] in tiers;
      ShareOfTier(allocations, dailyCredits, tiers[0]);
      CreditsWithinShares(allocations, dailyCredits, tiers[1..]);
      Distributed(SharesOf(allocations, tiers[1..]), allocations[tiers[0]], dailyCredits as real);
    }
  }

  /** Tiers whose shares make up at most the whole cannot spend more than the daily credits together. */
  lemma SharesWithinCredits(allocations: map<string, real>, dailyCredits: int, tiers: seq<string>)
    requires 0 <= dailyCredits && (forall t :: t in tiers ==> t in allocations && 0.0 <= allocations[t])
    requires SharesOf(allocations, tiers) <= 1.0
    ensures CreditsOf(allocations, dailyCredits, tiers) <= dailyCredits
  {
    CreditsWithinShares(allocations, dailyCredits, tiers);
    AtMostWhole(SharesOf(allocations, tiers), dailyCredits, CreditsOf(allocations, dailyCredits, tiers));
  }

  /** The three tiers with the shares of the settings in force. */
  lemma ThreeTiers(allocations: map<string, real>, dailyCredits: int)
    requires 0 <= dailyCredits && {"VIP", "ACTIVE", "INACTIVE"} <= allocations.Keys
    requires allocations["VIP"] == 0.60 && allocations["ACTIVE"] == 0.30 && allocations["INACTIVE"] == 0.10
    ensures TierCredits(allocations, dailyCredits, "VIP") + TierCredits(allocations, dailyCredits, "ACTIVE")
          + TierCredits(allocations, dailyCredits, "INACTIVE") <= dailyCredits
    ensures TierCredits(allocations, 10_000_000, "VIP") == 6_000_000 && TierCredits(allocations, 10_000_000, "ACTIVE") == 3_000_000
    ensures TierCredits(allocations, 10_000_000, "INACTIVE") == TierCredits(allocations, 10_000_000, "OTHER") == 1_000_000
         || "OTHER" in allocations
  {
    var tiers := ["VIP", "ACTIVE", "INACTIVE"];
    assert tiers[1..] == ["ACTIVE", "INACTIVE"] && tiers[1..][1..] == ["INACTIVE"] && ["INACTIVE"][1..] == [];
    assert SharesOf(allocations, ["INACTIVE"]) == 0.10;
    assert SharesOf(allocations, tiers[1..]) == 0.40;
    SharesWithinCredits(allocations, dailyCredits, tiers);
    assert CreditsOf(allocations, dailyCredits, ["INACTIVE"]) == TierCredits(allocations, dailyCredits, "INACTIVE");
  }

  predicate QuotaAvailable(daily: nat, usage: nat, limit: int, tierLimit: int) {
    daily < limit && usage < tierLimit
  }

  function Remove(rs: seq<Request>, i: nat): seq<Request>
    requires i < |rs|
  {
    rs[..i] + rs[i + 1..]
  }

  /** `_track_request`, one cache access at a time.  Keys of an earlier day are of no interest any more. */
  function TrackRequest(s: State, i: nat): State
    requires i < |s.requests|
  {
    var x := s.requests[i];
    match x.stage
    case Granted =>
      if x.left == 0 then s
      else s.(requests := s.requests[i := x.(stage := CountedDaily(s.daily + 1), stale := false)])
    case CountedDaily(d) => s.(requests := s.requests[i := x.(stage := CountedBoth(d, Usage(s.tiers, x.tier) + 1))])
    case CountedBoth(d, u) =>
      var s' := s.(requests := s.requests[i := x.(stage := WroteDaily(u))]);
      if x.stale then s' else s'.(daily := d, calls := s.calls + 1)
    case WroteDaily(u) =>
      var s' := s.(requests := s.requests[i := x.(stage := Granted, left := Less(x.left))]);
      if x.stale then s' else s'.(tiers := s.tiers[x.tier := u])
    case _ => s
  }

  function Less(n: nat): nat { if n == 0 then 0 else n - 1 }

  function Outdated(rs: seq<Request>): (rs': seq<Request>)
    ensures |rs'| == |rs| && forall i: nat :: i < |rs| ==> rs'[i] == rs[i].(stale := true)
  {
    if rs == [] then [] else [rs[0].(stale := true)] + Outdated(rs[1..])
  }

  function Apply(s: State, e: Event, c: Setting): State {
    match e
    case CheckDaily(t) =>
      if |s.requests| < c.w && s.daily < c.limit
      then s.(requests := s.requests + [Request(t, SawDaily, c.k, false)]) else s
    case CheckTier(i, earlier) =>
      if i < |s.requests| && s.requests[i].stage == SawDaily then
        var x := s.requests[i];
        if (if x.stale then earlier else Usage(s.tiers, x.tier)) < TierLimit(c, x.tier)
        then s.(requests := s.requests[i := x.(stage := Passed)])
        else s.(requests := Remove(s.requests, i))
      else s
    case Grant(i) =>
      if i < |s.requests| && s.requests[i].stage == Passed
      then s.(requests := s.requests[i := s.requests[i].(stage := Granted)]) else s
    case Track(i) => if i < |s.requests| then TrackRequest(s, i) else s
    case Release(i) => if i < |s.requests| then s.(requests := Remove(s.requests, i)) else s
    case ForgetDaily => s.(daily := 0, forgets := s.forgets + 1)
    case ForgetTier(t) => s.(tiers := s.tiers - {t})
    case NewDay => State(0, map[], Outdated(s.requests), 0, 0)
  }

  function Empty(): State { State(0, map[], [], 0, 0) }

  function Run(es: seq<Event>, c: Setting): State {
    if es == [] then Empty() else Apply(Run(es[..|es| - 1], c), es[|es| - 1], c)
  }

  /** Undisturbed, the two readings are the quota test. */
  lemma UndisturbedCheck(s: State, t: string, c: Setting, earlier: nat)
    requires |s.requests| < c.w
    ensures
      var s' := Apply(Apply(s, CheckDaily(t), c), CheckTier(|s.requests|, earlier), c);
      s' == if QuotaAvailable(s.daily, Usage(s.tiers, t), c.limit, TierLimit(c, t))
            then s.(requests := s.requests + [Request(t, Passed, c.k, false)]) else s
  {
    if s.daily < c.limit {
      var s1 := Apply(s, CheckDaily(t), c);
      assert s1.requests[|s.requests| := Request(t, Passed, c.k, false)] == s.requests + [Request(t, Passed, c.k, false)];
      assert Remove(s1.requests, |s.requests|) == s.requests;
    }
  }

  // ---------------------------------------------------------------- how trackings may overlap

  predicate Tracking(x: Request) { x.stage.CountedDaily? || x.stage.CountedBoth? || x.stage.WroteDaily? }

  /** A call is being tracked under the current day's keys. */
  predicate Fresh(x: Request) { !x.stale && Tracking(x) }

  ghost predicate AnyFresh(rs: seq<Request>) { exists i: nat :: i < |rs| && Fresh(rs[i]) }

  /** While a call is being tracked no other tracking begins and no counter is forgotten. */
  ghost predicate Quiet(s: State, e: Event) {
    AnyFresh(s.requests) ==>
      && !e.ForgetDaily? && !e.ForgetTier?
      && (e.Track? && e.i < |s.requests| ==> !s.requests[e.i].stage.Granted?)
  }

  /** The wrappers that exist at one time. */
  function Wrappers(rs: seq<Request>): nat {
    if rs == [] then 0
    else Wrappers(rs[..|rs| - 1]) + if rs[|rs| - 1].stage in {SawDaily, Passed} then 0 else 1
  }

  /** In `Undivided` runs trackings are quiet in this way; in `OneWrapper` runs, moreover, no two wrappers exist at a
      time. */
  datatype Rule = Free | Undivided | OneWrapper

  ghost predicate Allows(r: Rule, s: State, e: Event, s': State) {
    match r
    case Free => true
    case Undivided => Quiet(s, e)
    case OneWrapper => Quiet(s, e) && Wrappers(s'.requests) <= 1
  }

  ghost predicate Obeys(r: Rule, es: seq<Event>, c: Setting) {
    es != [] ==> Obeys(r, es[..|es| - 1], c) && Allows(r, Run(es[..|es| - 1], c), es[|es| - 1], Run(es, c))
  }

  lemma {:induction false} OneWrapperIsUndivided(es: seq<Event>, c: Setting)
    requires Obeys(OneWrapper, es, c)
    ensures Obeys(Undivided, es, c)
  {
    if es != [] {
      OneWrapperIsUndivided(es[..|es| - 1], c);
    }
  }

  predicate HasWrapper(x: Request) { !x.stage.SawDaily? && !x.stage.Passed? }

  lemma {:induction false} WrapperCounted(rs: seq<Request>, i: nat)
    requires i < |rs| && HasWrapper(rs[i])
    ensures Wrappers(rs) >= 1
  {
    if i < |rs| - 1 {
      WrapperCounted(rs[..|rs| - 1], i);
    }
  }

  lemma {:induction false} TwoWrappersCounted(rs: seq<Request>, i: nat, j: nat)
    requires i < j < |rs| && HasWrapper(rs[i]) && HasWrapper(rs[j])
    ensures Wrappers(rs) >= 2
  {
    if j < |rs| - 1 {
      TwoWrappersCounted(rs[..|rs| - 1], i, j);
    } else {
      WrapperCounted(rs[..j], i);
    }
  }

  /** What `OneWrapper` says about every moment of a run. */
  lemma {:induction false} NeverTwoWrappers(es: seq<Event>, c: Setting, n: nat, i: nat, j: nat)
    requires Obeys(OneWrapper, es, c) && n <= |es| && i < j < |Run(es[..n], c).requests|
    ensures !(HasWrapper(Run(es[..n], c).requests[i]) && HasWrapper(Run(es[..n], c).requests[j]))
    decreases |es|
  {
    if n < |es| {
      assert es[..|es| - 1][..n] == es[..n];
      NeverTwoWrappers(es[..|es| - 1], c, n, i, j);
    } else {
      assert es[..n] == es;
      if HasWrapper(Run(es, c).requests[i]) && HasWrapper(Run(es, c).requests[j]) {
        TwoWrappersCounted(Run(es, c).requests, i, j);
      }
    }
  }

  // ---------------------------------------------------------------- what the requests may still spend

  /** From the daily counter, while its write is still to come. */
  function DailyShare(x: Request): nat {
    if x.stage.WroteDaily? || (x.stale && Tracking(x)) then Less(x.left) else x.left
  }

  /** From its tier's counter, once it has passed or can pass by an earlier day's. */
  function TierShare(x: Request, c: Setting): nat {
    if x.stage.SawDaily? then if x.stale && 0 < TierLimit(c, x.tier) then x.left else 0
    else if x.stale && Tracking(x) then Less(x.left)
    else x.left
  }

  function Share(x: Request, only: Option<string>, c: Setting): (n: nat)
    ensures n <= x.left
  {
    if only == None then DailyShare(x) else if x.tier == only.value then TierShare(x, c) else 0
  }

  /** What the requests may still spend, from the counter of one tier or from the daily one. */
  function Left(rs: seq<Request>, only: Option<string>, c: Setting): nat {
    if rs == [] then 0 else Left(rs[..|rs| - 1], only, c) + Share(rs[|rs| - 1], only, c)
  }

  lemma LeftUpdate(rs: seq<Request>, i: nat, x: Request, only: Option<string>, c: Setting)
    requires i < |rs|
    ensures Left(rs[i := x], only, c) == Left(rs, only, c) - Share(rs[i], only, c) + Share(x, only, c)
  {
    if i == |rs| - 1 {
      assert rs[i := x][..i] == rs[..i];
    } else {
      assert rs[i := x][..|rs| - 1] == rs[..|rs| - 1][i := x];
      LeftUpdate(rs[..|rs| - 1], i, x, only, c);
    }
  }

  lemma LeftRemove(rs: seq<Request>, i: nat, only: Option<string>, c: Setting)
    requires i < |rs|
    ensures Left(Remove(rs, i), only, c) <= Left(rs, only, c)
  {
    var n := |rs| - 1;
    if i == n {
      assert Remove(rs, i) == rs[..i];
    } else {
      assert Remove(rs, i)[..n - 1] == Remove(rs[..n], i);
      LeftRemove(rs[..n], i, only, c);
    }
  }

  lemma LeftBound(rs: seq<Request>, only: Option<string>, c: Setting)
    requires |rs| <= c.w && forall x :: x in rs ==> x.left <= c.k
    ensures Left(rs, only, c) <= c.w * c.k
  {
    LeftOfEach(rs, only, c);
    TimesMonotone(|rs|, c.w, c.k);
  }

  lemma {:induction false} LeftOfEach(rs: seq<Request>, only: Option<string>, c: Setting)
    requires forall x :: x in rs ==> x.left <= c.k
    ensures Left(rs, only, c) <= |rs| * c.k
  {
    if rs != [] {
      var n := |rs| - 1;
      LeftOfEach(rs[..n], only, c);
      assert rs[n] in rs;
      OneMoreTime(n, c.k);
    }
  }

  lemma OneMoreTime(n: nat, k: nat)
    ensures (n + 1) * k == n * k + k
  {}

  lemma TimesMonotone(a: nat, b: nat, k: nat)
    requires a <= b
    ensures a * k <= b * k
  {}

  /** Nothing is left of a counter that no request may spend from. */
  lemma {:induction false} LeftNothing(rs: seq<Request>, only: Option<string>, c: Setting)
    requires forall x :: x in rs ==> Share(x, only, c) == 0
    ensures Left(rs, only, c) == 0
  {
    if rs != [] {
      assert rs[|rs| - 1] in rs;
      LeftNothing(rs[..|rs| - 1], only, c);
    }
  }

  /** No counter exceeds this. */
  function Ceiling(limit: int, c: Setting): int {
    if limit <= 0 then 0 else limit - 1 + c.w * c.k
  }

  // ---------------------------------------------------------------- the bound

  predicate RequestOk(x: Request, c: Setting) {
    && x.left <= c.k && 0 < c.limit
    && (x.stage != SawDaily ==> 0 < TierLimit(c, x.tier))
    && (Tracking(x) ==> 0 < x.left)
  }

  ghost predicate TierOk(s: State, t: string, c: Setting) {
    Usage(s.tiers, t) + Left(s.requests, Some(t), c) <= Ceiling(TierLimit(c, t), c)
  }

  /** A value about to be written keeps its counter under the ceiling, and nothing was lost since it was read. */
  ghost predicate PendingOk(s: State, x: Request, c: Setting) {
    match x.stage
    case CountedDaily(d) => DailyPending(s, d, c)
    case CountedBoth(d, u) => DailyPending(s, d, c) && TierPending(s, x.tier, u, c)
    case WroteDaily(u) => TierPending(s, x.tier, u, c)
    case _ => true
  }

  ghost predicate DailyPending(s: State, d: nat, c: Setting) {
    && s.daily < d && d - 1 + Left(s.requests, None, c) <= Ceiling(c.limit, c)
    && (1 < c.w || s.forgets == 0 ==> d == s.daily + 1)
  }

  ghost predicate TierPending(s: State, t: string, u: nat, c: Setting) {
    && 0 < u && u - 1 + Left(s.requests, Some(t), c) <= Ceiling(TierLimit(c, t), c)
    && (1 < c.w ==> u == Usage(s.tiers, t) + 1)
  }

  ghost predicate OneFresh(rs: seq<Request>) {
    forall i: nat, j: nat :: i < j < |rs| ==> !(Fresh(rs[i]) && Fresh(rs[j]))
  }

  ghost predicate Inv(s: State, c: Setting) {
    && |s.requests| <= c.w && OneFresh(s.requests)
    && (forall i: nat :: i < |s.requests| ==> RequestOk(s.requests[i], c))
    && (forall i: nat :: i < |s.requests| && Fresh(s.requests[i]) ==> PendingOk(s, s.requests[i], c))
    && s.daily + Left(s.requests, None, c) <= Ceiling(c.limit, c)
    && (forall t :: TierOk(s, t, c))
  }

  lemma LeftOfSound(s: State, only: Option<string>, c: Setting)
    requires |s.requests| <= c.w && forall i: nat :: i < |s.requests| ==> RequestOk(s.requests[i], c)
    ensures Left(s.requests, only, c) <= c.w * c.k
  {
    forall x | x in s.requests ensures x.left <= c.k {
      var i: nat :| i < |s.requests| && s.requests[i] == x;
      assert RequestOk(s.requests[i], c);
    }
    LeftBound(s.requests, only, c);
  }

  lemma CheckDailyInv(s: State, t: string, c: Setting)
    requires Inv(s, c) && |s.requests| < c.w && s.daily < c.limit
    ensures Inv(Apply(s, CheckDaily(t), c), c)
  {
    var s' := Apply(s, CheckDaily(t), c);
    assert s'.requests[..|s.requests|] == s.requests;
    LeftOfSound(s', None, c);
    assert forall u :: Left(s'.requests, Some(u), c) == Left(s.requests, Some(u), c);
    forall u ensures TierOk(s', u, c) {
      assert TierOk(s, u, c);
    }
    forall i: nat | i < |s'.requests| && Fresh(s'.requests[i]) ensures PendingOk(s', s'.requests[i], c) {
      assert i < |s.requests| && PendingOk(s, s.requests[i], c);
    }
  }

  lemma RemovedFrom(rs: seq<Request>, i: nat, j: nat)
    requires i < |rs| && j < |rs| - 1
    ensures |Remove(rs, i)| == |rs| - 1 && Remove(rs, i)[j] == rs[if j < i then j else j + 1]
  {}

  lemma RemoveInv(s: State, i: nat, c: Setting)
    requires Inv(s, c) && i < |s.requests|
    ensures Inv(s.(requests := Remove(s.requests, i)), c)
  {
    var s' := s.(requests := Remove(s.requests, i));
    LeftRemove(s.requests, i, None, c);
    forall u ensures TierOk(s', u, c) && Left(s'.requests, Some(u), c) <= Left(s.requests, Some(u), c) {
      LeftRemove(s.requests, i, Some(u), c);
      assert TierOk(s, u, c);
    }
    forall j: nat | j < |s'.requests|
      ensures RequestOk(s'.requests[j], c) && (Fresh(s'.requests[j]) ==> PendingOk(s', s'.requests[j], c))
    {
      RemovedFrom(s.requests, i, j);
      assert RequestOk(s.requests[if j < i then j else j + 1], c);
      assert Fresh(s'.requests[j]) ==> PendingOk(s, s'.requests[j], c);
    }
    forall j: nat, l: nat | j < l < |s'.requests| ensures !(Fresh(s'.requests[j]) && Fresh(s'.requests[l])) {
      RemovedFrom(s.requests, i, j);
      RemovedFrom(s.requests, i, l);
    }
  }

  /** A request changes, and with it possibly a counter; the other requests stay. */
  lemma ChangeInv(s: State, s': State, i: nat, c: Setting)
    requires Inv(s, c) && i < |s.requests| == |s'.requests| && s'.requests == s.requests[i := s'.requests[i]]
    requires RequestOk(s'.requests[i], c) && (Fresh(s'.requests[i]) ==> PendingOk(s', s'.requests[i], c))
    requires Fresh(s'.requests[i]) ==> forall j: nat :: j < |s.requests| && j != i ==> !Fresh(s.requests[j])
    requires forall j: nat :: j < |s.requests| && j != i && Fresh(s.requests[j]) ==> PendingOk(s', s.requests[j], c)
    requires s'.daily + Left(s'.requests, None, c) <= Ceiling(c.limit, c)
    requires forall t :: TierOk(s', t, c)
    ensures Inv(s', c)
  {}

  lemma CheckTierInv(s: State, i: nat, c: Setting)
    requires Inv(s, c) && i < |s.requests| && s.requests[i].stage == SawDaily && 0 < TierLimit(c, s.requests[i].tier)
    requires !s.requests[i].stale ==> Usage(s.tiers, s.requests[i].tier) < TierLimit(c, s.requests[i].tier)
    ensures Inv(s.(requests := s.requests[i := s.requests[i].(stage := Passed)]), c)
  {
    var x := s.requests[i].(stage := Passed);
    var s' := s.(requests := s.requests[i := x]);
    assert RequestOk(s.requests[i], c);
    LeftUpdate(s.requests, i, x, None, c);
    LeftOfSound(s', Some(x.tier), c);
    forall u ensures TierOk(s', u, c)
      && (u != x.tier || x.stale ==> Left(s'.requests, Some(u), c) == Left(s.requests, Some(u), c))
    {
      assert TierOk(s, u, c);
      LeftUpdate(s.requests, i, x, Some(u), c);
    }
    forall j: nat | j < |s.requests| && j != i && Fresh(s.requests[j]) ensures PendingOk(s', s.requests[j], c) {
      assert PendingOk(s, s.requests[j], c) && 1 < c.w;
    }
    ChangeInv(s, s', i, c);
  }

  lemma GrantInv(s: State, i: nat, c: Setting)
    requires Inv(s, c) && i < |s.requests| && s.requests[i].stage == Passed
    ensures Inv(Apply(s, Grant(i), c), c)
  {
    var x, s' := s.requests[i].(stage := Granted), Apply(s, Grant(i), c);
    SameLeftInv(s, s', i, x, c);
  }

  /** A request changes its stage without touching a counter or what it may spend. */
  lemma SameLeftInv(s: State, s': State, i: nat, x: Request, c: Setting)
    requires Inv(s, c) && i < |s.requests| && s' == s.(requests := s.requests[i := x]) && RequestOk(x, c)
    requires x.tier == s.requests[i].tier && DailyShare(x) == DailyShare(s.requests[i]) && TierShare(x, c) == TierShare(s.requests[i], c)
    requires Fresh(x) ==> PendingOk(s, x, c) && forall j: nat :: j < |s.requests| && j != i ==> !Fresh(s.requests[j])
    ensures Inv(s', c)
  {
    LeftUpdate(s.requests, i, x, None, c);
    forall u ensures TierOk(s', u, c) && Left(s'.requests, Some(u), c) == Left(s.requests, Some(u), c) {
      assert TierOk(s, u, c);
      LeftUpdate(s.requests, i, x, Some(u), c);
    }
    forall j: nat | j < |s.requests| && j != i && Fresh(s.requests[j]) ensures PendingOk(s', s.requests[j], c) {
      assert PendingOk(s, s.requests[j], c);
    }
    ChangeInv(s, s', i, c);
  }

  /** Writing the daily counter, or nothing if the key is an earlier day's. */
  lemma WriteDailyInv(s: State, i: nat, c: Setting)
    requires Inv(s, c) && i < |s.requests| && s.requests[i].stage.CountedBoth?
    ensures Inv(TrackRequest(s, i), c)
  {
    var x, s' := s.requests[i], TrackRequest(s, i);
    var x' := x.(stage := WroteDaily(x.stage.usage));
    assert RequestOk(x, c);
    if x.stale {
      SameLeftInv(s, s', i, x', c);
    } else {
      LeftUpdate(s.requests, i, x', None, c);
      forall u ensures TierOk(s', u, c) && Left(s'.requests, Some(u), c) == Left(s.requests, Some(u), c) {
        assert TierOk(s, u, c);
        LeftUpdate(s.requests, i, x', Some(u), c);
      }
      assert PendingOk(s, x, c);
      ChangeInv(s, s', i, c);
    }
  }

  lemma WriteTierInv(s: State, i: nat, c: Setting)
    requires Inv(s, c) && i < |s.requests| && s.requests[i].stage.WroteDaily?
    ensures Inv(TrackRequest(s, i), c)
  {
    var x, s' := s.requests[i], TrackRequest(s, i);
    var x' := x.(stage := Granted, left := Less(x.left));
    assert RequestOk(x, c);
    if x.stale {
      SameLeftInv(s, s', i, x', c);
    } else {
      assert PendingOk(s, x, c);
      LeftUpdate(s.requests, i, x', None, c);
      forall u ensures TierOk(s', u, c) {
        assert TierOk(s, u, c);
        LeftUpdate(s.requests, i, x', Some(u), c);
      }
      ChangeInv(s, s', i, c);
    }
  }

  lemma TrackInv(s: State, i: nat, c: Setting)
    requires Inv(s, c) && i < |s.requests| && (c.w <= 1 || Quiet(s, Track(i)))
    ensures Inv(TrackRequest(s, i), c)
  {
    var x, s' := s.requests[i], TrackRequest(s, i);
    assert RequestOk(x, c) && TierOk(s, x.tier, c);
    match x.stage
    case Granted =>
      if x.left > 0 {
        SameLeftInv(s, s', i, x.(stage := CountedDaily(s.daily + 1), stale := false), c);
      }
    case CountedDaily(d) =>
      assert !x.stale ==> PendingOk(s, x, c);
      SameLeftInv(s, s', i, x.(stage := CountedBoth(d, Usage(s.tiers, x.tier) + 1)), c);
    case CountedBoth(_, _) => WriteDailyInv(s, i, c);
    case WroteDaily(_) => WriteTierInv(s, i, c);
    case _ =>
  }

  lemma ForgetInv(s: State, e: Event, c: Setting)
    requires Inv(s, c) && (e.ForgetDaily? || e.ForgetTier?) && (c.w <= 1 || Quiet(s, e))
    ensures Inv(Apply(s, e, c), c)
  {
    var s' := Apply(s, e, c);
    forall u ensures TierOk(s', u, c) {
      assert TierOk(s, u, c);
    }
    forall i: nat | i < |s'.requests| && Fresh(s'.requests[i]) ensures PendingOk(s', s'.requests[i], c) {
      assert PendingOk(s, s.requests[i], c);
    }
  }

  lemma NewDayInv(s: State, c: Setting)
    requires Inv(s, c)
    ensures Inv(Apply(s, NewDay, c), c)
  {
    var s' := Apply(s, NewDay, c);
    forall i: nat | i < |s'.requests| ensures RequestOk(s'.requests[i], c) && !Fresh(s'.requests[i]) {
      assert RequestOk(s.requests[i], c);
    }
    LeftOfSound(s', None, c);
    if s.requests != [] {
      assert RequestOk(s.requests[0], c);
    }
    forall u ensures TierOk(s', u, c) {
      if TierLimit(c, u) <= 0 {
        forall x | x in s'.requests ensures Share(x, Some(u), c) == 0 {
          var i: nat :| i < |s'.requests| && s'.requests[i] == x;
          assert RequestOk(s'.requests[i], c);
        }
        LeftNothing(s'.requests, Some(u), c);
      } else {
        LeftOfSound(s', Some(u), c);
      }
    }
  }

  lemma ApplyInv(s: State, e: Event, c: Setting)
    requires Inv(s, c) && (c.w <= 1 || Quiet(s, e))
    ensures Inv(Apply(s, e, c), c)
  {
    match e
    case CheckDaily(t) => if |s.requests| < c.w && s.daily < c.limit { CheckDailyInv(s, t, c); }
    case CheckTier(i, earlier) =>
      if i < |s.requests| && s.requests[i].stage == SawDaily {
        var x := s.requests[i];
        if (if x.stale then earlier else Usage(s.tiers, x.tier)) < TierLimit(c, x.tier) {
          CheckTierInv(s, i, c);
        } else {
          RemoveInv(s, i, c);
        }
      }
    case Grant(i) => if i < |s.requests| && s.requests[i].stage == Passed { GrantInv(s, i, c); }
    case Track(i) => if i < |s.requests| { TrackInv(s, i, c); }
    case Release(i) => if i < |s.requests| { RemoveInv(s, i, c); }
    case NewDay => NewDayInv(s, c);
    case _ => ForgetInv(s, e, c);
  }

  lemma {:induction false} RunInv(es: seq<Event>, c: Setting)
    requires c.w <= 1 || Obeys(Undivided, es, c)
    ensures Inv(Run(es, c), c)
  {
    if es == [] {
      assert 0 <= c.w * c.k;
    } else {
      RunInv(es[..|es| - 1], c);
      ApplyInv(Run(es[..|es| - 1], c), es[|es| - 1], c);
    }
  }

  /** With at most `w` requests in flight, those still being checked included, and `k` calls each, no
      counter exceeds `max(0, limit - 1 + w * k)`, as long as trackings are undivided.  With one request at a
      time that is not needed. */
  lemma CountersBounded(es: seq<Event>, c: Setting, tier: string)
    requires c.w <= 1 || Obeys(Undivided, es, c)
    ensures Run(es, c).daily <= if c.limit <= 0 then 0 else c.limit - 1 + c.w * c.k
    ensures Usage(Run(es, c).tiers, tier) <= if TierLimit(c, tier) <= 0 then 0 else TierLimit(c, tier) - 1 + c.w * c.k
  {
    RunInv(es, c);
    assert TierOk(Run(es, c), tier, c);
  }

  /** One request at a time, with one call: the counters never exceed their limits. */
  lemma NeverOverLimitOneByOne(es: seq<Event>, c: Setting, tier: string)
    requires c.w == c.k == 1 && 0 <= c.limit && 0 <= TierLimit(c, tier)
    ensures Run(es, c).daily <= c.limit && Usage(Run(es, c).tiers, tier) <= TierLimit(c, tier)
  {
    CountersBounded(es, c, tier);
  }

  // ---------------------------------------------------------------- counters against calls

  function Repeated(n: nat, x: int): int { if n == 0 then 0 else Repeated(n - 1, x) + x }

  lemma {:induction false} RepeatedIsProduct(n: nat, x: int)
    ensures Repeated(n, x) == n * x
  {
    if n > 0 {
      RepeatedIsProduct(n - 1, x);
      assert n * x == (n - 1) * x + x;
    }
  }

  lemma AtMostRepeated(calls: int, daily: int, forgets: nat, x: int)
    requires calls <= daily + Repeated(forgets, x) && daily <= x
    ensures calls <= (forgets + 1) * x
  {
    RepeatedIsProduct(forgets + 1, x);
  }

  predicate CallsOk(s: State, x: int) {
    s.calls <= s.daily + Repeated(s.forgets, x) && (s.forgets == 0 ==> s.calls == s.daily)
  }

  lemma CallsStep(s: State, e: Event, c: Setting)
    requires Inv(s, c) && CallsOk(s, Ceiling(c.limit, c))
    ensures CallsOk(Apply(s, e, c), Ceiling(c.limit, c))
  {
    if e.Track? && e.i < |s.requests| && Fresh(s.requests[e.i]) {
      assert PendingOk(s, s.requests[e.i], c);
    }
  }

  lemma {:induction false} CallsCounted(es: seq<Event>, c: Setting)
    requires c.w <= 1 || Obeys(Undivided, es, c)
    ensures CallsOk(Run(es, c), Ceiling(c.limit, c))
  {
    if es != [] {
      CallsCounted(es[..|es| - 1], c);
      RunInv(es[..|es| - 1], c);
      CallsStep(Run(es[..|es| - 1], c), es[|es| - 1], c);
    }
  }

  /** As long as trackings are undivided, the calls made in a day stay within one ceiling for each time the
      counter started from zero, and the counter is their number until it is forgotten. */
  lemma CallsBounded(es: seq<Event>, c: Setting)
    requires c.w <= 1 || Obeys(Undivided, es, c)
    ensures Run(es, c).calls <= (Run(es, c).forgets + 1) * if c.limit <= 0 then 0 else c.limit - 1 + c.w * c.k
    ensures Run(es, c).forgets == 0 ==> Run(es, c).calls == Run(es, c).daily
  {
    CallsCounted(es, c);
    CountersBounded(es, c, "");
    AtMostRepeated(Run(es, c).calls, Run(es, c).daily, Run(es, c).forgets, if c.limit <= 0 then 0 else c.limit - 1 + c.w * c.k);
  }
}
