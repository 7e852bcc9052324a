/** The delay between requests to one provider: over sequential calls through its wrapper, with what each call
    takes, and over calls that overlap. */
module RateLimit {
  import opened TimedStore

  /** One call: how long after the end of the previous one it comes, whether the cache has by then
      forgotten an expired request time, how much longer than asked the sleep takes, and how long
      usage tracking and the provider's own method take. */
  datatype Call = Call(gap: real, forgotten: bool, oversleep: real, tracking: real, work: real)

  predicate Sensible(c: Call) { c.gap >= 0.0 && c.oversleep >= 0.0 && c.tracking >= 0.0 && c.work >= 0.0 }

  /** `stamp` is the request time that the limiter stores; the provider's method starts at `start`. */
  datatype Request = Request(stamp: real, start: real, end: real)

  function MinDelay(requestsPerSecond: Option<real>): real
    requires requestsPerSecond.Some? ==> requestsPerSecond.value > 0.0
  {
    if requestsPerSecond.Some? then 1.0 / requestsPerSecond.value else 0.2
  }

  /** The stored request time as the cache answers it at `now`, zero standing for none. */
  function LastRequest(last: Option<Entry<real>>, now: real, forgotten: bool): real {
    if last == None || (forgotten && last.value.expires <= now) then 0.0 else last.value.value
  }

  /** When a request that arrives at `now` is let through. */
  function LetThrough(last: real, now: real, minDelay: real, oversleep: real): real {
    if now - last < minDelay then now + (minDelay - (now - last)) + oversleep else now
  }

  function Serve(last: Option<Entry<real>>, now: real, c: Call, minDelay: real): Request {
    var t := now + c.gap;
    var stamp := LetThrough(LastRequest(last, t, c.forgotten), t, minDelay, c.oversleep);
    Request(stamp, stamp + c.tracking, stamp + c.tracking + c.work)
  }

  /** The requests of a sequence of calls that begins at `now`. */
  function Requests(last: Option<Entry<real>>, now: real, cs: seq<Call>, minDelay: real, ttl: real): (rs: seq<Request>)
    ensures |rs| == |cs|
    decreases |cs|
  {
    if cs == [] then []
    else
      var r := Serve(last, now, cs[0], minDelay);
      [r] + Requests(Some(Entry(r.stamp, r.stamp + ttl)), r.end, cs[1..], minDelay, ttl)
  }

  ghost predicate Spaced(rs: seq<Request>, minDelay: real) {
    forall i: nat, j: nat :: j == i + 1 < |rs| ==> rs[j].stamp - rs[i].stamp >= minDelay
  }

  lemma {:induction false} RequestsSpaced(last: Option<Entry<real>>, now: real, cs: seq<Call>, minDelay: real, ttl: real)
    requires 0.0 <= minDelay <= ttl && forall c :: c in cs ==> Sensible(c)
    requires last.Some? ==> last.value.value <= now && last.value.expires == last.value.value + ttl
    ensures Spaced(Requests(last, now, cs, minDelay, ttl), minDelay)
    ensures cs != [] && last.Some? ==> Requests(last, now, cs, minDelay, ttl)[0].stamp - last.value.value >= minDelay
    decreases |cs|
  {
    if cs != [] {
      var r := Serve(last, now, cs[0], minDelay);
      assert Sensible(cs[0]);
      var last' := Some(Entry(r.stamp, r.stamp + ttl));
      var rest := Requests(last', r.end, cs[1..], minDelay, ttl);
      RequestsSpaced(last', r.end, cs[1..], minDelay, ttl);
      var rs := Requests(last, now, cs, minDelay, ttl);
      forall i: nat, j: nat | j == i + 1 < |rs| ensures rs[j].stamp - rs[i].stamp >= minDelay {
        assert rs[j] == rest[i];
        if i > 0 {
          assert rs[i] == rest[i - 1];
        }
      }
    }
  }

  /** The delay is a second's part: as many of them as requests a second are allowed make a second, five if nothing
      is configured. */
  lemma DelaysMakeASecond(requestsPerSecond: Option<real>)
    requires requestsPerSecond.Some? ==> requestsPerSecond.value > 0.0
    ensures requestsPerSecond.Some? ==> MinDelay(requestsPerSecond) * requestsPerSecond.value == 1.0
    ensures requestsPerSecond == None ==> 5.0 * MinDelay(requestsPerSecond) == 1.0
  {}

  /** No request waits for longer than it must: one that comes the minimum delay after the previous one, or later, is
      let through at once, and an earlier one when that time has come (and the sleep has ended). */
  lemma {:induction false} WaitsOnlyAsNeeded(last: Option<Entry<real>>, now: real, cs: seq<Call>, minDelay: real, ttl: real, i: nat)
    requires 0.0 < minDelay <= ttl && minDelay <= now && forall c :: c in cs ==> Sensible(c)
    requires last.Some? ==> last.value.value <= now && last.value.expires == last.value.value + ttl
    requires i < |cs|
    ensures
      var rs := Requests(last, now, cs, minDelay, ttl);
      var arrival := (if i == 0 then now else rs[i - 1].end) + cs[i].gap;
      && (i == 0 && last == None ==> rs[i].stamp == arrival)
      && ((i > 0 || last.Some?) ==>
            var earliest := (if i == 0 then last.value.value else rs[i - 1].stamp) + minDelay;
            && (arrival >= earliest ==> rs[i].stamp == arrival)
            && (arrival < earliest ==> rs[i].stamp == earliest + cs[i].oversleep))
      && rs[i].start == rs[i].stamp + cs[i].tracking && rs[i].end == rs[i].start + cs[i].work
    decreases i
  {
    var r := Serve(last, now, cs[0], minDelay);
    assert Sensible(cs[0]);
    if i > 0 {
      WaitsOnlyAsNeeded(Some(Entry(r.stamp, r.stamp + ttl)), r.end, cs[1..], minDelay, ttl, i - 1);
    }
  }

  /** Requests are let through at least the minimum delay apart, in every sequence of calls, exactly
      when the stored request time lives at least that long. */
  lemma SpacedIffTtl(now: real, minDelay: real, ttl: real)
    requires 0.0 < minDelay <= now
    ensures minDelay <= ttl <==>
      forall cs :: (forall c :: c in cs ==> Sensible(c)) ==> Spaced(Requests(None, now, cs, minDelay, ttl), minDelay)
  {
    if minDelay <= ttl {
      forall cs | forall c :: c in cs ==> Sensible(c) ensures Spaced(Requests(None, now, cs, minDelay, ttl), minDelay) {
        RequestsSpaced(None, now, cs, minDelay, ttl);
      }
    } else {
      var gap := if ttl < 0.0 then 0.0 else ttl;
      var a, b := Call(0.0, false, 0.0, 0.0, 0.0), Call(gap, true, 0.0, 0.0, 0.0);
      TwoRequests(now, a, b, minDelay, ttl);
      var rs := Requests(None, now, [a, b], minDelay, ttl);
      assert rs[1].stamp - rs[0].stamp == gap;
    }
  }

  lemma TwoRequests(now: real, a: Call, b: Call, minDelay: real, ttl: real)
    ensures
      var r := Serve(None, now, a, minDelay);
      Requests(None, now, [a, b], minDelay, ttl) == [r, Serve(Some(Entry(r.stamp, r.stamp + ttl)), r.end, b, minDelay)]
  {
    assert [a, b][1..] == [b] && [b][1..] == [];
  }

  // ---------------------------------------------------------------- windows

  function InWindow(rs: seq<Request>, from: real, to: real): nat {
    if rs == [] then 0
    else InWindow(rs[..|rs| - 1], from, to) + if from <= rs[|rs| - 1].stamp <= to then 1 else 0
  }

  lemma {:induction false} InWindowCounts(rs: seq<Request>, from: real, to: real)
    ensures InWindow(rs, from, to) == |set i: nat | i < |rs| && from <= rs[i].stamp <= to|
  {
    if rs != [] {
      var n := |rs| - 1;
      InWindowCounts(rs[..n], from, to);
      var before, all := set i: nat | i < n && from <= rs[..n][i].stamp <= to, set i: nat | i < |rs| && from <= rs[i].stamp <= to;
      assert all == if from <= rs[n].stamp <= to then before + {n} else before;
    }
  }

  function Times(n: nat, d: real): real { if n == 0 then 0.0 else Times(n - 1, d) + d }

  lemma TimesIsProduct(n: nat, d: real)
    ensures Times(n, d) == n as real * d
  {
    if n > 0 {
      assert n as real * d == (n - 1) as real * d + d;
    }
  }

  lemma {:induction false} Later(rs: seq<Request>, k: nat, m: nat, minDelay: real)
    requires Spaced(rs, minDelay) && k < m < |rs| && 0.0 <= minDelay
    ensures rs[m].stamp >= rs[k].stamp + minDelay
    decreases m
  {
    var l := m - 1;
    assert rs[l + 1].stamp - rs[l].stamp >= minDelay;
    if k < l {
      Later(rs, k, l, minDelay);
    }
  }

  /** If `n` requests lie in a window, the last of them comes at least `n - 1` delays after its start. */
  lemma {:induction false} WindowFilled(rs: seq<Request>, from: real, to: real, minDelay: real) returns (k: nat)
    requires Spaced(rs, minDelay) && 0.0 <= minDelay && InWindow(rs, from, to) > 0
    ensures k < |rs| && from <= rs[k].stamp <= to && from + Times(InWindow(rs, from, to) - 1, minDelay) <= rs[k].stamp
  {
    var m := |rs| - 1;
    var rs0 := rs[..m];
    var n0 := InWindow(rs0, from, to);
    assert Spaced(rs0, minDelay) by {
      assert forall i: nat, j: nat :: j == i + 1 < |rs0| ==> rs[j].stamp - rs[i].stamp >= minDelay;
    }
    if n0 == 0 {
      k := m;
    } else {
      k := WindowFilled(rs0, from, to, minDelay);
      if from <= rs[m].stamp <= to {
        Later(rs, k, m, minDelay);
        k := m;
      }
    }
  }

  lemma WindowCount(now: real, cs: seq<Call>, minDelay: real, ttl: real, from: real, w: real, n: nat)
    requires 0.0 <= minDelay <= ttl && forall c :: c in cs ==> Sensible(c)
    requires 0 < n == InWindow(Requests(None, now, cs, minDelay, ttl), from, from + w)
    ensures Times(n - 1, minDelay) <= w
  {
    var rs := Requests(None, now, cs, minDelay, ttl);
    RequestsSpaced(None, now, cs, minDelay, ttl);
    var k := WindowFilled(rs, from, from + w, minDelay);
  }

  /** A window of length `w` holds at most `floor(w * requests per second) + 1` requests. */
  lemma WindowBound(now: real, cs: seq<Call>, rps: real, ttl: real, from: real, w: real)
    requires 0.0 < rps && 1.0 / rps <= ttl && 0.0 <= w && forall c :: c in cs ==> Sensible(c)
    ensures
      var rs := Requests(None, now, cs, 1.0 / rps, ttl);
      |set i: nat | i < |rs| && from <= rs[i].stamp <= from + w| <= (w * rps).Floor + 1
  {
    InWindowCounts(Requests(None, now, cs, 1.0 / rps, ttl), from, from + w);
    var d := 1.0 / rps;
    var n := InWindow(Requests(None, now, cs, d, ttl), from, from + w);
    if n == 0 {
      Scale(0, w, rps);
    } else {
      WindowCount(now, cs, d, ttl, from, w, n);
      Scale(n - 1, w, rps);
    }
  }

  lemma Scale(n: nat, w: real, rps: real)
    requires 0.0 < rps && Times(n, 1.0 / rps) <= w
    ensures n as real <= w * rps
  {
    var d := 1.0 / rps;
    TimesIsProduct(n, d);
    assert d * rps == 1.0;
    assert n as real == n as real * (d * rps) == (n as real * d) * rps;
    MulMonotone(n as real * d, w, rps);
  }

  lemma MulMonotone(a: real, b: real, c: real)
    requires a <= b && 0.0 <= c
    ensures a * c <= b * c
  {}

  // ---------------------------------------------------------------- when the provider is really called

  /** The provider's method starts after usage tracking, so two starts are apart by the minimum delay
      less what tracking took longer for the first one. */
  lemma StartsApart(now: real, cs: seq<Call>, minDelay: real, ttl: real, i: nat)
    requires 0.0 <= minDelay <= ttl && i + 1 < |cs| && forall c :: c in cs ==> Sensible(c)
    ensures
      var rs := Requests(None, now, cs, minDelay, ttl);
      rs[i + 1].start - rs[i].start >= minDelay - (cs[i].tracking - cs[i + 1].tracking)
  {
    RequestsSpaced(None, now, cs, minDelay, ttl);
    StartsAfterTracking(None, now, cs, minDelay, ttl, i);
    StartsAfterTracking(None, now, cs, minDelay, ttl, i + 1);
  }

  lemma {:induction false} StartsAfterTracking(last: Option<Entry<real>>, now: real, cs: seq<Call>, minDelay: real, ttl: real, i: nat)
    requires i < |cs|
    ensures
      var r := Requests(last, now, cs, minDelay, ttl)[i];
      r.start == r.stamp + cs[i].tracking
    decreases i
  {
    if i > 0 {
      var r := Serve(last, now, cs[0], minDelay);
      StartsAfterTracking(Some(Entry(r.stamp, r.stamp + ttl)), r.end, cs[1..], minDelay, ttl, i - 1);
    }
  }

  /** And they can be that close: with tracking as slow as the delay itself, two provider calls start
      at the same instant. */
  lemma StartsCanCoincide(now: real, minDelay: real, ttl: real)
    requires 0.0 < minDelay <= now && minDelay <= ttl
    ensures
      var cs := [Call(0.0, false, 0.0, minDelay, 0.0), Call(0.0, false, 0.0, 0.0, 0.0)];
      var rs := Requests(None, now, cs, minDelay, ttl);
      rs[1].start == rs[0].start
  {
    TwoRequests(now, Call(0.0, false, 0.0, minDelay, 0.0), Call(0.0, false, 0.0, 0.0, 0.0), minDelay, ttl);
  }

  // ---------------------------------------------------------------- calls that overlap

  /** The stored request time; the calls that have read it, with the instant until which each sleeps; and the
      instants at which requests were let through. */
  datatype Gate = Gate(now: real, last: Option<Entry<real>>, waiting: seq<real>, stamps: seq<real>)

  /** A call arrives and reads the stored time; it passes once it has slept, and stores its own. */
  datatype GateEvent = Tick(elapsed: real) | Arrive | Pass(i: nat) | Forget

  function ApplyGate(g: Gate, e: GateEvent, minDelay: real, ttl: real): Gate {
    match e
    case Tick(d) => if d < 0.0 then g else g.(now := g.now + d)
    case Arrive => g.(waiting := g.waiting + [LetThrough(LastRequest(g.last, g.now, false), g.now, minDelay, 0.0)])
    case Pass(i) =>
      if i < |g.waiting| && g.waiting[i] <= g.now then
        Gate(g.now, Some(Entry(g.now, g.now + ttl)), g.waiting[..i] + g.waiting[i + 1..], g.stamps + [g.now])
      else g
    case Forget => if g.last.Some? && g.last.value.expires <= g.now then g.(last := None) else g
  }

  function RunGate(now: real, es: seq<GateEvent>, minDelay: real, ttl: real): Gate {
    if es == [] then Gate(now, None, [], []) else ApplyGate(RunGate(now, es[..|es| - 1], minDelay, ttl), es[|es| - 1], minDelay, ttl)
  }

  /** At most `w` calls are between their reading and their storing of the request time. */
  ghost predicate AtMost(w: nat, now: real, es: seq<GateEvent>, minDelay: real, ttl: real) {
    es != [] ==>
      && AtMost(w, now, es[..|es| - 1], minDelay, ttl)
      && |RunGate(now, es, minDelay, ttl).waiting| <= w
  }

  ghost predicate StampsSpaced(stamps: seq<real>, minDelay: real) {
    forall i: nat, j: nat :: j == i + 1 < |stamps| ==> stamps[j] - stamps[i] >= minDelay
  }

  /** The stored time is that of the last request unless that is long enough ago, and the call that waits does so
      for long enough. */
  ghost predicate GateOk(g: Gate, minDelay: real, ttl: real) {
    && StampsSpaced(g.stamps, minDelay) && |g.waiting| <= 1 && minDelay <= g.now
    && (g.stamps != [] ==>
          var last := g.stamps[|g.stamps| - 1];
          && last <= g.now
          && (g.last == Some(Entry(last, last + ttl)) || (g.last == None && last + minDelay <= g.now))
          && (g.waiting != [] ==> last + minDelay <= g.waiting[0] || last + minDelay <= g.now))
  }

  lemma ApplyGateOk(g: Gate, e: GateEvent, minDelay: real, ttl: real)
    requires GateOk(g, minDelay, ttl) && 0.0 < minDelay <= ttl && |ApplyGate(g, e, minDelay, ttl).waiting| <= 1
    ensures GateOk(ApplyGate(g, e, minDelay, ttl), minDelay, ttl)
  {
    if e.Arrive? {
      assert g.waiting == [] && ApplyGate(g, e, minDelay, ttl).waiting[0] == LetThrough(LastRequest(g.last, g.now, false), g.now, minDelay, 0.0);
    }
  }

  lemma {:induction false} RunGateOk(now: real, es: seq<GateEvent>, minDelay: real, ttl: real)
    requires 0.0 < minDelay <= now && minDelay <= ttl && AtMost(1, now, es, minDelay, ttl)
    ensures GateOk(RunGate(now, es, minDelay, ttl), minDelay, ttl)
  {
    if es != [] {
      RunGateOk(now, es[..|es| - 1], minDelay, ttl);
      ApplyGateOk(RunGate(now, es[..|es| - 1], minDelay, ttl), es[|es| - 1], minDelay, ttl);
    }
  }

  lemma GateExtended(w: nat, now: real, es: seq<GateEvent>, e: GateEvent, minDelay: real, ttl: real, g: Gate, g': Gate)
    returns (longer: seq<GateEvent>)
    requires AtMost(w, now, es, minDelay, ttl) && RunGate(now, es, minDelay, ttl) == g
    requires ApplyGate(g, e, minDelay, ttl) == g' && |g'.waiting| <= w
    ensures AtMost(w, now, longer, minDelay, ttl) && RunGate(now, longer, minDelay, ttl) == g'
  {
    longer := es + [e];
    assert longer[..|es|] == es;
  }

  lemma NoRun(w: nat, now: real, minDelay: real, ttl: real)
    ensures AtMost(w, now, [], minDelay, ttl) && RunGate(now, [], minDelay, ttl) == Gate(now, None, [], [])
  {}

  lemma Arriving(g: Gate, minDelay: real, ttl: real)
    requires g.last == None && g.waiting == [] && minDelay <= g.now
    ensures ApplyGate(g, Arrive, minDelay, ttl) == g.(waiting := [g.now])
  {
    assert g.waiting + [g.now] == [g.now];
  }

  lemma ArrivingSecond(g: Gate, minDelay: real, ttl: real)
    requires g.last == None && g.waiting == [g.now] && minDelay <= g.now
    ensures ApplyGate(g, Arrive, minDelay, ttl) == g.(waiting := [g.now, g.now])
  {
    assert g.waiting + [g.now] == [g.now, g.now];
  }

  lemma Passing(g: Gate, minDelay: real, ttl: real)
    requires g.waiting != [] && g.waiting[0] <= g.now
    ensures ApplyGate(g, Pass(0), minDelay, ttl) == Gate(g.now, Some(Entry(g.now, g.now + ttl)), g.waiting[1..], g.stamps + [g.now])
  {
    assert g.waiting[..0] + g.waiting[1..] == g.waiting[1..];
  }

  lemma Forgetting(now: real, stamp: real, gap: real, minDelay: real, ttl: real)
    requires gap >= 0.0 && gap >= ttl && now == stamp + gap
    ensures
      var last := Some(Entry(stamp, stamp + ttl));
      && ApplyGate(Gate(stamp, last, [], [stamp]), Tick(gap), minDelay, ttl) == Gate(now, last, [], [stamp])
      && ApplyGate(Gate(now, last, [], [stamp]), Forget, minDelay, ttl) == Gate(now, None, [], [stamp])
  {}

  /** A call that arrives when none is stored is let through at once. */
  lemma PassAlone(w: nat, start: real, es: seq<GateEvent>, minDelay: real, ttl: real, g: Gate) returns (longer: seq<GateEvent>)
    requires AtMost(w, start, es, minDelay, ttl) && RunGate(start, es, minDelay, ttl) == g
    requires 1 <= w && g.last == None && g.waiting == [] && minDelay <= g.now
    ensures AtMost(w, start, longer, minDelay, ttl)
    ensures RunGate(start, longer, minDelay, ttl) == Gate(g.now, Some(Entry(g.now, g.now + ttl)), [], g.stamps + [g.now])
  {
    var g1 := g.(waiting := [g.now]);
    Arriving(g, minDelay, ttl);
    Passing(g1, minDelay, ttl);
    longer := GateExtended(w, start, es, Arrive, minDelay, ttl, g, g1);
    longer := GateExtended(w, start, longer, Pass(0), minDelay, ttl, g1, Gate(g.now, Some(Entry(g.now, g.now + ttl)), [], g.stamps + [g.now]));
  }

  /** Two calls that read the same old time are let through at one instant. */
  lemma TwoPassTogether(w: nat, now: real, minDelay: real, ttl: real) returns (es: seq<GateEvent>)
    requires 2 <= w && 0.0 < minDelay <= now
    ensures AtMost(w, now, es, minDelay, ttl) && RunGate(now, es, minDelay, ttl).stamps == [now, now]
  {
    var last := Some(Entry(now, now + ttl));
    var g0, g1, g2 := Gate(now, None, [], []), Gate(now, None, [now], []), Gate(now, None, [now, now], []);
    var g3, g4 := Gate(now, last, [now], [now]), Gate(now, last, [], [now, now]);
    NoRun(w, now, minDelay, ttl);
    Arriving(g0, minDelay, ttl);
    ArrivingSecond(g1, minDelay, ttl);
    BothPassing(now, minDelay, ttl);
    es := GateExtended(w, now, [], Arrive, minDelay, ttl, g0, g1);
    es := GateExtended(w, now, es, Arrive, minDelay, ttl, g1, g2);
    es := GateExtended(w, now, es, Pass(0), minDelay, ttl, g2, g3);
    es := GateExtended(w, now, es, Pass(0), minDelay, ttl, g3, g4);
  }

  lemma BothPassing(now: real, minDelay: real, ttl: real)
    ensures
      var last := Some(Entry(now, now + ttl));
      && ApplyGate(Gate(now, None, [now, now], []), Pass(0), minDelay, ttl) == Gate(now, last, [now], [now])
      && ApplyGate(Gate(now, last, [now], [now]), Pass(0), minDelay, ttl) == Gate(now, last, [], [now, now])
  {
    Passing(Gate(now, None, [now, now], []), minDelay, ttl);
    Passing(Gate(now, Some(Entry(now, now + ttl)), [now], [now]), minDelay, ttl);
    assert [now] + [now] == [now, now] && [now, now][1..] == [now];
  }

  /** A request time that is forgotten too early lets the next call through too early. */
  lemma PassesAfterForgetting(w: nat, now: real, minDelay: real, ttl: real) returns (es: seq<GateEvent>)
    requires 1 <= w && 0.0 < minDelay <= now && ttl < minDelay
    ensures AtMost(w, now, es, minDelay, ttl) && !StampsSpaced(RunGate(now, es, minDelay, ttl).stamps, minDelay)
  {
    var gap := if ttl < 0.0 then 0.0 else ttl;
    var t := now + gap;
    var last := Some(Entry(now, now + ttl));
    var g0, g1, g2, g3 := Gate(now, None, [], []), Gate(now, last, [], [now]), Gate(t, last, [], [now]), Gate(t, None, [], [now]);
    NoRun(w, now, minDelay, ttl);
    es := PassAlone(w, now, [], minDelay, ttl, g0);
    assert g0.stamps + [now] == [now];
    Forgetting(t, now, gap, minDelay, ttl);
    es := GateExtended(w, now, es, Tick(gap), minDelay, ttl, g1, g2);
    es := GateExtended(w, now, es, Forget, minDelay, ttl, g2, g3);
    es := PassAlone(w, now, es, minDelay, ttl, g3);
    TooClose(now, t, minDelay);
  }

  lemma TooClose(a: real, b: real, minDelay: real)
    requires b - a < minDelay
    ensures !StampsSpaced([a] + [b], minDelay)
  {
    var stamps := [a] + [b];
    assert stamps[1] - stamps[0] == b - a;
  }

  lemma {:induction false} NothingPasses(now: real, es: seq<GateEvent>, minDelay: real, ttl: real)
    requires AtMost(0, now, es, minDelay, ttl)
    ensures RunGate(now, es, minDelay, ttl).stamps == [] && RunGate(now, es, minDelay, ttl).waiting == []
  {
    if es != [] {
      NothingPasses(now, es[..|es| - 1], minDelay, ttl);
    }
  }

  /** Requests are let through at least the minimum delay apart in all runs exactly when calls do not overlap and
      the stored request time lives at least that long (or no call is made). */
  lemma SpacedIffAlone(w: nat, now: real, minDelay: real, ttl: real)
    requires 0.0 < minDelay <= now
    ensures w == 0 || (w == 1 && minDelay <= ttl) <==>
      forall es :: AtMost(w, now, es, minDelay, ttl) ==> StampsSpaced(RunGate(now, es, minDelay, ttl).stamps, minDelay)
  {
    if w == 0 {
      forall es | AtMost(w, now, es, minDelay, ttl) ensures StampsSpaced(RunGate(now, es, minDelay, ttl).stamps, minDelay) {
        NothingPasses(now, es, minDelay, ttl);
      }
    } else if w == 1 && minDelay <= ttl {
      forall es | AtMost(w, now, es, minDelay, ttl) ensures StampsSpaced(RunGate(now, es, minDelay, ttl).stamps, minDelay) {
        RunGateOk(now, es, minDelay, ttl);
      }
    } else if w == 1 {
      var es := PassesAfterForgetting(w, now, minDelay, ttl);
    } else {
      var es := TwoPassTogether(w, now, minDelay, ttl);
      var f := RunGate(now, es, minDelay, ttl).stamps;
      assert f[1] - f[0] == 0.0;
    }
  }
}
