/** The quota manager object and the calls that its wrappers intercept. */
module QuotaManager {
  import opened TimedStore
  import opened ProviderQuota
  import RateLimit

  datatype Config = Config(dailyCredits: int, requestsPerSecond: real)

  datatype Key =
    | DailyKey(provider: string, day: int)
    | TierKey(provider: string, tier: string, day: int)

  class ProviderQuotaManager {
    var usage: map<Key, nat>
    var lastRequest: map<string, Entry<real>>
    const allocations: map<string, real>
    const rateLimitTtl: real

    constructor (allocations: map<string, real>, rateLimitTtl: real)
      ensures usage == map[] && lastRequest == map[]
      ensures this.allocations == allocations && this.rateLimitTtl == rateLimitTtl
    {
      usage, lastRequest := map[], map[];
      this.allocations, this.rateLimitTtl := allocations, rateLimitTtl;
    }

    function Used(key: Key): nat
      reads this
    {
      if key in usage then usage[key] else 0
    }

    /** Quota is there if a configuration is, the day's calls are fewer than its daily credits, and one call more
        of the tier stays within the tier's share of them, a tenth if it has none. */
    method CheckQuotaAvailable(provider: string, tier: string, config: Option<Config>, day: int) returns (ok: bool)
      ensures config == None ==> !ok
      ensures config.Some? ==>
        var daily, used, credits := Used(DailyKey(provider, day)), Used(TierKey(provider, tier, day)), config.value.dailyCredits;
        ok <==> daily < credits && if tier in allocations then (used + 1) as real <= allocations[tier] * credits as real
                                   else 10 * (used + 1) <= credits
      ensures ok <==>
        (&& config.Some?
         && QuotaAvailable(Used(DailyKey(provider, day)), Used(TierKey(provider, tier, day)),
                           config.value.dailyCredits, TierCredits(allocations, config.value.dailyCredits, tier)))
    {
      if config == None {
        return false;
      }
      var dailyLimit := config.value.dailyCredits;
      var tierLimit := TierCredits(allocations, dailyLimit, tier);
      TierRoom(allocations, dailyLimit, tier, Used(TierKey(provider, tier, day)));
      ok := Used(DailyKey(provider, day)) < dailyLimit && Used(TierKey(provider, tier, day)) < tierLimit;
    }

    /** Exactly the two counters of the provider's day and tier go up by one. */
    method TrackRequest(provider: string, tier: string, day: int)
      modifies this`usage
      ensures Used(DailyKey(provider, day)) == old(Used(DailyKey(provider, day))) + 1
      ensures Used(TierKey(provider, tier, day)) == old(Used(TierKey(provider, tier, day))) + 1
      ensures forall k :: k != DailyKey(provider, day) && k != TierKey(provider, tier, day) ==> Used(k) == old(Used(k))
    {
      var dailyUsage := Used(DailyKey(provider, day)) + 1;
      var tierUsage := Used(TierKey(provider, tier, day)) + 1;
      usage := usage[DailyKey(provider, day) := dailyUsage];
      usage := usage[TierKey(provider, tier, day) := tierUsage];
    }

    function Last(provider: string): Option<Entry<real>>
      reads this
    {
      if provider in lastRequest then Some(lastRequest[provider]) else None
    }

    /** Returns the instant, after the sleep that may be needed, at which the request is let through. */
    method ApplyRateLimiting(provider: string, config: Option<Config>, now: real, forgotten: bool, oversleep: real)
      returns (stamp: real)
      requires config.Some? ==> config.value.requestsPerSecond > 0.0
      modifies this`lastRequest
      ensures
        var rps := if config.Some? then Some(config.value.requestsPerSecond) else None;
        stamp == RateLimit.LetThrough(
          RateLimit.LastRequest(old(Last(provider)), now, forgotten), now, RateLimit.MinDelay(rps), oversleep)
      ensures lastRequest == old(lastRequest)[provider := Entry(stamp, stamp + rateLimitTtl)]
    {
      var minDelay := if config.Some? then 1.0 / config.value.requestsPerSecond else 0.2;
      var last := 0.0;
      if provider in lastRequest && !(forgotten && lastRequest[provider].expires <= now) {
        last := lastRequest[provider].value;
      }
      stamp := now;
      var sinceLast := now - last;
      if sinceLast < minDelay {
        stamp := now + (minDelay - sinceLast) + oversleep;
      }
      lastRequest := lastRequest[provider := Entry(stamp, stamp + rateLimitTtl)];
    }

    /** One intercepted call: rate limit, then tracking, then the provider's own method. */
    method CallProvider(provider: string, tier: string, config: Option<Config>, day: int, now: real, c: RateLimit.Call)
      returns (r: RateLimit.Request)
      requires config.Some? ==> config.value.requestsPerSecond > 0.0
      modifies this
      ensures
        var rps := if config.Some? then Some(config.value.requestsPerSecond) else None;
        r == RateLimit.Serve(old(Last(provider)), now, c, RateLimit.MinDelay(rps))
      ensures Last(provider) == Some(Entry(r.stamp, r.stamp + rateLimitTtl))
      ensures forall p :: p != provider ==> Last(p) == old(Last(p))
      ensures Used(DailyKey(provider, day)) == old(Used(DailyKey(provider, day))) + 1
      ensures Used(TierKey(provider, tier, day)) == old(Used(TierKey(provider, tier, day))) + 1
      ensures forall k :: k != DailyKey(provider, day) && k != TierKey(provider, tier, day) ==> Used(k) == old(Used(k))
    {
      var stamp := ApplyRateLimiting(provider, config, now + c.gap, c.forgotten, c.oversleep);
      TrackRequest(provider, tier, day);
      var start := stamp + c.tracking;
      r := RateLimit.Request(stamp, start, start + c.work);
    }
  }
}
