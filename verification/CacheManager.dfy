/** The cache manager object: a local store of its own in front of a Redis shared with others. */
module CacheManager {
  import opened TimedStore
  import opened CacheLayers

  class Redis<V> {
    var data: Store<string, V>
    var index: map<string, set<string>>

    constructor ()
      ensures data == map[] && index == map[]
    {
      data, index := map[], map[];
    }
  }

  datatype CacheType = STATS | PROVIDER | METRICS | GLOBAL | RATE_LIMIT

  class CacheManager<V> {
    var local: Store<string, V>
    const redis: Redis<V>
    const ttlConfig: map<string, map<CacheType, int>>

    constructor (redis: Redis<V>, ttlConfig: map<string, map<CacheType, int>>)
      ensures this.redis == redis && this.ttlConfig == ttlConfig && local == map[]
    {
      this.redis, this.ttlConfig, local := redis, ttlConfig, map[];
    }

    /** What this process sees of the many-process state. */
    ghost function View(now: real): State<V>
      reads this, redis
    {
      State(now, [local], redis.data, redis.index)
    }

    ghost predicate Is(s: State<V>)
      requires |s.locals| == 1
      reads this, redis
    {
      local == s.locals[0] && redis.data == s.redis && redis.index == s.index
    }

    /** The tier's own time to live, else the ACTIVE tier's, else an hour. */
    function GetTtl(cacheType: CacheType, tier: string): (ttl: int)
      ensures tier in ttlConfig && cacheType in ttlConfig[tier] ==> ttl == ttlConfig[tier][cacheType]
      ensures (tier !in ttlConfig || cacheType !in ttlConfig[tier]) && "ACTIVE" in ttlConfig && cacheType in ttlConfig["ACTIVE"] ==>
                ttl == ttlConfig["ACTIVE"][cacheType]
      ensures (tier !in ttlConfig || cacheType !in ttlConfig[tier]) && ("ACTIVE" !in ttlConfig || cacheType !in ttlConfig["ACTIVE"]) ==>
                ttl == 3600
    {
      var tierConfig := if tier in ttlConfig then ttlConfig[tier] else map[];
      var activeConfig := if "ACTIVE" in ttlConfig then ttlConfig["ACTIVE"] else map[];
      if cacheType in tierConfig then tierConfig[cacheType]
      else if cacheType in activeConfig then activeConfig[cacheType]
      else 3600
    }

    method Get(key: string, now: real, answers: nat) returns (data: Option<V>)
      modifies this`local
      ensures Is(DoGet(old(View(now)), 0, key, answers).0)
      ensures data == DoGet(old(View(now)), 0, key, answers).1
    {
      data := Lookup(local, key, now);
      if data.Some? {
        return;
      }
      if answers < 1 {
        return None;
      }
      data := Lookup(redis.data, key, now);
      if data.Some? {
        local := Put(local, key, data.value, now, 60.0);
      }
    }

    method Set(key: string, data: Option<V>, cacheType: CacheType, collection: Option<string>, now: real, answers: nat)
      returns (ok: bool)
      modifies this`local, redis
      ensures Is(DoSet(old(View(now)), 0, key, data, GetTtl(cacheType, "ACTIVE") as real, collection, answers).0)
      ensures ok == DoSet(old(View(now)), 0, key, data, GetTtl(cacheType, "ACTIVE") as real, collection, answers).1
    {
      if data == None {
        return false;
      }
      var ttl := GetTtl(cacheType, "ACTIVE") as real;
      local := Put(local, key, data.value, now, ttl);
      if answers < 1 || ttl <= 0.0 {
        return false;
      }
      redis.data := Put(redis.data, key, data.value, now, ttl);
      if collection.Some? {
        if answers < 2 {
          return false;
        }
        var members := if collection.value in redis.index then redis.index[collection.value] else {};
        redis.index := redis.index[collection.value := members + {key}];
      }
      ok := true;
    }

    method Delete(key: string, now: real, answers: nat) returns (ok: bool)
      modifies this`local, redis
      ensures Is(DoDelete(old(View(now)), 0, key, answers).0) && ok == DoDelete(old(View(now)), 0, key, answers).1
    {
      local := local - {key};
      if answers < 1 {
        return false;
      }
      redis.data := redis.data - {key};
      ok := true;
    }

    method InvalidateCollectionCaches(address: string, now: real, answers: nat) returns (count: int)
      modifies this`local, redis
      ensures Is(DoInvalidate(old(View(now)), 0, address, answers).0)
      ensures count == DoInvalidate(old(View(now)), 0, address, answers).1
    {
      if answers < 1 {
        return 0;
      }
      var keys := if address in redis.index then redis.index[address] else {};
      if keys == {} || answers < 2 {
        return 0;
      }
      var deleted := |LiveIn(redis.data, keys, now)| + 1;
      redis.data := redis.data - keys;
      redis.index := redis.index - {address};
      var todo := keys;
      while todo != {}
        invariant todo <= keys && local == old(local) - (keys - todo)
        invariant redis.data == old(redis.data) - keys && redis.index == old(redis.index) - {address}
        decreases todo
      {
        var key :| key in todo;
        local := local - {key};
        todo := todo - {key};
      }
      count := deleted - 1;
    }

    method InvalidateAllCaches(now: real, answers: nat) returns (ok: bool)
      modifies this`local, redis
      ensures Is(DoInvalidateAll(old(View(now)), 0, answers).0) && ok == DoInvalidateAll(old(View(now)), 0, answers).1
    {
      local := map[];
      if answers < 1 {
        return false;
      }
      redis.data, redis.index := map[], map[];
      ok := true;
    }
  }
}
