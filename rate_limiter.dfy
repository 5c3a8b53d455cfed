/**
 * `RateLimiterService` (backend/src/common/services/rate-limiter.service.ts):
 * a fixed-window request counter per device.
 *
 * The clock `Date.now()` is the parameter `now` (milliseconds). The
 * configuration lookups are parameters of the constructor.
 */
module RateLimiter {
  import opened Wrappers

  /** The record kept per device: requests counted and when the window opened. */
  datatype Entry = Entry(count: int, timestamp: int)

  /** The outcome of one check: whether the request is refused, and the new cache. */
  datatype Outcome = Outcome(limited: bool, cache: map<string, Entry>)

  const DefaultLimit: int := 10
  const DefaultTtl: int := 60000

  /**
   * One call of `isRateLimited(deviceId)` at time `now`: a known device
   * inside its window is refused once its count has reached the limit and is
   * counted otherwise; a device whose window has passed starts a new window;
   * an unknown device starts its first window.
   */
  function Check(limit: int, ttl: int, cache: map<string, Entry>, id: string, now: int): (o: Outcome)
    ensures id in o.cache
    ensures o.cache.Keys == cache.Keys + {id}
    ensures forall k :: k in cache && k != id ==> o.cache[k] == cache[k]
    ensures o.limited ==> id in cache && o.cache == cache
  {
    if id in cache then
      var e := cache[id];
      if now - e.timestamp < ttl then
        if e.count >= limit then Outcome(true, cache)
        else Outcome(false, cache[id := Entry(e.count + 1, e.timestamp)])
      else Outcome(false, cache[id := Entry(1, now)])
    else Outcome(false, cache[id := Entry(1, now)])
  }

  /** Every count lies between 1 and the limit (1 when the limit is below 1). */
  predicate CountsBounded(limit: int, cache: map<string, Entry>) {
    forall k :: k in cache ==> 1 <= cache[k].count <= (if limit < 1 then 1 else limit)
  }

  lemma CheckKeepsCountsBounded(limit: int, ttl: int, cache: map<string, Entry>, id: string, now: int)
    requires CountsBounded(limit, cache)
    ensures CountsBounded(limit, Check(limit, ttl, cache, id, now).cache)
  {
  }

  /**
   * A request is refused exactly when the device has a window still open at
   * `now` whose count has reached the limit.
   */
  lemma CheckRefusesIff(limit: int, ttl: int, cache: map<string, Entry>, id: string, now: int)
    ensures Check(limit, ttl, cache, id, now).limited <==>
              id in cache && now - cache[id].timestamp < ttl && cache[id].count >= limit
  {
  }

  /**
   * A request inside the open window that is under the limit is accepted,
   * raises the count by one and keeps the window's opening time, so the
   * window closes `ttl` after its first request, not after its last.
   */
  lemma CheckInsideWindow(limit: int, ttl: int, cache: map<string, Entry>, id: string, now: int)
    requires id in cache && now - cache[id].timestamp < ttl && cache[id].count < limit
    ensures !Check(limit, ttl, cache, id, now).limited
    ensures Check(limit, ttl, cache, id, now).cache[id] == Entry(cache[id].count + 1, cache[id].timestamp)
  {
  }

  /** Once the window has passed, the next request is accepted and opens a new window at `now`. */
  lemma CheckAfterWindow(limit: int, ttl: int, cache: map<string, Entry>, id: string, now: int)
    requires id !in cache || now - cache[id].timestamp >= ttl
    ensures !Check(limit, ttl, cache, id, now).limited
    ensures Check(limit, ttl, cache, id, now).cache[id] == Entry(1, now)
  {
  }

  /** The answers to requests from one device at the given times, in order. */
  function Run(limit: int, ttl: int, cache: map<string, Entry>, id: string, times: seq<int>): seq<bool>
    decreases |times|
  {
    if times == [] then []
    else
      var o := Check(limit, ttl, cache, id, times[0]);
      [o.limited] + Run(limit, ttl, o.cache, id, times[1..])
  }

  /** The rate limiter's cache after requests from one device at the given times. */
  function RunCache(limit: int, ttl: int, cache: map<string, Entry>, id: string, times: seq<int>): map<string, Entry>
    decreases |times|
  {
    if times == [] then cache
    else RunCache(limit, ttl, Check(limit, ttl, cache, id, times[0]).cache, id, times[1..])
  }

  /** One more request extends the answers by the answer of one more check. */
  lemma {:induction false} RunSnoc(limit: int, ttl: int, cache: map<string, Entry>, id: string, times: seq<int>, t: int)
    ensures RunCache(limit, ttl, cache, id, times + [t]) ==
              Check(limit, ttl, RunCache(limit, ttl, cache, id, times), id, t).cache
    ensures Run(limit, ttl, cache, id, times + [t]) ==
              Run(limit, ttl, cache, id, times) + [Check(limit, ttl, RunCache(limit, ttl, cache, id, times), id, t).limited]
    decreases |times|
  {
    if times == [] {
      assert [t][1..] == [];
    } else {
      assert (times + [t])[1..] == times[1..] + [t];
      RunSnoc(limit, ttl, Check(limit, ttl, cache, id, times[0]).cache, id, times[1..], t);
    }
  }

  /**
   * Inside one window, a device whose count is `c` is let through
   * `max(limit - c, 0)` more times and refused from then on.
   */
  lemma {:induction false} RunInsideWindow(limit: int, ttl: int, cache: map<string, Entry>, id: string, times: seq<int>)
    requires id in cache
    requires forall i :: 0 <= i < |times| ==> times[i] - cache[id].timestamp < ttl
    ensures |Run(limit, ttl, cache, id, times)| == |times|
    ensures forall i :: 0 <= i < |times| ==>
              Run(limit, ttl, cache, id, times)[i] == (cache[id].count + i >= limit)
    ensures id in RunCache(limit, ttl, cache, id, times)
    ensures RunCache(limit, ttl, cache, id, times)[id].timestamp == cache[id].timestamp
    decreases |times|
  {
    if times != [] {
      var o := Check(limit, ttl, cache, id, times[0]);
      var rest := Run(limit, ttl, o.cache, id, times[1..]);
      var e := cache[id];
      if e.count >= limit {
        RunInsideWindow(limit, ttl, o.cache, id, times[1..]);
        forall i | 0 <= i < |times| ensures Run(limit, ttl, cache, id, times)[i] == (e.count + i >= limit) {
          if i > 0 {
            assert times[1..][i - 1] == times[i];
          }
        }
      } else {
        assert o.cache[id] == Entry(e.count + 1, e.timestamp);
        forall i | 0 <= i < |times[1..]| ensures times[1..][i] - o.cache[id].timestamp < ttl {
          assert times[1..][i] == times[i + 1];
        }
        RunInsideWindow(limit, ttl, o.cache, id, times[1..]);
        forall i | 0 <= i < |times| ensures Run(limit, ttl, cache, id, times)[i] == (e.count + i >= limit) {
          if i > 0 {
            assert Run(limit, ttl, cache, id, times)[i] == rest[i - 1];
          }
        }
      }
    }
  }

  /**
   * A device that has no open window is let through `limit` times (at least
   * once) and then refused, for every request that falls in the window the
   * first of them opens; that window stays anchored at the first request.
   */
  lemma BurstFromFresh(limit: int, ttl: int, cache: map<string, Entry>, id: string, times: seq<int>)
    requires |times| >= 1
    requires id !in cache || times[0] - cache[id].timestamp >= ttl
    requires forall i :: 1 <= i < |times| ==> times[i] - times[0] < ttl
    ensures |Run(limit, ttl, cache, id, times)| == |times|
    ensures forall i :: 0 <= i < |times| ==>
              Run(limit, ttl, cache, id, times)[i] == (i >= limit && i >= 1)
    ensures id in RunCache(limit, ttl, cache, id, times)
    ensures RunCache(limit, ttl, cache, id, times)[id].timestamp == times[0]
  {
    var o := Check(limit, ttl, cache, id, times[0]);
    assert !o.limited && o.cache[id] == Entry(1, times[0]);
    forall i | 0 <= i < |times[1..]| ensures times[1..][i] - o.cache[id].timestamp < ttl {
      assert times[1..][i] == times[i + 1];
    }
    RunInsideWindow(limit, ttl, o.cache, id, times[1..]);
  }

  /** Requests from one device never change the record of another. */
  lemma RunLeavesOthers(limit: int, ttl: int, cache: map<string, Entry>, id: string, now: int, other: string)
    requires other != id
    ensures other in Check(limit, ttl, cache, id, now).cache <==> other in cache
    ensures other in cache ==> Check(limit, ttl, cache, id, now).cache[other] == cache[other]
  {
  }

  class RateLimiterService {
    const limit: int
    const ttl: int
    var requestCache: map<string, Entry>

    /**
     * The constructor: `THROTTLE_LIMIT` and `THROTTLE_TTL` from the
     * configuration, 10 requests and 60000 ms when they are not set.
     */
    constructor(limitSetting: Option<int>, ttlSetting: Option<int>)
      ensures limit == (if limitSetting.Some? then limitSetting.value else DefaultLimit)
      ensures ttl == (if ttlSetting.Some? then ttlSetting.value else DefaultTtl)
      ensures requestCache == map[]
    {
      limit := if limitSetting.Some? then limitSetting.value else DefaultLimit;
      ttl := if ttlSetting.Some? then ttlSetting.value else DefaultTtl;
      requestCache := map[];
    }

    /** `isRateLimited(deviceId)` at time `now`. */
    method IsRateLimited(deviceId: string, now: int) returns (limited: bool)
      modifies this
      ensures Outcome(limited, requestCache) == Check(limit, ttl, old(requestCache), deviceId, now)
      ensures CountsBounded(limit, old(requestCache)) ==> CountsBounded(limit, requestCache)
    {
      if deviceId in requestCache {
        var cached := requestCache[deviceId];
        var timeDiff := now - cached.timestamp;
        if timeDiff < ttl {
          if cached.count >= limit {
            return true;
          } else {
            requestCache := requestCache[deviceId := Entry(cached.count + 1, cached.timestamp)];
            return false;
          }
        } else {
          requestCache := requestCache[deviceId := Entry(1, now)];
          return false;
        }
      } else {
        requestCache := requestCache[deviceId := Entry(1, now)];
        return false;
      }
    }
  }
}
