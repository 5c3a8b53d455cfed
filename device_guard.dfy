/**
 * `DeviceThrottlerGuard` (backend/src/common/guards/device-throttler.guard.ts):
 * lets a request through unless the rate limiter refuses the device it
 * comes from.
 *
 * The request is reduced to what the guard reads: its `device-id` header
 * and its address (`""` when Express knows none). Throwing
 * `ThrottlerException` is the result `Throttled`.
 */
module DeviceGuard {
  import opened RateLimiter

  /** The `device-id` header: absent, one value, or the list Node gives for a repeated header. */
  datatype DeviceIdHeader = Absent | Single(value: string) | Several(values: seq<string>)

  /** What `canActivate` does: return `true`, or throw with a message. */
  datatype GuardResult = Allowed | Throttled(message: string)

  const AnonymousDevice: string := "anonymous"
  const TooManyRequests: string := "Too Many Requests"

  /**
   * The device a request is counted against: the header when it is one
   * string (even an empty one), otherwise the address, otherwise "anonymous".
   */
  function DeviceKey(header: DeviceIdHeader, ip: string): (key: string)
    ensures header.Single? ==> key == header.value
    ensures !header.Single? && ip != [] ==> key == ip
    ensures !header.Single? && ip == [] ==> key == AnonymousDevice
  {
    match header
    case Single(v) => v
    case _ => if ip != [] then ip else AnonymousDevice
  }

  /**
   * Requests without a usable header are counted against their address, so
   * two such requests share a counter exactly when they share an address
   * (requests with no address all share "anonymous").
   */
  lemma HeaderlessRequestsShareByAddress(h1: DeviceIdHeader, ip1: string, h2: DeviceIdHeader, ip2: string)
    requires !h1.Single? && !h2.Single?
    requires ip1 != AnonymousDevice && ip2 != AnonymousDevice
    ensures DeviceKey(h1, ip1) == DeviceKey(h2, ip2) <==> ip1 == ip2
  {
  }

  class DeviceThrottlerGuard {
    const rateLimiterService: RateLimiterService

    constructor(rateLimiterService: RateLimiterService)
      ensures this.rateLimiterService == rateLimiterService
    {
      this.rateLimiterService := rateLimiterService;
    }

    /**
     * `canActivate`: one rate-limiter check for the request's device, and a
     * refusal exactly when that check says the device is limited.
     */
    method CanActivate(header: DeviceIdHeader, ip: string, now: int) returns (r: GuardResult)
      modifies rateLimiterService
      ensures var o := Check(rateLimiterService.limit, rateLimiterService.ttl,
                             old(rateLimiterService.requestCache), DeviceKey(header, ip), now);
              rateLimiterService.requestCache == o.cache &&
              (r == Allowed <==> !o.limited) &&
              (r != Allowed ==> r == Throttled(TooManyRequests))
    {
      var deviceId := DeviceKey(header, ip);
      var isLimited := rateLimiterService.IsRateLimited(deviceId, now);
      if isLimited {
        return Throttled(TooManyRequests);
      }
      return Allowed;
    }
  }

  /**
   * A device with no open window gets `limit` requests (at least one)
   * through the guard and is then throttled, while every request of the
   * burst falls in the window its first request opens.
   */
  method GuardBurst(guard: DeviceThrottlerGuard, header: DeviceIdHeader, ip: string, times: seq<int>)
    returns (results: seq<GuardResult>)
    requires |times| >= 1
    requires var id := DeviceKey(header, ip);
             id !in guard.rateLimiterService.requestCache ||
             times[0] - guard.rateLimiterService.requestCache[id].timestamp >= guard.rateLimiterService.ttl
    requires forall i :: 1 <= i < |times| ==> times[i] - times[0] < guard.rateLimiterService.ttl
    modifies guard.rateLimiterService
    ensures |results| == |times|
    ensures forall i :: 0 <= i < |times| ==>
              (results[i] == Allowed <==> i < guard.rateLimiterService.limit || i == 0)
  {
    var svc := guard.rateLimiterService;
    var id := DeviceKey(header, ip);
    ghost var cache0 := svc.requestCache;
    results := [];
    var k := 0;
    while k < |times|
      invariant 0 <= k <= |times|
      invariant |results| == k
      invariant svc.requestCache == RunCache(svc.limit, svc.ttl, cache0, id, times[..k])
      invariant |Run(svc.limit, svc.ttl, cache0, id, times[..k])| == k
      invariant forall i :: 0 <= i < k ==>
                  (results[i] == Allowed <==> !Run(svc.limit, svc.ttl, cache0, id, times[..k])[i])
    {
      var r := guard.CanActivate(header, ip, times[k]);
      RunSnoc(svc.limit, svc.ttl, cache0, id, times[..k], times[k]);
      assert times[..k + 1] == times[..k] + [times[k]];
      results := results + [r];
      k := k + 1;
    }
    assert times[..k] == times;
    BurstFromFresh(svc.limit, svc.ttl, cache0, id, times);
  }
}
