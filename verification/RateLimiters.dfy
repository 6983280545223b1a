/** The two middleware objects. One call is a request handled with no other in between; the
    ghost model takes the same INCR and EXPIRE as events. */
module TenantRateLimiterClass {
  import opened ExpiringKeys
  import opened RateLimit

  class TenantRateLimiter {
    const requestsPerMinute: nat
    const windowSecs: int
    var keys: Keys<int, int>
    ghost var model: Limiter

    constructor (requestsPerMinute: nat, windowSecs: int)
      requires windowSecs > 0
      ensures Valid() && model == New(requestsPerMinute, windowSecs)
    {
      this.requestsPerMinute, this.windowSecs := requestsPerMinute, windowSecs;
      keys, model := map[], New(requestsPerMinute, windowSecs);
    }

    ghost predicate Valid()
      reads this
    {
      model.keys == keys && model.limit == requestsPerMinute && model.window == windowSecs && windowSecs > 0
    }

    method Handle(tRead: int, tIncr: int, tExpire: int)
      returns (admitted: bool, remaining: int, resetAt: int, retryAfter: int)
      requires Valid() && model.clock <= tIncr && 0 <= tRead <= tIncr <= tExpire
      modifies this
      ensures Valid()
      ensures var hit := Next(old(model), Hit(tRead, tIncr));
              var key := WindowStart(tRead, windowSecs);
              model == if key in hit.pending && hit.keys[key].value == 1
                       then Next(hit, SetExpiry(key, tExpire)) else hit
      ensures admitted == model.log[|model.log| - 1].admitted
      ensures admitted <==> keys[WindowStart(tRead, windowSecs)].value <= requestsPerMinute
      ensures var count := keys[WindowStart(tRead, windowSecs)].value;
              remaining == if count < requestsPerMinute then requestsPerMinute - count else 0
      ensures 1000 * (resetAt - windowSecs) <= tRead < 1000 * resetAt && resetAt == Aligned(tRead, windowSecs) + windowSecs
      ensures 0 < retryAfter <= windowSecs && 1000 * (resetAt - retryAfter) <= tRead < 1000 * (resetAt - retryAfter + 1)
    {
      var now := tRead / 1000;
      var windowStart := now - now % windowSecs;
      WindowAligned(tRead, windowSecs);
      var counters, count := IncrBy(keys, windowStart, 1, tIncr).0, IncrBy(keys, windowStart, 1, tIncr).1;
      keys, model := counters, Next(model, Hit(tRead, tIncr));
      if count == 1 {
        keys := Expire(keys, windowStart, windowSecs * 2, tExpire);
        model := Next(model, SetExpiry(windowStart, tExpire));
      }
      remaining := if requestsPerMinute > count then requestsPerMinute - count else 0;
      resetAt := windowStart + windowSecs;
      retryAfter := resetAt - now;
      admitted := !(count > requestsPerMinute);
    }
  }
}

module EndpointLimiterClass {
  import opened ExpiringKeys
  import opened Optional
  import opened EndpointLimit

  class EndpointLimiter {
    const max: nat
    const windowSecs: nat
    var keys: Keys<(), int>
    ghost var model: Limiter

    constructor (max: nat, windowSecs: nat)
      ensures Valid() && model == New(max, windowSecs)
    {
      this.max, this.windowSecs := max, windowSecs;
      keys, model := map[], New(max, windowSecs);
    }

    ghost predicate Valid()
      reads this
    {
      model.keys == keys && model.max == max && model.window == windowSecs
    }

    method Handle(tIncr: int, tExpire: int) returns (admitted: bool)
      requires Valid() && model.clock <= tIncr <= tExpire
      modifies this
      ensures Valid()
      ensures var hit := Next(old(model), Hit(tIncr));
              model == if hit.keys[()].value == 1 then Next(hit, SetExpiry(tExpire)) else hit
      ensures () in keys
      ensures !Live(old(keys), (), tIncr) ==> keys[()] == Cell(1, Some(tExpire + 1000 * windowSecs))
      ensures Live(old(keys), (), tIncr) && old(keys)[()].value > 0 ==>
                keys[()] == Cell(old(keys)[()].value + 1, old(keys)[()].expiresAt)
      ensures admitted == model.log[|model.log| - 1].admitted
      ensures admitted <==> keys[()].value <= max
    {
      var counters, count := IncrBy(keys, (), 1, tIncr).0, IncrBy(keys, (), 1, tIncr).1;
      keys, model := counters, Next(model, Hit(tIncr));
      if count == 1 {
        keys := Expire(keys, (), windowSecs, tExpire);
        model := Next(model, SetExpiry(tExpire));
      }
      admitted := !(count > max);
    }
  }
}
