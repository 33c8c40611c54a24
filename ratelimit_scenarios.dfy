/** The behaviours that `internal/middleware/ratelimit_test.go` exercises against a live
    Redis, stated for every store that starts empty and proved against the model. Each
    scenario builds its own store and limiter and sends requests through them. */
module RateLimitScenarios {
  import opened Wrappers
  import opened Middleware

  /** Whether the middleware let the request through to its handler. */
  predicate Passed(effects: seq<Effect>)
  {
    CallNext in effects
  }

  /** One request through a fixed-window limiter with no store failure, summarised: a skipped
      request passes and counts nothing; any other adds one to its window's counter and passes
      while that counter stays within the limit. */
  method SendFixed(limiter: RateLimiter, req: Request, now: nat) returns (passed: bool)
    requires limiter.Configured() && AlgorithmFor(limiter.strategy) == FixedWindow
    modifies limiter.store
    ensures limiter.skipFunc(req) ==> passed && limiter.store.counters == old(limiter.store.counters)
    ensures !limiter.skipFunc(req) ==>
              var k := (limiter.keyFunc(req), WindowStart(now / NanosPerSecond, limiter.window));
              && limiter.store.counters == old(limiter.store.counters)[k := Counter(old(limiter.store.counters), k) + 1]
              && (passed <==> Counter(old(limiter.store.counters), k) + 1 <= limiter.limit)
  {
    var c := new Context(req);
    limiter.Handle(c, now, NoFaults);
    passed := Passed(c.effects);
  }

  /** One client hitting one endpoint within one fixed window: the first `limit` requests pass
      with X-RateLimit-Remaining counting down from limit - 1, and the next is rejected with
      nothing remaining and a positive Retry-After. */
  method FixedWindowBurst(limit: nat, window: nat, req: Request, now: nat) returns (responses: seq<seq<Effect>>)
    requires limit > 0 && window > 0
    ensures |responses| == limit + 1
    ensures var reset := WindowStart(now / NanosPerSecond, window) + window;
            forall i :: 0 <= i < limit ==>
              responses[i] == [SetHeader(LimitHeader, limit), SetHeader(RemainingHeader, limit - 1 - i),
                               SetHeader(ResetHeader, reset), CallNext]
    ensures var reset := WindowStart(now / NanosPerSecond, window) + window;
            && responses[limit] == [SetHeader(LimitHeader, limit), SetHeader(RemainingHeader, 0),
                                    SetHeader(ResetHeader, reset),
                                    SetHeader(RetryAfterHeader, reset - now / NanosPerSecond),
                                    CallErrorHandler, AbortChain]
            && reset - now / NanosPerSecond >= 1
  {
    var store := new RedisStore();
    var limiter := new RateLimiter(store, FixedWindowName, limit, window, None, None);
    var ws := WindowStart(now / NanosPerSecond, window);
    var reset := ws + window;
    var key := IPAndPathKey(req);
    responses := [];
    while |responses| <= limit
      invariant |responses| <= limit + 1
      invariant Counter(store.counters, (key, ws)) == |responses|
      invariant forall i :: 0 <= i < |responses| && i < limit ==>
                  responses[i] == [SetHeader(LimitHeader, limit), SetHeader(RemainingHeader, limit - 1 - i),
                                   SetHeader(ResetHeader, reset), CallNext]
      invariant |responses| == limit + 1 ==>
                  responses[limit] == [SetHeader(LimitHeader, limit), SetHeader(RemainingHeader, 0),
                                       SetHeader(ResetHeader, reset),
                                       SetHeader(RetryAfterHeader, reset - now / NanosPerSecond),
                                       CallErrorHandler, AbortChain]
      decreases limit + 1 - |responses|
    {
      var c := new Context(req);
      limiter.Handle(c, now, NoFaults);
      responses := responses + [c.effects];
    }
  }

  /** One request that is not skipped through a sliding-window limiter with no store
      failure, summarised: the key's log gains the current instant, keeps what is still in the
      window and drops the rest, and the request passes exactly when the new log is within the
      limit. */
  method SendSliding(limiter: RateLimiter, req: Request, now: nat) returns (passed: bool)
    requires limiter.Configured() && AlgorithmFor(limiter.strategy) == SlidingWindow
    requires !limiter.skipFunc(req)
    modifies limiter.store
    ensures var key := limiter.keyFunc(req);
            var before, after := Log(old(limiter.store.logs), key), Log(limiter.store.logs, key);
            && now in after
            && (forall t :: t in after ==> t == now || (t in before && now - limiter.window * NanosPerSecond < t))
            && (forall t :: t in before && now - limiter.window * NanosPerSecond < t ==> t in after)
            && (passed <==> |after| <= limiter.limit)
  {
    var c := new Context(req);
    ghost var st := limiter.store.State();
    limiter.Handle(c, now, NoFaults);
    SlidingWindowLogs(st, limiter.keyFunc(req), now, limiter.limit, limiter.window);
    ResponseShape(limiter.limit, Check(SlidingWindow, st, limiter.keyFunc(req), now, limiter.limit, limiter.window, NoFaults).1, now / NanosPerSecond);
    passed := Passed(c.effects);
  }

  /** The sliding-window test: limit 3 over 2 seconds. Three quick requests pass and a fourth
      fails; a fifth a second later still fails, because every earlier request, the rejected
      one included, is still in the log; a sixth another 1.5 seconds on passes, because the
      first four have left the window. */
  method SlidingWindowTest(req: Request, t0: nat, t1: nat, t2: nat, t3: nat, t4: nat, t5: nat) returns (passed: seq<bool>)
    requires t0 < t1 < t2 < t3
    requires t3 + NanosPerSecond <= t4 < t0 + 2 * NanosPerSecond
    requires t4 + 1_500_000_000 <= t5
    ensures passed == [true, true, true, false, false, true]
  {
    var store := new RedisStore();
    var limiter := new RateLimiter(store, SlidingWindowName, 3, 2, None, None);
    var key := IPAndPathKey(req);

    var p1 := SendSliding(limiter, req, t0);
    assert Log(store.logs, key) == {t0};
    var p2 := SendSliding(limiter, req, t1);
    assert Log(store.logs, key) == {t0, t1};
    var p3 := SendSliding(limiter, req, t2);
    assert Log(store.logs, key) == {t0, t1, t2};
    assert p1 && p2 && p3;
    var p4 := SendSliding(limiter, req, t3);
    assert Log(store.logs, key) == {t0, t1, t2, t3};
    assert !p4;

    // nothing has left the window yet, and the rejected request is logged too
    var p5 := SendSliding(limiter, req, t4);
    assert Log(store.logs, key) == {t0, t1, t2, t3, t4};
    assert !p5;

    // the first four have left the window
    var p6 := SendSliding(limiter, req, t5);
    assert Log(store.logs, key) <= {t4, t5};
    SubsetOfPairIsSmall(Log(store.logs, key), t4, t5);
    passed := [p1, p2, p3, p4, p5, p6];
  }

  lemma {:induction false} SubsetOfPairIsSmall(s: set<nat>, a: nat, b: nat)
    requires s <= {a, b}
    ensures |s| <= 2
  {
    assert |{a, b}| <= 2;
    assert |s| <= |{a, b}| by {
      SubsetSmaller(s, {a, b});
    }
  }

  lemma SubsetSmaller(s: set<nat>, t: set<nat>)
    requires s <= t
    ensures |s| <= |t|
  {
    assert t == s + (t - s);
  }

  /** One token-bucket check with no store failure, summarised: the bucket is refilled from
      what the store holds, one token is taken when there is a whole one, and the refill
      instant becomes the current second. */
  method TakeToken(limiter: RateLimiter, key: string, now: nat) returns (allowed: bool)
    requires limiter.Configured() && AlgorithmFor(limiter.strategy) == TokenBucket
    modifies limiter.store
    ensures var nowSec := now / NanosPerSecond;
            var refilled := Refill(StoredTokens(old(limiter.store.State()), key + ":tokens", false, limiter.limit),
                                   StoredLastRefill(old(limiter.store.State()), key + ":last_refill", false, nowSec),
                                   nowSec, limiter.limit, limiter.window);
            && (allowed <==> refilled >= 1.0)
            && key + ":tokens" in limiter.store.tokens
            && limiter.store.tokens[key + ":tokens"] == Some(if allowed then refilled - 1.0 else refilled)
            && key + ":last_refill" in limiter.store.lastRefill
            && limiter.store.lastRefill[key + ":last_refill"] == Some(nowSec)
  {
    ghost var st := limiter.store.State();
    var r := limiter.CheckRateLimit(key, now, NoFaults);
    TokenBucketConsumes(st, key, now, limiter.limit, limiter.window, NoFaults);
    allowed := r.value.allowed;
  }

  /** The token-bucket test, for any capacity: a full bucket lets exactly `limit` requests at
      one instant through and rejects the next; once enough whole seconds have passed to refill
      one token, a request passes again. */
  method TokenBucketBurst(limit: nat, window: nat, key: string, now: nat, later: nat) returns (allowed: seq<bool>)
    requires limit > 0 && window > 0
    requires (later / NanosPerSecond - now / NanosPerSecond) * limit >= window
    ensures |allowed| == limit + 2
    ensures forall i :: 0 <= i < limit ==> allowed[i]
    ensures !allowed[limit]
    ensures allowed[limit + 1]
  {
    var store := new RedisStore();
    var limiter := new RateLimiter(store, TokenBucketName, limit, window, None, None);
    var nowSec := now / NanosPerSecond;
    var tokensKey, refillKey := key + ":tokens", key + ":last_refill";
    allowed := [];
    while |allowed| <= limit
      invariant |allowed| <= limit + 1
      invariant forall i :: 0 <= i < |allowed| && i < limit ==> allowed[i]
      invariant |allowed| == limit + 1 ==> !allowed[limit]
      invariant |allowed| == 0 ==> store.State() == EmptyStore
      invariant |allowed| > 0 ==>
                  && tokensKey in store.tokens && store.tokens[tokensKey] == Some(if |allowed| <= limit then (limit - |allowed|) as real else 0.0)
                  && refillKey in store.lastRefill && store.lastRefill[refillKey] == Some(nowSec)
      decreases limit + 1 - |allowed|
    {
      var a := TakeToken(limiter, key, now);
      allowed := allowed + [a];
    }

    var elapsed := later / NanosPerSecond - now / NanosPerSecond;
    assert elapsed as real * RefillRate(limit, window) >= 1.0 by {
      assert (elapsed * limit) as real >= window as real;
      assert elapsed as real * RefillRate(limit, window) * window as real == (elapsed * limit) as real;
    }
    var a := TakeToken(limiter, key, later);
    allowed := allowed + [a];
  }

  /** The custom-key test: with IPBasedKey every path of one client shares a limit of 3, so
      two requests to one path and one to another use it up and the fourth is rejected. */
  method SharedClientLimit(ip: string, now: nat) returns (passed: seq<bool>)
    ensures passed == [true, true, true, false]
  {
    var store := new RedisStore();
    var limiter := new RateLimiter(store, FixedWindowName, 3, 10, Some(IPBasedKey), None);
    var path1, path2 := Request(ip, "/path1", map[]), Request(ip, "/path2", map[]);
    var key := IPBasedKey(path1);
    assert IPBasedKey(path2) == key;
    var ws := WindowStart(now / NanosPerSecond, 10);

    var p1 := SendFixed(limiter, path1, now);
    assert p1 && Counter(store.counters, (key, ws)) == 1;
    var p2 := SendFixed(limiter, path1, now);
    assert p2 && Counter(store.counters, (key, ws)) == 2;
    var p3 := SendFixed(limiter, path2, now);
    assert p3 && Counter(store.counters, (key, ws)) == 3;
    var p4 := SendFixed(limiter, path1, now);
    assert !p4;
    passed := [p1, p2, p3, p4];
  }

  /** The skip test: with a limit of 2 the third regular request is rejected, while a request
      carrying "X-Admin: true" is passed on untouched and leaves the counters as they were. */
  method AdminBypass(ip: string, now: nat) returns (passed: seq<bool>, adminEffects: seq<Effect>)
    ensures passed == [true, true, false]
    ensures adminEffects == [CallNext]
  {
    var store := new RedisStore();
    var isAdmin := (req: Request) => Header(req, "X-Admin") == "true";
    var limiter := new RateLimiter(store, FixedWindowName, 2, 10, None, Some(isAdmin));
    var regular := Request(ip, "/test", map[]);
    var admin := Request(ip, "/test", map["X-Admin" := "true"]);
    var key := IPAndPathKey(regular);
    var ws := WindowStart(now / NanosPerSecond, 10);

    var p1 := SendFixed(limiter, regular, now);
    assert p1 && Counter(store.counters, (key, ws)) == 1;
    var p2 := SendFixed(limiter, regular, now);
    assert p2 && Counter(store.counters, (key, ws)) == 2;
    var p3 := SendFixed(limiter, regular, now);
    assert !p3;
    passed := [p1, p2, p3];

    var c := new Context(admin);
    limiter.Handle(c, now, NoFaults);
    adminEffects := c.effects;
  }

  /** SkipHealthCheck as the skip function: "/health" and "/metrics" pass even once the
      client's limit is used up, and do not count against it. */
  method HealthChecksBypass(ip: string, now: nat) returns (passed: seq<bool>)
    ensures passed == [true, false, true, true, false]
  {
    var store := new RedisStore();
    var limiter := new RateLimiter(store, FixedWindowName, 1, 60, Some(IPBasedKey), Some(SkipHealthCheck));
    var api := Request(ip, "/api/v1/shorten", map[]);
    var health := Request(ip, "/health", map[]);
    var metrics := Request(ip, "/metrics", map[]);
    var key := IPBasedKey(api);
    var ws := WindowStart(now / NanosPerSecond, 60);
    assert !SkipHealthCheck(api) && SkipHealthCheck(health) && SkipHealthCheck(metrics) by {
      assert api.path[1] != "/health"[1] && api.path[1] != "/metrics"[1];
    }

    var p1 := SendFixed(limiter, api, now);
    assert p1 && Counter(store.counters, (key, ws)) == 1;
    var p2 := SendFixed(limiter, api, now);
    assert !p2 && Counter(store.counters, (key, ws)) == 2;
    var p3 := SendFixed(limiter, health, now);
    var p4 := SendFixed(limiter, metrics, now);
    assert p3 && p4 && Counter(store.counters, (key, ws)) == 2;
    var p5 := SendFixed(limiter, api, now);
    assert !p5;
    passed := [p1, p2, p3, p4, p5];
  }
}
