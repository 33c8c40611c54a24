/** The rate limiter of `internal/middleware/ratelimit.go`: three admission algorithms over a
    Redis-like store (fixed-window counters, sliding-window logs of request timestamps, token
    buckets), the strategy dispatch, the key and skip helpers, and the middleware's decision
    logic (skip, fail open, quota headers, allow or deny).

    Clock: every request carries one instant `now`, in nanoseconds since the Unix epoch.
    Store failures are explicit inputs (`StoreFaults`). Each algorithm's effect on the store
    is specified by a function over a `Store` value; the limiter's methods apply it to the
    store object in place. */
module Middleware {
  import opened Wrappers

  const NanosPerSecond: nat := 1_000_000_000

  const FixedWindowName: string := "fixed_window"
  const SlidingWindowName: string := "sliding_window"
  const TokenBucketName: string := "token_bucket"

  datatype Algorithm = FixedWindow | SlidingWindow | TokenBucket

  /** The switch of checkRateLimit: the two other named strategies are recognised, and every
      other strategy string, the fixed window's own included, selects the fixed window. */
  function AlgorithmFor(strategy: string): (a: Algorithm)
    ensures a == SlidingWindow <==> strategy == SlidingWindowName
    ensures a == TokenBucket <==> strategy == TokenBucketName
    ensures a == FixedWindow <==> strategy != SlidingWindowName && strategy != TokenBucketName
  {
    if strategy == FixedWindowName then FixedWindow
    else if strategy == SlidingWindowName then SlidingWindow
    else if strategy == TokenBucketName then TokenBucket
    else FixedWindow
  }

  // ---------------------------------------------------------------------------------------
  // Requests, keys and the skip helper
  // ---------------------------------------------------------------------------------------

  /** What the limiter reads from an HTTP request: the client IP, the URL path and the headers. */
  datatype Request = Request(clientIP: string, path: string, headers: map<string, string>)

  /** A header's value as Gin's `GetHeader` returns it: "" when the header is absent. */
  function Header(req: Request, name: string): string
  {
    if name in req.headers then req.headers[name] else ""
  }

  function IPBasedKey(req: Request): string
  {
    "rate_limit:ip:" + req.clientIP
  }

  function PathBasedKey(req: Request): string
  {
    "rate_limit:path:" + req.path
  }

  /** The default key: one limit per client and endpoint. */
  function IPAndPathKey(req: Request): string
  {
    "rate_limit:" + req.clientIP + ":" + req.path
  }

  /** SkipHealthCheck: the health and metrics endpoints bypass rate limiting. */
  predicate SkipHealthCheck(req: Request)
  {
    req.path == "/health" || req.path == "/metrics"
  }

  /** The health-check skip looks at the path alone: requests to the same path are skipped
      alike, whatever their client and headers, and exactly "/health" and "/metrics" are skipped. */
  lemma SkipHealthCheckByPath(a: Request, b: Request)
    requires a.path == b.path
    ensures SkipHealthCheck(a) == SkipHealthCheck(b)
    ensures SkipHealthCheck(a) <==> a.path in {"/health", "/metrics"}
  {
  }

  /** A request as the server sees one: an absolute path, and an IP address with no '/'. */
  predicate WellFormed(req: Request)
  {
    |req.path| > 0 && req.path[0] == '/' && forall i :: 0 <= i < |req.clientIP| ==> req.clientIP[i] != '/'
  }

  lemma {:induction false} IPBasedKeySeparatesClients(a: Request, b: Request)
    ensures IPBasedKey(a) == IPBasedKey(b) <==> a.clientIP == b.clientIP
  {
    if IPBasedKey(a) == IPBasedKey(b) {
      assert a.clientIP == IPBasedKey(a)[14..];
      assert b.clientIP == IPBasedKey(b)[14..];
    }
  }

  lemma {:induction false} PathBasedKeySeparatesPaths(a: Request, b: Request)
    ensures PathBasedKey(a) == PathBasedKey(b) <==> a.path == b.path
  {
    if PathBasedKey(a) == PathBasedKey(b) {
      assert a.path == PathBasedKey(a)[16..];
      assert b.path == PathBasedKey(b)[16..];
    }
  }

  /** In the default key of a well-formed request, the first '/' is the one that starts the path. */
  lemma {:induction false} PathStartsAtFirstSlash(req: Request)
    requires WellFormed(req)
    ensures var k := IPAndPathKey(req);
            && k[11 + |req.clientIP| + 1] == '/'
            && forall i :: 0 <= i < 11 + |req.clientIP| + 1 ==> k[i] != '/'
  {
    var k := IPAndPathKey(req);
    assert k[11 + |req.clientIP| + 1] == req.path[0];
    forall i | 0 <= i < 11 + |req.clientIP| + 1
      ensures k[i] != '/'
    {
      if 11 <= i < 11 + |req.clientIP| {
        assert k[i] == req.clientIP[i - 11];
      }
    }
  }

  /** The default key gives distinct limits to distinct (client, endpoint) pairs. */
  lemma {:induction false} IPAndPathKeySeparates(a: Request, b: Request)
    requires WellFormed(a) && WellFormed(b)
    ensures IPAndPathKey(a) == IPAndPathKey(b) <==> a.clientIP == b.clientIP && a.path == b.path
  {
    if IPAndPathKey(a) == IPAndPathKey(b) {
      var ka, kb := IPAndPathKey(a), IPAndPathKey(b);
      var n, m := |a.clientIP|, |b.clientIP|;
      PathStartsAtFirstSlash(a);
      PathStartsAtFirstSlash(b);
      assert n == m;
      assert a.clientIP == ka[11..11 + n];
      assert b.clientIP == kb[11..11 + m];
      assert a.path == ka[11 + n + 1..];
      assert b.path == kb[11 + m + 1..];
    }
  }

  /** A per-client key is never a per-endpoint key. */
  lemma {:induction false} KeyFamiliesDisjoint(a: Request, b: Request)
    ensures IPBasedKey(a) != PathBasedKey(b)
  {
    assert IPBasedKey(a)[11] == 'i';
    assert PathBasedKey(b)[11] == 'p';
  }

  // ---------------------------------------------------------------------------------------
  // The store and the algorithms, as functions over its contents
  // ---------------------------------------------------------------------------------------

  /** The store's contents, one map per kind of value the limiter keeps:
      - `counters`: fixed-window counters, keyed by (key, window start), the pair
        that the Redis key "key:windowStart" encodes;
      - `logs`: sliding-window sorted sets, keyed by key, holding nanosecond timestamps;
      - `tokens`: token counts under "key:tokens" (None: a value `ParseFloat` rejects);
      - `lastRefill`: refill instants in seconds under "key:last_refill" (None: a value
        `ParseInt` rejects). */
  datatype Store = Store(counters: map<(string, int), nat>, logs: map<string, set<nat>>,
                         tokens: map<string, Option<real>>, lastRefill: map<string, Option<int>>)

  const EmptyStore := Store(map[], map[], map[], map[])

  /** The result of an admission check: whether the request passes, the quota still left and
      the instant (Unix seconds) the client is told the limit resets. */
  datatype Quota = Quota(allowed: bool, remaining: nat, resetTime: int)

  datatype StoreError = PipelineFailed

  /** Which store calls fail: the two reads of the token bucket, and the pipeline that
      applies an algorithm's writes. */
  datatype StoreFaults = StoreFaults(tokensReadFails: bool, lastRefillReadFails: bool, execFails: bool)

  const NoFaults := StoreFaults(false, false, false)

  /** max(0, limit - count) */
  function Remaining(limit: nat, count: nat): (r: nat)
    ensures r <= limit
    ensures count <= limit ==> r + count == limit
    ensures count >= limit ==> r == 0
  {
    if limit - count < 0 then 0 else limit - count
  }

  /** Seconds from Go's zero `time.Time` (January 1 of year 1, UTC) to the Unix epoch. */
  const ZeroTimeToUnix: nat := 62_135_596_800

  /** `now.Truncate(window).Unix()`: the start of the fixed window holding `nowSec`. Go counts
      the multiples of the window from its zero time, not from the Unix epoch. */
  function WindowStart(nowSec: nat, window: nat): (ws: int)
    requires window > 0
    ensures (ws + ZeroTimeToUnix) % window == 0
    ensures ws <= nowSec < ws + window
  {
    var sinceZero := nowSec + ZeroTimeToUnix;
    MultipleHasNoRemainder(sinceZero / window, window);
    nowSec - sinceZero % window
  }

  lemma {:induction false} MultipleHasNoRemainder(k: nat, w: nat)
    requires w > 0
    ensures (k * w) % w == 0
  {
    var x := k * w;
    var d := k - x / w;
    assert x % w == d * w;
  }

  function Counter(counters: map<(string, int), nat>, k: (string, int)): nat
  {
    if k in counters then counters[k] else 0
  }

  /** fixedWindowCheck: one INCR of the counter of the current window. */
  function FixedWindowStep(st: Store, key: string, now: nat, limit: nat, window: nat): (Store, Quota)
    requires window > 0
  {
    var ws := WindowStart(now / NanosPerSecond, window);
    var count := Counter(st.counters, (key, ws)) + 1;
    (st.(counters := st.counters[(key, ws) := count]), Quota(count <= limit, Remaining(limit, count), ws + window))
  }

  /** A fixed-window check adds exactly one to the counter of the current window and to no
      other, touches nothing else, admits while the new count is within the limit and reports
      the end of the window as the reset. */
  lemma {:induction false} FixedWindowCounts(st: Store, key: string, now: nat, limit: nat, window: nat)
    requires window > 0
    ensures var next := FixedWindowStep(st, key, now, limit, window);
            var ws := WindowStart(now / NanosPerSecond, window);
            var count := Counter(next.0.counters, (key, ws));
            && count == Counter(st.counters, (key, ws)) + 1
            && (forall k :: k != (key, ws) ==> Counter(next.0.counters, k) == Counter(st.counters, k))
            && next.0.counters.Keys == st.counters.Keys + {(key, ws)}
            && next.0 == st.(counters := next.0.counters)
            && (next.1.allowed <==> count <= limit)
            && next.1.remaining == Remaining(limit, count)
            && ws <= now / NanosPerSecond < next.1.resetTime == ws + window
  {
  }

  function Log(logs: map<string, set<nat>>, key: string): set<nat>
  {
    if key in logs then logs[key] else {}
  }

  /** ZREMRANGEBYSCORE key 0 (now - window): drops every timestamp at or before
      `now - windowNanos`, keeping exactly the ones strictly inside the window. */
  function Prune(log: set<nat>, now: nat, windowNanos: nat): (kept: set<nat>)
    ensures kept <= log
    ensures forall t :: t in log ==> (t in kept <==> now - windowNanos < t)
  {
    set t | t in log && now - windowNanos < t
  }

  lemma {:induction false} ShiftSeconds(now: nat, seconds: nat)
    ensures (now + seconds * NanosPerSecond) / NanosPerSecond == now / NanosPerSecond + seconds
  {
    var q, r := now / NanosPerSecond, now % NanosPerSecond;
    assert now + seconds * NanosPerSecond == (q + seconds) * NanosPerSecond + r;
  }

  /** slidingWindowCheck: prune the log, record this request (denied or not), count. */
  function SlidingWindowStep(st: Store, key: string, now: nat, limit: nat, window: nat): (Store, Quota)
    requires window > 0
  {
    var log := Prune(Log(st.logs, key), now, window * NanosPerSecond) + {now};
    (st.(logs := st.logs[key := log]),
     Quota(|log| <= limit, Remaining(limit, |log|), (now + window * NanosPerSecond) / NanosPerSecond))
  }

  /** After a sliding-window check the key's log holds the current instant, keeps every earlier
      entry still inside the window and nothing older; the count decides admission, and the
      reset is one window from now. */
  lemma {:induction false} SlidingWindowLogs(st: Store, key: string, now: nat, limit: nat, window: nat)
    requires window > 0
    ensures var next := SlidingWindowStep(st, key, now, limit, window);
            var log := Log(next.0.logs, key);
            && now in log
            && (forall t :: t in log ==> t == now || (t in Log(st.logs, key) && now - window * NanosPerSecond < t))
            && (forall t :: t in Log(st.logs, key) && now - window * NanosPerSecond < t ==> t in log)
            && next.0 == st.(logs := st.logs[key := log])
            && (next.1.allowed <==> |log| <= limit)
            && next.1.remaining == Remaining(limit, |log|)
            && next.1.resetTime == now / NanosPerSecond + window
  {
    ShiftSeconds(now, window);
  }

  /** Tokens per second. */
  function RefillRate(limit: nat, window: nat): (rate: real)
    requires limit > 0 && window > 0
    ensures rate > 0.0
    ensures rate * window as real == limit as real
  {
    limit as real / window as real
  }

  /** The token count read back, or full capacity when it is missing, unreadable or unparsable. */
  function StoredTokens(st: Store, tokensKey: string, readFails: bool, limit: nat): real
  {
    if !readFails && tokensKey in st.tokens && st.tokens[tokensKey].Some? then st.tokens[tokensKey].value
    else limit as real
  }

  /** The refill instant read back, or `nowSec` when it is missing, unreadable or unparsable. */
  function StoredLastRefill(st: Store, refillKey: string, readFails: bool, nowSec: int): int
  {
    if !readFails && refillKey in st.lastRefill && st.lastRefill[refillKey].Some? then st.lastRefill[refillKey].value
    else nowSec
  }

  /** The bucket after `nowSec - lastRefill` seconds of refill at `limit / window` tokens per
      second, capped at the capacity `limit`. */
  function Refill(tokens: real, lastRefill: int, nowSec: int, limit: nat, window: nat): (refilled: real)
    requires limit > 0 && window > 0
    ensures refilled <= limit as real
    ensures refilled < limit as real ==> refilled == tokens + (nowSec - lastRefill) as real * RefillRate(limit, window)
    ensures lastRefill <= nowSec ==> refilled >= tokens || refilled == limit as real
    ensures refilled == limit as real ==> tokens + (nowSec - lastRefill) as real * RefillRate(limit, window) >= limit as real
  {
    var added := tokens + (nowSec - lastRefill) as real * RefillRate(limit, window);
    if added > limit as real then limit as real else added
  }

  /** Go's conversion of a floating-point value to an integer: truncation toward zero. */
  function Trunc(x: real): int
  {
    if x >= 0.0 then x.Floor else -((-x).Floor)
  }

  lemma {:induction false} TruncTowardZero(x: real)
    ensures 0.0 <= x ==> Trunc(x) as real <= x < Trunc(x) as real + 1.0
    ensures x < 0.0 ==> Trunc(x) as real - 1.0 < x <= Trunc(x) as real
  {
  }

  /** max(0, int(tokens)): the whole tokens left. */
  function TokenRemaining(tokens: real): nat
  {
    if Trunc(tokens) < 0 then 0 else Trunc(tokens)
  }

  lemma {:induction false} TokenRemainingWhole(tokens: real)
    ensures tokens < 1.0 ==> TokenRemaining(tokens) == 0
    ensures 1.0 <= tokens ==> TokenRemaining(tokens) as real <= tokens < TokenRemaining(tokens) as real + 1.0
  {
    TruncTowardZero(tokens);
  }

  /** The reset instant reported by the token bucket: now when a token is left, otherwise now
      plus the seconds until one token has refilled, truncated (not rounded up). */
  function TokenResetTime(nowSec: int, tokens: real, limit: nat, window: nat): int
    requires limit > 0 && window > 0
  {
    if tokens < 1.0 then
      var wait := (1.0 - tokens) / RefillRate(limit, window);
      nowSec + Trunc(wait)
    else nowSec
  }

  lemma {:induction false} TokenResetTimeBounds(nowSec: int, tokens: real, limit: nat, window: nat)
    requires limit > 0 && window > 0
    ensures var reset := TokenResetTime(nowSec, tokens, limit, window);
            && (tokens >= 1.0 ==> reset == nowSec)
            && (tokens < 1.0 ==>
                  && nowSec <= reset
                  && (reset - nowSec) as real <= (1.0 - tokens) / RefillRate(limit, window)
                  && (1.0 - tokens) / RefillRate(limit, window) < (reset - nowSec) as real + 1.0)
  {
    if tokens < 1.0 {
      var wait := (1.0 - tokens) / RefillRate(limit, window);
      assert 0.0 < wait;
      TruncTowardZero(wait);
    }
  }

  /** tokenBucketCheck: read the bucket, refill it, take one token if there is one, and
      write the count and the refill instant back. */
  function TokenBucketStep(st: Store, key: string, now: nat, limit: nat, window: nat, faults: StoreFaults): (Store, Quota)
    requires limit > 0 && window > 0
  {
    var nowSec := now / NanosPerSecond;
    var refilled := Refill(StoredTokens(st, key + ":tokens", faults.tokensReadFails, limit),
                           StoredLastRefill(st, key + ":last_refill", faults.lastRefillReadFails, nowSec),
                           nowSec, limit, window);
    var left := if refilled >= 1.0 then refilled - 1.0 else refilled;
    (st.(tokens := st.tokens[key + ":tokens" := Some(left)],
         lastRefill := st.lastRefill[key + ":last_refill" := Some(nowSec)]),
     Quota(refilled >= 1.0, TokenRemaining(left), TokenResetTime(nowSec, left, limit, window)))
  }

  /** A token-bucket check admits exactly when the refilled bucket holds a whole token, takes
      exactly that one token, and records the current second as the refill instant whatever
      the outcome. */
  lemma {:induction false} TokenBucketConsumes(st: Store, key: string, now: nat, limit: nat, window: nat, faults: StoreFaults)
    requires limit > 0 && window > 0
    ensures var next := TokenBucketStep(st, key, now, limit, window, faults);
            var nowSec := now / NanosPerSecond;
            var refilled := Refill(StoredTokens(st, key + ":tokens", faults.tokensReadFails, limit),
                                   StoredLastRefill(st, key + ":last_refill", faults.lastRefillReadFails, nowSec),
                                   nowSec, limit, window);
            && key + ":tokens" in next.0.tokens && next.0.tokens[key + ":tokens"].Some?
            && var left := next.0.tokens[key + ":tokens"].value;
            && (next.1.allowed <==> refilled >= 1.0)
            && (next.1.allowed ==> left == refilled - 1.0)
            && (!next.1.allowed ==> left == refilled)
            && next.0 == st.(tokens := st.tokens[key + ":tokens" := Some(left)],
                             lastRefill := st.lastRefill[key + ":last_refill" := Some(nowSec)])
            && next.1.remaining == TokenRemaining(left)
            && next.1.resetTime == TokenResetTime(nowSec, left, limit, window)
  {
  }

  /** checkRateLimit: the selected algorithm, or an error (and no write) when the store's
      pipeline fails. */
  function Check(alg: Algorithm, st: Store, key: string, now: nat, limit: nat, window: nat, faults: StoreFaults)
    : (next: (Store, Result<Quota, StoreError>))
    requires limit > 0 && window > 0
    ensures faults.execFails <==> next.1.Failure?
    ensures faults.execFails ==> next.0 == st
  {
    if faults.execFails then (st, Failure(PipelineFailed))
    else
      var step := match alg
        case FixedWindow => FixedWindowStep(st, key, now, limit, window)
        case SlidingWindow => SlidingWindowStep(st, key, now, limit, window)
        case TokenBucket => TokenBucketStep(st, key, now, limit, window, faults);
      (step.0, Success(step.1))
  }

  /** Whatever the algorithm, the reported quota never exceeds the limit. */
  lemma {:induction false} CheckRemainingBounded(alg: Algorithm, st: Store, key: string, now: nat, limit: nat, window: nat, faults: StoreFaults)
    requires limit > 0 && window > 0
    ensures var r := Check(alg, st, key, now, limit, window, faults).1;
            r.Success? ==> r.value.remaining <= limit
  {
    if !faults.execFails && alg == TokenBucket {
      TokenBucketRemainingBounded(st, key, now, limit, window, faults);
    }
  }

  lemma {:induction false} TokenBucketRemainingBounded(st: Store, key: string, now: nat, limit: nat, window: nat, faults: StoreFaults)
    requires limit > 0 && window > 0
    ensures TokenBucketStep(st, key, now, limit, window, faults).1.remaining <= limit
  {
    var next := TokenBucketStep(st, key, now, limit, window, faults);
    TokenBucketConsumes(st, key, now, limit, window, faults);
    var left := next.0.tokens[key + ":tokens"].value;
    assert left <= limit as real;
    TokenRemainingWhole(left);
  }

  /** Every stored bucket holds between 0 and `limit` tokens, and no refill instant lies after
      `nowSec`. */
  ghost predicate BucketsInRange(st: Store, limit: nat, nowSec: int)
  {
    && (forall k :: k in st.tokens && st.tokens[k].Some? ==> 0.0 <= st.tokens[k].value <= limit as real)
    && (forall k :: k in st.lastRefill && st.lastRefill[k].Some? ==> st.lastRefill[k].value <= nowSec)
  }

  /** The token bucket never leaves [0, limit] while the clock does not run backwards. */
  lemma {:induction false} TokenBucketPreservesRange(st: Store, key: string, now: nat, limit: nat, window: nat, faults: StoreFaults)
    requires limit > 0 && window > 0
    requires BucketsInRange(st, limit, now / NanosPerSecond)
    ensures BucketsInRange(TokenBucketStep(st, key, now, limit, window, faults).0, limit, now / NanosPerSecond)
  {
    var nowSec := now / NanosPerSecond;
    var start := StoredTokens(st, key + ":tokens", faults.tokensReadFails, limit);
    var last := StoredLastRefill(st, key + ":last_refill", faults.lastRefillReadFails, nowSec);
    assert 0.0 <= start <= limit as real;
    assert last <= nowSec;
    var refilled := Refill(start, last, nowSec, limit, window);
    assert 0.0 <= refilled by {
      if refilled < limit as real {
        assert 0.0 <= (nowSec - last) as real * RefillRate(limit, window);
      }
    }
  }

  /** The reported reset comes from truncating the wait, so at that instant the bucket can still
      be short of a whole token: with capacity 3 over 10 seconds and an empty bucket the wait is
      10/3 seconds, the reset is reported 3 seconds ahead, and 3 seconds refill 0.9 tokens. */
  lemma TokenResetMayPrecedeRefill()
    ensures TokenResetTime(0, 0.0, 3, 10) == 3
    ensures Refill(0.0, 0, TokenResetTime(0, 0.0, 3, 10), 3, 10) < 1.0
  {
    assert (1.0 - 0.0) / RefillRate(3, 10) == 10.0 / 3.0;
    assert Trunc(10.0 / 3.0) == 3;
  }

  // ---------------------------------------------------------------------------------------
  // The store and the limiter
  // ---------------------------------------------------------------------------------------

  /** The limiter's Redis database. */
  class RedisStore {
    var counters: map<(string, int), nat>
    var logs: map<string, set<nat>>
    var tokens: map<string, Option<real>>
    var lastRefill: map<string, Option<int>>

    constructor ()
      ensures State() == EmptyStore
    {
      counters, logs, tokens, lastRefill := map[], map[], map[], map[];
    }

    function State(): Store
      reads this
    {
      Store(counters, logs, tokens, lastRefill)
    }
  }

  /** The response headers the middleware sets: X-RateLimit-Limit, X-RateLimit-Remaining,
      X-RateLimit-Reset and Retry-After. Their values are kept as integers. */
  datatype HeaderName = LimitHeader | RemainingHeader | ResetHeader | RetryAfterHeader

  /** What the middleware does to the request's context, in order. */
  datatype Effect = SetHeader(name: HeaderName, value: int) | CallNext | CallErrorHandler | AbortChain

  /** The Gin context of one request. */
  class Context {
    const request: Request
    var effects: seq<Effect>

    constructor (request: Request)
      ensures this.request == request && effects == []
    {
      this.request := request;
      effects := [];
    }
  }

  /** The Retry-After value: the seconds until the reset, never negative. */
  function RetryAfter(resetTime: int, nowSec: int): (secs: nat)
    ensures secs >= resetTime - nowSec
    ensures secs == 0 || secs == resetTime - nowSec
  {
    if resetTime - nowSec < 0 then 0 else resetTime - nowSec
  }

  /** The effects the middleware produces for a request that was not skipped and whose check
      returned `r`. */
  function Response(limit: nat, r: Result<Quota, StoreError>, nowSec: int): seq<Effect>
  {
    if r.Failure? then [CallNext]
    else
      var quota := [SetHeader(LimitHeader, limit), SetHeader(RemainingHeader, r.value.remaining),
                    SetHeader(ResetHeader, r.value.resetTime)];
      if r.value.allowed then quota + [CallNext]
      else quota + [SetHeader(RetryAfterHeader, RetryAfter(r.value.resetTime, nowSec)), CallErrorHandler, AbortChain]
  }

  /** A failed check only passes the request on; otherwise the three quota headers come first,
      and the request is passed on exactly when it was admitted and aborted exactly when not,
      a rejection setting Retry-After and calling the error handler before the abort. */
  lemma {:induction false} ResponseShape(limit: nat, r: Result<Quota, StoreError>, nowSec: int)
    ensures var effects := Response(limit, r, nowSec);
            && (r.Failure? ==> effects == [CallNext])
            && (r.Success? ==>
                  && |effects| >= 4
                  && effects[..3] == [SetHeader(LimitHeader, limit), SetHeader(RemainingHeader, r.value.remaining),
                                      SetHeader(ResetHeader, r.value.resetTime)]
                  && (r.value.allowed <==> CallNext in effects)
                  && (r.value.allowed <==> AbortChain !in effects)
                  && (r.value.allowed ==> effects[3..] == [CallNext])
                  && (!r.value.allowed ==>
                        effects[3..] == [SetHeader(RetryAfterHeader, RetryAfter(r.value.resetTime, nowSec)),
                                         CallErrorHandler, AbortChain]))
  {
    var effects := Response(limit, r, nowSec);
    if r.Success? && !r.value.allowed {
      assert effects[3..] == [SetHeader(RetryAfterHeader, RetryAfter(r.value.resetTime, nowSec)),
                              CallErrorHandler, AbortChain];
      assert AbortChain in effects by {
        assert effects[5] == AbortChain;
      }
    }
  }

  class RateLimiter {
    const store: RedisStore
    const strategy: string
    /** The maximum number of requests per window. */
    const limit: nat
    /** The window length in seconds. */
    const window: nat
    const keyFunc: Request -> string
    const skipFunc: Request -> bool

    predicate Configured()
    {
      limit > 0 && window > 0
    }

    /** NewRateLimiter: a missing key function means one limit per client and endpoint, a
        missing skip function skips nothing. */
    constructor (store: RedisStore, strategy: string, limit: nat, window: nat,
                 keyFunc: Option<Request -> string>, skipFunc: Option<Request -> bool>)
      requires limit > 0 && window > 0
      ensures Configured()
      ensures this.store == store && this.strategy == strategy && this.limit == limit && this.window == window
      ensures keyFunc.Some? ==> this.keyFunc == keyFunc.value
      ensures keyFunc.None? ==> forall req :: this.keyFunc(req) == IPAndPathKey(req)
      ensures skipFunc.Some? ==> this.skipFunc == skipFunc.value
      ensures skipFunc.None? ==> forall req :: !this.skipFunc(req)
    {
      this.store := store;
      this.strategy := strategy;
      this.limit := limit;
      this.window := window;
      if keyFunc.Some? {
        this.keyFunc := keyFunc.value;
      } else {
        this.keyFunc := IPAndPathKey;
      }
      if skipFunc.Some? {
        this.skipFunc := skipFunc.value;
      } else {
        this.skipFunc := (req: Request) => false;
      }
    }

    method FixedWindowCheck(key: string, now: nat, faults: StoreFaults) returns (r: Result<Quota, StoreError>)
      requires Configured()
      modifies store
      ensures (store.State(), r) == Check(FixedWindow, old(store.State()), key, now, limit, window, faults)
    {
      var windowStart := WindowStart(now / NanosPerSecond, window);
      var windowKey := (key, windowStart);
      if faults.execFails {
        return Failure(PipelineFailed);
      }
      var count := Counter(store.counters, windowKey) + 1;
      store.counters := store.counters[windowKey := count];

      var resetTime := windowStart + window;
      var allowed := count <= limit;
      var remaining := limit - count;
      if remaining < 0 {
        remaining := 0;
      }
      return Success(Quota(allowed, remaining, resetTime));
    }

    method SlidingWindowCheck(key: string, now: nat, faults: StoreFaults) returns (r: Result<Quota, StoreError>)
      requires Configured()
      modifies store
      ensures (store.State(), r) == Check(SlidingWindow, old(store.State()), key, now, limit, window, faults)
    {
      if faults.execFails {
        return Failure(PipelineFailed);
      }
      // ZREMRANGEBYSCORE, then ZADD of the current instant, then ZCARD
      var log := Prune(Log(store.logs, key), now, window * NanosPerSecond);
      log := log + {now};
      store.logs := store.logs[key := log];
      var count := |log|;

      ShiftSeconds(now, window);
      var resetTime := (now + window * NanosPerSecond) / NanosPerSecond;
      var allowed := count <= limit;
      var remaining := limit - count;
      if remaining < 0 {
        remaining := 0;
      }
      return Success(Quota(allowed, remaining, resetTime));
    }

    method TokenBucketCheck(key: string, now: nat, faults: StoreFaults) returns (r: Result<Quota, StoreError>)
      requires Configured()
      modifies store
      ensures (store.State(), r) == Check(TokenBucket, old(store.State()), key, now, limit, window, faults)
    {
      var nowSec := now / NanosPerSecond;
      var tokensKey := key + ":tokens";
      var lastRefillKey := key + ":last_refill";
      var refillRate := RefillRate(limit, window);

      var tokens, lastRefill := ReadBucket(tokensKey, lastRefillKey, nowSec, faults);
      ghost var start := tokens;

      var elapsed := nowSec - lastRefill;
      tokens := tokens + elapsed as real * refillRate;
      if tokens > limit as real {
        tokens := limit as real;
      }
      ghost var refilled := tokens;
      assert refilled == Refill(start, lastRefill, nowSec, limit, window);
      var allowed := tokens >= 1.0;
      if allowed {
        tokens := tokens - 1.0;
      }

      if faults.execFails {
        return Failure(PipelineFailed);
      }
      store.tokens := store.tokens[tokensKey := Some(tokens)];
      store.lastRefill := store.lastRefill[lastRefillKey := Some(nowSec)];

      var resetTime := nowSec;
      if tokens < 1.0 {
        resetTime := resetTime + Trunc((1.0 - tokens) / refillRate);
      }
      assert resetTime == TokenResetTime(nowSec, tokens, limit, window);
      var remaining := Trunc(tokens);
      if remaining < 0 {
        remaining := 0;
      }
      assert remaining == TokenRemaining(tokens);
      return Success(Quota(allowed, remaining, resetTime));
    }

    /** The first pipeline of tokenBucketCheck: both reads, with their defaults when a read
        fails or its value does not parse. */
    method ReadBucket(tokensKey: string, lastRefillKey: string, nowSec: int, faults: StoreFaults)
      returns (tokens: real, lastRefill: int)
      ensures tokens == StoredTokens(store.State(), tokensKey, faults.tokensReadFails, limit)
      ensures lastRefill == StoredLastRefill(store.State(), lastRefillKey, faults.lastRefillReadFails, nowSec)
    {
      tokens := limit as real;
      if !faults.tokensReadFails && tokensKey in store.tokens && store.tokens[tokensKey].Some? {
        tokens := store.tokens[tokensKey].value;
      }
      lastRefill := nowSec;
      if !faults.lastRefillReadFails && lastRefillKey in store.lastRefill && store.lastRefill[lastRefillKey].Some? {
        lastRefill := store.lastRefill[lastRefillKey].value;
      }
    }

    /** checkRateLimit */
    method CheckRateLimit(key: string, now: nat, faults: StoreFaults) returns (r: Result<Quota, StoreError>)
      requires Configured()
      modifies store
      ensures (store.State(), r) == Check(AlgorithmFor(strategy), old(store.State()), key, now, limit, window, faults)
    {
      if strategy == FixedWindowName {
        r := FixedWindowCheck(key, now, faults);
      } else if strategy == SlidingWindowName {
        r := SlidingWindowCheck(key, now, faults);
      } else if strategy == TokenBucketName {
        r := TokenBucketCheck(key, now, faults);
      } else {
        r := FixedWindowCheck(key, now, faults);
      }
    }

    /** The middleware for one request: skip, otherwise check under the request's key, fail
        open on a store error, set the quota headers, then pass the request on or reject it. */
    method Handle(c: Context, now: nat, faults: StoreFaults)
      requires Configured()
      modifies c`effects, store
      // a skipped request reaches the next handler and the limiter's state is left alone
      ensures skipFunc(c.request) ==>
                c.effects == old(c.effects) + [CallNext] && store.State() == old(store.State())
      ensures !skipFunc(c.request) ==>
                var next := Check(AlgorithmFor(strategy), old(store.State()), keyFunc(c.request), now, limit, window, faults);
                store.State() == next.0 &&
                c.effects == old(c.effects) + Response(limit, next.1, now / NanosPerSecond)
    {
      if skipFunc(c.request) {
        c.effects := c.effects + [CallNext];
        return;
      }

      var key := keyFunc(c.request);
      var r := CheckRateLimit(key, now, faults);

      // fail open
      if r.Failure? {
        c.effects := c.effects + [CallNext];
        return;
      }

      var quota := r.value;
      c.effects := c.effects + [SetHeader(LimitHeader, limit), SetHeader(RemainingHeader, quota.remaining),
                                SetHeader(ResetHeader, quota.resetTime)];

      if !quota.allowed {
        var retryAfter := quota.resetTime - now / NanosPerSecond;
        if retryAfter < 0 {
          retryAfter := 0;
        }
        c.effects := c.effects + [SetHeader(RetryAfterHeader, retryAfter)];
        c.effects := c.effects + [CallErrorHandler];
        c.effects := c.effects + [AbortChain];
        return;
      }

      c.effects := c.effects + [CallNext];
    }
  }
}
