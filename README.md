# short-link core, modelled in Dafny

This project models the sequential core of the short-link service, a Go URL shortener.
It has four parts:

- **Rate limiting** (`internal/middleware/ratelimit.go`). Three admission algorithms run over
  a Redis store: fixed-window counters, sliding-window logs of request timestamps, and token
  buckets. Around them sit the strategy dispatch, the key and skip helpers, and the
  middleware's decision logic: skip, fail open on a store error, set the quota headers, then
  pass the request on or reject it. The behaviours of `ratelimit_test.go` are proved as
  scenarios for every start instant (and, where the test allows it, for every capacity).
- **The URL service** (`internal/service/url_service.go`). This covers the lookup cascade
  (existence filter, then cache, then database), short-link creation (URL validation,
  reuse of an active mapping, collision retry, then database, cache and filter writes) and
  the start-up rebuild of the filter.
- **Mapping liveness** (`internal/model/url.go`): `IsExpired` and `IsActive`.
- **The Base62 codec** (`internal/utils/shortcode.go`): the encoder, the decoder with its
  `int64` wrap-around, the rune-slice reversal, and short-code generation from snowflake IDs.

Files and modules follow the Go packages:

| file | module |
|---|---|
| `wrappers.dfy` | `Wrappers` (Option, Result) |
| `utils.dfy` | `Utils` |
| `model.dfy` | `Model` |
| `filter.dfy` | `Filter` |
| `cache.dfy` | `Cache` |
| `repository.dfy` | `Repository` |
| `service.dfy` | `Service` |
| `middleware.dfy` | `Middleware` |
| `ratelimit_scenarios.dfy` | `RateLimitScenarios` |

Modelling conventions:

- **The clock.** `time.Now()` becomes a parameter. The rate limiter takes one instant `now`
  per request, in nanoseconds since the Unix epoch. The URL service and the liveness
  predicates use one integer clock.
- **Failures.** Collaborator failures are explicit inputs: a Redis call that fails, a node
  that cannot produce an ID, and for the URL service the set of numbered read queries of a
  call that fail (in `CreateShortURL`, query 0 is the lookup by URL and query `1 + i` the
  i-th collision lookup). The error paths are modelled, not excluded.
- **State.**
  - Objects the Go code updates in place are classes with `modifies` frames: the store, the
    repository, the cache, the filter and the Gin context.
  - Each rate-limit algorithm's effect on the store is a function over a `Store` value. The
    limiter's check methods are proved to update the store object exactly as that function
    says.

Two places where the code's behaviour differs from its own comments, and one restriction:

- **Token-bucket reset.** The comment at `ratelimit.go:387` promises the instant "when bucket
  refills to 1 token", but the code truncates the seconds to the next token rather than
  rounding up. The model follows the code; `Middleware.TokenResetMayPrecedeRefill` exhibits a
  reset instant at which no whole token has refilled yet.
- **Sliding-window pruning.** The comment at `ratelimit.go:272` says timestamps "older than the
  window" are removed, but the score range passed to `ZREMRANGEBYSCORE` is inclusive, so a
  timestamp exactly one window old is dropped too. The model follows the code: the log keeps
  only timestamps `t` with `now - window < t`.
- **Restriction: positive configuration.** `NewRateLimiter` accepts any limit and window. The
  model requires both to be positive, so it says nothing about a zero or negative limit or
  window (see "Left out").

## Model

| member | source | states |
|---|---|---|
| Middleware.AlgorithmFor | internal/middleware/ratelimit.go:167-178 | the sliding window is chosen exactly for "sliding_window", the token bucket exactly for "token_bucket", and every other strategy, unknown ones included, falls back to the fixed window |
| Middleware.IPBasedKeySeparatesClients | internal/middleware/ratelimit.go:419-421 | two requests share the per-client key exactly when they come from the same client IP |
| Middleware.PathBasedKeySeparatesPaths | internal/middleware/ratelimit.go:424-426 | two requests share the per-endpoint key exactly when they have the same path |
| Middleware.IPAndPathKeySeparates | internal/middleware/ratelimit.go:429-431 | for requests with an absolute path and an IP without '/', the default key is shared exactly when both the client IP and the path agree |
| Middleware.KeyFamiliesDisjoint | internal/middleware/ratelimit.go:419-426 | no per-client key is ever equal to a per-endpoint key |
| Middleware.SkipHealthCheckByPath | internal/middleware/ratelimit.go:434-436 | the skip decision depends on the path alone, and a request is skipped exactly when its path is "/health" or "/metrics" |
| Middleware.Remaining | internal/middleware/ratelimit.go:232-236 | the remaining quota is `max(0, limit - count)`: never above the limit, complementing the count up to the limit, and 0 once the count reaches it |
| Middleware.WindowStart | internal/middleware/ratelimit.go:203 | the window start is a multiple of the window counted from Go's zero time, with `windowStart <= now < windowStart + window` |
| Middleware.FixedWindowCounts | internal/middleware/ratelimit.go:200-238 | a fixed-window check adds exactly 1 to the counter of `(key, windowStart)` and changes no other counter and no other part of the store; it admits iff the new count is `<= limit`; remaining is `max(0, limit - count)`; the reset is `windowStart + window`, which lies after now |
| Middleware.Prune | internal/middleware/ratelimit.go:267-274 | pruning keeps exactly the logged timestamps strictly after `now - window` and adds nothing |
| Middleware.SlidingWindowLogs | internal/middleware/ratelimit.go:265-308 | after a sliding-window check the log holds the current instant, even for a denied request; it holds every earlier entry still inside the window and nothing older; it admits iff the log size is `<= limit`; remaining is `max(0, limit - size)`; the reset is one window after now |
| Middleware.RefillRate | internal/middleware/ratelimit.go:338 | the refill rate is positive and refills exactly `limit` tokens per window |
| Middleware.Refill | internal/middleware/ratelimit.go:363-370 | the refilled bucket is `tokens + elapsed * rate` capped at `limit`: it never exceeds the capacity, it is the sum whenever it is below the capacity, and it is the capacity only when the sum reaches it; while the clock does not run backwards it loses no tokens, except that a stored count above the capacity is cut down to the capacity |
| Middleware.TruncTowardZero | internal/middleware/ratelimit.go:390-394 | Go's float-to-int conversion truncates toward zero, on both sides of 0 |
| Middleware.TokenRemainingWhole | internal/middleware/ratelimit.go:394-397 | remaining is 0 below one token, otherwise the whole number of tokens left |
| Middleware.TokenResetTimeBounds | internal/middleware/ratelimit.go:387-392 | the reset is now while a whole token is left; otherwise it is now plus the truncated wait for one token, hence never before now and less than a second short of the exact refill instant |
| Middleware.TokenBucketConsumes | internal/middleware/ratelimit.go:330-400 | a token-bucket check admits iff the refilled bucket holds at least one token; it takes exactly one token when admitting and none otherwise; it records the current second as the refill instant whatever the outcome; it writes only those two keys; missing, unreadable or unparsable state reads as a full bucket refilled now |
| Middleware.TokenBucketPreservesRange | internal/middleware/ratelimit.go:363-376 | if every stored bucket is within `[0, limit]` and no refill instant lies in the future, both stay true after a check |
| Middleware.TokenBucketRemainingBounded | internal/middleware/ratelimit.go:394-397 | the token bucket never reports more remaining requests than the limit |
| Middleware.TokenResetMayPrecedeRefill | internal/middleware/ratelimit.go:387-392 | with capacity 3 over 10 s and an empty bucket, the reported reset is 3 s ahead, and 3 s refill only 0.9 tokens |
| Middleware.Check | internal/middleware/ratelimit.go:167-178 | the result is an error exactly when the store's write pipeline fails, and then the store is unchanged; the token bucket's failed reads do not cause an error |
| Middleware.CheckRemainingBounded | internal/middleware/ratelimit.go:229-236 | whatever the algorithm, the reported remaining quota never exceeds the limit |
| Middleware.RetryAfter | internal/middleware/ratelimit.go:144-147 | Retry-After is `max(0, resetTime - now)` |
| Middleware.ResponseShape | internal/middleware/ratelimit.go:124-161 | a failed check only passes the request on, with no headers; otherwise Limit, Remaining and Reset are set first, and the request is passed on iff it was admitted and aborted iff not; an admitted request gets exactly those three headers followed by the pass-on; a rejection sets Retry-After and calls the error handler before aborting |
| Middleware.RateLimiter.constructor | internal/middleware/ratelimit.go:71-95 | when keyFunc is absent it defaults to the per-client-and-endpoint key, and when skipFunc is absent it defaults to skipping nothing |
| Middleware.RateLimiter.FixedWindowCheck | internal/middleware/ratelimit.go:200-239 | the store object and the result are exactly the fixed-window step of `Check` on the old store |
| Middleware.RateLimiter.SlidingWindowCheck | internal/middleware/ratelimit.go:265-308 | the store object and the result are exactly the sliding-window step of `Check` on the old store |
| Middleware.RateLimiter.TokenBucketCheck | internal/middleware/ratelimit.go:330-400 | the store object and the result are exactly the token-bucket step of `Check` on the old store |
| Middleware.RateLimiter.ReadBucket | internal/middleware/ratelimit.go:341-360 | the tokens and the refill instant read back are the stored values, or the defaults (full bucket, now) when a read fails or does not parse |
| Middleware.RateLimiter.CheckRateLimit | internal/middleware/ratelimit.go:167-178 | the check updates the store and answers exactly as `Check` does for `AlgorithmFor(strategy)` |
| Middleware.RateLimiter.Handle | internal/middleware/ratelimit.go:99-163 | a skipped request is passed on and the store is left unchanged; any other request updates the store as `Check` says under the request's key, and the context receives exactly `Response` of that check |
| RateLimitScenarios.SendFixed | internal/middleware/ratelimit.go:99-163 | one request through a fixed-window limiter: a skipped request passes and counts nothing; otherwise its window counter goes up by one and it passes iff that counter stays within the limit |
| RateLimitScenarios.FixedWindowBurst | internal/middleware/ratelimit_test.go:52-82 | for any limit, window and instant, the first `limit` requests get Limit, Remaining `limit - 1 - i` (9 and 8 for limit 10, as the header test at lines 258-287 expects), Reset and pass; the next is rejected with Remaining 0 and a Retry-After of at least 1, then aborted |
| RateLimitScenarios.SendSliding | internal/middleware/ratelimit.go:265-308 | one request through a sliding-window limiter: the key's log gains the current instant, keeps what is still in the window and drops the rest; the request passes iff the new log is within the limit |
| RateLimitScenarios.SlidingWindowTest | internal/middleware/ratelimit_test.go:85-132 | limit 3 over 2 s: three quick requests pass and the fourth fails; one a second later still fails because the rejected requests are logged; one another 1.5 s later passes |
| RateLimitScenarios.TakeToken | internal/middleware/ratelimit.go:330-400 | one token-bucket check through the limiter: admitted iff the refilled bucket holds a token, which it then loses; the refill instant becomes now |
| RateLimitScenarios.TokenBucketBurst | internal/middleware/ratelimit_test.go:135-172 | for any capacity C, a full bucket admits exactly C requests at one instant and rejects the next; after enough whole seconds to refill one token, a request passes again |
| RateLimitScenarios.SharedClientLimit | internal/middleware/ratelimit_test.go:175-216 | with the per-client key and limit 3, two requests to /path1 and one to /path2 pass and the fourth is rejected |
| RateLimitScenarios.AdminBypass | internal/middleware/ratelimit_test.go:219-255 | with limit 2, the third regular request is rejected, while a request with "X-Admin: true" is passed on with no headers |
| RateLimitScenarios.HealthChecksBypass | internal/middleware/ratelimit.go:434-436 | with SkipHealthCheck and limit 1, "/health" and "/metrics" pass even after the client's limit is used up, and do not count against it |
| Service.ValidateURL | internal/service/url_service.go:181-200 | a URL is accepted iff it is non-empty, parses, has scheme http or https and has a host; the empty URL is rejected as empty |
| Service.ActiveByURL | internal/service/url_service.go:40-46 | a mapping is reused iff the first row for the URL exists and is active; a reused mapping is a stored, active row for that URL |
| Service.URLService.GetOriginalURL | internal/service/url_service.go:94-129 | a filter miss returns "not found" without touching the cache or the database; otherwise the cache is read first; a non-empty cached URL is returned without a database query; a cache miss or cache error falls through to a single database query; a query error is returned as a storage error, a missing row as "not found", an inactive row as "expired or disabled" without a cache write; an active row is cached (unless the write fails) and its URL returned |
| Service.URLService.CreateShortURL | internal/service/url_service.go:33-90 | a rejected URL touches nothing; a valid URL is first looked up by URL, and a failure of that lookup is returned with nothing else done; an active mapping for it is returned with nothing written; the code handed to the insert is the last probe when that probe was free, and after three collisions the encoding of the ID drawn last; once the collision check hands over a code, creation succeeds exactly when the insert can be written and that code is not in use, whatever the cache does; once a code is needed, a failed first draw, a failed collision lookup and a failed draw after a collision are each reported as such ("failed to generate short code" exactly when a draw failed, the query error exactly when the last lookup failed), whatever the database write would do; a failed collision lookup ends the call, so every lookup before the last succeeded; a failure is a rejected URL, a failed read query, a node that failed on its last draw, or an insert rejected because the database fails or the code inserted after three collisions is taken, and it writes nothing; a new mapping is active, inserted, then cached (unless the cache fails) and added to the filter, so a later lookup passes the filter; at most 3 collision lookups, each probe but the last collided, and a free last probe is the code used |
| Service.URLService.FindReusable | internal/service/url_service.go:39-46 | one query by URL; a query error is returned; otherwise the result is the first mapping for the URL when it is active |
| Service.URLService.CreateNew | internal/service/url_service.go:48-89 | draws a code, then publishes the active mapping under it; the code inserted is the last probe when that probe was free, and after three collisions the encoding of the ID drawn last; once the collision check hands over a code it succeeds exactly when the insert can be written and that code is not in use; a failed first draw, a failed collision lookup and a failed draw after a collision are each reported as such ("failed to generate short code" exactly when a draw failed, the query error exactly when the last lookup failed), whatever the database write would do; a failed collision lookup ends the call, so every lookup before the last succeeded; a failure is a failed collision lookup, a node that failed on its last draw, or a rejected insert, never a cache failure, and writes no row, cache entry or filter entry; on success the row, cache entry and filter entry are added and at most 3 collision lookups precede the insert |
| Service.URLService.DrawCode | internal/service/url_service.go:48-68 | nothing is looked up exactly when the first draw fails, which is "failed to generate short code"; otherwise the collision check runs: a failed lookup ends it and is returned as a query error, so every lookup before the last succeeded, a free last probe is the code drawn, and a code whose last probe was taken is used only after three lookups, and is then the encoding of the ID drawn last; one ID is drawn first and one more after each lookup that found its code taken; "failed to generate short code" is reported exactly when the first draw or the draw after a collision fails; besides the node, only the repository's call log changes |
| Service.URLService.AvoidCollisions | internal/service/url_service.go:54-68 | 1 to 3 lookups, the first for the code drawn; a query error is returned exactly when the last lookup failed, and a failed lookup ends the loop, so every lookup before the last succeeded; every probe but the last collided; a free last probe with a working database is the code returned; after three collisions the code returned is the encoding of the ID drawn last, used unchecked; one ID is drawn after each lookup that found its code taken and none otherwise; "failed to generate short code" is reported exactly when the draw after a collision fails |
| Service.URLService.CollisionRound | internal/service/url_service.go:56-67 | one round of the loop: a lookup recorded in the call log that fails exactly when its query is marked failing and otherwise finds the stored row; one ID is drawn exactly when the code was found taken, and that draw fails exactly when the node fails on it |
| Service.URLService.Publish | internal/service/url_service.go:70-89 | the insert succeeds iff the database is reachable and the code is not already stored; then the cache is written (its failure does not fail the call) and the code is added to the filter; a failed insert writes nothing else |
| Service.URLService.InitBloomFilter | internal/service/url_service.go:168-178 | after one scan of the short-code column, every stored code is in the filter (the filter covers the table); a scan error is returned and the filter is unchanged |
| Service.ProbesAppend | internal/service/url_service.go:55-57 | the recorded lookups of a probe sequence grow by one lookup per probe |
| Repository.FindByShortCode | internal/repository/url_repository.go:52-62 | the lookup finds nothing iff no row has the code, and a found row has that code |
| Repository.FindByOriginalURL | internal/repository/url_repository.go:64-74 | the lookup finds nothing iff no row has the URL; otherwise it is the first row, in key order, with that URL |
| Repository.URLRepository.GetByShortCode | internal/repository/url_repository.go:52-61 | one recorded query; a failing database is a query error, otherwise the row with the code or "record not found" as `None` |
| Repository.URLRepository.GetByOriginalURL | internal/repository/url_repository.go:64-73 | one recorded query; a failing database is a query error, otherwise the first row with the URL or `None` |
| Repository.URLRepository.GetAllShortCodes | internal/repository/url_repository.go:94-101 | one recorded query; a failing database is a scan error, otherwise the short-code column in row order |
| Repository.URLRepository.Create | internal/repository/url_repository.go:44-50 | the row is appended iff the database is reachable and the code is not already present (the unique index); otherwise the table is unchanged |
| Filter.BloomFilter.Test | internal/filter/bloom.go:29-36 | no false negatives: a code that was added always tests as possibly present |
| Filter.BloomFilter.Add | internal/filter/bloom.go:22-27 | the code joins the added set, no bit is cleared, and the filter keeps having no false negatives |
| Filter.BloomFilter.AddBatch | internal/filter/bloom.go:38-45 | after a batch, every code of the batch has been added and the filter still has no false negatives |
| Cache.RedisCache.Get | internal/cache/redis.go:44-55 | a miss reads as ""; a transport failure reads as "" with an error |
| Cache.RedisCache.Set | internal/cache/redis.go:57-68 | the write is recorded; it reports a failure exactly when the transport fails, and then the entries are unchanged; otherwise the code maps to the URL |
| Model.NoExpiryNeverExpires | internal/model/url.go:24-34 | a mapping without an expiry is never expired, and is active iff enabled |
| Model.ExpiryBoundary | internal/model/url.go:28 | at the expiry instant a mapping is not yet expired; one tick later it is |
| Model.DisabledNeverActive | internal/model/url.go:32-34 | a disabled mapping is never active, whatever its expiry |
| Model.ExpiryIsPermanent | internal/model/url.go:24-34 | once expired a mapping stays expired, so an inactive mapping never becomes active again as time passes |
| Utils.AlphabetDigit | internal/utils/shortcode.go:47-53 | the alphabet has 62 characters, and the decoder gives each of them its index as its value |
| Utils.DigitInAlphabet | internal/utils/shortcode.go:47-53 | every character the decoder accepts is the alphabet's entry at its value |
| Utils.ReverseString | internal/utils/shortcode.go:65-71 | the in-place swap loop yields the reversed string |
| Utils.ReversedTwice | internal/utils/shortcode.go:65-71 | reversing twice gives back the original |
| Utils.EncodingDenotes | internal/utils/shortcode.go:27-35 | the reversed digit sequence of the division loop is a numeral that denotes the number and has no leading '0' |
| Utils.CanonicalIsEncoding | internal/utils/shortcode.go:19-35 | every numeral without a leading '0' is exactly what the encoder produces for its value |
| Utils.CanonicalUnique | internal/utils/shortcode.go:19-35 | two canonical numerals with the same value are the same string |
| Utils.HornerWrap | internal/utils/shortcode.go:58 | wrapping to `int64` at every Horner step gives the same result as wrapping the exact value once |
| Utils.EncodeBase62 | internal/utils/shortcode.go:19-36 | 0 encodes as "0"; a negative number encodes as ""; any other number encodes as a canonical numeral, made of alphabet characters, that denotes it |
| Utils.DecodeBase62 | internal/utils/shortcode.go:39-62 | a numeral decodes to its value wrapped to `int64` (exactly its value when that fits, hence "" decodes to 0); any other character makes the result 0 |
| Utils.EncodeThenDecode | internal/utils/shortcode.go:19-62 | decoding the encoding of any non-negative `int64` gives it back |
| Utils.DecodeThenEncode | internal/utils/shortcode.go:19-62 | re-encoding the decoded value of a canonical code that fits in `int64` gives the code back |
| Utils.SnowflakeNode.GenerateID | internal/utils/snowflake.go:28-34 | the node moves one call on; the call fails exactly when it is one of the node's failing calls (the node is not initialised), and otherwise returns the call's ID |
| Utils.GenerateShortCode | internal/utils/shortcode.go:10-16 | exactly one ID is drawn; a node failure is reported; otherwise the code is the encoding of the next ID: the canonical numeral of a non-negative ID, and the empty string for a negative one |

## Left out

- Redis transport, pipelining and atomicity. The store is a set of in-memory maps. A failed
  write pipeline is modelled as leaving the store unchanged. Real Redis may have applied part
  of a pipeline.
- Key expiry. The TTLs set by `Expire` and by `Set(..., Window*2)` are not modelled, so counters,
  logs and buckets never disappear on their own.
- Concurrency:
  - the non-atomic read-modify-write of the token bucket;
  - the filter's `sync.RWMutex`;
  - the goroutines of `RecordVisit`;
  - the concurrent test, `TestConcurrentRequests`.
- Floating point:
  - tokens are exact reals, not `float64`;
  - the `"%.2f"` rounding when tokens are stored is not modelled;
  - the `float64` score of a nanosecond timestamp is taken as exact.
- The window as a `time.Duration`. It is a whole, positive number of seconds.
- The store's value kinds are kept in one map each:
  - fixed-window counters are keyed by the pair (key, window start) that the string
    "key:windowStart" encodes;
  - collisions between a counter key of one algorithm and a bucket key of another are not
    modelled.
- Counter width. Redis `INCR` on `int64` is taken as unbounded.
- The limiter's clock. One instant per request. The Go code reads the clock again for
  Retry-After.
- Headers are a datatype of the four header names with integer values. The names' spelling
  and the decimal formatting of the values are not modelled.
- Logging. The `fmt.Printf` messages are not modelled: the fail-open message of the limiter
  (`ratelimit.go:126`), the cache-failure messages of the URL service (`url_service.go:85`,
  `103` and `125`) and the count printed after the filter is rebuilt (`url_service.go:175`).
  Only their control flow is: each failure they report is swallowed.
- The rejection body written by `defaultErrorHandler`. The error handler is recorded only as
  an effect.
- `url.ParseRequestURI` is a library parser. It is passed to `ValidateURL` as a function from
  a string to an optional (scheme, host).
- Snowflake ID generation. A node is a function from call number to ID and the set of calls
  that find it uninitialised. The bit layout and `sync.Once`
  are not modelled.
- Bloom filter internals. One hash position per code stands for the bit array; only the
  no-false-negatives contract is used.
- `GetURLInfo`, `RecordVisit`, `IncrementVisitCount`, `CreateVisitLog`, `Update`, `Delete`
  and `Clear` are not part of this model. Neither are the ID, CreatedAt and VisitCount fields
  of a mapping, nor the cache's TTL variant and its key prefix.
- HTTP routing, handlers, start-up, configuration loading and benchmarks are not part of this
  model.
- Middleware.RateLimiter.constructor: requires a positive limit and window. `NewRateLimiter`
  does not check them. With a zero window the token bucket's rate is a floating-point division
  by zero. With a zero limit the rate is 0, so the wait `(1.0 - tokens) / refillRate` is
  infinite, and its `int64` conversion at `ratelimit.go:390` gives an implementation-dependent
  value.
- Service.URLService.DrawCode: states that the code used unchecked after three collisions is
  the Base62 encoding of the ID drawn last, but not that each probed code is the encoding of
  the ID drawn before its lookup; `Utils.GenerateShortCode` states that for each draw.
- Service.URLService.InitBloomFilter: the wrapped error message "failed to get all short
  codes" is the storage error `ScanFailed`.
