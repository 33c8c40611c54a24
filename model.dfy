/** The URL mapping record of `internal/model/url.go` and its two liveness predicates.
    Go's `time.Now()` becomes the parameter `now`; instants are integers on one clock. */
module Model {
  import opened Wrappers

  /** Status value of an enabled mapping; 0 means disabled. */
  const StatusActive: int := 1
  const StatusDisabled: int := 0

  /** A row of `url_mappings`. `expiredAt` is the nullable `ExpiredAt` column. The surrogate
      ID, creation time and visit counter are not used by the modelled logic. */
  datatype URLMapping = URLMapping(
    shortCode: string,
    originalURL: string,
    expiredAt: Option<int>,
    status: int)

  /** IsExpired: a mapping with no expiry never expires; otherwise it is expired once
      `now` is strictly after the expiry instant. */
  predicate IsExpired(m: URLMapping, now: int)
  {
    match m.expiredAt
    case None => false
    case Some(at) => now > at
  }

  /** IsActive: enabled and not expired. */
  predicate IsActive(m: URLMapping, now: int)
  {
    m.status == StatusActive && !IsExpired(m, now)
  }

  /** A mapping without an expiry is never expired, and is active exactly when enabled. */
  lemma NoExpiryNeverExpires(m: URLMapping, now: int)
    requires m.expiredAt.None?
    ensures !IsExpired(m, now)
    ensures IsActive(m, now) <==> m.status == StatusActive
  {
  }

  /** At the very instant of expiry the mapping is still live; one tick later it is expired. */
  lemma ExpiryBoundary(m: URLMapping)
    requires m.expiredAt.Some?
    ensures !IsExpired(m, m.expiredAt.value)
    ensures IsExpired(m, m.expiredAt.value + 1)
  {
  }

  /** A disabled mapping is never active, whatever its expiry. */
  lemma DisabledNeverActive(m: URLMapping, now: int)
    requires m.status == StatusDisabled
    ensures !IsActive(m, now)
  {
  }

  /** Expiry is permanent: once expired, a mapping stays expired, so an inactive mapping
      never becomes active again as time passes. */
  lemma ExpiryIsPermanent(m: URLMapping, t1: int, t2: int)
    requires t1 <= t2
    ensures IsExpired(m, t1) ==> IsExpired(m, t2)
    ensures IsActive(m, t2) ==> IsActive(m, t1)
  {
  }
}
