/** The short-code cache of `internal/cache/redis.go`: code -> original URL, where a miss
    reads as the empty string and an unreachable store is reported as an error. Every call
    the cache receives is recorded, so that the cascade's contracts can say which layers a
    lookup touched. */
module Cache {

  datatype CacheOp = GetOp(code: string) | SetOp(code: string, url: string)

  class RedisCache {
    /** Cached entries, keyed by short code (the fixed prefix of the Redis key is left implicit). */
    var entries: map<string, string>
    /** The calls received, oldest first. */
    var ops: seq<CacheOp>

    constructor ()
      ensures entries == map[] && ops == []
    {
      entries := map[];
      ops := [];
    }

    /** What a successful read returns: the cached URL, or "" on a miss. */
    function Lookup(shortCode: string): string
      reads this
    {
      if shortCode in entries then entries[shortCode] else ""
    }

    /** Get: a miss is ("", no error); a transport failure is ("", error). */
    method Get(shortCode: string, fail: bool) returns (url: string, failed: bool)
      modifies this`ops
      ensures ops == old(ops) + [GetOp(shortCode)]
      ensures failed == fail
      ensures url == if fail then "" else Lookup(shortCode)
    {
      ops := ops + [GetOp(shortCode)];
      if fail {
        return "", true;
      }
      return Lookup(shortCode), false;
    }

    /** Set: stores the entry unless the store is unreachable. */
    method Set(shortCode: string, originalURL: string, fail: bool) returns (failed: bool)
      modifies this
      ensures ops == old(ops) + [SetOp(shortCode, originalURL)]
      ensures failed == fail
      ensures entries == if fail then old(entries) else old(entries)[shortCode := originalURL]
    {
      ops := ops + [SetOp(shortCode, originalURL)];
      failed := fail;
      if !fail {
        entries := entries[shortCode := originalURL];
      }
    }
  }
}
