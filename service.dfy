/** The URL service of `internal/service/url_service.go`: the lookup cascade
    (existence filter, then cache, then database), short-link creation (deduplication,
    collision retry, then database, cache and filter writes) and the start-up rebuild of
    the filter. Collaborator failures are explicit inputs: one flag per cache call and per
    write, and one per database read query of the call. */
module Service {
  import opened Wrappers
  import opened Model
  import opened Utils
  import opened Filter
  import opened Cache
  import opened Repository

  /** Which collaborator calls fail during one service call. `failedReads` holds the numbers of
      the database read queries of the call that fail, counting from 0: in CreateShortURL
      query 0 is the lookup by URL and query `1 + i` the i-th collision lookup. */
  datatype Faults = Faults(cacheGet: bool, cacheSet: bool, failedReads: set<nat>, dbWrite: bool)

  /** What `url.ParseRequestURI` yields for a URL it accepts: its scheme and host. */
  datatype ParsedURI = ParsedURI(scheme: string, host: string)

  datatype ValidationError = EmptyURL | InvalidFormat | UnsupportedScheme | MissingHost

  datatype ServiceError =
    | Invalid(reason: ValidationError)
    | NotFound             // "short code not found", whichever layer missed
    | ExpiredOrDisabled    // "short code is expired or disabled"
    | GenerateFailed       // "failed to generate short code"
    | Storage(cause: DbError)

  /** validateURL: non-empty, accepted by the request-URI parser, http or https, with a host.
      The parser is a library call and is passed in. */
  function ValidateURL(rawURL: string, parse: string -> Option<ParsedURI>): (err: Option<ValidationError>)
    ensures err.None? <==>
              rawURL != "" && parse(rawURL).Some? &&
              (parse(rawURL).value.scheme == "http" || parse(rawURL).value.scheme == "https") &&
              parse(rawURL).value.host != ""
    ensures rawURL == "" ==> err == Some(EmptyURL)
  {
    if rawURL == "" then Some(EmptyURL)
    else match parse(rawURL)
      case None => Some(InvalidFormat)
      case Some(uri) =>
        if uri.scheme != "http" && uri.scheme != "https" then Some(UnsupportedScheme)
        else if uri.host == "" then Some(MissingHost)
        else None
  }

  /** The repository calls made by the collision check for the probed codes. */
  function Probes(codes: seq<string>): (ops: seq<RepoOp>)
  {
    if codes == [] then [] else [SelectByShortCode(codes[0])] + Probes(codes[1..])
  }

  /** The mapping that deduplication would reuse: the first row with the URL, when it is active. */
  function ActiveByURL(rows: seq<URLMapping>, url: string, now: int): (r: Option<URLMapping>)
    ensures r.Some? ==> r.value in rows && r.value.originalURL == url && IsActive(r.value, now)
    ensures r.Some? <==> FindByOriginalURL(rows, url).Some? && IsActive(FindByOriginalURL(rows, url).value, now)
  {
    match FindByOriginalURL(rows, url)
    case Some(m) => if IsActive(m, now) then Some(m) else None
    case None => None
  }

  class URLService {
    const repo: URLRepository
    const cache: RedisCache
    const bloom: BloomFilter
    const node: SnowflakeNode

    constructor (repo: URLRepository, cache: RedisCache, bloom: BloomFilter, node: SnowflakeNode)
      ensures this.repo == repo && this.cache == cache && this.bloom == bloom && this.node == node
    {
      this.repo := repo;
      this.cache := cache;
      this.bloom := bloom;
      this.node := node;
    }

    /** Every short code in the database has been added to the filter. */
    ghost predicate Covered()
      reads repo, bloom
    {
      forall i :: 0 <= i < |repo.rows| ==> repo.rows[i].shortCode in bloom.added
    }

    /** GetOriginalURL: filter -> cache -> database, with early returns. */
    method GetOriginalURL(shortCode: string, now: int, faults: Faults) returns (r: Result<string, ServiceError>)
      requires bloom.Valid()
      modifies cache, repo`ops
      // a code the filter rules out is "not found" without touching cache or database
      ensures !bloom.Test(shortCode) ==>
                r == Failure(NotFound) && cache.ops == old(cache.ops) && cache.entries == old(cache.entries) &&
                repo.ops == old(repo.ops)
      // otherwise the cache is read first
      ensures bloom.Test(shortCode) ==>
                (|cache.ops| > |old(cache.ops)| && cache.ops[..|old(cache.ops)| + 1] == old(cache.ops) + [GetOp(shortCode)])
      // a non-empty cached URL is returned as it is, without touching the database
      ensures bloom.Test(shortCode) && !faults.cacheGet && old(cache.Lookup(shortCode)) != "" ==>
                r == Success(old(cache.Lookup(shortCode))) && cache.ops == old(cache.ops) + [GetOp(shortCode)] &&
                cache.entries == old(cache.entries) && repo.ops == old(repo.ops)
      // a miss or a failed cache read falls through to the database
      ensures bloom.Test(shortCode) && (faults.cacheGet || old(cache.Lookup(shortCode)) == "") ==>
                repo.ops == old(repo.ops) + [SelectByShortCode(shortCode)] &&
                var found := FindByShortCode(repo.rows, shortCode);
                if 0 in faults.failedReads then
                  r == Failure(Storage(QueryFailed)) &&
                  cache.ops == old(cache.ops) + [GetOp(shortCode)] && cache.entries == old(cache.entries)
                else if found.None? then
                  r == Failure(NotFound) &&
                  cache.ops == old(cache.ops) + [GetOp(shortCode)] && cache.entries == old(cache.entries)
                else if !IsActive(found.value, now) then
                  r == Failure(ExpiredOrDisabled) &&
                  cache.ops == old(cache.ops) + [GetOp(shortCode)] && cache.entries == old(cache.entries)
                else
                  r == Success(found.value.originalURL) &&
                  cache.ops == old(cache.ops) + [GetOp(shortCode), SetOp(shortCode, found.value.originalURL)] &&
                  cache.entries == if faults.cacheSet then old(cache.entries)
                                   else old(cache.entries)[shortCode := found.value.originalURL]
    {
      if !bloom.Test(shortCode) {
        return Failure(NotFound);
      }

      var originalURL, cacheFailed := cache.Get(shortCode, faults.cacheGet);
      // a failed read is only logged: its empty value reads as a miss
      if originalURL != "" {
        return Success(originalURL);
      }

      var found := repo.GetByShortCode(shortCode, 0 in faults.failedReads);
      if found.Failure? {
        return Failure(Storage(found.error));
      }
      if found.value.None? {
        return Failure(NotFound);
      }
      var mapping := found.value.value;

      if !IsActive(mapping, now) {
        return Failure(ExpiredOrDisabled);
      }

      // a failed cache write is only logged
      var setFailed := cache.Set(shortCode, mapping.originalURL, faults.cacheSet);
      return Success(mapping.originalURL);
    }

    /** CreateShortURL: validate, reuse an active mapping found by URL, otherwise draw a code
        (re-drawing up to three times on collision), insert the row, then write the cache and
        the filter. `probes` lists the codes the collision check looked up, and `used` is the
        code handed to the insert. */
    method CreateShortURL(originalURL: string, expiredAt: Option<int>, now: int,
                          parse: string -> Option<ParsedURI>, faults: Faults)
      returns (r: Result<URLMapping, ServiceError>, ghost probes: seq<string>, ghost used: string)
      requires bloom.Valid()
      modifies repo, cache, bloom, node
      ensures bloom.Valid()
      ensures old(Covered()) ==> Covered()
      ensures |probes| <= 3
      // a rejected URL touches nothing
      ensures ValidateURL(originalURL, parse).Some? ==>
                r == Failure(Invalid(ValidateURL(originalURL, parse).value)) &&
                repo.ops == old(repo.ops) && repo.rows == old(repo.rows) && cache.ops == old(cache.ops) &&
                cache.entries == old(cache.entries) && bloom.added == old(bloom.added) && node.issued == old(node.issued)
      // a valid URL is first looked up by URL
      ensures ValidateURL(originalURL, parse).None? ==>
                (|repo.ops| > |old(repo.ops)| && repo.ops[|old(repo.ops)|] == SelectByOriginalURL(originalURL))
      // a failed lookup by URL is returned, with nothing else done
      ensures ValidateURL(originalURL, parse).None? && 0 in faults.failedReads ==>
                r == Failure(Storage(QueryFailed)) && probes == [] &&
                repo.ops == old(repo.ops) + [SelectByOriginalURL(originalURL)] &&
                repo.rows == old(repo.rows) && cache.ops == old(cache.ops) && cache.entries == old(cache.entries) &&
                bloom.added == old(bloom.added) && node.issued == old(node.issued)
      // an active mapping for the same URL is returned as it is, with nothing written
      ensures ValidateURL(originalURL, parse).None? && 0 !in faults.failedReads &&
              ActiveByURL(old(repo.rows), originalURL, now).Some? ==>
                r == Success(ActiveByURL(old(repo.rows), originalURL, now).value) &&
                repo.ops == old(repo.ops) + [SelectByOriginalURL(originalURL)] &&
                repo.rows == old(repo.rows) && cache.ops == old(cache.ops) && cache.entries == old(cache.entries) &&
                bloom.added == old(bloom.added) && node.issued == old(node.issued)
      // the code inserted: the last probe when it was free, otherwise the encoding of the
      // ID drawn after the third collision
      ensures r.Success? && ActiveByURL(old(repo.rows), originalURL, now).None? ==> r.value.shortCode == used
      ensures ValidateURL(originalURL, parse).None? && 0 !in faults.failedReads &&
              ActiveByURL(old(repo.rows), originalURL, now).None? &&
              probes != [] && |probes| !in faults.failedReads && FindByShortCode(old(repo.rows), probes[|probes| - 1]).None? ==>
                used == probes[|probes| - 1]
      ensures ValidateURL(originalURL, parse).None? && 0 !in faults.failedReads &&
              ActiveByURL(old(repo.rows), originalURL, now).None? &&
              probes != [] && |probes| !in faults.failedReads && FindByShortCode(old(repo.rows), probes[|probes| - 1]).Some? &&
              node.issued - 1 !in node.failing ==>
                |probes| == 3 && node.LastDrawn(used)
      // once the collision check hands over a code, creation succeeds exactly when the insert
      // can be written and the code is not in use
      ensures ValidateURL(originalURL, parse).None? && 0 !in faults.failedReads &&
              ActiveByURL(old(repo.rows), originalURL, now).None? &&
              probes != [] && |probes| !in faults.failedReads &&
              (FindByShortCode(old(repo.rows), probes[|probes| - 1]).None? || node.issued - 1 !in node.failing) ==>
                (r.Success? <==> !faults.dbWrite && FindByShortCode(old(repo.rows), used).None?)
      // which failure comes back once a code is needed: a failed first draw, a failed collision
      // lookup, or a failed draw after a collision is reported as such, and the insert is never
      // reached then
      ensures ValidateURL(originalURL, parse).None? && 0 !in faults.failedReads &&
              ActiveByURL(old(repo.rows), originalURL, now).None? ==>
                (probes == [] <==> old(node.issued) in node.failing) &&
                (probes == [] ==> r == Failure(GenerateFailed)) &&
                (probes != [] ==> (r == Failure(Storage(QueryFailed)) <==> |probes| in faults.failedReads)) &&
                (forall k :: 1 <= k < |probes| ==> k !in faults.failedReads) &&
                (r == Failure(GenerateFailed) <==>
                   probes == [] ||
                   (|probes| !in faults.failedReads && FindByShortCode(old(repo.rows), probes[|probes| - 1]).Some? &&
                    node.issued - 1 in node.failing))
      // the causes of a failure; a failing cache write is not among them
      ensures r.Failure? ==>
                || (ValidateURL(originalURL, parse).Some? && r == Failure(Invalid(ValidateURL(originalURL, parse).value)))
                || (r == Failure(Storage(QueryFailed)) && (0 in faults.failedReads || (probes != [] && |probes| in faults.failedReads)))
                || (r == Failure(GenerateFailed) && node.issued > old(node.issued) && node.issued - 1 in node.failing)
                || (r == Failure(Storage(InsertFailed)) &&
                    (faults.dbWrite ||
                     (|probes| == 3 && FindByShortCode(old(repo.rows), probes[2]).Some? &&
                      FindByShortCode(old(repo.rows), used).Some?)))
      // a failure writes nothing
      ensures r.Failure? ==>
                repo.rows == old(repo.rows) && cache.entries == old(cache.entries) && bloom.added == old(bloom.added)
      // a new mapping: inserted, then cached (unless the cache fails) and added to the filter
      ensures r.Success? && ActiveByURL(old(repo.rows), originalURL, now).None? ==>
                r.value == URLMapping(r.value.shortCode, originalURL, expiredAt, StatusActive) &&
                repo.rows == old(repo.rows) + [r.value] &&
                repo.ops == old(repo.ops) + [SelectByOriginalURL(originalURL)] + Probes(probes) + [Insert(r.value)] &&
                cache.ops == old(cache.ops) + [SetOp(r.value.shortCode, originalURL)] &&
                cache.entries == (if faults.cacheSet then old(cache.entries)
                                  else old(cache.entries)[r.value.shortCode := originalURL]) &&
                bloom.added == old(bloom.added) + {r.value.shortCode} &&
                bloom.Test(r.value.shortCode)
      // every probe but the last collided
      ensures forall i :: 0 <= i < |probes| - 1 ==> FindByShortCode(old(repo.rows), probes[i]).Some?
      ensures r.Success? && ActiveByURL(old(repo.rows), originalURL, now).None? ==> |probes| >= 1
    {
      probes, used := [], "";
      var invalid := ValidateURL(originalURL, parse);
      if invalid.Some? {
        return Failure(Invalid(invalid.value)), probes, used;
      }

      var existing := FindReusable(originalURL, now, faults);
      if existing.Failure? {
        return Failure(existing.error), probes, used;
      }
      if existing.value.Some? {
        return Success(existing.value.value), probes, used;
      }

      r, probes, used := CreateNew(originalURL, expiredAt, faults);
    }

    /** The creation path of CreateShortURL once no mapping can be reused: draw a free code,
        then publish the new active mapping. `used` is the code handed to the insert. */
    method CreateNew(originalURL: string, expiredAt: Option<int>, faults: Faults)
      returns (r: Result<URLMapping, ServiceError>, ghost probes: seq<string>, ghost used: string)
      requires bloom.Valid()
      modifies repo, cache, bloom, node
      ensures bloom.Valid()
      ensures old(Covered()) ==> Covered()
      ensures |probes| <= 3
      ensures old(repo.ops) + Probes(probes) <= repo.ops
      // the code inserted: the last probe when it was free, otherwise the encoding of the
      // ID drawn after the third collision
      ensures r.Success? ==> r.value.shortCode == used
      ensures probes != [] && |probes| !in faults.failedReads && FindByShortCode(old(repo.rows), probes[|probes| - 1]).None? ==>
                used == probes[|probes| - 1]
      ensures probes != [] && |probes| !in faults.failedReads && FindByShortCode(old(repo.rows), probes[|probes| - 1]).Some? &&
              node.issued - 1 !in node.failing ==>
                |probes| == 3 && node.LastDrawn(used)
      // once the collision check hands over a code, the call succeeds exactly when the insert
      // can be written and the code is not in use
      ensures probes != [] && |probes| !in faults.failedReads &&
              (FindByShortCode(old(repo.rows), probes[|probes| - 1]).None? || node.issued - 1 !in node.failing) ==>
                (r.Success? <==> !faults.dbWrite && FindByShortCode(old(repo.rows), used).None?)
      // the causes of a failure; a failing cache write is not among them
      // which failure comes back: a failed first draw, a failed collision lookup, or a failed
      // draw after a collision is reported as such, and the insert is never reached then
      ensures probes == [] <==> old(node.issued) in node.failing
      ensures probes == [] ==> r == Failure(GenerateFailed)
      ensures probes != [] ==> (r == Failure(Storage(QueryFailed)) <==> |probes| in faults.failedReads)
      ensures forall k :: 1 <= k < |probes| ==> k !in faults.failedReads
      ensures r == Failure(GenerateFailed) <==>
                probes == [] ||
                (|probes| !in faults.failedReads && FindByShortCode(old(repo.rows), probes[|probes| - 1]).Some? &&
                 node.issued - 1 in node.failing)
      ensures r.Failure? ==>
                || (r == Failure(Storage(QueryFailed)) && probes != [] && |probes| in faults.failedReads)
                || (r == Failure(GenerateFailed) && node.issued > old(node.issued) && node.issued - 1 in node.failing)
                || (r == Failure(Storage(InsertFailed)) &&
                    (faults.dbWrite ||
                     (|probes| == 3 && FindByShortCode(old(repo.rows), probes[2]).Some? &&
                      FindByShortCode(old(repo.rows), used).Some?)))
      ensures r.Failure? ==>
                repo.rows == old(repo.rows) && cache.entries == old(cache.entries) && bloom.added == old(bloom.added)
      ensures r.Success? ==>
                r.value == URLMapping(r.value.shortCode, originalURL, expiredAt, StatusActive) &&
                repo.rows == old(repo.rows) + [r.value] &&
                repo.ops == old(repo.ops) + Probes(probes) + [Insert(r.value)] &&
                cache.ops == old(cache.ops) + [SetOp(r.value.shortCode, originalURL)] &&
                cache.entries == (if faults.cacheSet then old(cache.entries)
                                  else old(cache.entries)[r.value.shortCode := originalURL]) &&
                bloom.added == old(bloom.added) + {r.value.shortCode} &&
                bloom.Test(r.value.shortCode)
      ensures forall i :: 0 <= i < |probes| - 1 ==> FindByShortCode(old(repo.rows), probes[i]).Some?
      ensures r.Success? ==> |probes| >= 1
    {
      var picked;
      picked, probes := DrawCode(faults);
      assert repo.rows == old(repo.rows);
      if picked.Failure? {
        return Failure(picked.error), probes, "";
      }

      used := picked.value;
      var mapping := URLMapping(picked.value, originalURL, expiredAt, StatusActive);
      r := Publish(mapping, faults);
    }

    /** The deduplication phase of CreateShortURL: the first mapping stored for the URL, when
        it is still active. Only the operation log of the repository changes. */
    method FindReusable(originalURL: string, now: int, faults: Faults) returns (r: Result<Option<URLMapping>, ServiceError>)
      modifies repo`ops
      ensures repo.ops == old(repo.ops) + [SelectByOriginalURL(originalURL)]
      ensures r == if 0 in faults.failedReads then Failure(Storage(QueryFailed))
                   else Success(ActiveByURL(repo.rows, originalURL, now))
    {
      var existing := repo.GetByOriginalURL(originalURL, 0 in faults.failedReads);
      if existing.Failure? {
        return Failure(Storage(existing.error));
      }
      if existing.value.Some? && IsActive(existing.value.value, now) {
        return Success(existing.value);
      }
      return Success(None);
    }

    /** The code-drawing phase of CreateShortURL: a first code from the generator, then the
        collision check. The i-th collision lookup is read query `1 + i` of the call. */
    method DrawCode(faults: Faults) returns (r: Result<string, ServiceError>, ghost probes: seq<string>)
      modifies repo`ops, node
      ensures |probes| <= 3
      ensures repo.ops == old(repo.ops) + Probes(probes)
      // nothing is looked up when the first draw fails
      ensures probes == [] <==> old(node.issued) in node.failing
      ensures probes == [] ==> r == Failure(GenerateFailed)
      // every lookup but the last found its code taken
      ensures forall i :: 0 <= i < |probes| - 1 ==> FindByShortCode(repo.rows, probes[i]).Some?
      // the last lookup decides: a failed query is returned, a free code is the result, and
      // a taken one is followed by a draw, used unchecked after the third lookup
      ensures probes != [] ==> (r == Failure(Storage(QueryFailed)) <==> |probes| in faults.failedReads)
      // a failed lookup ends the check: every lookup before the last succeeded
      ensures forall k :: 1 <= k < |probes| ==> k !in faults.failedReads
      ensures probes != [] && |probes| !in faults.failedReads && FindByShortCode(repo.rows, probes[|probes| - 1]).None? ==>
                r == Success(probes[|probes| - 1])
      ensures r.Success? ==> probes != [] && (FindByShortCode(repo.rows, probes[|probes| - 1]).Some? ==> |probes| == 3)
      // the code used unchecked is the encoding of the last ID drawn
      ensures r.Success? && FindByShortCode(repo.rows, probes[|probes| - 1]).Some? ==> node.LastDrawn(r.value)
      ensures r.Failure? ==> r == Failure(GenerateFailed) || r == Failure(Storage(QueryFailed))
      // one code is drawn first, and one more after each lookup that found its code taken
      ensures probes == [] ==> node.issued == old(node.issued) + 1
      ensures probes != [] && (|probes| in faults.failedReads || FindByShortCode(repo.rows, probes[|probes| - 1]).None?) ==>
                node.issued == old(node.issued) + |probes|
      ensures probes != [] && |probes| !in faults.failedReads && FindByShortCode(repo.rows, probes[|probes| - 1]).Some? ==>
                node.issued == old(node.issued) + |probes| + 1
      // a generator failure is reported exactly when a draw fails: the first one, or the one after a collision
      ensures r == Failure(GenerateFailed) <==>
                probes == [] ||
                (|probes| !in faults.failedReads && FindByShortCode(repo.rows, probes[|probes| - 1]).Some? &&
                 node.issued - 1 in node.failing)
    {
      probes := [];
      var generated := GenerateShortCode(node);
      if generated.None? {
        return Failure(GenerateFailed), probes;
      }
      ghost var taken;
      r, probes, taken := AvoidCollisions(generated.value, faults);
    }

    /** The collision check of CreateShortURL for a first code already drawn: up to three
        lookups, drawing a new code after each collision. A free code ends the loop; after three
        collisions the last code drawn is used unchecked. */
    method AvoidCollisions(first: string, faults: Faults)
      returns (r: Result<string, ServiceError>, ghost probes: seq<string>, ghost taken: bool)
      modifies repo`ops, node
      ensures 1 <= |probes| <= 3 && probes[0] == first
      ensures repo.ops == old(repo.ops) + Probes(probes)
      // every lookup but the last found its code taken; `taken` says whether the last one did
      ensures forall i :: 0 <= i < |probes| - 1 ==> probes[i] in UsedCodes(repo.rows)
      ensures taken <==> probes[|probes| - 1] in UsedCodes(repo.rows)
      // the last lookup decides: a failed query is returned, a free code is the result, and
      // a taken one is followed by a draw, used unchecked after the third lookup
      ensures r == Failure(Storage(QueryFailed)) <==> |probes| in faults.failedReads
      // a failed lookup ends the loop: every lookup before the last succeeded
      ensures forall k :: 1 <= k < |probes| ==> k !in faults.failedReads
      ensures |probes| !in faults.failedReads && !taken ==> r == Success(probes[|probes| - 1])
      ensures r.Success? && taken ==> |probes| == 3
      // the code used unchecked is the encoding of the last ID drawn
      ensures r.Success? && taken ==> node.LastDrawn(r.value)
      ensures r.Failure? ==> r == Failure(GenerateFailed) || r == Failure(Storage(QueryFailed))
      // one code is drawn after each lookup that found its code taken
      ensures |probes| in faults.failedReads || !taken ==> node.issued == old(node.issued) + |probes| - 1
      ensures |probes| !in faults.failedReads && taken ==> node.issued == old(node.issued) + |probes|
      // a generator failure is reported exactly when the draw after a collision fails
      ensures r == Failure(GenerateFailed) <==> |probes| !in faults.failedReads && taken && node.issued - 1 in node.failing
    {
      ghost var rows := repo.rows;
      ghost var ops0 := repo.ops;
      var shortCode := first;
      probes := [];
      taken := false;
      var i := 0;
      while i < 3
        invariant 0 <= i <= 3 && |probes| == i
        invariant repo.rows == rows
        invariant i == 0 ==> shortCode == first
        invariant i > 0 ==> probes[0] == first && taken
        invariant node.issued == old(node.issued) + i
        invariant repo.ops == ops0 + Probes(probes)
        invariant forall k :: 1 <= k <= i ==> k !in faults.failedReads
        invariant i > 0 ==> node.issued - 1 !in node.failing
        invariant i > 0 ==> node.LastDrawn(shortCode)
        invariant forall k :: 0 <= k < i ==> probes[k] in UsedCodes(rows)
      {
        var found, generated := CollisionRound(shortCode, 1 + i, faults);
        ProbesAppend(probes, shortCode);
        assert ops0 + Probes(probes + [shortCode]) == (ops0 + Probes(probes)) + [SelectByShortCode(shortCode)];
        probes := probes + [shortCode];
        taken := shortCode in UsedCodes(rows);
        assert probes[i] == shortCode && |probes| == 1 + i;
        if found.Failure? {
          return Failure(Storage(found.error)), probes, taken;
        }
        if found.value.None? {
          break;
        }
        if generated.None? {
          return Failure(GenerateFailed), probes, taken;
        }
        shortCode := generated.value;
        i := i + 1;
      }
      return Success(shortCode), probes, taken;
    }

    /** One round of the collision loop, as read query `q`: look the code up, and draw the
        next code when it is taken. */
    method CollisionRound(shortCode: string, q: nat, faults: Faults)
      returns (taken: Result<Option<URLMapping>, DbError>, next: Option<string>)
      modifies repo`ops, node
      ensures repo.ops == old(repo.ops) + [SelectByShortCode(shortCode)]
      ensures taken == if q in faults.failedReads then Failure(QueryFailed) else Success(FindByShortCode(repo.rows, shortCode))
      ensures taken.Success? ==> (taken.value.Some? <==> shortCode in UsedCodes(repo.rows))
      // a code is drawn exactly when the lookup found the code taken
      ensures node.issued == old(node.issued) + (if taken.Success? && taken.value.Some? then 1 else 0)
      ensures taken.Success? && taken.value.Some? ==> (next.None? <==> node.issued - 1 in node.failing)
      // the next code is the encoding of the ID drawn
      ensures next.Some? ==> taken.Success? && taken.value.Some? && node.LastDrawn(next.value)
    {
      taken := repo.GetByShortCode(shortCode, q in faults.failedReads);
      FindMeansUsed(repo.rows, shortCode);
      next := None;
      if taken.Success? && taken.value.Some? {
        next := GenerateShortCode(node);
      }
    }

    /** The write phase of CreateShortURL: the row, then the cache entry, then the filter. */
    method Publish(mapping: URLMapping, faults: Faults) returns (r: Result<URLMapping, ServiceError>)
      requires bloom.Valid()
      modifies repo, cache, bloom
      ensures bloom.Valid()
      ensures old(Covered()) ==> Covered()
      ensures repo.ops == old(repo.ops) + [Insert(mapping)]
      ensures r.Failure? ==>
                r == Failure(Storage(InsertFailed)) && repo.rows == old(repo.rows) &&
                cache.ops == old(cache.ops) && cache.entries == old(cache.entries) && bloom.added == old(bloom.added)
      ensures r.Success? <==> !faults.dbWrite && FindByShortCode(old(repo.rows), mapping.shortCode).None?
      ensures r.Success? ==>
                r.value == mapping && repo.rows == old(repo.rows) + [mapping] &&
                cache.ops == old(cache.ops) + [SetOp(mapping.shortCode, mapping.originalURL)] &&
                cache.entries == (if faults.cacheSet then old(cache.entries)
                                  else old(cache.entries)[mapping.shortCode := mapping.originalURL]) &&
                bloom.added == old(bloom.added) + {mapping.shortCode}
    {
      var inserted := repo.Create(mapping, faults.dbWrite);
      if inserted.Some? {
        return Failure(Storage(inserted.value));
      }
      // a failed cache write is only logged
      var setFailed := cache.Set(mapping.shortCode, mapping.originalURL, faults.cacheSet);
      bloom.Add(mapping.shortCode);
      return Success(mapping);
    }

    /** InitBloomFilter: adds every short code of the database to the filter. */
    method InitBloomFilter(faults: Faults) returns (err: Option<ServiceError>)
      requires bloom.Valid()
      modifies bloom, repo`ops
      ensures bloom.Valid()
      ensures repo.ops == old(repo.ops) + [SelectAllShortCodes]
      ensures err.Some? <==> 0 in faults.failedReads
      ensures err.Some? ==> err == Some(Storage(ScanFailed)) && bloom.added == old(bloom.added)
      ensures err.None? ==> bloom.added == old(bloom.added) + (set i | 0 <= i < |repo.rows| :: repo.rows[i].shortCode)
      ensures err.None? ==> Covered()
    {
      var codes := repo.GetAllShortCodes(0 in faults.failedReads);
      if codes.Failure? {
        return Some(Storage(codes.error));
      }
      bloom.AddBatch(codes.value);
      assert (set i | 0 <= i < |codes.value| :: codes.value[i]) == (set i | 0 <= i < |repo.rows| :: repo.rows[i].shortCode);
      return None;
    }
  }

  /** The short codes present in the table. */
  ghost function UsedCodes(rows: seq<URLMapping>): set<string>
  {
    set m | m in rows :: m.shortCode
  }

  /** A lookup by short code finds a row exactly when the code is in use. */
  lemma FindMeansUsed(rows: seq<URLMapping>, code: string)
    ensures FindByShortCode(rows, code).Some? <==> code in UsedCodes(rows)
  {
    if code in UsedCodes(rows) {
      var m :| m in rows && m.shortCode == code;
    }
  }

  lemma {:induction false} ProbesAppend(codes: seq<string>, code: string)
    ensures Probes(codes + [code]) == Probes(codes) + [SelectByShortCode(code)]
  {
    if codes != [] {
      assert (codes + [code])[1..] == codes[1..] + [code];
      ProbesAppend(codes[1..], code);
    } else {
      assert [code][1..] == [];
    }
  }
}
