/** The durable store of `internal/repository/url_repository.go`, as an in-memory table of
    mapping rows in primary-key order. A query returns the first matching row, as GORM's
    `First` does; a failed query is an explicit outcome. Every call is recorded. */
module Repository {
  import opened Wrappers
  import opened Model

  datatype DbError = QueryFailed | InsertFailed | ScanFailed

  datatype RepoOp =
    | SelectByShortCode(code: string)
    | SelectByOriginalURL(url: string)
    | Insert(mapping: URLMapping)
    | SelectAllShortCodes

  /** Index of the first row satisfying `matches`, or |rows| when there is none. */
  function FirstMatch(rows: seq<URLMapping>, matches: URLMapping -> bool): (i: nat)
    ensures i <= |rows|
    ensures i < |rows| ==> matches(rows[i])
    ensures forall j :: 0 <= j < i ==> !matches(rows[j])
  {
    if rows == [] then 0
    else if matches(rows[0]) then 0
    else 1 + FirstMatch(rows[1..], matches)
  }

  /** The row with the given short code, if any. */
  function FindByShortCode(rows: seq<URLMapping>, code: string): (r: Option<URLMapping>)
    ensures r.None? <==> forall j :: 0 <= j < |rows| ==> rows[j].shortCode != code
    ensures r.Some? ==> r.value in rows && r.value.shortCode == code
  {
    var i := FirstMatch(rows, (m: URLMapping) => m.shortCode == code);
    if i < |rows| then Some(rows[i]) else None
  }

  /** The first row, in primary-key order, with the given original URL, if any. */
  function FindByOriginalURL(rows: seq<URLMapping>, url: string): (r: Option<URLMapping>)
    ensures r.None? <==> forall j :: 0 <= j < |rows| ==> rows[j].originalURL != url
    ensures r.Some? ==> exists i :: 0 <= i < |rows| && rows[i] == r.value && r.value.originalURL == url &&
                          forall j :: 0 <= j < i ==> rows[j].originalURL != url
  {
    var i := FirstMatch(rows, (m: URLMapping) => m.originalURL == url);
    if i < |rows| then Some(rows[i]) else None
  }

  /** The short-code column, in row order. */
  function ShortCodes(rows: seq<URLMapping>): (codes: seq<string>)
    ensures |codes| == |rows|
    ensures forall i :: 0 <= i < |rows| ==> codes[i] == rows[i].shortCode
  {
    if rows == [] then [] else [rows[0].shortCode] + ShortCodes(rows[1..])
  }

  class URLRepository {
    /** The `url_mappings` table, oldest row first. */
    var rows: seq<URLMapping>
    /** The calls received, oldest first. */
    var ops: seq<RepoOp>

    constructor (rows: seq<URLMapping>)
      ensures this.rows == rows && ops == []
    {
      this.rows := rows;
      ops := [];
    }

    /** GetByShortCode: the matching row, `None` for "record not found", or a query error. */
    method GetByShortCode(shortCode: string, fail: bool) returns (r: Result<Option<URLMapping>, DbError>)
      modifies this`ops
      ensures ops == old(ops) + [SelectByShortCode(shortCode)]
      ensures r == if fail then Failure(QueryFailed) else Success(FindByShortCode(rows, shortCode))
    {
      ops := ops + [SelectByShortCode(shortCode)];
      if fail {
        return Failure(QueryFailed);
      }
      return Success(FindByShortCode(rows, shortCode));
    }

    /** GetByOriginalURL: the first row with that URL, `None`, or a query error. */
    method GetByOriginalURL(originalURL: string, fail: bool) returns (r: Result<Option<URLMapping>, DbError>)
      modifies this`ops
      ensures ops == old(ops) + [SelectByOriginalURL(originalURL)]
      ensures r == if fail then Failure(QueryFailed) else Success(FindByOriginalURL(rows, originalURL))
    {
      ops := ops + [SelectByOriginalURL(originalURL)];
      if fail {
        return Failure(QueryFailed);
      }
      return Success(FindByOriginalURL(rows, originalURL));
    }

    /** Create: appends the row; the unique index on the short code rejects a duplicate,
        and an unreachable database rejects everything. */
    method Create(mapping: URLMapping, fail: bool) returns (err: Option<DbError>)
      modifies this
      ensures ops == old(ops) + [Insert(mapping)]
      ensures err.None? <==> !fail && FindByShortCode(old(rows), mapping.shortCode).None?
      ensures err.Some? ==> err == Some(InsertFailed)
      ensures rows == if err.None? then old(rows) + [mapping] else old(rows)
    {
      ops := ops + [Insert(mapping)];
      if fail || FindByShortCode(rows, mapping.shortCode).Some? {
        return Some(InsertFailed);
      }
      rows := rows + [mapping];
      return None;
    }

    /** GetAllShortCodes: the whole short-code column, or a query error. */
    method GetAllShortCodes(fail: bool) returns (r: Result<seq<string>, DbError>)
      modifies this`ops
      ensures ops == old(ops) + [SelectAllShortCodes]
      ensures r == if fail then Failure(ScanFailed) else Success(ShortCodes(rows))
    {
      ops := ops + [SelectAllShortCodes];
      if fail {
        return Failure(ScanFailed);
      }
      return Success(ShortCodes(rows));
    }
  }
}
