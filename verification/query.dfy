/**
 * `fetchEvents` (main.go:207-245): read `limit` and `sort` from the query
 * string, fall back to 10 and newest-first, and run the find.
 */
module Query {
  import opened Wrappers
  import opened Strconv
  import opened Store

  /** Parsed query parameters, as Go's `url.Values`: each key maps to its values in order. */
  type Values = map<string, seq<string>>

  const DefaultLimit: int := 10

  /** `url.Values.Get`: the first value for `key`, or "" when there is none. */
  function QueryGet(query: Values, key: string): (v: string)
    ensures key in query && query[key] != [] ==> v == query[key][0]
    ensures (key !in query || query[key] == []) ==> v == ""
  {
    if key in query && |query[key]| > 0 then query[key][0] else ""
  }

  /**
   * The limit for a raw `limit` parameter: the parameter itself when it
   * reads as a positive integer, 10 otherwise.
   */
  function ParsedLimit(limitStr: string): (limit: int)
    ensures 1 <= limit <= MaxInt64
    ensures limit != DefaultLimit ==> Atoi(limitStr) == Some(limit)
    ensures Atoi(limitStr).Some? && Atoi(limitStr).value > 0 ==> limit == Atoi(limitStr).value
  {
    match Atoi(limitStr)
    case Some(n) => if n > 0 then n else DefaultLimit
    case None => DefaultLimit
  }

  /** The sort direction for a raw `sort` parameter: ascending only for "asc". */
  function ParsedSortOrder(sortStr: string): (sortOrder: int)
    ensures sortOrder == Ascending <==> sortStr == "asc"
    ensures sortOrder == Ascending || sortOrder == Descending
  {
    if sortStr == "asc" then Ascending else Descending
  }

  /** Any positive 64-bit limit the client writes in decimal is the limit used. */
  lemma PositiveLimitIsHonoured(n: int)
    requires 0 < n <= MaxInt64
    ensures ParsedLimit(FormatInt(n)) == n
  {
    AtoiFormatInt(n);
  }

  /** Any string that is not a decimal integer, and any decimal integer below 1, gives 10. */
  lemma NonPositiveLimitDefaults(limitStr: string)
    requires !IsDecimal(limitStr) || SignedValue(limitStr) <= 0
    ensures ParsedLimit(limitStr) == DefaultLimit
  {
  }

  /**
   * Reads `limit` and `sort` from the query string as main.go:208-220 does:
   * start from 10 and descending, then override each from its parameter.
   */
  method FetchParams(query: Values) returns (limit: int, sortOrder: int)
    ensures 1 <= limit <= MaxInt64
    ensures limit == ParsedLimit(QueryGet(query, "limit"))
    ensures sortOrder == ParsedSortOrder(QueryGet(query, "sort"))
    ensures sortOrder == Ascending <==> QueryGet(query, "sort") == "asc"
  {
    var limitStr := QueryGet(query, "limit");
    var sortStr := QueryGet(query, "sort");
    limit := DefaultLimit;
    sortOrder := Descending;
    if limitStr != "" {
      var parsed := Atoi(limitStr);
      if parsed.Some? && parsed.value > 0 {
        limit := parsed.value;
      }
    }
    if sortStr == "asc" {
      sortOrder := Ascending;
    }
  }

  /** What `fetchEvents` gives back: the documents, or an error status and text. */
  datatype FetchResult<T> = Found(docs: seq<T>) | FetchFailed(status: int, text: string)

  const StatusInternalServerError: int := 500

  /**
   * `r` is an answer `fetchEvents` may give over `docs`: a 500 naming the
   * step that failed, or what a find with the requested limit and sort
   * returns.
   */
  ghost predicate IsFetchAnswer<T>(docs: seq<T>, key: T -> int, query: Values, entityType: string,
                                   queryOk: bool, decodeOk: bool, r: FetchResult<T>) {
    && (!queryOk ==> r == FetchFailed(StatusInternalServerError, "Failed to query " + entityType))
    && (queryOk && !decodeOk ==> r == FetchFailed(StatusInternalServerError, "Failed to decode " + entityType))
    && (queryOk && decodeOk ==>
          && r.Found?
          && IsFindResult(docs, r.docs, key,
                          ParsedSortOrder(QueryGet(query, "sort")), ParsedLimit(QueryGet(query, "limit"))))
  }

  /**
   * `fetchEvents` over one collection. `queryOk` and `decodeOk` stand for
   * the outcome of the database query and of reading its cursor.
   */
  method FetchEvents<T>(docs: seq<T>, key: T -> int, query: Values, entityType: string,
                        queryOk: bool, decodeOk: bool)
    returns (r: FetchResult<T>)
    ensures IsFetchAnswer(docs, key, query, entityType, queryOk, decodeOk, r)
  {
    var limit, sortOrder := FetchParams(query);
    if !queryOk {
      return FetchFailed(StatusInternalServerError, "Failed to query " + entityType);
    }
    if !decodeOk {
      return FetchFailed(StatusInternalServerError, "Failed to decode " + entityType);
    }
    var found := Find(docs, key, sortOrder, limit);
    r := Found(found);
  }
}
