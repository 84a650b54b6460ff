/**
 * The request body of the SQL gateway (`SQLRequest`): its JSON defaults, the
 * check that the caller wrote no pagination of their own, and the server-side
 * `LIMIT ... OFFSET ...` clause appended to the query.
 */
module Dto {
  import opened Wrappers
  import opened Ints
  import opened Text
  import opened Json

  const DEFAULT_OFFSET: U32 := 0
  const DEFAULT_LIMIT: U32 := U32_MAX
  const DEFAULT_BATCH_SIZE: U32 := 1000

  const PAGINATION_ERROR: string := "The SQL query should not contain LIMIT or OFFSET clauses."

  datatype SqlRequest = SqlRequest(query: string, offset: U32, limit: U32, batchSize: U32)

  /** A `u32` field with `#[serde(default = ...)]`: absent takes the default; null is an error. */
  function DecodeU32OrDefault(v: Option<Json>, default: U32): (r: Result<U32, string>)
    ensures v.None? ==> r == Ok(default)
    ensures v.Some? ==> r == DecodeU32(v.value)
  {
    if v.None? then Ok(default) else DecodeU32(v.value)
  }

  /** Deserialization of the request body. */
  function DecodeRequest(body: Json): (r: Result<SqlRequest, string>)
    ensures r.Ok? ==> body.Object? && "query" in body.fields && body.fields["query"] == Str(r.value.query)
    ensures r.Ok? && "offset" !in body.fields ==> r.value.offset == DEFAULT_OFFSET
    ensures r.Ok? && "limit" !in body.fields ==> r.value.limit == DEFAULT_LIMIT
    ensures r.Ok? && "batch_size" !in body.fields ==> r.value.batchSize == DEFAULT_BATCH_SIZE
    ensures body.Object? && "query" !in body.fields ==> r.Err?
    ensures r.Ok? <==>
      && body.Object? && "query" in body.fields && body.fields["query"].Str?
      && ("offset" in body.fields ==> DecodeU32(body.fields["offset"]).Ok?)
      && ("limit" in body.fields ==> DecodeU32(body.fields["limit"]).Ok?)
      && ("batch_size" in body.fields ==> DecodeU32(body.fields["batch_size"]).Ok?)
    ensures r.Ok? && "offset" in body.fields ==> DecodeU32(body.fields["offset"]) == Ok(r.value.offset)
    ensures r.Ok? && "limit" in body.fields ==> DecodeU32(body.fields["limit"]) == Ok(r.value.limit)
    ensures r.Ok? && "batch_size" in body.fields ==> DecodeU32(body.fields["batch_size"]) == Ok(r.value.batchSize)
  {
    if !body.Object? then Err("invalid type: expected a map")
    else
      var f := body.fields;
      match Required(Get(f, "query"), "query")
      case Err(e) => Err(e)
      case Ok(qv) =>
        match DecodeString(qv)
        case Err(e) => Err(e)
        case Ok(query) =>
          match DecodeU32OrDefault(Get(f, "offset"), DEFAULT_OFFSET)
          case Err(e) => Err(e)
          case Ok(offset) =>
            match DecodeU32OrDefault(Get(f, "limit"), DEFAULT_LIMIT)
            case Err(e) => Err(e)
            case Ok(limit) =>
              match DecodeU32OrDefault(Get(f, "batch_size"), DEFAULT_BATCH_SIZE)
              case Err(e) => Err(e)
              case Ok(batchSize) => Ok(SqlRequest(query, offset, limit, batchSize))
  }

  /** A body holding only the query text gets offset 0, limit `u32::MAX` and batch size 1000. */
  lemma DefaultsOfQueryOnly(q: string)
    ensures DecodeRequest(Object(map["query" := Str(q)])) == Ok(SqlRequest(q, 0, 4294967295, 1000))
  {
    var f := map["query" := Str(q)];
    assert "offset" !in f && "limit" !in f && "batch_size" !in f;
  }

  /** True when the lower-cased query mentions "limit" or "offset" anywhere, even inside a word. */
  predicate ContainsPaginationKeywords(req: SqlRequest) {
    var q := ToLower(req.query);
    Contains(q, "limit") || Contains(q, "offset")
  }

  /** The query with the server's pagination appended, unless the query already has its own. */
  function BuildPaginatedQuery(req: SqlRequest): (r: Result<string, string>)
    ensures r.Err? <==> ContainsPaginationKeywords(req)
    ensures r.Err? ==> r.error == PAGINATION_ERROR
    ensures r.Ok? ==> |req.query| <= |r.value| && r.value[..|req.query|] == req.query
  {
    if ContainsPaginationKeywords(req) then Err(PAGINATION_ERROR)
    else Ok(req.query + PaginationClause(req))
  }

  /** The appended text: " LIMIT <limit> OFFSET <offset>" in decimal. */
  function PaginationClause(req: SqlRequest): string {
    " LIMIT " + NatToDecimal(req.limit) + " OFFSET " + NatToDecimal(req.offset)
  }

  /** The appended clause carries back the exact limit and offset that were asked for. */
  lemma PaginatedQueryShape(req: SqlRequest)
    requires !ContainsPaginationKeywords(req)
    ensures BuildPaginatedQuery(req).Ok?
    ensures var sql := BuildPaginatedQuery(req).value;
      var lim := NatToDecimal(req.limit);
      var off := NatToDecimal(req.offset);
      && sql == req.query + " LIMIT " + lim + " OFFSET " + off
      && DecimalValue(lim) == req.limit && DecimalValue(off) == req.offset
  {
    DecimalRoundTrip(req.limit);
    DecimalRoundTrip(req.offset);
  }

  /** Pagination cannot be appended twice: a paginated query fed back in is rejected. */
  lemma NoDoublePagination(req: SqlRequest)
    requires BuildPaginatedQuery(req).Ok?
    ensures ContainsPaginationKeywords(req.(query := BuildPaginatedQuery(req).value))
    ensures BuildPaginatedQuery(req.(query := BuildPaginatedQuery(req).value)) == Err(PAGINATION_ERROR)
  {
    var a := req.query + " ";
    var b := "LIMIT";
    var c := " " + NatToDecimal(req.limit) + " OFFSET " + NatToDecimal(req.offset);
    var sql := BuildPaginatedQuery(req).value;
    assert sql == a + b + c;
    ToLowerConcat(a + b, c);
    ToLowerConcat(a, b);
    assert ToLower(b) == "limit";
    assert MatchAt(ToLower(b), "limit", 0);
    ContainsInMiddle(ToLower(a), ToLower(b), ToLower(c), "limit");
    assert ToLower(sql) == ToLower(a) + ToLower(b) + ToLower(c);
  }

  /** The keyword test sees words that merely contain "offset", such as a column named `offsets`. */
  lemma KeywordInsideIdentifier()
    ensures ContainsPaginationKeywords(SqlRequest("SELECT offsets FROM t", 0, 0, 1))
  {
    var s := "SELECT offsets FROM t";
    assert s[7..13] == "offset";
    ToLowerSlice(s, 7, 13);
    ToLowerOfLower("offset");
    assert MatchAt(ToLower(s), "offset", 7);
  }

  /** A query with its own LIMIT clause is refused. */
  lemma EmbeddedLimitRejected()
    ensures BuildPaginatedQuery(SqlRequest("SELECT gallery_id FROM t LIMIT 10", 0, U32_MAX, 1000)) == Err(PAGINATION_ERROR)
  {
    var s := "SELECT gallery_id FROM t LIMIT 10";
    assert s[25..30] == "LIMIT";
    ToLowerSlice(s, 25, 30);
    assert ToLower("LIMIT") == "limit";
    assert MatchAt(ToLower(s), "limit", 25);
  }
}
