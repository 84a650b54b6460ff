/**
 * The SQL gateway handler: pagination is appended, the paginated statement must
 * project the single column `gallery_id`, and the result rows are streamed as
 * packed little-endian `i32` values, one stream chunk per `batch_size` rows.
 * The SQL parser and the database appear as function parameters: `parse` gives
 * the parser's statement list (or `None` when parsing fails) and `open` gives the
 * rows the statement's cursor yields (or the error opening it).
 */
module PerformSql {
  import opened Wrappers
  import opened Ints
  import opened Text
  import opened Dto
  import opened Seqs

  // ---------------------------------------------------------------------------
  // The parser's syntax tree, reduced to what the validator looks at
  // ---------------------------------------------------------------------------

  datatype Ident = Ident(value: string)

  datatype Expr =
    | Identifier(ident: Ident)
    | CompoundIdentifier(parts: seq<Ident>)
    | OtherExpr

  datatype SelectItem =
    | UnnamedExpr(expr: Expr)
    | ExprWithAlias(expr: Expr, alias: Ident)
    | QualifiedWildcard(qualifier: seq<Ident>)
    | Wildcard

  datatype SetExpr = Select(projection: seq<SelectItem>) | OtherSetExpr

  datatype Statement = Query(body: SetExpr) | OtherStatement

  const GALLERY_ID: string := "gallery_id"
  const VALIDATION_ERROR: string := "SQL must return only 'gallery_id' column."

  /**
   * The name the validator reads off a projection item: the bare identifier of an
   * unaliased column or the alias of an aliased expression. Other items have none.
   */
  function OutputName(item: SelectItem): (r: Option<string>)
    ensures r.Some? <==> (item.UnnamedExpr? && item.expr.Identifier?) || item.ExprWithAlias?
  {
    match item
    case UnnamedExpr(Identifier(id)) => Some(id.value)
    case ExprWithAlias(_, alias) => Some(alias.value)
    case _ => None
  }

  /** The projection list of a statement that is a plain SELECT query. */
  function SelectProjection(stmt: Statement): Option<seq<SelectItem>> {
    if stmt.Query? && stmt.body.Select? then Some(stmt.body.projection) else None
  }

  /** `is_only_gallery_id_returned`, on the statements the parser produced. */
  function IsOnlyGalleryIdReturned(ast: seq<Statement>): (r: bool)
    requires |ast| > 0
    ensures r <==> (
      && SelectProjection(ast[0]).Some?
      && |SelectProjection(ast[0]).value| == 1
      && OutputName(SelectProjection(ast[0]).value[0]).Some?
      && ToLower(OutputName(SelectProjection(ast[0]).value[0]).value) == GALLERY_ID)
  {
    match ast[0]
    case Query(Select(projection)) =>
      if |projection| != 1 then false
      else
        (match projection[0]
         case UnnamedExpr(Identifier(id)) => ToLower(id.value) == GALLERY_ID
         case ExprWithAlias(_, alias) => ToLower(alias.value) == GALLERY_ID
         case _ => false)
    case _ => false
  }

  /** Only the first statement is inspected. */
  lemma OnlyFirstStatementMatters(ast: seq<Statement>, more: seq<Statement>)
    requires |ast| > 0
    ensures IsOnlyGalleryIdReturned(ast + more) == IsOnlyGalleryIdReturned(ast[..1])
  {
  }

  /** The shapes that never pass: a wildcard, a qualified name, an unaliased expression. */
  lemma RejectedItems(e: Expr, parts: seq<Ident>, q: seq<Ident>)
    requires !e.Identifier?
    ensures !IsOnlyGalleryIdReturned([Query(Select([Wildcard]))])
    ensures !IsOnlyGalleryIdReturned([Query(Select([QualifiedWildcard(q)]))])
    ensures !IsOnlyGalleryIdReturned([Query(Select([UnnamedExpr(CompoundIdentifier(parts))]))])
    ensures !IsOnlyGalleryIdReturned([Query(Select([UnnamedExpr(e)]))])
  {
  }

  /** A projection of any length other than one, a non-SELECT body or a non-query statement fails. */
  lemma RejectedShapes(projection: seq<SelectItem>, rest: seq<Statement>)
    requires |projection| != 1
    ensures !IsOnlyGalleryIdReturned([Query(Select(projection))] + rest)
    ensures !IsOnlyGalleryIdReturned([Query(OtherSetExpr)] + rest)
    ensures !IsOnlyGalleryIdReturned([OtherStatement] + rest)
  {
  }

  /** `SELECT name AS gallery_id FROM t` passes; so does the column in upper case. */
  lemma AcceptedExamples(e: Expr)
    ensures IsOnlyGalleryIdReturned([Query(Select([ExprWithAlias(e, Ident("gallery_id"))]))])
    ensures IsOnlyGalleryIdReturned([Query(Select([UnnamedExpr(Identifier(Ident("GALLERY_ID")))]))])
  {
    assert ToLower("gallery_id") == GALLERY_ID;
    assert ToLower("GALLERY_ID") == GALLERY_ID;
  }

  // ---------------------------------------------------------------------------
  // Row encoding
  // ---------------------------------------------------------------------------

  /** A row from the cursor: its first column read as `i32` (`None` when that read fails), or an error. */
  datatype RowResult = Row(column0: Option<I32>) | RowError(message: string)

  /**
   * `try_get_by_index(0).unwrap_or_default()`: an unreadable value counts as 0.
   * A failed row has no value; it is never packed, and stands for 0 here.
   */
  function RowValue(row: RowResult): I32 {
    if row.Row? then row.column0.UnwrapOr(0) else 0
  }

  /** `i32::to_le_bytes`: two's complement, least significant byte first. */
  function LeBytes(x: I32): (b: seq<Byte>)
    ensures |b| == 4
  {
    var u := if x < 0 then x + 0x1_0000_0000 else x;
    var q1 := u / 256;
    var q2 := q1 / 256;
    [u % 256, q1 % 256, q2 % 256, q2 / 256]
  }

  /** `i32::from_le_bytes`. */
  function FromLeBytes(b: seq<Byte>): I32
    requires |b| == 4
  {
    var u: int := b[0] as int + 256 * (b[1] as int + 256 * (b[2] as int + 256 * b[3] as int));
    if u > I32_MAX then u - 0x1_0000_0000 else u
  }

  lemma LeBytesRoundTrip(x: I32)
    ensures FromLeBytes(LeBytes(x)) == x
  {
    var u := if x < 0 then x + 0x1_0000_0000 else x;
    var q1 := u / 256;
    var q2 := q1 / 256;
    assert u == u % 256 + 256 * q1;
    assert q1 == q1 % 256 + 256 * q2;
    assert q2 == q2 % 256 + 256 * (q2 / 256);
    var b := LeBytes(x);
    assert b[2] as int + 256 * b[3] as int == q2;
    assert b[1] as int + 256 * (b[2] as int + 256 * b[3] as int) == q1;
    assert b[0] as int + 256 * (b[1] as int + 256 * (b[2] as int + 256 * b[3] as int)) == u;
  }

  lemma LeBytesOnto(b: seq<Byte>)
    requires |b| == 4
    ensures LeBytes(FromLeBytes(b)) == b
  {
    var q2: int := b[2] as int + 256 * b[3] as int;
    var q1: int := b[1] as int + 256 * q2;
    var u: int := b[0] as int + 256 * q1;
    assert u % 256 == b[0] && u / 256 == q1;
    assert q1 % 256 == b[1] && q1 / 256 == q2;
    assert q2 % 256 == b[2] && q2 / 256 == b[3];
  }

  /** The index of the first failed row, if any. */
  function FirstError(rows: seq<RowResult>): (r: Option<nat>)
    ensures r.None? <==> forall k :: 0 <= k < |rows| ==> rows[k].Row?
    ensures r.Some? ==> r.value < |rows| && rows[r.value].RowError?
    ensures r.Some? ==> forall k :: 0 <= k < r.value ==> rows[k].Row?
  {
    if rows == [] then None
    else if rows[0].RowError? then Some(0)
    else
      match FirstError(rows[1..])
      case None => None
      case Some(k) => Some(k + 1)
  }

  /** The packed bytes of rows (all of which succeeded where it is used): each row's four bytes, in row order. */
  function RowsBytes(rows: seq<RowResult>): (b: seq<Byte>)
    ensures |b| == 4 * |rows|
  {
    if rows == [] then []
    else RowsBytes(rows[..|rows| - 1]) + LeBytes(RowValue(rows[|rows| - 1]))
  }

  /** Row `k`'s value sits at bytes 4k to 4k+3 of the buffer. */
  lemma {:induction false} RowsBytesAt(rows: seq<RowResult>, k: nat)
    requires k < |rows|
    ensures RowsBytes(rows)[4 * k..4 * k + 4] == LeBytes(RowValue(rows[k]))
    ensures FromLeBytes(RowsBytes(rows)[4 * k..4 * k + 4]) == RowValue(rows[k])
  {
    var n := |rows|;
    if k < n - 1 {
      var init := rows[..n - 1];
      RowsBytesAt(init, k);
      assert RowsBytes(rows)[4 * k..4 * k + 4] == RowsBytes(init)[4 * k..4 * k + 4];
    }
    LeBytesRoundTrip(RowValue(rows[k]));
  }

  lemma {:induction false} RowsBytesConcat(a: seq<RowResult>, b: seq<RowResult>)
    ensures RowsBytes(a + b) == RowsBytes(a) + RowsBytes(b)
  {
    if b != [] {
      var init := b[..|b| - 1];
      RowsBytesConcat(a, init);
      assert (a + b)[..|a + b| - 1] == a + init;
    } else {
      assert a + b == a;
    }
  }

  /** Splitting the rows anywhere splits their packed bytes there. */
  lemma RowsBytesSplit(rows: seq<RowResult>, n: nat)
    requires n <= |rows|
    ensures RowsBytes(rows) == RowsBytes(rows[..n]) + RowsBytes(rows[n..])
  {
    RowsBytesConcat(rows[..n], rows[n..]);
    TakeDrop(rows, n);
  }

  lemma TakeDrop<T>(xs: seq<T>, n: nat)
    requires n <= |xs|
    ensures xs[..n] + xs[n..] == xs
  {
  }

  const ROW_ERROR_PREFIX: string := "Row retrieval error: "

  /**
   * What one chunk of rows becomes: when all its rows succeeded, their packed
   * bytes, four per row; otherwise the first row error.
   */
  function BatchBytes(batch: seq<RowResult>): (r: Result<seq<Byte>, string>)
    ensures r.Ok? <==> forall k :: 0 <= k < |batch| ==> batch[k].Row?
    ensures r.Ok? ==> r.value == RowsBytes(batch) && |r.value| == 4 * |batch|
    ensures r.Err? ==> r.error == ROW_ERROR_PREFIX + batch[FirstError(batch).value].message
  {
    match FirstError(batch)
    case Some(k) => Err(ROW_ERROR_PREFIX + batch[k].message)
    case None => Ok(RowsBytes(batch))
  }

  /**
   * The closure applied to each chunk: the buffer grows by four bytes per good row;
   * a failed row abandons the partial buffer and makes the chunk an error.
   */
  method EncodeBatch(batch: seq<RowResult>) returns (r: Result<seq<Byte>, string>)
    ensures r == BatchBytes(batch)
  {
    var buffer: seq<Byte> := [];
    for i := 0 to |batch|
      invariant forall k :: 0 <= k < i ==> batch[k].Row?
      invariant buffer == RowsBytes(batch[..i])
    {
      match batch[i]
      case Row(_) =>
        assert batch[..i + 1][..i] == batch[..i];
        buffer := buffer + LeBytes(RowValue(batch[i]));
      case RowError(message) =>
        return Err(ROW_ERROR_PREFIX + message);
    }
    assert batch[..|batch|] == batch;
    return Ok(buffer);
  }

  // ---------------------------------------------------------------------------
  // Chunking the cursor
  // ---------------------------------------------------------------------------

  /** The chunk stream handed to the response body: one item per chunk of the cursor. */
  function ByteStream(rows: seq<RowResult>, batchSize: nat): seq<Result<seq<Byte>, string>>
    requires batchSize > 0
    decreases |rows|
  {
    if |rows| == 0 then []
    else if |rows| <= batchSize then [BatchBytes(rows)]
    else [BatchBytes(rows[..batchSize])] + ByteStream(rows[batchSize..], batchSize)
  }

  /** Item `k` of the stream is the packing of chunk `k` of the cursor. */
  lemma {:induction false} ByteStreamChunks(rows: seq<RowResult>, batchSize: nat)
    requires batchSize > 0
    ensures |ByteStream(rows, batchSize)| == |Chunks(rows, batchSize)|
    ensures forall k :: 0 <= k < |ByteStream(rows, batchSize)| ==>
      ByteStream(rows, batchSize)[k] == BatchBytes(Chunks(rows, batchSize)[k])
    decreases |rows|
  {
    var n := batchSize;
    if |rows| > n {
      var tail := rows[n..];
      ByteStreamChunks(tail, n);
      var s := ByteStream(rows, n);
      var cs := Chunks(rows, n);
      assert s == [BatchBytes(rows[..n])] + ByteStream(tail, n);
      assert cs == [rows[..n]] + Chunks(tail, n);
      forall k | 0 <= k < |s| ensures s[k] == BatchBytes(cs[k]) {
        if k > 0 {
          assert s[k] == ByteStream(tail, n)[k - 1];
          assert cs[k] == Chunks(tail, n)[k - 1];
        }
      }
    }
  }

  /** What reaches the caller: chunks up to the first failed one, after which the transfer ends. */
  function Delivered(stream: seq<Result<seq<Byte>, string>>): seq<Byte> {
    if stream == [] || stream[0].Err? then [] else stream[0].value + Delivered(stream[1..])
  }

  /** When every row succeeds, the body is every row's four bytes in cursor order. */
  lemma {:induction false} StreamOfGoodRows(rows: seq<RowResult>, batchSize: nat)
    requires batchSize > 0
    requires forall j :: 0 <= j < |rows| ==> rows[j].Row?
    ensures Delivered(ByteStream(rows, batchSize)) == RowsBytes(rows)
    ensures |Delivered(ByteStream(rows, batchSize))| == 4 * |rows|
    decreases |rows|
  {
    var n := batchSize;
    if |rows| == 0 {
    } else if |rows| <= n {
      SingleGoodChunk(rows, n);
    } else {
      var tail := rows[n..];
      assert forall j :: 0 <= j < |tail| ==> tail[j].Row?;
      StreamOfGoodRows(tail, n);
      GoodChunkInFront(rows, n);
    }
  }

  /** The step of `StreamOfGoodRows`: a first chunk of good rows goes in front of the rest. */
  lemma GoodChunkInFront(rows: seq<RowResult>, n: nat)
    requires 0 < n < |rows|
    requires forall j :: 0 <= j < |rows| ==> rows[j].Row?
    requires Delivered(ByteStream(rows[n..], n)) == RowsBytes(rows[n..])
    ensures Delivered(ByteStream(rows, n)) == RowsBytes(rows)
  {
    StreamHead(rows, n);
    RowsBytesSplit(rows, n);
  }

  /** Good rows that fit in one chunk are delivered as that chunk. */
  lemma SingleGoodChunk(rows: seq<RowResult>, n: nat)
    requires 0 < |rows| <= n
    requires forall j :: 0 <= j < |rows| ==> rows[j].Row?
    ensures Delivered(ByteStream(rows, n)) == RowsBytes(rows)
  {
    var s := ByteStream(rows, n);
    assert s == [BatchBytes(rows)];
    assert s[1..] == [];
    assert Delivered(s) == RowsBytes(rows) + [];
  }

  /** `cut` is a whole number of batches of `n` rows. */
  predicate ChunkBoundary(cut: nat, n: nat)
    decreases cut
  {
    cut == 0 || (n > 0 && cut >= n && ChunkBoundary(cut - n, n))
  }

  /**
   * A failed row ends the transfer at the start of its chunk: when the first failed
   * row `e` lies in the chunk that starts at `cut`, the caller receives exactly the
   * rows before `cut`, that is the rows of the earlier, complete chunks.
   */
  lemma StreamTruncatesAtFailedChunk(rows: seq<RowResult>, batchSize: nat, e: nat, cut: nat)
    requires batchSize > 0
    requires FirstError(rows) == Some(e)
    requires ChunkBoundary(cut, batchSize) && cut <= e < cut + batchSize
    ensures forall j :: 0 <= j < cut ==> rows[j].Row?
    ensures Delivered(ByteStream(rows, batchSize)) == RowsBytes(rows[..cut])
  {
    assert cut < |rows| && forall j :: 0 <= j < cut ==> rows[j].Row?;
    var later := rows[cut..];
    var front := RowsBytes(rows[..cut]);
    assert Delivered(ByteStream(rows, batchSize)) == front + Delivered(ByteStream(later, batchSize)) by {
      DeliverFullChunks(rows, batchSize, cut);
    }
    assert Delivered(ByteStream(later, batchSize)) == [] by {
      assert later[e - cut] == rows[e];
      FailedFirstChunk(later, batchSize, e - cut);
    }
    assert front + [] == front;
  }

  /** Complete chunks of good rows in front are delivered in full, ahead of whatever follows them. */
  lemma {:induction false} DeliverFullChunks(rows: seq<RowResult>, n: nat, cut: nat)
    requires n > 0 && ChunkBoundary(cut, n) && cut < |rows|
    requires forall j :: 0 <= j < cut ==> rows[j].Row?
    ensures Delivered(ByteStream(rows, n)) == RowsBytes(rows[..cut]) + Delivered(ByteStream(rows[cut..], n))
    decreases cut
  {
    if cut == 0 {
      assert rows[..0] == [] && rows[0..] == rows;
    } else {
      var head := rows[..n];
      var tail := rows[n..];
      var c1: nat := cut - n;
      var mid := tail[..c1];
      assert forall j :: 0 <= j < c1 ==> tail[j].Row? by {
        forall j | 0 <= j < c1 ensures tail[j].Row? {
          assert tail[j] == rows[j + n];
        }
      }
      DeliverFullChunks(tail, n, c1);
      assert forall j :: 0 <= j < |head| ==> head[j].Row?;
      StreamHead(rows, n);
      RowsBytesConcat(head, mid);
      PrefixSplit(rows, n, cut);
      assert tail[c1..] == rows[cut..];
      var later := Delivered(ByteStream(rows[cut..], n));
      ConcatAssoc(RowsBytes(head), RowsBytes(mid), later);
    }
  }

  lemma ConcatAssoc<T>(a: seq<T>, b: seq<T>, c: seq<T>)
    ensures a + (b + c) == (a + b) + c
  {
  }

  /** A first chunk of good rows is delivered in front of the rest of the stream. */
  lemma StreamHead(rows: seq<RowResult>, n: nat)
    requires 0 < n < |rows|
    requires forall j :: 0 <= j < n ==> rows[j].Row?
    ensures Delivered(ByteStream(rows, n)) == RowsBytes(rows[..n]) + Delivered(ByteStream(rows[n..], n))
  {
    var head := rows[..n];
    assert forall j :: 0 <= j < n ==> head[j].Row?;
    var s := ByteStream(rows, n);
    assert s == [BatchBytes(head)] + ByteStream(rows[n..], n);
    assert s[0] == Ok(RowsBytes(head));
    assert s[1..] == ByteStream(rows[n..], n);
  }

  lemma PrefixSplit<T>(xs: seq<T>, n: nat, cut: nat)
    requires n <= cut <= |xs|
    ensures xs[..n] + xs[n..][..cut - n] == xs[..cut]
  {
  }

  /** A failure inside the first chunk means nothing is delivered. */
  lemma FailedFirstChunk(rows: seq<RowResult>, n: nat, e: nat)
    requires n > 0 && e < n
    requires e < |rows| && rows[e].RowError?
    ensures Delivered(ByteStream(rows, n)) == []
  {
    var first := if |rows| <= n then rows else rows[..n];
    assert ByteStream(rows, n)[0] == BatchBytes(first);
    assert first[e] == rows[e];
    assert ByteStream(rows, n)[0].Err?;
  }

  /** Rows `[1, 2, 3]` with batch size 2 give the chunks `01 00 00 00 02 00 00 00` and `03 00 00 00`. */
  lemma StreamExample()
    ensures ByteStream([Row(Some(1)), Row(Some(2)), Row(Some(3))], 2)
      == [Ok([1, 0, 0, 0, 2, 0, 0, 0]), Ok([3, 0, 0, 0])]
  {
    var rows := [Row(Some(1)), Row(Some(2)), Row(Some(3))];
    assert ByteStream(rows, 2) == [BatchBytes(rows[..2])] + ByteStream(rows[2..], 2);
    assert rows[..2][..1] == [Row(Some(1))];
    assert RowsBytes(rows[..2]) == [1, 0, 0, 0, 2, 0, 0, 0];
    assert RowsBytes(rows[2..]) == [3, 0, 0, 0];
  }

  /** A value the driver cannot read as `i32` is sent as 0, not as an error. */
  lemma UnreadableIsZero()
    ensures BatchBytes([Row(None)]) == Ok([0, 0, 0, 0])
  {
    var rows := [Row(None)];
    assert FirstError(rows) == None;
    assert rows[..0] == [];
    assert RowValue(rows[0]) == 0;
    assert LeBytes(0) == [0, 0, 0, 0];
    assert RowsBytes(rows) == [0, 0, 0, 0];
    assert BatchBytes(rows) == Ok(RowsBytes(rows));
  }

  // ---------------------------------------------------------------------------
  // The handler
  // ---------------------------------------------------------------------------

  datatype Reply =
    | Streamed(batchSizeHeader: string, contentType: string, body: seq<Result<seq<Byte>, string>>)
    | Rejected(status: int, message: string)
    | Panicked

  const EXECUTION_ERROR_PREFIX: string := "SQL execution error: "

  /** `perform_sql`: the early-return chain 400, 400, 500, then the stream. */
  function HandleSql(
    req: SqlRequest,
    parse: string -> Option<seq<Statement>>,
    open: string -> Result<seq<RowResult>, string>
  ): (r: Reply)
    ensures r == Rejected(400, PAGINATION_ERROR) <==> ContainsPaginationKeywords(req)
    ensures r == Rejected(400, VALIDATION_ERROR) <==>
      var sql := BuildPaginatedQuery(req);
      && sql.Ok? && parse(sql.value).Some? && |parse(sql.value).value| > 0
      && !IsOnlyGalleryIdReturned(parse(sql.value).value)
    ensures r.Rejected? && r.status == 500 <==>
      var sql := BuildPaginatedQuery(req);
      && sql.Ok? && parse(sql.value).Some? && |parse(sql.value).value| > 0
      && IsOnlyGalleryIdReturned(parse(sql.value).value)
      && open(sql.value).Err?
    ensures r.Rejected? && r.status == 500 ==>
      r.message == EXECUTION_ERROR_PREFIX + open(BuildPaginatedQuery(req).value).error
    ensures r.Panicked? <==>
      var sql := BuildPaginatedQuery(req);
      && sql.Ok?
      && (|| parse(sql.value).None?
          || |parse(sql.value).value| == 0
          || (IsOnlyGalleryIdReturned(parse(sql.value).value) && open(sql.value).Ok? && req.batchSize == 0))
    ensures r.Streamed? <==>
      var sql := BuildPaginatedQuery(req);
      && sql.Ok? && parse(sql.value).Some? && |parse(sql.value).value| > 0
      && IsOnlyGalleryIdReturned(parse(sql.value).value)
      && open(sql.value).Ok? && req.batchSize > 0
    ensures r.Streamed? ==> (
      && r.batchSizeHeader == NatToDecimal(req.batchSize)
      && r.contentType == "application/octet-stream"
      && req.batchSize > 0
      && BuildPaginatedQuery(req).Ok?
      && open(BuildPaginatedQuery(req).value).Ok?
      && r.body == ByteStream(open(BuildPaginatedQuery(req).value).value, req.batchSize))
  {
    match BuildPaginatedQuery(req)
    case Err(e) => Rejected(400, e)
    case Ok(sql) =>
      match parse(sql)
      case None => Panicked
      case Some(ast) =>
        if |ast| == 0 then Panicked
        else if !IsOnlyGalleryIdReturned(ast) then Rejected(400, VALIDATION_ERROR)
        else
          match open(sql)
          case Err(e) => Rejected(500, EXECUTION_ERROR_PREFIX + e)
          case Ok(rows) =>
            if req.batchSize == 0 then Panicked
            else Streamed(NatToDecimal(req.batchSize), "application/octet-stream", ByteStream(rows, req.batchSize))
  }

  /** The pagination check comes first: neither the parser nor the database is consulted. */
  lemma PaginationCheckedFirst(
    req: SqlRequest,
    parse1: string -> Option<seq<Statement>>, parse2: string -> Option<seq<Statement>>,
    open1: string -> Result<seq<RowResult>, string>, open2: string -> Result<seq<RowResult>, string>
  )
    requires ContainsPaginationKeywords(req)
    ensures HandleSql(req, parse1, open1) == HandleSql(req, parse2, open2)
  {
  }

  /** Validation precedes execution: a rejected shape never reaches the database. */
  lemma ValidationBeforeExecution(
    req: SqlRequest,
    parse: string -> Option<seq<Statement>>,
    open1: string -> Result<seq<RowResult>, string>, open2: string -> Result<seq<RowResult>, string>
  )
    requires BuildPaginatedQuery(req).Ok?
    requires parse(BuildPaginatedQuery(req).value).Some? && |parse(BuildPaginatedQuery(req).value).value| > 0
    requires !IsOnlyGalleryIdReturned(parse(BuildPaginatedQuery(req).value).value)
    ensures HandleSql(req, parse, open1) == HandleSql(req, parse, open2) == Rejected(400, VALIDATION_ERROR)
  {
  }
}

