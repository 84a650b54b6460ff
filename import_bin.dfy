/**
 * The binary importer (`src/bin/import_bin_to_db.rs`): JSON lines are parsed into
 * domain galleries, encoded as FlatBuffers, compressed and queued in chunks of
 * 500; a consumer stores each chunk with one multi-row `INSERT ... ON CONFLICT
 * (gallery_id) DO NOTHING`.
 *
 * The producer task and the consumer loop run one after the other here: the
 * channel between them is the sequence of chunks the producer sends. The JSON
 * text parser, the zstd encoder and the database's answer to a statement are
 * parameters.
 */
module ImportBin {
  import opened Wrappers
  import opened Ints
  import opened Text
  import opened Seqs
  import J = Json
  import D = DomainGallery
  import C = Converter

  const BATCH_SIZE: nat := 500

  /** One item of `reader.lines()`: a line, or an I/O error for that line. */
  datatype LineRead = Line(text: string) | ReadError

  /** A queued row: gallery id, compressed FlatBuffer, compression type id. */
  datatype Item = Item(galleryId: I32, data: seq<Byte>, compressType: I32)

  /**
   * The steps of the producer that are not part of this model: the syntax of
   * JSON text, and the zstd encoder. A line's gallery is that text's value read
   * by the field rules of `DomainGallery.DecodeGallery`.
   */
  datatype Codecs = Codecs(readJson: string -> Option<J.Json>, compress: C.Buffer -> Option<seq<Byte>>)
  {
    /** `serde_json::from_str::<Gallery>` of a line. */
    function parseGallery(text: string): Option<D.Gallery> {
      D.ParseGallery(readJson, text)
    }
  }

  /** `zstd::encode_all(&serialize_gallery(g)[..], 3)`. */
  function Compressed(g: D.Gallery, codecs: Codecs): Option<seq<Byte>> {
    codecs.compress(C.SerializeGallery(g))
  }

  /** What the producer does with one line. */
  datatype Outcome = Blank | ReadFailed | ParseFailed | CompressFailed | Queued(item: Item)

  /** The body of the producer loop for one line; every outcome but `Queued` is a `continue`. */
  function Classify(l: LineRead, codecs: Codecs, compressType: I32): (o: Outcome)
    ensures o == ReadFailed <==> l.ReadError?
    ensures o == Blank <==> l.Line? && AllWhitespace(l.text)
    ensures o == ParseFailed <==> l.Line? && !AllWhitespace(l.text) && codecs.parseGallery(l.text).None?
    ensures o == CompressFailed <==>
      l.Line? && !AllWhitespace(l.text) && codecs.parseGallery(l.text).Some?
      && Compressed(codecs.parseGallery(l.text).value, codecs).None?
    ensures o.Queued? <==>
      l.Line? && !AllWhitespace(l.text) && codecs.parseGallery(l.text).Some?
      && Compressed(codecs.parseGallery(l.text).value, codecs).Some?
    ensures o.Queued? ==> o.item.compressType == compressType
  {
    match l
    case ReadError => ReadFailed
    case Line(text) =>
      TrimEmptyIffBlank(text);
      if Trim(text) == [] then Blank
      else
        match codecs.parseGallery(text)
        case None => ParseFailed
        case Some(g) =>
          match Compressed(g, codecs)
          case None => CompressFailed
          case Some(data) => Queued(Item(g.galleryId, data, compressType))
  }

  /** A queued line is a non-blank line whose gallery parsed and compressed; the item holds its id and bytes. */
  lemma QueuedItem(l: LineRead, codecs: Codecs, compressType: I32)
    requires Classify(l, codecs, compressType).Queued?
    ensures l.Line? && !AllWhitespace(l.text) && codecs.parseGallery(l.text).Some?
    ensures var g := codecs.parseGallery(l.text).value;
      && Compressed(g, codecs).Some?
      && Classify(l, codecs, compressType).item == Item(g.galleryId, Compressed(g, codecs).value, compressType)
  {
  }

  function QueuedItems(o: Outcome): seq<Item> {
    if o.Queued? then [o.item] else []
  }

  /**
   * The items the producer queues for the given lines, in line order, where
   * `classify` is the loop body's decision for one line (`Classify` in the
   * importer).
   */
  function Accepted(lines: seq<LineRead>, classify: LineRead -> Outcome): seq<Item> {
    if lines == [] then [] else QueuedItems(classify(lines[0])) + Accepted(lines[1..], classify)
  }

  lemma {:induction false} AcceptedConcat(a: seq<LineRead>, b: seq<LineRead>, classify: LineRead -> Outcome)
    ensures Accepted(a + b, classify) == Accepted(a, classify) + Accepted(b, classify)
  {
    if a == [] {
      assert a + b == b;
    } else {
      assert (a + b)[0] == a[0];
      assert (a + b)[1..] == a[1..] + b;
      AcceptedConcat(a[1..], b, classify);
    }
  }

  /** The decision of the importer for each line. */
  function ClassifyWith(codecs: Codecs, compressType: I32): LineRead -> Outcome {
    l => Classify(l, codecs, compressType)
  }

  /** A skipped line (blank, unreadable, unparsable or not compressible) leaves the run as if it were absent. */
  lemma SkippedLineVanishes(before: seq<LineRead>, l: LineRead, after: seq<LineRead>, classify: LineRead -> Outcome)
    requires !classify(l).Queued?
    ensures Accepted(before + [l] + after, classify) == Accepted(before + after, classify)
  {
    var bl := before + [l];
    AcceptedConcat(bl, after, classify);
    AcceptedConcat(before, [l], classify);
    AcceptedConcat(before, after, classify);
    assert Accepted([l], classify) == [] by {
      assert [l][1..] == [];
      assert Accepted([l], classify) == QueuedItems(classify(l)) + Accepted([], classify);
    }
    var a := Accepted(before, classify);
    assert Accepted(bl, classify) == a by {
      assert a + [] == a;
    }
  }

  /** Only `Queued` outcomes contribute, and each contributes its own item. */
  lemma {:induction false} AcceptedCarryType(lines: seq<LineRead>, classify: LineRead -> Outcome, ct: I32)
    requires forall l :: classify(l).Queued? ==> classify(l).item.compressType == ct
    ensures forall it :: it in Accepted(lines, classify) ==> it.compressType == ct
  {
    if lines != [] {
      AcceptedCarryType(lines[1..], classify, ct);
    }
  }

  /** The importer's decision tags every item with the one compression type id, fixed before the run. */
  lemma ImporterTagsItems(lines: seq<LineRead>, codecs: Codecs, ct: I32)
    ensures forall it :: it in Accepted(lines, ClassifyWith(codecs, ct)) ==> it.compressType == ct
  {
    AcceptedCarryType(lines, ClassifyWith(codecs, ct), ct);
  }

  /**
   * The producer loop: queue each accepted line's item and send the chunk as
   * soon as it holds `BATCH_SIZE` items, then send a non-empty remainder.
   */
  method Produce(lines: seq<LineRead>, classify: LineRead -> Outcome) returns (sent: seq<seq<Item>>)
    ensures sent == Chunks(Accepted(lines, classify), BATCH_SIZE)
  {
    sent := [];
    var chunk: seq<Item> := [];
    var i := 0;
    while i < |lines|
      invariant 0 <= i <= |lines|
      invariant |chunk| < BATCH_SIZE && AllFull(sent, BATCH_SIZE)
      invariant Flatten(sent) + chunk == Accepted(lines[..i], classify)
    {
      var o := classify(lines[i]);
      AcceptedStep(lines, i, classify);
      if o.Queued? {
        QueueStep(sent, chunk, o.item, BATCH_SIZE);
        chunk := chunk + [o.item];
        if |chunk| >= BATCH_SIZE {
          sent := sent + [chunk];
          chunk := [];
        }
      }
      i := i + 1;
    }
    assert lines[..i] == lines;
    FinalChunk(sent, chunk, BATCH_SIZE);
    if chunk != [] {
      sent := sent + [chunk];
    }
  }

  /** Every chunk holds exactly `n` items. */
  predicate AllFull<T>(chunks: seq<seq<T>>, n: nat) {
    forall k :: 0 <= k < |chunks| ==> |chunks[k]| == n
  }

  /** Queuing an item, and sending the chunk once it is full, keeps the items in order and the sent chunks full. */
  lemma QueueStep<T>(sent: seq<seq<T>>, chunk: seq<T>, x: T, n: nat)
    requires |chunk| < n && AllFull(sent, n)
    ensures Flatten(sent) + (chunk + [x]) == (Flatten(sent) + chunk) + [x]
    ensures |chunk + [x]| >= n ==>
      AllFull(sent + [chunk + [x]], n) && Flatten(sent + [chunk + [x]]) + [] == (Flatten(sent) + chunk) + [x]
  {
    FlattenAppend(sent, chunk + [x]);
  }

  lemma AcceptedStep(lines: seq<LineRead>, i: nat, classify: LineRead -> Outcome)
    requires i < |lines|
    ensures Accepted(lines[..i + 1], classify) == Accepted(lines[..i], classify) + QueuedItems(classify(lines[i]))
  {
    assert lines[..i + 1] == lines[..i] + [lines[i]];
    AcceptedConcat(lines[..i], [lines[i]], classify);
    assert [lines[i]][1..] == [];
  }

  /** Full chunks followed by a shorter remainder are the chunking of their items. */
  lemma FinalChunk<T>(sent: seq<seq<T>>, chunk: seq<T>, n: nat)
    requires n > 0 && |chunk| < n
    requires AllFull(sent, n)
    ensures Chunks(Flatten(sent) + chunk, n) == sent + (if chunk == [] then [] else [chunk])
  {
    ChunksAfterFull(sent, chunk, n);
    if chunk == [] {
      assert sent + [] == sent;
    } else {
      assert Chunks(chunk, n) == [chunk];
    }
  }

  // ---------------------------------------------------------------------------
  // The batch INSERT statement
  // ---------------------------------------------------------------------------

  datatype Param = IdParam(id: I32) | DataParam(bytes: seq<Byte>)
  datatype Statement = Statement(sql: string, params: seq<Param>)

  const INSERT_HEAD: string := "INSERT INTO fbs_galleries (gallery_id, data, compress_type) VALUES "
  const INSERT_TAIL: string := " ON CONFLICT (gallery_id) DO NOTHING"

  /** The placeholder numbers of the tuple for item `i`. */
  function TupleNumbers(i: nat): seq<nat> {
    [3 * i + 1, 3 * i + 2, 3 * i + 3]
  }

  function Placeholder(n: nat): string {
    "$" + NatToDecimal(n)
  }

  /** `format!("(${}, ${}, ${})", ...)` for item `i`. */
  function ValuesTuple(i: nat): string {
    "(" + Join(Map(TupleNumbers(i), Placeholder), ", ") + ")"
  }

  function Tuples(n: nat): (ts: seq<string>)
    ensures |ts| == n && forall i :: 0 <= i < n ==> ts[i] == ValuesTuple(i)
  {
    seq(n, i requires 0 <= i < n => ValuesTuple(i))
  }

  function ItemParams(it: Item): seq<Param> {
    [IdParam(it.galleryId), DataParam(it.data), IdParam(it.compressType)]
  }

  /** The parameter list: gallery id, data and type of each item in turn. */
  function ParamsOf(batch: seq<Item>): seq<Param> {
    Flatten(Map(batch, ItemParams))
  }

  /** The SQL text and parameters `insert_fbs_batch` sends, or nothing for an empty batch. */
  method BuildInsert(batch: seq<Item>) returns (st: Option<Statement>)
    ensures st.None? <==> batch == []
    ensures st.Some? ==> st.value.sql == INSERT_HEAD + Join(Tuples(|batch|), ", ") + INSERT_TAIL
    ensures st.Some? ==> st.value.params == ParamsOf(batch)
  {
    if batch == [] {
      return None;
    }
    var valuesParts: seq<string> := [];
    var params: seq<Param> := [];
    var idx := 0;
    while idx < |batch|
      invariant 0 <= idx <= |batch|
      invariant valuesParts == Tuples(idx)
      invariant params == Flatten(Map(batch[..idx], ItemParams))
    {
      valuesParts := valuesParts + [ValuesTuple(idx)];
      assert Map(batch[..idx + 1], ItemParams) == Map(batch[..idx], ItemParams) + [ItemParams(batch[idx])];
      FlattenAppend(Map(batch[..idx], ItemParams), ItemParams(batch[idx]));
      params := params + ItemParams(batch[idx]);
      idx := idx + 1;
    }
    assert batch[..idx] == batch;
    return Some(Statement(INSERT_HEAD + Join(valuesParts, ", ") + INSERT_TAIL, params));
  }

  /** Numbers of the placeholders of the first `n` tuples, in text order. */
  function AllNumbers(n: nat): seq<nat> {
    if n == 0 then [] else AllNumbers(n - 1) + TupleNumbers(n - 1)
  }

  /** The placeholders run `$1, $2, ..., $3n` without gaps or repeats. */
  lemma {:induction false} NumbersConsecutive(n: nat)
    ensures |AllNumbers(n)| == 3 * n
    ensures forall k :: 0 <= k < 3 * n ==> AllNumbers(n)[k] == k + 1
  {
    if n > 0 {
      NumbersConsecutive(n - 1);
    }
  }

  /** Parameter `3i + j` is field `j` of item `i`, so placeholder `$(3i + j + 1)` binds it. */
  lemma {:induction false} ParamLayout(batch: seq<Item>, i: nat, j: nat)
    requires i < |batch| && j < 3
    ensures |ParamsOf(batch)| == 3 * |batch|
    ensures ParamsOf(batch)[3 * i + j] == ItemParams(batch[i])[j]
  {
    var m := Map(batch, ItemParams);
    assert m == [ItemParams(batch[0])] + Map(batch[1..], ItemParams);
    assert ParamsOf(batch) == ItemParams(batch[0]) + ParamsOf(batch[1..]);
    if i > 0 {
      ParamLayout(batch[1..], i - 1, j);
    } else if |batch| > 1 {
      ParamLayout(batch[1..], 0, 0);
    }
  }

  // ---------------------------------------------------------------------------
  // The table and the consumer
  // ---------------------------------------------------------------------------

  datatype StoredRow = StoredRow(data: seq<Byte>, compressType: I32)
  type Rows = map<I32, StoredRow>

  /** `ON CONFLICT (gallery_id) DO NOTHING` for one row: an id already present keeps its row. */
  function InsertItem(rows: Rows, it: Item): (r: Rows)
    ensures r.Keys == rows.Keys + {it.galleryId}
    ensures it.galleryId in rows ==> r == rows
    ensures it.galleryId !in rows ==> r[it.galleryId] == StoredRow(it.data, it.compressType)
    ensures forall k :: k in rows ==> r[k] == rows[k]
  {
    if it.galleryId in rows then rows else rows[it.galleryId := StoredRow(it.data, it.compressType)]
  }

  function InsertItems(rows: Rows, items: seq<Item>): Rows
    decreases |items|
  {
    if items == [] then rows else InsertItems(InsertItem(rows, items[0]), items[1..])
  }

  /** What the database does with an insert's parameters, read three at a time; a list of another shape is refused. */
  function ExecuteInsert(rows: Rows, params: seq<Param>): Option<Rows>
    decreases |params|
  {
    if params == [] then Some(rows)
    else if |params| < 3 || !params[0].IdParam? || !params[1].DataParam? || !params[2].IdParam? then None
    else ExecuteInsert(InsertItem(rows, Item(params[0].id, params[1].bytes, params[2].id)), params[3..])
  }

  /** Executing the statement built for a batch inserts the batch's items in order. */
  lemma {:induction false} ExecuteBuilt(rows: Rows, batch: seq<Item>)
    ensures ExecuteInsert(rows, ParamsOf(batch)) == Some(InsertItems(rows, batch))
    decreases |batch|
  {
    if batch == [] {
      assert ParamsOf(batch) == [];
    } else {
      assert Map(batch, ItemParams) == [ItemParams(batch[0])] + Map(batch[1..], ItemParams);
      var ps := ParamsOf(batch);
      assert ps == ItemParams(batch[0]) + ParamsOf(batch[1..]);
      assert ps[3..] == ParamsOf(batch[1..]);
      ExecuteBuilt(InsertItem(rows, batch[0]), batch[1..]);
    }
  }

  /** The gallery ids of some items. */
  function Ids(items: seq<Item>): (ids: set<I32>)
    ensures forall it :: it in items ==> it.galleryId in ids
    ensures forall id :: id in ids ==> exists it :: it in items && it.galleryId == id
  {
    if items == [] then {} else {items[0].galleryId} + Ids(items[1..])
  }

  /** Inserting never changes or removes a row already stored; it adds exactly the items' ids. */
  lemma {:induction false} InsertKeepsExisting(rows: Rows, items: seq<Item>)
    ensures InsertItems(rows, items).Keys == rows.Keys + Ids(items)
    ensures forall k :: k in rows ==> InsertItems(rows, items)[k] == rows[k]
    decreases |items|
  {
    if items != [] {
      InsertKeepsExisting(InsertItem(rows, items[0]), items[1..]);
    }
  }

  /** The first item with a new id is the one stored for it. */
  lemma {:induction false} FirstItemWins(rows: Rows, items: seq<Item>, i: nat)
    requires i < |items| && items[i].galleryId !in rows
    requires forall j :: 0 <= j < i ==> items[j].galleryId != items[i].galleryId
    ensures items[i].galleryId in InsertItems(rows, items)
    ensures InsertItems(rows, items)[items[i].galleryId] == StoredRow(items[i].data, items[i].compressType)
    decreases |items|
  {
    InsertKeepsExisting(rows, items);
    assert items[i] in items;
    var r1 := InsertItem(rows, items[0]);
    if i == 0 {
      InsertKeepsExisting(r1, items[1..]);
    } else {
      FirstItemWins(r1, items[1..], i - 1);
    }
  }

  /** Re-running the same inserts changes nothing. */
  lemma InsertIdempotent(rows: Rows, items: seq<Item>)
    ensures InsertItems(InsertItems(rows, items), items) == InsertItems(rows, items)
  {
    var once := InsertItems(rows, items);
    InsertKeepsExisting(rows, items);
    InsertPresent(once, items);
  }

  /** Items whose ids are all present leave the rows as they are. */
  lemma {:induction false} InsertPresent(rows: Rows, items: seq<Item>)
    requires forall it :: it in items ==> it.galleryId in rows
    ensures InsertItems(rows, items) == rows
    decreases |items|
  {
    if items != [] {
      assert items[0] in items;
      assert forall it :: it in items[1..] ==> it in items;
      InsertPresent(rows, items[1..]);
    }
  }

  /** The batches the database stores: an empty one issues no statement, a refused one is skipped. */
  function Stored(batches: seq<seq<Item>>, rejects: seq<Item> -> bool): seq<seq<Item>> {
    if batches == [] then []
    else
      var last := |batches| - 1;
      Stored(batches[..last], rejects) + (if !rejects(batches[last]) || batches[last] == [] then [batches[last]] else [])
  }

  /** The number of batches whose insert failed. */
  function Failures(batches: seq<seq<Item>>, rejects: seq<Item> -> bool): nat {
    if batches == [] then 0
    else
      var last := |batches| - 1;
      Failures(batches[..last], rejects) + (if rejects(batches[last]) && batches[last] != [] then 1 else 0)
  }

  /** The rows a run of the consumer leaves behind. */
  function Consumed(rows: Rows, batches: seq<seq<Item>>, rejects: seq<Item> -> bool): Rows {
    InsertItems(rows, Flatten(Stored(batches, rejects)))
  }

  lemma {:induction false} InsertItemsConcat(rows: Rows, a: seq<Item>, b: seq<Item>)
    ensures InsertItems(rows, a + b) == InsertItems(InsertItems(rows, a), b)
    decreases |a|
  {
    if a != [] {
      assert (a + b)[1..] == a[1..] + b;
      InsertItemsConcat(InsertItem(rows, a[0]), a[1..], b);
    } else {
      assert a + b == b;
    }
  }

  lemma ConsumedStep(rows: Rows, batches: seq<seq<Item>>, i: nat, rejects: seq<Item> -> bool)
    requires i < |batches|
    ensures var b := batches[i];
      Consumed(rows, batches[..i + 1], rejects)
        == if b == [] || rejects(b) then Consumed(rows, batches[..i], rejects)
           else InsertItems(Consumed(rows, batches[..i], rejects), b)
    ensures Failures(batches[..i + 1], rejects)
      == Failures(batches[..i], rejects) + if batches[i] != [] && rejects(batches[i]) then 1 else 0
  {
    var b := batches[i];
    assert batches[..i + 1][..i] == batches[..i];
    var stored := Stored(batches[..i], rejects);
    if !rejects(b) || b == [] {
      assert Stored(batches[..i + 1], rejects) == stored + [b];
      FlattenAppend(stored, b);
      if b == [] {
        assert Flatten(stored) + b == Flatten(stored);
      } else {
        InsertItemsConcat(rows, Flatten(stored), b);
      }
    } else {
      assert Stored(batches[..i + 1], rejects) == stored;
    }
  }

  /** The `fbs_galleries` table. */
  class FbsGalleries {
    var rows: Rows

    constructor()
      ensures rows == map[]
    {
      rows := map[];
    }

    /** `insert_fbs_batch`; `rejected` is the database's answer to the statement. */
    method InsertBatch(batch: seq<Item>, rejected: bool) returns (r: Result<(), string>)
      modifies this
      ensures batch == [] ==> r.Ok?
      ensures batch != [] ==> (r.Err? <==> rejected)
      ensures rows == if batch == [] || rejected then old(rows) else InsertItems(old(rows), batch)
    {
      var st := BuildInsert(batch);
      if st.None? {
        return Ok(());
      }
      if rejected {
        return Err("Failed to insert FBS batch");
      }
      ExecuteBuilt(rows, batch);
      var after := ExecuteInsert(rows, st.value.params);
      rows := after.value;
      return Ok(());
    }

    /** The consumer loop: every batch is offered; a failed insert is logged and the loop goes on. */
    method Consume(batches: seq<seq<Item>>, rejects: seq<Item> -> bool) returns (errors: nat)
      modifies this
      ensures rows == Consumed(old(rows), batches, rejects)
      ensures errors == Failures(batches, rejects)
    {
      errors := 0;
      var i := 0;
      while i < |batches|
        invariant 0 <= i <= |batches|
        invariant rows == Consumed(old(rows), batches[..i], rejects)
        invariant errors == Failures(batches[..i], rejects)
      {
        ConsumedStep(old(rows), batches, i, rejects);
        var r := InsertBatch(batches[i], rejects(batches[i]));
        if r.Err? {
          errors := errors + 1;
        }
        i := i + 1;
      }
      assert batches[..i] == batches;
    }

    /**
     * `import_jsonl_to_fbs_db` for one file: `None` stands for a file that cannot
     * be opened, which ends the import with an error before anything is stored.
     */
    method ImportFile(lines: Option<seq<LineRead>>, codecs: Codecs, compressType: I32,
                      rejects: seq<Item> -> bool) returns (r: Result<(), string>)
      modifies this
      ensures lines.None? ==> r.Err? && rows == old(rows)
      ensures lines.Some? ==> r.Ok? && rows == FileEffect(old(rows), lines.value, codecs, compressType, rejects)
    {
      if lines.None? {
        return Err("Failed to open file");
      }
      var sent := Produce(lines.value, ClassifyWith(codecs, compressType));
      var _ := Consume(sent, rejects);
      return Ok(());
    }

    /** The directory mode: the `.json` entries in path order, stopping at the first that cannot be opened. */
    method ImportDirectory(names: seq<string>, open: string -> Option<seq<LineRead>>, codecs: Codecs,
                           compressType: I32, rejects: seq<Item> -> bool) returns (r: Result<(), string>)
      modifies this
      ensures (rows, r.Ok?) == DirectoryEffect(old(rows), JsonFiles(names), open, codecs, compressType, rejects)
    {
      var files := JsonFiles(names);
      var i := 0;
      while i < |files|
        invariant 0 <= i <= |files|
        invariant DirectoryEffect(old(rows), files, open, codecs, compressType, rejects)
          == DirectoryEffect(rows, files[i..], open, codecs, compressType, rejects)
      {
        assert files[i..][1..] == files[i + 1..];
        r := ImportFile(open(files[i]), codecs, compressType, rejects);
        if r.Err? {
          return;
        }
        i := i + 1;
      }
      return Ok(());
    }
  }

  /** The rows after importing one readable file. */
  function FileEffect(rows: Rows, lines: seq<LineRead>, codecs: Codecs, compressType: I32,
                      rejects: seq<Item> -> bool): Rows {
    Consumed(rows, Chunks(Accepted(lines, ClassifyWith(codecs, compressType)), BATCH_SIZE), rejects)
  }

  /** The rows after importing the files in order, and whether every file could be opened. */
  function DirectoryEffect(rows: Rows, files: seq<string>, open: string -> Option<seq<LineRead>>,
                           codecs: Codecs, compressType: I32, rejects: seq<Item> -> bool): (Rows, bool)
    decreases |files|
  {
    if files == [] then (rows, true)
    else
      match open(files[0])
      case None => (rows, false)
      case Some(lines) =>
        DirectoryEffect(FileEffect(rows, lines, codecs, compressType, rejects), files[1..], open,
                        codecs, compressType, rejects)
  }

  /** An import changes no row that was already stored: the table only grows. */
  lemma FileEffectKeepsRows(rows: Rows, lines: seq<LineRead>, codecs: Codecs, compressType: I32,
                            rejects: seq<Item> -> bool)
    ensures forall k :: k in rows ==>
      k in FileEffect(rows, lines, codecs, compressType, rejects) && FileEffect(rows, lines, codecs, compressType, rejects)[k] == rows[k]
  {
    var batches := Chunks(Accepted(lines, ClassifyWith(codecs, compressType)), BATCH_SIZE);
    InsertKeepsExisting(rows, Flatten(Stored(batches, rejects)));
  }

  /** With a database that refuses nothing, every accepted line's gallery id ends up stored. */
  lemma AllAcceptedStored(rows: Rows, lines: seq<LineRead>, codecs: Codecs, compressType: I32)
    ensures var after := FileEffect(rows, lines, codecs, compressType, b => false);
      forall it :: it in Accepted(lines, ClassifyWith(codecs, compressType)) ==> it.galleryId in after
  {
    var items := Accepted(lines, ClassifyWith(codecs, compressType));
    var batches := Chunks(items, BATCH_SIZE);
    ChunksSpec(items, BATCH_SIZE);
    StoredAll(batches, b => false);
    InsertKeepsExisting(rows, items);
  }

  lemma {:induction false} StoredAll(batches: seq<seq<Item>>, rejects: seq<Item> -> bool)
    requires forall b :: !rejects(b)
    ensures Stored(batches, rejects) == batches
  {
    if batches != [] {
      var last := |batches| - 1;
      StoredAll(batches[..last], rejects);
      assert batches[..last] + [batches[last]] == batches;
    }
  }

  // ---------------------------------------------------------------------------
  // Choosing the files of a directory
  // ---------------------------------------------------------------------------

  /** Path order for entries of one directory: code point order of the file names. */
  predicate NameLe(a: string, b: string)
    decreases |a|
  {
    if a == [] then true
    else if b == [] then false
    else if a[0] != b[0] then a[0] < b[0]
    else NameLe(a[1..], b[1..])
  }

  lemma {:induction false} NameLeTotal(a: string, b: string)
    ensures NameLe(a, b) || NameLe(b, a)
    decreases |a|
  {
    if a != [] && b != [] && a[0] == b[0] {
      NameLeTotal(a[1..], b[1..]);
    }
  }

  lemma {:induction false} NameLeRefl(a: string)
    ensures NameLe(a, a)
    decreases |a|
  {
    if a != [] {
      NameLeRefl(a[1..]);
    }
  }

  lemma {:induction false} NameLeTrans(a: string, b: string, c: string)
    requires NameLe(a, b) && NameLe(b, c)
    ensures NameLe(a, c)
    decreases |a|
  {
    if a != [] && b != [] && c != [] && a[0] == b[0] && b[0] == c[0] {
      NameLeTrans(a[1..], b[1..], c[1..]);
    }
  }

  predicate SortedNames(s: seq<string>) {
    forall i, j :: 0 <= i < j < |s| ==> NameLe(s[i], s[j])
  }

  function InsertName(x: string, s: seq<string>): (r: seq<string>)
    requires SortedNames(s)
    ensures SortedNames(r) && multiset(r) == multiset(s) + multiset{x}
    ensures forall y :: y in r ==> y == x || y in s
  {
    if s == [] then [x]
    else if NameLe(x, s[0]) then
      InsertFront(x, s);
      [x] + s
    else
      NameLeTotal(x, s[0]);
      var rest := InsertName(x, s[1..]);
      assert s == [s[0]] + s[1..];
      InsertBehind(s[0], rest, x, s[1..]);
      [s[0]] + rest
  }

  lemma InsertFront(x: string, s: seq<string>)
    requires SortedNames(s) && s != [] && NameLe(x, s[0])
    ensures SortedNames([x] + s)
  {
    var r := [x] + s;
    forall i, j | 0 <= i < j < |r|
      ensures NameLe(r[i], r[j])
    {
      if i == 0 {
        if j > 1 {
          NameLeTrans(x, s[0], s[j - 1]);
        }
      } else {
        assert r[i] == s[i - 1] && r[j] == s[j - 1];
      }
    }
  }

  lemma InsertBehind(h: string, rest: seq<string>, x: string, tail: seq<string>)
    requires SortedNames(rest) && NameLe(h, x)
    requires forall y :: y in tail ==> NameLe(h, y)
    requires forall y :: y in rest ==> y == x || y in tail
    ensures SortedNames([h] + rest)
  {
    var r := [h] + rest;
    forall i, j | 0 <= i < j < |r|
      ensures NameLe(r[i], r[j])
    {
      if i == 0 {
        assert r[j] in rest;
      } else {
        assert r[i] == rest[i - 1] && r[j] == rest[j - 1];
      }
    }
  }

  /** `entries.sort_by_key(|e| e.path())`. */
  function SortNames(names: seq<string>): (r: seq<string>)
    ensures SortedNames(r) && multiset(r) == multiset(names)
  {
    if names == [] then []
    else
      var rest := SortNames(names[1..]);
      assert names == [names[0]] + names[1..];
      InsertName(names[0], rest)
  }

  /** `path.extension() == Some("json")`: the name ends in ".json" after at least one other character. */
  predicate HasJsonExtension(name: string) {
    |name| > 5 && name[|name| - 5..] == ".json"
  }

  function FilterJson(names: seq<string>): (r: seq<string>)
    ensures forall y :: y in r ==> HasJsonExtension(y) && y in names
  {
    if names == [] then []
    else (if HasJsonExtension(names[0]) then [names[0]] else []) + FilterJson(names[1..])
  }

  /** The files the directory mode imports: the `.json` entries, sorted. */
  function JsonFiles(names: seq<string>): seq<string> {
    FilterJson(SortNames(names))
  }

  lemma {:induction false} FilterKeepsOrder(s: seq<string>)
    requires SortedNames(s)
    ensures SortedNames(FilterJson(s))
  {
    if s != [] {
      FilterKeepsOrder(s[1..]);
      var rest := FilterJson(s[1..]);
      if HasJsonExtension(s[0]) {
        assert forall y :: y in rest ==> y in s[1..];
        NameLeRefl(s[0]);
        assert forall y :: y in s[1..] ==> NameLe(s[0], y);
        InsertBehind(s[0], rest, s[0], s[1..]);
      }
    }
  }

  /** Which `.json` names are chosen, each as often as it occurs, and in path order. */
  lemma JsonFilesChosen(names: seq<string>)
    ensures SortedNames(JsonFiles(names))
    ensures forall y :: y in JsonFiles(names) <==> y in names && HasJsonExtension(y)
  {
    var sorted := SortNames(names);
    FilterKeepsOrder(sorted);
    FilterComplete(sorted);
    assert forall y :: y in sorted <==> y in multiset(sorted);
    assert forall y :: y in names <==> y in multiset(names);
  }

  lemma {:induction false} FilterComplete(s: seq<string>)
    ensures forall y :: y in s && HasJsonExtension(y) ==> y in FilterJson(s)
  {
    if s != [] {
      FilterComplete(s[1..]);
      assert forall y :: y in s ==> y == s[0] || y in s[1..];
    }
  }

  // ---------------------------------------------------------------------------
  // The compression type table
  // ---------------------------------------------------------------------------

  /** `fbs_compress_types`: names with serial ids. */
  class CompressTypes {
    var ids: map<string, nat>
    var nextId: nat

    ghost predicate Valid()
      reads this
    {
      nextId >= 1 && forall n :: n in ids ==> 1 <= ids[n] < nextId
    }

    constructor()
      ensures Valid() && ids == map[] && nextId == 1
    {
      ids := map[];
      nextId := 1;
    }

    /** `get_or_create_compress_type`: the existing id for the name, else a newly inserted one. */
    method GetOrCreate(name: string) returns (id: nat)
      requires Valid()
      modifies this
      ensures Valid()
      ensures name in old(ids) ==> id == old(ids)[name] && ids == old(ids) && nextId == old(nextId)
      ensures name !in old(ids) ==> id == old(nextId) && ids == old(ids)[name := id] && nextId == old(nextId) + 1
      ensures name !in old(ids) ==> forall n :: n in old(ids) ==> old(ids)[n] != id
    {
      if name in ids {
        return ids[name];
      }
      id := nextId;
      ids := ids[name := id];
      nextId := nextId + 1;
    }
  }

  /** Asking twice for the same name gives the same id and inserts at most once. */
  method GetOrCreateTwice(types: CompressTypes, name: string) returns (first: nat, second: nat)
    requires types.Valid()
    modifies types
    ensures types.Valid()
    ensures first == second && name in types.ids && types.ids[name] == first
    ensures types.ids.Keys == old(types.ids).Keys + {name}
  {
    first := types.GetOrCreate(name);
    second := types.GetOrCreate(name);
  }
}
