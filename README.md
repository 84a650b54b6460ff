# hitomi_server_rs, modelled in Dafny

hitomi_server_rs keeps a catalogue of galleries (title, dates, page files,
languages, tags, artists, groups, characters, parodies) in PostgreSQL. It
answers one HTTP request, `perform_sql`. A caller sends a SQL query that must
return only the `gallery_id` column. The server adds its own
`LIMIT … OFFSET …` and streams the matching ids back as little-endian `i32`
values, in chunks of `batch_size` rows. Three command-line tools fill the
database:

- `resp_to_json` turns raw HTTP-response dumps into gallery JSON lines.
- `import_to_db` stores those lines in normalised tables.
- `import_bin_to_db` stores them as zstd-compressed FlatBuffers in one table,
  `fbs_galleries`.

This project models each of these pieces and proves what it promises:

| file | module | what it models |
|---|---|---|
| `wrappers.dfy` | `Wrappers` | `Option` and `Result` |
| `ints.dfy` | `Ints` | the ranges of `i32`, `u32`, `u8` and `i64` |
| `text.dfy` | `Text` | the `str` operations the code relies on (`trim`, `to_lowercase`, `contains`, `strip_prefix`, `split`, `join`) and decimal `Display` of integers, with their round trips |
| `json.dfy` | `Json` | a `serde_json::Value`, and the field rules of serde's derived deserializers: required fields, `#[serde(default)]`, `Option`, `DefaultOnNull`, aliases and the integer range checks |
| `seqs.dfy` | `Seqs` | `Flatten`, `Map` and `Chunks` (`StreamExt::chunks`) |
| `dto.dfy` | `Dto` | `SqlRequest`, its defaults and `build_paginated_query` |
| `perform_sql.dfy` | `PerformSql` | the result-column validator on the parsed statements; the row-to-bytes packing of each chunk; what the caller receives when a row fails; the handler's chain of early returns |
| `gallery.dfy` | `DomainGallery` | the domain `Gallery` record and its sub-records, the `FlexibleBool` and `FlexibleString` adapters, and the serde codec of the record |
| `legacy_model.dfy` | `LegacyModel` | the older `u32`-based record in `src/model.rs`, with its `PickFirst` string fields and its old field names |
| `converter.dfy` | `Converter` | the FlatBuffer `Gallery` table, `serialize_gallery` and `deserialize_gallery` |
| `import_bin.dfy` | `ImportBin` | `import_bin_to_db`: the producer and consumer of batches, the multi-row `INSERT … ON CONFLICT DO NOTHING`, the compression-type lookup and the directory mode |
| `schema.dfy` | `Schema` | `create_tables`: splitting the schema text into statements and executing them in order |
| `galleries_mapper.dfy` | `GalleriesMapper` | the normalised store and `insert_gallery` with its upserts and link tables |
| `import_to_db.dfy` | `ImportToDb` | the line loop of `import_jsonl_to_db` and its counters |
| `resp_to_json.dfy` | `RespToJson` | `write_jsonl` and `process_resp_file` |

The external parts appear as function parameters. These are the SQL parser,
the JSON text parser and renderer, zstd, and the database's answers (row
results, refused statements, a failed transaction). Each is a function of
its argument alone, and the proofs hold for every such function; an external
part whose answer depends on hidden state or on time is not captured. The JSON text parser only gives the syntax of JSON: a gallery read from a
line is its value decoded by `DomainGallery.DecodeGallery`. Where the code changes state, the model changes
state too:

- A `GalleryStore` (the normalised tables) and an `FbsGalleries` (the
  `fbs_galleries` table) are classes.
- Their methods are proved to leave exactly the state that a specification
  function of the old state describes.
- The loops of the source are `while`/`for` loops with their invariants.

## Notes on the source


- The directory mode of `import_bin_to_db` imports the `.json` files one after another, in path order (src/bin/import_bin_to_db.rs:81-87), and stops at the first file that fails.
- In `src/model.rs`, the `id` and `related` fields use `PickFirst<(DisplayFromStr, Same)>`. Both alternatives read only JSON strings, so an integer id is refused (`LegacyModel.IntegerIdRefused`). The domain record's `FlexibleString` accepts one.

## Model

| member | source | states |
|---|---|---|
| `Text.TrimStart` | src/bin/import_to_db.rs:84 | the result is a suffix of the input; every dropped character is whitespace, and the result does not start with whitespace |
| `Text.TrimEnd` | src/bin/import_to_db.rs:84 | the result is a prefix of the input; every dropped character is whitespace, and the result does not end with whitespace |
| `Text.TrimEmptyIffBlank` | src/bin/import_to_db.rs:84 | `trim().is_empty()` holds exactly when the line consists of whitespace only |
| `Text.TrimIdempotent` | src/bin/import_to_db.rs:51 | trimming a trimmed statement changes nothing |
| `Text.ToLower` | src/domain/dto.rs:16 | the result has the same length, and each character is the lower-cased character at that position |
| `Text.ToLowerConcat` | src/domain/dto.rs:16 | lower-casing distributes over concatenation |
| `Text.ToLowerSlice` | src/domain/dto.rs:16 | a slice of the lower-cased text is the lower-cased slice |
| `Text.ToLowerOfLower` | src/domain/dto.rs:17 | a text without upper-case letters is unchanged by lower-casing |
| `Text.ContainsInMiddle` | src/domain/dto.rs:17 | a pattern found inside a piece is found in any text that contains that piece |
| `Text.StripPrefix` | src/bin/resp_to_json.rs:93 | the result is present exactly when the text starts with the prefix, and then it is the rest of the text |
| `Text.NatToDecimal` | src/domain/dto.rs:24 | the decimal text is made of digits, is never empty, and has a leading `0` only for zero |
| `Text.DecimalRoundTrip` | src/domain/dto.rs:24 | reading back the decimal text of a number gives the number |
| `Text.DecimalCanonical` | src/domain/dto.rs:24 | every digit string without a leading zero is the decimal text of its value |
| `Text.DecimalInjective` | src/domain/dto.rs:24 | distinct numbers have distinct decimal texts |
| `Text.IntToDecimal` | src/bin/resp_to_json.rs:86-88 | the text starts with `-` exactly for negative numbers |
| `Text.IntDecimalRoundTrip` | src/domain/gallery.rs:166-170 | parsing the decimal text of a signed integer gives the integer back |
| `Text.Split` | src/bin/import_to_db.rs:50 | a split yields at least one piece, and no piece contains the separator |
| `Text.JoinSplit` | src/bin/import_to_db.rs:50 | joining the pieces of a split with the separator restores the text |
| `Text.SplitJoin` | src/bin/import_to_db.rs:50 | splitting a join of separator-free pieces gives back those pieces |
| `Text.SplitAtSep` | src/bin/import_to_db.rs:50 | a text that starts with a separator-free piece and a separator splits into that piece, then the splitting of the rest |
| `Json.AsI64` | src/domain/gallery.rs:166-170 | a number reads as an `i64` exactly when it is an integer inside the `i64` range |
| `Json.Get` | src/domain/gallery.rs:6-71 | a field lookup finds exactly the keys present, with their values |
| `Json.GetAliased` | src/domain/gallery.rs:50 | a renamed field with an alias is read under either spelling, and having both spellings is a duplicate-field error |
| `Json.Required` | src/domain/gallery.rs:8-23 | a field without a default fails exactly when it is absent |
| `Json.DecodeString` | src/domain/gallery.rs:8-23 | only a JSON string is accepted, and its text is the value |
| `Json.DecodeInt` | src/domain/gallery.rs:8-23 | only an integer inside the type's range is accepted |
| `Json.DecodeI32` | src/domain/gallery.rs:8 | an `i32` field accepts exactly the integers in the `i32` range |
| `Json.DecodeU32` | src/domain/dto.rs:3-12 | a `u32` field accepts exactly the integers in the `u32` range |
| `Json.DecodeOptionString` | src/domain/gallery.rs:26-37 | an absent or null field is `None`, a string is `Some` of it, and anything else is an error |
| `Json.OptionStringRoundTrip` | src/domain/gallery.rs:26-37 | an optional string written as null-or-string reads back unchanged |
| `Json.DecodeArray` | src/domain/gallery.rs:39-54 | an array decodes exactly when every element decodes, and then position by position |
| `Json.DecodeVec` | src/domain/gallery.rs:8-23 | a non-array value is an error |
| `Json.DecodeVecDefaultOnNull` | src/domain/gallery.rs:39-54 | an absent or null collection reads as empty |
| `Json.EncodeArray` | src/domain/gallery.rs:6-71 | the array holds each element's encoding, in order |
| `Json.ArrayRoundTrip` | src/domain/gallery.rs:39-54 | an element codec that round-trips lifts to arrays of such elements |
| `Json.ArrayTranslate` | src/model.rs:33-95 | arrays written by one element codec and read by another translate element by element |
| `Seqs.FlattenAppend` | src/bin/import_bin_to_db.rs:225-236 | flattening one more chunk appends its items |
| `Seqs.Map` | src/mapper/galleries_mapper.rs:81-83 | the mapped sequence has the same length, and each element is the image of the input at that position |
| `Seqs.MapInverse` | src/fbs/converter.rs:17-85 | mapping there and back with inverse maps restores the sequence |
| `Seqs.ChunksSpec` | src/api/perform_sql.rs:43-44 | the chunks hold the items in order; each holds 1 to `n` items, and all but the last exactly `n` |
| `Seqs.ChunkAt` | src/api/perform_sql.rs:43-44 | chunk `k` is the slice of items starting at `k * n` |
| `Seqs.ChunksAfterFull` | src/bin/import_bin_to_db.rs:227-236 | full chunks in front of a remainder are chunked as themselves |
| `Dto.DecodeU32OrDefault` | src/domain/dto.rs:6-11 | an absent field takes its default, and a present one must be a `u32` |
| `Dto.DecodeRequest` | src/domain/dto.rs:3-12 | decoding succeeds exactly for an object with a string `query` whose present `offset`, `limit` and `batch_size` are integers in the `u32` range; a present field gives its value, a missing one its default |
| `Dto.DefaultsOfQueryOnly` | src/domain/dto.rs:30-40 | a body holding only the query gets offset 0, limit `u32::MAX` and batch size 1000 |
| `Dto.BuildPaginatedQuery` | src/domain/dto.rs:15-27 | the query is refused, with the fixed message, exactly when its lower-cased text contains `limit` or `offset`; otherwise the result starts with the query |
| `Dto.PaginatedQueryShape` | src/domain/dto.rs:24 | the result is the query followed by ` LIMIT <limit> OFFSET <offset>`, and the two numbers read back as the requested limit and offset |
| `Dto.NoDoublePagination` | src/domain/dto.rs:15-27 | a paginated query submitted again is refused |
| `Dto.KeywordInsideIdentifier` | src/domain/dto.rs:17 | a column named `offsets` trips the keyword test |
| `Dto.EmbeddedLimitRejected` | src/domain/dto.rs:21-22 | a query with its own `LIMIT` clause is refused |
| `PerformSql.OutputName` | src/api/perform_sql.rs:91-99 | a projection item has a name exactly when it is a bare identifier or an aliased expression |
| `PerformSql.IsOnlyGalleryIdReturned` | src/api/perform_sql.rs:81-103 | true exactly when the first statement is a plain SELECT with one projection item whose bare name or alias lower-cases to `gallery_id` |
| `PerformSql.OnlyFirstStatementMatters` | src/api/perform_sql.rs:85 | statements after the first do not change the verdict |
| `PerformSql.RejectedItems` | src/api/perform_sql.rs:91-102 | a wildcard, a qualified wildcard, a compound identifier or any other unaliased expression is refused |
| `PerformSql.RejectedShapes` | src/api/perform_sql.rs:86-89 | a projection whose length is not one, a non-SELECT body and a non-query statement are refused |
| `PerformSql.AcceptedExamples` | src/api/perform_sql.rs:93-96 | an alias `gallery_id` and the column `GALLERY_ID` are both accepted |
| `PerformSql.LeBytes` | src/api/perform_sql.rs:56 | `to_le_bytes` gives four bytes |
| `PerformSql.LeBytesRoundTrip` | src/api/perform_sql.rs:56 | reading the four bytes back as a little-endian `i32` gives the value |
| `PerformSql.LeBytesOnto` | src/api/perform_sql.rs:56 | every four bytes are the encoding of exactly one `i32` |
| `PerformSql.FirstError` | src/api/perform_sql.rs:51-65 | the index of the first failed row, before which every row succeeded, and none when all succeeded |
| `PerformSql.RowsBytes` | src/api/perform_sql.rs:51-65 | the packed bytes are four per row |
| `PerformSql.RowsBytesAt` | src/api/perform_sql.rs:56 | row `k`'s value sits at bytes `4k` to `4k+3` and reads back as that value |
| `PerformSql.RowsBytesConcat` | src/api/perform_sql.rs:51-65 | packing two runs of rows is packing each, one after the other |
| `PerformSql.BatchBytes` | src/api/perform_sql.rs:45-69 | a chunk becomes its rows' packed bytes exactly when all its rows succeed; otherwise it becomes the first row error, with its prefix |
| `PerformSql.EncodeBatch` | src/api/perform_sql.rs:45-69 | the closure's buffer loop computes `BatchBytes` of the chunk |
| `PerformSql.ByteStreamChunks` | src/api/perform_sql.rs:43-69 | stream item `k` is the packing of chunk `k` of the cursor |
| `PerformSql.StreamOfGoodRows` | src/api/perform_sql.rs:43-69 | when every row succeeds, the body is every row's four bytes, in cursor order |
| `PerformSql.GoodChunkInFront` | src/api/perform_sql.rs:43-69 | a first chunk of good rows is delivered ahead of the rest |
| `PerformSql.SingleGoodChunk` | src/api/perform_sql.rs:43-69 | good rows that fit in one chunk are delivered as that chunk |
| `PerformSql.StreamTruncatesAtFailedChunk` | src/api/perform_sql.rs:58-63 | when a row fails, the caller receives exactly the rows of the complete chunks before the failing row's chunk |
| `PerformSql.DeliverFullChunks` | src/api/perform_sql.rs:43-69 | whole chunks of good rows in front are delivered in full, ahead of what follows |
| `PerformSql.StreamHead` | src/api/perform_sql.rs:43-69 | the first chunk's bytes come first in what is delivered |
| `PerformSql.FailedFirstChunk` | src/api/perform_sql.rs:58-63 | a failure inside the first chunk means nothing is delivered |
| `PerformSql.StreamExample` | src/api/perform_sql.rs:43-69 | rows 1, 2, 3 with batch size 2 give the chunks `01 00 00 00 02 00 00 00` and `03 00 00 00` |
| `PerformSql.UnreadableIsZero` | src/api/perform_sql.rs:54 | a value that cannot be read as `i32` is sent as 0 |
| `PerformSql.HandleSql` | src/api/perform_sql.rs:13-79 | 400 with the pagination message exactly for pagination keywords; 400 with the validation message exactly for a parsed query of the wrong shape; 500 exactly when execution fails, carrying `SQL execution error: ` and the database's message; a panic exactly for an unparsable or empty query, or a valid one with `batch_size` 0; and the stream of chunks, with the `X-Batch-Size` and octet-stream headers, exactly for a valid, executed query with a positive batch size |
| `PerformSql.PaginationCheckedFirst` | src/api/perform_sql.rs:19-20 | when the query carries pagination keywords, neither the parser nor the database affects the reply |
| `PerformSql.ValidationBeforeExecution` | src/api/perform_sql.rs:22-29 | a query of the wrong shape is refused whatever the database would answer |
| `DomainGallery.FlexibleBool` | src/domain/gallery.rs:185-198 | a bool is itself, a number is true only for integer 1, a string is true for `"1"` or any casing of `true`; everything else is false |
| `DomainGallery.FlexibleBoolExamples` | src/domain/gallery.rs:192-195 | `TRUE`, `True`, `1` and integer 1 are true; `0`, `yes`, the empty text, 0, 2, the float 1, null and arrays are false |
| `DomainGallery.FlagOrFalse` | src/domain/gallery.rs:67-69 | an absent, or null, flag is false; a present one is read by `FlexibleBool` |
| `DomainGallery.RequiredFlag` | src/domain/gallery.rs:129-150 | a required flag fails only when absent |
| `DomainGallery.FlexibleString` | src/domain/gallery.rs:154-172 | a string is kept, an `i64` becomes its decimal text, a float its display text; null, bools, arrays and objects are errors |
| `DomainGallery.FlexibleStringOfInt` | src/domain/gallery.rs:166-170 | an integer id read as text parses back to the same integer |
| `DomainGallery.FlexibleStringIntOrText` | src/domain/gallery.rs:154-172 | an integer and its decimal string give the same field value |
| `DomainGallery.RequiredString` | src/domain/gallery.rs:8-23 | a required string field is present and a string |
| `DomainGallery.RequiredI32` | src/domain/gallery.rs:8 | a required `i32` field is present and in range |
| `DomainGallery.RequiredVec` | src/domain/gallery.rs:10-12 | a required vector field is absent-is-error, otherwise decoded as an array |
| `DomainGallery.DecodeFile` | src/domain/gallery.rs:129-150 | an object decodes as a file exactly when `name` and `hash` are strings, `width` and `height` are `i32` integers and `hasavif` is present; each field of the file is the value read from its key, a missing `haswebp`, `hasjxl` or `single` reading as false |
| `DomainGallery.FileRoundTrip` | src/domain/gallery.rs:129-150 | a file written by the serializer reads back unchanged |
| `DomainGallery.FileFlagDefaults` | src/domain/gallery.rs:141-148 | missing `haswebp`, `hasjxl` and `single` read as false, while a missing `hasavif` is an error |
| `DomainGallery.DecodeLanguage` | src/domain/gallery.rs:75-85 | an object decodes as a language exactly when `name`, `language_localname` and `url` are strings and `galleryid` is present and read by `FlexibleString`; each field is the value read from its key |
| `DomainGallery.LanguageRoundTrip` | src/domain/gallery.rs:75-85 | a language written by the serializer reads back unchanged |
| `DomainGallery.DecodeTag` | src/domain/gallery.rs:113-125 | an object decodes as a tag exactly when `tag` and `url` are strings; they are the values read from their keys, and `male` and `female` are absent-or-null-is-false flags |
| `DomainGallery.TagRoundTrip` | src/domain/gallery.rs:113-125 | a tag written by the serializer reads back unchanged |
| `DomainGallery.DecodeArtist` | src/domain/gallery.rs:87-91 | an object decodes as an artist exactly when `artist` and `url` are strings, and holds those strings |
| `DomainGallery.DecodeGroup` | src/domain/gallery.rs:93-97 | an object decodes as a group exactly when `group` and `url` are strings, and holds those strings |
| `DomainGallery.DecodeCharacter` | src/domain/gallery.rs:99-103 | an object decodes as a character exactly when `character` and `url` are strings, and holds those strings |
| `DomainGallery.DecodeParody` | src/domain/gallery.rs:105-109 | an object decodes as a parody exactly when `parody` and `url` are strings, and holds those strings |
| `DomainGallery.RecordRoundTrips` | src/domain/gallery.rs:87-109 | artists, groups, characters and parodies read back unchanged |
| `DomainGallery.DecodeGallery` | src/domain/gallery.rs:6-71 | a gallery decodes from an object, never from another JSON value (what each field reads as is stated by `DomainGallery.FieldsOfDecoded` and `DomainGallery.DecodeFromFields`) |
| `DomainGallery.ParseGallery` | src/bin/import_to_db.rs:89 | a line yields a gallery exactly when the JSON text parser reads it as a value that `DecodeGallery` accepts, and the gallery is the decoded one (the same call is made at src/bin/import_bin_to_db.rs:203) |
| `DomainGallery.FieldsOfDecoded` | src/domain/gallery.rs:6-71 | every field of a decoded gallery is what the object's key, or its alias, reads as; with `DomainGallery.DecodeFromFields` an object decodes as `g` exactly when all its fields read as `g`'s |
| `DomainGallery.GalleryRoundTrip` | src/domain/gallery.rs:6-71 | every gallery the serializer writes is read back as the same gallery |
| `DomainGallery.DecodeFromFields` | src/domain/gallery.rs:6-71 | an object decodes as `g` when each field, under its name or alias, reads as the matching part of `g` |
| `DomainGallery.MissingRequiredField` | src/domain/gallery.rs:8-23 | each of the nine fields without a default must be present |
| `DomainGallery.AbsentFieldsDefault` | src/domain/gallery.rs:26-69 | absent or null collections read as empty, absent options as `None`, absent `blocked` as false |
| `DomainGallery.TextsDefault` | src/domain/gallery.rs:26-37 | an absent optional text reads as `None` |
| `DomainGallery.CollectionsDefault` | src/domain/gallery.rs:39-54 | an absent or null collection reads as empty |
| `DomainGallery.TrailingDefault` | src/domain/gallery.rs:57-69 | absent `gallery_url`, `date_published` and `blocked` read as `None`, `None` and false |
| `DomainGallery.DuplicateAliasRejected` | src/domain/gallery.rs:50-63 | a field given under both its name and its alias is an error |
| `DomainGallery.AliasesAccepted` | src/domain/gallery.rs:50-63 | `parodys`, `galleryurl` and `datepublished` are read exactly as `parodies`, `gallery_url` and `date_published` |
| `DomainGallery.SameReadingSameGallery` | src/domain/gallery.rs:6-71 | two objects that agree on every key the decoder consults decode alike |
| `LegacyModel.PickFirstString` | src/model.rs:45-50 | only a JSON string is accepted, and its text is the value |
| `LegacyModel.IntegerIdRefused` | src/model.rs:45-50 | an integer id is refused here but accepted by the domain record |
| `LegacyModel.RequiredU32` | src/model.rs:35 | a required `u32` field is present and in range |
| `LegacyModel.DecodeFile` | src/model.rs:153-174 | an object decodes as a legacy file exactly when `name` and `hash` are strings, `width` and `height` are `u32` integers and `hasavif` is present; each field of the file is the value read from its key, a missing `haswebp`, `hasjxl` or `single` reading as false |
| `LegacyModel.FileRoundTrip` | src/model.rs:153-174 | a legacy file written by the serializer reads back unchanged |
| `LegacyModel.DecodeLanguage` | src/model.rs:99-109 | an object decodes as a language exactly when `name`, `language_localname`, `url` and `galleryid` are all strings; each field is the string under its key |
| `LegacyModel.LanguageRoundTrip` | src/model.rs:99-109 | a language written by the serializer reads back unchanged |
| `LegacyModel.DecodeGallery` | src/model.rs:33-95 | a legacy gallery decodes from an object, never from another JSON value (what each field reads as is stated by `LegacyModel.FieldsOfDecoded`) |
| `LegacyModel.FieldsOfDecoded` | src/model.rs:33-95 | every field of a decoded legacy gallery is what the object's key reads as: the nine required fields present, the optional texts, the default-on-null collections, `galleryurl`, `datepublished` and `blocked` |
| `LegacyModel.GalleryRoundTrip` | src/model.rs:33-95 | every legacy gallery the serializer writes is read back as the same gallery |
| `LegacyModel.ToDomain` | src/model.rs:33-95 | every field of the domain gallery holds the legacy field's value: ids, texts, options, `blocked`, every collection, each file's eight fields and each scene index, with `parodys`, `galleryurl` and `datepublished` mapped to their new names |
| `LegacyModel.LegacyOutputReadByDomain` | src/model.rs:77-88 | a legacy gallery whose numbers fit in `i32` is read by the domain decoder as the same data |
| `LegacyModel.AbsentFieldsDefault` | src/model.rs:53-93 | absent or null collections read as empty, absent options as `None`, absent `blocked` as false |
| `LegacyModel.CollectionsDefault` | src/model.rs:66-80 | an absent or null collection reads as empty |
| `LegacyModel.TrailingDefault` | src/model.rs:84-93 | absent `galleryurl`, `datepublished` and `blocked` read as `None`, `None` and false |
| `LegacyModel.TextsDefault` | src/model.rs:53-64 | an absent optional text reads as `None` |
| `Converter.ReadDatePublished` | src/fbs/converter.rs:109 | `date_published` is kept exactly when `%Y-%m-%d` reads it: a year of one to four digits, then a month and a day of one or two digits each |
| `Converter.SerializeGallery` | src/fbs/converter.rs:5-11 | every vector is written, even when empty, holding the converted elements of the gallery's collection in order (scene indexes and related ids as they are); title, date, type, id, options and `blocked` are copied |
| `Converter.DeserializeGallery` | src/fbs/converter.rs:13-118 | decoding succeeds exactly for a well-formed table whose `date` is an RFC 3339 date-time as `parse_from_rfc3339` reads it (`T` or `t`, an optional fraction, an offset `Z`, `z` or `±HH:MM`); then every collection is its vector's elements converted in order, an absent vector reading as empty, and every option (`language`, `language_localname`, `language_url`, `video`, `videofilename`, the date published) and scalar is copied |
| `Converter.RoundTrip` | src/fbs/converter.rs:5-118 | a gallery whose dates are in the form `to_rfc3339` and `NaiveDate` write survives the trip through the FlatBuffer unchanged |
| `Converter.DateTimeSpellingsRead` | src/fbs/converter.rs:90 | a date and time with `T` or `t`, followed by any fraction and an offset `Z`, `z` or `±HH:MM`, is read |
| `Converter.PlainDateSpellingsRead` | src/fbs/converter.rs:109 | a date with a one- to four-digit year and one- or two-digit month and day is read, padded or not |
| `Converter.CanonicalDateTimeReadable` | src/fbs/converter.rs:90 | every date-time in the form the encoder writes is one the decoder reads |
| `Converter.CanonicalDateReadable` | src/fbs/converter.rs:109 | every `YYYY-MM-DD` date is one `%Y-%m-%d` reads |
| `Converter.AbsentVectorIsEmpty` | src/fbs/converter.rs:17-85 | an absent vector and a present empty one decode identically |
| `Converter.UnreadableDates` | src/fbs/converter.rs:90-109 | a `date` that `parse_from_rfc3339` does not read is fatal, while a `date_published` that `%Y-%m-%d` does not read is dropped and the rest still decodes |
| `ImportBin.Classify` | src/bin/import_bin_to_db.rs:184-225 | a read error, a blank line, a parse failure, a compression failure and a queued line are each recognised exactly (a line is queued exactly when it is not blank, parses and compresses); a queued item carries the run's compression type |
| `ImportBin.QueuedItem` | src/bin/import_bin_to_db.rs:203-225 | a queued item holds the parsed gallery's id and its compressed FlatBuffer |
| `ImportBin.AcceptedConcat` | src/bin/import_bin_to_db.rs:184-236 | the items of two runs of lines are the items of each, in order |
| `ImportBin.SkippedLineVanishes` | src/bin/import_bin_to_db.rs:189-223 | a skipped line leaves the batches as if it were absent |
| `ImportBin.AcceptedCarryType` | src/bin/import_bin_to_db.rs:214-225 | when the decision tags items with one type, every item queued carries that type |
| `ImportBin.ImporterTagsItems` | src/bin/import_bin_to_db.rs:40 | every queued item carries the one compression-type id fixed before the run |
| `ImportBin.Produce` | src/bin/import_bin_to_db.rs:183-236 | the batches sent are the accepted items cut into chunks of 500, the last one possibly shorter |
| `ImportBin.FinalChunk` | src/bin/import_bin_to_db.rs:234-236 | full batches followed by a shorter remainder are the chunking of their items |
| `ImportBin.Tuples` | src/bin/import_bin_to_db.rs:263-270 | tuple `i` is `($3i+1, $3i+2, $3i+3)` |
| `ImportBin.BuildInsert` | src/bin/import_bin_to_db.rs:251-275 | no statement exactly for an empty batch; otherwise the head, the comma-joined tuples and the `ON CONFLICT` tail, with each item's three parameters in turn |
| `ImportBin.NumbersConsecutive` | src/bin/import_bin_to_db.rs:263-270 | the placeholders run `$1 … $3n` without gaps or repeats |
| `ImportBin.ParamLayout` | src/bin/import_bin_to_db.rs:263-270 | parameter `3i+j` is field `j` of item `i`, so each placeholder binds its own item's field |
| `ImportBin.InsertItem` | src/bin/import_bin_to_db.rs:274 | an id already stored keeps its row; a new id gets the item's data and type |
| `ImportBin.ExecuteBuilt` | src/bin/import_bin_to_db.rs:272-283 | executing the built statement inserts the batch's items in order |
| `ImportBin.Ids` | src/bin/import_bin_to_db.rs:274 | the gallery ids of the items, no more and no fewer |
| `ImportBin.InsertKeepsExisting` | src/bin/import_bin_to_db.rs:274 | inserting never changes a stored row and adds exactly the items' ids |
| `ImportBin.FirstItemWins` | src/bin/import_bin_to_db.rs:274 | among items with the same new id, the first one is stored |
| `ImportBin.InsertIdempotent` | src/bin/import_bin_to_db.rs:274 | re-running the same inserts changes nothing |
| `ImportBin.InsertPresent` | src/bin/import_bin_to_db.rs:274 | items whose ids are all stored leave the table as it is |
| `ImportBin.InsertItemsConcat` | src/bin/import_bin_to_db.rs:241-245 | inserting two runs of items is inserting one run after the other |
| `ImportBin.ConsumedStep` | src/bin/import_bin_to_db.rs:241-245 | one more batch is either stored, or refused and counted as a failure |
| `ImportBin.FbsGalleries.constructor` | src/bin/import_bin_to_db.rs:97-115 | the table starts empty |
| `ImportBin.FbsGalleries.InsertBatch` | src/bin/import_bin_to_db.rs:251-286 | an empty batch succeeds and changes nothing; otherwise the call fails exactly when the database refuses, and only an accepted batch is inserted |
| `ImportBin.FbsGalleries.Consume` | src/bin/import_bin_to_db.rs:241-245 | every batch is offered; refused ones are counted and skipped |
| `ImportBin.FbsGalleries.ImportFile` | src/bin/import_bin_to_db.rs:167-249 | a file that cannot be opened is an error with nothing stored; otherwise the table ends as the producer's batches, consumed, leave it |
| `ImportBin.FbsGalleries.ImportDirectory` | src/bin/import_bin_to_db.rs:60-87 | the `.json` entries are imported in path order, stopping at the first that cannot be opened |
| `ImportBin.FileEffectKeepsRows` | src/bin/import_bin_to_db.rs:274 | an import never changes a row that was already stored |
| `ImportBin.AllAcceptedStored` | src/bin/import_bin_to_db.rs:167-249 | when the database refuses nothing, every accepted line's gallery id ends up stored |
| `ImportBin.StoredAll` | src/bin/import_bin_to_db.rs:241-245 | when nothing is refused, every batch is stored |
| `ImportBin.NameLeTotal` | src/bin/import_bin_to_db.rs:66 | any two names are ordered one way or the other |
| `ImportBin.NameLeRefl` | src/bin/import_bin_to_db.rs:66 | every name is ordered before or equal to itself |
| `ImportBin.NameLeTrans` | src/bin/import_bin_to_db.rs:66 | name order is transitive |
| `ImportBin.InsertName` | src/bin/import_bin_to_db.rs:66 | inserting into a sorted list keeps it sorted and adds exactly one name |
| `ImportBin.SortNames` | src/bin/import_bin_to_db.rs:66 | the result is sorted and a permutation of the entries |
| `ImportBin.FilterJson` | src/bin/import_bin_to_db.rs:84 | only names with the `json` extension are kept |
| `ImportBin.FilterKeepsOrder` | src/bin/import_bin_to_db.rs:84 | filtering keeps a sorted list sorted |
| `ImportBin.FilterComplete` | src/bin/import_bin_to_db.rs:84 | every `.json` name is kept |
| `ImportBin.JsonFilesChosen` | src/bin/import_bin_to_db.rs:60-87 | the files imported are exactly the `.json` entries, in path order |
| `ImportBin.CompressTypes.constructor` | src/bin/import_bin_to_db.rs:97-115 | no compression types are stored, and the serial counter starts at 1 |
| `ImportBin.CompressTypes.GetOrCreate` | src/bin/import_bin_to_db.rs:136-165 | a known name returns its id and changes nothing; an unknown one is inserted under a fresh id held by no other name |
| `ImportBin.GetOrCreateTwice` | src/bin/import_bin_to_db.rs:136-165 | asking twice for a name gives one id and inserts at most once |
| `Schema.KeepStatements` | src/bin/import_to_db.rs:51-52 | the kept statements are trimmed and non-empty |
| `Schema.SchemaStatements` | src/bin/import_to_db.rs:48-53 | each statement is non-empty, trimmed and contains no `;` |
| `Schema.KeepStatementsConcat` | src/bin/import_to_db.rs:51-52 | the statements kept from two runs of pieces are those of the first run followed by those of the second |
| `Schema.KeepStatementsOfOne` | src/bin/import_to_db.rs:51-52 | no pieces keep nothing; a single piece keeps its trimmed text exactly when that is not empty (with the concatenation lemma this fixes the result for every list of pieces) |
| `Schema.SchemaStatementsSplit` | src/bin/import_to_db.rs:48-53 | for any schema text: text without `;` gives its trimmed text if not empty, and `a;b` gives that of `a` followed by the statements of `b` |
| `Schema.KeepSeparatorFree` | src/bin/import_to_db.rs:49-53 | trimming never introduces a separator |
| `Schema.TrimInside` | src/bin/import_to_db.rs:51 | every character of a trimmed text comes from the text |
| `Schema.BlankPiecesDropped` | src/bin/import_to_db.rs:52 | whitespace-only pieces, such as the text after the last `;`, contribute nothing |
| `Schema.SchemaRoundTrip` | src/bin/import_to_db.rs:48-53 | a schema written as `;`-terminated trimmed statements splits back into exactly those statements |
| `Schema.KeptUnchanged` | src/bin/import_to_db.rs:51-52 | already trimmed non-empty statements pass unchanged |
| `Schema.ExecuteStatements` | src/bin/import_to_db.rs:55-62 | statements are sent in order; it succeeds exactly when all are accepted, otherwise it stops at the first refused one with `Failed to execute: <sql>` |
| `Schema.CreateTables` | src/bin/import_bin_to_db.rs:97-115 | the schema's statements are sent in order, and it succeeds exactly when all are accepted; on failure the last statement sent is the first refused one and the error is `Failed to execute: ` followed by it |
| `GalleriesMapper.UpsertId` | src/mapper/galleries_mapper.rs:153-182 | a present key keeps its id; an absent one gets the next serial id, held by no other row |
| `GalleriesMapper.UpsertNothingElse` | src/mapper/galleries_mapper.rs:153-182 | an upsert writes that key's row with the given url and nothing else |
| `GalleriesMapper.UpsertIdempotent` | src/mapper/galleries_mapper.rs:209-233 | repeating an upsert changes nothing and returns the same id |
| `GalleriesMapper.LinkOnce` | src/mapper/galleries_mapper.rs:185-206 | after a link the pair is present, added at most once; linking twice is linking once |
| `GalleriesMapper.UpsertAndLinkValid` | src/mapper/galleries_mapper.rs:31-58 | an upsert and link keeps ids below the serial counter and the links free of duplicates |
| `GalleriesMapper.LinkAllValid` | src/mapper/galleries_mapper.rs:31-58 | the element loops keep the table valid |
| `GalleriesMapper.UpsertAndLinkKeeps` | src/mapper/galleries_mapper.rs:31-58 | a stored, linked key stays stored and linked under the same id |
| `GalleriesMapper.LinkAllLinksEach` | src/mapper/galleries_mapper.rs:31-58 | after an element loop every element is stored and linked to the gallery, and no old row loses its id |
| `GalleriesMapper.LinkAllUrls` | src/mapper/galleries_mapper.rs:31-58 | after an element loop every key named by an entry holds the url of its last entry |
| `GalleriesMapper.LinkAllCovered` | src/mapper/galleries_mapper.rs:31-58 | an element loop over keys already stored and linked adds no row and no link and only sets each key's url to its last one |
| `GalleriesMapper.LinkAllIdempotent` | src/mapper/galleries_mapper.rs:31-58 | running an element loop again with the same entries changes nothing |
| `GalleriesMapper.MergeRule` | src/mapper/galleries_mapper.rs:131-140 | a new value wins, a missing one keeps the stored value, and merging again changes nothing |
| `GalleriesMapper.UpsertLanguageRow` | src/mapper/galleries_mapper.rs:115-150 | the language keeps its id and merges its columns, or is inserted under the next id, which then advances; exactly this name is added to the language keys; other languages, every other table and the gallery id counter are untouched |
| `GalleriesMapper.TranslationGroup` | src/mapper/galleries_mapper.rs:81-83 | the translation group is the languages' `galleryid`s, in order |
| `GalleriesMapper.UpsertGalleryRow` | src/mapper/galleries_mapper.rs:69-112 | the gallery row holds the record's columns; a re-import keeps the row id, a new one gets a fresh id; other rows are untouched |
| `GalleriesMapper.NoLanguageUntouched` | src/mapper/galleries_mapper.rs:13-25 | without a language, the languages table is untouched and the row has no language id |
| `GalleriesMapper.GalleryStepRow` | src/mapper/galleries_mapper.rs:13-28 | the gallery row refers to its language's row, when it names one |
| `GalleriesMapper.LinkElementsValid` | src/mapper/galleries_mapper.rs:31-58 | the five element loops keep the store valid |
| `GalleriesMapper.LinkElementsTagsArtists` | src/mapper/galleries_mapper.rs:31-40 | every tag and artist has a row linked to the gallery |
| `GalleriesMapper.LinkElementsOthers` | src/mapper/galleries_mapper.rs:41-58 | every group, character and parody has a row linked to the gallery |
| `GalleriesMapper.InsertGalleryStores` | src/mapper/galleries_mapper.rs:6-62 | a committed insert keeps the store valid, stores a gallery row equal to every column of the record with the id of its language's row (none without a language), keeps the row id on a re-import, and links its tags and artists |
| `GalleriesMapper.InsertGalleryKeepsOthers` | src/mapper/galleries_mapper.rs:6-62 | a committed insert adds the gallery's key and changes no other gallery row |
| `GalleriesMapper.UpsertLanguageIdempotent` | src/mapper/galleries_mapper.rs:115-150 | upserting a language again with the same columns changes nothing and returns the same id |
| `GalleriesMapper.InsertGalleryIdempotent` | src/mapper/galleries_mapper.rs:6-62 | committing the insert of the same gallery a second time leaves the store exactly as after the first |
| `GalleriesMapper.GalleryStore.constructor` | src/bin/import_to_db.rs:47-65 | the store starts empty |
| `GalleriesMapper.GalleryStore.InsertGallery` | src/mapper/galleries_mapper.rs:6-62 | it fails exactly when the transaction fails, which leaves the store rolled back (`RolledBack`); otherwise the store is the committed insert; either way a valid store stays valid |
| `GalleriesMapper.RolledBack` | src/mapper/galleries_mapper.rs:6-62 | a rolled-back insert keeps every row and link; each serial sequence only moves forward, and no further than the committed insert would have moved it |
| `GalleriesMapper.EffectCountersGrow` | src/mapper/galleries_mapper.rs:6-62 | a committed insert moves no serial sequence backwards |
| `GalleriesMapper.LinkAllMethod` | src/mapper/galleries_mapper.rs:31-58 | the loop computes `LinkAll` |
| `ImportToDb.Classify` | src/bin/import_to_db.rs:84-108 | each line is exactly one of blank, parse failure, insert failure or insert, and an insert or a refused insert carries the parsed gallery |
| `ImportToDb.CountCases` | src/bin/import_to_db.rs:80-108 | an insert counts a success; a parse or insert failure counts an error; every line moves `line_number` on |
| `ImportToDb.ReadableTexts` | src/bin/import_to_db.rs:81 | the texts of the lines before the first unreadable one |
| `ImportToDb.ReadErrorEndsRun` | src/bin/import_to_db.rs:81 | nothing after an unreadable line is looked at |
| `ImportToDb.ImportJsonl` | src/bin/import_to_db.rs:67-118 | an unopenable file is an error with nothing stored; otherwise the readable lines are applied in order (each insert committed or rolled back by its outcome), a read error ends the run with `Failed to read line`, and the run succeeds with the counters exactly when every line could be read |
| `ImportToDb.ImportLine` | src/bin/import_to_db.rs:84-108 | one line moves the counters by its outcome, commits its gallery if inserted and rolls its insert back if refused |
| `ImportToDb.RunStep` | src/bin/import_to_db.rs:79-110 | one more line moves the counters, the committed galleries and the sequence of outcomes on by its outcome |
| `ImportToDb.TallyBalance` | src/bin/import_to_db.rs:75-110 | `line_number` counts every line read; successes, errors and blank lines add up to it; successes are the committed inserts |
| `ImportToDb.TallyConcat` | src/bin/import_to_db.rs:79-110 | the counters of two runs of lines add up |
| `ImportToDb.BlankLineOnlyCounted` | src/bin/import_to_db.rs:84-86 | a blank line anywhere only moves `line_number` on |
| `ImportToDb.ApplyHolds` | src/bin/import_to_db.rs:92-104 | one line keeps the store valid and every gallery key, and only a committed insert adds or changes a gallery row |
| `ImportToDb.StoreAfterHolds` | src/bin/import_to_db.rs:92 | the store stays valid, every committed gallery has its row, no stored gallery key is lost, and a run with no committed insert leaves the gallery rows as they were |
| `RespToJson.WithGalleryId` | src/bin/resp_to_json.rs:102 | `gallery_id` is set to the id, and every other key is kept |
| `RespToJson.Payload` | src/bin/resp_to_json.rs:92-101 | the body yields an object exactly when it starts with the script prefix and the rest parses as a JSON object |
| `RespToJson.WriteJsonl` | src/bin/resp_to_json.rs:76-110 | an unparsable record is an error; a 404 writes nothing; another non-200 status is an error naming it; a 200 writes one line, holding the object with its id, exactly when the payload is an object |
| `RespToJson.WrittenObjectCarriesId` | src/bin/resp_to_json.rs:96-107 | a written line is the body's object, with `gallery_id` set to the record's id |
| `RespToJson.ConvertedConcat` | src/bin/resp_to_json.rs:63-66 | the output of two runs of lines is the output of each, in order |
| `RespToJson.SkippedLineVanishes` | src/bin/resp_to_json.rs:63-66 | a failed or 404 line leaves the output as if it were absent |
| `RespToJson.OneLinePerSuccess` | src/bin/resp_to_json.rs:63-66 | splitting the output at line breaks gives the written objects, in order |
| `RespToJson.ProcessRespFile` | src/bin/resp_to_json.rs:46-74 | an existing output is skipped; an unopenable input is an error; otherwise the run succeeds exactly when every line could be read, and the output is the converted lines |

## Left out

- `Text.ToLower` lower-cases ASCII letters only. Rust's `to_lowercase` also maps non-ASCII letters, so a query, flag text or alias that spells a keyword with non-ASCII letters is not modelled.
- `DomainGallery.FlexibleString`: the `f64` variant's display text is carried as given, not computed from a float. Integers beyond the `i64` range are refused rather than read as floats.
- The exact texts of serde's, sqlx's and the I/O layer's error messages are not modelled; the model only says that an error occurs. The messages the source writes itself are modelled as their fixed text, with these differences:
  - `Failed to open file` (src/bin/import_bin_to_db.rs:185, src/bin/import_to_db.rs:72) and `Failed to open input file` (src/bin/resp_to_json.rs:55) leave out the `: {:?}` path that follows, because paths are not modelled.
  - `database error`, the error of `GalleriesMapper.GalleryStore.InsertGallery`, stands for whatever sqlx reports.
  - `Failed to read line` in `RespToJson.ProcessRespFile` stands for the I/O error that src/bin/resp_to_json.rs:64 passes on unchanged; only src/bin/import_to_db.rs:81 writes that text itself.
- Concurrency is not modelled. `import_bin_to_db` runs its producer and consumer as tokio tasks joined by a channel of capacity 5; the model runs them in sequence (all batches produced, then consumed), which gives the same stored rows because the consumer takes batches in order.
- The SQL parser, the JSON text parser and renderer, zstd, and the database's answers are function parameters, so no property depends on how they work inside.
- The binary layout of FlatBuffers (vtables, offsets, alignment) is not modelled. A buffer is either the `Gallery` table it denotes or malformed.
- `Converter.IsRfc3339` and `Converter.IsPlainDate` check the shape of a date text, not the ranges chrono also checks (month 1-12, day within the month, hour, minute, second and offset ranges). `IsPlainDate` does not model the signed years and the whitespace before a number that chrono's `%Y`, `%m` and `%d` also accept.
- `Converter.RoundTrip`: `date` is written, and read back, as the RFC 3339 text of the date-time, not as the chrono value.
- `drop_tables`, database connection set-up, environment variables, command-line handling, progress bars and `println!` output are not modelled. The counters of `import_jsonl_to_db` are returned instead of printed.
- The entity files, `main.rs`, `analyze_schema.rs` and `normalize_json.rs` are not part of this model.
- Serial ids are unbounded `nat`s, so the overflow of PostgreSQL `serial` columns is not modelled.
- `ImportBin.FbsGalleries.ImportDirectory`: errors while listing the directory are not modelled, because the source drops unreadable entries (`filter_map(ok)`) before sorting.
- `GalleriesMapper.GalleryStore.InsertGallery`: a database error inside the transaction is one flag for the whole transaction, because any error rolls back every row and link. PostgreSQL sequences are not rolled back: each keeps the values the statements before the error drew. The model does not know which statement failed, so `RolledBack` moves every sequence as far as the whole insert would have. Ids given to later rows may therefore be higher in the model than in a real run in which the error came early.
- `ImportToDb.ImportJsonl`: the `i32` counters are unbounded, so their overflow after 2^31 lines is not modelled.
- `RespToJson.ProcessRespFile`: the directory loop of `main` and its `.jsonl` filter are not modelled. A failure to create the temporary `.jsonl.tmp` file (`File::create`), the temporary file left behind after a read error, failures of flush, rename and object serialisation, and the texts of I/O errors are not modelled either; on a read error the model reports that no output was created.
- Serde's derived deserializers also read a record from a JSON array that holds its fields in declaration order; a short array leaves the trailing defaulted fields at their defaults. That array form is not modelled. Each decoder below refuses every value that is not an object:
- `DomainGallery.DecodeFile`: the array form of a file is not modelled.
- `DomainGallery.DecodeGallery`: the array form of a gallery is not modelled.
- `DomainGallery.DecodeLanguage`, `DomainGallery.DecodeTag` and the artist, group, character and parody decoders: their array forms are not modelled.
- `LegacyModel.DecodeFile`: the array form of a legacy file is not modelled.
- `LegacyModel.DecodeGallery`: the array form of a legacy gallery is not modelled.
- `LegacyModel.DecodeLanguage`: the array form of a legacy language is not modelled.
- `Dto.DecodeRequest`: the array form of the request body is not modelled. For example, `["SELECT …"]` would be a request with the defaults.
- `PerformSql.RowValue` stands for 0 on a failed row. That value is never packed, because a failed row turns the whole chunk into an error.
- `PerformSql.HandleSql`: a parse failure, an empty statement list and a zero `batch_size` are all modelled as `Panicked`, because the source unwraps the parse, indexes `ast[0]` and calls `chunks(0)`.
- Dates in the domain record are strings. `date` and `date_published` are read and written as text.
- `PerformSql.HandleSql` does not model the 500 "Failed to build response" error: with two fixed, valid headers the response builder cannot fail.
