/**
 * The response-record filter (`src/bin/resp_to_json.rs`): each line of a
 * downloaded-responses file is a record holding the HTTP status and body of
 * the gallery-info request of one gallery. Records with status 200 whose body
 * is the script `var galleryinfo = <object>` become one JSON line holding that
 * object with `gallery_id` set; status 404 is skipped quietly; anything else is
 * a per-line error that is reported and skipped.
 *
 * The record parser, the JSON parser and the JSON renderer are parameters.
 */
module RespToJson {
  import opened Wrappers
  import opened Ints
  import opened Text
  import opened Json
  import B = ImportBin
  import T = ImportToDb

  /** One downloaded response, as the record struct of the tool reads it. */
  datatype RespRecord = RespRecord(galleryId: I32, status: I32, rawData: string, metaData: string)

  /**
   * `serde_json::from_str` into a record, `serde_json::from_str` into a value,
   * and `serde_json::to_writer` of an object.
   */
  datatype Codecs = Codecs(
    parseRecord: string -> Option<RespRecord>,
    parseJson: string -> Option<Json>,
    render: Fields -> string)

  /** The script text in front of the gallery object in a response body. */
  const JSON_PREFIX: string := "var galleryinfo = "

  /** `insert("gallery_id", json!(id))`: the key is set to the id, whatever it held before. */
  function WithGalleryId(fields: Fields, id: I32): (r: Fields)
    ensures "gallery_id" in r && r["gallery_id"] == Num(Int(id))
    ensures r.Keys == fields.Keys + {"gallery_id"}
    ensures forall k :: k in fields && k != "gallery_id" ==> r[k] == fields[k]
  {
    fields["gallery_id" := Num(Int(id))]
  }

  /** The gallery object a response body carries after the script prefix, if it carries one. */
  function Payload(rawData: string, c: Codecs): (r: Option<Fields>)
    ensures r.Some? <==>
      (StripPrefix(rawData, JSON_PREFIX).Some?
       && c.parseJson(rawData[|JSON_PREFIX|..]).Some?
       && c.parseJson(rawData[|JSON_PREFIX|..]).value.Object?)
    ensures r.Some? ==> c.parseJson(rawData[|JSON_PREFIX|..]) == Some(Object(r.value))
  {
    match StripPrefix(rawData, JSON_PREFIX)
    case None => None
    case Some(jsonText) =>
      match c.parseJson(jsonText)
      case Some(Object(fields)) => Some(fields)
      case _ => None
  }

  /** The object text a response line turns into, when it turns into one. */
  function Rendered(resp: string, c: Codecs): Option<string> {
    match c.parseRecord(resp)
    case None => None
    case Some(rec) =>
      if rec.status != 200 then None
      else
        match Payload(rec.rawData, c)
        case None => None
        case Some(fields) => Some(c.render(WithGalleryId(fields, rec.galleryId)))
  }

  /**
   * `write_jsonl`: the text it appends to the output for one response line, or
   * the error it gives up with (having appended nothing).
   */
  function WriteJsonl(resp: string, c: Codecs): (r: Result<string, string>)
    ensures c.parseRecord(resp).None? ==> r == Err("Failed to parse RESP data")
    ensures r == Ok([]) <==> c.parseRecord(resp).Some? && c.parseRecord(resp).value.status == 404
    ensures r.Ok? && r.value != [] <==> Rendered(resp, c).Some?
    ensures Rendered(resp, c).Some? ==> r == Ok(Rendered(resp, c).value + "\n")
    ensures r.Err? <==>
      match c.parseRecord(resp)
      case None => true
      case Some(rec) => (rec.status != 200 && rec.status != 404) || (rec.status == 200 && Payload(rec.rawData, c).None?)
    ensures c.parseRecord(resp).Some? && c.parseRecord(resp).value.status !in {200, 404} ==>
      r == Err("Unexpected status code: " + IntToDecimal(c.parseRecord(resp).value.status)
               + ", metadata: " + c.parseRecord(resp).value.metaData)
  {
    match c.parseRecord(resp)
    case None => Err("Failed to parse RESP data")
    case Some(rec) =>
      if rec.status != 200 then
        if rec.status == 404 then Ok([])
        else Err("Unexpected status code: " + IntToDecimal(rec.status) + ", metadata: " + rec.metaData)
      else
        var id := IntToDecimal(rec.galleryId);
        match StripPrefix(rec.rawData, JSON_PREFIX)
        case None => Err("Unexpected prefix gallery_id: " + id + " raw_data: " + rec.rawData)
        case Some(jsonText) =>
          match c.parseJson(jsonText)
          case None => Err("Failed to parse raw_data as JSON for gallery_id: " + id)
          case Some(v) =>
            if !v.Object? then Err("Expected JSON object for gallery_id: " + id)
            else Ok(c.render(WithGalleryId(v.fields, rec.galleryId)) + "\n")
  }

  /** A written line is the object of the body with `gallery_id` set to the record's id. */
  lemma WrittenObjectCarriesId(resp: string, c: Codecs)
    requires Rendered(resp, c).Some?
    ensures c.parseRecord(resp).Some? && c.parseRecord(resp).value.status == 200
    ensures var rec := c.parseRecord(resp).value;
      exists fields ::
        c.parseJson(rec.rawData[|JSON_PREFIX|..]) == Some(Object(fields))
        && WriteJsonl(resp, c) == Ok(c.render(WithGalleryId(fields, rec.galleryId)) + "\n")
  {
    var rec := c.parseRecord(resp).value;
    var fields := Payload(rec.rawData, c).value;
    assert c.parseJson(rec.rawData[|JSON_PREFIX|..]) == Some(Object(fields));
  }

  /** What a line leaves in the output: its text on success, nothing on an error. */
  function Output(resp: string, c: Codecs): string {
    match WriteJsonl(resp, c)
    case Ok(s) => s
    case Err(_) => []
  }

  /** The output file for the readable lines, in order. */
  function Converted(texts: seq<string>, c: Codecs): string {
    if texts == [] then [] else Output(texts[0], c) + Converted(texts[1..], c)
  }

  /** The object texts of the lines that are written, in order. */
  function WrittenObjects(texts: seq<string>, c: Codecs): seq<string> {
    if texts == [] then []
    else
      (match Rendered(texts[0], c) case Some(s) => [s] case None => [])
      + WrittenObjects(texts[1..], c)
  }

  /** The output of a run of lines is the outputs of its parts, one after the other. */
  lemma {:induction false} ConvertedConcat(a: seq<string>, b: seq<string>, c: Codecs)
    ensures Converted(a + b, c) == Converted(a, c) + Converted(b, c)
  {
    if a == [] {
      assert a + b == b;
    } else {
      assert (a + b)[1..] == a[1..] + b;
      ConvertedConcat(a[1..], b, c);
    }
  }

  /** One more line appends its own output. */
  lemma ConvertedSnoc(texts: seq<string>, text: string, c: Codecs)
    ensures Converted(texts + [text], c) == Converted(texts, c) + Output(text, c)
  {
    ConvertedConcat(texts, [text], c);
    assert [text][1..] == [];
  }

  /**
   * A line that fails, or is a 404, leaves no trace: the lines around it are
   * written exactly as they would be without it.
   */
  lemma SkippedLineVanishes(before: seq<string>, text: string, after: seq<string>, c: Codecs)
    requires WriteJsonl(text, c).Err? || WriteJsonl(text, c) == Ok([])
    ensures Converted(before + [text] + after, c) == Converted(before + after, c)
  {
    ConvertedConcat(before + [text], after, c);
    ConvertedSnoc(before, text, c);
    ConvertedConcat(before, after, c);
    assert Output(text, c) == [];
    assert Converted(before, c) + [] == Converted(before, c);
  }

  /**
   * Each success writes exactly one line: when rendered objects hold no line
   * break, splitting the output at line breaks gives the written objects in
   * order, followed by the empty text after the last terminator.
   */
  lemma {:induction false} OneLinePerSuccess(texts: seq<string>, c: Codecs)
    requires forall f :: '\n' !in c.render(f)
    ensures Split(Converted(texts, c), '\n') == WrittenObjects(texts, c) + [""]
  {
    if texts == [] {
      assert Split([], '\n') == [[]];
    } else {
      var rest := texts[1..];
      OneLinePerSuccess(rest, c);
      var tail := Converted(rest, c);
      match Rendered(texts[0], c)
      case None =>
        assert WriteJsonl(texts[0], c).Err? || WriteJsonl(texts[0], c) == Ok([]);
        assert Output(texts[0], c) == [];
        assert Converted(texts, c) == tail;
        assert WrittenObjects(texts, c) == WrittenObjects(rest, c);
      case Some(s) =>
        assert s == c.render(WithGalleryId(Payload(c.parseRecord(texts[0]).value.rawData, c).value,
                                           c.parseRecord(texts[0]).value.galleryId));
        assert '\n' !in s;
        assert Output(texts[0], c) == s + "\n";
        assert Converted(texts, c) == s + ['\n'] + tail;
        SplitAtSep(s, tail, '\n');
        assert WrittenObjects(texts, c) == [s] + WrittenObjects(rest, c);
    }
  }

  /**
   * `process_resp_file`. `outputExists` is whether the output file already
   * exists; `input` is `None` when the input file cannot be opened, otherwise
   * what reading it line by line yields. `output` is what the output file then
   * holds when the run created it, `None` when it did not.
   */
  method ProcessRespFile(outputExists: bool, input: Option<seq<B.LineRead>>, c: Codecs)
    returns (r: Result<(), string>, output: Option<string>)
    ensures outputExists ==> r.Ok? && output.None?
    ensures !outputExists && input.None? ==> r == Err("Failed to open input file") && output.None?
    ensures !outputExists && input.Some? ==>
      (r.Ok? <==> forall k :: 0 <= k < |input.value| ==> input.value[k].Line?)
    ensures !outputExists && input.Some? && r.Ok? ==>
      output == Some(Converted(T.ReadableTexts(input.value), c))
    ensures r.Err? ==> output.None?
  {
    if outputExists {
      return Ok(()), None;
    }
    if input.None? {
      return Err("Failed to open input file"), None;
    }
    var ls := input.value;
    var tmp: string := [];
    ghost var texts: seq<string> := [];
    var i := 0;
    while i < |ls|
      invariant 0 <= i <= |ls| && |texts| == i
      invariant forall j :: 0 <= j < i ==> ls[j] == B.Line(texts[j])
      invariant tmp == Converted(texts, c)
    {
      if ls[i].ReadError? {
        return Err("Failed to read line"), None;
      }
      var text := ls[i].text;
      var w := WriteJsonl(text, c);
      if w.Ok? {
        tmp := tmp + w.value;
      }
      ConvertedSnoc(texts, text, c);
      texts := texts + [text];
      i := i + 1;
    }
    T.ReadableIs(ls, texts);
    return Ok(()), Some(tmp);
  }
}
