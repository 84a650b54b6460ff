/**
 * The JSON-lines importer into the relational tables (`src/bin/import_to_db.rs`):
 * every line read is counted; a blank line is skipped; any other line is parsed
 * into a domain gallery and stored with `insert_gallery`, a parse or insert
 * failure being counted as an error and the run going on; a line that cannot be
 * read ends the import with an error.
 *
 * The syntax of JSON text and the database's answer to an insert are parameters.
 */
module ImportToDb {
  import opened Wrappers
  import opened Text
  import J = Json
  import D = DomainGallery
  import M = GalleriesMapper
  import B = ImportBin

  /** The three counters of `import_jsonl_to_db`. */
  datatype Summary = Summary(success: nat, errors: nat, lineNumber: nat)

  /** What the loop does with one line that was read. */
  datatype LineOutcome = Blank | ParseFailed | InsertFailed(gallery: D.Gallery) | Inserted(gallery: D.Gallery)

  /**
   * The loop body for the text of one line: `parse` is `serde_json::from_str`
   * into a domain gallery (`DomainGallery.Parser` in `ImportJsonl`), `rejects`
   * the database's refusal of its insert.
   */
  function Classify(text: string, parse: string -> Option<D.Gallery>, rejects: D.Gallery -> bool): (o: LineOutcome)
    ensures o.Blank? <==> AllWhitespace(text)
    ensures o.ParseFailed? <==> !AllWhitespace(text) && parse(text).None?
    ensures o.InsertFailed? <==> !AllWhitespace(text) && parse(text).Some? && rejects(parse(text).value)
    ensures o.Inserted? <==> !AllWhitespace(text) && parse(text).Some? && !rejects(parse(text).value)
    ensures o.Inserted? || o.InsertFailed? ==> o.gallery == parse(text).value
  {
    TrimEmptyIffBlank(text);
    if Trim(text) == [] then Blank
    else
      match parse(text)
      case None => ParseFailed
      case Some(g) => if rejects(g) then InsertFailed(g) else Inserted(g)
  }

  /** The decision of the importer for each line. */
  function ClassifyWith(parse: string -> Option<D.Gallery>, rejects: D.Gallery -> bool): string -> LineOutcome {
    t => Classify(t, parse, rejects)
  }

  /** The counters after one more line. */
  function Count(s: Summary, o: LineOutcome): Summary {
    match o
    case Blank => s.(lineNumber := s.lineNumber + 1)
    case Inserted(_) => s.(success := s.success + 1, lineNumber := s.lineNumber + 1)
    case _ => s.(errors := s.errors + 1, lineNumber := s.lineNumber + 1)
  }

  /** A committed insert is a success, a failed parse or insert an error; every line moves `line_number` on. */
  lemma CountCases(s: Summary, o: LineOutcome)
    ensures Count(s, o).success == s.success + (if o.Inserted? then 1 else 0)
    ensures Count(s, o).errors == s.errors + (if o.Inserted? || o.Blank? then 0 else 1)
    ensures Count(s, o).lineNumber == s.lineNumber + 1
  {
  }

  /** The counters after the given lines, all of them read, where `classify` is the loop body's decision. */
  function Tally(texts: seq<string>, classify: string -> LineOutcome): Summary {
    if texts == [] then Summary(0, 0, 0)
    else Count(Tally(texts[..|texts| - 1], classify), classify(texts[|texts| - 1]))
  }

  /** The number of lines skipped as blank. */
  function Blanks(texts: seq<string>, classify: string -> LineOutcome): nat {
    if texts == [] then 0
    else Blanks(texts[..|texts| - 1], classify) + if classify(texts[|texts| - 1]).Blank? then 1 else 0
  }

  function InsertedOf(o: LineOutcome): seq<D.Gallery> {
    if o.Inserted? then [o.gallery] else []
  }

  /** The galleries whose insert committed, in line order. */
  function InsertedGalleries(texts: seq<string>, classify: string -> LineOutcome): seq<D.Gallery> {
    if texts == [] then []
    else InsertedGalleries(texts[..|texts| - 1], classify) + InsertedOf(classify(texts[|texts| - 1]))
  }

  /** The decisions for the given lines, in line order. */
  function Outcomes(texts: seq<string>, classify: string -> LineOutcome): (os: seq<LineOutcome>)
    ensures |os| == |texts|
  {
    if texts == [] then [] else Outcomes(texts[..|texts| - 1], classify) + [classify(texts[|texts| - 1])]
  }

  /** The store after one line: a committed insert, a rolled-back one, or as it was. */
  function Apply(db: M.Db, o: LineOutcome): M.Db {
    match o
    case Inserted(g) => M.InsertGalleryEffect(db, g)
    case InsertFailed(g) => M.RolledBack(db, g)
    case _ => db
  }

  /** The store after the lines with the given outcomes, in order. */
  function StoreAfter(db: M.Db, os: seq<LineOutcome>): M.Db {
    if os == [] then db else Apply(StoreAfter(db, os[..|os| - 1]), os[|os| - 1])
  }

  /** The texts of the lines before the first one that cannot be read. */
  function ReadableTexts(lines: seq<B.LineRead>): (texts: seq<string>)
    ensures |texts| <= |lines|
    ensures forall j :: 0 <= j < |texts| ==> lines[j] == B.Line(texts[j])
    ensures |texts| < |lines| ==> lines[|texts|].ReadError?
  {
    if lines == [] || lines[0].ReadError? then []
    else
      var rest := ReadableTexts(lines[1..]);
      assert forall j :: 1 <= j < |rest| + 1 ==> lines[j] == lines[1..][j - 1];
      [lines[0].text] + rest
  }

  /** The readable lines are determined by where the first unreadable one is. */
  lemma ReadableIs(lines: seq<B.LineRead>, texts: seq<string>)
    requires |texts| <= |lines|
    requires forall j :: 0 <= j < |texts| ==> lines[j] == B.Line(texts[j])
    requires |texts| < |lines| ==> lines[|texts|].ReadError?
    ensures ReadableTexts(lines) == texts
  {
    var r := ReadableTexts(lines);
    assert |r| == |texts|;
  }

  /** Nothing after a line that cannot be read is looked at. */
  lemma ReadErrorEndsRun(before: seq<B.LineRead>, after: seq<B.LineRead>)
    ensures ReadableTexts(before + [B.ReadError] + after) == ReadableTexts(before + [B.ReadError])
  {
    var r := ReadableTexts(before + [B.ReadError]);
    var all := before + [B.ReadError] + after;
    assert (before + [B.ReadError])[|before|] == B.ReadError;
    assert |r| <= |before|;
    forall j | 0 <= j < |r| ensures all[j] == B.Line(r[j]) {
      assert all[j] == (before + [B.ReadError])[j];
    }
    if |r| < |before| + 1 {
      assert all[|r|] == (before + [B.ReadError])[|r|];
    }
    ReadableIs(all, r);
  }

  /**
   * `import_jsonl_to_db`. `None` stands for a file that cannot be opened. The
   * counters are returned rather than printed.
   */
  method ImportJsonl(store: M.GalleryStore, lines: Option<seq<B.LineRead>>,
                     readJson: string -> Option<J.Json>, rejects: D.Gallery -> bool) returns (r: Result<Summary, string>)
    modifies store
    ensures lines.None? ==> r == Err("Failed to open file") && store.db == old(store.db)
    ensures lines.Some? ==>
      var texts := ReadableTexts(lines.value);
      && store.db == StoreAfter(old(store.db), Outcomes(texts, ClassifyWith(D.Parser(readJson), rejects)))
      && (r.Ok? <==> |texts| == |lines.value|)
      && (r.Ok? ==> r.value == Tally(texts, ClassifyWith(D.Parser(readJson), rejects)))
      && (r.Err? ==> r.error == "Failed to read line")
  {
    if lines.None? {
      return Err("Failed to open file");
    }
    var ls := lines.value;
    var success, errors, lineNumber := 0, 0, 0;
    ghost var classify := ClassifyWith(D.Parser(readJson), rejects);
    ghost var texts: seq<string> := [];
    ghost var db0 := store.db;
    var i := 0;
    while i < |ls|
      invariant 0 <= i <= |ls| && |texts| == i
      invariant forall j :: 0 <= j < i ==> ls[j] == B.Line(texts[j])
      invariant Summary(success, errors, lineNumber) == Tally(texts, classify)
      invariant store.db == StoreAfter(db0, Outcomes(texts, classify))
    {
      lineNumber := lineNumber + 1;
      if ls[i].ReadError? {
        ReadableIs(ls, texts);
        return Err("Failed to read line");
      }
      var text := ls[i].text;
      LineStep(db0, texts, text, classify, classify(text), success, errors, lineNumber);
      success, errors := ImportLine(store, text, D.Parser(readJson), rejects, success, errors);
      ReadStep(ls, texts, text);
      texts := texts + [text];
      i := i + 1;
    }
    ReadableIs(ls, texts);
    return Ok(Summary(success, errors, lineNumber));
  }

  /**
   * The body of the loop for a line that was read: skip it when blank,
   * otherwise parse it and insert the gallery, counting a success or an error.
   */
  method ImportLine(store: M.GalleryStore, text: string, parse: string -> Option<D.Gallery>, rejects: D.Gallery -> bool,
                    success: nat, errors: nat) returns (success': nat, errors': nat)
    modifies store
    ensures var o := ClassifyWith(parse, rejects)(text);
      && success' == success + (if o.Inserted? then 1 else 0)
      && errors' == errors + (if o.Inserted? || o.Blank? then 0 else 1)
      && store.db == Apply(old(store.db), o)
  {
    success', errors' := success, errors;
    ghost var db0 := store.db;
    TrimEmptyIffBlank(text);
    if Trim(text) == [] {
      return;
    }
    match parse(text)
    case None =>
      errors' := errors + 1;
    case Some(g) =>
      var res := store.InsertGallery(g, rejects(g));
      if res.Ok? {
        success' := success + 1;
      } else {
        errors' := errors + 1;
      }
  }

  /** One more line read: the counters and the committed galleries move on by that line's outcome. */
  lemma RunStep(texts: seq<string>, text: string, classify: string -> LineOutcome)
    ensures Tally(texts + [text], classify) == Count(Tally(texts, classify), classify(text))
    ensures InsertedGalleries(texts + [text], classify) == InsertedGalleries(texts, classify) + InsertedOf(classify(text))
    ensures Outcomes(texts + [text], classify) == Outcomes(texts, classify) + [classify(text)]
    ensures Blanks(texts + [text], classify) == Blanks(texts, classify) + if classify(text).Blank? then 1 else 0
  {
    var all := texts + [text];
    assert all[..|all| - 1] == texts;
  }

  /** The loop's bookkeeping for one more line read, whose outcome is `o`. */
  lemma LineStep(db0: M.Db, texts: seq<string>, text: string, classify: string -> LineOutcome, o: LineOutcome,
                 success: nat, errors: nat, lineNumber: nat)
    requires o == classify(text)
    requires 0 < lineNumber && Summary(success, errors, lineNumber - 1) == Tally(texts, classify)
    ensures Tally(texts + [text], classify)
      == Summary(success + (if o.Inserted? then 1 else 0), errors + (if o.Inserted? || o.Blank? then 0 else 1), lineNumber)
    ensures StoreAfter(db0, Outcomes(texts + [text], classify))
      == Apply(StoreAfter(db0, Outcomes(texts, classify)), o)
  {
    RunStep(texts, text, classify);
    StoreStep(db0, Outcomes(texts, classify), o);
    CountCases(Tally(texts, classify), o);
  }

  /** One more line read as `text`. */
  lemma ReadStep(ls: seq<B.LineRead>, texts: seq<string>, text: string)
    requires |texts| < |ls| && ls[|texts|] == B.Line(text)
    requires forall j :: 0 <= j < |texts| ==> ls[j] == B.Line(texts[j])
    ensures forall j :: 0 <= j < |texts| + 1 ==> ls[j] == B.Line((texts + [text])[j])
  {
  }

  /** The store after one more line is that line's step on the store before it. */
  lemma StoreStep(db: M.Db, os: seq<LineOutcome>, o: LineOutcome)
    ensures StoreAfter(db, os + [o]) == Apply(StoreAfter(db, os), o)
  {
    assert (os + [o])[..|os|] == os;
  }

  // ---------------------------------------------------------------------------
  // Properties of the counters and of the store
  // ---------------------------------------------------------------------------

  /**
   * Every line read is counted, blank ones included; each non-blank line counts
   * once as a success or once as an error, and the successes are the committed inserts.
   */
  lemma {:induction false} TallyBalance(texts: seq<string>, classify: string -> LineOutcome)
    ensures var t := Tally(texts, classify);
      && t.lineNumber == |texts|
      && t.success + t.errors + Blanks(texts, classify) == t.lineNumber
      && t.success == |InsertedGalleries(texts, classify)|
  {
    if texts != [] {
      var init := texts[..|texts| - 1];
      var o := classify(texts[|texts| - 1]);
      TallyBalance(init, classify);
      CountCases(Tally(init, classify), o);
    }
  }

  function Plus(a: Summary, b: Summary): Summary {
    Summary(a.success + b.success, a.errors + b.errors, a.lineNumber + b.lineNumber)
  }

  /** The counters of two runs of lines add up. */
  lemma {:induction false} TallyConcat(a: seq<string>, b: seq<string>, classify: string -> LineOutcome)
    ensures Tally(a + b, classify) == Plus(Tally(a, classify), Tally(b, classify))
    decreases |b|
  {
    if b == [] {
      assert a + b == a;
    } else {
      var b0 := b[..|b| - 1];
      var x := b[|b| - 1];
      assert a + b == (a + b0) + [x];
      RunStep(a + b0, x, classify);
      RunStep(b0, x, classify);
      TallyConcat(a, b0, classify);
      var ta := Tally(a, classify);
      var tb := Tally(b0, classify);
      CountCases(Plus(ta, tb), classify(x));
      CountCases(tb, classify(x));
      var l := Count(Plus(ta, tb), classify(x));
      var r := Plus(ta, Count(tb, classify(x)));
      assert l.success == r.success && l.errors == r.errors && l.lineNumber == r.lineNumber;
    }
  }

  /**
   * A blank line anywhere only moves `line_number` on (for the loop body's
   * decision, `Classify` says the blank lines are the whitespace-only ones).
   */
  lemma {:induction false} BlankLineOnlyCounted(before: seq<string>, blank: string, after: seq<string>, c: string -> LineOutcome)
    requires c(blank).Blank?
    ensures Tally(before + [blank] + after, c).success == Tally(before + after, c).success
    ensures Tally(before + [blank] + after, c).errors == Tally(before + after, c).errors
    ensures Tally(before + [blank] + after, c).lineNumber == Tally(before + after, c).lineNumber + 1
  {
    TallyConcat(before + [blank], after, c);
    TallyConcat(before, after, c);
    RunStep(before, blank, c);
  }

  /** One line keeps the store valid and every gallery key; only a committed insert adds or changes a row. */
  lemma ApplyHolds(db: M.Db, o: LineOutcome)
    requires M.ValidDb(db)
    ensures M.ValidDb(Apply(db, o))
    ensures o.Inserted? ==> o.gallery.galleryId in Apply(db, o).galleries
    ensures db.galleries.Keys <= Apply(db, o).galleries.Keys
    ensures !o.Inserted? ==> Apply(db, o).galleries == db.galleries
  {
    if o.Inserted? {
      M.InsertGalleryStores(db, o.gallery);
      M.InsertGalleryKeepsOthers(db, o.gallery);
    }
  }

  /**
   * After the run the store is still valid, every committed gallery has its row,
   * and rows stored before are kept by key; a rolled-back insert adds no row.
   */
  lemma {:induction false} StoreAfterHolds(db: M.Db, os: seq<LineOutcome>)
    requires M.ValidDb(db)
    ensures M.ValidDb(StoreAfter(db, os))
    ensures forall i :: 0 <= i < |os| && os[i].Inserted? ==> os[i].gallery.galleryId in StoreAfter(db, os).galleries
    ensures db.galleries.Keys <= StoreAfter(db, os).galleries.Keys
    ensures (forall i :: 0 <= i < |os| ==> !os[i].Inserted?) ==> StoreAfter(db, os).galleries == db.galleries
  {
    if os != [] {
      var init := os[..|os| - 1];
      var prev := StoreAfter(db, init);
      var o := os[|os| - 1];
      StoreAfterHolds(db, init);
      ApplyHolds(prev, o);
      assert StoreAfter(db, os) == Apply(prev, o);
      forall i | 0 <= i < |os| && os[i].Inserted? ensures os[i].gallery.galleryId in StoreAfter(db, os).galleries {
        if i < |os| - 1 {
          assert os[i] == init[i];
        }
      }
      if forall i :: 0 <= i < |os| ==> !os[i].Inserted? {
        assert forall i :: 0 <= i < |init| ==> init[i] == os[i];
      }
    }
  }
}
