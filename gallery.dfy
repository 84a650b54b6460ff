/**
 * The domain gallery record (`src/domain/gallery.rs`) and its JSON codec: the
 * serde rules of its derived `Deserialize` (required fields, `default`,
 * `DefaultOnNull`, renames and aliases) together with the two lenient adapters
 * `FlexibleBool` and `FlexibleString`, and the derived `Serialize`, which writes
 * plain strings, bools and numbers and `null` for an absent option.
 */
module DomainGallery {
  import opened Wrappers
  import opened Ints
  import opened Text
  import opened Json

  datatype File = File(
    name: string,
    hash: string,
    width: I32,
    height: I32,
    hasavif: bool,
    haswebp: bool,
    hasjxl: bool,
    single: bool)

  datatype Language = Language(name: string, localname: string, url: string, galleryid: string)

  datatype Artist = Artist(artist: string, url: string)
  datatype Group = Group(group: string, url: string)
  datatype Character = Character(character: string, url: string)
  datatype Parody = Parody(parody: string, url: string)

  datatype Tag = Tag(tag: string, url: string, male: bool, female: bool)

  datatype Gallery = Gallery(
    galleryId: I32,
    title: string,
    date: string,
    files: seq<File>,
    languages: seq<Language>,
    sceneIndexes: seq<I32>,
    galleryType: string,
    id: string,
    related: seq<string>,
    japaneseTitle: Option<string>,
    language: Option<string>,
    languageLocalname: Option<string>,
    languageUrl: Option<string>,
    video: Option<string>,
    videofilename: Option<string>,
    artists: seq<Artist>,
    groups: seq<Group>,
    characters: seq<Character>,
    parodies: seq<Parody>,
    tags: seq<Tag>,
    galleryUrl: Option<string>,
    datePublished: Option<string>,
    blocked: bool)

  // ---------------------------------------------------------------------------
  // The lenient adapters
  // ---------------------------------------------------------------------------

  /** `FlexibleBool`: a bool from a JSON bool, number or string; never an error. */
  function FlexibleBool(v: Json): (r: bool)
    ensures v.Bool? ==> r == v.b
    ensures v.Num? ==> (r <==> v.n == Int(1))
    ensures v.Str? ==> (r <==> v.s == "1" || ToLower(v.s) == "true")
    ensures v.Null? || v.Array? || v.Object? ==> !r
  {
    match v
    case Bool(b) => b
    case Num(n) => AsI64(n) == Some(1)
    case Str(s) => s == "1" || ToLower(s) == "true"
    case _ => false
  }

  /** The truth table on the values the adapter is meant to absorb. */
  lemma FlexibleBoolExamples()
    ensures FlexibleBool(Str("TRUE")) && FlexibleBool(Str("True")) && FlexibleBool(Str("1"))
    ensures !FlexibleBool(Str("0")) && !FlexibleBool(Str("yes")) && !FlexibleBool(Str(""))
    ensures FlexibleBool(Num(Int(1))) && !FlexibleBool(Num(Int(0))) && !FlexibleBool(Num(Int(2)))
    ensures !FlexibleBool(Num(Float("1")))
    ensures !FlexibleBool(Null) && !FlexibleBool(Array([Bool(true)]))
  {
    assert ToLower("TRUE") == "true";
    assert ToLower("True") == "true";
    assert ToLower("0") == "0";
    assert ToLower("yes") == "yes";
  }

  /** The serializer writes a plain bool, which the adapter reads back unchanged. */
  function EncodeBool(b: bool): Json {
    Bool(b)
  }

  /** `DefaultOnNull<FlexibleBool>` with `#[serde(default)]`: absent or null is `false`. */
  function FlagOrFalse(v: Option<Json>): (r: bool)
    ensures v.None? ==> !r
    ensures v.Some? ==> r == FlexibleBool(v.value)
  {
    if v.None? || v.value.Null? then false else FlexibleBool(v.value)
  }

  /** A required `FlexibleBool` field: only its absence is an error; null reads as `false`. */
  function RequiredFlag(v: Option<Json>, name: string): (r: Result<bool, string>)
    ensures r.Ok? <==> v.Some?
    ensures r.Ok? ==> r.value == FlexibleBool(v.value)
  {
    var x :- Required(v, name);
    Ok(FlexibleBool(x))
  }

  /**
   * `FlexibleString`: serde's untagged `Str | Int(i64) | Float(f64)`. A string is
   * kept, an `i64` becomes its decimal text, a float its display text; anything
   * else matches no variant.
   */
  function FlexibleString(v: Json): (r: Result<string, string>)
    ensures v.Str? ==> r == Ok(v.s)
    ensures v.Num? && v.n.Int? && I64_MIN <= v.n.i <= I64_MAX ==> r == Ok(IntToDecimal(v.n.i))
    ensures v.Num? && v.n.Float? ==> r == Ok(v.n.display)
    ensures v.Null? || v.Bool? || v.Array? || v.Object? ==> r.Err?
  {
    match v
    case Str(s) => Ok(s)
    case Num(n) =>
      (match AsI64(n)
       case Some(i) => Ok(IntToDecimal(i))
       case None =>
         if n.Float? then Ok(n.display)
         else Err("integer beyond i64 read as f64 is not part of this model"))
    case _ => Err("data did not match any variant of untagged enum StringOrInt")
  }

  /** An integer id read through `FlexibleString` is the decimal text of that same integer. */
  lemma FlexibleStringOfInt(i: int)
    requires I64_MIN <= i <= I64_MAX
    ensures FlexibleString(Num(Int(i))).Ok?
    ensures ParseInt(FlexibleString(Num(Int(i))).value) == Some(i)
  {
    IntDecimalRoundTrip(i);
  }

  /** An integer and its decimal string give the same field value. */
  lemma FlexibleStringIntOrText(i: int)
    requires I64_MIN <= i <= I64_MAX
    ensures FlexibleString(Num(Int(i))) == FlexibleString(Str(IntToDecimal(i)))
  {
  }

  /** The serializer writes the plain string, which `FlexibleString` reads back unchanged. */
  function EncodeString(s: string): Json {
    Str(s)
  }

  function EncodeI32(x: I32): Json {
    Num(Int(x))
  }

  // ---------------------------------------------------------------------------
  // Field helpers
  // ---------------------------------------------------------------------------

  /** The field is present and a JSON string. */
  predicate StringField(f: Fields, name: string) {
    name in f && f[name].Str?
  }

  function RequiredString(f: Fields, name: string): (r: Result<string, string>)
    ensures r.Ok? <==> name in f && f[name].Str?
    ensures r.Ok? ==> r.value == f[name].s
  {
    var v :- Required(Get(f, name), name);
    DecodeString(v)
  }

  function RequiredI32(f: Fields, name: string): (r: Result<I32, string>)
    ensures r.Ok? <==> name in f && DecodeI32(f[name]).Ok?
    ensures r.Ok? ==> r.value == f[name].n.i
  {
    var v :- Required(Get(f, name), name);
    DecodeI32(v)
  }

  /** A `Vec<T>` field without a default. */
  function RequiredVec<T>(f: Fields, name: string, elem: Json -> Result<T, string>): (r: Result<seq<T>, string>)
    ensures name !in f ==> r.Err?
    ensures name in f ==> r == DecodeVec(f[name], elem)
  {
    var v :- Required(Get(f, name), name);
    DecodeVec(v, elem)
  }

  // ---------------------------------------------------------------------------
  // Sub-records
  // ---------------------------------------------------------------------------

  function DecodeFile(v: Json): (r: Result<File, string>)
    ensures r.Ok? ==> v.Object? && "hasavif" in v.fields
    ensures r.Ok? <==>
      && v.Object? && "name" in v.fields && v.fields["name"].Str? && "hash" in v.fields && v.fields["hash"].Str?
      && "width" in v.fields && DecodeI32(v.fields["width"]).Ok?
      && "height" in v.fields && DecodeI32(v.fields["height"]).Ok? && "hasavif" in v.fields
    ensures r.Ok? ==> var f, x := v.fields, r.value;
      && x.name == f["name"].s && x.hash == f["hash"].s && x.width == f["width"].n.i && x.height == f["height"].n.i
      && x.hasavif == FlexibleBool(f["hasavif"]) && x.haswebp == FlagOrFalse(Get(f, "haswebp"))
      && x.hasjxl == FlagOrFalse(Get(f, "hasjxl")) && x.single == FlagOrFalse(Get(f, "single"))
  {
    if !v.Object? then Err("invalid type: expected struct File")
    else
      var f := v.fields;
      var name :- RequiredString(f, "name");
      var hash :- RequiredString(f, "hash");
      var width :- RequiredI32(f, "width");
      var height :- RequiredI32(f, "height");
      var hasavif :- RequiredFlag(Get(f, "hasavif"), "hasavif");
      Ok(File(name, hash, width, height, hasavif,
              FlagOrFalse(Get(f, "haswebp")), FlagOrFalse(Get(f, "hasjxl")), FlagOrFalse(Get(f, "single"))))
  }

  function EncodeFile(x: File): Json {
    Object(map[
      "name" := Str(x.name), "hash" := Str(x.hash),
      "width" := EncodeI32(x.width), "height" := EncodeI32(x.height),
      "hasavif" := EncodeBool(x.hasavif), "haswebp" := EncodeBool(x.haswebp),
      "hasjxl" := EncodeBool(x.hasjxl), "single" := EncodeBool(x.single)])
  }

  lemma FileRoundTrip(x: File)
    ensures DecodeFile(EncodeFile(x)) == Ok(x)
  {
  }

  /** Without the flags that have a default, a file reads them as `false`; `hasavif` is required. */
  lemma FileFlagDefaults(name: string, hash: string, w: I32, h: I32, avif: Json)
    ensures DecodeFile(Object(map["name" := Str(name), "hash" := Str(hash), "width" := Num(Int(w)), "height" := Num(Int(h)), "hasavif" := avif]))
      == Ok(File(name, hash, w, h, FlexibleBool(avif), false, false, false))
    ensures DecodeFile(Object(map["name" := Str(name), "hash" := Str(hash), "width" := Num(Int(w)), "height" := Num(Int(h))])).Err?
  {
    var f := map["name" := Str(name), "hash" := Str(hash), "width" := Num(Int(w)), "height" := Num(Int(h)), "hasavif" := avif];
    assert "haswebp" !in f && "hasjxl" !in f && "single" !in f;
  }

  function DecodeLanguage(v: Json): (r: Result<Language, string>)
    ensures r.Ok? ==> v.Object? && "galleryid" in v.fields
    ensures r.Ok? ==> FlexibleString(v.fields["galleryid"]) == Ok(r.value.galleryid)
    ensures r.Ok? <==>
      && v.Object? && StringField(v.fields, "name") && StringField(v.fields, "language_localname")
      && StringField(v.fields, "url") && "galleryid" in v.fields && FlexibleString(v.fields["galleryid"]).Ok?
    ensures r.Ok? ==>
      && r.value.name == v.fields["name"].s && r.value.localname == v.fields["language_localname"].s
      && r.value.url == v.fields["url"].s
  {
    if !v.Object? then Err("invalid type: expected struct Language")
    else
      var f := v.fields;
      var name :- RequiredString(f, "name");
      var localname :- RequiredString(f, "language_localname");
      var url :- RequiredString(f, "url");
      var gv :- Required(Get(f, "galleryid"), "galleryid");
      var galleryid :- FlexibleString(gv);
      Ok(Language(name, localname, url, galleryid))
  }

  function EncodeLanguage(x: Language): Json {
    Object(map[
      "name" := Str(x.name), "language_localname" := Str(x.localname),
      "url" := Str(x.url), "galleryid" := EncodeString(x.galleryid)])
  }

  lemma LanguageRoundTrip(x: Language)
    ensures DecodeLanguage(EncodeLanguage(x)) == Ok(x)
  {
  }

  function DecodeArtist(v: Json): (r: Result<Artist, string>)
    ensures r.Ok? <==> v.Object? && StringField(v.fields, "artist") && StringField(v.fields, "url")
    ensures r.Ok? ==> r.value.artist == v.fields["artist"].s && r.value.url == v.fields["url"].s
  {
    if !v.Object? then Err("invalid type: expected struct Artist")
    else
      var artist :- RequiredString(v.fields, "artist");
      var url :- RequiredString(v.fields, "url");
      Ok(Artist(artist, url))
  }

  function EncodeArtist(x: Artist): Json {
    Object(map["artist" := Str(x.artist), "url" := Str(x.url)])
  }

  function DecodeGroup(v: Json): (r: Result<Group, string>)
    ensures r.Ok? <==> v.Object? && StringField(v.fields, "group") && StringField(v.fields, "url")
    ensures r.Ok? ==> r.value.group == v.fields["group"].s && r.value.url == v.fields["url"].s
  {
    if !v.Object? then Err("invalid type: expected struct Group")
    else
      var group :- RequiredString(v.fields, "group");
      var url :- RequiredString(v.fields, "url");
      Ok(Group(group, url))
  }

  function EncodeGroup(x: Group): Json {
    Object(map["group" := Str(x.group), "url" := Str(x.url)])
  }

  function DecodeCharacter(v: Json): (r: Result<Character, string>)
    ensures r.Ok? <==> v.Object? && StringField(v.fields, "character") && StringField(v.fields, "url")
    ensures r.Ok? ==> r.value.character == v.fields["character"].s && r.value.url == v.fields["url"].s
  {
    if !v.Object? then Err("invalid type: expected struct Character")
    else
      var character :- RequiredString(v.fields, "character");
      var url :- RequiredString(v.fields, "url");
      Ok(Character(character, url))
  }

  function EncodeCharacter(x: Character): Json {
    Object(map["character" := Str(x.character), "url" := Str(x.url)])
  }

  function DecodeParody(v: Json): (r: Result<Parody, string>)
    ensures r.Ok? <==> v.Object? && StringField(v.fields, "parody") && StringField(v.fields, "url")
    ensures r.Ok? ==> r.value.parody == v.fields["parody"].s && r.value.url == v.fields["url"].s
  {
    if !v.Object? then Err("invalid type: expected struct Parody")
    else
      var parody :- RequiredString(v.fields, "parody");
      var url :- RequiredString(v.fields, "url");
      Ok(Parody(parody, url))
  }

  function EncodeParody(x: Parody): Json {
    Object(map["parody" := Str(x.parody), "url" := Str(x.url)])
  }

  function DecodeTag(v: Json): (r: Result<Tag, string>)
    ensures r.Ok? ==> v.Object?
    ensures r.Ok? ==> r.value.male == FlagOrFalse(Get(v.fields, "male"))
    ensures r.Ok? ==> r.value.female == FlagOrFalse(Get(v.fields, "female"))
    ensures r.Ok? <==> v.Object? && StringField(v.fields, "tag") && StringField(v.fields, "url")
    ensures r.Ok? ==> r.value.tag == v.fields["tag"].s && r.value.url == v.fields["url"].s
  {
    if !v.Object? then Err("invalid type: expected struct Tag")
    else
      var f := v.fields;
      var tag :- RequiredString(f, "tag");
      var url :- RequiredString(f, "url");
      Ok(Tag(tag, url, FlagOrFalse(Get(f, "male")), FlagOrFalse(Get(f, "female"))))
  }

  function EncodeTag(x: Tag): Json {
    Object(map["tag" := Str(x.tag), "url" := Str(x.url), "male" := EncodeBool(x.male), "female" := EncodeBool(x.female)])
  }

  /** Each named-record codec reads back what it writes. */
  lemma RecordRoundTrips(a: Artist, g: Group, c: Character, p: Parody)
    ensures DecodeArtist(EncodeArtist(a)) == Ok(a)
    ensures DecodeGroup(EncodeGroup(g)) == Ok(g)
    ensures DecodeCharacter(EncodeCharacter(c)) == Ok(c)
    ensures DecodeParody(EncodeParody(p)) == Ok(p)
  {
  }

  lemma TagRoundTrip(t: Tag)
    ensures DecodeTag(EncodeTag(t)) == Ok(t)
  {
  }

  // ---------------------------------------------------------------------------
  // The gallery record
  // ---------------------------------------------------------------------------

  /**
   * `Deserialize for Gallery`. The fields are read in declaration order, in four
   * stages (the required fields, the optional texts, the named collections and
   * the trailing optional fields); any failing field fails the whole record.
   */
  function DecodeGallery(v: Json): (r: Result<Gallery, string>)
    ensures r.Ok? ==> v.Object?
  {
    if !v.Object? then Err("invalid type: expected struct Gallery")
    else
      var f := v.fields;
      var g0 :- DecodeRequired(f);
      var g1 :- DecodeTexts(f, g0);
      var g2 :- DecodeCollections(f, g1);
      DecodeTrailing(f, g2)
  }

  /**
   * `serde_json::from_str::<Gallery>`: the JSON text parser `readJson`, whose
   * syntax is not part of this model, then the field rules of `DecodeGallery`.
   */
  function ParseGallery(readJson: string -> Option<Json>, text: string): (r: Option<Gallery>)
    ensures r.Some? <==> readJson(text).Some? && DecodeGallery(readJson(text).value).Ok?
    ensures r.Some? ==> DecodeGallery(readJson(text).value) == Ok(r.value)
  {
    match readJson(text)
    case None => None
    case Some(v) => if DecodeGallery(v).Ok? then Some(DecodeGallery(v).value) else None
  }

  /** `ParseGallery` over the text parser `readJson`, as a function of the text. */
  function Parser(readJson: string -> Option<Json>): string -> Option<Gallery> {
    t => ParseGallery(readJson, t)
  }

  /** The nine fields without a default; the rest are left at their defaults for the later stages. */
  function DecodeRequired(f: Fields): Result<Gallery, string> {
    var galleryId :- RequiredI32(f, "gallery_id");
    var title :- RequiredString(f, "title");
    var date :- RequiredString(f, "date");
    var files :- RequiredVec(f, "files", DecodeFile);
    var languages :- RequiredVec(f, "languages", DecodeLanguage);
    var sceneIndexes :- RequiredVec(f, "scene_indexes", DecodeI32);
    var galleryType :- RequiredString(f, "type");
    var idV :- Required(Get(f, "id"), "id");
    var id :- FlexibleString(idV);
    var related :- RequiredVec(f, "related", FlexibleString);
    Ok(Gallery(galleryId, title, date, files, languages, sceneIndexes, galleryType, id, related,
               None, None, None, None, None, None, [], [], [], [], [], None, None, false))
  }

  /** The six `Option<String>` fields with `#[serde(default)]`. */
  function DecodeTexts(f: Fields, g: Gallery): Result<Gallery, string> {
    var japaneseTitle :- DecodeOptionString(Get(f, "japanese_title"));
    var language :- DecodeOptionString(Get(f, "language"));
    var languageLocalname :- DecodeOptionString(Get(f, "language_localname"));
    var languageUrl :- DecodeOptionString(Get(f, "language_url"));
    var video :- DecodeOptionString(Get(f, "video"));
    var videofilename :- DecodeOptionString(Get(f, "videofilename"));
    Ok(g.(japaneseTitle := japaneseTitle, language := language, languageLocalname := languageLocalname,
          languageUrl := languageUrl, video := video, videofilename := videofilename))
  }

  /** The five `DefaultOnNull` collections; `parodies` also answers to `parodys`. */
  function DecodeCollections(f: Fields, g: Gallery): Result<Gallery, string> {
    var artists :- DecodeVecDefaultOnNull(Get(f, "artists"), DecodeArtist);
    var groups :- DecodeVecDefaultOnNull(Get(f, "groups"), DecodeGroup);
    var characters :- DecodeVecDefaultOnNull(Get(f, "characters"), DecodeCharacter);
    var parodiesV :- GetAliased(f, "parodies", "parodys");
    var parodies :- DecodeVecDefaultOnNull(parodiesV, DecodeParody);
    var tags :- DecodeVecDefaultOnNull(Get(f, "tags"), DecodeTag);
    Ok(g.(artists := artists, groups := groups, characters := characters, parodies := parodies, tags := tags))
  }

  /** `gallery_url` (alias `galleryurl`), `date_published` (alias `datepublished`) and `blocked`. */
  function DecodeTrailing(f: Fields, g: Gallery): Result<Gallery, string> {
    var galleryUrlV :- GetAliased(f, "gallery_url", "galleryurl");
    var galleryUrl :- DecodeOptionString(galleryUrlV);
    var datePublishedV :- GetAliased(f, "date_published", "datepublished");
    var datePublished :- DecodeOptionString(datePublishedV);
    Ok(g.(galleryUrl := galleryUrl, datePublished := datePublished, blocked := FlagOrFalse(Get(f, "blocked"))))
  }

  /** The derived `Serialize for Gallery`: every field under its renamed key, `None` as null. */
  function EncodeGallery(g: Gallery): Json {
    Object(map[
      "gallery_id" := EncodeI32(g.galleryId),
      "title" := Str(g.title),
      "date" := Str(g.date),
      "files" := EncodeArray(g.files, EncodeFile),
      "languages" := EncodeArray(g.languages, EncodeLanguage),
      "scene_indexes" := EncodeArray(g.sceneIndexes, EncodeI32),
      "type" := Str(g.galleryType),
      "id" := EncodeString(g.id),
      "related" := EncodeArray(g.related, EncodeString),
      "japanese_title" := EncodeOptionString(g.japaneseTitle),
      "language" := EncodeOptionString(g.language),
      "language_localname" := EncodeOptionString(g.languageLocalname),
      "language_url" := EncodeOptionString(g.languageUrl),
      "video" := EncodeOptionString(g.video),
      "videofilename" := EncodeOptionString(g.videofilename),
      "artists" := EncodeArray(g.artists, EncodeArtist),
      "groups" := EncodeArray(g.groups, EncodeGroup),
      "characters" := EncodeArray(g.characters, EncodeCharacter),
      "parodies" := EncodeArray(g.parodies, EncodeParody),
      "tags" := EncodeArray(g.tags, EncodeTag),
      "gallery_url" := EncodeOptionString(g.galleryUrl),
      "date_published" := EncodeOptionString(g.datePublished),
      "blocked" := EncodeBool(g.blocked)])
  }

  /** Every record the serializer writes is read back as the same record. */
  lemma GalleryRoundTrip(g: Gallery)
    ensures DecodeGallery(EncodeGallery(g)) == Ok(g)
  {
    var f := EncodeGallery(g).fields;
    EncodedRequiredFields(g);
    EncodedTextFields(g);
    EncodedCollectionFields(g);
    EncodedTrailingFields(g);
    DecodeFromFields(f, g);
  }

  lemma EncodedRequiredFields(g: Gallery)
    ensures RequiredFieldsHold(EncodeGallery(g).fields, g)
  {
    FileArraysRoundTrip(g.files, g.languages);
    ArrayRoundTrip(g.sceneIndexes, EncodeI32, DecodeI32);
    ArrayRoundTrip(g.related, EncodeString, FlexibleString);
    ScalarLookups(g);
    FilesLookup(g);
    LanguagesLookup(g);
    RequiredLookupsRest(g);
    RelatedLookup(g);
    RequiredFromEncoded(EncodeGallery(g).fields, g);
  }

  /** The required fields hold of any object whose lookups give the encoder's values. */
  lemma RequiredFromEncoded(f: Fields, g: Gallery)
    requires Get(f, "gallery_id") == Some(EncodeI32(g.galleryId))
    requires Get(f, "title") == Some(Str(g.title)) && Get(f, "date") == Some(Str(g.date))
    requires Get(f, "files") == Some(EncodeArray(g.files, EncodeFile))
    requires Get(f, "languages") == Some(EncodeArray(g.languages, EncodeLanguage))
    requires Get(f, "scene_indexes") == Some(EncodeArray(g.sceneIndexes, EncodeI32))
    requires Get(f, "type") == Some(Str(g.galleryType)) && Get(f, "id") == Some(EncodeString(g.id))
    requires Get(f, "related") == Some(EncodeArray(g.related, EncodeString))
    requires DecodeVec(EncodeArray(g.files, EncodeFile), DecodeFile) == Ok(g.files)
    requires DecodeVec(EncodeArray(g.languages, EncodeLanguage), DecodeLanguage) == Ok(g.languages)
    requires DecodeVec(EncodeArray(g.sceneIndexes, EncodeI32), DecodeI32) == Ok(g.sceneIndexes)
    requires DecodeVec(EncodeArray(g.related, EncodeString), FlexibleString) == Ok(g.related)
    ensures RequiredFieldsHold(f, g)
  {
    assert DecodeI32(f["gallery_id"]) == Ok(g.galleryId);
    assert FlexibleString(f["id"]) == Ok(g.id);
    assert DecodeVec(f["files"], DecodeFile) == Ok(g.files);
    assert DecodeVec(f["languages"], DecodeLanguage) == Ok(g.languages);
    assert DecodeVec(f["scene_indexes"], DecodeI32) == Ok(g.sceneIndexes);
    assert DecodeVec(f["related"], FlexibleString) == Ok(g.related);
  }

  // The lookups into the serialized object, a few per lemma to keep each proof small.

  lemma ScalarLookups(g: Gallery)
    ensures Get(EncodeGallery(g).fields, "gallery_id") == Some(EncodeI32(g.galleryId))
    ensures Get(EncodeGallery(g).fields, "title") == Some(Str(g.title))
    ensures Get(EncodeGallery(g).fields, "date") == Some(Str(g.date))
  {
    IdLookup(g);
    TitleLookup(g);
  }

  lemma IdLookup(g: Gallery)
    ensures Get(EncodeGallery(g).fields, "gallery_id") == Some(EncodeI32(g.galleryId))
  {
  }

  lemma TitleLookup(g: Gallery)
    ensures Get(EncodeGallery(g).fields, "title") == Some(Str(g.title))
  {
  }

  lemma FilesLookup(g: Gallery)
    ensures Get(EncodeGallery(g).fields, "files") == Some(EncodeArray(g.files, EncodeFile))
  {
  }

  lemma LanguagesLookup(g: Gallery)
    ensures Get(EncodeGallery(g).fields, "languages") == Some(EncodeArray(g.languages, EncodeLanguage))
  {
  }

  lemma RequiredLookupsRest(g: Gallery)
    ensures Get(EncodeGallery(g).fields, "scene_indexes") == Some(EncodeArray(g.sceneIndexes, EncodeI32))
    ensures Get(EncodeGallery(g).fields, "type") == Some(Str(g.galleryType))
    ensures Get(EncodeGallery(g).fields, "id") == Some(EncodeString(g.id))
  {
  }

  lemma RelatedLookup(g: Gallery)
    ensures Get(EncodeGallery(g).fields, "related") == Some(EncodeArray(g.related, EncodeString))
  {
  }

  lemma FileArraysRoundTrip(files: seq<File>, languages: seq<Language>)
    ensures DecodeVec(EncodeArray(files, EncodeFile), DecodeFile) == Ok(files)
    ensures DecodeVec(EncodeArray(languages, EncodeLanguage), DecodeLanguage) == Ok(languages)
  {
    forall x: File ensures DecodeFile(EncodeFile(x)) == Ok(x) {
      FileRoundTrip(x);
    }
    forall x: Language ensures DecodeLanguage(EncodeLanguage(x)) == Ok(x) {
      LanguageRoundTrip(x);
    }
    ArrayRoundTrip(files, EncodeFile, DecodeFile);
    ArrayRoundTrip(languages, EncodeLanguage, DecodeLanguage);
  }

  lemma EncodedTextFields(g: Gallery)
    ensures TextFieldsHold(EncodeGallery(g).fields, g)
  {
    var f := EncodeGallery(g).fields;
    OptionStringRoundTrip(g.japaneseTitle);
    OptionStringRoundTrip(g.language);
    OptionStringRoundTrip(g.languageLocalname);
    OptionStringRoundTrip(g.languageUrl);
    OptionStringRoundTrip(g.video);
    OptionStringRoundTrip(g.videofilename);
    TextLookups(g);
    TextLookupsRest(g);
  }

  lemma TextLookups(g: Gallery)
    ensures Get(EncodeGallery(g).fields, "japanese_title") == Some(EncodeOptionString(g.japaneseTitle))
    ensures Get(EncodeGallery(g).fields, "language") == Some(EncodeOptionString(g.language))
    ensures Get(EncodeGallery(g).fields, "language_localname") == Some(EncodeOptionString(g.languageLocalname))
  {
  }

  lemma TextLookupsRest(g: Gallery)
    ensures Get(EncodeGallery(g).fields, "language_url") == Some(EncodeOptionString(g.languageUrl))
    ensures Get(EncodeGallery(g).fields, "video") == Some(EncodeOptionString(g.video))
    ensures Get(EncodeGallery(g).fields, "videofilename") == Some(EncodeOptionString(g.videofilename))
  {
  }

  lemma EncodedCollectionFields(g: Gallery)
    ensures CollectionFieldsHold(EncodeGallery(g).fields, g)
  {
    NamedArraysRoundTrip(g.artists, g.groups, g.characters, g.parodies, g.tags);
    CollectionLookups(g);
    CollectionLookupsRest(g);
  }

  lemma CollectionLookups(g: Gallery)
    ensures Get(EncodeGallery(g).fields, "artists") == Some(EncodeArray(g.artists, EncodeArtist))
    ensures Get(EncodeGallery(g).fields, "groups") == Some(EncodeArray(g.groups, EncodeGroup))
    ensures Get(EncodeGallery(g).fields, "characters") == Some(EncodeArray(g.characters, EncodeCharacter))
  {
  }

  lemma CollectionLookupsRest(g: Gallery)
    ensures "parodys" !in EncodeGallery(g).fields
    ensures Get(EncodeGallery(g).fields, "parodies") == Some(EncodeArray(g.parodies, EncodeParody))
    ensures Get(EncodeGallery(g).fields, "tags") == Some(EncodeArray(g.tags, EncodeTag))
  {
  }

  lemma NamedArraysRoundTrip(a: seq<Artist>, gr: seq<Group>, c: seq<Character>, p: seq<Parody>, t: seq<Tag>)
    ensures DecodeVec(EncodeArray(a, EncodeArtist), DecodeArtist) == Ok(a)
    ensures DecodeVec(EncodeArray(gr, EncodeGroup), DecodeGroup) == Ok(gr)
    ensures DecodeVec(EncodeArray(c, EncodeCharacter), DecodeCharacter) == Ok(c)
    ensures DecodeVec(EncodeArray(p, EncodeParody), DecodeParody) == Ok(p)
    ensures DecodeVec(EncodeArray(t, EncodeTag), DecodeTag) == Ok(t)
  {
    forall x: Artist ensures DecodeArtist(EncodeArtist(x)) == Ok(x) { }
    forall x: Group ensures DecodeGroup(EncodeGroup(x)) == Ok(x) { }
    forall x: Character ensures DecodeCharacter(EncodeCharacter(x)) == Ok(x) { }
    forall x: Parody ensures DecodeParody(EncodeParody(x)) == Ok(x) { }
    forall x: Tag ensures DecodeTag(EncodeTag(x)) == Ok(x) { }
    ArrayRoundTrip(a, EncodeArtist, DecodeArtist);
    ArrayRoundTrip(gr, EncodeGroup, DecodeGroup);
    ArrayRoundTrip(c, EncodeCharacter, DecodeCharacter);
    ArrayRoundTrip(p, EncodeParody, DecodeParody);
    ArrayRoundTrip(t, EncodeTag, DecodeTag);
  }

  lemma EncodedTrailingFields(g: Gallery)
    ensures TrailingFieldsHold(EncodeGallery(g).fields, g)
  {
    var f := EncodeGallery(g).fields;
    OptionStringRoundTrip(g.galleryUrl);
    OptionStringRoundTrip(g.datePublished);
    TrailingLookups(g);
  }

  lemma TrailingLookups(g: Gallery)
    ensures "galleryurl" !in EncodeGallery(g).fields && "datepublished" !in EncodeGallery(g).fields
    ensures Get(EncodeGallery(g).fields, "gallery_url") == Some(EncodeOptionString(g.galleryUrl))
    ensures Get(EncodeGallery(g).fields, "date_published") == Some(EncodeOptionString(g.datePublished))
    ensures Get(EncodeGallery(g).fields, "blocked") == Some(EncodeBool(g.blocked))
  {
  }

  /**
   * An object is read as the record `g` when each field, under its primary name
   * or its alias, holds a value that reads as the matching part of `g`.
   */
  lemma DecodeFromFields(f: Fields, g: Gallery)
    requires RequiredFieldsHold(f, g) && TextFieldsHold(f, g)
    requires CollectionFieldsHold(f, g) && TrailingFieldsHold(f, g)
    ensures DecodeGallery(Object(f)) == Ok(g)
  {
    var g0 := RequiredFromFields(f, g);
    var g1 := TextsFromFields(f, g, g0);
    var g2 := CollectionsFromFields(f, g, g1);
    TrailingFromFields(f, g, g2);
  }

  /**
   * The converse of `DecodeFromFields`: a gallery decoded from an object is one
   * that every field of the object, under its name or alias, reads as.
   */
  lemma {:induction false} FieldsOfDecoded(f: Fields)
    requires DecodeGallery(Object(f)).Ok?
    ensures var g := DecodeGallery(Object(f)).value;
      && RequiredFieldsHold(f, g) && TextFieldsHold(f, g)
      && CollectionFieldsHold(f, g) && TrailingFieldsHold(f, g)
  {
    var g0 := DecodeRequired(f).value;
    var g1 := DecodeTexts(f, g0).value;
    var g2 := DecodeCollections(f, g1).value;
    var g3 := DecodeTrailing(f, g2).value;
    assert DecodeGallery(Object(f)) == Ok(g3);
    RequiredOfDecoded(f);
    TextsOfDecoded(f, g0);
    CollectionsOfDecoded(f, g1);
    TrailingOfDecoded(f, g2);
    RequiredFieldsKept(f, g0, g3);
    assert TextFieldsHold(f, g2);
  }

  /** `RequiredFieldsHold` looks only at the nine required fields. */
  lemma RequiredFieldsKept(f: Fields, g: Gallery, h: Gallery)
    requires RequiredFieldsHold(f, g)
    requires h.galleryId == g.galleryId && h.title == g.title && h.date == g.date && h.files == g.files
    requires h.languages == g.languages && h.sceneIndexes == g.sceneIndexes && h.galleryType == g.galleryType
    requires h.id == g.id && h.related == g.related
    ensures RequiredFieldsHold(f, h)
  {
  }

  lemma TextsOfDecoded(f: Fields, g: Gallery)
    requires DecodeTexts(f, g).Ok?
    ensures var h := DecodeTexts(f, g).value;
      && TextFieldsHold(f, h)
      && h == g.(japaneseTitle := h.japaneseTitle, language := h.language, languageLocalname := h.languageLocalname,
                 languageUrl := h.languageUrl, video := h.video, videofilename := h.videofilename)
  {
  }

  lemma CollectionsOfDecoded(f: Fields, g: Gallery)
    requires DecodeCollections(f, g).Ok?
    ensures var h := DecodeCollections(f, g).value;
      && CollectionFieldsHold(f, h)
      && h == g.(artists := h.artists, groups := h.groups, characters := h.characters, parodies := h.parodies, tags := h.tags)
  {
  }

  lemma TrailingOfDecoded(f: Fields, g: Gallery)
    requires DecodeTrailing(f, g).Ok?
    ensures var h := DecodeTrailing(f, g).value;
      && TrailingFieldsHold(f, h)
      && h == g.(galleryUrl := h.galleryUrl, datePublished := h.datePublished, blocked := h.blocked)
  {
  }

  lemma RequiredOfDecoded(f: Fields)
    requires DecodeRequired(f).Ok?
    ensures RequiredFieldsHold(f, DecodeRequired(f).value)
  {
  }

  predicate RequiredFieldsHold(f: Fields, g: Gallery) {
    && "gallery_id" in f && DecodeI32(f["gallery_id"]) == Ok(g.galleryId)
    && "title" in f && f["title"] == Str(g.title)
    && "date" in f && f["date"] == Str(g.date)
    && "files" in f && DecodeVec(f["files"], DecodeFile) == Ok(g.files)
    && "languages" in f && DecodeVec(f["languages"], DecodeLanguage) == Ok(g.languages)
    && "scene_indexes" in f && DecodeVec(f["scene_indexes"], DecodeI32) == Ok(g.sceneIndexes)
    && "type" in f && f["type"] == Str(g.galleryType)
    && "id" in f && FlexibleString(f["id"]) == Ok(g.id)
    && "related" in f && DecodeVec(f["related"], FlexibleString) == Ok(g.related)
  }

  predicate TextFieldsHold(f: Fields, g: Gallery) {
    && DecodeOptionString(Get(f, "japanese_title")) == Ok(g.japaneseTitle)
    && DecodeOptionString(Get(f, "language")) == Ok(g.language)
    && DecodeOptionString(Get(f, "language_localname")) == Ok(g.languageLocalname)
    && DecodeOptionString(Get(f, "language_url")) == Ok(g.languageUrl)
    && DecodeOptionString(Get(f, "video")) == Ok(g.video)
    && DecodeOptionString(Get(f, "videofilename")) == Ok(g.videofilename)
  }

  predicate CollectionFieldsHold(f: Fields, g: Gallery) {
    && DecodeVecDefaultOnNull(Get(f, "artists"), DecodeArtist) == Ok(g.artists)
    && DecodeVecDefaultOnNull(Get(f, "groups"), DecodeGroup) == Ok(g.groups)
    && DecodeVecDefaultOnNull(Get(f, "characters"), DecodeCharacter) == Ok(g.characters)
    && GetAliased(f, "parodies", "parodys").Ok?
    && DecodeVecDefaultOnNull(GetAliased(f, "parodies", "parodys").value, DecodeParody) == Ok(g.parodies)
    && DecodeVecDefaultOnNull(Get(f, "tags"), DecodeTag) == Ok(g.tags)
  }

  predicate TrailingFieldsHold(f: Fields, g: Gallery) {
    && GetAliased(f, "gallery_url", "galleryurl").Ok?
    && DecodeOptionString(GetAliased(f, "gallery_url", "galleryurl").value) == Ok(g.galleryUrl)
    && GetAliased(f, "date_published", "datepublished").Ok?
    && DecodeOptionString(GetAliased(f, "date_published", "datepublished").value) == Ok(g.datePublished)
    && FlagOrFalse(Get(f, "blocked")) == g.blocked
  }

  lemma RequiredFromFields(f: Fields, g: Gallery) returns (g0: Gallery)
    requires RequiredFieldsHold(f, g)
    ensures DecodeRequired(f) == Ok(g0)
    ensures g0 == Gallery(g.galleryId, g.title, g.date, g.files, g.languages, g.sceneIndexes, g.galleryType, g.id, g.related,
                          None, None, None, None, None, None, [], [], [], [], [], None, None, false)
  {
    g0 := Gallery(g.galleryId, g.title, g.date, g.files, g.languages, g.sceneIndexes, g.galleryType, g.id, g.related,
                  None, None, None, None, None, None, [], [], [], [], [], None, None, false);
  }

  lemma TextsFromFields(f: Fields, g: Gallery, h: Gallery) returns (h1: Gallery)
    requires TextFieldsHold(f, g)
    ensures DecodeTexts(f, h) == Ok(h1)
    ensures h1 == h.(japaneseTitle := g.japaneseTitle, language := g.language, languageLocalname := g.languageLocalname,
                     languageUrl := g.languageUrl, video := g.video, videofilename := g.videofilename)
  {
    h1 := h.(japaneseTitle := g.japaneseTitle, language := g.language, languageLocalname := g.languageLocalname,
             languageUrl := g.languageUrl, video := g.video, videofilename := g.videofilename);
  }

  lemma CollectionsFromFields(f: Fields, g: Gallery, h: Gallery) returns (h1: Gallery)
    requires CollectionFieldsHold(f, g)
    ensures DecodeCollections(f, h) == Ok(h1)
    ensures h1 == h.(artists := g.artists, groups := g.groups, characters := g.characters, parodies := g.parodies, tags := g.tags)
  {
    h1 := h.(artists := g.artists, groups := g.groups, characters := g.characters, parodies := g.parodies, tags := g.tags);
  }

  lemma TrailingFromFields(f: Fields, g: Gallery, h: Gallery)
    requires TrailingFieldsHold(f, g)
    ensures DecodeTrailing(f, h) == Ok(h.(galleryUrl := g.galleryUrl, datePublished := g.datePublished, blocked := g.blocked))
  {
  }

  // ---------------------------------------------------------------------------
  // Field rules
  // ---------------------------------------------------------------------------

  const REQUIRED_FIELDS: seq<string> :=
    ["gallery_id", "title", "date", "files", "languages", "scene_indexes", "type", "id", "related"]

  /** Each of the nine fields without a default must be present. */
  lemma MissingRequiredField(f: Fields, k: nat)
    requires k < |REQUIRED_FIELDS| && REQUIRED_FIELDS[k] !in f
    ensures DecodeGallery(Object(f)).Err?
  {
    assert DecodeRequired(f).Err?;
  }

  /** A collection that is absent or null reads as empty; an absent option reads as `None`; an absent `blocked` as `false`. */
  lemma AbsentFieldsDefault(f: Fields)
    requires DecodeGallery(Object(f)).Ok?
    ensures var g := DecodeGallery(Object(f)).value;
      && (Get(f, "artists").None? || f["artists"].Null? ==> g.artists == [])
      && (Get(f, "groups").None? || f["groups"].Null? ==> g.groups == [])
      && (Get(f, "characters").None? || f["characters"].Null? ==> g.characters == [])
      && (Get(f, "tags").None? || f["tags"].Null? ==> g.tags == [])
      && ("parodies" !in f && "parodys" !in f ==> g.parodies == [])
    ensures var g := DecodeGallery(Object(f)).value;
      && ("japanese_title" !in f ==> g.japaneseTitle.None?)
      && ("language" !in f ==> g.language.None?)
      && ("language_localname" !in f ==> g.languageLocalname.None?)
      && ("language_url" !in f ==> g.languageUrl.None?)
      && ("video" !in f ==> g.video.None?)
      && ("videofilename" !in f ==> g.videofilename.None?)
      && ("gallery_url" !in f && "galleryurl" !in f ==> g.galleryUrl.None?)
      && ("date_published" !in f && "datepublished" !in f ==> g.datePublished.None?)
      && ("blocked" !in f ==> !g.blocked)
  {
    var g0 := DecodeRequired(f).value;
    var g1 := DecodeTexts(f, g0).value;
    var g2 := DecodeCollections(f, g1).value;
    var g3 := DecodeTrailing(f, g2).value;
    assert DecodeGallery(Object(f)) == Ok(g3);
    TextsDefault(f, g0);
    CollectionsDefault(f, g1);
    TrailingDefault(f, g2);
  }

  lemma TextsDefault(f: Fields, g: Gallery)
    requires DecodeTexts(f, g).Ok?
    ensures var h := DecodeTexts(f, g).value;
      && ("japanese_title" !in f ==> h.japaneseTitle.None?)
      && ("language" !in f ==> h.language.None?)
      && ("language_localname" !in f ==> h.languageLocalname.None?)
      && ("language_url" !in f ==> h.languageUrl.None?)
      && ("video" !in f ==> h.video.None?)
      && ("videofilename" !in f ==> h.videofilename.None?)
  {
  }

  lemma CollectionsDefault(f: Fields, g: Gallery)
    requires DecodeCollections(f, g).Ok?
    ensures var h := DecodeCollections(f, g).value;
      && (Get(f, "artists").None? || f["artists"].Null? ==> h.artists == [])
      && (Get(f, "groups").None? || f["groups"].Null? ==> h.groups == [])
      && (Get(f, "characters").None? || f["characters"].Null? ==> h.characters == [])
      && (Get(f, "tags").None? || f["tags"].Null? ==> h.tags == [])
      && ("parodies" !in f && "parodys" !in f ==> h.parodies == [])
      && h.japaneseTitle == g.japaneseTitle && h.language == g.language
      && h.languageLocalname == g.languageLocalname && h.languageUrl == g.languageUrl
      && h.video == g.video && h.videofilename == g.videofilename
  {
  }

  lemma TrailingDefault(f: Fields, g: Gallery)
    requires DecodeTrailing(f, g).Ok?
    ensures var h := DecodeTrailing(f, g).value;
      && ("gallery_url" !in f && "galleryurl" !in f ==> h.galleryUrl.None?)
      && ("date_published" !in f && "datepublished" !in f ==> h.datePublished.None?)
      && ("blocked" !in f ==> !h.blocked)
      && h == g.(galleryUrl := h.galleryUrl, datePublished := h.datePublished, blocked := h.blocked)
  {
  }

  /** Both spellings of an aliased field in one object are rejected. */
  lemma DuplicateAliasRejected(f: Fields)
    requires ("parodies" in f && "parodys" in f)
      || ("gallery_url" in f && "galleryurl" in f)
      || ("date_published" in f && "datepublished" in f)
    ensures DecodeGallery(Object(f)).Err?
  {
    var r0 := DecodeRequired(f);
    if r0.Ok? {
      var r1 := DecodeTexts(f, r0.value);
      if r1.Ok? {
        var r2 := DecodeCollections(f, r1.value);
        if r2.Ok? {
          assert !("parodies" in f && "parodys" in f);
          assert DecodeTrailing(f, r2.value).Err?;
        }
      }
    }
  }

  /** `parodys`, `galleryurl` and `datepublished` are read exactly as their primary names. */
  lemma AliasesAccepted(f: Fields, v: Json)
    requires "parodies" !in f && "parodys" !in f
    requires "gallery_url" !in f && "galleryurl" !in f
    requires "date_published" !in f && "datepublished" !in f
    ensures DecodeGallery(Object(f["parodys" := v])) == DecodeGallery(Object(f["parodies" := v]))
    ensures DecodeGallery(Object(f["galleryurl" := v])) == DecodeGallery(Object(f["gallery_url" := v]))
    ensures DecodeGallery(Object(f["datepublished" := v])) == DecodeGallery(Object(f["date_published" := v]))
  {
    ParodiesAlias(f, v);
    GalleryUrlAlias(f, v);
    DatePublishedAlias(f, v);
  }

  predicate SameAt(f1: Fields, f2: Fields, k: string) {
    Get(f1, k) == Get(f2, k)
  }

  /** The two objects agree on every key of `DecodeRequired`. */
  predicate SameRequiredKeys(f1: Fields, f2: Fields) {
    && SameAt(f1, f2, "gallery_id") && SameAt(f1, f2, "title") && SameAt(f1, f2, "date")
    && SameAt(f1, f2, "files") && SameAt(f1, f2, "languages") && SameAt(f1, f2, "scene_indexes")
    && SameAt(f1, f2, "type") && SameAt(f1, f2, "id") && SameAt(f1, f2, "related")
  }

  /** The two objects agree on every key of `DecodeTexts`. */
  predicate SameTextKeys(f1: Fields, f2: Fields) {
    && SameAt(f1, f2, "japanese_title") && SameAt(f1, f2, "language") && SameAt(f1, f2, "language_localname")
    && SameAt(f1, f2, "language_url") && SameAt(f1, f2, "video") && SameAt(f1, f2, "videofilename")
  }

  /** The two objects agree on every key of `DecodeCollections`. */
  predicate SameCollectionKeys(f1: Fields, f2: Fields) {
    && SameAt(f1, f2, "artists") && SameAt(f1, f2, "groups") && SameAt(f1, f2, "characters")
    && SameAt(f1, f2, "tags")
    && GetAliased(f1, "parodies", "parodys") == GetAliased(f2, "parodies", "parodys")
  }

  /** The two objects agree on every key of `DecodeTrailing`. */
  predicate SameTrailingKeys(f1: Fields, f2: Fields) {
    && GetAliased(f1, "gallery_url", "galleryurl") == GetAliased(f2, "gallery_url", "galleryurl")
    && GetAliased(f1, "date_published", "datepublished") == GetAliased(f2, "date_published", "datepublished")
    && SameAt(f1, f2, "blocked")
  }

  /** Two objects that read the same under every key the decoder consults decode alike. */
  lemma SameReadingSameGallery(f1: Fields, f2: Fields)
    requires SameRequiredKeys(f1, f2) && SameTextKeys(f1, f2)
    requires SameCollectionKeys(f1, f2) && SameTrailingKeys(f1, f2)
    ensures DecodeGallery(Object(f1)) == DecodeGallery(Object(f2))
  {
    SameRequired(f1, f2);
    var r0 := DecodeRequired(f1);
    if r0.Ok? {
      SameTexts(f1, f2, r0.value);
      var r1 := DecodeTexts(f1, r0.value);
      if r1.Ok? {
        SameCollections(f1, f2, r1.value);
        var r2 := DecodeCollections(f1, r1.value);
        if r2.Ok? {
          SameTrailing(f1, f2, r2.value);
        }
      }
    }
  }

  lemma SameRequired(f1: Fields, f2: Fields)
    requires SameRequiredKeys(f1, f2)
    ensures DecodeRequired(f1) == DecodeRequired(f2)
  {
  }

  lemma SameTexts(f1: Fields, f2: Fields, g: Gallery)
    requires SameTextKeys(f1, f2)
    ensures DecodeTexts(f1, g) == DecodeTexts(f2, g)
  {
  }

  lemma SameCollections(f1: Fields, f2: Fields, g: Gallery)
    requires SameCollectionKeys(f1, f2)
    ensures DecodeCollections(f1, g) == DecodeCollections(f2, g)
  {
  }

  lemma SameTrailing(f1: Fields, f2: Fields, g: Gallery)
    requires SameTrailingKeys(f1, f2)
    ensures DecodeTrailing(f1, g) == DecodeTrailing(f2, g)
  {
  }

  /** Outside the two spellings, writing `v` under either spelling leaves the other keys as they were. */
  lemma AliasElsewhere(f: Fields, name: string, alias: string, v: Json, k: string)
    requires name !in f && alias !in f && k != name && k != alias
    ensures SameAt(f[alias := v], f[name := v], k)
  {
  }

  predicate NotRequiredKey(k: string) {
    && k != "gallery_id" && k != "title" && k != "date" && k != "files" && k != "languages"
    && k != "scene_indexes" && k != "type" && k != "id" && k != "related"
  }

  predicate NotTextKey(k: string) {
    && k != "japanese_title" && k != "language" && k != "language_localname"
    && k != "language_url" && k != "video" && k != "videofilename"
  }

  lemma RequiredAgree(f: Fields, name: string, alias: string, v: Json)
    requires name !in f && alias !in f && NotRequiredKey(name) && NotRequiredKey(alias)
    ensures SameRequiredKeys(f[alias := v], f[name := v])
  {
  }

  lemma TextAgree(f: Fields, name: string, alias: string, v: Json)
    requires name !in f && alias !in f && NotTextKey(name) && NotTextKey(alias)
    ensures SameTextKeys(f[alias := v], f[name := v])
  {
  }

  lemma ParodiesAlias(f: Fields, v: Json)
    requires "parodies" !in f && "parodys" !in f
    ensures DecodeGallery(Object(f["parodys" := v])) == DecodeGallery(Object(f["parodies" := v]))
  {
    var fa := f["parodys" := v];
    var fn := f["parodies" := v];
    RequiredAgree(f, "parodies", "parodys", v);
    TextAgree(f, "parodies", "parodys", v);
    ParodiesCollections(f, v);
    ParodiesTrailing(f, v);
    SameReadingSameGallery(fa, fn);
  }

  lemma ParodiesCollections(f: Fields, v: Json)
    requires "parodies" !in f && "parodys" !in f
    ensures SameCollectionKeys(f["parodys" := v], f["parodies" := v])
  {
  }

  lemma ParodiesTrailing(f: Fields, v: Json)
    requires "parodies" !in f && "parodys" !in f
    ensures SameTrailingKeys(f["parodys" := v], f["parodies" := v])
  {
  }

  lemma GalleryUrlAlias(f: Fields, v: Json)
    requires "gallery_url" !in f && "galleryurl" !in f
    ensures DecodeGallery(Object(f["galleryurl" := v])) == DecodeGallery(Object(f["gallery_url" := v]))
  {
    var fa := f["galleryurl" := v];
    var fn := f["gallery_url" := v];
    RequiredAgree(f, "gallery_url", "galleryurl", v);
    TextAgree(f, "gallery_url", "galleryurl", v);
    GalleryUrlCollections(f, v);
    GalleryUrlTrailing(f, v);
    SameReadingSameGallery(fa, fn);
  }

  lemma GalleryUrlCollections(f: Fields, v: Json)
    requires "gallery_url" !in f && "galleryurl" !in f
    ensures SameCollectionKeys(f["galleryurl" := v], f["gallery_url" := v])
  {
  }

  lemma GalleryUrlTrailing(f: Fields, v: Json)
    requires "gallery_url" !in f && "galleryurl" !in f
    ensures SameTrailingKeys(f["galleryurl" := v], f["gallery_url" := v])
  {
  }

  lemma DatePublishedAlias(f: Fields, v: Json)
    requires "date_published" !in f && "datepublished" !in f
    ensures DecodeGallery(Object(f["datepublished" := v])) == DecodeGallery(Object(f["date_published" := v]))
  {
    var fa := f["datepublished" := v];
    var fn := f["date_published" := v];
    RequiredAgree(f, "date_published", "datepublished", v);
    TextAgree(f, "date_published", "datepublished", v);
    DatePublishedCollections(f, v);
    DatePublishedTrailing(f, v);
    SameReadingSameGallery(fa, fn);
  }

  lemma DatePublishedCollections(f: Fields, v: Json)
    requires "date_published" !in f && "datepublished" !in f
    ensures SameCollectionKeys(f["datepublished" := v], f["date_published" := v])
  {
  }

  lemma DatePublishedTrailing(f: Fields, v: Json)
    requires "date_published" !in f && "datepublished" !in f
    ensures SameTrailingKeys(f["datepublished" := v], f["date_published" := v])
  {
  }
}
