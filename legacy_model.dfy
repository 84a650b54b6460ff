/**
 * The earlier gallery record of `src/model.rs`, still read by the normalisation
 * tool. It differs from the domain record in three ways: the numeric fields are
 * `u32`, `id`/`related`/`galleryid` go through `PickFirst<(DisplayFromStr, Same)>`
 * (both arms want a JSON string), and three fields carry their old names
 * `parodys`, `galleryurl` and `datepublished`, which the domain record accepts as
 * aliases. `Artist`, `Group`, `Character`, `Parody` and `Tag` are declared with
 * the same fields and serde rules as in the domain record, so this module uses the
 * domain datatypes and codecs for them; `src/model.rs` repeats `FlexibleBool`
 * verbatim, so the domain adapter serves both.
 */
module LegacyModel {
  import opened Wrappers
  import opened Ints
  import opened Json
  import D = DomainGallery

  datatype File = File(
    name: string,
    hash: string,
    width: U32,
    height: U32,
    hasavif: bool,
    haswebp: bool,
    hasjxl: bool,
    single: bool)

  datatype Gallery = Gallery(
    galleryId: U32,
    title: string,
    date: string,
    files: seq<File>,
    languages: seq<D.Language>,
    sceneIndexes: seq<U32>,
    galleryType: string,
    id: string,
    related: seq<string>,
    japaneseTitle: Option<string>,
    language: Option<string>,
    languageLocalname: Option<string>,
    languageUrl: Option<string>,
    video: Option<string>,
    videofilename: Option<string>,
    artists: seq<D.Artist>,
    groups: seq<D.Group>,
    characters: seq<D.Character>,
    parodys: seq<D.Parody>,
    tags: seq<D.Tag>,
    galleryurl: Option<string>,
    datepublished: Option<string>,
    blocked: bool)

  /**
   * `PickFirst<(DisplayFromStr, Same)>` for a `String`: `DisplayFromStr` reads a
   * JSON string and parses it with `String::from_str`, which always succeeds;
   * `Same` reads a JSON string. A JSON number satisfies neither.
   */
  function PickFirstString(v: Json): (r: Result<string, string>)
    ensures r.Ok? <==> v.Str?
    ensures r.Ok? ==> r.value == v.s
  {
    match v
    case Str(s) => Ok(s)
    case _ => Err("invalid type: expected a string")
  }

  /** Unlike the domain `FlexibleString`, an integer id is refused here. */
  lemma IntegerIdRefused(i: int)
    requires I64_MIN <= i <= I64_MAX
    ensures PickFirstString(Num(Int(i))).Err?
    ensures D.FlexibleString(Num(Int(i))).Ok?
  {
  }

  function EncodeU32(x: U32): Json {
    Num(Int(x))
  }

  function RequiredU32(f: Fields, name: string): (r: Result<U32, string>)
    ensures r.Ok? <==> name in f && DecodeU32(f[name]).Ok?
    ensures r.Ok? ==> r.value == f[name].n.i
  {
    var v :- Required(Get(f, name), name);
    DecodeU32(v)
  }

  // ---------------------------------------------------------------------------
  // Sub-records that differ from the domain ones
  // ---------------------------------------------------------------------------

  function DecodeFile(v: Json): (r: Result<File, string>)
    ensures r.Ok? ==> v.Object? && "hasavif" in v.fields
    ensures r.Ok? <==>
      && v.Object? && "name" in v.fields && v.fields["name"].Str? && "hash" in v.fields && v.fields["hash"].Str?
      && "width" in v.fields && DecodeU32(v.fields["width"]).Ok?
      && "height" in v.fields && DecodeU32(v.fields["height"]).Ok? && "hasavif" in v.fields
    ensures r.Ok? ==> var f, x := v.fields, r.value;
      && x.name == f["name"].s && x.hash == f["hash"].s && x.width == f["width"].n.i && x.height == f["height"].n.i
      && x.hasavif == D.FlexibleBool(f["hasavif"]) && x.haswebp == D.FlagOrFalse(Get(f, "haswebp"))
      && x.hasjxl == D.FlagOrFalse(Get(f, "hasjxl")) && x.single == D.FlagOrFalse(Get(f, "single"))
  {
    if !v.Object? then Err("invalid type: expected struct File")
    else
      var f := v.fields;
      var name :- D.RequiredString(f, "name");
      var hash :- D.RequiredString(f, "hash");
      var width :- RequiredU32(f, "width");
      var height :- RequiredU32(f, "height");
      var hasavif :- D.RequiredFlag(Get(f, "hasavif"), "hasavif");
      Ok(File(name, hash, width, height, hasavif,
              D.FlagOrFalse(Get(f, "haswebp")), D.FlagOrFalse(Get(f, "hasjxl")), D.FlagOrFalse(Get(f, "single"))))
  }

  function EncodeFile(x: File): Json {
    Object(map[
      "name" := Str(x.name), "hash" := Str(x.hash),
      "width" := EncodeU32(x.width), "height" := EncodeU32(x.height),
      "hasavif" := D.EncodeBool(x.hasavif), "haswebp" := D.EncodeBool(x.haswebp),
      "hasjxl" := D.EncodeBool(x.hasjxl), "single" := D.EncodeBool(x.single)])
  }

  lemma FileRoundTrip(x: File)
    ensures DecodeFile(EncodeFile(x)) == Ok(x)
  {
  }

  function DecodeLanguage(v: Json): (r: Result<D.Language, string>)
    ensures r.Ok? ==> v.Object? && "galleryid" in v.fields && v.fields["galleryid"] == Str(r.value.galleryid)
    ensures r.Ok? <==>
      && v.Object? && D.StringField(v.fields, "name") && D.StringField(v.fields, "language_localname")
      && D.StringField(v.fields, "url") && D.StringField(v.fields, "galleryid")
    ensures r.Ok? ==>
      && r.value.name == v.fields["name"].s && r.value.localname == v.fields["language_localname"].s
      && r.value.url == v.fields["url"].s
  {
    if !v.Object? then Err("invalid type: expected struct Language")
    else
      var f := v.fields;
      var name :- D.RequiredString(f, "name");
      var localname :- D.RequiredString(f, "language_localname");
      var url :- D.RequiredString(f, "url");
      var gv :- Required(Get(f, "galleryid"), "galleryid");
      var galleryid :- PickFirstString(gv);
      Ok(D.Language(name, localname, url, galleryid))
  }

  /** The serializer writes `galleryid` through `DisplayFromStr`, as a plain string: the domain encoding. */
  lemma LanguageRoundTrip(x: D.Language)
    ensures DecodeLanguage(D.EncodeLanguage(x)) == Ok(x)
  {
  }

  // ---------------------------------------------------------------------------
  // The record
  // ---------------------------------------------------------------------------

  /** `Deserialize for Gallery` in `src/model.rs`, in the same four stages as the domain record. */
  function DecodeGallery(v: Json): (r: Result<Gallery, string>)
    ensures r.Ok? ==> v.Object?
  {
    if !v.Object? then Err("invalid type: expected struct Gallery")
    else
      var f := v.fields;
      var g0 :- DecodeRequired(f);
      var g1 :- DecodeTexts(f, g0);
      var g2 :- DecodeCollections(f, g1);
      DecodeTrailing(f, g2)
  }

  /** What each field of a decoded legacy gallery was read from. */
  lemma {:induction false} FieldsOfDecoded(f: Fields)
    requires DecodeGallery(Object(f)).Ok?
    ensures var g := DecodeGallery(Object(f)).value;
      && "gallery_id" in f && DecodeU32(f["gallery_id"]) == Ok(g.galleryId)
      && "title" in f && f["title"] == Str(g.title) && "date" in f && f["date"] == Str(g.date)
      && "files" in f && DecodeVec(f["files"], DecodeFile) == Ok(g.files)
      && "languages" in f && DecodeVec(f["languages"], DecodeLanguage) == Ok(g.languages)
      && "scene_indexes" in f && DecodeVec(f["scene_indexes"], DecodeU32) == Ok(g.sceneIndexes)
      && "type" in f && f["type"] == Str(g.galleryType)
      && "id" in f && PickFirstString(f["id"]) == Ok(g.id)
      && "related" in f && DecodeVec(f["related"], PickFirstString) == Ok(g.related)
    ensures var g := DecodeGallery(Object(f)).value;
      && DecodeOptionString(Get(f, "japanese_title")) == Ok(g.japaneseTitle)
      && DecodeOptionString(Get(f, "language")) == Ok(g.language)
      && DecodeOptionString(Get(f, "language_localname")) == Ok(g.languageLocalname)
      && DecodeOptionString(Get(f, "language_url")) == Ok(g.languageUrl)
      && DecodeOptionString(Get(f, "video")) == Ok(g.video)
      && DecodeOptionString(Get(f, "videofilename")) == Ok(g.videofilename)
    ensures var g := DecodeGallery(Object(f)).value;
      && DecodeVecDefaultOnNull(Get(f, "artists"), D.DecodeArtist) == Ok(g.artists)
      && DecodeVecDefaultOnNull(Get(f, "groups"), D.DecodeGroup) == Ok(g.groups)
      && DecodeVecDefaultOnNull(Get(f, "characters"), D.DecodeCharacter) == Ok(g.characters)
      && DecodeVecDefaultOnNull(Get(f, "parodys"), D.DecodeParody) == Ok(g.parodys)
      && DecodeVecDefaultOnNull(Get(f, "tags"), D.DecodeTag) == Ok(g.tags)
      && DecodeOptionString(Get(f, "galleryurl")) == Ok(g.galleryurl)
      && DecodeOptionString(Get(f, "datepublished")) == Ok(g.datepublished)
      && D.FlagOrFalse(Get(f, "blocked")) == g.blocked
  {
    var g0 := DecodeRequired(f).value;
    var g1 := DecodeTexts(f, g0).value;
    var g2 := DecodeCollections(f, g1).value;
    var g3 := DecodeTrailing(f, g2).value;
    assert DecodeGallery(Object(f)) == Ok(g3);
    RequiredOfDecoded(f);
  }

  lemma RequiredOfDecoded(f: Fields)
    requires DecodeRequired(f).Ok?
    ensures var g := DecodeRequired(f).value;
      && "gallery_id" in f && DecodeU32(f["gallery_id"]) == Ok(g.galleryId)
      && "title" in f && f["title"] == Str(g.title) && "date" in f && f["date"] == Str(g.date)
      && "files" in f && DecodeVec(f["files"], DecodeFile) == Ok(g.files)
      && "languages" in f && DecodeVec(f["languages"], DecodeLanguage) == Ok(g.languages)
      && "scene_indexes" in f && DecodeVec(f["scene_indexes"], DecodeU32) == Ok(g.sceneIndexes)
      && "type" in f && f["type"] == Str(g.galleryType)
      && "id" in f && PickFirstString(f["id"]) == Ok(g.id)
      && "related" in f && DecodeVec(f["related"], PickFirstString) == Ok(g.related)
  {
  }

  function DecodeRequired(f: Fields): Result<Gallery, string> {
    var galleryId :- RequiredU32(f, "gallery_id");
    var title :- D.RequiredString(f, "title");
    var date :- D.RequiredString(f, "date");
    var files :- D.RequiredVec(f, "files", DecodeFile);
    var languages :- D.RequiredVec(f, "languages", DecodeLanguage);
    var sceneIndexes :- D.RequiredVec(f, "scene_indexes", DecodeU32);
    var galleryType :- D.RequiredString(f, "type");
    var idV :- Required(Get(f, "id"), "id");
    var id :- PickFirstString(idV);
    var related :- D.RequiredVec(f, "related", PickFirstString);
    Ok(Gallery(galleryId, title, date, files, languages, sceneIndexes, galleryType, id, related,
               None, None, None, None, None, None, [], [], [], [], [], None, None, false))
  }

  function DecodeTexts(f: Fields, g: Gallery): Result<Gallery, string> {
    var japaneseTitle :- DecodeOptionString(Get(f, "japanese_title"));
    var language :- DecodeOptionString(Get(f, "language"));
    var languageLocalname :- DecodeOptionString(Get(f, "language_localname"));
    var languageUrl :- DecodeOptionString(Get(f, "language_url"));
    var video :- DecodeOptionString(Get(f, "video"));
    var videofilename :- DecodeOptionString(Get(f, "videofilename"));
    Ok(g.(japaneseTitle := japaneseTitle, language := language, languageLocalname := languageLocalname,
          languageUrl := languageUrl, video := video, videofilename := videofilename))
  }

  /** The five `DefaultOnNull` collections; here `parodys` is the field's only name. */
  function DecodeCollections(f: Fields, g: Gallery): Result<Gallery, string> {
    var artists :- DecodeVecDefaultOnNull(Get(f, "artists"), D.DecodeArtist);
    var groups :- DecodeVecDefaultOnNull(Get(f, "groups"), D.DecodeGroup);
    var characters :- DecodeVecDefaultOnNull(Get(f, "characters"), D.DecodeCharacter);
    var parodys :- DecodeVecDefaultOnNull(Get(f, "parodys"), D.DecodeParody);
    var tags :- DecodeVecDefaultOnNull(Get(f, "tags"), D.DecodeTag);
    Ok(g.(artists := artists, groups := groups, characters := characters, parodys := parodys, tags := tags))
  }

  function DecodeTrailing(f: Fields, g: Gallery): Result<Gallery, string> {
    var galleryurl :- DecodeOptionString(Get(f, "galleryurl"));
    var datepublished :- DecodeOptionString(Get(f, "datepublished"));
    Ok(g.(galleryurl := galleryurl, datepublished := datepublished, blocked := D.FlagOrFalse(Get(f, "blocked"))))
  }

  /** The derived `Serialize` of `src/model.rs`: the old field names, `id`/`related` as strings. */
  function EncodeGallery(g: Gallery): Json {
    Object(map[
      "gallery_id" := EncodeU32(g.galleryId),
      "title" := Str(g.title),
      "date" := Str(g.date),
      "files" := EncodeArray(g.files, EncodeFile),
      "languages" := EncodeArray(g.languages, D.EncodeLanguage),
      "scene_indexes" := EncodeArray(g.sceneIndexes, EncodeU32),
      "type" := Str(g.galleryType),
      "id" := Str(g.id),
      "related" := EncodeArray(g.related, D.EncodeString),
      "japanese_title" := EncodeOptionString(g.japaneseTitle),
      "language" := EncodeOptionString(g.language),
      "language_localname" := EncodeOptionString(g.languageLocalname),
      "language_url" := EncodeOptionString(g.languageUrl),
      "video" := EncodeOptionString(g.video),
      "videofilename" := EncodeOptionString(g.videofilename),
      "artists" := EncodeArray(g.artists, D.EncodeArtist),
      "groups" := EncodeArray(g.groups, D.EncodeGroup),
      "characters" := EncodeArray(g.characters, D.EncodeCharacter),
      "parodys" := EncodeArray(g.parodys, D.EncodeParody),
      "tags" := EncodeArray(g.tags, D.EncodeTag),
      "galleryurl" := EncodeOptionString(g.galleryurl),
      "datepublished" := EncodeOptionString(g.datepublished),
      "blocked" := D.EncodeBool(g.blocked)])
  }

  // ---------------------------------------------------------------------------
  // Legacy output read by the domain record
  // ---------------------------------------------------------------------------

  /** The `u32` values of a legacy record that the domain record's `i32` fields can hold. */
  predicate FitsI32(lg: Gallery) {
    && lg.galleryId <= I32_MAX
    && FilesFit(lg.files)
    && (forall i :: 0 <= i < |lg.sceneIndexes| ==> lg.sceneIndexes[i] <= I32_MAX)
  }

  function ToDomainFile(x: File): D.File
    requires x.width <= I32_MAX && x.height <= I32_MAX
  {
    D.File(x.name, x.hash, x.width, x.height, x.hasavif, x.haswebp, x.hasjxl, x.single)
  }

  predicate FilesFit(files: seq<File>) {
    forall i :: 0 <= i < |files| ==> files[i].width <= I32_MAX && files[i].height <= I32_MAX
  }

  function ToDomainFiles(files: seq<File>): seq<D.File>
    requires FilesFit(files)
  {
    seq(|files|, i requires 0 <= i < |files| => ToDomainFile(files[i]))
  }

  function ToDomainScenes(scenes: seq<U32>): seq<I32>
    requires forall i :: 0 <= i < |scenes| ==> scenes[i] <= I32_MAX
  {
    seq(|scenes|, i requires 0 <= i < |scenes| => scenes[i] as I32)
  }

  /** The domain record holding the same data, with the old field names mapped to the new ones. */
  function ToDomain(lg: Gallery): (g: D.Gallery)
    requires FitsI32(lg)
    ensures g.galleryId == lg.galleryId && g.id == lg.id && g.related == lg.related
    ensures g.parodies == lg.parodys && g.galleryUrl == lg.galleryurl && g.datePublished == lg.datepublished
    ensures |g.files| == |lg.files| && |g.sceneIndexes| == |lg.sceneIndexes|
    ensures forall i :: 0 <= i < |lg.files| ==>
      var x, y := lg.files[i], g.files[i];
      && y.name == x.name && y.hash == x.hash && y.width == x.width && y.height == x.height
      && y.hasavif == x.hasavif && y.haswebp == x.haswebp && y.hasjxl == x.hasjxl && y.single == x.single
    ensures forall i :: 0 <= i < |lg.sceneIndexes| ==> g.sceneIndexes[i] == lg.sceneIndexes[i]
    ensures g.title == lg.title && g.date == lg.date && g.galleryType == lg.galleryType && g.blocked == lg.blocked
    ensures g.japaneseTitle == lg.japaneseTitle && g.language == lg.language
      && g.languageLocalname == lg.languageLocalname && g.languageUrl == lg.languageUrl
      && g.video == lg.video && g.videofilename == lg.videofilename
    ensures g.languages == lg.languages && g.artists == lg.artists && g.groups == lg.groups
      && g.characters == lg.characters && g.tags == lg.tags
  {
    D.Gallery(lg.galleryId, lg.title, lg.date, ToDomainFiles(lg.files), lg.languages, ToDomainScenes(lg.sceneIndexes), lg.galleryType, lg.id, lg.related,
              lg.japaneseTitle, lg.language, lg.languageLocalname, lg.languageUrl, lg.video, lg.videofilename,
              lg.artists, lg.groups, lg.characters, lg.parodys, lg.tags, lg.galleryurl, lg.datepublished, lg.blocked)
  }

  /**
   * A record written in the legacy layout is read by the domain decoder as the
   * same data: the old names are the domain record's aliases, and every value
   * that fits in an `i32` is written the way the domain record writes it.
   */
  lemma LegacyOutputReadByDomain(lg: Gallery)
    requires FitsI32(lg)
    ensures D.DecodeGallery(EncodeGallery(lg)) == Ok(ToDomain(lg))
  {
    var f := EncodeGallery(lg).fields;
    var g := ToDomain(lg);
    CrossRequired(lg);
    CrossTexts(lg);
    CrossCollections(lg);
    CrossTrailing(lg);
    D.DecodeFromFields(f, g);
  }

  lemma CrossRequired(lg: Gallery)
    requires FitsI32(lg)
    ensures D.RequiredFieldsHold(EncodeGallery(lg).fields, ToDomain(lg))
  {
    CrossArrays(lg);
    CrossNamedArrays(lg);
    ScalarLookups(lg);
    FilesLookup(lg);
    LanguagesLookup(lg);
    RequiredLookupsRest(lg);
    RelatedLookup(lg);
    RequiredFromLookups(EncodeGallery(lg).fields, lg, ToDomain(lg));
  }

  /** The required fields of the domain record, from the legacy values found under their keys. */
  lemma RequiredFromLookups(f: Fields, lg: Gallery, g: D.Gallery)
    requires FitsI32(lg)
    requires g.galleryId == lg.galleryId && g.title == lg.title && g.date == lg.date
    requires g.galleryType == lg.galleryType && g.id == lg.id
    requires Get(f, "gallery_id") == Some(EncodeU32(lg.galleryId))
    requires Get(f, "title") == Some(Str(lg.title)) && Get(f, "date") == Some(Str(lg.date))
    requires Get(f, "files") == Some(EncodeArray(lg.files, EncodeFile))
    requires Get(f, "languages") == Some(EncodeArray(lg.languages, D.EncodeLanguage))
    requires Get(f, "scene_indexes") == Some(EncodeArray(lg.sceneIndexes, EncodeU32))
    requires Get(f, "type") == Some(Str(lg.galleryType)) && Get(f, "id") == Some(Str(lg.id))
    requires Get(f, "related") == Some(EncodeArray(lg.related, D.EncodeString))
    requires DecodeVec(EncodeArray(lg.files, EncodeFile), D.DecodeFile) == Ok(g.files)
    requires DecodeVec(EncodeArray(lg.sceneIndexes, EncodeU32), DecodeI32) == Ok(g.sceneIndexes)
    requires DecodeVec(EncodeArray(lg.languages, D.EncodeLanguage), D.DecodeLanguage) == Ok(g.languages)
    requires DecodeVec(EncodeArray(lg.related, D.EncodeString), D.FlexibleString) == Ok(g.related)
    ensures D.RequiredFieldsHold(f, g)
  {
    ScalarsFromLookups(f, lg, g);
    VectorsFromLookups(f, lg, g);
  }

  lemma ScalarsFromLookups(f: Fields, lg: Gallery, g: D.Gallery)
    requires g.galleryId == lg.galleryId && g.title == lg.title && g.date == lg.date
    requires g.galleryType == lg.galleryType && g.id == lg.id
    requires Get(f, "gallery_id") == Some(EncodeU32(lg.galleryId)) && lg.galleryId <= I32_MAX
    requires Get(f, "title") == Some(Str(lg.title)) && Get(f, "date") == Some(Str(lg.date))
    requires Get(f, "type") == Some(Str(lg.galleryType)) && Get(f, "id") == Some(Str(lg.id))
    ensures "gallery_id" in f && DecodeI32(f["gallery_id"]) == Ok(g.galleryId)
    ensures "title" in f && f["title"] == Str(g.title) && "date" in f && f["date"] == Str(g.date)
    ensures "type" in f && f["type"] == Str(g.galleryType) && "id" in f && D.FlexibleString(f["id"]) == Ok(g.id)
  {
  }

  lemma VectorsFromLookups(f: Fields, lg: Gallery, g: D.Gallery)
    requires Get(f, "files") == Some(EncodeArray(lg.files, EncodeFile))
    requires Get(f, "languages") == Some(EncodeArray(lg.languages, D.EncodeLanguage))
    requires Get(f, "scene_indexes") == Some(EncodeArray(lg.sceneIndexes, EncodeU32))
    requires Get(f, "related") == Some(EncodeArray(lg.related, D.EncodeString))
    requires DecodeVec(EncodeArray(lg.files, EncodeFile), D.DecodeFile) == Ok(g.files)
    requires DecodeVec(EncodeArray(lg.sceneIndexes, EncodeU32), DecodeI32) == Ok(g.sceneIndexes)
    requires DecodeVec(EncodeArray(lg.languages, D.EncodeLanguage), D.DecodeLanguage) == Ok(g.languages)
    requires DecodeVec(EncodeArray(lg.related, D.EncodeString), D.FlexibleString) == Ok(g.related)
    ensures "files" in f && DecodeVec(f["files"], D.DecodeFile) == Ok(g.files)
    ensures "languages" in f && DecodeVec(f["languages"], D.DecodeLanguage) == Ok(g.languages)
    ensures "scene_indexes" in f && DecodeVec(f["scene_indexes"], DecodeI32) == Ok(g.sceneIndexes)
    ensures "related" in f && DecodeVec(f["related"], D.FlexibleString) == Ok(g.related)
  {
  }

  lemma CrossNamedArrays(lg: Gallery)
    requires FitsI32(lg)
    ensures DecodeVec(EncodeArray(lg.languages, D.EncodeLanguage), D.DecodeLanguage) == Ok(ToDomain(lg).languages)
    ensures DecodeVec(EncodeArray(lg.related, D.EncodeString), D.FlexibleString) == Ok(ToDomain(lg).related)
  {
    forall x: D.Language ensures D.DecodeLanguage(D.EncodeLanguage(x)) == Ok(x) {
      D.LanguageRoundTrip(x);
    }
    ArrayRoundTrip(lg.languages, D.EncodeLanguage, D.DecodeLanguage);
    ArrayRoundTrip(lg.related, D.EncodeString, D.FlexibleString);
  }

  /** Legacy files and scene indexes that fit read as their domain counterparts. */
  lemma CrossArrays(lg: Gallery)
    requires FitsI32(lg)
    ensures DecodeVec(EncodeArray(lg.files, EncodeFile), D.DecodeFile) == Ok(ToDomain(lg).files)
    ensures DecodeVec(EncodeArray(lg.sceneIndexes, EncodeU32), DecodeI32) == Ok(ToDomain(lg).sceneIndexes)
  {
    CrossFiles(lg.files);
    CrossScenes(lg.sceneIndexes);
  }

  lemma CrossFiles(files: seq<File>)
    requires FilesFit(files)
    ensures DecodeVec(EncodeArray(files, EncodeFile), D.DecodeFile) == Ok(ToDomainFiles(files))
  {
    var ys := ToDomainFiles(files);
    forall i | 0 <= i < |files| ensures D.DecodeFile(EncodeFile(files[i])) == Ok(ys[i]) {
      CrossFile(files[i]);
    }
    ArrayTranslate(files, EncodeFile, D.DecodeFile, ys);
  }

  lemma CrossFile(x: File)
    requires x.width <= I32_MAX && x.height <= I32_MAX
    ensures D.DecodeFile(EncodeFile(x)) == Ok(ToDomainFile(x))
  {
  }

  lemma CrossScenes(scenes: seq<U32>)
    requires forall i :: 0 <= i < |scenes| ==> scenes[i] <= I32_MAX
    ensures DecodeVec(EncodeArray(scenes, EncodeU32), DecodeI32) == Ok(ToDomainScenes(scenes))
  {
    ArrayTranslate(scenes, EncodeU32, DecodeI32, ToDomainScenes(scenes));
  }

  // The lookups into the serialized object, a few per lemma to keep each proof small.

  lemma ScalarLookups(g: Gallery)
    ensures Get(EncodeGallery(g).fields, "gallery_id") == Some(EncodeU32(g.galleryId))
    ensures Get(EncodeGallery(g).fields, "title") == Some(Str(g.title))
    ensures Get(EncodeGallery(g).fields, "date") == Some(Str(g.date))
  {
    IdLookup(g);
    TitleLookup(g);
  }

  lemma IdLookup(g: Gallery)
    ensures Get(EncodeGallery(g).fields, "gallery_id") == Some(EncodeU32(g.galleryId))
  {
  }

  lemma TitleLookup(g: Gallery)
    ensures Get(EncodeGallery(g).fields, "title") == Some(Str(g.title))
  {
  }

  lemma FilesLookup(g: Gallery)
    ensures Get(EncodeGallery(g).fields, "files") == Some(EncodeArray(g.files, EncodeFile))
  {
  }

  lemma LanguagesLookup(g: Gallery)
    ensures Get(EncodeGallery(g).fields, "languages") == Some(EncodeArray(g.languages, D.EncodeLanguage))
  {
  }

  lemma RequiredLookupsRest(g: Gallery)
    ensures Get(EncodeGallery(g).fields, "scene_indexes") == Some(EncodeArray(g.sceneIndexes, EncodeU32))
    ensures Get(EncodeGallery(g).fields, "type") == Some(Str(g.galleryType))
    ensures Get(EncodeGallery(g).fields, "id") == Some(Str(g.id))
  {
  }

  lemma RelatedLookup(g: Gallery)
    ensures Get(EncodeGallery(g).fields, "related") == Some(EncodeArray(g.related, D.EncodeString))
  {
  }

  lemma TextLookups(g: Gallery)
    ensures Get(EncodeGallery(g).fields, "japanese_title") == Some(EncodeOptionString(g.japaneseTitle))
    ensures Get(EncodeGallery(g).fields, "language") == Some(EncodeOptionString(g.language))
    ensures Get(EncodeGallery(g).fields, "language_localname") == Some(EncodeOptionString(g.languageLocalname))
  {
  }

  lemma TextLookupsRest(g: Gallery)
    ensures Get(EncodeGallery(g).fields, "language_url") == Some(EncodeOptionString(g.languageUrl))
    ensures Get(EncodeGallery(g).fields, "video") == Some(EncodeOptionString(g.video))
    ensures Get(EncodeGallery(g).fields, "videofilename") == Some(EncodeOptionString(g.videofilename))
  {
  }

  lemma CollectionLookups(g: Gallery)
    ensures Get(EncodeGallery(g).fields, "artists") == Some(EncodeArray(g.artists, D.EncodeArtist))
    ensures Get(EncodeGallery(g).fields, "groups") == Some(EncodeArray(g.groups, D.EncodeGroup))
    ensures Get(EncodeGallery(g).fields, "characters") == Some(EncodeArray(g.characters, D.EncodeCharacter))
  {
  }

  lemma CollectionLookupsRest(g: Gallery)
    ensures "parodies" !in EncodeGallery(g).fields
    ensures Get(EncodeGallery(g).fields, "parodys") == Some(EncodeArray(g.parodys, D.EncodeParody))
    ensures Get(EncodeGallery(g).fields, "tags") == Some(EncodeArray(g.tags, D.EncodeTag))
  {
  }

  lemma TrailingLookups(g: Gallery)
    ensures "gallery_url" !in EncodeGallery(g).fields && "date_published" !in EncodeGallery(g).fields
    ensures Get(EncodeGallery(g).fields, "galleryurl") == Some(EncodeOptionString(g.galleryurl))
    ensures Get(EncodeGallery(g).fields, "datepublished") == Some(EncodeOptionString(g.datepublished))
    ensures Get(EncodeGallery(g).fields, "blocked") == Some(D.EncodeBool(g.blocked))
  {
  }

  lemma CrossTexts(lg: Gallery)
    requires FitsI32(lg)
    ensures D.TextFieldsHold(EncodeGallery(lg).fields, ToDomain(lg))
  {
    TextLookups(lg);
    TextLookupsRest(lg);
    OptionStringRoundTrip(lg.japaneseTitle);
    OptionStringRoundTrip(lg.language);
    OptionStringRoundTrip(lg.languageLocalname);
    OptionStringRoundTrip(lg.languageUrl);
    OptionStringRoundTrip(lg.video);
    OptionStringRoundTrip(lg.videofilename);
  }

  lemma CrossCollections(lg: Gallery)
    requires FitsI32(lg)
    ensures D.CollectionFieldsHold(EncodeGallery(lg).fields, ToDomain(lg))
  {
    D.NamedArraysRoundTrip(lg.artists, lg.groups, lg.characters, lg.parodys, lg.tags);
    CollectionLookups(lg);
    CollectionLookupsRest(lg);
  }

  lemma CrossTrailing(lg: Gallery)
    requires FitsI32(lg)
    ensures D.TrailingFieldsHold(EncodeGallery(lg).fields, ToDomain(lg))
  {
    OptionStringRoundTrip(lg.galleryurl);
    OptionStringRoundTrip(lg.datepublished);
    TrailingLookups(lg);
  }

  // ---------------------------------------------------------------------------
  // The legacy codec on its own
  // ---------------------------------------------------------------------------

  /** Every legacy record the serializer writes is read back as the same record. */
  lemma GalleryRoundTrip(lg: Gallery)
    ensures DecodeGallery(EncodeGallery(lg)) == Ok(lg)
  {
    var f := EncodeGallery(lg).fields;
    var g0 := Gallery(lg.galleryId, lg.title, lg.date, lg.files, lg.languages, lg.sceneIndexes, lg.galleryType, lg.id, lg.related,
                      None, None, None, None, None, None, [], [], [], [], [], None, None, false);
    RequiredRoundTrip(lg, g0);
    var g1 := g0.(japaneseTitle := lg.japaneseTitle, language := lg.language, languageLocalname := lg.languageLocalname,
                  languageUrl := lg.languageUrl, video := lg.video, videofilename := lg.videofilename);
    TextsRoundTrip(lg, g0, g1);
    var g2 := g1.(artists := lg.artists, groups := lg.groups, characters := lg.characters, parodys := lg.parodys, tags := lg.tags);
    CollectionsRoundTrip(lg, g1, g2);
    TrailingRoundTrip(lg, g2);
  }

  lemma RequiredRoundTrip(lg: Gallery, g0: Gallery)
    requires g0 == Gallery(lg.galleryId, lg.title, lg.date, lg.files, lg.languages, lg.sceneIndexes, lg.galleryType, lg.id, lg.related,
                           None, None, None, None, None, None, [], [], [], [], [], None, None, false)
    ensures DecodeRequired(EncodeGallery(lg).fields) == Ok(g0)
  {
    RequiredArraysRoundTrip(lg);
    ScalarLookups(lg);
    FilesLookup(lg);
    LanguagesLookup(lg);
    RequiredLookupsRest(lg);
    RelatedLookup(lg);
    RequiredFrom(EncodeGallery(lg).fields, lg, g0);
  }

  /** The required stage reads back the values found under the required keys. */
  lemma RequiredFrom(f: Fields, lg: Gallery, g0: Gallery)
    requires g0 == Gallery(lg.galleryId, lg.title, lg.date, lg.files, lg.languages, lg.sceneIndexes, lg.galleryType, lg.id, lg.related,
                           None, None, None, None, None, None, [], [], [], [], [], None, None, false)
    requires Get(f, "gallery_id") == Some(EncodeU32(lg.galleryId))
    requires Get(f, "title") == Some(Str(lg.title)) && Get(f, "date") == Some(Str(lg.date))
    requires Get(f, "files") == Some(EncodeArray(lg.files, EncodeFile))
    requires Get(f, "languages") == Some(EncodeArray(lg.languages, D.EncodeLanguage))
    requires Get(f, "scene_indexes") == Some(EncodeArray(lg.sceneIndexes, EncodeU32))
    requires Get(f, "type") == Some(Str(lg.galleryType)) && Get(f, "id") == Some(Str(lg.id))
    requires Get(f, "related") == Some(EncodeArray(lg.related, D.EncodeString))
    requires DecodeVec(EncodeArray(lg.files, EncodeFile), DecodeFile) == Ok(lg.files)
    requires DecodeVec(EncodeArray(lg.languages, D.EncodeLanguage), DecodeLanguage) == Ok(lg.languages)
    requires DecodeVec(EncodeArray(lg.sceneIndexes, EncodeU32), DecodeU32) == Ok(lg.sceneIndexes)
    requires DecodeVec(EncodeArray(lg.related, D.EncodeString), PickFirstString) == Ok(lg.related)
    ensures DecodeRequired(f) == Ok(g0)
  {
  }

  lemma RequiredArraysRoundTrip(lg: Gallery)
    ensures DecodeVec(EncodeArray(lg.files, EncodeFile), DecodeFile) == Ok(lg.files)
    ensures DecodeVec(EncodeArray(lg.languages, D.EncodeLanguage), DecodeLanguage) == Ok(lg.languages)
    ensures DecodeVec(EncodeArray(lg.sceneIndexes, EncodeU32), DecodeU32) == Ok(lg.sceneIndexes)
    ensures DecodeVec(EncodeArray(lg.related, D.EncodeString), PickFirstString) == Ok(lg.related)
  {
    forall x: File ensures DecodeFile(EncodeFile(x)) == Ok(x) {
      FileRoundTrip(x);
    }
    forall x: D.Language ensures DecodeLanguage(D.EncodeLanguage(x)) == Ok(x) {
      LanguageRoundTrip(x);
    }
    ArrayRoundTrip(lg.files, EncodeFile, DecodeFile);
    ArrayRoundTrip(lg.languages, D.EncodeLanguage, DecodeLanguage);
    ArrayRoundTrip(lg.sceneIndexes, EncodeU32, DecodeU32);
    ArrayRoundTrip(lg.related, D.EncodeString, PickFirstString);
  }

  lemma TextsRoundTrip(lg: Gallery, g0: Gallery, g1: Gallery)
    requires g1 == g0.(japaneseTitle := lg.japaneseTitle, language := lg.language, languageLocalname := lg.languageLocalname,
                       languageUrl := lg.languageUrl, video := lg.video, videofilename := lg.videofilename)
    ensures DecodeTexts(EncodeGallery(lg).fields, g0) == Ok(g1)
  {
    TextLookups(lg);
    TextLookupsRest(lg);
    OptionStringRoundTrip(lg.japaneseTitle);
    OptionStringRoundTrip(lg.language);
    OptionStringRoundTrip(lg.languageLocalname);
    OptionStringRoundTrip(lg.languageUrl);
    OptionStringRoundTrip(lg.video);
    OptionStringRoundTrip(lg.videofilename);
  }

  lemma CollectionsRoundTrip(lg: Gallery, g1: Gallery, g2: Gallery)
    requires g2 == g1.(artists := lg.artists, groups := lg.groups, characters := lg.characters, parodys := lg.parodys, tags := lg.tags)
    ensures DecodeCollections(EncodeGallery(lg).fields, g1) == Ok(g2)
  {
    D.NamedArraysRoundTrip(lg.artists, lg.groups, lg.characters, lg.parodys, lg.tags);
    CollectionLookups(lg);
    CollectionLookupsRest(lg);
    CollectionsFrom(EncodeGallery(lg).fields, lg, g1, g2);
  }

  /** The collection stage reads back the arrays found under the collection keys. */
  lemma CollectionsFrom(f: Fields, lg: Gallery, g1: Gallery, g2: Gallery)
    requires g2 == g1.(artists := lg.artists, groups := lg.groups, characters := lg.characters, parodys := lg.parodys, tags := lg.tags)
    requires Get(f, "artists") == Some(EncodeArray(lg.artists, D.EncodeArtist))
    requires Get(f, "groups") == Some(EncodeArray(lg.groups, D.EncodeGroup))
    requires Get(f, "characters") == Some(EncodeArray(lg.characters, D.EncodeCharacter))
    requires Get(f, "parodys") == Some(EncodeArray(lg.parodys, D.EncodeParody))
    requires Get(f, "tags") == Some(EncodeArray(lg.tags, D.EncodeTag))
    requires DecodeVec(EncodeArray(lg.artists, D.EncodeArtist), D.DecodeArtist) == Ok(lg.artists)
    requires DecodeVec(EncodeArray(lg.groups, D.EncodeGroup), D.DecodeGroup) == Ok(lg.groups)
    requires DecodeVec(EncodeArray(lg.characters, D.EncodeCharacter), D.DecodeCharacter) == Ok(lg.characters)
    requires DecodeVec(EncodeArray(lg.parodys, D.EncodeParody), D.DecodeParody) == Ok(lg.parodys)
    requires DecodeVec(EncodeArray(lg.tags, D.EncodeTag), D.DecodeTag) == Ok(lg.tags)
    ensures DecodeCollections(f, g1) == Ok(g2)
  {
    assert DecodeVecDefaultOnNull(Get(f, "artists"), D.DecodeArtist) == Ok(lg.artists);
    assert DecodeVecDefaultOnNull(Get(f, "groups"), D.DecodeGroup) == Ok(lg.groups);
    assert DecodeVecDefaultOnNull(Get(f, "characters"), D.DecodeCharacter) == Ok(lg.characters);
    assert DecodeVecDefaultOnNull(Get(f, "parodys"), D.DecodeParody) == Ok(lg.parodys);
    assert DecodeVecDefaultOnNull(Get(f, "tags"), D.DecodeTag) == Ok(lg.tags);
  }

  lemma TrailingRoundTrip(lg: Gallery, g2: Gallery)
    requires g2.(galleryurl := lg.galleryurl, datepublished := lg.datepublished, blocked := lg.blocked) == lg
    ensures DecodeTrailing(EncodeGallery(lg).fields, g2) == Ok(lg)
  {
    OptionStringRoundTrip(lg.galleryurl);
    OptionStringRoundTrip(lg.datepublished);
    TrailingLookups(lg);
  }

  /** Absent or null collections read as empty, absent options as `None`, an absent `blocked` as `false`. */
  lemma AbsentFieldsDefault(f: Fields)
    requires DecodeGallery(Object(f)).Ok?
    ensures var g := DecodeGallery(Object(f)).value;
      && (Get(f, "artists").None? || f["artists"].Null? ==> g.artists == [])
      && (Get(f, "groups").None? || f["groups"].Null? ==> g.groups == [])
      && (Get(f, "characters").None? || f["characters"].Null? ==> g.characters == [])
      && (Get(f, "parodys").None? || f["parodys"].Null? ==> g.parodys == [])
      && (Get(f, "tags").None? || f["tags"].Null? ==> g.tags == [])
    ensures var g := DecodeGallery(Object(f)).value;
      && ("japanese_title" !in f ==> g.japaneseTitle.None?)
      && ("language" !in f ==> g.language.None?)
      && ("language_localname" !in f ==> g.languageLocalname.None?)
      && ("language_url" !in f ==> g.languageUrl.None?)
      && ("video" !in f ==> g.video.None?)
      && ("videofilename" !in f ==> g.videofilename.None?)
      && ("galleryurl" !in f ==> g.galleryurl.None?)
      && ("datepublished" !in f ==> g.datepublished.None?)
      && ("blocked" !in f ==> !g.blocked)
  {
    var g0 := DecodeRequired(f).value;
    var g1 := DecodeTexts(f, g0).value;
    var g2 := DecodeCollections(f, g1).value;
    var g3 := DecodeTrailing(f, g2).value;
    assert DecodeGallery(Object(f)) == Ok(g3);
    TextsDefault(f, g0);
    CollectionsDefault(f, g1);
    TrailingDefault(f, g2);
  }

  lemma TextsDefault(f: Fields, g: Gallery)
    requires DecodeTexts(f, g).Ok?
    ensures var h := DecodeTexts(f, g).value;
      && ("japanese_title" !in f ==> h.japaneseTitle.None?)
      && ("language" !in f ==> h.language.None?)
      && ("language_localname" !in f ==> h.languageLocalname.None?)
      && ("language_url" !in f ==> h.languageUrl.None?)
      && ("video" !in f ==> h.video.None?)
      && ("videofilename" !in f ==> h.videofilename.None?)
  {
  }

  lemma CollectionsDefault(f: Fields, g: Gallery)
    requires DecodeCollections(f, g).Ok?
    ensures var h := DecodeCollections(f, g).value;
      && h.japaneseTitle == g.japaneseTitle && h.language == g.language
      && h.languageLocalname == g.languageLocalname && h.languageUrl == g.languageUrl
      && h.video == g.video && h.videofilename == g.videofilename
    ensures var h := DecodeCollections(f, g).value;
      && (Get(f, "artists").None? || f["artists"].Null? ==> h.artists == [])
      && (Get(f, "groups").None? || f["groups"].Null? ==> h.groups == [])
      && (Get(f, "characters").None? || f["characters"].Null? ==> h.characters == [])
      && (Get(f, "parodys").None? || f["parodys"].Null? ==> h.parodys == [])
      && (Get(f, "tags").None? || f["tags"].Null? ==> h.tags == [])
  {
  }

  lemma TrailingDefault(f: Fields, g: Gallery)
    requires DecodeTrailing(f, g).Ok?
    ensures var h := DecodeTrailing(f, g).value;
      && ("galleryurl" !in f ==> h.galleryurl.None?)
      && ("datepublished" !in f ==> h.datepublished.None?)
      && ("blocked" !in f ==> !h.blocked)
      && h.artists == g.artists && h.groups == g.groups && h.characters == g.characters
      && h.parodys == g.parodys && h.tags == g.tags
      && h.japaneseTitle == g.japaneseTitle && h.language == g.language
      && h.languageLocalname == g.languageLocalname && h.languageUrl == g.languageUrl
      && h.video == g.video && h.videofilename == g.videofilename
  {
  }
}
