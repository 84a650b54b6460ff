/**
 * The mapping between the domain gallery record and its FlatBuffers table
 * (`src/fbs/converter.rs`). The binary layout is not modelled: a buffer is either
 * a table that passes verification, with the schema's fields, or malformed. In
 * the table every collection and every optional text is a field that may be
 * absent; the required strings are always present.
 *
 * Dates are held as their canonical text. The encoder writes `date` as
 * `to_rfc3339()` and `date_published` as `%Y-%m-%d`; the decoder parses both
 * back, panicking on an unreadable `date` and dropping an unreadable
 * `date_published`. Each parser is modelled by a shape predicate of the texts it
 * reads (`IsRfc3339`, `IsPlainDate`), each writer by one of the texts it writes
 * (`IsCanonicalDateTime`, `IsCanonicalDate`); the written forms are read.
 */
module Converter {
  import opened Wrappers
  import opened Ints
  import opened Text
  import opened Seqs
  import D = DomainGallery

  datatype FbFile = FbFile(
    name: string, hash: string, width: I32, height: I32,
    hasavif: bool, haswebp: bool, hasjxl: bool, single: bool)
  datatype FbLanguage = FbLanguage(name: string, localname: string, url: string, galleryid: string)
  datatype FbArtist = FbArtist(artist: string, url: string)
  datatype FbGroup = FbGroup(group: string, url: string)
  datatype FbCharacter = FbCharacter(character: string, url: string)
  datatype FbParody = FbParody(parody: string, url: string)
  datatype FbTag = FbTag(tag: string, url: string, male: bool, female: bool)

  /** The `Gallery` table: vectors and optional strings may be absent. */
  datatype FbGallery = FbGallery(
    galleryId: I32,
    title: string,
    date: string,
    files: Option<seq<FbFile>>,
    languages: Option<seq<FbLanguage>>,
    sceneIndexes: Option<seq<I32>>,
    galleryType: string,
    id: string,
    related: Option<seq<string>>,
    japaneseTitle: Option<string>,
    language: Option<string>,
    languageLocalname: Option<string>,
    languageUrl: Option<string>,
    video: Option<string>,
    videofilename: Option<string>,
    artists: Option<seq<FbArtist>>,
    groups: Option<seq<FbGroup>>,
    characters: Option<seq<FbCharacter>>,
    parodies: Option<seq<FbParody>>,
    tags: Option<seq<FbTag>>,
    galleryUrl: Option<string>,
    datePublished: Option<string>,
    blocked: bool)

  /** A byte buffer as `root_as_gallery` sees it. */
  datatype Buffer = Table(root: FbGallery) | Malformed

  // ---------------------------------------------------------------------------
  // Dates
  // ---------------------------------------------------------------------------

  predicate DigitsAt(s: string, positions: seq<nat>) {
    forall k :: 0 <= k < |positions| ==> positions[k] < |s| && IsDigit(s[positions[k]])
  }

  predicate AllDigits(s: string) {
    forall k :: 0 <= k < |s| ==> IsDigit(s[k])
  }

  /** `YYYY-MM-DDTHH:MM:SS`, with `T` or `t` between the date and the time. */
  predicate IsDateAndTime(s: string) {
    && |s| == 19
    && DigitsAt(s, [0, 1, 2, 3, 5, 6, 8, 9, 11, 12, 14, 15, 17, 18])
    && s[4] == '-' && s[7] == '-' && (s[10] == 'T' || s[10] == 't') && s[13] == ':' && s[16] == ':'
  }

  /** `±HH:MM`. */
  predicate IsNumericOffset(s: string) {
    |s| == 6 && (s[0] == '+' || s[0] == '-') && DigitsAt(s, [1, 2, 4, 5]) && s[3] == ':'
  }

  /** No fraction, or `.` and one or more digits. */
  predicate IsFraction(s: string) {
    s == [] || (|s| >= 2 && s[0] == '.' && AllDigits(s[1..]))
  }

  /**
   * What `DateTime::parse_from_rfc3339` reads: the date and time, an optional
   * fraction of a second, and an offset that is `Z`, `z` or `±HH:MM`.
   */
  predicate IsRfc3339(s: string) {
    && |s| >= 20 && IsDateAndTime(s[..19])
    && var rest := s[19..];
      || ((rest[|rest| - 1] == 'Z' || rest[|rest| - 1] == 'z') && IsFraction(rest[..|rest| - 1]))
      || (|rest| >= 6 && IsNumericOffset(rest[|rest| - 6..]) && IsFraction(rest[..|rest| - 6]))
  }

  /**
   * What `NaiveDate::parse_from_str(_, "%Y-%m-%d")` reads: a year of one to
   * four digits, then a month and a day of one or two digits each.
   */
  predicate IsPlainDate(s: string) {
    var parts := Split(s, '-');
    && |parts| == 3
    && 1 <= |parts[0]| <= 4 && AllDigits(parts[0])
    && 1 <= |parts[1]| <= 2 && AllDigits(parts[1])
    && 1 <= |parts[2]| <= 2 && AllDigits(parts[2])
  }

  /**
   * The text `to_rfc3339()` writes: `T`, a fraction of three, six or nine
   * digits only when the nanoseconds are not zero, and a `±HH:MM` offset.
   */
  predicate IsCanonicalDateTime(s: string) {
    && |s| >= 25 && IsDateAndTime(s[..19]) && IsNumericOffset(s[|s| - 6..]) && s[10] == 'T'
    && var frac := s[19..|s| - 6];
      frac == [] || ((|frac| == 4 || |frac| == 7 || |frac| == 10) && frac[0] == '.' && AllDigits(frac[1..]))
  }

  /** The text `NaiveDate` displays for a four-digit year: `YYYY-MM-DD`. */
  predicate IsCanonicalDate(s: string) {
    && |s| == 10 && s[4] == '-' && s[7] == '-'
    && AllDigits(s[..4]) && AllDigits(s[5..7]) && AllDigits(s[8..])
  }

  /** Every date-time the encoder writes is one the decoder reads. */
  lemma CanonicalDateTimeReadable(s: string)
    requires IsCanonicalDateTime(s)
    ensures IsRfc3339(s)
  {
    var rest := s[19..];
    assert rest[|rest| - 6..] == s[|s| - 6..];
    assert rest[..|rest| - 6] == s[19..|s| - 6];
  }

  /** Every plain date `NaiveDate` displays is one `%Y-%m-%d` reads. */
  lemma CanonicalDateReadable(s: string)
    requires IsCanonicalDate(s)
    ensures IsPlainDate(s)
  {
    assert s == s[..4] + "-" + s[5..7] + "-" + s[8..];
    PlainDateSpellingsRead(s[..4], s[5..7], s[8..]);
  }

  lemma DigitsNoDash(s: string)
    requires AllDigits(s)
    ensures '-' !in s
  {
  }

  /**
   * A date and time followed by an optional fraction and an offset is read,
   * whichever of `Z`, `z` or `±HH:MM` the offset is.
   */
  lemma DateTimeSpellingsRead(dt: string, frac: string, off: string)
    requires IsDateAndTime(dt) && IsFraction(frac)
    requires off == "Z" || off == "z" || IsNumericOffset(off)
    ensures IsRfc3339(dt + frac + off)
  {
    var s := dt + frac + off;
    assert s[..19] == dt;
    var rest := s[19..];
    assert rest == frac + off;
    if |off| == 1 {
      assert rest[..|rest| - 1] == frac;
    } else {
      assert rest[|rest| - 6..] == off;
      assert rest[..|rest| - 6] == frac;
    }
  }

  /** A year of one to four digits and a month and day of one or two digits are read, padded or not. */
  lemma PlainDateSpellingsRead(y: string, m: string, d: string)
    requires 1 <= |y| <= 4 && AllDigits(y)
    requires 1 <= |m| <= 2 && AllDigits(m)
    requires 1 <= |d| <= 2 && AllDigits(d)
    ensures IsPlainDate(y + "-" + m + "-" + d)
  {
    assert y + "-" + m + "-" + d == y + ['-'] + (m + ['-'] + d);
    DigitsNoDash(y);
    DigitsNoDash(m);
    DigitsNoDash(d);
    SplitAtSep(y, m + ['-'] + d, '-');
    SplitAtSep(m, d, '-');
    SplitNoSep(d, '-');
  }

  /** `NaiveDate::parse_from_str(_, "%Y-%m-%d").ok()`, after `and_then` on the optional field. */
  function ReadDatePublished(s: Option<string>): (r: Option<string>)
    ensures r.Some? <==> s.Some? && IsPlainDate(s.value)
    ensures r.Some? ==> r.value == s.value
  {
    if s.Some? && IsPlainDate(s.value) then s else None
  }

  /** A domain record whose dates the encoder can write: a date-time and, if present, a plain date. */
  predicate CanonicalDates(g: D.Gallery) {
    IsCanonicalDateTime(g.date) && (g.datePublished.Some? ==> IsCanonicalDate(g.datePublished.value))
  }

  // ---------------------------------------------------------------------------
  // Element mappings
  // ---------------------------------------------------------------------------

  function FileToTable(x: D.File): FbFile {
    FbFile(x.name, x.hash, x.width, x.height, x.hasavif, x.haswebp, x.hasjxl, x.single)
  }

  function FileFromTable(x: FbFile): D.File {
    D.File(x.name, x.hash, x.width, x.height, x.hasavif, x.haswebp, x.hasjxl, x.single)
  }

  function LanguageToTable(x: D.Language): FbLanguage {
    FbLanguage(x.name, x.localname, x.url, x.galleryid)
  }

  function LanguageFromTable(x: FbLanguage): D.Language {
    D.Language(x.name, x.localname, x.url, x.galleryid)
  }

  function ArtistToTable(x: D.Artist): FbArtist { FbArtist(x.artist, x.url) }
  function ArtistFromTable(x: FbArtist): D.Artist { D.Artist(x.artist, x.url) }
  function GroupToTable(x: D.Group): FbGroup { FbGroup(x.group, x.url) }
  function GroupFromTable(x: FbGroup): D.Group { D.Group(x.group, x.url) }
  function CharacterToTable(x: D.Character): FbCharacter { FbCharacter(x.character, x.url) }
  function CharacterFromTable(x: FbCharacter): D.Character { D.Character(x.character, x.url) }
  function ParodyToTable(x: D.Parody): FbParody { FbParody(x.parody, x.url) }
  function ParodyFromTable(x: FbParody): D.Parody { D.Parody(x.parody, x.url) }
  function TagToTable(x: D.Tag): FbTag { FbTag(x.tag, x.url, x.male, x.female) }
  function TagFromTable(x: FbTag): D.Tag { D.Tag(x.tag, x.url, x.male, x.female) }

  // ---------------------------------------------------------------------------
  // Encode and decode
  // ---------------------------------------------------------------------------

  /** `serialize_gallery`: every vector is written, present even when empty; options only when `Some`. */
  function SerializeGallery(g: D.Gallery): (b: Buffer)
    ensures b.Table?
    ensures var t := b.root;
      && t.files.Some? && t.languages.Some? && t.sceneIndexes.Some? && t.related.Some?
      && t.artists.Some? && t.groups.Some? && t.characters.Some? && t.parodies.Some? && t.tags.Some?
    ensures var t := b.root;
      && t.japaneseTitle == g.japaneseTitle && t.language == g.language
      && t.languageLocalname == g.languageLocalname && t.languageUrl == g.languageUrl
      && t.video == g.video && t.videofilename == g.videofilename && t.galleryUrl == g.galleryUrl
      && t.datePublished == g.datePublished
    ensures b.root.galleryId == g.galleryId && b.root.blocked == g.blocked
    ensures |b.root.files.value| == |g.files|
      && forall i :: 0 <= i < |g.files| ==> b.root.files.value[i] == FileToTable(g.files[i])
    ensures |b.root.tags.value| == |g.tags|
      && forall i :: 0 <= i < |g.tags| ==> b.root.tags.value[i] == TagToTable(g.tags[i])
    ensures var t := b.root;
      && t.title == g.title && t.date == g.date && t.galleryType == g.galleryType && t.id == g.id
      && t.sceneIndexes == Some(g.sceneIndexes) && t.related == Some(g.related)
    ensures var t := b.root;
      && t.languages == Some(Map(g.languages, LanguageToTable))
      && t.artists == Some(Map(g.artists, ArtistToTable))
      && t.groups == Some(Map(g.groups, GroupToTable))
      && t.characters == Some(Map(g.characters, CharacterToTable))
      && t.parodies == Some(Map(g.parodies, ParodyToTable))
  {
    Table(FbGallery(
      g.galleryId, g.title, g.date,
      Some(Map(g.files, FileToTable)),
      Some(Map(g.languages, LanguageToTable)),
      Some(g.sceneIndexes),
      g.galleryType, g.id,
      Some(g.related),
      g.japaneseTitle, g.language, g.languageLocalname, g.languageUrl, g.video, g.videofilename,
      Some(Map(g.artists, ArtistToTable)),
      Some(Map(g.groups, GroupToTable)),
      Some(Map(g.characters, CharacterToTable)),
      Some(Map(g.parodies, ParodyToTable)),
      Some(Map(g.tags, TagToTable)),
      g.galleryUrl, g.datePublished, g.blocked))
  }

  /**
   * `deserialize_gallery`: a malformed buffer and an unreadable `date` panic
   * (here `Err`); absent vectors read as empty; an unreadable `date_published`
   * reads as `None`.
   */
  function DeserializeGallery(b: Buffer): (r: Result<D.Gallery, string>)
    ensures r.Ok? <==> b.Table? && IsRfc3339(b.root.date)
    ensures r.Ok? ==> var t := b.root; var g := r.value;
      && g.galleryId == t.galleryId && g.blocked == t.blocked
      && g.title == t.title && g.date == t.date && g.galleryType == t.galleryType && g.id == t.id
      && g.datePublished == ReadDatePublished(t.datePublished)
      && g.japaneseTitle == t.japaneseTitle && g.galleryUrl == t.galleryUrl
    ensures r.Ok? ==> var t := b.root; var g := r.value;
      && (t.files.None? ==> g.files == []) && (t.languages.None? ==> g.languages == [])
      && (t.sceneIndexes.None? ==> g.sceneIndexes == []) && (t.related.None? ==> g.related == [])
      && (t.artists.None? ==> g.artists == []) && (t.groups.None? ==> g.groups == [])
      && (t.characters.None? ==> g.characters == []) && (t.parodies.None? ==> g.parodies == [])
      && (t.tags.None? ==> g.tags == [])
    ensures r.Ok? && b.root.files.Some? ==> var fs := b.root.files.value;
      |r.value.files| == |fs| && forall i :: 0 <= i < |fs| ==> r.value.files[i] == FileFromTable(fs[i])
    ensures r.Ok? && b.root.tags.Some? ==> var ts := b.root.tags.value;
      |r.value.tags| == |ts| && forall i :: 0 <= i < |ts| ==> r.value.tags[i] == TagFromTable(ts[i])
    ensures r.Ok? ==> var t := b.root; var g := r.value;
      && g.language == t.language && g.languageLocalname == t.languageLocalname
      && g.languageUrl == t.languageUrl && g.video == t.video && g.videofilename == t.videofilename
    ensures r.Ok? ==> var t := b.root; var g := r.value;
      && g.sceneIndexes == t.sceneIndexes.UnwrapOr([]) && g.related == t.related.UnwrapOr([])
      && g.languages == Map(t.languages.UnwrapOr([]), LanguageFromTable)
      && g.artists == Map(t.artists.UnwrapOr([]), ArtistFromTable)
      && g.groups == Map(t.groups.UnwrapOr([]), GroupFromTable)
      && g.characters == Map(t.characters.UnwrapOr([]), CharacterFromTable)
      && g.parodies == Map(t.parodies.UnwrapOr([]), ParodyFromTable)
  {
    match b
    case Malformed => Err("Failed to deserialize gallery: invalid flatbuffer")
    case Table(t) =>
      if !IsRfc3339(t.date) then Err("called `Result::unwrap()` on an `Err` value: invalid RFC 3339 date")
      else
        Ok(D.Gallery(
          t.galleryId, t.title, t.date,
          Map(t.files.UnwrapOr([]), FileFromTable),
          Map(t.languages.UnwrapOr([]), LanguageFromTable),
          t.sceneIndexes.UnwrapOr([]),
          t.galleryType, t.id,
          t.related.UnwrapOr([]),
          t.japaneseTitle, t.language, t.languageLocalname, t.languageUrl, t.video, t.videofilename,
          Map(t.artists.UnwrapOr([]), ArtistFromTable),
          Map(t.groups.UnwrapOr([]), GroupFromTable),
          Map(t.characters.UnwrapOr([]), CharacterFromTable),
          Map(t.parodies.UnwrapOr([]), ParodyFromTable),
          Map(t.tags.UnwrapOr([]), TagFromTable),
          t.galleryUrl, ReadDatePublished(t.datePublished), t.blocked))
  }

  // ---------------------------------------------------------------------------
  // Properties
  // ---------------------------------------------------------------------------

  /** A record with canonical dates survives the trip through the table unchanged. */
  lemma RoundTrip(g: D.Gallery)
    requires CanonicalDates(g)
    ensures DeserializeGallery(SerializeGallery(g)) == Ok(g)
  {
    CanonicalDateTimeReadable(g.date);
    if g.datePublished.Some? {
      CanonicalDateReadable(g.datePublished.value);
    }
    MapInverse(g.files, FileToTable, FileFromTable);
    MapInverse(g.languages, LanguageToTable, LanguageFromTable);
    MapInverse(g.artists, ArtistToTable, ArtistFromTable);
    MapInverse(g.groups, GroupToTable, GroupFromTable);
    MapInverse(g.characters, CharacterToTable, CharacterFromTable);
    MapInverse(g.parodies, ParodyToTable, ParodyFromTable);
    MapInverse(g.tags, TagToTable, TagFromTable);
  }

  /** The table with every absent vector replaced by a present empty one. */
  function WithEmptyVectors(t: FbGallery): FbGallery {
    t.(files := Some(t.files.UnwrapOr([])), languages := Some(t.languages.UnwrapOr([])),
       sceneIndexes := Some(t.sceneIndexes.UnwrapOr([])), related := Some(t.related.UnwrapOr([])),
       artists := Some(t.artists.UnwrapOr([])), groups := Some(t.groups.UnwrapOr([])),
       characters := Some(t.characters.UnwrapOr([])), parodies := Some(t.parodies.UnwrapOr([])),
       tags := Some(t.tags.UnwrapOr([])))
  }

  /** An absent vector and a present empty one decode identically. */
  lemma AbsentVectorIsEmpty(t: FbGallery)
    ensures DeserializeGallery(Table(t)) == DeserializeGallery(Table(WithEmptyVectors(t)))
  {
  }

  /** An unreadable `date` makes decoding fail; an unreadable `date_published` is dropped and the rest still decodes. */
  lemma UnreadableDates(t: FbGallery, s: string)
    requires !IsRfc3339(s) && !IsPlainDate(s)
    ensures DeserializeGallery(Table(t.(date := s))).Err?
    ensures IsRfc3339(t.date) ==> DeserializeGallery(Table(t.(datePublished := Some(s)))).Ok?
    ensures IsRfc3339(t.date) ==> DeserializeGallery(Table(t.(datePublished := Some(s)))).value.datePublished.None?
  {
  }
}
