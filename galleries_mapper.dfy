/**
 * The relational mapper (`src/mapper/galleries_mapper.rs`): a domain gallery is
 * stored in one transaction as a gallery row, a language row and rows for its
 * tags, artists, groups, characters and parodies, each linked to the gallery
 * through a join table.
 *
 * Every lookup table is modelled as a map from its natural key (the column the
 * upsert searches by) to the row's surrogate id and remaining columns, with a
 * counter standing for the `SERIAL` sequence. A join table is the sequence of
 * (gallery row id, looked-up row id) pairs in insertion order.
 */
module GalleriesMapper {
  import opened Wrappers
  import opened Ints
  import opened Seqs
  import D = DomainGallery

  // ---------------------------------------------------------------------------
  // Lookup tables with a join table
  // ---------------------------------------------------------------------------

  /** A looked-up row: surrogate id and its `url` column. */
  datatype Row = Row(id: nat, url: string)

  /** A lookup table keyed by `K`, its next serial id, and its join table with the galleries. */
  datatype Table<K> = Table(rows: map<K, Row>, next: nat, links: seq<(nat, nat)>)

  /** Every row id was handed out by the sequence, and no pair is linked twice. */
  predicate ValidTable<K>(t: Table<K>) {
    && (forall k :: k in t.rows ==> t.rows[k].id < t.next)
    && (forall i, j :: 0 <= i < j < |t.links| ==> t.links[i] != t.links[j])
  }

  /**
   * `upsert_tag`, `upsert_artist`, `upsert_group`, `upsert_character`,
   * `upsert_parody`: find by key; update the existing row's `url` under its id,
   * or insert a row with the next id. Returns the table and the row's id.
   */
  function Upsert<K>(t: Table<K>, key: K, url: string): (r: (Table<K>, nat)) {
    if key in t.rows then
      var id := t.rows[key].id;
      (t.(rows := t.rows[key := Row(id, url)]), id)
    else
      (t.(rows := t.rows[key := Row(t.next, url)], next := t.next + 1), t.next)
  }

  /** `link_gallery_*`: insert the pair unless it is already there. */
  function Link<K>(t: Table<K>, galleryRowId: nat, rowId: nat): Table<K> {
    if (galleryRowId, rowId) in t.links then t else t.(links := t.links + [(galleryRowId, rowId)])
  }

  /** One iteration of an element loop in `insert_gallery`: upsert, then link. */
  function UpsertAndLink<K>(t: Table<K>, galleryRowId: nat, key: K, url: string): Table<K> {
    var (t1, id) := Upsert(t, key, url);
    Link(t1, galleryRowId, id)
  }

  /** An element loop of `insert_gallery` over `(key, url)` entries, in collection order. */
  function LinkAll<K>(t: Table<K>, galleryRowId: nat, entries: seq<(K, string)>): Table<K> {
    if entries == [] then t
    else
      var last := |entries| - 1;
      UpsertAndLink(LinkAll(t, galleryRowId, entries[..last]), galleryRowId, entries[last].0, entries[last].1)
  }

  /** A present key keeps its id; an absent key gets the next id, which no other row holds. */
  lemma UpsertId<K>(t: Table<K>, key: K, url: string)
    requires ValidTable(t)
    ensures var (t1, id) := Upsert(t, key, url);
      && (key in t.rows <==> id < t.next)
      && (key in t.rows ==> id == t.rows[key].id && t1.next == t.next)
      && (key !in t.rows ==> id == t.next && t1.next == t.next + 1
                              && forall k :: k in t.rows ==> t.rows[k].id != id)
  {
  }

  /** An upsert writes the key's row, with the given url, and nothing else. */
  lemma UpsertNothingElse<K>(t: Table<K>, key: K, url: string)
    ensures var (t1, id) := Upsert(t, key, url);
      && t1.rows.Keys == t.rows.Keys + {key}
      && t1.rows[key] == Row(id, url)
      && (forall k :: k in t.rows && k != key ==> t1.rows[k] == t.rows[k])
      && t1.links == t.links
  {
  }

  /** Upserting the same row again changes nothing and returns the same id. */
  lemma UpsertIdempotent<K>(t: Table<K>, key: K, url: string)
    ensures var (t1, id) := Upsert(t, key, url);
      Upsert(t1, key, url) == (t1, id)
  {
    var (t1, id) := Upsert(t, key, url);
    assert t1.rows[key := Row(id, url)] == t1.rows;
  }

  /** A link holds the pair afterwards, adds at most one entry, and linking twice is linking once. */
  lemma LinkOnce<K>(t: Table<K>, g: nat, x: nat)
    ensures (g, x) in Link(t, g, x).links
    ensures (g, x) in t.links ==> Link(t, g, x) == t
    ensures (g, x) !in t.links ==> Link(t, g, x).links == t.links + [(g, x)]
    ensures Link(Link(t, g, x), g, x) == Link(t, g, x)
  {
  }

  lemma UpsertAndLinkValid<K>(t: Table<K>, g: nat, key: K, url: string)
    requires ValidTable(t)
    ensures ValidTable(UpsertAndLink(t, g, key, url))
  {
    var (t1, id) := Upsert(t, key, url);
    assert ValidTable(t1);
    var t2 := Link(t1, g, id);
    if (g, id) !in t1.links {
      assert t2.links == t1.links + [(g, id)];
      forall i, j | 0 <= i < j < |t2.links|
        ensures t2.links[i] != t2.links[j]
      {
        if j == |t1.links| {
          assert t2.links[i] == t1.links[i];
        }
      }
    }
  }

  /** The element loops keep the table valid. */
  lemma {:induction false} LinkAllValid<K>(t: Table<K>, g: nat, entries: seq<(K, string)>)
    requires ValidTable(t)
    ensures ValidTable(LinkAll(t, g, entries))
  {
    if entries != [] {
      var last := |entries| - 1;
      LinkAllValid(t, g, entries[..last]);
      UpsertAndLinkValid(LinkAll(t, g, entries[..last]), g, entries[last].0, entries[last].1);
    }
  }

  /** Once a key is present and linked, later upserts and links keep it so, under the same id. */
  lemma UpsertAndLinkKeeps<K>(t: Table<K>, g: nat, key: K, url: string, k: K)
    requires k in t.rows && (g, t.rows[k].id) in t.links
    ensures var t2 := UpsertAndLink(t, g, key, url);
      k in t2.rows && t2.rows[k].id == t.rows[k].id && (g, t2.rows[k].id) in t2.links
  {
  }

  /** After an element loop, every element is stored and linked to the gallery, and no old row lost its id. */
  lemma {:induction false} LinkAllLinksEach<K>(t: Table<K>, g: nat, entries: seq<(K, string)>)
    ensures var t2 := LinkAll(t, g, entries);
      && (forall i :: 0 <= i < |entries| ==>
            entries[i].0 in t2.rows && (g, t2.rows[entries[i].0].id) in t2.links)
      && (forall k :: k in t.rows ==> k in t2.rows && t2.rows[k].id == t.rows[k].id)
  {
    if entries != [] {
      var last := |entries| - 1;
      var before := LinkAll(t, g, entries[..last]);
      LinkAllLinksEach(t, g, entries[..last]);
      var (t1, id) := Upsert(before, entries[last].0, entries[last].1);
      var t2 := Link(t1, g, id);
      assert t2 == LinkAll(t, g, entries);
      forall i | 0 <= i < |entries|
        ensures entries[i].0 in t2.rows && (g, t2.rows[entries[i].0].id) in t2.links
      {
        if i < last {
          assert entries[..last][i] == entries[i];
          UpsertAndLinkKeeps(before, g, entries[last].0, entries[last].1, entries[i].0);
        }
      }
    }
  }

  /** The url of the last entry with key `k`, if any: what an element loop leaves in `k`'s row. */
  function LastUrl<K(==)>(entries: seq<(K, string)>, k: K): Option<string> {
    if entries == [] then None
    else if entries[|entries| - 1].0 == k then Some(entries[|entries| - 1].1)
    else LastUrl(entries[..|entries| - 1], k)
  }

  /** Every entry's key is stored and linked to gallery row `g`. */
  predicate Covered<K>(t: Table<K>, g: nat, entries: seq<(K, string)>) {
    forall i :: 0 <= i < |entries| ==> entries[i].0 in t.rows && (g, t.rows[entries[i].0].id) in t.links
  }

  /** The rows with the url of every key named in `entries` set to its last one. */
  function Relabel<K(==)>(rows: map<K, Row>, entries: seq<(K, string)>): map<K, Row> {
    map k | k in rows :: if LastUrl(entries, k).Some? then Row(rows[k].id, LastUrl(entries, k).value) else rows[k]
  }

  /** After an element loop every key of an entry holds the url of its last entry. */
  lemma {:induction false} LinkAllUrls<K>(t: Table<K>, g: nat, entries: seq<(K, string)>, k: K)
    requires LastUrl(entries, k).Some?
    ensures k in LinkAll(t, g, entries).rows
    ensures LinkAll(t, g, entries).rows[k].url == LastUrl(entries, k).value
  {
    var last := |entries| - 1;
    if entries[last].0 != k {
      LinkAllUrls(t, g, entries[..last], k);
    }
  }

  /** An element loop over keys already stored and linked only sets their urls. */
  lemma {:induction false} LinkAllCovered<K>(t: Table<K>, g: nat, entries: seq<(K, string)>)
    requires Covered(t, g, entries)
    ensures LinkAll(t, g, entries) == t.(rows := Relabel(t.rows, entries))
  {
    if entries == [] {
      assert Relabel(t.rows, entries) == t.rows;
    } else {
      var last := |entries| - 1;
      var init := entries[..last];
      var (key, url) := entries[last];
      assert Covered(t, g, init) by {
        forall i | 0 <= i < |init| ensures init[i].0 in t.rows && (g, t.rows[init[i].0].id) in t.links {
          assert init[i] == entries[i];
        }
      }
      LinkAllCovered(t, g, init);
      var v := t.(rows := Relabel(t.rows, init));
      assert key in t.rows && (g, t.rows[key].id) in t.links by {
        assert entries[last].0 == key;
      }
      assert v.rows[key].id == t.rows[key].id;
      assert UpsertAndLink(v, g, key, url) == v.(rows := v.rows[key := Row(t.rows[key].id, url)]);
      assert v.rows[key := Row(t.rows[key].id, url)] == Relabel(t.rows, entries);
    }
  }

  /** Running an element loop a second time with the same entries changes nothing. */
  lemma LinkAllIdempotent<K>(t: Table<K>, g: nat, entries: seq<(K, string)>)
    ensures LinkAll(LinkAll(t, g, entries), g, entries) == LinkAll(t, g, entries)
  {
    var t2 := LinkAll(t, g, entries);
    LinkAllLinksEach(t, g, entries);
    LinkAllCovered(t2, g, entries);
    forall k | k in t2.rows && LastUrl(entries, k).Some?
      ensures Row(t2.rows[k].id, LastUrl(entries, k).value) == t2.rows[k]
    {
      LinkAllUrls(t, g, entries, k);
    }
    assert Relabel(t2.rows, entries) == t2.rows;
  }

  // ---------------------------------------------------------------------------
  // The database
  // ---------------------------------------------------------------------------

  datatype TagKey = TagKey(name: string, male: bool, female: bool)

  datatype LanguageRow = LanguageRow(id: nat, localName: Option<string>, url: Option<string>)

  /** A row of `galleries`; `files` is the JSON column holding the file list. */
  datatype GalleryRow = GalleryRow(
    id: nat, title: string, date: string, galleryType: string, externalId: string,
    sceneIndexes: seq<I32>, relatedIds: seq<string>, japaneseTitle: Option<string>,
    languageId: Option<nat>, translationGroupId: seq<string>,
    video: Option<string>, videofilename: Option<string>, galleryUrl: Option<string>,
    datePublished: Option<string>, blocked: bool, files: seq<D.File>)

  datatype Db = Db(
    galleries: map<I32, GalleryRow>, nextGallery: nat,
    languages: map<string, LanguageRow>, nextLanguage: nat,
    tags: Table<TagKey>, artists: Table<string>, groups: Table<string>,
    characters: Table<string>, parodies: Table<string>)

  predicate ValidDb(db: Db) {
    && (forall k :: k in db.galleries ==> db.galleries[k].id < db.nextGallery)
    && (forall n :: n in db.languages ==> db.languages[n].id < db.nextLanguage)
    && ValidTable(db.tags) && ValidTable(db.artists) && ValidTable(db.groups)
    && ValidTable(db.characters) && ValidTable(db.parodies)
  }

  /** The column rule of `upsert_language`: a new value wins; a missing one keeps what is stored. */
  function Merge(incoming: Option<string>, existing: Option<string>): Option<string> {
    match (incoming, existing)
    case (Some(v), _) => Some(v)
    case (None, Some(e)) => Some(e)
    case (None, None) => None
  }

  /** The merge never forgets a stored value, and merging the same value again changes nothing. */
  lemma MergeRule(incoming: Option<string>, existing: Option<string>)
    ensures incoming.Some? ==> Merge(incoming, existing) == incoming
    ensures incoming.None? ==> Merge(incoming, existing) == existing
    ensures Merge(incoming, existing).None? <==> incoming.None? && existing.None?
    ensures Merge(incoming, Merge(incoming, existing)) == Merge(incoming, existing)
  {
  }

  /** `upsert_language`: find by name; merge into the existing row, or insert one. */
  function UpsertLanguage(db: Db, name: string, localName: Option<string>, url: Option<string>): (r: (Db, nat)) {
    if name in db.languages then
      var ex := db.languages[name];
      (db.(languages := db.languages[name := LanguageRow(ex.id, Merge(localName, ex.localName), Merge(url, ex.url))]), ex.id)
    else
      (db.(languages := db.languages[name := LanguageRow(db.nextLanguage, localName, url)],
           nextLanguage := db.nextLanguage + 1), db.nextLanguage)
  }

  /** The language row after an upsert, and the id it keeps or receives. */
  lemma UpsertLanguageRow(db: Db, name: string, localName: Option<string>, url: Option<string>)
    requires ValidDb(db)
    ensures var (db1, id) := UpsertLanguage(db, name, localName, url);
      && name in db1.languages && db1.languages[name].id == id
      && (name in db.languages ==>
            && id == db.languages[name].id
            && db1.languages[name].localName == Merge(localName, db.languages[name].localName)
            && db1.languages[name].url == Merge(url, db.languages[name].url))
      && (name !in db.languages ==>
            && id == db.nextLanguage && db1.languages[name] == LanguageRow(id, localName, url)
            && forall n :: n in db.languages ==> db.languages[n].id != id)
      && (forall n :: n in db.languages && n != name ==> n in db1.languages && db1.languages[n] == db.languages[n])
      && ValidDb(db1)
      && db1.galleries == db.galleries && db1.tags == db.tags && db1.artists == db.artists
    ensures var (db1, id) := UpsertLanguage(db, name, localName, url);
      && db1.languages.Keys == db.languages.Keys + {name}
      && db1.nextLanguage == (if name in db.languages then db.nextLanguage else db.nextLanguage + 1)
      && db1.nextGallery == db.nextGallery && db1.groups == db.groups
      && db1.characters == db.characters && db1.parodies == db.parodies
  {
  }

  /** `gallery.languages.iter().map(|lang| lang.galleryid.clone()).collect()`. */
  function TranslationGroup(g: D.Gallery): (ids: seq<string>)
    ensures |ids| == |g.languages| && forall i :: 0 <= i < |ids| ==> ids[i] == g.languages[i].galleryid
  {
    Map(g.languages, (l: D.Language) => l.galleryid)
  }

  /** The columns `upsert_gallery` sets, under row id `id`. */
  function GalleryColumns(g: D.Gallery, id: nat, languageId: Option<nat>): GalleryRow {
    GalleryRow(id, g.title, g.date, g.galleryType, g.id, g.sceneIndexes, g.related, g.japaneseTitle,
               languageId, TranslationGroup(g), g.video, g.videofilename, g.galleryUrl, g.datePublished,
               g.blocked, g.files)
  }

  /** `upsert_gallery`: find by `gallery_id`; overwrite every column under the existing id, or insert. */
  function UpsertGallery(db: Db, g: D.Gallery, languageId: Option<nat>): (r: (Db, nat)) {
    if g.galleryId in db.galleries then
      var id := db.galleries[g.galleryId].id;
      (db.(galleries := db.galleries[g.galleryId := GalleryColumns(g, id, languageId)]), id)
    else
      var id := db.nextGallery;
      (db.(galleries := db.galleries[g.galleryId := GalleryColumns(g, id, languageId)], nextGallery := id + 1), id)
  }

  /** The gallery row afterwards holds the record's columns; a re-import keeps the row id. */
  lemma UpsertGalleryRow(db: Db, g: D.Gallery, languageId: Option<nat>)
    requires ValidDb(db)
    ensures var (db1, id) := UpsertGallery(db, g, languageId);
      && g.galleryId in db1.galleries
      && db1.galleries[g.galleryId] == GalleryColumns(g, id, languageId)
      && (g.galleryId in db.galleries ==> id == db.galleries[g.galleryId].id)
      && (g.galleryId !in db.galleries ==> forall k :: k in db.galleries ==> db.galleries[k].id != id)
      && (forall k :: k in db.galleries && k != g.galleryId ==> k in db1.galleries && db1.galleries[k] == db.galleries[k])
      && ValidDb(db1)
  {
  }

  function TagEntries(tags: seq<D.Tag>): seq<(TagKey, string)> {
    Map(tags, (t: D.Tag) => (TagKey(t.tag, t.male, t.female), t.url))
  }

  function ArtistEntries(xs: seq<D.Artist>): seq<(string, string)> {
    Map(xs, (x: D.Artist) => (x.artist, x.url))
  }

  function GroupEntries(xs: seq<D.Group>): seq<(string, string)> {
    Map(xs, (x: D.Group) => (x.group, x.url))
  }

  function CharacterEntries(xs: seq<D.Character>): seq<(string, string)> {
    Map(xs, (x: D.Character) => (x.character, x.url))
  }

  function ParodyEntries(xs: seq<D.Parody>): seq<(string, string)> {
    Map(xs, (x: D.Parody) => (x.parody, x.url))
  }

  /** Step 1 of `insert_gallery`: the language row, only when the gallery names a language. */
  function LanguageStep(db: Db, g: D.Gallery): (r: (Db, Option<nat>)) {
    if g.language.Some? then
      var (db1, id) := UpsertLanguage(db, g.language.value, g.languageLocalname, g.languageUrl);
      (db1, Some(id))
    else (db, None)
  }

  /** Without a language the languages table is not touched and the gallery row has no language id. */
  lemma NoLanguageUntouched(db: Db, g: D.Gallery)
    requires g.language.None?
    ensures LanguageStep(db, g) == (db, None)
    ensures var (db1, gid) := UpsertGallery(db, g, None);
      db1.languages == db.languages && db1.galleries[g.galleryId].languageId.None?
  {
  }

  /** Steps 1 and 2 of `insert_gallery`: the language row, then the gallery row and its id. */
  function GalleryStep(db: Db, g: D.Gallery): (Db, nat) {
    var (db1, languageId) := LanguageStep(db, g);
    UpsertGallery(db1, g, languageId)
  }

  /** The five element loops of `insert_gallery`, linking to gallery row `gid`. */
  function LinkElements(db: Db, gid: nat, g: D.Gallery): Db {
    db.(tags := LinkAll(db.tags, gid, TagEntries(g.tags)),
        artists := LinkAll(db.artists, gid, ArtistEntries(g.artists)),
        groups := LinkAll(db.groups, gid, GroupEntries(g.groups)),
        characters := LinkAll(db.characters, gid, CharacterEntries(g.characters)),
        parodies := LinkAll(db.parodies, gid, ParodyEntries(g.parodies)))
  }

  /** The whole of a committed `insert_gallery`. */
  function InsertGalleryEffect(db: Db, g: D.Gallery): Db {
    var (db2, gid) := GalleryStep(db, g);
    LinkElements(db2, gid, g)
  }

  /** The language id the gallery row refers to: the row of the gallery's language, if it names one. */
  lemma GalleryStepRow(db: Db, g: D.Gallery)
    requires ValidDb(db)
    ensures var (db2, gid) := GalleryStep(db, g);
      && ValidDb(db2)
      && g.galleryId in db2.galleries
      && (g.language.Some? ==> g.language.value in db2.languages)
      && db2.galleries[g.galleryId] ==
           GalleryColumns(g, gid, if g.language.Some? then Some(db2.languages[g.language.value].id) else None)
      && (g.galleryId in db.galleries ==> gid == db.galleries[g.galleryId].id)
      && db2.tags == db.tags && db2.artists == db.artists && db2.groups == db.groups
      && db2.characters == db.characters && db2.parodies == db.parodies
  {
    var (db1, languageId) := LanguageStep(db, g);
    if g.language.Some? {
      UpsertLanguageRow(db, g.language.value, g.languageLocalname, g.languageUrl);
    }
    UpsertGalleryRow(db1, g, languageId);
  }

  lemma LinkElementsValid(db: Db, gid: nat, g: D.Gallery)
    requires ValidDb(db)
    ensures ValidDb(LinkElements(db, gid, g))
  {
    LinkAllValid(db.tags, gid, TagEntries(g.tags));
    LinkAllValid(db.artists, gid, ArtistEntries(g.artists));
    LinkAllValid(db.groups, gid, GroupEntries(g.groups));
    LinkAllValid(db.characters, gid, CharacterEntries(g.characters));
    LinkAllValid(db.parodies, gid, ParodyEntries(g.parodies));
  }

  /** Every tag and artist of the gallery has a row linked to gallery row `gid`. */
  lemma LinkElementsTagsArtists(db: Db, gid: nat, g: D.Gallery)
    ensures var db3 := LinkElements(db, gid, g);
      && (forall i :: 0 <= i < |g.tags| ==>
            var key := TagKey(g.tags[i].tag, g.tags[i].male, g.tags[i].female);
            key in db3.tags.rows && (gid, db3.tags.rows[key].id) in db3.tags.links)
      && (forall i :: 0 <= i < |g.artists| ==>
            g.artists[i].artist in db3.artists.rows
            && (gid, db3.artists.rows[g.artists[i].artist].id) in db3.artists.links)
  {
    LinkAllLinksEach(db.tags, gid, TagEntries(g.tags));
    LinkAllLinksEach(db.artists, gid, ArtistEntries(g.artists));
  }

  /** Every group, character and parody of the gallery has a row linked to gallery row `gid`. */
  lemma LinkElementsOthers(db: Db, gid: nat, g: D.Gallery)
    ensures var db3 := LinkElements(db, gid, g);
      && (forall i :: 0 <= i < |g.groups| ==>
            g.groups[i].group in db3.groups.rows
            && (gid, db3.groups.rows[g.groups[i].group].id) in db3.groups.links)
      && (forall i :: 0 <= i < |g.characters| ==>
            g.characters[i].character in db3.characters.rows
            && (gid, db3.characters.rows[g.characters[i].character].id) in db3.characters.links)
      && (forall i :: 0 <= i < |g.parodies| ==>
            g.parodies[i].parody in db3.parodies.rows
            && (gid, db3.parodies.rows[g.parodies[i].parody].id) in db3.parodies.links)
  {
    LinkAllLinksEach(db.groups, gid, GroupEntries(g.groups));
    LinkAllLinksEach(db.characters, gid, CharacterEntries(g.characters));
    LinkAllLinksEach(db.parodies, gid, ParodyEntries(g.parodies));
  }

  /**
   * A committed insert keeps the store valid, stores every column of the gallery
   * (with the id of its language's row) and links every tag and artist to it.
   */
  lemma InsertGalleryStores(db: Db, g: D.Gallery)
    requires ValidDb(db)
    ensures var db3 := InsertGalleryEffect(db, g);
      && ValidDb(db3)
      && g.galleryId in db3.galleries
      && (g.language.Some? ==> g.language.value in db3.languages)
      && var gid := db3.galleries[g.galleryId].id;
      && db3.galleries[g.galleryId] ==
           GalleryColumns(g, gid, if g.language.Some? then Some(db3.languages[g.language.value].id) else None)
      && db3.galleries[g.galleryId].title == g.title
      && db3.galleries[g.galleryId].files == g.files
      && (g.galleryId in db.galleries ==> gid == db.galleries[g.galleryId].id)
      && (forall i :: 0 <= i < |g.tags| ==>
            var key := TagKey(g.tags[i].tag, g.tags[i].male, g.tags[i].female);
            key in db3.tags.rows && (gid, db3.tags.rows[key].id) in db3.tags.links)
      && (forall i :: 0 <= i < |g.artists| ==>
            g.artists[i].artist in db3.artists.rows
            && (gid, db3.artists.rows[g.artists[i].artist].id) in db3.artists.links)
  {
    GalleryStepRow(db, g);
    var (db2, gid) := GalleryStep(db, g);
    LinkElementsValid(db2, gid, g);
    LinkElementsTagsArtists(db2, gid, g);
    assert InsertGalleryEffect(db, g).galleries == db2.galleries;
    assert InsertGalleryEffect(db, g).languages == db2.languages;
  }

  /** A committed insert keeps the store valid. */
  lemma EffectKeepsValid(db: Db, g: D.Gallery)
    ensures ValidDb(db) ==> ValidDb(InsertGalleryEffect(db, g))
  {
    if ValidDb(db) {
      InsertGalleryStores(db, g);
    }
  }

  /** A committed insert adds the gallery's key and keeps every other gallery row as it was. */
  lemma InsertGalleryKeepsOthers(db: Db, g: D.Gallery)
    ensures var db3 := InsertGalleryEffect(db, g);
      && db3.galleries.Keys == db.galleries.Keys + {g.galleryId}
      && forall k :: k in db.galleries && k != g.galleryId ==> db3.galleries[k] == db.galleries[k]
  {
    var (db1, languageId) := LanguageStep(db, g);
    assert db1.galleries == db.galleries;
    var (db2, gid) := GalleryStep(db, g);
    assert db2.galleries == db1.galleries[g.galleryId := GalleryColumns(g, gid, languageId)];
    assert InsertGalleryEffect(db, g).galleries == db2.galleries;
  }

  /** Upserting a language a second time with the same columns changes nothing and returns the same id. */
  lemma UpsertLanguageIdempotent(db: Db, name: string, localName: Option<string>, url: Option<string>)
    ensures var (db1, id) := UpsertLanguage(db, name, localName, url);
      UpsertLanguage(db1, name, localName, url) == (db1, id)
  {
    var (db1, id) := UpsertLanguage(db, name, localName, url);
    var ex := db1.languages[name];
    if name in db.languages {
      MergeRule(localName, db.languages[name].localName);
      MergeRule(url, db.languages[name].url);
    } else {
      MergeRule(localName, localName);
      MergeRule(url, url);
    }
    assert db1.languages[name := LanguageRow(ex.id, Merge(localName, ex.localName), Merge(url, ex.url))] == db1.languages;
  }

  /**
   * Importing the same gallery again leaves the store as the first import did:
   * every upsert finds its row with the same columns and every link is there.
   */
  lemma InsertGalleryIdempotent(db: Db, g: D.Gallery)
    ensures InsertGalleryEffect(InsertGalleryEffect(db, g), g) == InsertGalleryEffect(db, g)
  {
    var (db1, languageId) := LanguageStep(db, g);
    var (db2, gid) := GalleryStep(db, g);
    var db3 := InsertGalleryEffect(db, g);
    if g.language.Some? {
      UpsertLanguageIdempotent(db, g.language.value, g.languageLocalname, g.languageUrl);
    }
    assert db3.languages == db1.languages;
    assert LanguageStep(db3, g) == (db3, languageId);
    assert db3.galleries[g.galleryId] == GalleryColumns(g, gid, languageId);
    assert db3.galleries[g.galleryId := GalleryColumns(g, gid, languageId)] == db3.galleries;
    assert GalleryStep(db3, g) == (db3, gid);
    LinkAllIdempotent(db2.tags, gid, TagEntries(g.tags));
    LinkAllIdempotent(db2.artists, gid, ArtistEntries(g.artists));
    LinkAllIdempotent(db2.groups, gid, GroupEntries(g.groups));
    LinkAllIdempotent(db2.characters, gid, CharacterEntries(g.characters));
    LinkAllIdempotent(db2.parodies, gid, ParodyEntries(g.parodies));
  }

  // ---------------------------------------------------------------------------
  // Serial counters
  // ---------------------------------------------------------------------------

  /** The next value of each table's serial sequence. */
  datatype Counters = Counters(gallery: nat, language: nat, tags: nat, artists: nat,
                               groups: nat, characters: nat, parodies: nat)

  function CountersOf(db: Db): Counters {
    Counters(db.nextGallery, db.nextLanguage, db.tags.next, db.artists.next,
             db.groups.next, db.characters.next, db.parodies.next)
  }

  /** The store with its rows and links kept and its sequences set to `c`. */
  function WithCounters(db: Db, c: Counters): (r: Db)
    ensures CountersOf(r) == c
  {
    db.(nextGallery := c.gallery, nextLanguage := c.language,
        tags := db.tags.(next := c.tags), artists := db.artists.(next := c.artists),
        groups := db.groups.(next := c.groups), characters := db.characters.(next := c.characters),
        parodies := db.parodies.(next := c.parodies))
  }

  /** No sequence of `a` is ahead of the one of `b`. */
  predicate CountersLe(a: Counters, b: Counters) {
    && a.gallery <= b.gallery && a.language <= b.language && a.tags <= b.tags
    && a.artists <= b.artists && a.groups <= b.groups && a.characters <= b.characters
    && a.parodies <= b.parodies
  }

  /** An element loop only moves its table's sequence forward. */
  lemma {:induction false} LinkAllNextGrows<K>(t: Table<K>, gid: nat, entries: seq<(K, string)>)
    ensures t.next <= LinkAll(t, gid, entries).next
  {
    if entries != [] {
      LinkAllNextGrows(t, gid, entries[..|entries| - 1]);
    }
  }

  /** The language and gallery upserts move their own sequences forward and leave the lookup tables alone. */
  lemma GalleryStepCounters(db: Db, g: D.Gallery)
    ensures var (db2, _) := GalleryStep(db, g);
      && db.nextGallery <= db2.nextGallery && db.nextLanguage <= db2.nextLanguage
      && db2.tags == db.tags && db2.artists == db.artists && db2.groups == db.groups
      && db2.characters == db.characters && db2.parodies == db.parodies
  {
    var (db1, languageId) := LanguageStep(db, g);
    assert db.nextGallery == db1.nextGallery && db.nextLanguage <= db1.nextLanguage;
  }

  /** A whole `insert_gallery` only moves sequences forward. */
  lemma EffectCountersGrow(db: Db, g: D.Gallery)
    ensures CountersLe(CountersOf(db), CountersOf(InsertGalleryEffect(db, g)))
  {
    var (db2, gid) := GalleryStep(db, g);
    GalleryStepCounters(db, g);
    LinkAllNextGrows(db.tags, gid, TagEntries(g.tags));
    LinkAllNextGrows(db.artists, gid, ArtistEntries(g.artists));
    LinkAllNextGrows(db.groups, gid, GroupEntries(g.groups));
    LinkAllNextGrows(db.characters, gid, CharacterEntries(g.characters));
    LinkAllNextGrows(db.parodies, gid, ParodyEntries(g.parodies));
  }

  /**
   * The store after a rolled-back `insert_gallery`: every row and link as
   * before, each sequence moved on as far as the whole insert would have
   * moved it, never backwards.
   */
  function RolledBack(db: Db, g: D.Gallery): (r: Db)
    ensures r == WithCounters(db, CountersOf(r))
    ensures CountersLe(CountersOf(db), CountersOf(r))
    ensures CountersLe(CountersOf(r), CountersOf(InsertGalleryEffect(db, g)))
    ensures ValidDb(db) ==> ValidDb(r)
  {
    EffectCountersGrow(db, g);
    WithCounters(db, CountersOf(InsertGalleryEffect(db, g)))
  }

  // ---------------------------------------------------------------------------
  // The store
  // ---------------------------------------------------------------------------

  /** The tables as `create_tables` leaves them: empty, every serial counter at 1. */
  function EmptyDb(): Db {
    Db(map[], 1, map[], 1, Table(map[], 1, []), Table(map[], 1, []), Table(map[], 1, []),
       Table(map[], 1, []), Table(map[], 1, []))
  }

  class GalleryStore {
    var db: Db

    constructor()
      ensures db == EmptyDb()
      ensures ValidDb(db)
    {
      db := EmptyDb();
    }

    /**
     * `insert_gallery`. `failed` stands for a database error anywhere inside the
     * transaction. The rollback restores every row and link; serial sequences are
     * not transactional, so they stay moved on (see `RolledBack`).
     */
    method InsertGallery(g: D.Gallery, failed: bool) returns (r: Result<(), string>)
      modifies this
      ensures r.Err? <==> failed
      ensures db == if failed then RolledBack(old(db), g) else InsertGalleryEffect(old(db), g)
      ensures old(ValidDb(db)) ==> ValidDb(db)
    {
      if failed {
        db := RolledBack(db, g);
        return Err("database error");
      }
      EffectKeepsValid(db, g);
      var (db2, gid) := GalleryStep(db, g);
      var tags := LinkAllMethod(db2.tags, gid, TagEntries(g.tags));
      var artists := LinkAllMethod(db2.artists, gid, ArtistEntries(g.artists));
      var groups := LinkAllMethod(db2.groups, gid, GroupEntries(g.groups));
      var characters := LinkAllMethod(db2.characters, gid, CharacterEntries(g.characters));
      var parodies := LinkAllMethod(db2.parodies, gid, ParodyEntries(g.parodies));
      db := db2.(tags := tags, artists := artists, groups := groups, characters := characters, parodies := parodies);
      assert db == LinkElements(db2, gid, g);
      return Ok(());
    }
  }

  /** The tag, artist, group, character and parody loops of `insert_gallery`. */
  method LinkAllMethod<K>(t: Table<K>, gid: nat, entries: seq<(K, string)>) returns (t2: Table<K>)
    ensures t2 == LinkAll(t, gid, entries)
  {
    t2 := t;
    for i := 0 to |entries|
      invariant t2 == LinkAll(t, gid, entries[..i])
    {
      assert entries[..i + 1][..i] == entries[..i];
      t2 := UpsertAndLink(t2, gid, entries[i].0, entries[i].1);
    }
    assert entries[..|entries|] == entries;
  }
}
