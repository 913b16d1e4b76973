/** How the dashboard shapes its document for browser storage and how it
    reads a document back: the storage copy with small photo records and
    capped lists, the photo cut made when that copy is too large, the
    fallback document written when the quota is exceeded, the defaults
    filled in on load, and the merge of an imported backup file.
    JSON parsing and serialising are outside the model: a parsed document
    is a `StoredDoc` value, and the length of a serialised document is a
    number given by the caller. */
module Storage {
  import opened Wrappers
  import opened Records

  const MaxStoredPhotos := 10
  const MaxStoredVideos := 30
  const MaxStoredNotes := 50
  const InlineImagePrefix := "data:image"
  const MaxStoredUrlLength := 1000
  /** The largest serialised document, in characters, written as it is. */
  const MaxLocalChars := 2 * 1024 * 1024
  /** How many photos are kept when the document is too large. */
  const ShrunkPhotoCount := 5

  /** A photo keeps its URL in storage when it has a non-empty one that is
      not an inline `data:image` URL and is shorter than 1000 characters. */
  predicate KeepsUrl(url: Option<string>) {
    url.Some? && url.value != "" && !(InlineImagePrefix <= url.value) && |url.value| < MaxStoredUrlLength
  }

  /** The storage copy of a photo: id, title, date and file name (empty
      text when missing) and, if `KeepsUrl`, the URL; size and type go. */
  function MinimalPhoto(p: Photo): (r: Photo)
    ensures r.id == p.id
    ensures r.url.Some? <==> KeepsUrl(p.url)
    ensures r.url.Some? ==> r.url == p.url
    ensures p.title.Some? ==> r.title == p.title
    ensures p.title.None? ==> r.title == Some("")
    ensures p.date.Some? ==> r.date == p.date
    ensures p.date.None? ==> r.date == Some("")
    ensures p.filename.Some? ==> r.filename == p.filename
    ensures p.filename.None? ==> r.filename == Some("")
    ensures r.size.None? && r.mimeType.None?
  {
    Photo(
      p.id,
      Some(p.title.GetOr("")),
      Some(p.date.GetOr("")),
      if KeepsUrl(p.url) then p.url else None,
      Some(p.filename.GetOr("")),
      None,
      None)
  }

  /** A storage copy is its own storage copy. */
  lemma MinimalPhotoIdempotent(p: Photo)
    ensures MinimalPhoto(MinimalPhoto(p)) == MinimalPhoto(p)
  {
  }

  function MinimalPhotos(s: seq<Photo>): seq<Photo> {
    seq(|s|, i requires 0 <= i < |s| => MinimalPhoto(s[i]))
  }

  /** `s.slice(0, n)`. */
  function Take<T>(s: seq<T>, n: nat): seq<T> {
    if |s| <= n then s else s[..n]
  }

  /** `cleanDataForStorage`: the document with every photo reduced to its
      storage copy and the photo, video and note lists cut to their first
      10, 30 and 50 entries. */
  function CleanForStorage(d: AppData): (r: AppData)
    ensures |r.photos| <= MaxStoredPhotos && |r.videos| <= MaxStoredVideos && |r.notes| <= MaxStoredNotes
    ensures r.videos <= d.videos && r.notes <= d.notes
    ensures r.profile == d.profile && r.settings == d.settings
    ensures r.favorites == d.favorites && r.timeline == d.timeline
  {
    d.(photos := Take(MinimalPhotos(d.photos), MaxStoredPhotos),
       videos := Take(d.videos, MaxStoredVideos),
       notes := Take(d.notes, MaxStoredNotes))
  }

  function Min(a: nat, b: nat): nat { if a <= b then a else b }

  /** The storage copy holds at most 10 photos, 30 videos and 50 notes; each
      list is the front of the original, in order, photos reduced one by
      one; everything else is copied unchanged. */
  lemma CleanForStorageSpec(d: AppData)
    ensures var c := CleanForStorage(d);
      |c.photos| == Min(|d.photos|, MaxStoredPhotos) &&
      |c.videos| == Min(|d.videos|, MaxStoredVideos) &&
      |c.notes| == Min(|d.notes|, MaxStoredNotes) &&
      (forall i :: 0 <= i < |c.photos| ==> c.photos[i] == MinimalPhoto(d.photos[i])) &&
      c.videos <= d.videos && c.notes <= d.notes &&
      c.profile == d.profile && c.settings == d.settings &&
      c.favorites == d.favorites && c.timeline == d.timeline
  {
  }

  /** Cleaning an already cleaned document changes nothing. */
  lemma CleanForStorageIdempotent(d: AppData)
    ensures CleanForStorage(CleanForStorage(d)) == CleanForStorage(d)
  {
    var c := CleanForStorage(d);
    var cc := CleanForStorage(c);
    assert |cc.photos| == |c.photos|;
    forall i | 0 <= i < |c.photos|
      ensures cc.photos[i] == c.photos[i]
    {
      MinimalPhotoIdempotent(d.photos[i]);
    }
  }

  /** The photo list after the size check of `saveDataToLocalStorage`: when
      the serialised storage copy is longer than 2 MiB characters and there
      are more than five photos, `photos.slice(-5)`; otherwise unchanged. */
  function ShrinkPhotos(photos: seq<Photo>, cleanedChars: nat): (r: seq<Photo>)
    ensures r != photos ==> cleanedChars > MaxLocalChars && |r| == ShrunkPhotoCount
  {
    if cleanedChars > MaxLocalChars && |photos| > ShrunkPhotoCount
    then photos[|photos| - ShrunkPhotoCount..]
    else photos
  }

  /** Shrinking keeps the last five photos, in order, or leaves the list be. */
  lemma ShrinkPhotosSpec(photos: seq<Photo>, cleanedChars: nat)
    ensures var r := ShrinkPhotos(photos, cleanedChars);
      if cleanedChars > MaxLocalChars && |photos| > ShrunkPhotoCount
      then |r| == ShrunkPhotoCount && photos == photos[..|photos| - ShrunkPhotoCount] + r
      else r == photos
  {
  }

  /** New photos are put at the front, so the cut keeps the oldest five: a
      photo just added to five or more others is the first to go. */
  lemma ShrinkDropsNewest(newest: Photo, older: seq<Photo>, cleanedChars: nat)
    requires cleanedChars > MaxLocalChars && |older| >= ShrunkPhotoCount && newest !in older
    ensures ShrinkPhotos([newest] + older, cleanedChars) == older[|older| - ShrunkPhotoCount..]
    ensures newest !in ShrinkPhotos([newest] + older, cleanedChars)
  {
    var all := [newest] + older;
    assert all[|all| - ShrunkPhotoCount..] == older[|older| - ShrunkPhotoCount..];
    assert forall p :: p in older[|older| - ShrunkPhotoCount..] ==> p in older;
  }

  /** The document written when browser storage reports its quota exceeded:
      profile and settings only. */
  function FallbackDocument(d: AppData): (r: AppData)
    ensures r.profile == d.profile && r.settings == d.settings
  {
    AppData(d.profile, d.settings, [], [], [], NoFavorites, [])
  }

  /** The fallback keeps profile and settings, and it is already in storage
      shape, so the cleaning step would not change it. */
  lemma FallbackDocumentSpec(d: AppData)
    ensures var f := FallbackDocument(d);
      f.profile == d.profile && f.settings == d.settings &&
      CleanForStorage(f) == f &&
      f.photos == [] && f.videos == [] && f.notes == [] && f.timeline == [] &&
      f.favorites.photos == [] && f.favorites.videos == [] && f.favorites.notes == []
  {
    var f := FallbackDocument(d);
    assert MinimalPhotos(f.photos) == [];
  }

  /** A parsed JSON document: any top-level field may be missing. */
  datatype StoredDoc = StoredDoc(
    profile: Option<Profile>,
    settings: Option<Settings>,
    photos: Option<seq<Photo>>,
    videos: Option<seq<Video>>,
    notes: Option<seq<Note>>,
    favorites: Option<Favorites>,
    timeline: Option<seq<TimelineEvent>>)

  /** The JSON document that serialising `d` produces. */
  function Document(d: AppData): StoredDoc {
    StoredDoc(Some(d.profile), Some(d.settings), Some(d.photos), Some(d.videos),
              Some(d.notes), Some(d.favorites), Some(d.timeline))
  }

  /** `{ ...base, ...over }` for one field. */
  function Pick<T>(over: Option<T>, base: Option<T>): Option<T> {
    if over.Some? then over else base
  }

  /** `{ ...base, ...over }` for a profile (a shallow merge: `social` is
      taken whole from `over` when `over` has it). */
  function OverlayProfile(base: Profile, over: Option<Profile>): Profile {
    match over
    case None => base
    case Some(o) =>
      Profile(Pick(o.name, base.name), Pick(o.birthday, base.birthday), Pick(o.bio, base.bio),
              Pick(o.social, base.social), Pick(o.profilePicture, base.profilePicture),
              Pick(o.updated, base.updated))
  }

  function OverlaySettings(base: Settings, over: Option<Settings>): Settings {
    match over
    case None => base
    case Some(o) => Settings(Pick(o.theme, base.theme), Pick(o.sidebarCollapsed, base.sidebarCollapsed))
  }

  /** The document `loadDataFromLocalStorage` keeps after parsing: missing
      lists become empty, missing favorites become three empty lists, and
      profile and settings are laid over the built-in ones field by field. */
  function WithDefaults(doc: StoredDoc, today: string): (r: AppData)
    ensures ProfileComplete(r.profile) && SettingsComplete(r.settings)
  {
    AppData(
      OverlayProfile(DefaultProfile(today), doc.profile),
      OverlaySettings(DefaultSettings, doc.settings),
      doc.photos.GetOr([]),
      doc.videos.GetOr([]),
      doc.notes.GetOr([]),
      doc.favorites.GetOr(NoFavorites),
      doc.timeline.GetOr([]))
  }

  /** A field of a merged record: the overlay's value when it has one,
      the base's otherwise. */
  predicate FieldFrom<T(==)>(r: Option<T>, over: Option<T>, base: Option<T>) {
    (over.Some? ==> r == over) && (over.None? ==> r == base)
  }

  /** After loading, profile and settings have every field. Without a
      stored profile (or settings) the built-in one is used whole; with
      one, each field it has wins and each field it lacks is the built-in
      one. A list or favorites that the file had is kept as it was, and one
      it lacked is empty. */
  lemma WithDefaultsSpec(doc: StoredDoc, today: string)
    ensures var d := WithDefaults(doc, today);
      ProfileComplete(d.profile) && SettingsComplete(d.settings) &&
      (doc.photos.Some? ==> d.photos == doc.photos.value) &&
      (doc.photos.None? ==> d.photos == []) &&
      (doc.videos.Some? ==> d.videos == doc.videos.value) &&
      (doc.videos.None? ==> d.videos == []) &&
      (doc.notes.Some? ==> d.notes == doc.notes.value) &&
      (doc.notes.None? ==> d.notes == []) &&
      (doc.timeline.Some? ==> d.timeline == doc.timeline.value) &&
      (doc.timeline.None? ==> d.timeline == []) &&
      (doc.favorites.Some? ==> d.favorites == doc.favorites.value) &&
      (doc.favorites.None? ==> d.favorites == NoFavorites)
    ensures var d := WithDefaults(doc, today);
      var base := DefaultProfile(today);
      (doc.profile.None? ==> d.profile == base) &&
      (doc.profile.Some? ==>
        var p := doc.profile.value;
        FieldFrom(d.profile.name, p.name, base.name) &&
        FieldFrom(d.profile.birthday, p.birthday, base.birthday) &&
        FieldFrom(d.profile.bio, p.bio, base.bio) &&
        FieldFrom(d.profile.social, p.social, base.social) &&
        FieldFrom(d.profile.profilePicture, p.profilePicture, base.profilePicture) &&
        FieldFrom(d.profile.updated, p.updated, base.updated))
    ensures var d := WithDefaults(doc, today);
      (doc.settings.None? ==> d.settings == DefaultSettings) &&
      (doc.settings.Some? ==>
        FieldFrom(d.settings.theme, doc.settings.value.theme, DefaultSettings.theme) &&
        FieldFrom(d.settings.sidebarCollapsed, doc.settings.value.sidebarCollapsed, DefaultSettings.sidebarCollapsed))
  {
  }

  /** Saving a document with a complete profile and settings and loading it
      back gives the stored copy again, on any day. */
  lemma {:induction false} SaveLoadRoundTrip(d: AppData, today: string)
    requires ProfileComplete(d.profile) && SettingsComplete(d.settings)
    ensures WithDefaults(Document(CleanForStorage(d)), today) == CleanForStorage(d)
  {
  }

  /** The `importData` merge. A file without `profile` or without
      `settings` is rejected (nothing). Otherwise profile and settings come
      from the file, videos, notes, favorites and timeline come from the
      file when it has them and stay as they were when it does not, and
      photos always stay as they were. */
  function MergeImport(d: AppData, doc: StoredDoc): (r: Option<AppData>)
    ensures r.None? <==> doc.profile.None? || doc.settings.None?
    ensures r.Some? ==> r.value.photos == d.photos
  {
    if doc.profile.None? || doc.settings.None? then None
    else Some(d.(profile := doc.profile.value,
                 settings := doc.settings.value,
                 videos := doc.videos.GetOr(d.videos),
                 notes := doc.notes.GetOr(d.notes),
                 favorites := doc.favorites.GetOr(d.favorites),
                 timeline := doc.timeline.GetOr(d.timeline)))
  }

  /** The import is rejected exactly when profile or settings is missing;
      an accepted import never touches photos and takes each other field
      from the file when present, keeping the current one otherwise. */
  lemma MergeImportSpec(d: AppData, doc: StoredDoc)
    ensures MergeImport(d, doc).None? <==> doc.profile.None? || doc.settings.None?
    ensures MergeImport(d, doc).Some? ==>
      var m := MergeImport(d, doc).value;
      m.photos == d.photos &&
      m.profile == doc.profile.value && m.settings == doc.settings.value &&
      m.videos == (if doc.videos.Some? then doc.videos.value else d.videos) &&
      m.notes == (if doc.notes.Some? then doc.notes.value else d.notes) &&
      m.favorites == (if doc.favorites.Some? then doc.favorites.value else d.favorites) &&
      m.timeline == (if doc.timeline.Some? then doc.timeline.value else d.timeline)
  {
  }

  /** Exporting a document and importing the file into any state restores
      everything but the photos, which stay those of the importing state. */
  lemma ExportImportRoundTrip(current: AppData, exported: AppData)
    ensures MergeImport(current, Document(exported)) == Some(exported.(photos := current.photos))
  {
  }

  /** Importing the same file twice is the same as importing it once. */
  lemma MergeImportIdempotent(d: AppData, doc: StoredDoc)
    requires MergeImport(d, doc).Some?
    ensures MergeImport(MergeImport(d, doc).value, doc) == MergeImport(d, doc)
  {
  }
}
