/** The dashboard's in-memory document (`AppData` in app.js) as an object
    whose fields the operations update in place: adding and deleting
    records, the favorite toggle, clearing the photos, the local save with
    its size cut and quota fallback, loading, and importing a backup.
    Each operation here is the part that runs once the user has confirmed;
    the browser dialogs, the page refresh and the save that follows each
    change are outside it (the local save is its own operation below). */
module Dashboard {
  import opened Wrappers
  import opened Records
  import opened Lists
  import opened Storage

  /** The largest image file the add-photo form accepts, in bytes. */
  const MaxPhotoFileBytes := 5 * 1024 * 1024

  /** How the browser's storage write went. */
  datatype WriteOutcome = Written | QuotaExceeded | WriteFailed

  /** What browser storage held under the dashboard's key at load time. */
  datatype SavedEntry = NoEntry | Unparseable | Parsed(doc: StoredDoc)

  class AppState {
    var profile: Profile
    var settings: Settings
    var photos: seq<Photo>
    var videos: seq<Video>
    var notes: seq<Note>
    var favorites: Favorites
    var timeline: seq<TimelineEvent>

    /** The document the fields make up. */
    function Data(): AppData
      reads this
    {
      AppData(profile, settings, photos, videos, notes, favorites, timeline)
    }

    /** No favorites list names the same id twice. The start-up document
        has it, and the delete, toggle, remove and clear operations below
        keep it; loading a stored document or importing a backup installs
        whatever favorites the file holds, which may repeat ids. */
    predicate FavoritesDistinct()
      reads this
    {
      NoDup(favorites.photos) && NoDup(favorites.videos) && NoDup(favorites.notes)
    }

    /** The document the page starts from, before anything is loaded;
        `today` is the clock's date at start-up, the same date the load
        below must be given. */
    constructor (today: string)
      ensures Data() == DefaultData(today)
      ensures FavoritesDistinct()
    {
      var d := DefaultData(today);
      profile, settings := d.profile, d.settings;
      photos, videos, notes := [], [], [];
      favorites, timeline := NoFavorites, [];
    }

    /** `addPhoto`: an image of at most 5 MiB whose upload gave a URL is put
        at the front of the photos; otherwise nothing changes. */
    method AddPhoto(id: int, title: string, date: string, fileName: string, fileSize: int,
                    fileType: string, uploadUrl: Option<string>)
      returns (added: bool)
      modifies this
      ensures added <==> fileSize <= MaxPhotoFileBytes && uploadUrl.Some? && uploadUrl.value != ""
      ensures added ==>
        photos == [Photo(id, Some(title), Some(date), uploadUrl, Some(fileName), Some(fileSize), Some(fileType))]
                  + old(photos)
      ensures !added ==> photos == old(photos)
      ensures Data() == old(Data()).(photos := photos)
    {
      added := false;
      if fileSize > MaxPhotoFileBytes {
        return;
      }
      if uploadUrl.None? || uploadUrl.value == "" {
        return;
      }
      photos := [Photo(id, Some(title), Some(date), uploadUrl, Some(fileName), Some(fileSize), Some(fileType))]
                + photos;
      added := true;
    }

    /** `addVideo`: the new video goes to the front. */
    method AddVideo(id: int, title: string, category: string, url: string)
      modifies this
      ensures videos == [Video(id, title, category, url)] + old(videos)
      ensures Data() == old(Data()).(videos := videos)
    {
      videos := [Video(id, title, category, url)] + videos;
    }

    /** `addNote`: the new note, dated `today`, goes to the front. */
    method AddNote(id: int, title: string, content: string, category: string, today: string)
      modifies this
      ensures notes == [Note(id, title, content, category, today)] + old(notes)
      ensures Data() == old(Data()).(notes := notes)
    {
      notes := [Note(id, title, content, category, today)] + notes;
    }

    /** `deletePhoto`: when a photo has the id, every photo with it goes,
        the rest keep their order, and the id's first entry in the photo
        favorites goes; when none has it, nothing changes. */
    method DeletePhoto(id: int) returns (deleted: bool)
      modifies this
      ensures deleted <==> exists p :: p in old(photos) && p.id == id
      ensures deleted ==> photos == RemoveId(old(photos), PhotoId, id)
      ensures deleted ==> favorites == old(favorites).Set(Kind.Photos, RemoveFirst(old(favorites).photos, id))
      ensures !deleted ==> photos == old(photos) && favorites == old(favorites)
      ensures forall p :: p in photos ==> p.id != id
      ensures Data() == old(Data()).(photos := photos, favorites := favorites)
      ensures old(FavoritesDistinct()) ==> FavoritesDistinct()
      ensures deleted && old(FavoritesDistinct()) ==> id !in favorites.photos
    {
      deleted := exists p :: p in photos && p.id == id;
      if !deleted {
        return;
      }
      if NoDup(favorites.photos) {
        RemoveFirstNoDup(favorites.photos, id);
      }
      photos := RemoveId(photos, PhotoId, id);
      favorites := favorites.Set(Kind.Photos, RemoveFirst(favorites.photos, id));
    }

    /** `deleteVideo`: every video with the id goes, the rest keep their
        order, and the id's first entry in the video favorites goes. */
    method DeleteVideo(id: int)
      modifies this
      ensures videos == RemoveId(old(videos), VideoId, id)
      ensures favorites == old(favorites).Set(Kind.Videos, RemoveFirst(old(favorites).videos, id))
      ensures forall v :: v in videos ==> v.id != id
      ensures Data() == old(Data()).(videos := videos, favorites := favorites)
      ensures old(FavoritesDistinct()) ==> FavoritesDistinct() && id !in favorites.videos
    {
      if NoDup(favorites.videos) {
        RemoveFirstNoDup(favorites.videos, id);
      }
      videos := RemoveId(videos, VideoId, id);
      favorites := favorites.Set(Kind.Videos, RemoveFirst(favorites.videos, id));
    }

    /** `deleteNote`: every note with the id goes, the rest keep their
        order, and the id's first entry in the note favorites goes. */
    method DeleteNote(id: int)
      modifies this
      ensures notes == RemoveId(old(notes), NoteId, id)
      ensures favorites == old(favorites).Set(Kind.Notes, RemoveFirst(old(favorites).notes, id))
      ensures forall n :: n in notes ==> n.id != id
      ensures Data() == old(Data()).(notes := notes, favorites := favorites)
      ensures old(FavoritesDistinct()) ==> FavoritesDistinct() && id !in favorites.notes
    {
      if NoDup(favorites.notes) {
        RemoveFirstNoDup(favorites.notes, id);
      }
      notes := RemoveId(notes, NoteId, id);
      favorites := favorites.Set(Kind.Notes, RemoveFirst(favorites.notes, id));
    }

    /** `addToFavorites`: the favorite toggle on the list of `kind`. On
        duplicate-free favorites it flips whether the id is a favorite. */
    method ToggleFavorite(kind: Kind, id: int)
      modifies this
      ensures favorites == old(favorites).Set(kind, Toggle(old(favorites).Get(kind), id))
      ensures Data() == old(Data()).(favorites := favorites)
      ensures old(FavoritesDistinct()) ==>
        FavoritesDistinct() && (id in favorites.Get(kind) <==> id !in old(favorites).Get(kind))
    {
      var ids := favorites.Get(kind);
      if NoDup(ids) {
        ToggleNoDup(ids, id);
      }
      if id !in ids {
        favorites := favorites.Set(kind, ids + [id]);
      } else {
        var index := IndexOf(ids, id);
        if index > -1 {
          favorites := favorites.Set(kind, ids[..index] + ids[index + 1..]);
        }
      }
    }

    /** `removeFavorite`: the id's first entry in the list of `kind` goes;
        an id that is not a favorite changes nothing. */
    method RemoveFavorite(kind: Kind, id: int)
      modifies this
      ensures favorites == old(favorites).Set(kind, RemoveFirst(old(favorites).Get(kind), id))
      ensures id !in old(favorites).Get(kind) ==> favorites == old(favorites)
      ensures Data() == old(Data()).(favorites := favorites)
      ensures old(FavoritesDistinct()) ==> FavoritesDistinct() && id !in favorites.Get(kind)
    {
      var ids := favorites.Get(kind);
      if NoDup(ids) {
        RemoveFirstNoDup(ids, id);
      }
      var index := IndexOf(ids, id);
      if index > -1 {
        assert ids[..index] + ids[index + 1..] == RemoveFirst(ids, id);
        favorites := favorites.Set(kind, ids[..index] + ids[index + 1..]);
      }
    }

    /** "Clear photos": no photos and no photo favorites are left. */
    method ClearPhotos()
      modifies this
      ensures photos == [] && favorites == old(favorites).(photos := [])
      ensures Data() == old(Data()).(photos := [], favorites := favorites)
      ensures old(FavoritesDistinct()) ==> FavoritesDistinct()
    {
      photos := [];
      favorites := favorites.(photos := []);
    }

    /** `saveDataToLocalStorage`. `cleanedChars` is the length of the
        serialised storage copy of the document; `outcome` is how the write
        went. A copy longer than 2 MiB characters first cuts the photos to
        the last five (when there are more). Returns whether the save
        succeeded and the document left in storage: the storage copy after
        the cut, the profile-and-settings fallback when the quota was
        exceeded, or nothing after any other failure. */
    method SaveToLocalStorage(cleanedChars: nat, outcome: WriteOutcome)
      returns (ok: bool, stored: Option<AppData>)
      modifies this
      ensures photos == ShrinkPhotos(old(photos), cleanedChars)
      ensures Data() == old(Data()).(photos := photos)
      ensures ok <==> outcome == Written
      ensures outcome == Written ==> stored == Some(CleanForStorage(Data()))
      ensures outcome == QuotaExceeded ==> stored == Some(FallbackDocument(Data()))
      ensures outcome == WriteFailed ==> stored == None
    {
      if cleanedChars > MaxLocalChars {
        if |photos| > ShrunkPhotoCount {
          photos := photos[|photos| - ShrunkPhotoCount..];
        }
      }
      match outcome
      case Written =>
        ok, stored := true, Some(CleanForStorage(Data()));
      case QuotaExceeded =>
        ok, stored := false, Some(FallbackDocument(Data()));
      case WriteFailed =>
        ok, stored := false, None;
    }

    /** `loadDataFromLocalStorage`. A parsed entry becomes the document with
        its defaults filled in; a missing or unparseable entry gives the
        built-in document, which is then saved. The result is false only
        for an unparseable entry. `today` must be the date the page started
        with: app.js computes the built-in document once, at start-up. */
    method LoadFromLocalStorage(entry: SavedEntry, today: string, cleanedChars: nat, outcome: WriteOutcome)
      returns (ok: bool, stored: Option<AppData>)
      modifies this
      ensures ok <==> !entry.Unparseable?
      ensures entry.Parsed? ==> Data() == WithDefaults(entry.doc, today) && stored == None
      ensures !entry.Parsed? ==> Data() == DefaultData(today) && FavoritesDistinct()
      ensures !entry.Parsed? && outcome == Written ==> stored == Some(CleanForStorage(DefaultData(today)))
      ensures !entry.Parsed? && outcome == QuotaExceeded ==> stored == Some(FallbackDocument(DefaultData(today)))
      ensures !entry.Parsed? && outcome == WriteFailed ==> stored == None
    {
      match entry
      case Parsed(doc) =>
        var d := WithDefaults(doc, today);
        profile, settings, photos, videos, notes := d.profile, d.settings, d.photos, d.videos, d.notes;
        favorites, timeline := d.favorites, d.timeline;
        ok, stored := true, None;
      case _ =>
        var d := DefaultData(today);
        profile, settings, photos, videos, notes := d.profile, d.settings, [], [], [];
        favorites, timeline := NoFavorites, [];
        assert ShrinkPhotos([], cleanedChars) == [];
        var saved;
        saved, stored := SaveToLocalStorage(cleanedChars, outcome);
        assert Data() == d;
        ok := entry.NoEntry?;
    }

    /** `importData`: `parsed` is the backup file as parsed (nothing when it
        could not be parsed). A file that parses and has profile and settings
        is merged in; any other file is refused and nothing changes. */
    method ImportBackup(parsed: Option<StoredDoc>) returns (ok: bool)
      modifies this
      ensures ok <==> parsed.Some? && parsed.value.profile.Some? && parsed.value.settings.Some?
      ensures ok ==> Some(Data()) == MergeImport(old(Data()), parsed.value)
      ensures !ok ==> Data() == old(Data())
      ensures photos == old(photos)
    {
      ok := false;
      if parsed.None? {
        return;
      }
      var doc := parsed.value;
      if doc.profile.None? || doc.settings.None? {
        return;
      }
      profile := doc.profile.value;
      settings := doc.settings.value;
      videos := doc.videos.GetOr(videos);
      notes := doc.notes.GetOr(notes);
      favorites := doc.favorites.GetOr(favorites);
      timeline := doc.timeline.GetOr(timeline);
      ok := true;
    }
  }
}
