/** The records held in the dashboard's single in-memory document (`AppData`
    in app.js) and the default document it starts from. A field that a
    loaded or imported JSON document may lack is an `Option`. */
module Records {
  import opened Wrappers

  /** A gallery photo. Photos made by the add form carry every field; the
      copies kept in browser storage keep only `id`, `title`, `date`,
      `filename` and, when it is short, `url`. */
  datatype Photo = Photo(
    id: int,
    title: Option<string>,
    date: Option<string>,
    url: Option<string>,
    filename: Option<string>,
    size: Option<int>,
    mimeType: Option<string>)

  datatype Video = Video(id: int, title: string, category: string, url: string)

  datatype Note = Note(id: int, title: string, content: string, category: string, date: string)

  datatype TimelineEvent = TimelineEvent(date: string, title: string, description: string)

  datatype Social = Social(
    tiktok: Option<string>,
    instagram: Option<string>,
    youtube: Option<string>,
    twitter: Option<string>)

  datatype Profile = Profile(
    name: Option<string>,
    birthday: Option<string>,
    bio: Option<string>,
    social: Option<Social>,
    profilePicture: Option<string>,
    updated: Option<string>)

  datatype Settings = Settings(theme: Option<string>, sidebarCollapsed: Option<bool>)

  /** The three collections a favorite can point into (`type` in app.js). */
  datatype Kind = Photos | Videos | Notes

  /** Ids of favorite records, one list per collection. */
  datatype Favorites = Favorites(photos: seq<int>, videos: seq<int>, notes: seq<int>) {

    /** `favorites[type]`. */
    function Get(k: Kind): seq<int> {
      match k
      case Photos => photos
      case Videos => videos
      case Notes => notes
    }

    /** The same favorites with the list of kind `k` replaced. */
    function Set(k: Kind, ids: seq<int>): (r: Favorites)
      ensures r.Get(k) == ids
      ensures forall other :: other != k ==> r.Get(other) == Get(other)
    {
      match k
      case Photos => this.(photos := ids)
      case Videos => this.(videos := ids)
      case Notes => this.(notes := ids)
    }
  }

  /** The whole document: what is saved, loaded, exported and imported. */
  datatype AppData = AppData(
    profile: Profile,
    settings: Settings,
    photos: seq<Photo>,
    videos: seq<Video>,
    notes: seq<Note>,
    favorites: Favorites,
    timeline: seq<TimelineEvent>)

  /** Record ids, as first-class functions for the generic list helpers. */
  function PhotoId(p: Photo): int { p.id }
  function VideoId(v: Video): int { v.id }
  function NoteId(n: Note): int { n.id }

  const NoFavorites := Favorites([], [], [])

  /** The placeholder the built-in profile uses for a social link it does not have. */
  const PlaceholderLink := "#"

  /** The built-in profile; `today` is the date string the clock gives at start-up. */
  function DefaultProfile(today: string): Profile {
    Profile(
      Some("Lougee Neyra"),
      Some("March 15, 1999"),
      Some("CRUSH NG LAHAT"),
      Some(Social(Some(PlaceholderLink), Some(PlaceholderLink), Some(PlaceholderLink), Some(PlaceholderLink))),
      Some("images/Lougee Neyra.jpg"),
      Some(today))
  }

  const DefaultSettings := Settings(Some("dark"), Some(false))

  /** A profile with every field present. */
  predicate ProfileComplete(p: Profile) {
    p.name.Some? && p.birthday.Some? && p.bio.Some? && p.social.Some? &&
    p.profilePicture.Some? && p.updated.Some?
  }

  /** Settings with every field present. */
  predicate SettingsComplete(s: Settings) {
    s.theme.Some? && s.sidebarCollapsed.Some?
  }

  /** `defaultData`: the built-in profile and settings, both complete and
      dated `today`, with no records, no favorites and no timeline. */
  function DefaultData(today: string): (r: AppData)
    ensures ProfileComplete(r.profile) && SettingsComplete(r.settings)
    ensures r.profile.updated == Some(today) && r.settings.theme == Some("dark")
    ensures r.photos == [] && r.videos == [] && r.notes == [] && r.timeline == []
    ensures r.favorites == NoFavorites
  {
    AppData(DefaultProfile(today), DefaultSettings, [], [], [], NoFavorites, [])
  }
}
