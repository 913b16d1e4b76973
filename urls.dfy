/** The string helpers of the dashboard: the YouTube embed rewrite used by
    the video grid and the video modal, the scheme prefixing of profile
    social links, and the extraction of a storage path from a public photo
    URL. */
module Urls {
  import opened Wrappers
  import opened Text
  import Records

  const EmbedPrefix := "https://www.youtube.com/embed/"
  const WatchMarker := "youtube.com/watch?v="
  const VideoParam := "v="
  const ShortMarker := "youtu.be/"
  const QueryAnd := "&"
  const QueryStart := "?"

  /** A watch URL holds `v=`: it ends the watch marker. */
  lemma WatchHasParam(url: string)
    requires Contains(url, WatchMarker)
    ensures Contains(url, VideoParam)
  {
    var i := IndexOf(url, WatchMarker);
    assert OccursAt(WatchMarker, VideoParam, 18);
    NestedOccurrence(url, WatchMarker, VideoParam, i, 18);
  }

  /** The source URL of a video's player frame. A watch URL becomes the
      embed prefix followed by the piece of the URL after its first `v=`
      (up to the next `v=`), cut at the first `&`; a short URL becomes the
      embed prefix followed by the piece after `youtu.be/`, cut at the first
      `?`; any other URL, TikTok links included, is kept. */
  function EmbedUrl(url: string): (r: string)
    ensures r == url || EmbedPrefix <= r
    ensures !Contains(url, WatchMarker) && !Contains(url, ShortMarker) ==> r == url
  {
    if Contains(url, WatchMarker) then
      WatchHasParam(url);
      EmbedPrefix + Before(SplitSecond(url, VideoParam), QueryAnd)
    else if Contains(url, ShortMarker) then
      EmbedPrefix + Before(SplitSecond(url, ShortMarker), QueryStart)
    else
      url
  }

  /** What `Before(SplitSecond(url, marker), stop)` picks out: the URL is a
      head without the marker, the marker, the id, and a rest that is empty
      or starts with `stop` or with the marker; the id holds neither. */
  lemma PieceShape(url: string, marker: string, stop: string) returns (head: string, id: string, rest: string)
    requires |marker| > 0 && |stop| > 0 && Contains(url, marker)
    ensures head == Before(url, marker) && id == Before(SplitSecond(url, marker), stop)
    ensures url == head + marker + id + rest
    ensures !Contains(head, marker) && !Contains(id, marker) && !Contains(id, stop)
    ensures rest == [] || stop <= rest || marker <= rest
  {
    var piece := SplitSecond(url, marker);
    var rest1 := SplitSecondShape(url, marker);
    head := Before(url, marker);
    id := Before(piece, stop);
    var rest2 := BeforeTail(piece, stop);
    NoOccurrenceInPrefix(id, piece, marker);
    rest := rest2 + rest1;
    RegroupTails(url, head, marker, piece, rest1, id, rest2, marker, stop);
  }

  /** The watch-URL case of the embed rewrite, stated on the URL's shape:
      the embed id is what follows the first `v=`, it holds no `&` and no
      `v=`, and the URL goes on with `&`, with `v=`, or not at all. */
  lemma EmbedOfWatchUrl(url: string) returns (head: string, id: string, rest: string)
    requires Contains(url, WatchMarker)
    ensures EmbedUrl(url) == EmbedPrefix + id
    ensures head == Before(url, VideoParam)
    ensures url == head + VideoParam + id + rest
    ensures !Contains(head, VideoParam)
    ensures !Contains(id, QueryAnd) && !Contains(id, VideoParam)
    ensures rest == [] || QueryAnd <= rest || VideoParam <= rest
  {
    WatchHasParam(url);
    head, id, rest := PieceShape(url, VideoParam, QueryAnd);
  }

  /** The short-URL case: the embed id is what follows the first
      `youtu.be/`, it holds no `?` and no `youtu.be/`, and the URL goes on
      with `?`, with `youtu.be/`, or not at all. */
  lemma EmbedOfShortUrl(url: string) returns (head: string, id: string, rest: string)
    requires !Contains(url, WatchMarker) && Contains(url, ShortMarker)
    ensures EmbedUrl(url) == EmbedPrefix + id
    ensures head == Before(url, ShortMarker)
    ensures url == head + ShortMarker + id + rest
    ensures !Contains(head, ShortMarker)
    ensures !Contains(id, QueryStart) && !Contains(id, ShortMarker)
    ensures rest == [] || QueryStart <= rest || ShortMarker <= rest
  {
    head, id, rest := PieceShape(url, ShortMarker, QueryStart);
  }

  const HttpScheme := "http://"
  const HttpsScheme := "https://"

  /** How a profile social link is rendered. */
  datatype SocialLink = Inactive | Active(href: string)

  /** A missing, empty or placeholder (`#`) link is inactive; any other link
      is opened as given when it already has an `http://` or `https://`
      scheme, and with `https://` put in front otherwise. */
  function SocialHref(url: Option<string>): (r: SocialLink)
    ensures r.Inactive? <==> url.None? || url.value == "" || url.value == Records.PlaceholderLink
    ensures r.Active? ==> HttpScheme <= r.href || HttpsScheme <= r.href
    ensures r.Active? ==> r.href == url.value || r.href == HttpsScheme + url.value
    ensures r.Active? && (HttpScheme <= url.value || HttpsScheme <= url.value) ==> r.href == url.value
  {
    match url
    case None => Inactive
    case Some(u) =>
      if u == "" || u == Records.PlaceholderLink then Inactive
      else if HttpScheme <= u || HttpsScheme <= u then Active(u)
      else Active(HttpsScheme + u)
  }

  /** Rendering an already rendered link changes nothing. */
  lemma SocialHrefIdempotent(url: Option<string>)
    requires SocialHref(url).Active?
    ensures SocialHref(Some(SocialHref(url).href)) == SocialHref(url)
  {
    var h := SocialHref(url).href;
    assert |h| >= |HttpScheme|;
  }

  const PublicPhotosMarker := "/object/public/photos/"

  /** The path of a stored photo inside the `photos` bucket: the piece of its
      public URL after `/object/public/photos/` (up to a second one), or
      nothing when the URL does not have that form. */
  function StoragePath(url: string): (r: Option<string>)
    ensures r.None? <==> !Contains(url, PublicPhotosMarker)
    ensures r.Some? ==> !Contains(r.value, PublicPhotosMarker) && |r.value| < |url|
  {
    if Contains(url, PublicPhotosMarker) then
      Some(SplitSecond(url, PublicPhotosMarker))
    else None
  }

  /** A public URL built from a base and a path gives that path back, when
      the marker's first appearance is the one put after the base and the
      path holds no marker. */
  lemma StoragePathOfPublicUrl(base: string, path: string)
    requires IndexOf(base + PublicPhotosMarker, PublicPhotosMarker) == |base|
    requires !Contains(path, PublicPhotosMarker)
    ensures StoragePath(base + PublicPhotosMarker + path) == Some(path)
  {
    var url := base + PublicPhotosMarker + path;
    IndexOfExtend(base + PublicPhotosMarker, path, PublicPhotosMarker);
    assert url[|base| + |PublicPhotosMarker|..] == path;
  }

  /** A path read from a URL sits right after the URL's first marker (no
      marker starts inside the head, overlapping ones included) and is
      followed by nothing or by another marker; no marker starts inside
      the path, even one that runs on into what follows it. */
  lemma StoragePathShape(url: string) returns (head: string, rest: string)
    requires StoragePath(url).Some?
    ensures head == Before(url, PublicPhotosMarker)
    ensures url == head + PublicPhotosMarker + StoragePath(url).value + rest
    ensures !Contains(head, PublicPhotosMarker)
    ensures rest == [] || PublicPhotosMarker <= rest
    ensures forall j :: 0 <= j < |StoragePath(url).value| ==>
              !OccursAt(StoragePath(url).value + rest, PublicPhotosMarker, j)
  {
    head := Before(url, PublicPhotosMarker);
    rest := SplitSecondShape(url, PublicPhotosMarker);
  }
}
