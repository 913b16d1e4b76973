# Fan dashboard state model

A Dafny model of the state logic of a single-page fan dashboard (`app.js`).
The page holds one in-memory document: the subject's profile, the page
settings, lists of photos, videos and notes, three lists of favorite ids
(photos, videos, notes) and a timeline. It keeps that document in browser
storage and mirrors it to a hosted backend when the user is signed in.

The model covers:

- **The document and its operations** (`dashboard.dfy`, class
  `Dashboard.AppState`). New photos, videos and notes go to the front of
  their list. Deleting filters the record out and removes the id's first
  entry from the matching favorites list. The favorite toggle appends an
  absent id and removes the first entry of a present one. "Clear photos"
  empties the photos and the photo favorites. The local save, the load
  and the backup import are methods of the class too. Every method states
  the whole new state in terms of the old one. The delete, toggle,
  remove-favorite and clear methods also keep the favorites lists
  duplicate-free when they start that way. Loading and importing install
  the favorites the file holds, and those may repeat ids.
- **The list operations** (`lists.dfy`): filtering by id, `indexOf` and
  `splice(i, 1)`, and the toggle, with their lemmas. Filtering keeps
  order. Adding a record and then deleting it restores the list. Toggling
  an absent id twice restores the list exactly. On duplicate-free lists,
  removing leaves no copy of the id, and toggling flips membership.
- **Storage shaping** (`storage.dfy`). The storage copy reduces photos to
  small records and keeps a URL only when it is short and not inline. It
  caps the lists at 10 photos, 30 videos and 50 notes. When the copy is
  too large, the photo list is cut to its last five entries. A
  quota-exceeded save falls back to a profile-and-settings document.
  Loading fills in defaults. The import merge is covered too. Lemmas show
  that cleaning is idempotent and that a save-then-load gives the stored
  copy back. Export-then-import restores everything except photos.
- **The cloud save** (`cloud.dfy`): the network-error test over its ten
  patterns, the back-off `min(1000·2^(k-1), 5000)` ms, and how one attempt
  ends. `Cloud.RunAttempts` is the attempt loop, proved against a contract
  that fixes the number of attempts and the waits. `Cloud.SaveToCloud`
  adds the eligibility test and states the result and whether cloud
  saving stays on.
- **String helpers** (`urls.dfy` over `text.dfy`): the YouTube embed
  rewrite, the `https://` prefix for social links, and the storage path
  read from a public photo URL. They are modelled with JavaScript's
  `indexOf`, `includes` and `split` semantics.

Parameters stand in for every input from outside the program. Record ids
(`Date.now()`) and today's date string are parameters. So are the length of
a serialised document, the parsed contents of storage or of a backup file,
and the outcome of each storage write. The backend's answer to each
attempt's profile lookup and upsert is a parameter too.

Where the code and its comments disagree, the model follows the code. The
size cut keeps `photos.slice(-5)`, but new photos are put at the front. So
the cut keeps the five *oldest* photos, although the comment beside it
(app.js:195) and the alert it shows say "most recent".
`Storage.ShrinkDropsNewest` states this. The embed rewrite takes
`url.split('v=')[1]`, so the video id ends at the first `&` and also at a
second `v=`.

## Model

| member | source | states |
|---|---|---|
| `Dashboard.AppState.constructor` | app.js:7-38 | the page starts from the built-in document: built-in profile and settings, every list and favorites list empty |
| `Dashboard.AppState.AddPhoto` | app.js:958-983 | a file over 5 MiB or a failed upload (no or empty URL) changes nothing; otherwise the new photo with all its fields goes to the front; nothing else changes |
| `Dashboard.AppState.AddVideo` | app.js:1007-1014 | the new video goes to the front of the videos; nothing else changes |
| `Dashboard.AppState.AddNote` | app.js:1039-1047 | the new note, dated today, goes to the front of the notes; nothing else changes |
| `Dashboard.AppState.DeletePhoto` | app.js:1953-1971 | reports whether some photo has the id; if so, every photo with it is gone, the rest keep their order, and the first favorite entry of the id is spliced out; if not, nothing changes; duplicate-free favorites stay so and then no longer hold the id |
| `Dashboard.AppState.DeleteVideo` | app.js:1980-1987 | no video with the id remains, the rest keep their order, the first video-favorite entry of the id is removed, the other lists are unchanged; duplicate-free favorites stay so and lose the id |
| `Dashboard.AppState.DeleteNote` | app.js:1996-2003 | the same for notes and note favorites |
| `Dashboard.AppState.ToggleFavorite` | app.js:1927-1941 | the favorites of the given kind become their toggle by the id, the other kinds and the rest of the document are unchanged; on duplicate-free favorites, membership of the id flips and the lists stay duplicate-free |
| `Dashboard.AppState.RemoveFavorite` | app.js:1909-1913 | the first entry of the id is spliced out of the favorites of the given kind, an absent id changes nothing, nothing else changes |
| `Dashboard.AppState.ClearPhotos` | app.js:1148-1149 | photos and photo favorites become empty, everything else is unchanged |
| `Dashboard.AppState.SaveToLocalStorage` | app.js:184-232 | photos become `ShrinkPhotos` of the old photos (slice(-5) when the copy exceeds 2 MiB and there are more than five); nothing else changes; succeeds exactly when the write does; stores the storage copy, or the fallback document on a quota error, or nothing on another error |
| `Dashboard.AppState.LoadFromLocalStorage` | app.js:236-266 | a parsed entry becomes the document with defaults filled in; a missing or unparseable entry gives the built-in document, which is then saved; the result is false only for an unparseable entry |
| `Dashboard.AppState.ImportBackup` | app.js:1859-1882 | a file that does not parse, or lacks profile or settings, is refused and nothing changes; otherwise the document becomes the import merge; photos never change |
| `Records.DefaultData` | app.js:8-35 | the built-in document: the built-in profile and settings, both complete, the profile dated today and the theme dark; no records, favorites or timeline |
| `Lists.RemoveId` | app.js:1966 | the filtered list holds exactly the records of the input whose id differs from the given one, and is no longer |
| `Lists.RemoveIdAppend` | app.js:1982 | filtering distributes over concatenation, so kept records keep their relative order |
| `Lists.RemoveIdAbsent` | app.js:1998 | filtering a list with no record of that id returns it unchanged |
| `Lists.RemoveIdUndoesPrepend` | app.js:1998 | deleting a record just put at the front restores the list when its id was new there |
| `Lists.IndexOf` | app.js:1911 | -1 exactly when the value is absent; otherwise an index holding it with no earlier occurrence |
| `Lists.RemoveFirst` | app.js:1911-1913 | `indexOf`, then `splice(i, 1)` when found; its contract is stated by `Lists.RemoveFirstSpec` and `Lists.RemoveFirstNoDup` |
| `Lists.RemoveFirstSpec` | app.js:1911-1913 | an absent id leaves the list unchanged; otherwise the result is one shorter and re-inserting the id at its first index rebuilds the list |
| `Lists.RemoveFirstNoDup` | app.js:1968-1971 | on a duplicate-free list the result is duplicate-free, holds no copy of the id, and its multiset lost exactly that id |
| `Lists.Toggle` | app.js:1927-1941 | `push` when absent, else the `indexOf`/`splice` removal; its contract is stated by `Lists.ToggleSpec`, `Lists.ToggleTwiceAbsent` and `Lists.ToggleNoDup` |
| `Lists.ToggleSpec` | app.js:1928-1936 | toggling an absent id appends it at the end; toggling a present id removes its first occurrence and keeps the rest in order |
| `Lists.ToggleTwiceAbsent` | app.js:1927-1941 | toggling an absent id twice gives back exactly the original list |
| `Lists.ToggleNoDup` | app.js:1927-1941 | on a duplicate-free list, toggling keeps it duplicate-free, flips membership of the id, and toggling twice restores the same multiset of ids |
| `Storage.MinimalPhoto` | app.js:158-172 | the storage copy keeps the id; keeps the URL exactly when it is present, non-empty, not `data:image`-prefixed and under 1000 characters; a present title, date or file name is kept and a missing one becomes the empty string; size and type are dropped |
| `Storage.MinimalPhotoIdempotent` | app.js:158-172 | reducing a reduced photo changes nothing |
| `Storage.CleanForStorage` | app.js:148-181 | at most 10 photos, 30 videos and 50 notes; videos and notes are prefixes of the originals; profile, settings, favorites and timeline unchanged; the exact lists are in `Storage.CleanForStorageSpec` |
| `Storage.CleanForStorageSpec` | app.js:148-181 | at most 10 photos, 30 videos, 50 notes; each list is the front of the original, photos reduced one by one; profile, settings, favorites and timeline copied unchanged |
| `Storage.CleanForStorageIdempotent` | app.js:148-181 | cleaning a cleaned document changes nothing |
| `Storage.ShrinkPhotos` | app.js:190-197 | the list changes only when the copy is over 2 MiB, and then to exactly five photos; which five is stated by `Storage.ShrinkPhotosSpec` |
| `Storage.ShrinkPhotosSpec` | app.js:190-197 | over 2 MiB with more than five photos, the result is the last five photos in order; otherwise the list is unchanged |
| `Storage.ShrinkDropsNewest` | app.js:194-195 | since adds prepend, a photo just added to five or more others is dropped by the cut, and the five oldest remain |
| `Storage.FallbackDocument` | app.js:219-227 | the fallback keeps the profile and settings; the rest is in `Storage.FallbackDocumentSpec` |
| `Storage.FallbackDocumentSpec` | app.js:219-227 | the fallback keeps profile and settings, has every list and favorites list empty, and is unchanged by cleaning |
| `Storage.WithDefaults` | app.js:243-249 | the loaded profile and settings have every field; field by field in `Storage.WithDefaultsSpec` |
| `Storage.WithDefaultsSpec` | app.js:243-249 | after loading, profile and settings have every field; a missing profile (settings) is the built-in one; otherwise each profile field and each settings field is the stored one when present and the built-in one when missing; present lists and favorites are kept, missing ones are empty |
| `Storage.SaveLoadRoundTrip` | app.js:236-249 | loading the saved storage copy of a document with complete profile and settings gives that copy back |
| `Storage.MergeImport` | app.js:1874-1882 | refused exactly when profile or settings is missing; an accepted import keeps the photos; the other fields in `Storage.MergeImportSpec` |
| `Storage.MergeImportSpec` | app.js:1869-1882 | rejected exactly when profile or settings is missing; on success photos are untouched, profile and settings come from the file, and videos, notes, favorites and timeline come from the file when present and stay otherwise |
| `Storage.ExportImportRoundTrip` | app.js:1874-1884 | importing an exported document restores it except for photos, which stay those of the importing state |
| `Storage.MergeImportIdempotent` | app.js:1874-1882 | importing the same file twice equals importing it once |
| `Cloud.AnyPatternIn` | app.js:467-470 | true exactly when some pattern occurs in the text or in a non-empty code |
| `Cloud.IsNetworkError` | app.js:450-471 | no error is not a network error; an error is one exactly when one of the ten patterns occurs in its message (its `toString()` when the message is empty) or in its non-empty code |
| `Cloud.NetworkErrorByPattern` | app.js:454-468 | any error text with one of the ten patterns inside is a network error |
| `Cloud.NotNetworkError` | app.js:450-471 | no error, or an error whose text and code match no pattern, is not a network error |
| `Cloud.Backoff` | app.js:410 | every wait lies between 1000 and 5000 ms; the exact values are in `Cloud.BackoffValues` |
| `Cloud.BackoffValues` | app.js:410 | the waits are 1000, 2000, 4000 ms, then 5000 ms from attempt four on; between 1000 and 5000 and never shrinking |
| `Cloud.IsRlsViolation` | app.js:402 | an error is a refusal exactly when its message contains the row-level-security text, so the truthiness test on the message adds nothing |
| `Cloud.ErrorVerdict` | app.js:399-416 | an error is retried exactly when it is a network error and not a row-level-security refusal; a refusal switches cloud saving off; an error is never a success |
| `Cloud.CloudEligible` | app.js:344 | no cloud save is tried when cloud saving is off, when there is no user id, or when the id is a local one (`local-user-` prefix) |
| `Cloud.Classify` | app.js:354-420 | an attempt succeeds exactly when the profile lookup found a row, the payload is at most 800000 characters and the upsert succeeded; it is retried exactly when the error it ended with (thrown by the lookup, or returned by the upsert) is a network error and not a refusal; it switches cloud saving off exactly when the lookup answered 406 or that error is a refusal; an oversized payload ends the save |
| `Cloud.RunAttempts` | app.js:354-446 | between 1 and maxRetries attempts (none when maxRetries < 1); every attempt but the last was a network failure and was followed by the wait `Backoff(k)` after attempt k; the last ended the save or was attempt maxRetries |
| `Cloud.SaveToCloud` | app.js:343-447 | nothing is tried unless cloud saving is on and the user id is a non-local one; otherwise the attempts go as in `RunAttempts`, each ending as `Classify` says; saved exactly when the last attempt succeeded; cloud saving stays on unless the last attempt switched it off |
| `Urls.EmbedUrl` | app.js:1228-1237 | the result is the input or starts with the embed prefix; a URL with neither YouTube form is returned unchanged |
| `Urls.EmbedOfWatchUrl` | app.js:1228-1230 | for a watch URL the result is the embed prefix plus the id after the first `v=`; the id holds no `&` and no `v=`, and the URL goes on with `&`, `v=` or nothing |
| `Urls.EmbedOfShortUrl` | app.js:1231-1233 | for a short URL the result is the embed prefix plus the id after the first `youtu.be/`; the id holds no `?` and no `youtu.be/`, and the URL goes on with `?`, `youtu.be/` or nothing |
| `Urls.SocialHref` | app.js:900-919 | a missing, empty or `#` link is inactive; an active link has an `http://` or `https://` scheme; it is the given text, or that text with `https://` in front when it had no scheme |
| `Urls.SocialHrefIdempotent` | app.js:902-906 | prefixing an already rendered link changes nothing |
| `Urls.StoragePath` | app.js:122-128 | no path exactly when the URL lacks `/object/public/photos/`; a path holds no such marker and is shorter than the URL |
| `Urls.StoragePathShape` | app.js:122-128 | the URL is `split(marker)[0]` (no marker starts inside it), the marker, the path, then nothing or another marker; no marker starts inside the path, even one that runs on into what follows, so by `Text.SplitSecondUnique` the path is exactly `split(marker)[1]` |
| `Urls.StoragePathOfPublicUrl` | app.js:122-128 | a URL built as base, marker, path gives that path back when the appended marker is the first one and the path holds none |
| `Text.Before` | app.js:1229 | `split(sep)[0]` is a prefix inside which no separator starts (overlapping ones included), and is either the whole string or followed by a separator |
| `Text.BeforeUnique` | app.js:1229 | any prefix with no separator starting inside it, which is the whole string or is followed by a separator, is `split(sep)[0]`, so `Text.Before` states it completely |
| `Text.SplitSecond` | app.js:122-128 | `split(sep)[1]` holds no separator, is shorter than the string, and no separator starts inside it in the text after the first separator, not even one running on past its end |
| `Text.SplitSecondShape` | app.js:1229 | `split(sep)[1]` sits right after the first separator and is followed by nothing or by another separator; no separator starts inside it, even one that runs on into what follows |
| `Text.SplitSecondUnique` | app.js:122-128 | any piece after the first separator that has no separator starting inside it, and is followed by nothing or by a separator, is `split(sep)[1]`, so `Text.SplitSecondShape` states it completely |

## Left out

- Browser dialogs (`confirm`, `alert`), rendering, page refresh, the theme
  and sidebar, and navigation are user-interface code. Each operation is
  modelled on its confirmed path; a declined dialog changes nothing.
- `saveData` (app.js:474-) only chains the local and the cloud save, so it
  is not modelled as an operation of its own. Each operation's follow-up
  save is the separate `SaveToLocalStorage` and `SaveToCloud` calls.
- Backend calls are network calls, so they are not made. This covers
  sign-in, photo upload and public URL, storage removal on delete and
  clear, and profile select, insert and upsert. Their results are inputs,
  and `URL.revokeObjectURL` is not modelled either.
- `loadDataFromSupabase` (app.js:269-340) is not part of this model; its
  defaults are the list defaults of the local load.
- JSON parsing and serialising are library code. A parsed document is a
  `StoredDoc` value, and a serialised length is a number given by the
  caller. JSON `null` fields, non-string field values, and a favorites
  object that lacks one of its three lists are not represented.
- Strings are `seq<char>`, one `char` per UTF-16 code unit. Lengths
  compare as the code's `.length` does only under that reading.
- `{ ...defaultData }` copies the document shallowly, so the page's lists
  are the default document's own arrays until the first load replaces
  them. The model gives each state its own values, so this sharing (and
  what later in-place adds do to the default document) is not captured.
- `Cloud.SaveToCloud`: the `useSupabase` flag is returned as `stillOn`
  instead of being assigned, so the caller applies it. The payload length
  is one number for all attempts. Document changes made by other handlers
  during the waits are not modelled, and neither are the logged
  `lastError` and the sleeps themselves.
- `Dashboard.AppState.SaveToLocalStorage`: the fallback write after a
  quota error is taken to succeed. An error thrown by that second write
  (which the code does not catch) is not modelled.
- The TikTok flag set by the video grid (app.js:1226, app.js:1235) only
  chooses markup, so it is left out. The URL itself is kept, as modelled.
- The timeline sort (`new Date(...)` parsing), the storage-usage figures
  (floating-point percentages) and the stats counters are left out. They
  depend on browser date parsing and floating point, and are only shown.
