# myMagicPlaylist — a Dafny model of its string and list logic

myMagicPlaylist is a Node script that picks a seed song on Spotify, collects the top
tracks of the seed artist's related artists, finds a YouTube video for each track,
downloads it with ytdl and transcodes it to MP3 with ffmpeg. It exists in two
revisions: `myMagicPlaylist.js` (seed from a console search, playlist from related
artists) and `myMagicPlaylist2.js` (tracks read from a Spotify playlist).

Almost all of it is calls into external services. This project models the
deterministic layer between those calls:

- **Title sanitisation.** The first revision's `formatVidName` walks the video title
  and rewrites every `/` to `_` through `String.prototype.replaceAt`. It is modelled
  as a method with a loop (`Sanitize.FormatVidName`), proved equal to the
  specification function `Sanitize.ReplaceAllSlashes`. The second revision's
  `vidName.replace("/", "_")` is modelled as `Revision2.ReplaceFirstSlash`, which
  rewrites only the first `/`, as a string pattern does in JavaScript. The two agree
  exactly on titles with at most one `/` (`Revision2.RevisionsAgreeIff`).
- **Names and paths.** The search query `"<artists[0].name> - <track.name>"`, the
  watch URL, `videos/<run id>/<title>.mp4` and `musics/<run id>/<title>.mp3`
  (module `Naming`). Paths are read back through `Naming.Segments`, their split at
  every `/`. "The file lands directly in the run's directory" is then "the path has
  exactly three segments". The first revision guarantees this for every title. The
  second guarantees it exactly for titles with at most one `/`.
- **Truncation and reshaping.** `slice(0, LIMIT_*)` on search results (10), related
  artists (2) and top tracks (2), and `items.map(i => i.track)`.
- **generatePlaylist.** Each related artist's top tracks are pushed into one playlist
  as the answers arrive. This is a method over a completion order, given as a
  parameter (`Catalog.GeneratePlaylist`). A resolved playlist is exactly the
  concatenation in completion order. As a multiset it equals the concatenation in
  artist order, and it has at most `LIMIT_ART * LIMIT_TRACKS` = 4 tracks. The first
  rejection in arrival order rejects the whole result.

External calls are parameters. The Spotify calls (`searchTracks`,
`getArtistRelatedArtists`, `getArtistTopTracks`, `getPlaylistTracks`) and the
YouTube search are functions from their arguments to `Ok(answer)` or `Err(error)`.
How the file stream that ytdl is piped into and the ffmpeg job end is a parameter of `Media.Url2Video` and
`Media.Video2Mp3`. The run id `PLAYLIST_ID = Date.now()` is an opaque string. The
path lemmas require it to hold no `/`, which holds for the decimal digits of a
timestamp.

Behaviour of the code that a reader might not expect, which the model keeps:

- One might expect the playlist in artist order. The code pushes tracks in the order
  the answers arrive. Only the multiset is order-independent.
- Any failed top-tracks request rejects `generatePlaylist` with the first error to
  arrive.
- A track without artists is not excluded by a precondition. `track.artists[0]` is
  dereferenced inside a Promise executor, so the throw rejects the promise. This is
  modelled as `Err(MissingPrimaryArtist)`.
- The second revision does not replace every `/` (see Findings).

A `char` stands for one Unicode scalar value. JavaScript's `s[i]` and `s.length`
count UTF-16 code units, so the two agree on text in the Basic Multilingual Plane.

## Model

| member | source | states |
|---|---|---|
| Sanitize.ReplaceAt | myMagicPlaylist.js:137-139 | a one-character replacement at an index inside the string keeps the length, puts the character at that index and keeps every other position; any replacement that fits overwrites exactly its span; an index at or past the end appends |
| Sanitize.ReplaceAllSlashes | myMagicPlaylist.js:127-135 | the sanitised title has the input's length, every `/` position holds `_`, every other position keeps its character, and no `/` is left |
| Sanitize.FormatVidName | myMagicPlaylist.js:128-135 | the loop that reassigns the title through replaceAt at each `/` returns exactly the sanitised title |
| Sanitize.ReplaceAllSlashesIdentity | myMagicPlaylist.js:128-135 | sanitising leaves a title unchanged if and only if it holds no `/` |
| Sanitize.ReplaceAllSlashesIdempotent | myMagicPlaylist.js:128-135 | sanitising twice equals sanitising once |
| Sanitize.ReplaceAllSlashesAppend | myMagicPlaylist.js:128-135 | sanitising a concatenation is concatenating the sanitised parts |
| Sanitize.ReplaceAllSlashesOneSlash | myMagicPlaylist.js:128-135 | a title `a/b` with `/`-free parts is sanitised to `a_b` |
| Naming.Query | myMagicPlaylist.js:82 | the search query splits back into the primary artist's name, `" - "`, and the track name (same line in myMagicPlaylist2.js:70) |
| Naming.WatchUrl | myMagicPlaylist.js:89 | the URL is the fixed prefix `http://www.youtube.com/watch?v=` followed by the video id (same line in myMagicPlaylist2.js:78) |
| Naming.WatchUrlRoundTrip | myMagicPlaylist.js:89 | reading the id back out of a watch URL gives the id it was built from, and a string that gives back an id is that id's watch URL |
| Naming.WatchUrlInjective | myMagicPlaylist.js:89 | two ids have the same watch URL if and only if they are equal |
| Naming.SearchHit | myMagicPlaylist.js:80-88 | the hit used is the first item of the search for the track's query; a track without artists, a rejected search and an empty answer each fail, with the search's own error passed on |
| Naming.FileInRunDirectory | myMagicPlaylist.js:105-117 | a file `name + ext` under `dir/<run id>/` has exactly the segments dir, run id, file name if and only if the name holds no `/` |
| Naming.PathsInRunDirectory | myMagicPlaylist.js:105-117 | the video path is `videos`, the run id, then the segments of `<title>.mp4`; the audio path likewise under `musics` with `.mp3`; each is a file directly in the run's directory if and only if the title holds no `/` |
| Media.Url2Video | myMagicPlaylist.js:98-111 | resolves if and only if the file stream that ytdl is piped into finishes, keeping the title and giving the path `videos/<run id>/<title>.mp4`; an error on that file stream rejects with "Error with ytdl", a throw with what was thrown (same code in myMagicPlaylist2.js:88-105) |
| Media.Video2Mp3 | myMagicPlaylist.js:115-124 | resolves if and only if the transcoder ends without error, with the path `musics/<run id>/<title>.mp3`; otherwise rejects with the transcoder's error (same code in myMagicPlaylist2.js:109-119) |
| Media.DownloadChainPaths | myMagicPlaylist.js:105-117 | after a successful download and transcode of a `/`-free title, the video and the audio file are each directly in their run's directory and named after the title |
| Catalog.Take | myMagicPlaylist.js:42 | `slice(0, limit)` is the prefix of length `min(n, limit)` |
| Catalog.Query2Tracks | myMagicPlaylist.js:37-48 | a resolved search gives the prefix of length `min(n, 10)` of the service's list; a rejection is passed on |
| Catalog.GetRelatedArtists | myMagicPlaylist.js:51-63 | the related artists of the primary artist, cut to the prefix of length `min(n, 2)`; a rejection is passed on; a track without artists rejects |
| Catalog.Artist2TopTracks | myMagicPlaylist.js:66-76 | the artist's top tracks in market `GB`, cut to the prefix of length `min(n, 2)`; a rejection is passed on |
| Catalog.FirstRejection | myMagicPlaylist.js:176-183 | the reported error is absent if and only if no answer in the arrival order was rejected |
| Catalog.FirstRejectionIsFirst | myMagicPlaylist.js:176-183 | when the answer at arrival position k is rejected and every earlier one resolved, the reported error is that answer's: the first rejection to arrive settles the playlist |
| Catalog.PushedAppend | myMagicPlaylist.js:176-183 | answers arriving in one batch then another push the first batch's tracks then the second's, and a rejection in the first batch is reported before any in the second |
| Catalog.PushedStep | myMagicPlaylist.js:176-183 | one more arrival appends exactly that answer's tracks, and is reported only if it is rejected and none before it was |
| Catalog.CompletionCoversAll | myMagicPlaylist.js:176-184 | when every request completes exactly once, no arrival was rejected if and only if every artist's answer resolved |
| Catalog.CollectedTracksFacts | myMagicPlaylist.js:175-186 | for at most two related artists, whatever the arrival order, the collected tracks are the artist-order concatenation as a multiset and number at most 4 |
| Catalog.PushedPermutation | myMagicPlaylist.js:176-183 | any two arrival orders of the same answers leave the same multiset of tracks in the playlist |
| Catalog.PushedBound | myMagicPlaylist.js:179-181 | when each answer holds at most LIMIT_TRACKS tracks, the playlist holds at most LIMIT_TRACKS per answer |
| Catalog.PushAll | myMagicPlaylist.js:179-181 | the push loop appends the answer's tracks, in order, to the playlist |
| Catalog.CollectTopTracks | myMagicPlaylist.js:175-186 | the fan-out resolves if and only if every artist's answer resolved, with the concatenation of the answers in arrival order; otherwise it rejects with the first error to arrive |
| Catalog.GeneratePlaylist | myMagicPlaylist.js:170-188 | a failed related-artist lookup rejects with its error; otherwise the playlist resolves if and only if every top-tracks answer resolved, equals the arrival-order concatenation, equals the artist-order concatenation as a multiset, and holds at most 4 tracks; a rejection carries the first error to arrive |
| Revision1.Track2Url | myMagicPlaylist.js:80-95 | resolves if and only if the search yields a hit, with the hit's watch URL and its title with every `/` rewritten, which is as long as the title and free of `/`; otherwise rejects with the search's error |
| Revision1.SanitisedFilesInRunDirectory | myMagicPlaylist.js:87-117 | for every video title, the first revision's video and audio files lie directly in the run's directories, named after the sanitised title |
| Revision2.IndexOf | myMagicPlaylist2.js:76 | the first position holding the character, with nothing equal to it before; -1 if and only if the character does not occur |
| Revision2.ReplaceFirstSlash | myMagicPlaylist2.js:76 | `replace("/", "_")` keeps the length, leaves a `/`-free title unchanged, and removes exactly one `/` when there is one |
| Revision2.ReplaceFirstSplit | myMagicPlaylist2.js:75-76 | for a title written as `a + "/" + b` with `a` free of `/`, the result is `a + "_" + b`: the text before the first `/`, then `_`, then the remainder unchanged |
| Revision2.ReplaceFirstSlashFreeIff | myMagicPlaylist2.js:76 | the result is free of `/` if and only if the title held at most one |
| Revision2.OneSlashAgrees | myMagicPlaylist2.js:76 | on a title with exactly one `/`, replace-first and the first revision's formatVidName give the same string |
| Revision2.RevisionsAgreeIff | myMagicPlaylist2.js:76 | the two revisions' sanitisations agree on a title if and only if it holds at most one `/` |
| Revision2.SecondSlashKept | myMagicPlaylist2.js:76 | a title with a second `/` keeps it: `a/b/c` becomes `a_b/c`, which still holds `/` |
| Revision2.SecondSlashSurvivesTitle | myMagicPlaylist2.js:76 | the title "a/b/c" becomes "a_b/c" |
| Revision2.NestedFileSegments | myMagicPlaylist2.js:95 | a path `dir/<run id>/sub/leaf` with `/`-free parts has the four segments dir, run id, sub, leaf |
| Revision2.SecondSlashNests | myMagicPlaylist2.js:95-111 | a file named `a_b/c` plus an extension under `dir/<run id>/` has the four segments dir, run id, `a_b`, `c` plus extension |
| Revision2.SecondSlashSurvives | myMagicPlaylist2.js:95-111 | for a title `a/b/c`, the video and audio files are written one directory too deep, into the sub-directory `a_b` of the run's directory |
| Revision2.FilesInRunDirectoryIff | myMagicPlaylist2.js:95-111 | the second revision's video and audio files lie directly in the run's directories if and only if the title held at most one `/` |
| Revision2.Track2Url | myMagicPlaylist2.js:68-84 | resolves if and only if the search yields a hit, with the hit's watch URL and its title with the first `/` rewritten; that name keeps the title's length and is `/`-free if and only if the title held at most one `/` |
| Revision2.ItemTracks | myMagicPlaylist2.js:58-60 | the mapped list has the items' length, and element `i` is `items[i].track` |
| Revision2.Playlist2Tracks | myMagicPlaylist2.js:54-64 | a resolved listing gives its items' tracks, in order, one per item; a rejection is passed on |

## Left out

- The Spotify and YouTube clients (`searchTracks`, `getArtistRelatedArtists`, `getArtistTopTracks`, `clientCredentialsGrant`, `getUserPlaylists`, `getPlaylistTracks`, `youTube.search`): network APIs; only their answers are modelled, as function parameters.
- `retrieveAccessToken` and `getMyPlaylistId` (myMagicPlaylist2.js:30-50): credential exchange and a lookup of the first playlist, both pure network calls.
- The ytdl stream, `fs.createWriteStream` and the ffmpeg job: I/O; only how each ends is a parameter.
- `createVideoFolder` and `createMusicFolder` (`fs.mkdir` at module load): filesystem I/O.
- `researchConsole`: interactive console prompt, and its `parseInt` of the typed choice.
- `downloadPlaylist` and the `.then` chains at the end of each file: Promise orchestration. Its per-track stages (track2Url, url2Video, video2Mp3) are modelled; the concurrent `Promise.all` over tracks is not.
- Console logging.
- The timing of the concurrent top-tracks requests: the order in which their answers arrive is a parameter. Pushes from different answers never interleave, because JavaScript runs each `.then` callback to completion.
- Media.Url2Video: the `'finish'` and `'error'` listeners sit on the file stream that `pipe` returns, so `ErrorEvent` is a file-stream error (such as a missing directory). An `'error'` on the ytdl stream itself is not passed on by `pipe` and has no listener. In the source it ends the process and the promise never settles. No `StreamEnd` value represents that outcome.
- Sanitize.ReplaceAt: for titles with characters above U+FFFF, JavaScript's `length` and `replaceAt`'s `index` count UTF-16 code units, so they differ from `|s|` and the model's index, which count Unicode scalar values. The `/` rewrite is unaffected, because `/` is never half of a surrogate pair.
- Naming.SearchHit: an empty YouTube answer makes `result.items[0].snippet` throw inside the search callback, outside any Promise executor. In the source this is an uncaught exception that ends the process. The model reports it as `Err(NoSearchResult)`.
- `Date.now()` as the run id: a clock read; the run id is an opaque string parameter throughout.

## Findings

| source | as written | input that shows it | evidently intended | confidence | as-written member | corrected member |
|---|---|---|---|---|---|---|
| myMagicPlaylist2.js:76 | `vidName.replace("/", "_")` rewrites only the first `/` of the video title, so the name can still hold `/` and the video path at myMagicPlaylist2.js:95 gains a directory level that nothing creates, so opening the file stream fails and url2Video rejects through its `ErrorEvent` case | title `a/b/c` gives `a_b/c`, path `videos/<run id>/a_b/c.mp4` | rewrite every `/`, as the first revision's `formatVidName` does (myMagicPlaylist.js:128-135), so the title is one path segment | not executed; high | Revision2.SecondSlashSurvives | Sanitize.FormatVidName |
