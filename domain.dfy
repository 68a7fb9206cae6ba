// The values the playlist scripts pass between their stages: catalog tracks and
// artists as the music service returns them, video-search hits, and the records
// handed from one download stage to the next.

module Domain {

  /** Why a stage's promise was rejected. */
  datatype Error =
    | ServiceError(reason: string)  // a rejection passed on verbatim from a catalog or video-search call
    | MissingPrimaryArtist          // `track.artists[0]` was dereferenced on a track without artists
    | NoSearchResult                // the video search answered with no items
    | YtdlError                     // the file stream written to emitted 'error' ("Error with ytdl")
    | FfmpegError(reason: string)   // the transcoder emitted 'error'

  /** The outcome of a promise: resolved with a value or rejected with an error. */
  datatype Result<+T> = Ok(value: T) | Err(error: Error)

  datatype Option<+T> = None | Some(value: T)

  datatype Artist = Artist(id: string, name: string)

  /** A catalog track; its primary artist is `artists[0]`. */
  datatype Track = Track(id: string, name: string, artists: seq<Artist>)

  /** One entry of a catalog playlist listing: the track is wrapped in an item. */
  datatype PlaylistItem = PlaylistItem(track: Track)

  /** One video-search hit: `snippet.title` and `id.videoId`. */
  datatype Hit = Hit(title: string, videoId: string)

  /** What track2Url resolves with: the watch URL and the sanitised title. */
  datatype Resolution = Resolution(url: string, vidName: string)

  /** What url2Video resolves with: the sanitised title and the video file's path. */
  datatype Video = Video(vidName: string, path: string)
}
