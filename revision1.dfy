// track2Url of the first revision: search the video platform for
// "<primary artist> - <track name>", take the first hit, sanitise its title with
// formatVidName and build its watch URL. The search is an external service; its
// answer to each query is a function parameter.

module Revision1 {
  import opened Domain
  import opened Naming
  import Sanitize

  /**
   * track2Url: rejects when the track has no primary artist or the search rejects, fails
   * on an empty answer, and otherwise resolves with the first hit's watch URL and its
   * title with every `/` rewritten to `_`.
   */
  method Track2Url(track: Track, search: string -> Result<seq<Hit>>) returns (r: Result<Resolution>)
    ensures r.Ok? <==> SearchHit(track, search).Ok?
    ensures r.Err? ==> r.error == SearchHit(track, search).error
    ensures r.Ok? ==>
      var hit := SearchHit(track, search).value;
      && r.value.url == WatchUrl(hit.videoId)
      && r.value.vidName == Sanitize.ReplaceAllSlashes(hit.title)
      && |r.value.vidName| == |hit.title|
      && '/' !in r.value.vidName
  {
    var found := SearchHit(track, search);
    if found.Err? {
      return Err(found.error);
    }
    var vidName := Sanitize.FormatVidName(found.value.title);
    var url := WatchUrl(found.value.videoId);
    r := Ok(Resolution(url, vidName));
  }

  /**
   * Whatever the video platform calls a video, under a `/`-free run id the first
   * revision writes its video and audio files directly into the run's directories,
   * named after the sanitised title.
   */
  lemma SanitisedFilesInRunDirectory(runId: string, title: string)
    requires '/' !in runId
    ensures var vidName := Sanitize.ReplaceAllSlashes(title);
      && Segments(VideoPath(runId, vidName)) == [VIDEO_DIR, runId, vidName + VIDEO_EXT]
      && Segments(AudioPath(runId, vidName)) == [AUDIO_DIR, runId, vidName + AUDIO_EXT]
  {
    PathsInRunDirectory(runId, Sanitize.ReplaceAllSlashes(title));
  }
}
