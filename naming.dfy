// The strings both revisions build from a track and a search hit: the video-search
// query, the watch URL, and the video and audio file paths under the run's
// directories. Paths are read back through `Segments`, the split of a path at
// every `/`, so that "the file lands directly in the run's directory" can be
// stated as "the path has exactly three segments".

module Naming {
  import opened Domain
  import Sanitize

  const SEPARATOR := " - "
  const WATCH_PREFIX := "http://www.youtube.com/watch?v="
  const VIDEO_DIR := "videos"
  const AUDIO_DIR := "musics"
  const VIDEO_EXT := ".mp4"
  const AUDIO_EXT := ".mp3"

  /** The video-search query "<primary artist> - <track name>", read back as its three parts. */
  function Query(track: Track): (q: string)
    requires |track.artists| >= 1
    ensures var a := track.artists[0].name;
      |q| == |a| + |SEPARATOR| + |track.name| &&
      q[..|a|] == a && q[|a|..|a| + |SEPARATOR|] == SEPARATOR && q[|a| + |SEPARATOR|..] == track.name
  {
    track.artists[0].name + SEPARATOR + track.name
  }

  /** The watch URL of a video: the fixed prefix followed by the video id. */
  function WatchUrl(videoId: string): (url: string)
    ensures |url| == |WATCH_PREFIX| + |videoId|
    ensures url[..|WATCH_PREFIX|] == WATCH_PREFIX && url[|WATCH_PREFIX|..] == videoId
  {
    WATCH_PREFIX + videoId
  }

  /** Reads the video id back out of a watch URL; None for any other string. */
  function VideoIdOf(url: string): (id: Option<string>)
    ensures id.Some? <==> |WATCH_PREFIX| <= |url| && url[..|WATCH_PREFIX|] == WATCH_PREFIX
  {
    if |WATCH_PREFIX| <= |url| && url[..|WATCH_PREFIX|] == WATCH_PREFIX then Some(url[|WATCH_PREFIX|..]) else None
  }

  /** A watch URL gives back the id it was built from, and only watch URLs give back an id. */
  lemma WatchUrlRoundTrip(videoId: string, url: string)
    ensures VideoIdOf(WatchUrl(videoId)) == Some(videoId)
    ensures VideoIdOf(url) == Some(videoId) ==> WatchUrl(videoId) == url
  {
    if VideoIdOf(url) == Some(videoId) {
      assert url == url[..|WATCH_PREFIX|] + url[|WATCH_PREFIX|..];
    }
  }

  /** Two videos share a watch URL only when they share an id. */
  lemma WatchUrlInjective(id1: string, id2: string)
    ensures WatchUrl(id1) == WatchUrl(id2) <==> id1 == id2
  {
    if WatchUrl(id1) == WatchUrl(id2) {
      WatchUrlRoundTrip(id1, WatchUrl(id2));
    }
  }

  /** The path of a downloaded video: videos/<run id>/<title>.mp4 */
  function VideoPath(runId: string, vidName: string): string
  {
    VIDEO_DIR + "/" + runId + "/" + vidName + VIDEO_EXT
  }

  /** The path of a transcoded audio file: musics/<run id>/<title>.mp3 */
  function AudioPath(runId: string, vidName: string): string
  {
    AUDIO_DIR + "/" + runId + "/" + vidName + AUDIO_EXT
  }

  /** The segments of a path: the maximal `/`-free pieces between its `/` characters. */
  function Segments(p: string): (r: seq<string>)
    ensures |r| >= 1
  {
    if p == [] then [[]]
    else
      var rest := Segments(p[1..]);
      if p[0] == '/' then [[]] + rest else [[p[0]] + rest[0]] + rest[1..]
  }

  /** A `/`-free string is a single segment. */
  lemma {:induction false} SegmentsOfSlashFree(s: string)
    requires '/' !in s
    ensures Segments(s) == [s]
  {
    if s != [] {
      SegmentsOfSlashFree(s[1..]);
      assert [s[0]] + s[1..] == s;
    }
  }

  /** Joining two paths with `/` concatenates their segments. */
  lemma {:induction false} SegmentsJoin(a: string, b: string)
    ensures Segments(a + "/" + b) == Segments(a) + Segments(b)
  {
    if a == [] {
      assert a + "/" + b == "/" + b;
      assert ("/" + b)[1..] == b;
    } else {
      assert (a + "/" + b)[0] == a[0];
      assert (a + "/" + b)[1..] == a[1..] + "/" + b;
      SegmentsJoin(a[1..], b);
    }
  }

  /** A path has one segment more than it has `/` characters. */
  lemma {:induction false} SegmentsCount(s: string)
    ensures |Segments(s)| == Sanitize.SlashCount(s) + 1
  {
    if s != [] {
      SegmentsCount(s[1..]);
      assert s == [s[0]] + s[1..];
      assert multiset(s) == multiset{s[0]} + multiset(s[1..]);
    }
  }

  /** Concatenation regrouped, stated over variables so that path literals stay out of the proof. */
  lemma Associate(x: string, y: string, z: string)
    ensures x + (y + z) == x + y + z
  {
  }

  /** Under a `/`-free run id, a path is its top directory, the run id, then the segments of the file name. */
  lemma RunPathSegments(dir: string, runId: string, file: string)
    requires '/' !in dir && '/' !in runId
    ensures Segments(dir + "/" + runId + "/" + file) == [dir, runId] + Segments(file)
  {
    assert dir + "/" + runId + "/" + file == dir + "/" + (runId + "/" + file);
    SegmentsJoin(dir, runId + "/" + file);
    SegmentsJoin(runId, file);
    SegmentsOfSlashFree(dir);
    SegmentsOfSlashFree(runId);
  }

  /** A file `name + ext` under dir/runId is directly in that directory exactly when `name` holds no `/`. */
  lemma FileInRunDirectory(dir: string, runId: string, name: string, ext: string)
    requires '/' !in dir && '/' !in runId && '/' !in ext
    ensures Segments(dir + "/" + runId + "/" + (name + ext)) == [dir, runId] + Segments(name + ext)
    ensures Segments(dir + "/" + runId + "/" + (name + ext)) == [dir, runId, name + ext] <==> '/' !in name
  {
    RunPathSegments(dir, runId, name + ext);
    SegmentsCount(name + ext);
    assert multiset(name + ext) == multiset(name) + multiset(ext);
    if '/' !in name {
      SegmentsOfSlashFree(name + ext);
    }
  }

  /**
   * The video and the audio file of a title both sit directly in the run's directories,
   * as files named after the title, exactly when the title holds no `/`.
   */
  lemma PathsInRunDirectory(runId: string, vidName: string)
    requires '/' !in runId
    ensures Segments(VideoPath(runId, vidName)) == [VIDEO_DIR, runId] + Segments(vidName + VIDEO_EXT)
    ensures Segments(AudioPath(runId, vidName)) == [AUDIO_DIR, runId] + Segments(vidName + AUDIO_EXT)
    ensures Segments(VideoPath(runId, vidName)) == [VIDEO_DIR, runId, vidName + VIDEO_EXT] <==> '/' !in vidName
    ensures Segments(AudioPath(runId, vidName)) == [AUDIO_DIR, runId, vidName + AUDIO_EXT] <==> '/' !in vidName
  {
    assert VideoPath(runId, vidName) == VIDEO_DIR + "/" + runId + "/" + (vidName + VIDEO_EXT) by {
      Associate(VIDEO_DIR + "/" + runId + "/", vidName, VIDEO_EXT);
    }
    assert AudioPath(runId, vidName) == AUDIO_DIR + "/" + runId + "/" + (vidName + AUDIO_EXT) by {
      Associate(AUDIO_DIR + "/" + runId + "/", vidName, AUDIO_EXT);
    }
    FileInRunDirectory(VIDEO_DIR, runId, vidName, VIDEO_EXT);
    FileInRunDirectory(AUDIO_DIR, runId, vidName, AUDIO_EXT);
  }

  /**
   * The hit track2Url works with: the first item of a search for the track's query.
   * The search is the video-search service's answer to a query, given as a function.
   */
  function SearchHit(track: Track, search: string -> Result<seq<Hit>>): (r: Result<Hit>)
    ensures r.Ok? <==> |track.artists| >= 1 && search(Query(track)).Ok? && |search(Query(track)).value| >= 1
    ensures r.Ok? ==> r.value == search(Query(track)).value[0]
    ensures |track.artists| == 0 ==> r == Err(MissingPrimaryArtist)
    ensures |track.artists| >= 1 && search(Query(track)).Err? ==> r == Err(search(Query(track)).error)
  {
    if |track.artists| == 0 then Err(MissingPrimaryArtist)
    else
      match search(Query(track))
      case Err(e) => Err(e)
      case Ok(items) => if |items| == 0 then Err(NoSearchResult) else Ok(items[0])
  }
}
