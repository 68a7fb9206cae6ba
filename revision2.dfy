// The second revision of the script. It reads the tracks of a catalog playlist
// instead of expanding a seed, and its track2Url sanitises the video title with
// `vidName.replace("/", "_")`. With a string pattern, JavaScript's replace rewrites
// only the FIRST occurrence, so this revision agrees with the first one's
// formatVidName exactly on titles with at most one `/`.

module Revision2 {
  import opened Domain
  import opened Naming
  import Sanitize

  /** The owner the playlist listing is asked for. */
  const PLAYLIST_OWNER := "spotifydiscover"

  /** `s.indexOf(c)` for one character: the first position holding `c`, or -1. */
  function IndexOf(s: string, c: char): (k: int)
    ensures -1 <= k < |s|
    ensures k == -1 <==> c !in s
    ensures k >= 0 ==> s[k] == c && c !in s[..k]
  {
    if s == [] then -1
    else if s[0] == c then 0
    else
      var k := IndexOf(s[1..], c);
      if k == -1 then -1 else k + 1
  }

  /**
   * `s.replace("/", "_")`: the first `/`, if any, becomes `_`. The length is kept and
   * exactly one `/` disappears when there is one.
   */
  function ReplaceFirstSlash(s: string): (r: string)
    ensures |r| == |s|
    ensures '/' !in s ==> r == s
    ensures Sanitize.SlashCount(r) == if Sanitize.SlashCount(s) == 0 then 0 else Sanitize.SlashCount(s) - 1
  {
    var k := IndexOf(s, '/');
    if k < 0 then s
    else
      assert s == s[..k] + [s[k]] + s[k + 1..];
      s[..k] + "_" + s[k + 1..]
  }

  /** The text before the first `/`, then `_`, then the rest unchanged. */
  lemma ReplaceFirstSplit(a: string, b: string)
    requires '/' !in a
    ensures ReplaceFirstSlash(a + "/" + b) == a + "_" + b
  {
    var s := a + "/" + b;
    var k := IndexOf(s, '/');
    assert s[|a|] == '/';
    assert s[..k] == a;
    assert s[k + 1..] == b;
  }

  /** The result is free of `/` exactly when the title held at most one. */
  lemma ReplaceFirstSlashFreeIff(s: string)
    ensures '/' !in ReplaceFirstSlash(s) <==> Sanitize.SlashCount(s) <= 1
  {
    Sanitize.SlashFreeIffNoCount(ReplaceFirstSlash(s));
  }

  /** On a title with exactly one `/`, both sanitisations give the same string. */
  lemma OneSlashAgrees(a: string, b: string)
    requires '/' !in a && '/' !in b
    ensures ReplaceFirstSlash(a + "/" + b) == Sanitize.ReplaceAllSlashes(a + "/" + b)
  {
    ReplaceFirstSplit(a, b);
    Sanitize.ReplaceAllSlashesOneSlash(a, b);
  }

  /** The two revisions' sanitisations agree exactly on titles with at most one `/`. */
  lemma RevisionsAgreeIff(s: string)
    ensures ReplaceFirstSlash(s) == Sanitize.ReplaceAllSlashes(s) <==> Sanitize.SlashCount(s) <= 1
  {
    if Sanitize.SlashCount(s) == 0 {
      assert '/' !in s by {
        Sanitize.SlashFreeIffNoCount(s);
      }
      Sanitize.ReplaceAllSlashesIdentity(s);
    } else if Sanitize.SlashCount(s) == 1 {
      var k := IndexOf(s, '/');
      assert k >= 0 by {
        Sanitize.SlashFreeIffNoCount(s);
      }
      var a, b := s[..k], s[k + 1..];
      assert s == a + "/" + b;
      assert '/' !in b by {
        assert multiset(s) == multiset(a) + multiset("/") + multiset(b);
        Sanitize.SlashFreeIffNoCount(b);
      }
      OneSlashAgrees(a, b);
    } else {
      assert '/' in ReplaceFirstSlash(s) by {
        ReplaceFirstSlashFreeIff(s);
      }
    }
  }

  /** A title with two or more `/` keeps its second one. */
  lemma SecondSlashKept(a: string, b: string, c: string)
    requires '/' !in a && '/' !in b
    ensures ReplaceFirstSlash(a + "/" + (b + "/" + c)) == a + "_" + (b + "/" + c)
    ensures '/' in ReplaceFirstSlash(a + "/" + (b + "/" + c))
  {
    ReplaceFirstSplit(a, b + "/" + c);
    assert (a + "_" + (b + "/" + c))[|a| + 1 + |b|] == '/';
  }

  /** "a/b/c" becomes "a_b/c". */
  lemma SecondSlashSurvivesTitle()
    ensures ReplaceFirstSlash("a/b/c") == "a_b/c"
  {
    var a, b, c := "a", "b", "c";
    assert "a/b/c" == a + "/" + (b + "/" + c) by {
      assert |a + "/" + (b + "/" + c)| == 5;
    }
    assert "a_b/c" == a + "_" + (b + "/" + c) by {
      assert |a + "_" + (b + "/" + c)| == 5;
    }
    SecondSlashKept(a, b, c);
  }

  /**
   * A video whose title is a/b/c with `/`-free parts is written one directory too deep:
   * into an "a_b" sub-directory of the run's directory, which nothing creates.
   */
  lemma SecondSlashSurvives(runId: string, a: string, b: string, c: string)
    requires '/' !in runId && '/' !in a && '/' !in b && '/' !in c
    ensures var vidName := ReplaceFirstSlash(a + "/" + (b + "/" + c));
      && Segments(VideoPath(runId, vidName)) == [VIDEO_DIR, runId, a + "_" + b, c + VIDEO_EXT]
      && Segments(AudioPath(runId, vidName)) == [AUDIO_DIR, runId, a + "_" + b, c + AUDIO_EXT]
  {
    SecondSlashKept(a, b, c);
    assert Segments(VideoPath(runId, a + "_" + (b + "/" + c))) == [VIDEO_DIR, runId, a + "_" + b, c + VIDEO_EXT] by {
      SecondSlashNests(VIDEO_DIR, runId, a, b, c, VIDEO_EXT);
    }
    assert Segments(AudioPath(runId, a + "_" + (b + "/" + c))) == [AUDIO_DIR, runId, a + "_" + b, c + AUDIO_EXT] by {
      SecondSlashNests(AUDIO_DIR, runId, a, b, c, AUDIO_EXT);
    }
  }

  /** The file of a video named a_b/c lands in the sub-directory a_b of the run's directory. */
  lemma SecondSlashNests(dir: string, runId: string, a: string, b: string, c: string, ext: string)
    requires '/' !in dir && '/' !in runId && '/' !in a && '/' !in b && '/' !in c && '/' !in ext
    ensures Segments(dir + "/" + runId + "/" + (a + "_" + (b + "/" + c)) + ext) == [dir, runId, a + "_" + b, c + ext]
  {
    var prefix, vidName, sub := dir + "/" + runId + "/", a + "_" + (b + "/" + c), a + "_" + b;
    Associate(a + "_", b + "/", c);
    Associate(a + "_", b, "/");
    Associate(sub + "/", c, ext);
    Associate(prefix, vidName, ext);
    NestedFileSegments(dir, runId, a + "_" + b, c + ext);
  }

  lemma NestedFileSegments(dir: string, runId: string, sub: string, leaf: string)
    requires '/' !in dir && '/' !in runId && '/' !in sub && '/' !in leaf
    ensures Segments(dir + "/" + runId + "/" + (sub + "/" + leaf)) == [dir, runId, sub, leaf]
  {
    RunPathSegments(dir, runId, sub + "/" + leaf);
    SegmentsJoin(sub, leaf);
    SegmentsOfSlashFree(sub);
    SegmentsOfSlashFree(leaf);
  }

  /**
   * The second revision writes a video's files directly into the run's directories
   * exactly when the video's title holds at most one `/`.
   */
  lemma FilesInRunDirectoryIff(runId: string, title: string)
    requires '/' !in runId
    ensures var vidName := ReplaceFirstSlash(title);
      && (Segments(VideoPath(runId, vidName)) == [VIDEO_DIR, runId, vidName + VIDEO_EXT] <==> Sanitize.SlashCount(title) <= 1)
      && (Segments(AudioPath(runId, vidName)) == [AUDIO_DIR, runId, vidName + AUDIO_EXT] <==> Sanitize.SlashCount(title) <= 1)
  {
    PathsInRunDirectory(runId, ReplaceFirstSlash(title));
    ReplaceFirstSlashFreeIff(title);
  }

  /**
   * track2Url of the second revision: the same search and watch URL as the first,
   * with the title passed through `replace("/", "_")`.
   */
  function Track2Url(track: Track, search: string -> Result<seq<Hit>>): (r: Result<Resolution>)
    ensures r.Ok? <==> SearchHit(track, search).Ok?
    ensures r.Err? ==> r.error == SearchHit(track, search).error
    ensures r.Ok? ==>
      var hit := SearchHit(track, search).value;
      && r.value.url == WatchUrl(hit.videoId)
      && r.value.vidName == ReplaceFirstSlash(hit.title)
      && |r.value.vidName| == |hit.title|
      && ('/' !in r.value.vidName <==> Sanitize.SlashCount(hit.title) <= 1)
  {
    match SearchHit(track, search)
    case Err(e) => Err(e)
    case Ok(hit) =>
      ReplaceFirstSlashFreeIff(hit.title);
      Ok(Resolution(WatchUrl(hit.videoId), ReplaceFirstSlash(hit.title)))
  }

  /** `items.map(item => item.track)`: the tracks of a playlist listing, in order. */
  function ItemTracks(items: seq<PlaylistItem>): (tracks: seq<Track>)
    ensures |tracks| == |items|
    ensures forall i :: 0 <= i < |items| ==> tracks[i] == items[i].track
  {
    if items == [] then [] else [items[0].track] + ItemTracks(items[1..])
  }

  /** playlist2Tracks: the tracks of the listed playlist, or the listing's rejection. */
  function Playlist2Tracks(playlistId: string, playlistTracks: (string, string) -> Result<seq<PlaylistItem>>)
    : (r: Result<seq<Track>>)
    ensures r.Ok? <==> playlistTracks(PLAYLIST_OWNER, playlistId).Ok?
    ensures r.Err? ==> r.error == playlistTracks(PLAYLIST_OWNER, playlistId).error
    ensures r.Ok? ==> var items := playlistTracks(PLAYLIST_OWNER, playlistId).value;
      |r.value| == |items| && forall i :: 0 <= i < |items| ==> r.value[i] == items[i].track
  {
    match playlistTracks(PLAYLIST_OWNER, playlistId)
    case Ok(items) => Ok(ItemTracks(items))
    case Err(e) => Err(e)
  }
}
