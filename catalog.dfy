// The catalog side of the first revision: the three lookups that truncate what
// the music service returns (search results, related artists, an artist's top
// tracks) and generatePlaylist, which collects the top tracks of the seed's
// related artists into one list.
//
// The service itself is external: each of its calls is a function parameter
// giving the answer the service would resolve (Ok) or reject (Err) with.

module Catalog {
  import opened Domain

  const LIMIT_RESULTS_QUERY: nat := 10
  const LIMIT_ART: nat := 2
  const LIMIT_TRACKS: nat := 2
  /** The market the top tracks are asked for. */
  const MARKET := "GB"

  function Min(a: nat, b: nat): nat
  {
    if a <= b then a else b
  }

  /** `s.slice(0, limit)`: the longest prefix of `s` with at most `limit` elements. */
  function Take<T>(s: seq<T>, limit: nat): (r: seq<T>)
    ensures |r| == Min(|s|, limit)
    ensures r == s[..|r|]
  {
    if |s| <= limit then s else s[..limit]
  }

  /** query2Tracks: the first LIMIT_RESULTS_QUERY tracks the search returns, or its rejection. */
  function Query2Tracks(q: string, searchTracks: string -> Result<seq<Track>>): (r: Result<seq<Track>>)
    ensures searchTracks(q).Err? ==> r == Err(searchTracks(q).error)
    ensures searchTracks(q).Ok? ==> (r.Ok? &&
      |r.value| == Min(|searchTracks(q).value|, LIMIT_RESULTS_QUERY) &&
      r.value == searchTracks(q).value[..|r.value|])
  {
    match searchTracks(q)
    case Ok(items) => Ok(Take(items, LIMIT_RESULTS_QUERY))
    case Err(e) => Err(e)
  }

  /**
   * getRelatedArtists: the first LIMIT_ART artists related to the track's primary artist.
   * A track without artists makes `track.artists[0].id` throw, which rejects the promise.
   */
  function GetRelatedArtists(track: Track, relatedArtists: string -> Result<seq<Artist>>): (r: Result<seq<Artist>>)
    ensures |track.artists| == 0 ==> r == Err(MissingPrimaryArtist)
    ensures |track.artists| >= 1 && relatedArtists(track.artists[0].id).Err? ==>
      r == Err(relatedArtists(track.artists[0].id).error)
    ensures |track.artists| >= 1 && relatedArtists(track.artists[0].id).Ok? ==> (r.Ok? &&
      |r.value| == Min(|relatedArtists(track.artists[0].id).value|, LIMIT_ART) &&
      r.value == relatedArtists(track.artists[0].id).value[..|r.value|])
  {
    if |track.artists| == 0 then Err(MissingPrimaryArtist)
    else
      match relatedArtists(track.artists[0].id)
      case Ok(artists) => Ok(Take(artists, LIMIT_ART))
      case Err(e) => Err(e)
  }

  /** artist2TopTracks: the first LIMIT_TRACKS of the artist's top tracks in MARKET. */
  function Artist2TopTracks(artist: Artist, topTracks: (string, string) -> Result<seq<Track>>): (r: Result<seq<Track>>)
    ensures topTracks(artist.id, MARKET).Err? ==> r == Err(topTracks(artist.id, MARKET).error)
    ensures topTracks(artist.id, MARKET).Ok? ==> (r.Ok? &&
      |r.value| == Min(|topTracks(artist.id, MARKET).value|, LIMIT_TRACKS) &&
      r.value == topTracks(artist.id, MARKET).value[..|r.value|])
  {
    match topTracks(artist.id, MARKET)
    case Ok(tracks) => Ok(Take(tracks, LIMIT_TRACKS))
    case Err(e) => Err(e)
  }

  /** The top-tracks answer for each related artist, by the artist's position. */
  function TopTrackResults(artists: seq<Artist>, topTracks: (string, string) -> Result<seq<Track>>)
    : (r: seq<Result<seq<Track>>>)
    ensures |r| == |artists|
    ensures forall i :: 0 <= i < |artists| ==> r[i] == Artist2TopTracks(artists[i], topTracks)
  {
    seq(|artists|, i requires 0 <= i < |artists| => Artist2TopTracks(artists[i], topTracks))
  }

  predicate AllOk(results: seq<Result<seq<Track>>>)
  {
    forall i :: 0 <= i < |results| ==> results[i].Ok?
  }

  /**
   * The tracks the answer at position i contributes: its tracks when it resolved, none
   * when it rejected (or when there is no such answer).
   */
  function Contributed(results: seq<Result<seq<Track>>>, i: nat): seq<Track>
  {
    if i < |results| && results[i].Ok? then results[i].value else []
  }

  /** Whether the answer at position i exists and was rejected. */
  predicate Rejected(results: seq<Result<seq<Track>>>, i: nat)
  {
    i < |results| && results[i].Err?
  }

  /** The positions 0, 1, ..., n - 1 in increasing order. */
  function Indices(n: nat): (r: seq<nat>)
    ensures |r| == n
    ensures forall k :: 0 <= k < n ==> r[k] == k
  {
    if n == 0 then [] else Indices(n - 1) + [n - 1]
  }

  predicate InRange(order: seq<nat>, n: nat)
  {
    forall k :: 0 <= k < |order| ==> order[k] < n
  }

  /** An order in which n concurrent requests can complete: each position exactly once. */
  predicate IsCompletionOrder(order: seq<nat>, n: nat)
  {
    InRange(order, n) && multiset(order) == multiset(Indices(n))
  }

  /** What the pushes leave in the playlist when the answers arrive in `order`. */
  function Pushed(results: seq<Result<seq<Track>>>, order: seq<nat>): seq<Track>
  {
    if order == [] then [] else Contributed(results, order[0]) + Pushed(results, order[1..])
  }

  /**
   * The error the playlist is rejected with when the answers arrive in `order`: that of
   * the first rejected answer to arrive, since a promise settles only once. None when no
   * answer was rejected.
   */
  function FirstRejection(results: seq<Result<seq<Track>>>, order: seq<nat>): (e: Option<Error>)
    ensures e.None? <==> forall j :: 0 <= j < |order| ==> !Rejected(results, order[j])
  {
    if order == [] then None
    else if Rejected(results, order[0]) then Some(results[order[0]].error)
    else FirstRejection(results, order[1..])
  }

  /** The rejection reported is the one at the first rejected position. */
  lemma {:induction false} FirstRejectionIsFirst(results: seq<Result<seq<Track>>>, order: seq<nat>, k: nat)
    requires k < |order| && Rejected(results, order[k])
    requires forall j :: 0 <= j < k ==> !Rejected(results, order[j])
    ensures FirstRejection(results, order) == Some(results[order[k]].error)
  {
    if k > 0 {
      FirstRejectionIsFirst(results, order[1..], k - 1);
    }
  }

  /** Arrivals in `a` then in `b` push `a`'s tracks then `b`'s, and report `a`'s rejection first. */
  lemma {:induction false} PushedAppend(results: seq<Result<seq<Track>>>, a: seq<nat>, b: seq<nat>)
    ensures Pushed(results, a + b) == Pushed(results, a) + Pushed(results, b)
    ensures FirstRejection(results, a + b)
         == if FirstRejection(results, a).Some? then FirstRejection(results, a) else FirstRejection(results, b)
  {
    if a == [] {
      assert a + b == b;
    } else {
      assert (a + b)[0] == a[0];
      assert (a + b)[1..] == a[1..] + b;
      PushedAppend(results, a[1..], b);
    }
  }

  /** One more arrival appends that answer's tracks, and is reported if it is the first rejection. */
  lemma PushedStep(results: seq<Result<seq<Track>>>, order: seq<nat>, j: nat)
    requires j < |order|
    ensures Pushed(results, order[..j + 1]) == Pushed(results, order[..j]) + Contributed(results, order[j])
    ensures FirstRejection(results, order[..j + 1])
         == if FirstRejection(results, order[..j]).Some? then FirstRejection(results, order[..j])
            else if Rejected(results, order[j]) then Some(results[order[j]].error) else None
  {
    assert order[..j + 1] == order[..j] + [order[j]];
    PushedAppend(results, order[..j], [order[j]]);
    assert [order[j]][1..] == [];
  }

  /** Taking one answer out of an order takes its tracks out of the playlist. */
  lemma PushedWithout(results: seq<Result<seq<Track>>>, order: seq<nat>, i: nat)
    requires i < |order|
    ensures multiset(Pushed(results, order))
         == multiset(Pushed(results, order[..i] + order[i + 1..])) + multiset(Contributed(results, order[i]))
  {
    var before, x, after := order[..i], order[i], order[i + 1..];
    var p1, px, p2 := Pushed(results, before), Contributed(results, x), Pushed(results, after);
    assert Pushed(results, order) == p1 + px + p2 by {
      assert order == before + ([x] + after);
      assert ([x] + after)[1..] == after;
      PushedAppend(results, before, [x] + after);
    }
    assert Pushed(results, before + after) == p1 + p2 by {
      PushedAppend(results, before, after);
    }
    assert multiset(p1 + px + p2) == multiset(p1 + p2) + multiset(px);
  }

  lemma MultisetCancel(m1: multiset<nat>, m2: multiset<nat>, x: nat)
    requires multiset{x} + m1 == multiset{x} + m2
    ensures m1 == m2
  {
    assert forall y :: m1[y] == (multiset{x} + m1)[y] - multiset{x}[y];
  }

  /** The first element of o1 sits at some position i of its permutation o2; the rests match. */
  lemma MatchFirst(o1: seq<nat>, o2: seq<nat>) returns (i: nat)
    requires o1 != [] && multiset(o1) == multiset(o2)
    ensures i < |o2| && o2[i] == o1[0]
    ensures multiset(o1[1..]) == multiset(o2[..i] + o2[i + 1..])
  {
    assert o1[0] in multiset(o2);
    i :| 0 <= i < |o2| && o2[i] == o1[0];
    var x, rest1, before, after := o1[0], o1[1..], o2[..i], o2[i + 1..];
    assert multiset(o1) == multiset{x} + multiset(rest1) by {
      assert o1 == [x] + rest1;
    }
    assert multiset(o2) == multiset{x} + multiset(before + after) by {
      assert o2 == before + [x] + after;
    }
    MultisetCancel(multiset(rest1), multiset(before + after), x);
  }

  /** Answers arriving in any order leave the same tracks, as a multiset, in the playlist. */
  lemma {:induction false} PushedPermutation(results: seq<Result<seq<Track>>>, o1: seq<nat>, o2: seq<nat>)
    requires multiset(o1) == multiset(o2)
    ensures multiset(Pushed(results, o1)) == multiset(Pushed(results, o2))
    decreases |o1|
  {
    if o1 == [] {
      assert |o2| == |multiset(o2)| == 0;
    } else {
      var i := MatchFirst(o1, o2);
      PushedPermutation(results, o1[1..], o2[..i] + o2[i + 1..]);
      PushedWithout(results, o2, i);
    }
  }

  /** Each answer contributes at most LIMIT_TRACKS tracks. */
  lemma {:induction false} PushedBound(results: seq<Result<seq<Track>>>, order: seq<nat>)
    requires forall i :: 0 <= i < |results| ==> results[i].Ok? ==> |results[i].value| <= LIMIT_TRACKS
    ensures |Pushed(results, order)| <= LIMIT_TRACKS * |order|
  {
    if order != [] {
      PushedBound(results, order[1..]);
    }
  }

  /** No answer in a completion order was rejected exactly when no answer at all was. */
  lemma CompletionCoversAll(results: seq<Result<seq<Track>>>, order: seq<nat>)
    requires IsCompletionOrder(order, |results|)
    ensures |order| == |results|
    ensures (forall j :: 0 <= j < |order| ==> !Rejected(results, order[j])) <==> AllOk(results)
  {
    assert |order| == |multiset(order)| == |multiset(Indices(|results|))| == |results|;
    if forall j :: 0 <= j < |order| ==> !Rejected(results, order[j]) {
      forall i | 0 <= i < |results|
        ensures results[i].Ok?
      {
        assert Indices(|results|)[i] == i;
        assert i in multiset(order);
        var j :| 0 <= j < |order| && order[j] == i;
        assert !Rejected(results, order[j]);
      }
    }
  }

  /** The push loop of generatePlaylist: appends each track, in order, to the playlist. */
  method PushAll(playlist: seq<Track>, tracks: seq<Track>) returns (p: seq<Track>)
    ensures p == playlist + tracks
  {
    p := playlist;
    var i := 0;
    while i < |tracks|
      invariant 0 <= i <= |tracks|
      invariant p == playlist + tracks[..i]
    {
      p := p + [tracks[i]];
      i := i + 1;
    }
    assert tracks[..|tracks|] == tracks;
  }

  /**
   * The fan-out of generatePlaylist: ask for each artist's top tracks concurrently and
   * push every track of every answer into the playlist as the answers arrive (in
   * `completion` order). The first rejection, in arrival order, rejects the result;
   * otherwise the playlist is resolved once every answer is in.
   */
  method CollectTopTracks(artists: seq<Artist>, topTracks: (string, string) -> Result<seq<Track>>,
                          completion: seq<nat>)
    returns (r: Result<seq<Track>>)
    requires IsCompletionOrder(completion, |artists|)
    ensures var results := TopTrackResults(artists, topTracks);
      && (r.Ok? <==> AllOk(results))
      && (r.Ok? ==> r.value == Pushed(results, completion))
      && (r.Err? ==> FirstRejection(results, completion) == Some(r.error))
  {
    ghost var results := TopTrackResults(artists, topTracks);
    var playlist: seq<Track> := [];
    var rejected: Option<Error> := None;
    var j := 0;
    while j < |completion|
      invariant 0 <= j <= |completion|
      invariant playlist == Pushed(results, completion[..j])
      invariant rejected == FirstRejection(results, completion[..j])
    {
      var answer := Artist2TopTracks(artists[completion[j]], topTracks);
      PushedStep(results, completion, j);
      if answer.Err? {
        if rejected.None? {
          rejected := Some(answer.error);
        }
      } else {
        playlist := PushAll(playlist, answer.value);
      }
      j := j + 1;
    }
    assert completion[..|completion|] == completion;
    CompletionCoversAll(results, completion);
    if rejected.Some? {
      r := Err(rejected.value);
    } else {
      r := Ok(playlist);
    }
  }

  /**
   * Whatever the arrival order, the collected tracks of at most LIMIT_ART artists are,
   * as a multiset, the artist-order concatenation, and number at most
   * LIMIT_ART * LIMIT_TRACKS.
   */
  lemma CollectedTracksFacts(artists: seq<Artist>, topTracks: (string, string) -> Result<seq<Track>>,
                             completion: seq<nat>)
    requires |artists| <= LIMIT_ART
    requires IsCompletionOrder(completion, |artists|)
    ensures var results := TopTrackResults(artists, topTracks);
      && multiset(Pushed(results, completion)) == multiset(Pushed(results, Indices(|results|)))
      && |Pushed(results, completion)| <= LIMIT_ART * LIMIT_TRACKS
  {
    var results := TopTrackResults(artists, topTracks);
    PushedPermutation(results, completion, Indices(|results|));
    assert |completion| <= LIMIT_ART by {
      CompletionCoversAll(results, completion);
    }
    assert |Pushed(results, completion)| <= LIMIT_TRACKS * |completion| by {
      assert forall i :: 0 <= i < |results| ==> results[i].Ok? ==> |results[i].value| <= LIMIT_TRACKS;
      PushedBound(results, completion);
    }
  }

  /**
   * generatePlaylist: fetch the seed's related artists, then collect their top tracks.
   * Whatever order the answers arrive in, a resolved playlist holds, as a multiset, the
   * truncated top tracks of every related artist, so at most LIMIT_ART * LIMIT_TRACKS.
   */
  method GeneratePlaylist(seed: Track, relatedArtists: string -> Result<seq<Artist>>,
                          topTracks: (string, string) -> Result<seq<Track>>, completion: seq<nat>)
    returns (r: Result<seq<Track>>)
    requires GetRelatedArtists(seed, relatedArtists).Ok? ==>
      IsCompletionOrder(completion, |GetRelatedArtists(seed, relatedArtists).value|)
    ensures GetRelatedArtists(seed, relatedArtists).Err? ==> r == Err(GetRelatedArtists(seed, relatedArtists).error)
    ensures GetRelatedArtists(seed, relatedArtists).Ok? ==>
      var results := TopTrackResults(GetRelatedArtists(seed, relatedArtists).value, topTracks);
      && (r.Ok? <==> AllOk(results))
      && (r.Ok? ==> r.value == Pushed(results, completion))
      && (r.Ok? ==> multiset(r.value) == multiset(Pushed(results, Indices(|results|))))
      && (r.Ok? ==> |r.value| <= LIMIT_ART * LIMIT_TRACKS)
      && (r.Err? ==> FirstRejection(results, completion) == Some(r.error))
  {
    var fetched := GetRelatedArtists(seed, relatedArtists);
    if fetched.Err? {
      return Err(fetched.error);
    }
    r := CollectTopTracks(fetched.value, topTracks, completion);
    CollectedTracksFacts(fetched.value, topTracks, completion);
  }
}
