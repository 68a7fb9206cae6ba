// Video-title sanitisation of the first revision of the script: formatVidName
// walks the title and rewrites every `/` through String.prototype.replaceAt, so
// that the title can be used as a single file-name segment.
//
// A `char` here stands for one Unicode scalar value. JavaScript's `vidName[i]` and
// `vidName.length` count UTF-16 code units instead; the two agree on titles whose
// characters all lie in the Basic Multilingual Plane.

module Sanitize {

  /** What one title position holds after sanitising: `/` becomes `_`, anything else stays. */
  function SafeChar(c: char): char
  {
    if c == '/' then '_' else c
  }

  /** The number of `/` characters in `s`. */
  function SlashCount(s: string): nat
  {
    multiset(s)['/']
  }

  lemma SlashFreeIffNoCount(s: string)
    ensures '/' !in s <==> SlashCount(s) == 0
  {
  }

  /**
   * String.prototype.replaceAt: `substr(0, index) + character + substr(index + character.length)`,
   * where JavaScript clamps both substr starts and lengths to the string's length.
   */
  function ReplaceAt(s: string, index: nat, character: string): (r: string)
    // a one-character replacement inside the string overwrites exactly that position
    ensures index < |s| && |character| == 1 ==>
      |r| == |s| && r[index] == character[0] &&
      forall k :: 0 <= k < |s| && k != index ==> r[k] == s[k]
    // any replacement that fits overwrites exactly its own span
    ensures index + |character| <= |s| ==>
      |r| == |s| && r[index..index + |character|] == character &&
      r[..index] == s[..index] && r[index + |character|..] == s[index + |character|..]
    // an index at or past the end appends
    ensures |s| <= index ==> r == s + character
  {
    var head := if index <= |s| then index else |s|;
    var tail := if index + |character| <= |s| then index + |character| else |s|;
    s[..head] + character + s[tail..]
  }

  /**
   * The specification of formatVidName: the title with every `/` replaced by `_`.
   * It keeps the length, rewrites each `/` position, keeps every other position,
   * and leaves no `/` behind.
   */
  function ReplaceAllSlashes(s: string): (r: string)
    ensures |r| == |s|
    ensures forall k :: 0 <= k < |s| ==> r[k] == SafeChar(s[k])
    ensures '/' !in r
  {
    if s == [] then [] else [SafeChar(s[0])] + ReplaceAllSlashes(s[1..])
  }

  /**
   * formatVidName: a loop over the title's positions that, whenever the current
   * position holds `/`, reassigns the title to `replaceAt(i, "_")`.
   */
  method FormatVidName(vidName: string) returns (r: string)
    ensures r == ReplaceAllSlashes(vidName)
  {
    r := vidName;
    var i := 0;
    while i < |r|
      invariant |r| == |vidName|
      invariant 0 <= i <= |r|
      invariant forall k :: 0 <= k < i ==> r[k] == SafeChar(vidName[k])
      invariant forall k :: i <= k < |r| ==> r[k] == vidName[k]
    {
      if r[i] == '/' {
        r := ReplaceAt(r, i, "_");
      }
      i := i + 1;
    }
    var spec := ReplaceAllSlashes(vidName);
    assert forall k :: 0 <= k < |r| ==> r[k] == spec[k];
  }

  /** Sanitising changes a title exactly when the title holds a `/`. */
  lemma ReplaceAllSlashesIdentity(s: string)
    ensures ReplaceAllSlashes(s) == s <==> '/' !in s
  {
    var r := ReplaceAllSlashes(s);
    if '/' in s {
      var k :| 0 <= k < |s| && s[k] == '/';
      assert r[k] != s[k];
    } else {
      assert forall k :: 0 <= k < |s| ==> r[k] == s[k];
    }
  }

  /** Sanitising twice is sanitising once. */
  lemma ReplaceAllSlashesIdempotent(s: string)
    ensures ReplaceAllSlashes(ReplaceAllSlashes(s)) == ReplaceAllSlashes(s)
  {
    ReplaceAllSlashesIdentity(ReplaceAllSlashes(s));
  }

  /** Sanitising distributes over concatenation, so it works segment by segment. */
  lemma {:induction false} ReplaceAllSlashesAppend(a: string, b: string)
    ensures ReplaceAllSlashes(a + b) == ReplaceAllSlashes(a) + ReplaceAllSlashes(b)
  {
    if a != [] {
      assert (a + b)[1..] == a[1..] + b;
      ReplaceAllSlashesAppend(a[1..], b);
    } else {
      assert a + b == b;
    }
  }

  /** A title with exactly one `/` has just that character rewritten. */
  lemma ReplaceAllSlashesOneSlash(a: string, b: string)
    requires '/' !in a && '/' !in b
    ensures ReplaceAllSlashes(a + "/" + b) == a + "_" + b
  {
    var s, t := a + "/" + b, a + "_" + b;
    var r := ReplaceAllSlashes(s);
    forall k | 0 <= k < |r|
      ensures r[k] == t[k]
    {
      if k < |a| {
        assert s[k] == a[k] && t[k] == a[k];
      } else if k > |a| {
        assert s[k] == b[k - |a| - 1] && t[k] == b[k - |a| - 1];
      }
    }
  }
}
