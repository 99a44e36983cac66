/**
 * The video id that `VimeoDownload` takes from its `url` parameter with
 * `videoUrl.match(/vimeo\.com\/(\d+)/)` and `videoIdMatch[1]`. The expression is
 * unanchored, so the match is the leftmost position where the literal text
 * `vimeo.com/` is directly followed by a digit; the greedy `\d+` then takes every
 * digit that follows. `\d` is the ASCII digit class.
 */
module VimeoUrl {
  import opened Wrappers

  const Marker: string := "vimeo.com/"

  predicate IsDigit(c: char)
  {
    '0' <= c <= '9'
  }

  /** The pattern matches at `i`: `vimeo.com/` starts there and a digit follows it. */
  predicate MatchesAt(url: string, i: int)
  {
    && 0 <= i
    && i + |Marker| < |url|
    && url[i..i + |Marker|] == Marker
    && IsDigit(url[i + |Marker|])
  }

  /** `id` is the capture of the match at `i`: the maximal run of digits after the marker. */
  predicate IsCaptureAt(url: string, i: int, id: string)
  {
    && MatchesAt(url, i)
    && var start := i + |Marker|;
    && start + |id| <= |url|
    && url[start..start + |id|] == id
    && (forall k :: 0 <= k < |id| ==> IsDigit(id[k]))
    && (start + |id| == |url| || !IsDigit(url[start + |id|]))
  }

  /** The digits of `s` from `k` on, up to the first non-digit or the end. */
  function DigitRun(s: string, k: nat): (r: string)
    requires k <= |s|
    ensures k + |r| <= |s| && s[k..k + |r|] == r
    ensures forall c :: c in r ==> IsDigit(c)
    ensures k + |r| == |s| || !IsDigit(s[k + |r|])
    decreases |s| - k
  {
    if k == |s| || !IsDigit(s[k]) then []
    else [s[k]] + DigitRun(s, k + 1)
  }

  /** The leftmost position at or after `from` where the pattern matches. */
  function FirstMatch(url: string, from: nat): (r: Option<nat>)
    ensures r.Some? ==> from <= r.value && MatchesAt(url, r.value)
    ensures r.Some? ==> forall j :: from <= j < r.value ==> !MatchesAt(url, j)
    ensures r.None? ==> forall j :: from <= j ==> !MatchesAt(url, j)
    decreases |url| - from
  {
    if from + |Marker| >= |url| then None
    else if MatchesAt(url, from) then Some(from)
    else FirstMatch(url, from + 1)
  }

  /**
   * `videoIdMatch && videoIdMatch[1]`: the id when the URL matches, `None` (the
   * 400 "Invalid Vimeo URL" response) when it does not.
   */
  function ExtractVideoId(url: string): (r: Option<string>)
    ensures r.None? <==> forall i :: !MatchesAt(url, i)
    ensures r.Some? ==> |r.value| > 0 && forall c :: c in r.value ==> IsDigit(c)
    ensures r.Some? ==> exists i :: IsCaptureAt(url, i, r.value) && forall j :: 0 <= j < i ==> !MatchesAt(url, j)
  {
    match FirstMatch(url, 0)
    case None => None
    case Some(i) =>
      var id := DigitRun(url, i + |Marker|);
      assert IsCaptureAt(url, i, id);
      Some(id)
  }

  /** Every position inside a capture holds a digit of the URL. */
  lemma CaptureDigit(url: string, i: int, id: string, k: int)
    requires IsCaptureAt(url, i, id) && 0 <= k < |id|
    ensures IsDigit(url[i + |Marker| + k])
  {
    assert url[i + |Marker| + k] == url[i + |Marker|..i + |Marker| + |id|][k];
  }

  /** The capture at a position is unique: the run of digits is maximal. */
  lemma {:induction false} CaptureUnique(url: string, i: int, id1: string, id2: string)
    requires IsCaptureAt(url, i, id1) && IsCaptureAt(url, i, id2)
    ensures id1 == id2
  {
    if |id1| < |id2| {
      CaptureDigit(url, i, id2, |id1|);
      assert false;
    } else if |id2| < |id1| {
      CaptureDigit(url, i, id1, |id2|);
      assert false;
    }
  }

  /** The canonical link `https://vimeo.com/<digits>` yields exactly those digits. */
  lemma CanonicalUrl(id: string)
    requires |id| > 0 && forall c :: c in id ==> IsDigit(c)
    ensures ExtractVideoId("https://vimeo.com/" + id) == Some(id)
  {
    var url := "https://vimeo.com/" + id;
    assert MatchesAt(url, 8);
    forall j | 0 <= j < 8
      ensures !MatchesAt(url, j)
    {
      assert url[j] != 'v';
    }
    var r := ExtractVideoId(url);
    var i :| IsCaptureAt(url, i, r.value) && forall j :: 0 <= j < i ==> !MatchesAt(url, j);
    assert i == 8;
    assert IsCaptureAt(url, 8, id);
    CaptureUnique(url, 8, r.value, id);
  }
}
