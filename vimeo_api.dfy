/**
 * `getVimeoDownloadLink`: from the Vimeo API's answer for one video (its `name`
 * and its `download` list of renditions), choose the rendition to download and
 * describe it, or fail with a message. The HTTP GET itself is an input: either
 * the parsed response body or the message of the error axios threw.
 */
module VimeoApi {
  import opened Wrappers
  import opened Selection

  /** One entry of `download`: a rendition of the video. */
  datatype Rendition = Rendition(width: int, quality: string, mimeType: string, link: string)

  /** `response.data`: `download` is `None` when the field is absent or null. */
  datatype VideoData = VideoData(name: string, download: Option<seq<Rendition>>)

  /** What `axios.get` of the video's API URL gave: a body, or a thrown error's message. */
  datatype MetadataOutcome = Fetched(data: VideoData) | FetchFailed(message: string)

  /** The object `getVimeoDownloadLink` returns (`type` is a keyword here, hence `mimeType`). */
  datatype DownloadInfo = DownloadInfo(quality: string, mimeType: string, url: string, name: string)

  /** Renditions wider than this are never chosen. */
  const MaxWidth := 720

  const NoVersionsMessage := "No downloadable versions available for this video."

  /** Used when the caught error's message is empty. */
  const FallbackMessage := "Failed to fetch video details."

  /**
   * The message of the TypeError that Node's V8 engine throws when
   * `bestDownload.quality` is read while `bestDownload` is undefined (no
   * rendition is at most 720 wide). This is the wording of V8 9.3 and later
   * (Node 16.9 and later); older versions say "Cannot read property 'quality'
   * of undefined".
   */
  const UndefinedRenditionMessage := "Cannot read properties of undefined (reading 'quality')"

  /** The API endpoint `https://api.vimeo.com/videos/${videoId}`. */
  function ApiUrl(videoId: string): string
  {
    "https://api.vimeo.com/videos/" + videoId
  }

  /** Different ids are asked for at different URLs. */
  lemma ApiUrlInjective(a: string, b: string)
    ensures ApiUrl(a) == ApiUrl(b) <==> a == b
  {
    if ApiUrl(a) == ApiUrl(b) {
      var n := |"https://api.vimeo.com/videos/"|;
      assert a == ApiUrl(a)[n..] && b == ApiUrl(b)[n..];
    }
  }

  /** The `fields` query parameter of that request. */
  const MetadataFields := "name,download"

  function Fits(v: Rendition): bool
  {
    v.width <= MaxWidth
  }

  function Width(v: Rendition): int
  {
    v.width
  }

  /**
   * `download.filter(v => v.width <= 720).sort((a, b) => b.width - a.width)[0]`:
   * `None` (undefined) when no rendition fits, otherwise the first of the widest
   * fitting renditions in input order.
   */
  function BestRendition(download: seq<Rendition>): (r: Option<Rendition>)
    ensures r.None? <==> forall j :: 0 <= j < |download| ==> download[j].width > MaxWidth
    ensures r.Some? ==> exists i :: IsFirstBest(download, Fits, Width, i) && r.value == download[i]
  {
    var sorted := SortByKeyDesc(Filter(download, Fits), Width);
    FilterSortHead(download, Fits, Width);
    if sorted == [] then None else Some(sorted[0])
  }

  /** `new Error(error.message || 'Failed to fetch video details.')`. */
  function Rethrown(message: string): (r: string)
    ensures r != []
    ensures message != [] ==> r == message
    ensures message == [] ==> r == FallbackMessage
  {
    if message == [] then FallbackMessage else message
  }

  /** `getVimeoDownloadLink` once the API request has settled with `meta`. */
  function GetVimeoDownloadLink(meta: MetadataOutcome): (r: Result<DownloadInfo, string>)
    ensures meta.FetchFailed? ==> r == Failure(Rethrown(meta.message))
    ensures meta.Fetched? && (meta.data.download.None? || meta.data.download.value == []) ==>
      r == Failure(NoVersionsMessage)
    ensures r.Success? ==> meta.Fetched? && meta.data.download.Some? && r.value.name == meta.data.name
    ensures r.Failure? ==> r.error != []
  {
    match meta
    case FetchFailed(m) => Failure(Rethrown(m))
    case Fetched(data) =>
      if data.download.None? || |data.download.value| == 0 then Failure(Rethrown(NoVersionsMessage))
      else
        match BestRendition(data.download.value)
        case None => Failure(Rethrown(UndefinedRenditionMessage))
        case Some(best) => Success(DownloadInfo(best.quality, best.mimeType, best.link, data.name))
  }

  /**
   * `d[i]` fits, is at least as wide as every other fitting rendition, and comes
   * first among the fitting renditions of that width.
   */
  ghost predicate IsWidestFitting(d: seq<Rendition>, i: int)
  {
    && 0 <= i < |d|
    && d[i].width <= MaxWidth
    && (forall j :: 0 <= j < |d| && d[j].width <= MaxWidth ==> d[j].width <= d[i].width)
    && (forall j :: 0 <= j < i && d[j].width <= MaxWidth ==> d[j].width < d[i].width)
  }

  lemma FirstBestIsWidestFitting(d: seq<Rendition>, i: int)
    requires IsFirstBest(d, Fits, Width, i)
    ensures IsWidestFitting(d, i)
  {
    assert forall j :: 0 <= j < |d| ==> Fits(d[j]) == (d[j].width <= MaxWidth);
  }

  /**
   * For a non-empty list, a descriptor is returned exactly when some rendition
   * is at most 720 wide; when none is, the failure is the TypeError's message.
   */
  lemma RenditionAvailability(meta: MetadataOutcome)
    requires meta.Fetched? && meta.data.download.Some? && meta.data.download.value != []
    ensures var d := meta.data.download.value;
      && (GetVimeoDownloadLink(meta).Success? <==> exists j :: 0 <= j < |d| && d[j].width <= MaxWidth)
      && ((forall j :: 0 <= j < |d| ==> d[j].width > MaxWidth) ==>
            GetVimeoDownloadLink(meta) == Failure(UndefinedRenditionMessage))
  {
    var d := meta.data.download.value;
    var best := BestRendition(d);
    if best.None? {
      assert forall j :: 0 <= j < |d| ==> d[j].width > MaxWidth;
    } else {
      var i :| IsFirstBest(d, Fits, Width, i) && best.value == d[i];
      assert d[i].width <= MaxWidth;
    }
  }

  /** The descriptor copies the widest fitting rendition and the video's name. */
  lemma ChosenRendition(meta: MetadataOutcome)
    ensures GetVimeoDownloadLink(meta).Success? ==>
      && meta.Fetched? && meta.data.download.Some?
      && exists i :: && IsWidestFitting(meta.data.download.value, i)
                     && var v := meta.data.download.value[i];
                     && GetVimeoDownloadLink(meta).value == DownloadInfo(v.quality, v.mimeType, v.link, meta.data.name)
  {
    if GetVimeoDownloadLink(meta).Success? {
      var d := meta.data.download.value;
      var best := BestRendition(d);
      var i :| IsFirstBest(d, Fits, Width, i) && best.value == d[i];
      FirstBestIsWidestFitting(d, i);
    }
  }


  /** A video with renditions 1920, 480 and 720 pixels wide, in that order. */
  const SampleDownloads := [Rendition(1920, "hd", "video/mp4", "u0"),
                            Rendition(480, "sd", "video/mp4", "u1"),
                            Rendition(720, "hd", "video/mp4", "u2")]

  /** A worked case: of `SampleDownloads`, the 720 pixel rendition is chosen. */
  lemma ThreeRenditions(name: string)
    ensures GetVimeoDownloadLink(Fetched(VideoData(name, Some(SampleDownloads)))) ==
      Success(DownloadInfo("hd", "video/mp4", "u2", name))
  {
    var d := SampleDownloads;
    var r := BestRendition(d);
    var i :| IsFirstBest(d, Fits, Width, i) && r.value == d[i];
    assert IsFirstBest(d, Fits, Width, 2);
    FirstBestUnique(d, Fits, Width, i, 2);
  }

  /** Equal widths: the earlier rendition wins. */
  lemma EqualWidthsKeepOrder(a: Rendition, b: Rendition)
    requires a.width == b.width <= MaxWidth
    ensures BestRendition([a, b]) == Some(a)
  {
    var r := BestRendition([a, b]);
    var i :| IsFirstBest([a, b], Fits, Width, i) && r.value == [a, b][i];
    assert IsFirstBest([a, b], Fits, Width, 0);
    FirstBestUnique([a, b], Fits, Width, i, 0);
  }
}
