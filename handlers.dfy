/**
 * The two route handlers as they run: a server holds the staging directory,
 * the trace of calls made to its collaborators and the response sent for the
 * current request. Each handler is proved to do exactly what the matching
 * `Pipeline` run describes.
 */
module ContentDashboard {
  import opened Wrappers
  import opened Paths
  import opened VimeoUrl
  import opened VimeoApi
  import opened FilePick
  import opened Pipeline

  class Server {
    /** Whether the `downloads` directory exists. */
    var dirPresent: bool
    /** The paths of the files in `downloads`. */
    var files: set<string>
    /** The response sent for the current request, if any. */
    var response: Option<Response>
    /** Every call made to the file system, the extractor, the HTTP client and Drive, and every response, in order. */
    var trace: seq<Action>

    constructor (present: bool, staged: set<string>)
      ensures dirPresent == present && files == staged
      ensures response == None && trace == []
    {
      dirPresent := present;
      files := staged;
      response := None;
      trace := [];
    }

    /** The directory and the trace, as a `Pipeline` run sees them. */
    function State(): Dir
      reads this
    {
      Dir(dirPresent, files)
    }

    method Emit(a: Action)
      modifies this
      ensures trace == old(trace) + [a]
      ensures dirPresent == old(dirPresent) && files == old(files) && response == old(response)
    {
      trace := trace + [a];
    }

    /** `res.status(...).json(...)`. */
    method Send(resp: Response)
      modifies this
      ensures trace == old(trace) + [Respond(resp)] && response == Some(resp)
      ensures dirPresent == old(dirPresent) && files == old(files)
    {
      Emit(Respond(resp));
      response := Some(resp);
    }

    /** `if (!fs.existsSync(downloadDir)) fs.mkdirSync(downloadDir, { recursive: true })`. */
    method EnsureDir()
      modifies this
      ensures trace == old(trace) + MakeDirIfMissing(old(State()))
      ensures dirPresent && files == old(files) && response == old(response)
    {
      if !dirPresent {
        Emit(MakeDir(DownloadDir));
        dirPresent := true;
      }
    }

    /**
     * `YoutubeDownload`: the extractor writes into `downloads` and `extract` is
     * its outcome (its error, if any, and the listing of the directory afterwards);
     * `upload` and `unlink` are the outcomes of the Drive upload and the deletion.
     */
    method YoutubeDownload(url: Option<string>, extract: ExtractOutcome, upload: UploadOutcome, unlink: UnlinkOutcome)
      modifies this
      ensures var r := YoutubeRun(old(State()), url, extract, upload, unlink);
        trace == old(trace) + r.actions && response == r.response && State() == r.dir
    {
      ghost var d := State();
      ghost var before := trace;
      response := None;
      if MissingQuery(url) {
        Send(Response(400, ErrorBody(MissingYoutubeUrl)));
        return;
      }
      EnsureDir();
      Emit(RunExtractor(url.value, Join(DownloadDir, OutputTemplate)));
      ghost var started := YoutubeStart(d, url.value);
      assert trace == before + started;
      files := ListedPaths(extract.listing);
      if extract.ExtractFailed? {
        var resp := Response(500, ErrorDetails(YoutubeFailure, extract.message));
        Send(resp);
        assert trace == before + (started + [Respond(resp)]);
        return;
      }
      var picked := PickNewest(extract.listing);
      UploadNewest(before, started, files, picked, upload, unlink);
    }

    /**
     * `YoutubeDownload` after the directory scan, with the trace `started` so
     * far and `picked` the newest video file found among the `listed` paths.
     */
    method UploadNewest(ghost before: seq<Action>, ghost started: seq<Action>, ghost listed: set<string>, picked: Option<string>, upload: UploadOutcome, unlink: UnlinkOutcome)
      requires trace == before + started && dirPresent && files == listed
      modifies this
      ensures var r := YoutubeRelay(started, listed, picked, upload, unlink);
        trace == before + r.actions && response == r.response && State() == r.dir
    {
      ghost var r := YoutubeRelay(started, listed, picked, upload, unlink);
      if picked.None? {
        var resp := Response(500, ErrorBody(FileNotFound));
        Send(resp);
        assert r == Answer(started, resp, Dir(true, listed));
        assert trace == before + (started + [Respond(resp)]);
        return;
      }
      var path := picked.value;
      var call := Upload(path, Basename(path), YoutubeMimeType, Parents(YoutubeFolder));
      Emit(call);
      if upload.UploadFailed? {
        var resp := Response(500, ErrorDetails(YoutubeFailure, upload.message));
        Send(resp);
        assert r == Answer(started + [call], resp, Dir(true, listed));
        assert trace == before + (started + [call] + [Respond(resp)]);
        return;
      }
      var ok := Response(200, Uploaded(SuccessMessage, upload.file));
      Send(ok);
      Emit(Unlink(path));
      assert trace == before + (started + [call, Respond(ok), Unlink(path)]);
      if unlink.Unlinked? {
        files := files - {path};
      }
      assert r == Run(started + [call, Respond(ok), Unlink(path)], Some(ok), Dir(true, files));
    }

    /**
     * `downloadVideo`: the writer is opened on `savePath` (creating the file)
     * before the GET is issued; the result is how its promise settles.
     */
    method DownloadVideo(videoUrl: string, savePath: string, stream: StreamOutcome) returns (settled: Option<Result<(), string>>)
      modifies this
      ensures trace == old(trace) + [OpenWriter(savePath), FetchStream(videoUrl)]
      ensures files == old(files) + {savePath}
      ensures dirPresent == old(dirPresent) && response == old(response)
      ensures settled == DownloadSettles(stream)
    {
      Emit(OpenWriter(savePath));
      files := files + {savePath};
      Emit(FetchStream(videoUrl));
      settled := DownloadSettles(stream);
    }

    /**
     * `VimeoDownload`: `meta` is the outcome of the metadata request, `stream`
     * that of the rendition download, `upload` and `unlink` those of the Drive
     * upload and the deletion.
     */
    method VimeoDownload(url: Option<string>, meta: MetadataOutcome, stream: StreamOutcome, upload: UploadOutcome, unlink: UnlinkOutcome)
      modifies this
      ensures var r := VimeoRun(old(State()), url, meta, stream, upload, unlink);
        trace == old(trace) + r.actions && response == r.response && State() == r.dir
    {
      ghost var before := trace;
      response := None;
      if MissingQuery(url) {
        Send(Response(400, ErrorBody(MissingVimeoUrl)));
        return;
      }
      var id := ExtractVideoId(url.value);
      if id.None? {
        Send(Response(400, ErrorBody(InvalidVimeoUrl)));
        return;
      }
      var link := GetVimeoDownloadLink(meta);
      FetchAndTransfer(before, id.value, link, stream, upload, unlink);
    }

    /** `VimeoDownload` from the metadata request for `id` on; `link` is what `getVimeoDownloadLink` gives. */
    method FetchAndTransfer(ghost before: seq<Action>, id: string, link: Result<DownloadInfo, string>, stream: StreamOutcome, upload: UploadOutcome, unlink: UnlinkOutcome)
      requires trace == before && response == None
      modifies this
      ensures var r := VimeoFetched(old(State()), id, link, stream, upload, unlink);
        trace == before + r.actions && response == r.response && State() == r.dir
    {
      ghost var d := State();
      var fetch := FetchMetadata(ApiUrl(id), MetadataFields);
      Emit(fetch);
      if link.Failure? {
        var resp := Response(500, ErrorBody(link.error));
        Send(resp);
        assert trace == before + ([fetch] + [Respond(resp)]);
        return;
      }
      EnsureDir();
      assert trace == before + ([fetch] + MakeDirIfMissing(d));
      Transfer(before, [fetch] + MakeDirIfMissing(d), link.value, stream, upload, unlink);
    }

    /** `VimeoDownload` from the rendition download on, after `started`. */
    method Transfer(ghost before: seq<Action>, ghost started: seq<Action>, info: DownloadInfo, stream: StreamOutcome, upload: UploadOutcome, unlink: UnlinkOutcome)
      requires trace == before + started && dirPresent && response == None
      modifies this
      ensures var r := VimeoTransfer(started, old(files), info, stream, upload, unlink);
        trace == before + r.actions && response == r.response && State() == r.dir
    {
      var path := StagedPath(info.name);
      var settled := DownloadVideo(info.url, path, stream);
      ghost var streaming := started + [OpenWriter(path), FetchStream(info.url)];
      assert trace == before + streaming;
      if settled.None? {
        return;
      }
      if settled.value.Failure? {
        var resp := Response(500, ErrorBody(settled.value.error));
        Send(resp);
        assert trace == before + (streaming + [Respond(resp)]);
        return;
      }
      var call := Upload(path, info.name, info.mimeType, Parents(VimeoFolder));
      Emit(call);
      if upload.UploadFailed? {
        var resp := Response(500, ErrorBody(upload.message));
        Send(resp);
        assert trace == before + (streaming + [call] + [Respond(resp)]);
        return;
      }
      Emit(Unlink(path));
      if unlink.UnlinkFailed? {
        var resp := Response(500, ErrorBody(unlink.message));
        Send(resp);
        assert trace == before + (streaming + [call, Unlink(path)] + [Respond(resp)]);
        return;
      }
      files := files - {path};
      var ok := Response(200, Uploaded(SuccessMessage, upload.file));
      Send(ok);
      assert trace == before + (streaming + [call, Unlink(path)] + [Respond(ok)]);
    }
  }
}
