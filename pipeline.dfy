/**
 * What one request to `YoutubeDownload` or `VimeoDownload` does, as a value:
 * the collaborator calls it makes in order (with their arguments), the response
 * it sends, and the staging directory it leaves behind. Every external call is
 * an input outcome: the extractor, the Vimeo API request, the download stream,
 * the Google Drive upload and the file deletion either succeed or fail with a
 * message.
 */
module Pipeline {
  import opened Wrappers
  import opened Paths
  import opened VimeoUrl
  import opened VimeoApi
  import opened FilePick

  /** The fields `uploadFile` asks Google Drive to return for the created file. */
  datatype DriveFile = DriveFile(id: string, name: string, webViewLink: string, webContentLink: string)

  /** The JSON bodies the handlers send. */
  datatype Body =
    | ErrorBody(error: string)
    | ErrorDetails(error: string, details: string)
    | Uploaded(message: string, driveFile: DriveFile)

  datatype Response = Response(status: int, body: Body)

  /** An observable step of a request, in the order the handler takes it. */
  datatype Action =
    | MakeDir(dir: string)                       // fs.mkdirSync(dir, { recursive: true })
    | RunExtractor(url: string, output: string)  // youtubedl(url, { output })
    | FetchMetadata(url: string, fields: string) // axios.get of the Vimeo API
    | OpenWriter(path: string)                   // fs.createWriteStream(path): creates or truncates the file
    | FetchStream(url: string)                   // axios stream GET of the rendition
    | Upload(path: string, name: string, mimeType: string, parents: seq<string>)  // uploadFile
    | Unlink(path: string)                       // fs.unlinkSync(path), attempted
    | Respond(response: Response)                // res.status(..).json(..)

  /**
   * The extractor either finished or threw; either way the directory then lists
   * `listing`. A failed run can leave partial files behind (a `.part` file, or
   * the separate audio and video files of a merge that failed).
   */
  datatype ExtractOutcome = Extracted(listing: seq<Entry>) | ExtractFailed(message: string, listing: seq<Entry>)

  /**
   * How the rendition download goes: the stream request throws, the writer emits
   * `finish` or `error`, or the source stream breaks off, after which the writer
   * emits neither.
   */
  datatype StreamOutcome = RequestFailed(message: string) | WriterFinished | WriterFailed(message: string) | SourceAborted

  /** `uploadFile` returns the created file, or rethrows with the Drive error's message unchanged. */
  datatype UploadOutcome = UploadOk(file: DriveFile) | UploadFailed(message: string)

  datatype UnlinkOutcome = Unlinked | UnlinkFailed(message: string)

  /** The staging directory: whether it exists, and the paths of the files in it. */
  datatype Dir = Dir(present: bool, files: set<string>)

  /** A directory that does not exist holds no files. */
  predicate WellFormed(d: Dir)
  {
    d.present || d.files == {}
  }

  /** A request's trace, its response (`None`: never answered), and the directory afterwards. */
  datatype Run = Run(actions: seq<Action>, response: Option<Response>, dir: Dir)

  const YoutubeFolder := "1uAfwWc7OsT_6D9ePhgCMFxYjLm781QM6"
  const VimeoFolder := "12GSyBg4cACTczRZ8sn81HMUkuMpqa9PQ"
  /** youtube-dl's output template: the video's title and extension. */
  const OutputTemplate := "%(title)s.%(ext)s"
  const YoutubeMimeType := "video/mp4"
  const SuccessMessage := "File downloaded and uploaded to Google Drive successfully"
  const YoutubeFailure := "Failed to download video"
  const FileNotFound := "Download failed, file not found"
  const MissingYoutubeUrl := "Missing url query parameter"
  const MissingVimeoUrl := "Missing URL query parameter"
  const InvalidVimeoUrl := "Invalid Vimeo URL"

  /** `!videoUrl`: the query parameter is absent or empty (a string is falsy exactly when it is empty). */
  predicate MissingQuery(url: Option<string>)
  {
    url.None? || url.value == ""
  }

  /** `parents: folderId ? [folderId] : []` in `uploadFile`. */
  function Parents(folderId: string): (r: seq<string>)
    ensures |r| <= 1 && (r == [] <==> folderId == "")
    ensures forall f :: f in r ==> f == folderId
  {
    if folderId == "" then [] else [folderId]
  }

  /** The paths of every listed file. */
  function ListedPaths(listing: seq<Entry>): set<string>
  {
    set e | e in listing :: Join(DownloadDir, e.name)
  }

  /** The responses in a trace, in order. */
  function Responses(actions: seq<Action>): seq<Response>
  {
    if actions == [] then []
    else (if actions[0].Respond? then [actions[0].response] else []) + Responses(actions[1..])
  }

  lemma {:induction false} ResponsesAppend(a: seq<Action>, b: seq<Action>)
    ensures Responses(a + b) == Responses(a) + Responses(b)
  {
    if a == [] {
      assert a + b == b;
    } else {
      assert (a + b)[0] == a[0];
      assert (a + b)[1..] == a[1..] + b;
      ResponsesAppend(a[1..], b);
    }
  }

  /** `MakeDir` when the directory is missing: `if (!fs.existsSync(dir)) fs.mkdirSync(dir)`. */
  function MakeDirIfMissing(d: Dir): (r: seq<Action>)
    ensures |r| <= 1 && (r == [] <==> d.present)
    ensures forall a :: a in r ==> a == MakeDir(DownloadDir)
  {
    if d.present then [] else [MakeDir(DownloadDir)]
  }

  /** Sends `resp` after `actions`, leaving the directory as `d`. */
  function Answer(actions: seq<Action>, resp: Response, d: Dir): Run
  {
    Run(actions + [Respond(resp)], Some(resp), d)
  }

  /**
   * `downloadVideo`'s promise: resolved on the writer's `finish`, rejected with
   * the message on a request error or the writer's `error`, and never settled
   * (`None`) when the source breaks off.
   */
  function DownloadSettles(o: StreamOutcome): (r: Option<Result<(), string>>)
    ensures r == Some(Success(())) <==> o == WriterFinished
    ensures r == None <==> o == SourceAborted
    ensures (o.RequestFailed? || o.WriterFailed?) ==> r == Some(Failure(o.message))
  {
    match o
    case RequestFailed(m) => Some(Failure(m))
    case WriterFinished => Some(Success(()))
    case WriterFailed(m) => Some(Failure(m))
    case SourceAborted => None
  }

  /** Steps before a handler's first external call: only directory creation and the call itself. */
  predicate Preparatory(actions: seq<Action>)
  {
    forall a :: a in actions ==> a.MakeDir? || a.RunExtractor? || a.FetchMetadata? || a.OpenWriter? || a.FetchStream?
  }

  lemma {:induction false} PreparatoryResponses(actions: seq<Action>)
    requires Preparatory(actions)
    ensures Responses(actions) == []
  {
    SilentResponses(actions);
  }

  /** A trace without a `Respond` step has no responses. */
  lemma {:induction false} SilentResponses(actions: seq<Action>)
    requires forall a :: a in actions ==> !a.Respond?
    ensures Responses(actions) == []
  {
    if actions != [] {
      assert actions[0] in actions;
      assert forall a :: a in actions[1..] ==> a in actions;
      SilentResponses(actions[1..]);
    }
  }

  /** A trace that ends with its only `Respond` step has that one response. */
  lemma RespondsLast(actions: seq<Action>, resp: Response)
    requires forall a :: a in actions ==> !a.Respond?
    ensures Responses(actions + [Respond(resp)]) == [resp]
  {
    SilentResponses(actions);
    ResponsesAppend(actions, [Respond(resp)]);
    assert [Respond(resp)][1..] == [];
  }

  /** The directory check and the extractor call that start a YouTube request with a url. */
  function YoutubeStart(d: Dir, url: string): (r: seq<Action>)
    ensures Preparatory(r)
    ensures |r| == (if d.present then 1 else 2)
    ensures r[|r| - 1] == RunExtractor(url, Join(DownloadDir, OutputTemplate))
    ensures forall k :: 0 <= k < |r| - 1 ==> r[k] == MakeDir(DownloadDir)
  {
    MakeDirIfMissing(d) + [RunExtractor(url, Join(DownloadDir, OutputTemplate))]
  }

  /**
   * `YoutubeDownload` after the directory scan, from the trace `started` so far,
   * the listed paths and the picked file.
   */
  function YoutubeRelay(started: seq<Action>, listed: set<string>, picked: Option<string>, upload: UploadOutcome, unlink: UnlinkOutcome): Run
  {
    match picked
    case None => Answer(started, Response(500, ErrorBody(FileNotFound)), Dir(true, listed))
    case Some(path) =>
      var call := Upload(path, Basename(path), YoutubeMimeType, Parents(YoutubeFolder));
      match upload
      case UploadFailed(m) => Answer(started + [call], Response(500, ErrorDetails(YoutubeFailure, m)), Dir(true, listed))
      case UploadOk(file) =>
        var ok := Response(200, Uploaded(SuccessMessage, file));
        var left := if unlink.Unlinked? then listed - {path} else listed;
        Run(started + [call, Respond(ok), Unlink(path)], Some(ok), Dir(true, left))
  }

  /** `YoutubeDownload` for one request, from the directory `d`. */
  function YoutubeRun(d: Dir, url: Option<string>, extract: ExtractOutcome, upload: UploadOutcome, unlink: UnlinkOutcome): Run
  {
    if MissingQuery(url) then Answer([], Response(400, ErrorBody(MissingYoutubeUrl)), d)
    else
      var started := YoutubeStart(d, url.value);
      match extract
      case ExtractFailed(m, listing) => Answer(started, Response(500, ErrorDetails(YoutubeFailure, m)), Dir(true, ListedPaths(listing)))
      case Extracted(listing) => YoutubeRelay(started, ListedPaths(listing), PickNewest(listing), upload, unlink)
  }

  /** A missing url is answered with 400 and nothing else happens. */
  lemma YoutubeMissingUrl(d: Dir, url: Option<string>, extract: ExtractOutcome, upload: UploadOutcome, unlink: UnlinkOutcome)
    requires MissingQuery(url)
    ensures var r := YoutubeRun(d, url, extract, upload, unlink);
      r.actions == [Respond(Response(400, ErrorBody(MissingYoutubeUrl)))] && r.dir == d
  {
  }

  /**
   * Otherwise the directory is created when missing and the extractor runs on
   * the url with the output template in the staging directory. Its error is a
   * 500 with the message as details; the handler deletes nothing, so whatever
   * the failed extractor left stays in the directory.
   */
  lemma YoutubeExtraction(d: Dir, url: Option<string>, extract: ExtractOutcome, upload: UploadOutcome, unlink: UnlinkOutcome)
    requires !MissingQuery(url)
    ensures var r := YoutubeRun(d, url, extract, upload, unlink);
      && var started := YoutubeStart(d, url.value);
      && |started| <= |r.actions| && r.actions[..|started|] == started
      && r.dir.present
      && (extract.ExtractFailed? ==>
            && r.response == Some(Response(500, ErrorDetails(YoutubeFailure, extract.message)))
            && r.dir.files == ListedPaths(extract.listing) && r.actions == started + [Respond(r.response.value)])
      && (extract.Extracted? ==>
            r == YoutubeRelay(started, ListedPaths(extract.listing), PickNewest(extract.listing), upload, unlink))
  {
    var r := YoutubeRun(d, url, extract, upload, unlink);
    var started := YoutubeStart(d, url.value);
    match extract
    case ExtractFailed(m, listing) =>
      assert r == Answer(started, Response(500, ErrorDetails(YoutubeFailure, m)), Dir(true, ListedPaths(listing)));
    case Extracted(listing) =>
      assert r == YoutubeRelay(started, ListedPaths(listing), PickNewest(listing), upload, unlink);
      YoutubeRelayTrace(started, ListedPaths(listing), PickNewest(listing), upload, unlink);
      assert r.actions[..|started|] == started;
  }

  /** Each outcome after the scan, with the exact trace it leaves. */
  lemma YoutubeRelayTrace(started: seq<Action>, listed: set<string>, picked: Option<string>, upload: UploadOutcome, unlink: UnlinkOutcome)
    ensures var r := YoutubeRelay(started, listed, picked, upload, unlink);
      && r.response.Some?
      && (picked.None? ==>
            && r.actions == started + [Respond(r.response.value)]
            && r.response.value == Response(500, ErrorBody(FileNotFound)) && r.dir.files == listed)
      && (picked.Some? ==>
            && var call := Upload(picked.value, Basename(picked.value), YoutubeMimeType, [YoutubeFolder]);
            && (upload.UploadFailed? ==>
                  && r.actions == started + [call, Respond(r.response.value)]
                  && r.response.value == Response(500, ErrorDetails(YoutubeFailure, upload.message))
                  && r.dir.files == listed)
            && (upload.UploadOk? ==>
                  && r.actions == started + [call, Respond(r.response.value), Unlink(picked.value)]
                  && r.response.value == Response(200, Uploaded(SuccessMessage, upload.file))
                  && r.dir.files == if unlink.Unlinked? then listed - {picked.value} else listed))
  {
    match picked
    case None =>
    case Some(path) =>
      assert Parents(YoutubeFolder) == [YoutubeFolder];
      var call := Upload(path, Basename(path), YoutubeMimeType, [YoutubeFolder]);
      var r := YoutubeRelay(started, listed, picked, upload, unlink);
      match upload
      case UploadFailed(_) =>
        assert r.actions == started + [call, Respond(r.response.value)];
      case UploadOk(_) =>
        assert r.actions == started + [call, Respond(r.response.value), Unlink(path)];
  }

  /** After the scan, the request is answered exactly once. */
  lemma YoutubeRelayAnswersOnce(started: seq<Action>, listed: set<string>, picked: Option<string>, upload: UploadOutcome, unlink: UnlinkOutcome)
    requires Preparatory(started)
    ensures var r := YoutubeRelay(started, listed, picked, upload, unlink);
      r.response.Some? && Responses(r.actions) == [r.response.value]
  {
    var r := YoutubeRelay(started, listed, picked, upload, unlink);
    YoutubeRelayTrace(started, listed, picked, upload, unlink);
    var resp := r.response.value;
    if picked.None? {
      RespondsLast(started, resp);
    } else {
      var pre := started + [Upload(picked.value, Basename(picked.value), YoutubeMimeType, [YoutubeFolder])];
      assert forall a :: a in pre ==> a in started || a.Upload?;
      RespondsLast(pre, resp);
      if upload.UploadFailed? {
        assert r.actions == pre + [Respond(resp)];
      } else {
        assert r.actions == (pre + [Respond(resp)]) + [Unlink(picked.value)];
        ResponsesAppend(pre + [Respond(resp)], [Unlink(picked.value)]);
        SilentResponses([Unlink(picked.value)]);
      }
    }
  }

  /** Every request is answered exactly once, and the answer is the run's response. */
  lemma YoutubeAnswersOnce(d: Dir, url: Option<string>, extract: ExtractOutcome, upload: UploadOutcome, unlink: UnlinkOutcome)
    ensures var r := YoutubeRun(d, url, extract, upload, unlink);
      r.response.Some? && Responses(r.actions) == [r.response.value]
  {
    if !MissingQuery(url) {
      var started := YoutubeStart(d, url.value);
      if extract.Extracted? {
        YoutubeRelayAnswersOnce(started, ListedPaths(extract.listing), PickNewest(extract.listing), upload, unlink);
      } else {
        var r := YoutubeRun(d, url, extract, upload, unlink);
        assert r.actions == started + [Respond(r.response.value)];
        PreparatoryResponses(started);
        ResponsesAppend(started, [Respond(r.response.value)]);
      }
    }
  }

  /** A listing without a video file is a 500 "file not found", with no upload. */
  lemma YoutubeNoFile(d: Dir, url: Option<string>, listing: seq<Entry>, upload: UploadOutcome, unlink: UnlinkOutcome)
    requires !MissingQuery(url)
    requires forall j :: 0 <= j < |listing| ==> !IsVideoName(listing[j].name)
    ensures var r := YoutubeRun(d, url, Extracted(listing), upload, unlink);
      && r.response == Some(Response(500, ErrorBody(FileNotFound)))
      && (forall a :: a in r.actions ==> !a.Upload? && !a.Unlink?)
      && r.dir.files == ListedPaths(listing)
  {
    var started := YoutubeStart(d, url.value);
    YoutubeRelayTrace(started, ListedPaths(listing), None, upload, unlink);
  }

  /** After the scan, the only upload is of the picked file, under its basename, as video/mp4, into the YouTube folder. */
  lemma YoutubeRelayUpload(started: seq<Action>, listed: set<string>, picked: Option<string>, upload: UploadOutcome, unlink: UnlinkOutcome)
    requires Preparatory(started)
    ensures var r := YoutubeRelay(started, listed, picked, upload, unlink);
      && ((exists a :: a in r.actions && a.Upload?) <==> picked.Some?)
      && forall a :: a in r.actions && a.Upload? ==>
           a == Upload(picked.value, Basename(picked.value), YoutubeMimeType, [YoutubeFolder])
  {
    var r := YoutubeRelay(started, listed, picked, upload, unlink);
    YoutubeRelayTrace(started, listed, picked, upload, unlink);
    var resp := Respond(r.response.value);
    if picked.None? {
      assert forall a :: a in r.actions ==> a in started || a == resp;
    } else {
      var call := Upload(picked.value, Basename(picked.value), YoutubeMimeType, [YoutubeFolder]);
      assert call in r.actions;
      if upload.UploadFailed? {
        assert forall a :: a in r.actions ==> a in started || a == call || a == resp;
      } else {
        assert forall a :: a in r.actions ==> a in started || a == call || a == resp || a == Unlink(picked.value);
      }
    }
  }

  /**
   * An upload happens exactly when a video file was picked; it sends the picked
   * path under its basename, as video/mp4, into the YouTube folder.
   */
  lemma YoutubeUploadCall(d: Dir, url: Option<string>, extract: ExtractOutcome, upload: UploadOutcome, unlink: UnlinkOutcome)
    ensures var r := YoutubeRun(d, url, extract, upload, unlink);
      && ((exists a :: a in r.actions && a.Upload?) <==>
            !MissingQuery(url) && extract.Extracted? && PickNewest(extract.listing).Some?)
      && forall a :: a in r.actions && a.Upload? ==>
           && !MissingQuery(url) && extract.Extracted?
           && PickNewest(extract.listing) == Some(a.path)
           && a.name == Basename(a.path) && a.mimeType == YoutubeMimeType && a.parents == [YoutubeFolder]
  {
    var r := YoutubeRun(d, url, extract, upload, unlink);
    if MissingQuery(url) {
      assert r.actions == [Respond(r.response.value)];
    } else {
      var started := YoutubeStart(d, url.value);
      YoutubeExtraction(d, url, extract, upload, unlink);
      if extract.Extracted? {
        YoutubeRelayUpload(started, ListedPaths(extract.listing), PickNewest(extract.listing), upload, unlink);
      } else {
        assert forall a :: a in r.actions ==> a in started || a == Respond(r.response.value);
      }
    }
  }

  /** A failed upload is a 500 with the upload's message as details; nothing is deleted. */
  lemma YoutubeUploadFails(d: Dir, url: Option<string>, listing: seq<Entry>, message: string, unlink: UnlinkOutcome)
    requires !MissingQuery(url) && PickNewest(listing).Some?
    ensures var r := YoutubeRun(d, url, Extracted(listing), UploadFailed(message), unlink);
      && r.response == Some(Response(500, ErrorDetails(YoutubeFailure, message)))
      && (forall a :: a in r.actions ==> !a.Unlink?)
      && r.dir.files == ListedPaths(listing)
  {
    var started := YoutubeStart(d, url.value);
    var r := YoutubeRelay(started, ListedPaths(listing), PickNewest(listing), UploadFailed(message), unlink);
    assert YoutubeRun(d, url, Extracted(listing), UploadFailed(message), unlink) == r;
    YoutubeRelayTrace(started, ListedPaths(listing), PickNewest(listing), UploadFailed(message), unlink);
    YoutubeRelayDeletes(started, ListedPaths(listing), PickNewest(listing), UploadFailed(message), unlink);
    assert !Deletes(r.actions);
  }

  /**
   * A successful upload is answered with 200 and the Drive file; only then is
   * the uploaded file deleted, as the last step, and it is gone when the deletion
   * succeeded.
   */
  lemma YoutubeSuccess(d: Dir, url: Option<string>, listing: seq<Entry>, file: DriveFile, unlink: UnlinkOutcome)
    requires !MissingQuery(url) && PickNewest(listing).Some?
    ensures var r := YoutubeRun(d, url, Extracted(listing), UploadOk(file), unlink);
      && var path := PickNewest(listing).value;
      && var n := |r.actions|;
      && n >= 3
      && r.actions[n - 3] == Upload(path, Basename(path), YoutubeMimeType, [YoutubeFolder])
      && r.actions[n - 2] == Respond(Response(200, Uploaded(SuccessMessage, file)))
      && r.actions[n - 1] == Unlink(path)
      && r.dir.files == if unlink.Unlinked? then ListedPaths(listing) - {path} else ListedPaths(listing)
  {
    var started := YoutubeStart(d, url.value);
    assert YoutubeRun(d, url, Extracted(listing), UploadOk(file), unlink)
        == YoutubeRelay(started, ListedPaths(listing), PickNewest(listing), UploadOk(file), unlink);
    YoutubeRelaySuccess(started, ListedPaths(listing), PickNewest(listing).value, file, unlink);
  }

  /** After the scan, a successful upload of `path` ends the trace with the upload, the 200 and the deletion. */
  lemma YoutubeRelaySuccess(started: seq<Action>, listed: set<string>, path: string, file: DriveFile, unlink: UnlinkOutcome)
    ensures var r := YoutubeRelay(started, listed, Some(path), UploadOk(file), unlink);
      && var n := |r.actions|;
      && n >= 3
      && r.actions[n - 3] == Upload(path, Basename(path), YoutubeMimeType, [YoutubeFolder])
      && r.actions[n - 2] == Respond(Response(200, Uploaded(SuccessMessage, file)))
      && r.actions[n - 1] == Unlink(path)
      && r.dir.files == if unlink.Unlinked? then listed - {path} else listed
  {
    var call := Upload(path, Basename(path), YoutubeMimeType, [YoutubeFolder]);
    var ok := Response(200, Uploaded(SuccessMessage, file));
    var r := YoutubeRelay(started, listed, Some(path), UploadOk(file), unlink);
    assert r.actions == started + [call, Respond(ok), Unlink(path)];
  }

  /** The trace deletes a file. */
  predicate Deletes(actions: seq<Action>)
  {
    exists a :: a in actions && a.Unlink?
  }

  /** After the scan, a deletion happens only for a successful upload, after the 200 response, as the last step. */
  lemma YoutubeRelayDeletes(started: seq<Action>, listed: set<string>, picked: Option<string>, upload: UploadOutcome, unlink: UnlinkOutcome)
    requires Preparatory(started)
    ensures var r := YoutubeRelay(started, listed, picked, upload, unlink);
      && (Deletes(r.actions) <==> picked.Some? && upload.UploadOk?)
      && (Deletes(r.actions) ==>
            && |r.actions| >= 2
            && r.actions[|r.actions| - 2] == Respond(r.response.value) && r.response.value.status == 200
            && r.actions[|r.actions| - 1] == Unlink(picked.value))
  {
    var r := YoutubeRelay(started, listed, picked, upload, unlink);
    YoutubeRelayTrace(started, listed, picked, upload, unlink);
    assert !Deletes(started);
    if picked.Some? && upload.UploadOk? {
      assert r.actions[|r.actions| - 1] in r.actions;
    } else if picked.Some? {
      var call := Upload(picked.value, Basename(picked.value), YoutubeMimeType, [YoutubeFolder]);
      assert r.actions == started + [call, Respond(r.response.value)];
      assert forall a :: a in r.actions ==> a in started || a == call || a == Respond(r.response.value);
    } else {
      assert r.actions == started + [Respond(r.response.value)];
      assert forall a :: a in r.actions ==> a in started || a == Respond(r.response.value);
    }
  }

  /**
   * A file is deleted only when the upload succeeded, after the 200 response, as
   * the request's last step.
   */
  lemma YoutubeDeletesOnlyAfterSuccess(d: Dir, url: Option<string>, extract: ExtractOutcome, upload: UploadOutcome, unlink: UnlinkOutcome)
    ensures var r := YoutubeRun(d, url, extract, upload, unlink);
      && (Deletes(r.actions) <==>
            !MissingQuery(url) && extract.Extracted? && PickNewest(extract.listing).Some? && upload.UploadOk?)
      && (Deletes(r.actions) ==>
            && |r.actions| >= 2
            && r.actions[|r.actions| - 2] == Respond(r.response.value) && r.response.value.status == 200
            && r.actions[|r.actions| - 1] == Unlink(PickNewest(extract.listing).value))
  {
    var r := YoutubeRun(d, url, extract, upload, unlink);
    if MissingQuery(url) {
      assert r.actions == [Respond(r.response.value)];
    } else {
      var started := YoutubeStart(d, url.value);
      YoutubeExtraction(d, url, extract, upload, unlink);
      if extract.Extracted? {
        YoutubeRelayDeletes(started, ListedPaths(extract.listing), PickNewest(extract.listing), upload, unlink);
      } else {
        assert !Deletes(started);
        assert forall a :: a in r.actions ==> a in started || a == Respond(r.response.value);
      }
    }
  }

  /** `path.join(downloadDir, `${fileName}.mp4`)`: where a Vimeo video is staged. */
  function StagedPath(name: string): (r: string)
    ensures IsVideoName(r)
    ensures '/' !in name ==> Basename(r) == name + ".mp4"
  {
    var file := name + ".mp4";
    assert EndsWith(Join(DownloadDir, file), ".mp4");
    if '/' !in name then BasenameOfJoin(DownloadDir, file); Join(DownloadDir, file)
    else Join(DownloadDir, file)
  }

  /** The staged file lies directly in `downloads` and is named after the video, with `.mp4` appended. */
  lemma StagedInDownloads(name: string)
    ensures var r := StagedPath(name);
      && |r| == |DownloadDir| + 1 + |name| + 4
      && r[..|DownloadDir| + 1] == DownloadDir + "/"
      && EndsWith(r, name + ".mp4")
  {
    var r := StagedPath(name);
    assert r == DownloadDir + "/" + (name + ".mp4");
  }

  /**
   * `VimeoDownload` once the descriptor `info` is known, from the trace `started`
   * so far and the files `files` of the directory: open the writer on the staged
   * path, stream the rendition into it, upload it, delete it, answer.
   */
  function VimeoTransfer(started: seq<Action>, files: set<string>, info: DownloadInfo, stream: StreamOutcome, upload: UploadOutcome, unlink: UnlinkOutcome): Run
  {
    var path := StagedPath(info.name);
    var streaming := started + [OpenWriter(path), FetchStream(info.url)];
    var staged := Dir(true, files + {path});
    match DownloadSettles(stream)
    case None => Run(streaming, None, staged)
    case Some(Failure(m)) => Answer(streaming, Response(500, ErrorBody(m)), staged)
    case Some(Success(_)) =>
      var call := Upload(path, info.name, info.mimeType, Parents(VimeoFolder));
      match upload
      case UploadFailed(m) => Answer(streaming + [call], Response(500, ErrorBody(m)), staged)
      case UploadOk(file) =>
        match unlink
        case UnlinkFailed(m) => Answer(streaming + [call, Unlink(path)], Response(500, ErrorBody(m)), staged)
        case Unlinked =>
          Answer(streaming + [call, Unlink(path)], Response(200, Uploaded(SuccessMessage, file)), Dir(true, files - {path}))
  }

  /** `VimeoDownload` for one request, from the directory `d`. */
  function VimeoRun(d: Dir, url: Option<string>, meta: MetadataOutcome, stream: StreamOutcome, upload: UploadOutcome, unlink: UnlinkOutcome): Run
  {
    if MissingQuery(url) then Answer([], Response(400, ErrorBody(MissingVimeoUrl)), d)
    else
      match ExtractVideoId(url.value)
      case None => Answer([], Response(400, ErrorBody(InvalidVimeoUrl)), d)
      case Some(id) => VimeoFetched(d, id, GetVimeoDownloadLink(meta), stream, upload, unlink)
  }

  /** `VimeoDownload` from the metadata request for `id` on, `link` being what `getVimeoDownloadLink` gave. */
  function VimeoFetched(d: Dir, id: string, link: Result<DownloadInfo, string>, stream: StreamOutcome, upload: UploadOutcome, unlink: UnlinkOutcome): Run
  {
    var fetch := [FetchMetadata(ApiUrl(id), MetadataFields)];
    match link
    case Failure(m) => Answer(fetch, Response(500, ErrorBody(m)), d)
    case Success(info) => VimeoTransfer(fetch + MakeDirIfMissing(d), d.files, info, stream, upload, unlink)
  }

  /**
   * A missing url, or one without `vimeo.com/<digits>`, is answered with 400 and
   * nothing else happens: no metadata request, no download, no upload.
   */
  lemma VimeoRejectsUrl(d: Dir, url: Option<string>, meta: MetadataOutcome, stream: StreamOutcome, upload: UploadOutcome, unlink: UnlinkOutcome)
    requires MissingQuery(url) || ExtractVideoId(url.value).None?
    ensures var r := VimeoRun(d, url, meta, stream, upload, unlink);
      && r.actions == [Respond(r.response.value)] && r.dir == d
      && r.response.value == Response(400, ErrorBody(if MissingQuery(url) then MissingVimeoUrl else InvalidVimeoUrl))
  {
  }

  /**
   * With an id, the metadata request for that id comes first; when
   * `getVimeoDownloadLink` fails the answer is a 500 with its message, and no
   * file is staged.
   */
  lemma VimeoMetadata(d: Dir, url: Option<string>, meta: MetadataOutcome, stream: StreamOutcome, upload: UploadOutcome, unlink: UnlinkOutcome)
    requires !MissingQuery(url) && ExtractVideoId(url.value).Some?
    ensures var r := VimeoRun(d, url, meta, stream, upload, unlink);
      && var fetch := FetchMetadata(ApiUrl(ExtractVideoId(url.value).value), MetadataFields);
      && |r.actions| > 0 && r.actions[0] == fetch
      && (GetVimeoDownloadLink(meta).Failure? ==>
            && r.actions == [fetch, Respond(r.response.value)]
            && r.response.value == Response(500, ErrorBody(GetVimeoDownloadLink(meta).error))
            && r.dir == d)
      && (GetVimeoDownloadLink(meta).Success? ==>
            r == VimeoTransfer([fetch] + MakeDirIfMissing(d), d.files, GetVimeoDownloadLink(meta).value, stream, upload, unlink))
  {
  }

  /** Each download, upload and deletion outcome, with the exact trace and directory it leaves. */
  lemma VimeoTransferTrace(started: seq<Action>, files: set<string>, info: DownloadInfo, stream: StreamOutcome, upload: UploadOutcome, unlink: UnlinkOutcome)
    ensures var r := VimeoTransfer(started, files, info, stream, upload, unlink);
      && var path := StagedPath(info.name);
      && var streaming := started + [OpenWriter(path), FetchStream(info.url)];
      && var call := Upload(path, info.name, info.mimeType, [VimeoFolder]);
      && r.dir.present
      && (stream == SourceAborted ==> r.actions == streaming && r.response.None? && r.dir.files == files + {path})
      && (stream.RequestFailed? || stream.WriterFailed? ==>
            && r.actions == streaming + [Respond(r.response.value)]
            && r.response.value == Response(500, ErrorBody(stream.message)) && r.dir.files == files + {path})
      && (stream == WriterFinished && upload.UploadFailed? ==>
            && r.actions == streaming + [call, Respond(r.response.value)]
            && r.response.value == Response(500, ErrorBody(upload.message)) && r.dir.files == files + {path})
      && (stream == WriterFinished && upload.UploadOk? && unlink.UnlinkFailed? ==>
            && r.actions == streaming + [call, Unlink(path), Respond(r.response.value)]
            && r.response.value == Response(500, ErrorBody(unlink.message)) && r.dir.files == files + {path})
      && (stream == WriterFinished && upload.UploadOk? && unlink.Unlinked? ==>
            && r.actions == streaming + [call, Unlink(path), Respond(r.response.value)]
            && r.response.value == Response(200, Uploaded(SuccessMessage, upload.file)) && r.dir.files == files - {path})
  {
  }

  /** The descriptor a request with an id reaches the transfer with, if any. */
  function VimeoInfo(url: Option<string>, meta: MetadataOutcome): Option<DownloadInfo>
  {
    if MissingQuery(url) || ExtractVideoId(url.value).None? || GetVimeoDownloadLink(meta).Failure? then None
    else Some(GetVimeoDownloadLink(meta).value)
  }

  /** The transfer answers once, unless the source breaks off and it never answers. */
  lemma VimeoTransferAnswers(started: seq<Action>, files: set<string>, info: DownloadInfo, stream: StreamOutcome, upload: UploadOutcome, unlink: UnlinkOutcome)
    requires Preparatory(started)
    ensures var r := VimeoTransfer(started, files, info, stream, upload, unlink);
      && (r.response.None? <==> stream == SourceAborted)
      && Responses(r.actions) == (if r.response.None? then [] else [r.response.value])
  {
    var r := VimeoTransfer(started, files, info, stream, upload, unlink);
    VimeoTransferTrace(started, files, info, stream, upload, unlink);
    var path := StagedPath(info.name);
    var streaming := started + [OpenWriter(path), FetchStream(info.url)];
    assert Preparatory(streaming);
    if stream == SourceAborted {
      PreparatoryResponses(streaming);
    } else {
      var body := r.actions[..|r.actions| - 1];
      assert r.actions == body + [Respond(r.response.value)];
      assert forall a :: a in body ==> a in streaming || a.Upload? || a.Unlink?;
      RespondsLast(body, r.response.value);
    }
  }

  /** The transfer opens the writer on the staged path, then requests the rendition's link. */
  lemma VimeoTransferStaging(started: seq<Action>, files: set<string>, info: DownloadInfo, stream: StreamOutcome, upload: UploadOutcome, unlink: UnlinkOutcome)
    ensures var r := VimeoTransfer(started, files, info, stream, upload, unlink);
      && |started| + 1 < |r.actions|
      && r.actions[|started|] == OpenWriter(StagedPath(info.name))
      && r.actions[|started| + 1] == FetchStream(info.url)
  {
    VimeoTransferTrace(started, files, info, stream, upload, unlink);
  }

  /** The transfer uploads exactly when the writer finished, and only the staged file. */
  lemma VimeoTransferUpload(started: seq<Action>, files: set<string>, info: DownloadInfo, stream: StreamOutcome, upload: UploadOutcome, unlink: UnlinkOutcome)
    requires Preparatory(started)
    ensures var r := VimeoTransfer(started, files, info, stream, upload, unlink);
      && ((exists a :: a in r.actions && a.Upload?) <==> stream == WriterFinished)
      && forall a :: a in r.actions && a.Upload? ==>
           a == Upload(StagedPath(info.name), info.name, info.mimeType, [VimeoFolder])
  {
    var r := VimeoTransfer(started, files, info, stream, upload, unlink);
    VimeoTransferTrace(started, files, info, stream, upload, unlink);
    var path := StagedPath(info.name);
    var streaming := started + [OpenWriter(path), FetchStream(info.url)];
    assert forall a :: a in streaming ==> !a.Upload?;
    if stream == WriterFinished {
      var call := Upload(path, info.name, info.mimeType, [VimeoFolder]);
      assert r.actions[|streaming|] == call;
      assert forall a :: a in r.actions ==> a in streaming || a == call || a.Unlink? || a.Respond?;
    } else {
      assert forall a :: a in r.actions ==> a in streaming || a.Respond?;
    }
  }

  /**
   * The transfer deletes the staged file only after a successful upload and
   * before the response; the file is gone exactly when the answer is 200.
   */
  lemma VimeoTransferCleanup(started: seq<Action>, files: set<string>, info: DownloadInfo, stream: StreamOutcome, upload: UploadOutcome, unlink: UnlinkOutcome)
    requires Preparatory(started)
    ensures var r := VimeoTransfer(started, files, info, stream, upload, unlink);
      && var path := StagedPath(info.name);
      && (Deletes(r.actions) <==> stream == WriterFinished && upload.UploadOk?)
      && (Deletes(r.actions) ==>
            && |r.actions| >= 2
            && r.actions[|r.actions| - 2] == Unlink(path)
            && r.actions[|r.actions| - 1] == Respond(r.response.value))
      && (r.response.Some? && r.response.value.status == 200 <==> Deletes(r.actions) && unlink.Unlinked?)
      && (path in r.dir.files <==> !(r.response.Some? && r.response.value.status == 200))
      && r.dir.files - {path} == files - {path}
  {
    var r := VimeoTransfer(started, files, info, stream, upload, unlink);
    VimeoTransferTrace(started, files, info, stream, upload, unlink);
    var path := StagedPath(info.name);
    var streaming := started + [OpenWriter(path), FetchStream(info.url)];
    assert !Deletes(streaming);
    if stream == WriterFinished && upload.UploadOk? {
      assert r.actions[|r.actions| - 2] == Unlink(path);
    } else {
      assert forall a :: a in r.actions ==> a in streaming || a.Upload? || a.Respond?;
    }
  }

  /**
   * Every request is answered exactly once, except one whose download source
   * breaks off: `downloadVideo` never settles and that request is never answered.
   */
  lemma VimeoAnswers(d: Dir, url: Option<string>, meta: MetadataOutcome, stream: StreamOutcome, upload: UploadOutcome, unlink: UnlinkOutcome)
    ensures var r := VimeoRun(d, url, meta, stream, upload, unlink);
      && (r.response.None? <==> VimeoInfo(url, meta).Some? && stream == SourceAborted)
      && Responses(r.actions) == (if r.response.None? then [] else [r.response.value])
  {
    var r := VimeoRun(d, url, meta, stream, upload, unlink);
    if MissingQuery(url) || ExtractVideoId(url.value).None? {
      assert r.actions == [] + [Respond(r.response.value)];
      RespondsLast([], r.response.value);
    } else {
      var link := GetVimeoDownloadLink(meta);
      assert r == VimeoFetched(d, ExtractVideoId(url.value).value, link, stream, upload, unlink);
      VimeoFetchedAnswers(d, ExtractVideoId(url.value).value, link, stream, upload, unlink);
    }
  }

  /** From the metadata request on, the request is answered once, unless the stream's source breaks off. */
  lemma VimeoFetchedAnswers(d: Dir, id: string, link: Result<DownloadInfo, string>, stream: StreamOutcome, upload: UploadOutcome, unlink: UnlinkOutcome)
    ensures var r := VimeoFetched(d, id, link, stream, upload, unlink);
      && (r.response.None? <==> link.Success? && stream == SourceAborted)
      && Responses(r.actions) == (if r.response.None? then [] else [r.response.value])
  {
    var fetch := FetchMetadata(ApiUrl(id), MetadataFields);
    if link.Failure? {
      RespondsLast([fetch], Response(500, ErrorBody(link.error)));
    } else {
      assert Preparatory([fetch] + MakeDirIfMissing(d));
      VimeoTransferAnswers([fetch] + MakeDirIfMissing(d), d.files, link.value, stream, upload, unlink);
    }
  }

  /**
   * A file is staged, under `name + ".mp4"` in the staging directory, exactly when
   * the descriptor was obtained; the writer is opened before the rendition's
   * link is requested.
   */
  lemma VimeoStaging(d: Dir, url: Option<string>, meta: MetadataOutcome, stream: StreamOutcome, upload: UploadOutcome, unlink: UnlinkOutcome)
    ensures var r := VimeoRun(d, url, meta, stream, upload, unlink);
      && ((exists a :: a in r.actions && a.OpenWriter?) <==> VimeoInfo(url, meta).Some?)
      && (VimeoInfo(url, meta).Some? ==>
            && var info := VimeoInfo(url, meta).value;
            && exists i :: && 0 <= i < |r.actions| - 1
                           && r.actions[i] == OpenWriter(StagedPath(info.name))
                           && r.actions[i + 1] == FetchStream(info.url))
  {
    var r := VimeoRun(d, url, meta, stream, upload, unlink);
    if MissingQuery(url) || ExtractVideoId(url.value).None? {
      VimeoRejectsUrl(d, url, meta, stream, upload, unlink);
    } else {
      VimeoMetadata(d, url, meta, stream, upload, unlink);
      var fetch := FetchMetadata(ApiUrl(ExtractVideoId(url.value).value), MetadataFields);
      if GetVimeoDownloadLink(meta).Success? {
        var started := [fetch] + MakeDirIfMissing(d);
        VimeoTransferStaging(started, d.files, GetVimeoDownloadLink(meta).value, stream, upload, unlink);
        assert r.actions[|started|] in r.actions;
      }
    }
  }

  /**
   * Without a download descriptor the route answers after at most the metadata
   * request: nothing is created, staged, uploaded or deleted.
   */
  lemma VimeoEarlyAnswer(d: Dir, url: Option<string>, meta: MetadataOutcome, stream: StreamOutcome, upload: UploadOutcome, unlink: UnlinkOutcome)
    requires VimeoInfo(url, meta).None?
    ensures var r := VimeoRun(d, url, meta, stream, upload, unlink);
      && r.dir == d && r.response.Some? && |r.actions| <= 2
      && forall a :: a in r.actions ==> a.FetchMetadata? || a.Respond?
  {
    var r := VimeoRun(d, url, meta, stream, upload, unlink);
    if MissingQuery(url) || ExtractVideoId(url.value).None? {
      VimeoRejectsUrl(d, url, meta, stream, upload, unlink);
    } else {
      VimeoMetadata(d, url, meta, stream, upload, unlink);
    }
  }

  /**
   * The upload happens exactly when the writer finished; it sends the staged
   * file under the video's name, with the rendition's type as MIME type, into the
   * Vimeo folder.
   */
  lemma VimeoUploadCall(d: Dir, url: Option<string>, meta: MetadataOutcome, stream: StreamOutcome, upload: UploadOutcome, unlink: UnlinkOutcome)
    ensures var r := VimeoRun(d, url, meta, stream, upload, unlink);
      && ((exists a :: a in r.actions && a.Upload?) <==> VimeoInfo(url, meta).Some? && stream == WriterFinished)
      && forall a :: a in r.actions && a.Upload? ==>
           && VimeoInfo(url, meta).Some?
           && var info := VimeoInfo(url, meta).value;
           && a == Upload(StagedPath(info.name), info.name, info.mimeType, [VimeoFolder])
  {
    if VimeoInfo(url, meta).Some? {
      var fetch := FetchMetadata(ApiUrl(ExtractVideoId(url.value).value), MetadataFields);
      var info := GetVimeoDownloadLink(meta).value;
      VimeoMetadata(d, url, meta, stream, upload, unlink);
      assert Preparatory([fetch] + MakeDirIfMissing(d));
      VimeoTransferUpload([fetch] + MakeDirIfMissing(d), d.files, info, stream, upload, unlink);
    } else {
      VimeoEarlyAnswer(d, url, meta, stream, upload, unlink);
    }
  }

  /**
   * Once a file is staged, it is deleted only after a successful upload, and
   * before the response; it is gone only when that deletion succeeded, which is
   * exactly when the answer is 200. On every other path it stays.
   */
  lemma VimeoCleanup(d: Dir, url: Option<string>, meta: MetadataOutcome, stream: StreamOutcome, upload: UploadOutcome, unlink: UnlinkOutcome)
    ensures var r := VimeoRun(d, url, meta, stream, upload, unlink);
      VimeoInfo(url, meta).Some? ==>
        && var path := StagedPath(VimeoInfo(url, meta).value.name);
        && (Deletes(r.actions) <==> stream == WriterFinished && upload.UploadOk?)
        && (Deletes(r.actions) ==>
              && |r.actions| >= 2
              && r.actions[|r.actions| - 2] == Unlink(path)
              && r.actions[|r.actions| - 1] == Respond(r.response.value))
        && (r.response.Some? && r.response.value.status == 200 <==> Deletes(r.actions) && unlink.Unlinked?)
        && (path in r.dir.files <==> !(r.response.Some? && r.response.value.status == 200))
        && r.dir.files - {path} == d.files - {path}
  {
    if VimeoInfo(url, meta).Some? {
      var id := ExtractVideoId(url.value).value;
      var fetch := FetchMetadata(ApiUrl(id), MetadataFields);
      var info := GetVimeoDownloadLink(meta).value;
      assert VimeoInfo(url, meta).value == info;
      VimeoReachesTransfer(d, url, meta, stream, upload, unlink);
      assert VimeoRun(d, url, meta, stream, upload, unlink)
        == VimeoTransfer([fetch] + MakeDirIfMissing(d), d.files, info, stream, upload, unlink);
      assert Preparatory([fetch] + MakeDirIfMissing(d));
      VimeoTransferCleanup([fetch] + MakeDirIfMissing(d), d.files, info, stream, upload, unlink);
    }
  }


  /** With an id, `VimeoDownload` continues from the metadata request for that id. */
  lemma VimeoReachesTransfer(d: Dir, url: Option<string>, meta: MetadataOutcome, stream: StreamOutcome, upload: UploadOutcome, unlink: UnlinkOutcome)
    requires !MissingQuery(url) && ExtractVideoId(url.value).Some?
    ensures VimeoRun(d, url, meta, stream, upload, unlink) ==
      VimeoFetched(d, ExtractVideoId(url.value).value, GetVimeoDownloadLink(meta), stream, upload, unlink)
  {
  }

  /** A transfer that goes through: write, upload, delete, 200. */
  lemma VimeoTransferSucceeds(started: seq<Action>, files: set<string>, info: DownloadInfo, file: DriveFile)
    ensures var path := StagedPath(info.name);
      VimeoTransfer(started, files, info, WriterFinished, UploadOk(file), Unlinked) ==
        Run(started + [OpenWriter(path), FetchStream(info.url), Upload(path, info.name, info.mimeType, [VimeoFolder]),
                       Unlink(path), Respond(Response(200, Uploaded(SuccessMessage, file)))],
            Some(Response(200, Uploaded(SuccessMessage, file))), Dir(true, files - {path}))
  {
  }

  /**
   * A canonical Vimeo url whose video has a 1920, a 480 and a 720 pixel
   * rendition: the 720 one is streamed into the staged file, uploaded under the
   * video's name into the Vimeo folder, deleted, and the request is answered
   * with 200.
   */
  lemma VimeoEndToEnd(d: Dir, id: string, name: string, file: DriveFile)
    requires |id| > 0 && forall c :: c in id ==> IsDigit(c)
    ensures var r := VimeoRun(d, Some("https://vimeo.com/" + id), Fetched(VideoData(name, Some(SampleDownloads))),
                              WriterFinished, UploadOk(file), Unlinked);
      && var path := StagedPath(name);
      && r.actions == [FetchMetadata(ApiUrl(id), MetadataFields)] + MakeDirIfMissing(d)
           + [OpenWriter(path), FetchStream("u2"), Upload(path, name, "video/mp4", [VimeoFolder]),
              Unlink(path), Respond(Response(200, Uploaded(SuccessMessage, file)))]
      && r.dir == Dir(true, d.files - {path})
  {
    var meta := Fetched(VideoData(name, Some(SampleDownloads)));
    CanonicalUrl(id);
    ThreeRenditions(name);
    VimeoReachesTransfer(d, Some("https://vimeo.com/" + id), meta, WriterFinished, UploadOk(file), Unlinked);
    VimeoTransferSucceeds([FetchMetadata(ApiUrl(id), MetadataFields)] + MakeDirIfMissing(d), d.files,
                          DownloadInfo("hd", "video/mp4", "u2", name), file);
  }

  /**
   * A video whose `download` list is empty: the answer is a 500 with the
   * "no downloadable versions" message, after the metadata request alone;
   * nothing is staged.
   */
  lemma VimeoNoDownloads(d: Dir, id: string, name: string, stream: StreamOutcome, upload: UploadOutcome, unlink: UnlinkOutcome)
    requires |id| > 0 && forall c :: c in id ==> IsDigit(c)
    ensures var r := VimeoRun(d, Some("https://vimeo.com/" + id), Fetched(VideoData(name, Some([]))), stream, upload, unlink);
      && r.actions == [FetchMetadata(ApiUrl(id), MetadataFields), Respond(Response(500, ErrorBody(NoVersionsMessage)))]
      && r.response == Some(Response(500, ErrorBody(NoVersionsMessage)))
      && r.dir == d
  {
    CanonicalUrl(id);
    VimeoMetadata(d, Some("https://vimeo.com/" + id), Fetched(VideoData(name, Some([]))), stream, upload, unlink);
  }

  /** Neither route leaves a missing directory holding files, when it started without any. */
  lemma RunsKeepWellFormed(d: Dir, url: Option<string>, extract: ExtractOutcome, meta: MetadataOutcome,
                           stream: StreamOutcome, upload: UploadOutcome, unlink: UnlinkOutcome)
    requires WellFormed(d)
    ensures WellFormed(YoutubeRun(d, url, extract, upload, unlink).dir)
    ensures WellFormed(VimeoRun(d, url, meta, stream, upload, unlink).dir)
  {
  }
}
