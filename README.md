# ContentDashboardAPI: download-and-relay routes, in Dafny

This project models the two routes of the ContentDashboardAPI content
dashboard (`routes/v1/contentDashboard/index.js`) that move a video from a
hosting platform into Google Drive:

- `GET /youtube-download?url=…` (`YoutubeDownload`): runs the `youtube-dl`
  extractor into the shared `downloads` directory. It then finds the newest
  `.mp4`/`.mkv`/`.webm` file there, uploads it to the YouTube Drive folder as
  `video/mp4`, answers 200 and deletes the file.
- `GET /vimeo-download?url=…` (`VimeoDownload`):
  - takes the numeric id out of the URL with `/vimeo\.com\/(\d+)/`;
  - asks the Vimeo API for the video's `name` and `download` renditions
    (`getVimeoDownloadLink`);
  - chooses the widest rendition at most 720 pixels wide;
  - streams it into `downloads/<name>.mp4` (`downloadVideo`);
  - uploads that file to the Vimeo Drive folder with the rendition's type;
  - deletes the file, then answers 200.

The model has these modules:

- `Selection` — the `filter(…).sort(…)[0]` chain both routes use, as a filter
  and a stable descending insertion sort. Its lemma shows that the head is the
  first of the best elements.
- `Paths` — `path.join` and `path.basename` on POSIX paths.
- `VimeoUrl` — the id regex, as a leftmost search plus a maximal digit run.
- `VimeoApi` — `getVimeoDownloadLink`, from the settled API request to the
  download descriptor or the error message.
- `FilePick` — the newest-file scan of `YoutubeDownload`.
- `Pipeline` — one request of either route as a pure function of its inputs.
  The inputs are the directory state and the outcome of every external call:
  extractor, metadata request, stream, upload, deletion. The result is a `Run`:
  - the trace of calls made and responses sent, in order;
  - the response;
  - the directory afterwards.

  Lemmas state what each route promises about that run.
- `ContentDashboard` — the class `Server`, whose fields are the directory, the
  trace and the current response. Its methods `YoutubeDownload`,
  `VimeoDownload` and `DownloadVideo` change those fields step by step as the
  handlers do. Each method is proved to leave exactly the state its `Pipeline`
  function describes.

External calls are parameters: the extractor's result, the metadata response,
how the rendition stream ends, the Drive upload's result and the deletion's
result. The directory listing that `fs.readdirSync` and `fs.statSync` give is a
sequence of names with modification times.

The model keeps these behaviours of the code as written:

- A staged file is not deleted when the download, the upload or the deletion
  fails. Only the success path deletes it, and in `YoutubeDownload` only after
  the 200 response.
- A failed extraction leaves in `downloads` whatever `youtube-dl` wrote: a
  `.part` file, or the separate per-format files of a merge that failed. The
  handler deletes nothing on that path. A `.part` file (`title.mp4.part`) fails
  the extension test, so no later scan picks it; a per-format leftover that
  ends in a video extension (`title.f137.mp4`) passes it, so a later request's
  newest-file scan can pick that one. A Vimeo file left staged after a failure
  ends in `.mp4`, so a later YouTube scan can pick it too (`StagedPath`).
- The YouTube upload always claims `video/mp4`, whatever the extension.
- The YouTube file is found by scanning the shared directory for the newest
  video file. There is no per-request unique path.
- Failures are plain messages with HTTP 400 or 500. There are no error kinds.
- When the rendition stream's source breaks off, neither `finish` nor `error`
  reaches the writer. `downloadVideo`'s promise then never settles and the
  Vimeo request is never answered.

## Model

| member | source | states |
|---|---|---|
| Selection.Filter | routes/v1/contentDashboard/index.js:85 | the result is at most as long as the input, holds only elements of the input that pass the test, and holds every element that passes |
| Selection.FilterAppend | routes/v1/contentDashboard/index.js:85 | filtering a concatenation is the concatenation of the filtered parts, so `filter` keeps the relative order of the elements it keeps |
| Selection.SortByKeyDesc | routes/v1/contentDashboard/index.js:86 | the result is a permutation of the input (same multiset) sorted by descending key |
| Selection.Insert | routes/v1/contentDashboard/index.js:86 | inserting into a descending sequence keeps it sorted and adds exactly that element; the new head is the element only when its key is at least the old head's, so equal keys keep input order |
| Selection.FilterSortHead | routes/v1/contentDashboard/index.js:84-86 | filter-sort-head is empty exactly when no element passes; otherwise its head is the first element, in input order, with the largest key among those that pass |
| Paths.Join | routes/v1/contentDashboard/index.js:144 | the joined path is the directory, one `/`, then the name |
| Paths.LastSlash | routes/v1/contentDashboard/index.js:43 | the index of the last `/` (or -1): it holds `/` and no later position does |
| Paths.Basename | routes/v1/contentDashboard/index.js:43 | the basename holds no `/`; `Paths.BasenameIsLastComponent` states that it is the last component of the path |
| Paths.BasenameIsLastComponent | routes/v1/contentDashboard/index.js:43 | the basename is a suffix of the path that is the whole path or follows a `/` |
| Paths.EndsWith | routes/v1/contentDashboard/index.js:34 | `s.endsWith(suffix)`; no contract of its own, used by `FilePick.IsVideoName` and stated through `FilePick.PickedFile` and `Pipeline.StagedPath` |
| Paths.BasenameOfJoin | routes/v1/contentDashboard/index.js:43 | the basename of a non-empty name joined to a directory is that name again, when the name has no separator |
| VimeoUrl.DigitRun | routes/v1/contentDashboard/index.js:128 | the greedy `\d+`: a run of digits that is a slice of the URL and is followed by a non-digit or the end |
| VimeoUrl.FirstMatch | routes/v1/contentDashboard/index.js:128 | the leftmost position at which `vimeo.com/` followed by a digit occurs, or none when there is no such position |
| VimeoUrl.ExtractVideoId | routes/v1/contentDashboard/index.js:128-132 | no id exactly when the pattern matches nowhere (the 400 case); otherwise the id is a non-empty digit string, the capture of the leftmost match |
| VimeoUrl.CaptureUnique | routes/v1/contentDashboard/index.js:132 | the capture at a given match position is unique |
| VimeoUrl.CanonicalUrl | routes/v1/contentDashboard/index.js:128-132 | `https://vimeo.com/<digits>` yields exactly those digits |
| VimeoApi.BestRendition | routes/v1/contentDashboard/index.js:84-86 | undefined exactly when every rendition is wider than 720; otherwise the first of the widest renditions at most 720 wide |
| VimeoApi.ApiUrl | routes/v1/contentDashboard/index.js:66 | the API endpoint of a video id; no contract of its own, `VimeoApi.ApiUrlInjective` states what it promises |
| VimeoApi.ApiUrlInjective | routes/v1/contentDashboard/index.js:66 | two ids are asked for at the same URL exactly when they are the same id |
| VimeoApi.Rethrown | routes/v1/contentDashboard/index.js:96 | the rethrown message is never empty: it is the caught message whenever that is non-empty, and `Failed to fetch video details.` when it is empty |
| VimeoApi.GetVimeoDownloadLink | routes/v1/contentDashboard/index.js:65-98 | a failed request fails with its (rethrown) message; an absent or empty `download` fails with "No downloadable versions…"; a descriptor only comes from a fetched body with renditions and carries the video's name; every failure message is non-empty |
| VimeoApi.RenditionAvailability | routes/v1/contentDashboard/index.js:84-93 | for a non-empty list, a descriptor is returned exactly when some rendition is at most 720 wide; when none is, the failure is the TypeError's message |
| VimeoApi.ChosenRendition | routes/v1/contentDashboard/index.js:84-93 | a returned descriptor holds the quality, type and link of the widest rendition at most 720 wide (the first of equal widths) and the video's name |
| VimeoApi.ThreeRenditions | routes/v1/contentDashboard/index.js:84-93 | of renditions 1920, 480 and 720 wide, the 720 one is described |
| VimeoApi.EqualWidthsKeepOrder | routes/v1/contentDashboard/index.js:86 | of two fitting renditions of equal width the earlier one is chosen (the sort is stable) |
| Selection.FirstBestUnique | routes/v1/contentDashboard/index.js:84-86 | at most one position is the first best one, so the chain's choice is determined by the meaning alone |
| FilePick.IsVideoName | routes/v1/contentDashboard/index.js:34 | the extension test of the `filter` step; no contract of its own, `FilePick.PickNewest` and `FilePick.PickedFile` state what it selects |
| FilePick.PickNewest | routes/v1/contentDashboard/index.js:33-36 | no file exactly when no listed name ends in `.mp4`, `.mkv` or `.webm`; otherwise the staging directory joined with the first newest such name |
| FilePick.PickedFile | routes/v1/contentDashboard/index.js:33-44 | the picked path is the newest video file's (ties to the first listed), its basename is that file's name, and that name has a video extension |
| Pipeline.Parents | utilities/googleDriveService.js:27 | the upload's parents are `[folderId]`, or `[]` exactly when the folder id is empty |
| Pipeline.MissingQuery | routes/v1/contentDashboard/index.js:13 | `!videoUrl` (also at line 123) for an absent or string query; no contract of its own, `Pipeline.YoutubeMissingUrl` and `Pipeline.VimeoRejectsUrl` state its effect |
| Pipeline.MakeDirIfMissing | routes/v1/contentDashboard/index.js:20-22 | (also lines 140-142) at most one step, a creation of the staging directory, and none exactly when the directory exists |
| Pipeline.DownloadSettles | routes/v1/contentDashboard/index.js:101-116 | `downloadVideo` resolves exactly when the writer finishes, never settles exactly when the source breaks off, and rejects with the message of a request error or a writer error |
| Pipeline.YoutubeStart | routes/v1/contentDashboard/index.js:19-30 | one step when the directory exists and two when it is missing; every step before the last is the directory's creation, and the last is the extractor on the url with the output template in the staging directory |
| Pipeline.YoutubeRun | routes/v1/contentDashboard/index.js:11-62 | one YouTube request; no contract of its own, its properties are stated by `Pipeline.YoutubeMissingUrl`, `Pipeline.YoutubeExtraction`, `Pipeline.YoutubeAnswersOnce`, `Pipeline.YoutubeUploadCall`, `Pipeline.YoutubeDeletesOnlyAfterSuccess` and `Pipeline.RunsKeepWellFormed` |
| Pipeline.YoutubeRelay | routes/v1/contentDashboard/index.js:33-61 | a YouTube request after the scan; no contract of its own, its properties are stated by `Pipeline.YoutubeRelayTrace`, `Pipeline.YoutubeRelayAnswersOnce`, `Pipeline.YoutubeRelayUpload`, `Pipeline.YoutubeRelayDeletes` and `Pipeline.YoutubeRelaySuccess` |
| Pipeline.YoutubeMissingUrl | routes/v1/contentDashboard/index.js:12-15 | a missing or empty url is answered 400 "Missing url query parameter" and nothing else happens |
| Pipeline.YoutubeExtraction | routes/v1/contentDashboard/index.js:17-30 | with a url, the run starts with the directory creation and the extractor call; an extractor error is a 500 "Failed to download video" with its message as details, nothing is deleted, and the directory holds whatever the failed extractor left |
| Pipeline.YoutubeRelayTrace | routes/v1/contentDashboard/index.js:33-61 | after the scan, each outcome gives its exact trace, response and remaining files |
| Pipeline.YoutubeRelayAnswersOnce | routes/v1/contentDashboard/index.js:33-61 | after the scan, exactly one response is sent |
| Pipeline.YoutubeAnswersOnce | routes/v1/contentDashboard/index.js:11-62 | every YouTube request is answered exactly once, with the run's response |
| Pipeline.YoutubeNoFile | routes/v1/contentDashboard/index.js:38-40 | a listing without a video file is a 500 "Download failed, file not found", with no upload and no deletion |
| Pipeline.YoutubeRelayUpload | routes/v1/contentDashboard/index.js:43-47 | after the scan, an upload happens exactly when a file was picked, and it sends that file |
| Pipeline.YoutubeUploadCall | routes/v1/contentDashboard/index.js:33-47 | an upload happens exactly when a video file was found; it sends the picked path under its basename, as `video/mp4`, into the YouTube folder |
| Pipeline.YoutubeUploadFails | routes/v1/contentDashboard/index.js:47-61 | a failed upload is a 500 "Failed to download video" with the upload's message as details, and nothing is deleted |
| Pipeline.YoutubeSuccess | routes/v1/contentDashboard/index.js:47-56 | a successful upload ends the trace with upload, 200 with the Drive file, then deletion of that file; the file is gone exactly when the deletion succeeded |
| Pipeline.YoutubeRelaySuccess | routes/v1/contentDashboard/index.js:47-56 | after the scan, a successful upload ends the trace with the upload, the 200 and the deletion; the file is gone exactly when the deletion succeeded |
| Pipeline.YoutubeRelayDeletes | routes/v1/contentDashboard/index.js:50-56 | after the scan, a deletion happens exactly for a successful upload, as the last step, right after the 200 |
| Pipeline.YoutubeDeletesOnlyAfterSuccess | routes/v1/contentDashboard/index.js:11-62 | a YouTube request deletes a file exactly when the upload succeeded, after the 200 response, as its last step |
| Pipeline.StagedPath | routes/v1/contentDashboard/index.js:144 | the staged path passes the video extension test, and for a name without `/` its basename is the name with `.mp4` |
| Pipeline.StagedInDownloads | routes/v1/contentDashboard/index.js:144 | the staged path is `downloads/` followed by the name with `.mp4` appended, for every name: it starts with `downloads/`, ends in `<name>.mp4` and has exactly that length |
| Pipeline.VimeoTransfer | routes/v1/contentDashboard/index.js:144-163 | a Vimeo request from the descriptor on; no contract of its own, its properties are stated by `Pipeline.VimeoTransferTrace`, `Pipeline.VimeoTransferAnswers`, `Pipeline.VimeoTransferStaging`, `Pipeline.VimeoTransferUpload`, `Pipeline.VimeoTransferCleanup` and `Pipeline.VimeoTransferSucceeds` |
| Pipeline.VimeoRun | routes/v1/contentDashboard/index.js:120-164 | one Vimeo request; no contract of its own, its properties are stated by `Pipeline.VimeoRejectsUrl`, `Pipeline.VimeoMetadata`, `Pipeline.VimeoAnswers`, `Pipeline.VimeoStaging`, `Pipeline.VimeoUploadCall`, `Pipeline.VimeoCleanup` and `Pipeline.RunsKeepWellFormed` |
| Pipeline.VimeoFetched | routes/v1/contentDashboard/index.js:134-163 | a Vimeo request from the metadata request on; no contract of its own, its properties are stated by `Pipeline.VimeoFetchedAnswers` and `Pipeline.VimeoReachesTransfer` |
| Pipeline.VimeoRejectsUrl | routes/v1/contentDashboard/index.js:121-131 | a missing url, or one that does not match, is answered 400 with the matching message, and nothing else happens |
| Pipeline.VimeoMetadata | routes/v1/contentDashboard/index.js:134-163 | with an id, the metadata request for that id with fields `name,download` comes first; a failure of `getVimeoDownloadLink` is a 500 with its message and leaves the directory as it was; a descriptor leads to the transfer |
| Pipeline.VimeoTransferTrace | routes/v1/contentDashboard/index.js:144-163 | from the descriptor on, each outcome of the download, upload and deletion gives its exact trace, response and remaining files |
| Pipeline.VimeoTransferAnswers | routes/v1/contentDashboard/index.js:146-163 | the transfer answers exactly once, unless the stream's source breaks off, and then it never answers |
| Pipeline.VimeoTransferStaging | routes/v1/contentDashboard/index.js:101-108 | the writer is opened on the staged path before the rendition's link is requested |
| Pipeline.VimeoTransferUpload | routes/v1/contentDashboard/index.js:146-151 | the transfer uploads exactly when the writer finished, and only the staged file, under the video's name, with the rendition's type, into the Vimeo folder |
| Pipeline.VimeoTransferCleanup | routes/v1/contentDashboard/index.js:146-163 | the staged file is deleted exactly after a successful upload, just before the response; it is gone exactly when the answer is 200; no other file changes |
| Pipeline.VimeoFetchedAnswers | routes/v1/contentDashboard/index.js:134-163 | from the metadata request on, the request is answered exactly once, unless a descriptor was obtained and the stream's source breaks off, and then it is never answered |
| Pipeline.VimeoAnswers | routes/v1/contentDashboard/index.js:120-164 | every Vimeo request is answered exactly once, except one whose stream source breaks off after a descriptor was obtained |
| Pipeline.VimeoStaging | routes/v1/contentDashboard/index.js:137-146 | a file is staged exactly when a descriptor was obtained, at `downloads/<name>.mp4`, with the writer opened right before the rendition's link is requested |
| Pipeline.VimeoEarlyAnswer | routes/v1/contentDashboard/index.js:121-135 | when the url is rejected or `getVimeoDownloadLink` throws, the request is answered at once (400, or 500 through the catch at line 161) after at most the metadata request: the directory is unchanged and no directory is created, no writer opened, no upload or deletion made |
| Pipeline.VimeoUploadCall | routes/v1/contentDashboard/index.js:146-151 | an upload happens exactly when a descriptor was obtained and the writer finished; it sends the staged file under the video's name, with the rendition's type, into the Vimeo folder |
| Pipeline.VimeoCleanup | routes/v1/contentDashboard/index.js:146-163 | once staged, the file is deleted only after a successful upload and before the response; it is gone exactly when the answer is 200, and stays on every other path |
| Pipeline.VimeoTransferSucceeds | routes/v1/contentDashboard/index.js:144-159 | a transfer that goes through writes, uploads, deletes and answers 200 with the Drive file, in that order, and the staged file is gone |
| Pipeline.VimeoEndToEnd | routes/v1/contentDashboard/index.js:120-164 | `https://vimeo.com/<digits>` with renditions 1920, 480 and 720 wide: the 720 one is streamed into `downloads/<name>.mp4`, uploaded under the name into the Vimeo folder and deleted, then 200 is sent |
| Pipeline.VimeoNoDownloads | routes/v1/contentDashboard/index.js:78-81 | an empty `download` list is a 500 "No downloadable versions…" after the metadata request alone: nothing is staged and the directory is unchanged |
| Pipeline.VimeoReachesTransfer | routes/v1/contentDashboard/index.js:128-135 | with an id, a Vimeo request continues as the metadata request for that id and what follows it |
| Pipeline.RunsKeepWellFormed | routes/v1/contentDashboard/index.js:11-164 | neither route leaves a missing directory holding files when it started without any |
| ContentDashboard.Server.EnsureDir | routes/v1/contentDashboard/index.js:139-142 | the directory exists afterwards; a creation is recorded only when it was missing |
| ContentDashboard.Server.YoutubeDownload | routes/v1/contentDashboard/index.js:11-62 | the handler appends exactly `YoutubeRun`'s trace, sends its response and leaves its directory |
| ContentDashboard.Server.UploadNewest | routes/v1/contentDashboard/index.js:38-56 | after the scan, the handler appends exactly `YoutubeRelay`'s trace, sends its response and leaves its directory |
| ContentDashboard.Server.DownloadVideo | routes/v1/contentDashboard/index.js:101-116 | opens the writer (creating the file) and requests the link, in that order, and settles as `DownloadSettles` says |
| ContentDashboard.Server.VimeoDownload | routes/v1/contentDashboard/index.js:120-164 | the handler appends exactly `VimeoRun`'s trace, sends its response (none when the stream's source breaks off) and leaves its directory |
| ContentDashboard.Server.FetchAndTransfer | routes/v1/contentDashboard/index.js:134-163 | from the metadata request on, the handler appends exactly `VimeoFetched`'s trace, sends its response and leaves its directory |
| ContentDashboard.Server.Transfer | routes/v1/contentDashboard/index.js:144-163 | from the download on, the handler appends exactly `VimeoTransfer`'s trace, sends its response and leaves its directory |

## Left out

- Real I/O is not performed. The extractor, the HTTP requests, the Drive upload and the file system are parameters, or they are actions in the trace.
- Concurrent requests sharing the `downloads` directory are not modelled. Each run sees the directory as one value, and a run that picks another request's file is out of scope.
- The response body's `fullError` field (the whole error object in the YouTube catch) is not modelled. Only `error` and `details` are.
- Failures of `fs.existsSync`, `fs.mkdirSync`, `fs.readdirSync` and `fs.statSync` are not modelled: these calls always succeed in the model.
- A `url` query given more than once reaches the handlers as an array in Express. Only a string or its absence is modelled.
- A video `name` that is absent, or that contains `/`, is not given its own behaviour. The staged path is `downloads/<name>.mp4` as a plain string.
- In `downloadVideo`, a writer error raised before the GET resolves and the listeners are attached is not modelled. It would be an unhandled error.
- The YouTube deletion's failure after the 200 is already sent is not modelled beyond keeping the file. The catch then calls `res.json` a second time, which throws `ERR_HTTP_HEADERS_SENT` inside the catch. That error escapes the async handler as an unhandled promise rejection, which by default ends the Node process on Node 15 and later. The model keeps the 200, records no second response and does not model the process ending.
- A `Dir` value whose directory is missing but which holds files can be written down. The lemmas do not exclude it; `RunsKeepWellFormed` shows that both routes keep a well-formed directory well-formed.
- Paths.Basename: a path that ends in `/` is not given Node's treatment. Node drops trailing separators first (`path.basename('downloads/')` is `downloads`), while the model gives the empty string. The route never passes such a path: every picked path ends in a video extension (`FilePick.PickedFile`).
- Selection.SortByKeyDesc: stability is not stated for the whole sorted sequence. It is stated only for the head, through `Selection.FilterSortHead` and `Selection.Insert`, because the route reads only element `[0]` of the sorted result.
- `path.basename`'s optional extension argument is not modelled: the route does not pass one.
- The TypeError message for a missing rendition is V8's wording from version 9.3 on (Node 16.9 and later). Older Node versions word it differently.
- `path.join` normalisation, the absolute location of `downloads` and Windows separators are not modelled. The directory is the literal name `downloads` joined with `/`.
- The Vimeo bearer token, the configuration and logging are not modelled.
- `console.log` and `console.error` are not modelled.
- Rendition widths that are not numbers are not modelled. JavaScript's comparison would make them incomparable.
