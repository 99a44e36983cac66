/**
 * How `YoutubeDownload` finds the file the extractor wrote: it lists the
 * staging directory, keeps the names ending in `.mp4`, `.mkv` or `.webm`, joins
 * them to the directory, sorts them by modification time, newest first (stably),
 * and takes the head. The listing is an input: the names in the order
 * `fs.readdirSync` returns them, each with its `mtime` in milliseconds.
 */
module FilePick {
  import opened Wrappers
  import opened Selection
  import opened Paths

  datatype Entry = Entry(name: string, mtime: int)

  /** The extension test of the `filter` step (case-sensitive). */
  predicate IsVideoName(name: string)
  {
    EndsWith(name, ".mp4") || EndsWith(name, ".mkv") || EndsWith(name, ".webm")
  }

  function IsVideo(e: Entry): bool
  {
    IsVideoName(e.name)
  }

  function Mtime(e: Entry): int
  {
    e.mtime
  }

  /**
   * The full path of the newest video file, `None` when there is none. The join
   * is applied to the chosen entry: joining every name before the sort, as the
   * source does, leaves the order unchanged, since the sort key is the mtime of
   * each file.
   */
  function PickNewest(listing: seq<Entry>): (r: Option<string>)
    ensures r.None? <==> forall j :: 0 <= j < |listing| ==> !IsVideoName(listing[j].name)
    ensures r.Some? ==> exists i :: IsFirstBest(listing, IsVideo, Mtime, i) && r.value == Join(DownloadDir, listing[i].name)
  {
    var sorted := SortByKeyDesc(Filter(listing, IsVideo), Mtime);
    FilterSortHead(listing, IsVideo, Mtime);
    if sorted == [] then None else Some(Join(DownloadDir, sorted[0].name))
  }

  /**
   * `listing[i]` is a video file, no video file is newer, and every video file
   * listed before it is strictly older.
   */
  ghost predicate IsNewestVideo(listing: seq<Entry>, i: int)
  {
    && 0 <= i < |listing|
    && IsVideoName(listing[i].name)
    && (forall j :: 0 <= j < |listing| && IsVideoName(listing[j].name) ==> listing[j].mtime <= listing[i].mtime)
    && (forall j :: 0 <= j < i && IsVideoName(listing[j].name) ==> listing[j].mtime < listing[i].mtime)
  }

  /**
   * The picked path is the staging directory joined with the newest video file's
   * name; the upload's file name, its basename, is that name again.
   */
  lemma PickedFile(listing: seq<Entry>)
    requires forall j :: 0 <= j < |listing| ==> '/' !in listing[j].name
    ensures PickNewest(listing).Some? ==>
      && var path := PickNewest(listing).value;
      && (exists i :: && IsNewestVideo(listing, i)
                      && path == Join(DownloadDir, listing[i].name)
                      && Basename(path) == listing[i].name)
      && (EndsWith(Basename(path), ".mp4") || EndsWith(Basename(path), ".mkv") || EndsWith(Basename(path), ".webm"))
  {
    if PickNewest(listing).Some? {
      var path := PickNewest(listing).value;
      var i :| IsFirstBest(listing, IsVideo, Mtime, i) && path == Join(DownloadDir, listing[i].name);
      assert forall j :: 0 <= j < |listing| ==> IsVideo(listing[j]) == IsVideoName(listing[j].name);
      assert IsNewestVideo(listing, i);
      BasenameOfJoin(DownloadDir, listing[i].name);
    }
  }

}
