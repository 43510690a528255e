/**
 * The result-shaping side of the adapter around the video-extraction
 * library. The library itself is opaque: what it returns is an input here,
 * `Info` for `extract_info` and a `fileOf` function for `prepare_filename`.
 */
module Adapter {
  import opened Wrappers
  import opened Schemas
  import opened Text
  import opened Paths

  /** A metadata dictionary with string values. */
  type Fields = map<string, string>

  /** One listed entry; `None` for the null placeholders the library may return. */
  type Entry = Option<Fields>

  /** What `extract_info` returns: top-level fields and, for a channel, an `entries` key. */
  datatype Info = Info(fields: Fields, entries: Option<seq<Entry>>)

  /** `d.get(key, default)`: the default only when the key is missing. */
  function Get(d: Fields, key: string, default: string): string
  {
    if key in d then d[key] else default
  }

  /** `d.get(key)` is truthy: the key is there and its value is not empty. */
  predicate Truthy(d: Fields, key: string)
  {
    key in d && d[key] != ""
  }

  /**
   * The dictionary both download paths build from the library's answer: the
   * title, `untitled` when the key is missing, and the file's public URL.
   */
  function Shape(info: Fields, finalPath: Path, untitled: string): (r: DownloadResult)
    ensures "title" !in info ==> r.title == untitled
    ensures "title" in info ==> r.title == info["title"]
    ensures r.fileUrl == RelativeDownloadPath(finalPath)
  {
    DownloadResult(Get(info, "title", untitled), RelativeDownloadPath(finalPath))
  }

  /** `_download_one`'s result: the title, `"Untitled"` when missing, and the file's public URL. */
  function DownloadOne(info: Fields, finalPath: Path): (r: DownloadResult)
    ensures "title" !in info ==> r.title == "Untitled"
    ensures "title" in info ==> r.title == info["title"]
    ensures r.fileUrl == RelativeDownloadPath(finalPath)
    ensures |r.fileUrl| >= 11 && r.fileUrl[..11] == "/downloads/"
  {
    Shape(info, finalPath, "Untitled")
  }

  /** `download_single_video`'s result: as `DownloadOne`, but the missing title becomes `""`. */
  function SingleVideoResult(info: Fields, finalPath: Path): (r: DownloadResult)
    ensures "title" !in info ==> r.title == ""
    ensures "title" in info ==> r.title == info["title"]
    ensures r.fileUrl == RelativeDownloadPath(finalPath)
    ensures |r.fileUrl| >= 11 && r.fileUrl[..11] == "/downloads/"
  {
    Shape(info, finalPath, "")
  }

  /** The non-null entries, in order. */
  function Present(entries: seq<Entry>): (r: seq<Fields>)
    ensures |r| <= |entries|
    ensures forall x :: x in r <==> Some(x) in entries
  {
    if entries == [] then []
    else
      var last := entries[|entries| - 1];
      assert entries == entries[..|entries| - 1] + [last];
      Present(entries[..|entries| - 1]) + (if last.Some? then [last.value] else [])
  }

  /** Dropping the nulls commutes with concatenation, so the kept entries keep their order. */
  lemma {:induction false} PresentAppend(a: seq<Entry>, b: seq<Entry>)
    ensures Present(a + b) == Present(a) + Present(b)
    decreases |b|
  {
    if b == [] {
      assert a + b == a;
    } else {
      var b' := b[..|b| - 1];
      assert (a + b)[..|a + b| - 1] == a + b';
      PresentAppend(a, b');
    }
  }

  /** Appending one entry keeps it exactly when it is not null. */
  lemma PresentSnoc(s: seq<Entry>, x: Entry)
    ensures Present(s + [x]) == Present(s) + (if x.Some? then [x.value] else [])
  {
    assert (s + [x])[..|s|] == s;
  }

  /** Nothing is kept exactly when every entry is null. */
  lemma {:induction false} PresentEmptyIff(s: seq<Entry>)
    ensures Present(s) == [] <==> forall j :: 0 <= j < |s| ==> s[j].None?
    decreases |s|
  {
    if s != [] {
      var s' := s[..|s| - 1];
      PresentEmptyIff(s');
      assert forall j :: 0 <= j < |s'| ==> s'[j] == s[j];
    }
  }

  /** Each kept entry shaped as `_download_one` shapes a result. */
  function Shaped(kept: seq<Fields>, fileOf: Fields -> Path): (r: seq<DownloadResult>)
  {
    seq(|kept|, j requires 0 <= j < |kept| => DownloadOne(kept[j], fileOf(kept[j])))
  }

  lemma ShapedAppend(a: seq<Fields>, b: seq<Fields>, fileOf: Fields -> Path)
    ensures Shaped(a + b, fileOf) == Shaped(a, fileOf) + Shaped(b, fileOf)
  {
  }

  /** `info.get("entries") or [info]`: the listing, or the video itself when there is no listing. */
  function CreatorEntries(info: Info): seq<Entry>
  {
    if info.entries.None? || info.entries.value == [] then [Some(info.fields)] else info.entries.value
  }

  /** The loop stops once `len(results) >= max_videos`, which it tests only after an append. */
  function CreatorLimit(maxVideos: int): nat
  {
    if maxVideos < 1 then 1 else maxVideos
  }

  /** What `download_creator_batch` returns: the first kept entries, shaped, up to the limit. */
  function CreatorResults(info: Info, maxVideos: int, fileOf: Fields -> Path): seq<DownloadResult>
  {
    var shaped := Shaped(Present(CreatorEntries(info)), fileOf);
    if |shaped| <= CreatorLimit(maxVideos) then shaped else shaped[..CreatorLimit(maxVideos)]
  }

  /** The loop of `download_creator_batch`: skip nulls, shape, append, stop at `max_videos`. */
  method DownloadCreatorBatch(info: Info, maxVideos: int, fileOf: Fields -> Path)
    returns (results: seq<DownloadResult>)
    ensures results == CreatorResults(info, maxVideos, fileOf)
  {
    var entries := CreatorEntries(info);
    results := [];
    var i := 0;
    while i < |entries|
      invariant 0 <= i <= |entries|
      invariant results == Shaped(Present(entries[..i]), fileOf)
      invariant |results| < CreatorLimit(maxVideos)
    {
      var entry := entries[i];
      assert entries[..i + 1] == entries[..i] + [entry];
      PresentSnoc(entries[..i], entry);
      i := i + 1;
      if entry.None? {
        continue;
      }
      ShapedAppend(Present(entries[..i - 1]), [entry.value], fileOf);
      results := results + [DownloadOne(entry.value, fileOf(entry.value))];
      if |results| >= maxVideos {
        break;
      }
    }
    CreatorResultsPrefix(entries, i, fileOf, results);
  }

  /** Once the kept prefix reaches the limit or the end of the listing, it is the whole answer. */
  lemma CreatorResultsPrefix(entries: seq<Entry>, i: nat, fileOf: Fields -> Path, results: seq<DownloadResult>)
    requires i <= |entries|
    requires results == Shaped(Present(entries[..i]), fileOf)
    ensures i == |entries| ==> results == Shaped(Present(entries), fileOf)
    ensures results <= Shaped(Present(entries), fileOf)
  {
    PresentAppend(entries[..i], entries[i..]);
    assert entries[..i] + entries[i..] == entries;
    ShapedAppend(Present(entries[..i]), Present(entries[i..]), fileOf);
  }

  /** The listing when the extraction returned one, and nothing otherwise: `info.get("entries") or []`. */
  function ChannelEntries(info: Info): seq<Entry>
  {
    if info.entries.Some? then info.entries.value else []
  }

  /**
   * One listed video: the title and id fall back only when the key is
   * missing, the URL falls back past an empty value to `webpage_url`, then `""`.
   */
  function ListedVideo(e: Fields): (v: VideoInfo)
    ensures "title" !in e ==> v.title == "Untitled"
    ensures "title" in e ==> v.title == e["title"]
    ensures "id" !in e ==> v.id == ""
    ensures "id" in e ==> v.id == e["id"]
    ensures Truthy(e, "url") ==> v.url == e["url"]
    ensures !Truthy(e, "url") && Truthy(e, "webpage_url") ==> v.url == e["webpage_url"]
    ensures v.url == "" <==> !Truthy(e, "url") && !Truthy(e, "webpage_url")
  {
    var url := if Truthy(e, "url") then e["url"] else if Truthy(e, "webpage_url") then e["webpage_url"] else "";
    VideoInfo(Get(e, "title", "Untitled"), url, Get(e, "id", ""))
  }

  /** What `fetch_channel_videos` returns: every non-null entry, in order, shaped. */
  function ChannelVideos(info: Info): seq<VideoInfo>
  {
    Listed(Present(ChannelEntries(info)))
  }

  /** Each kept entry shaped as a listed video. */
  function Listed(kept: seq<Fields>): seq<VideoInfo>
  {
    seq(|kept|, j requires 0 <= j < |kept| => ListedVideo(kept[j]))
  }

  lemma ListedAppend(a: seq<Fields>, b: seq<Fields>)
    ensures Listed(a + b) == Listed(a) + Listed(b)
  {
  }

  /** The loop of `fetch_channel_videos`: skip nulls, shape, append. */
  method FetchChannelVideos(info: Info) returns (results: seq<VideoInfo>)
    ensures results == ChannelVideos(info)
  {
    var entries := ChannelEntries(info);
    results := [];
    for i := 0 to |entries|
      invariant results == Listed(Present(entries[..i]))
    {
      var entry := entries[i];
      assert entries[..i + 1][..i] == entries[..i];
      if entry.None? {
        continue;
      }
      results := results + [ListedVideo(entry.value)];
    }
    assert entries[..|entries|] == entries;
  }

  /**
   * `downloads_dir / batch_id` in `download_video_to_batch`, as written: the
   * caller's id is parsed as a path, and an absolute one replaces the root.
   */
  function BatchItemDir(batchId: string): (dir: Path)
    ensures ValidPath(dir)
    ensures dir.absolute <==> |batchId| > 0 && batchId[0] == '/'
    ensures !dir.absolute ==> IsRelativeTo(dir, DownloadsDir) && dir.segments[|DownloadsDir.segments|..] == ParsePath(batchId).segments
  {
    var dir := JoinPath(DownloadsDir, ParsePath(batchId));
    assert !dir.absolute ==> dir.segments[|DownloadsDir.segments|..] == ParsePath(batchId).segments;
    dir
  }

  /** The file the library writes in a directory: the directory joined with one file name. */
  function ItemFile(dir: Path, fileName: string): Path
  {
    JoinPath(dir, Path(false, [fileName]))
  }

  /**
   * As written, an absolute batch id puts the file outside the download root,
   * and its URL carries the whole filesystem path behind `/downloads/`.
   */
  lemma AbsoluteBatchIdLeavesRoot(batchId: string, fileName: string)
    requires |batchId| > 0 && batchId[0] == '/'
    requires ValidSegment(fileName)
    ensures ItemFile(BatchItemDir(batchId), fileName).absolute
    ensures !IsRelativeTo(ItemFile(BatchItemDir(batchId), fileName), DownloadsDir)
    ensures Split(RelativeDownloadPath(ItemFile(BatchItemDir(batchId), fileName)), '/') ==
              ["", "downloads", ""] + ItemFile(BatchItemDir(batchId), fileName).segments
  {
    var file := ItemFile(BatchItemDir(batchId), fileName);
    assert file.segments == BatchItemDir(batchId).segments + [fileName];
    UrlOfAbsolutePath(file);
  }

  /** An id `/a/b` puts the file `c` at `/a/b/c`, served as `/downloads//a/b/c`. */
  lemma TwoSegmentIdUrl(a: string, b: string, c: string)
    requires ValidSegment(a) && ValidSegment(b) && ValidSegment(c)
    ensures RelativeDownloadPath(ItemFile(BatchItemDir("/" + a + "/" + b), c)) == "/downloads//" + Join([a, b, c], '/')
  {
    SplitTwoSegments(a, b);
    NamedTwoSegments(a, b);
    assert ItemFile(BatchItemDir("/" + a + "/" + b), c) == Path(true, [a, b, c]);
    MountedAbsolute(Path(true, [a, b, c]));
  }

  lemma SplitTwoSegments(a: string, b: string)
    requires ValidSegment(a) && ValidSegment(b)
    ensures Split("/" + a + "/" + b, '/') == ["", a, b]
  {
    var s := "/" + a + "/" + b;
    assert s == "" + ['/'] + (a + ['/'] + b);
    SplitCons("", '/', a + ['/'] + b);
    SplitCons(a, '/', b);
    assert IndexOf(b, '/') == |b|;
  }

  lemma NamedTwoSegments(a: string, b: string)
    requires ValidSegment(a) && ValidSegment(b)
    ensures NamedParts(["", a, b]) == [a, b]
  {
    assert [b][1..] == [];
    assert NamedParts([b]) == [b] + NamedParts([]);
    assert [a, b][1..] == [b];
    assert NamedParts([a, b]) == [a] + NamedParts([b]);
    assert ["", a, b][1..] == [a, b];
    assert NamedParts(["", a, b]) == [] + NamedParts([a, b]);
  }

  /** An absolute path is mounted whole, its own leading `/` right after the mount's. */
  lemma MountedAbsolute(p: Path)
    requires p.absolute
    ensures RelativeDownloadPath(p) == "/downloads//" + Join(p.segments, '/')
  {
    var j := Join(p.segments, '/');
    assert !IsRelativeTo(p, DownloadsDir);
    assert AsPosix(p) == "/" + j;
    assert "/downloads/" + "/" == "/downloads//";
    assert "/downloads/" + ("/" + j) == "/downloads//" + j;
  }

  /**
   * The batch directory as evidently intended: the caller's id must name a
   * place under the download root, so an absolute id or one with a `..` part
   * is refused; any other id gives the directory the code builds.
   */
  function ContainedBatchItemDir(batchId: string): (r: Option<Path>)
    ensures r.Some? <==> !ParsePath(batchId).absolute && ".." !in ParsePath(batchId).segments
    ensures r.Some? ==> r.value == BatchItemDir(batchId)
    ensures r.Some? ==> IsRelativeTo(r.value, DownloadsDir) && ".." !in r.value.segments
  {
    var parsed := ParsePath(batchId);
    if parsed.absolute || ".." in parsed.segments then None
    else
      var dir := BatchItemDir(batchId);
      assert dir.segments == DownloadsDir.segments + parsed.segments;
      Some(dir)
  }

  /** A file in a contained batch directory gets a URL that names it by its place under the root. */
  lemma ContainedItemUrl(batchId: string, fileName: string)
    requires ContainedBatchItemDir(batchId).Some?
    ensures ValidSegment(fileName) ==>
              Split(RelativeDownloadPath(ItemFile(ContainedBatchItemDir(batchId).value, fileName)), '/') ==
              ["", "downloads"] + ParsePath(batchId).segments + [fileName]
  {
    if ValidSegment(fileName) {
      var dir := ContainedBatchItemDir(batchId).value;
      ItemFileUnderRoot(dir, fileName);
    }
  }

  /** A file in a relative directory under the root is named, below the mount, by the directory's tail and its own name. */
  lemma ItemFileUnderRoot(dir: Path, fileName: string)
    requires ValidPath(dir) && IsRelativeTo(dir, DownloadsDir) && ValidSegment(fileName)
    ensures Split(RelativeDownloadPath(ItemFile(dir, fileName)), '/') ==
              ["", "downloads"] + dir.segments[|DownloadsDir.segments|..] + [fileName]
  {
    var file := ItemFile(dir, fileName);
    assert ValidPath(Path(false, [fileName]));
    assert file.segments == dir.segments + [fileName];
    assert file.segments[|DownloadsDir.segments|..] == dir.segments[|DownloadsDir.segments|..] + [fileName];
    UrlOfFileUnderRoot(file);
  }

  /**
   * `download_video_to_batch` over the contained directory: no result for an
   * id that would leave the root, otherwise `_download_one`'s result for the
   * file written there, whose URL names the file under the root.
   */
  function DownloadToBatch(batchId: string, info: Fields, fileName: string): (r: Option<DownloadResult>)
    ensures r.Some? <==> ContainedBatchItemDir(batchId).Some?
    ensures r.Some? ==> r.value == DownloadOne(info, ItemFile(BatchItemDir(batchId), fileName))
    ensures r.Some? && ValidSegment(fileName) ==>
              Split(r.value.fileUrl, '/') == ["", "downloads"] + ParsePath(batchId).segments + [fileName]
  {
    match ContainedBatchItemDir(batchId)
    case None => None
    case Some(dir) =>
      ContainedItemUrl(batchId, fileName);
      Some(DownloadOne(info, ItemFile(dir, fileName)))
  }

  /** No creator result ever exceeds the limit; with a valid `max_videos` that is `max_videos` itself. */
  lemma CreatorResultsBounded(info: Info, maxVideos: int, fileOf: Fields -> Path)
    ensures |CreatorResults(info, maxVideos, fileOf)| <= CreatorLimit(maxVideos)
    ensures maxVideos >= 1 ==> |CreatorResults(info, maxVideos, fileOf)| <= maxVideos
    ensures |CreatorResults(info, maxVideos, fileOf)| == |Present(CreatorEntries(info))|
              || |CreatorResults(info, maxVideos, fileOf)| == CreatorLimit(maxVideos)
  {
  }

  /** Without a listing, or with an empty one, the video itself is the single result. */
  lemma CreatorWithoutListing(info: Info, maxVideos: int, fileOf: Fields -> Path)
    requires info.entries.None? || info.entries.value == []
    ensures CreatorResults(info, maxVideos, fileOf) == [DownloadOne(info.fields, fileOf(info.fields))]
  {
    assert Present([Some(info.fields)]) == [info.fields] by {
      assert [Some(info.fields)] == [] + [Some(info.fields)];
    }
  }

  /** A creator download comes back empty exactly when the listing is non-empty and all of it is null. */
  lemma CreatorEmptyIff(info: Info, maxVideos: int, fileOf: Fields -> Path)
    ensures CreatorResults(info, maxVideos, fileOf) == [] <==>
              info.entries.Some? && info.entries.value != [] &&
              forall j :: 0 <= j < |info.entries.value| ==> info.entries.value[j].None?
  {
    PresentEmptyIff(CreatorEntries(info));
    if info.entries.None? || info.entries.value == [] {
      assert CreatorEntries(info)[0].Some?;
    }
  }

  /** As written, the loop tests the limit only after an append, so `max_videos <= 0` still yields one result. */
  lemma CreatorNonPositiveLimitYieldsOne(info: Info, maxVideos: int, fileOf: Fields -> Path)
    requires maxVideos <= 0
    requires CreatorResults(info, maxVideos, fileOf) != []
    ensures |CreatorResults(info, maxVideos, fileOf)| == 1
  {
  }

  /** A channel listing without entries, or with an empty one, is empty: no fallback to the channel itself. */
  lemma ChannelWithoutListing(info: Info)
    requires info.entries.None? || info.entries.value == []
    ensures ChannelVideos(info) == []
  {
  }

  /** One null entry lists nothing; one present entry lists exactly its video. */
  lemma ChannelSingleEntry(fields: Fields, e: Entry)
    ensures ChannelVideos(Info(fields, Some([e]))) == if e.Some? then [ListedVideo(e.value)] else []
  {
    PresentSnoc([], e);
    assert [] + [e] == [e];
  }

  /** Listing a concatenation lists each part in turn: nulls are skipped and order is kept. */
  lemma ChannelListingAppend(fields: Fields, a: seq<Entry>, b: seq<Entry>)
    ensures ChannelVideos(Info(fields, Some(a + b))) ==
              ChannelVideos(Info(fields, Some(a))) + ChannelVideos(Info(fields, Some(b)))
  {
    PresentAppend(a, b);
    ListedAppend(Present(a), Present(b));
  }
}
