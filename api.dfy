/**
 * The HTTP handlers: each maps what the adapter or the batch stream produced
 * to a status code and a body, and the batch endpoint frames its events as
 * newline-delimited JSON.
 */
module Api {
  import opened Wrappers
  import opened Text
  import opened Json
  import opened Schemas
  import opened Paths
  import opened Adapter
  import opened Batch
  import opened Cancellation

  /** What a call into the library raised: its `DownloadError`, or any other exception. */
  datatype Failure = DownloadError(message: string) | UnexpectedError(message: string)

  datatype Response = Response(code: nat, body: Body)

  const NoVideosMessage: string := "抓不到任何影片"

  /** The smallest batch the streamed endpoint accepts. */
  const MinStreamedBatch: nat := 5

  /** The error envelope of `download_single` and `download_creator`: 400 for the library's failures, 500 for the rest. */
  function FailureResponse(f: Failure): (r: Response)
    ensures r.body.ErrorResponse?
    ensures r.code == 400 <==> f.DownloadError?
    ensures r.code == 500 <==> f.UnexpectedError?
  {
    match f
    case DownloadError(m) => Response(400, ErrorResponse("下載失敗：" + m))
    case UnexpectedError(m) => Response(500, ErrorResponse("unexpected_error: " + m))
  }

  /** `download_single`: the adapter's title and URL unchanged on success. */
  function DownloadSingle(outcome: Result<DownloadResult, Failure>): (r: Response)
    ensures r.code == 200 <==> outcome.Success?
    ensures outcome.Success? ==> r.body == SingleDownloadResponse(outcome.value.title, outcome.value.fileUrl)
    ensures outcome.Failure? ==> r == FailureResponse(outcome.error)
  {
    match outcome
    case Success(v) => Response(200, SingleDownloadResponse(v.title, v.fileUrl))
    case Failure(f) => FailureResponse(f)
  }

  /** `download_creator`: 404 when nothing was downloaded, the results otherwise. */
  function DownloadCreator(outcome: Result<seq<DownloadResult>, Failure>): (r: Response)
    ensures r.code == 404 <==> outcome == Success([])
    ensures r.code == 200 <==> outcome.Success? && outcome.value != []
    ensures r.code == 404 ==> r.body == ErrorResponse(NoVideosMessage)
    ensures r.code == 200 ==> r.body == CreatorDownloadResponse(outcome.value)
    ensures outcome.Failure? ==> r == FailureResponse(outcome.error)
  {
    match outcome
    case Success(videos) =>
      if videos == [] then Response(404, ErrorResponse(NoVideosMessage))
      else Response(200, CreatorDownloadResponse(videos))
    case Failure(f) => FailureResponse(f)
  }

  /** `fetch_videos`: any listing, empty included, is a success; every failure is a 500. */
  function FetchVideos(outcome: Result<seq<VideoInfo>, Failure>): (r: Response)
    ensures r.code == 200 <==> outcome.Success?
    ensures outcome.Success? ==> r.body == FetchVideosResponse(outcome.value)
    ensures outcome.Failure? ==> r.code == 500 && r.body.ErrorResponse?
  {
    match outcome
    case Success(videos) => Response(200, FetchVideosResponse(videos))
    case Failure(f) => Response(500, ErrorResponse("Failed to fetch videos: " + f.message))
  }

  /** `download_batch_item`: the bare result on success; every failure is a 500. */
  function DownloadBatchItem(outcome: Result<DownloadResult, Failure>): (r: Response)
    ensures r.code == 200 <==> outcome.Success?
    ensures outcome.Success? ==> r.body == BatchItemResponse(outcome.value)
    ensures outcome.Failure? ==> r.code == 500 && r.body.ErrorResponse?
  {
    match outcome
    case Success(v) => Response(200, BatchItemResponse(v))
    case Failure(f) => Response(500, ErrorResponse("Download failed: " + f.message))
  }

  /** A response whose code and `status` literal agree: only error bodies leave 200, and they say `"error"`. */
  predicate Enveloped(r: Response)
  {
    && (r.code != 200 <==> r.body.ErrorResponse?)
    && (r.body.ErrorResponse? ==> r.body.Status() == Some("error"))
    && (r.code == 200 && r.body.Status().Some? && !r.body.StopBatchResponse? ==> r.body.Status() == Some("success"))
  }

  /** Every outcome of every request-response handler yields an enveloped response. */
  lemma HandlersEnveloped(single: Result<DownloadResult, Failure>, creator: Result<seq<DownloadResult>, Failure>,
                          listing: Result<seq<VideoInfo>, Failure>, item: Result<DownloadResult, Failure>)
    ensures Enveloped(DownloadSingle(single))
    ensures Enveloped(DownloadCreator(creator))
    ensures Enveloped(FetchVideos(listing))
    ensures Enveloped(DownloadBatchItem(item))
  {
  }

  /** The 404 message is the one that mentions videos (影片). */
  lemma NoVideosMessageMentionsVideos()
    ensures NoVideosMessage[|NoVideosMessage| - 2..] == "影片"
  {
  }

  /**
   * The whole creator request: with a valid `max_videos`, the answer is 404
   * exactly when the listing is non-empty and all null, and otherwise 200
   * with between 1 and `max_videos` videos.
   */
  lemma CreatorRequestOutcome(info: Info, field: Field<int>, fileOf: Fields -> Path)
    requires ParseMaxVideos(field).Success?
    ensures var r := DownloadCreator(Success(CreatorResults(info, ParseMaxVideos(field).value, fileOf)));
      && (r.code == 404 <==> info.entries.Some? && info.entries.value != [] &&
                             forall j :: 0 <= j < |info.entries.value| ==> info.entries.value[j].None?)
      && (r.code == 200 ==> 1 <= |r.body.downloads| <= ParseMaxVideos(field).value)
  {
    var m := ParseMaxVideos(field).value;
    CreatorEmptyIff(info, m, fileOf);
    CreatorResultsBounded(info, m, fileOf);
  }

  /**
   * The whole single-video request: 200 with the title, `""` when missing,
   * and a URL that for a file under the download root names that file.
   */
  lemma SingleRequestOutcome(info: Fields, finalPath: Path)
    ensures var r := DownloadSingle(Success(SingleVideoResult(info, finalPath)));
      && r.code == 200 && r.body.Status() == Some("success")
      && r.body.title == (if "title" in info then info["title"] else "")
      && r.body.fileUrl == RelativeDownloadPath(finalPath)
    ensures ValidPath(finalPath) && IsRelativeTo(finalPath, DownloadsDir) && |finalPath.segments| > |DownloadsDir.segments| ==>
              Split(DownloadSingle(Success(SingleVideoResult(info, finalPath))).body.fileUrl, '/') ==
              ["", "downloads"] + finalPath.segments[|DownloadsDir.segments|..]
  {
    if ValidPath(finalPath) && IsRelativeTo(finalPath, DownloadsDir) && |finalPath.segments| > |DownloadsDir.segments| {
      UrlOfFileUnderRoot(finalPath);
    }
  }

  /**
   * `download_batch_item` over the contained batch directory: an id that
   * would leave the download root is a 500, any other id a 200 whose URL
   * names the file below the root under that id.
   */
  lemma BatchItemRequestOutcome(batchId: string, info: Fields, fileName: string)
    requires ValidSegment(fileName)
    ensures var outcome := match DownloadToBatch(batchId, info, fileName)
                           case Some(v) => Success(v)
                           case None => Failure(UnexpectedError("invalid batch id"));
      var r := DownloadBatchItem(outcome);
      && (r.code == 500 <==> ParsePath(batchId).absolute || ".." in ParsePath(batchId).segments)
      && (r.code == 200 ==>
            Split(r.body.result.fileUrl, '/') == ["", "downloads"] + ParsePath(batchId).segments + [fileName])
  {
  }

  /** Listing a source without entries answers 200 with an empty list, not an error. */
  lemma FetchWithoutListing(info: Info)
    requires info.entries.None? || info.entries.value == []
    ensures FetchVideos(Success(ChannelVideos(info))) == Response(200, FetchVideosResponse([]))
  {
    ChannelWithoutListing(info);
  }

  /** The `current` and `total` members of an item or cancellation event. */
  function Counters(current: nat, total: nat): (r: string)
    ensures Printable(r)
  {
    var a := ", \"current\": ";
    var b := ", \"total\": ";
    PrintableConcat(a, NatText(current));
    PrintableConcat(a + NatText(current), b);
    PrintableConcat(a + NatText(current) + b, NatText(total));
    a + NatText(current) + b + NatText(total)
  }

  /** A key text followed by a JSON string literal. */
  function StringMember(key: string, value: string): (r: string)
    requires Printable(key)
    ensures Printable(r)
  {
    var q := Quote(value);
    PrintableConcat(key, q);
    key + q
  }

  /** The `video` member of a progress event, and the closing braces. */
  function VideoTail(v: DownloadResult): (r: string)
    ensures Printable(r)
  {
    var t := StringMember(", \"video\": {\"title\": ", v.title);
    var u := StringMember(", \"file_url\": ", v.fileUrl);
    PrintableConcat(t, u);
    PrintableConcat(t + u, "}}");
    t + u + "}}"
  }

  /** The `message` member of an error or cancellation event, and the closing brace. */
  function MessageTail(m: string): (r: string)
    ensures Printable(r)
  {
    var q := StringMember(", \"message\": ", m);
    PrintableConcat(q, "}");
    q + "}"
  }

  /** Everything after the status member. */
  function Members(e: Event): (r: string)
    ensures Printable(r)
  {
    match e
    case Progress(c, t, v) => PrintableConcat(Counters(c, t), VideoTail(v)); Counters(c, t) + VideoTail(v)
    case ItemError(c, t, m) => PrintableConcat(Counters(c, t), MessageTail(m)); Counters(c, t) + MessageTail(m)
    case Cancelled(c, t, m) => PrintableConcat(Counters(c, t), MessageTail(m)); Counters(c, t) + MessageTail(m)
    case Completed => "}"
  }

  /**
   * `json.dumps(progress)` for one batch event, keys in the order the
   * generator builds them: one printable line that opens with its status.
   */
  function EncodeEvent(e: Event): (line: string)
    ensures Printable(line)
    ensures '\n' !in line
    ensures "{\"status\": " + Quote(e.Status()) <= line
  {
    var head := "{\"status\": " + Quote(e.Status());
    PrintableConcat("{\"status\": ", Quote(e.Status()));
    PrintableConcat(head, Members(e));
    PrintableHasNoNewline(head + Members(e));
    assert (head + Members(e))[..|head|] == head;
    head + Members(e)
  }

  /** The event generator's output: each event's JSON followed by a line break, in order. */
  function Ndjson(events: seq<Event>): string
  {
    Terminated(Lines(events), '\n')
  }

  /** The encoded events, one per line. */
  function Lines(events: seq<Event>): seq<string>
  {
    seq(|events|, j requires 0 <= j < |events| => EncodeEvent(events[j]))
  }

  /** Splitting the stream at line breaks gives back each event's JSON in order, then the empty tail. */
  lemma NdjsonLines(events: seq<Event>)
    ensures Split(Ndjson(events), '\n') == Lines(events) + [""]
  {
    var lines := Lines(events);
    forall k | 0 <= k < |lines| ensures '\n' !in lines[k] {
      assert lines[k] == EncodeEvent(events[k]);
    }
    SplitTerminated(lines, '\n');
  }

  /** `uuid4().hex`: 32 lower-case hexadecimal digits. */
  predicate IsUuidHex(s: string)
  {
    |s| == 32 && forall i :: 0 <= i < |s| ==> s[i] in HexDigits
  }

  /** `payload.batch_id or uuid4().hex`: the caller's id unless it is missing or empty. */
  function ResolveBatchId(requested: Option<string>, generated: string): (id: string)
    requires IsUuidHex(generated)
    ensures id != ""
    ensures requested.Some? && requested.value != "" ==> id == requested.value
    ensures requested.None? || requested.value == "" ==> id == generated
  {
    if requested.Some? && requested.value != "" then requested.value else generated
  }

  /** The 400 message for a batch below the minimum, with the count the caller sent. */
  function TooFewMessage(n: nat): string
  {
    "最少需要選擇 5 支影片，目前選擇 " + NatText(n) + " 支"
  }

  /** What `stop_batch` answers, given whether the id had a live entry. */
  function StopAnswer(batchId: string, found: bool): (r: Response)
    ensures r.code == 200 && r.body.StopBatchResponse?
    ensures r.body.stopStatus == StopSuccess <==> found
    ensures r.body.Status() == Some(if found then "success" else "error")
  {
    if found then Response(200, StopBatchResponse(StopSuccess, "Batch " + batchId + " stopping..."))
    else Response(200, StopBatchResponse(StopError, "Batch " + batchId + " not found"))
  }

  /**
   * `download_batch`: fewer than five URLs is a 400 before anything starts;
   * otherwise the batch runs under the resolved id and its events are
   * streamed as newline-delimited JSON. A stop request that one of the
   * batch's checks sees finds the live entry and is answered "success".
   */
  method DownloadBatch(registry: Registry, videoUrls: seq<string>, batchId: Option<string>, freshId: string,
                       oracle: Oracle, stop: StopPoint)
    returns (r: Response, stopAnswer: Option<Response>)
    requires IsUuidHex(freshId)
    requires |oracle| == |videoUrls|
    modifies registry
    ensures |videoUrls| < MinStreamedBatch ==>
              r == Response(400, ErrorResponse(TooFewMessage(|videoUrls|))) && registry.flags == old(registry.flags)
    ensures |videoUrls| >= MinStreamedBatch ==>
              r == Response(200, EventStream(Ndjson(BatchEvents(oracle, stop))))
              && registry.flags == old(registry.flags) - {ResolveBatchId(batchId, freshId)}
    ensures stopAnswer.Some? <==> |videoUrls| >= MinStreamedBatch && Observed(stop, |oracle|)
    ensures stopAnswer.Some? ==> stopAnswer.value == StopAnswer(ResolveBatchId(batchId, freshId), true)
  {
    if |videoUrls| < MinStreamedBatch {
      return Response(400, ErrorResponse(TooFewMessage(|videoUrls|))), None;
    }
    var urls := videoUrls;
    var id := ResolveBatchId(batchId, freshId);
    var events, stopFound := DownloadVideosBatch(registry, urls, id, oracle, stop);
    r := Response(200, EventStream(Ndjson(events)));
    stopAnswer := if stopFound then Some(StopAnswer(id, true)) else None;
  }

  /** `stop_batch`: set a live batch's flag and report success; report a soft error for an unknown id. */
  method StopBatch(registry: Registry, batchId: string) returns (r: Response)
    modifies registry
    ensures r == StopAnswer(batchId, batchId in old(registry.flags))
    ensures batchId in old(registry.flags) ==>
              r.body == StopBatchResponse(StopSuccess, "Batch " + batchId + " stopping...")
              && registry.flags == old(registry.flags)[batchId := true]
    ensures batchId !in old(registry.flags) ==>
              r.body == StopBatchResponse(StopError, "Batch " + batchId + " not found")
              && registry.flags == old(registry.flags)
  {
    var found := registry.Signal(batchId);
    r := StopAnswer(batchId, found);
  }

  /** Once a batch's stream has ended, a stop request for its id is answered "not found". */
  method StopAfterBatchEnds(registry: Registry, videoUrls: seq<string>, batchId: Option<string>, freshId: string,
                            oracle: Oracle, stop: StopPoint)
    returns (streamed: Response, stopped: Response)
    requires IsUuidHex(freshId)
    requires |oracle| == |videoUrls| >= MinStreamedBatch
    modifies registry
    ensures stopped.body == StopBatchResponse(StopError, "Batch " + ResolveBatchId(batchId, freshId) + " not found")
  {
    var stopAnswer;
    streamed, stopAnswer := DownloadBatch(registry, videoUrls, batchId, freshId, oracle, stop);
    stopped := StopBatch(registry, ResolveBatchId(batchId, freshId));
  }
}
