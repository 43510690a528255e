/**
 * The request and response models of the HTTP layer: the bounds a request
 * field is validated against, and the fixed `status` literal each response
 * model carries.
 */
module Schemas {
  import opened Wrappers
  import Config

  /** One downloaded file: its title and its public URL. */
  datatype DownloadResult = DownloadResult(title: string, fileUrl: string)

  /** One entry of a channel listing. */
  datatype VideoInfo = VideoInfo(title: string, url: string, id: string)

  /** How a field of a JSON request body arrived: missing, `null`, or with a value. */
  datatype Field<+T> = Absent | Null | Given(value: T)

  /** The validation errors a bounded integer field can raise. */
  datatype FieldError = IntType | GreaterThanEqual(bound: int) | LessThanEqual(bound: int)

  /**
   * `CreatorDownloadRequest.max_videos`: an integer between the configured
   * minimum and maximum, the configured default when the field is missing.
   */
  function ParseMaxVideos(f: Field<int>): (r: Result<int, FieldError>)
    ensures r.Success? <==> f.Absent? || (f.Given? && Config.MinBatchVideos <= f.value <= Config.MaxBatchVideos)
    ensures r.Success? ==> Config.MinBatchVideos <= r.value <= Config.MaxBatchVideos
    ensures f.Given? && r.Success? ==> r.value == f.value
    ensures f.Absent? ==> r == Success(Config.DefaultBatchVideos)
  {
    match f
    case Absent => Success(Config.DefaultBatchVideos)
    case Null => Failure(IntType)
    case Given(v) =>
      if v < Config.MinBatchVideos then Failure(GreaterThanEqual(Config.MinBatchVideos))
      else if v > Config.MaxBatchVideos then Failure(LessThanEqual(Config.MaxBatchVideos))
      else Success(v)
  }

  /** `BatchDownloadRequest.batch_id`: optional, `None` when missing or `null`. */
  function ParseBatchId(f: Field<string>): (r: Option<string>)
    ensures r.Some? <==> f.Given?
    ensures f.Given? ==> r.value == f.value
  {
    match f
    case Given(s) => Some(s)
    case _ => None
  }

  /** The two values `StopBatchResponse.status` admits. */
  datatype StopStatus = StopSuccess | StopError

  /** The bodies the handlers return. */
  datatype Body =
    | SingleDownloadResponse(title: string, fileUrl: string)
    | CreatorDownloadResponse(downloads: seq<DownloadResult>)
    | FetchVideosResponse(listing: seq<VideoInfo>)
    | ErrorResponse(message: string)
    | StopBatchResponse(stopStatus: StopStatus, message: string)
    | BatchItemResponse(result: DownloadResult)
    | EventStream(ndjson: string)
  {
    /** The `status` field of the body's model; `DownloadResult` and the event stream have none. */
    function Status(): Option<string>
    {
      match this
      case SingleDownloadResponse(_, _) => Some("success")
      case CreatorDownloadResponse(_) => Some("success")
      case FetchVideosResponse(_) => Some("success")
      case ErrorResponse(_) => Some("error")
      case StopBatchResponse(s, _) => Some(if s == StopSuccess then "success" else "error")
      case BatchItemResponse(_) => None
      case EventStream(_) => None
    }
  }
}
