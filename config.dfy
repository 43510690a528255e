/** The service's settings with their shipped defaults (environment overrides are not modelled). */
module Config {

  /** The download root, the relative path `downloads`. */
  const DownloadsDirSegments: seq<string> := ["downloads"]

  const DefaultBatchVideos: int := 5
  const MinBatchVideos: int := 1
  const MaxBatchVideos: int := 20
}
