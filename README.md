# shorts-download1121 in Dafny

This project models the orchestration core of a small HTTP service that downloads short videos through an
extraction library. It has four parts:

- **Request and response models** (`Schemas`). These are the bounds on `max_videos`, the optional `batch_id`,
  and the fixed `status` literal each response model carries.
- **The adapter around the library** (`Adapter`, `Paths`). This covers how a downloaded file's path becomes
  its public `/downloads/...` URL, and how the results of a creator download and of a channel listing are
  shaped. Null entries are skipped, `max_videos` truncates the creator loop, and the title, URL and id have
  fallback chains. The library's answers are inputs: an `Info` value for `extract_info` and a function for
  `prepare_filename`.
- **The streamed batch download** (`Batch`, `Cancellation`). A method walks the URLs in order against an
  oracle of per-item outcomes, polls a cancellation flag kept in a process-wide registry, and emits a
  sequence of `progress` / `error` / `cancelled` / `completed` events. It is proved equal to the
  specification function `BatchEvents`, whose shape is then proved by lemmas. The moment a stop request
  lands is a parameter (`StopPoint`). The registry is a class over a `map<string, bool>`.
- **The HTTP handlers** (`Api`). Each maps an outcome to a status code and a body, covering the 400/500
  error mapping, the 404 on an empty creator result, the minimum-five rule, and the default batch id. The
  batch endpoint frames its events as newline-delimited JSON. `json.dumps` with its default `ensure_ascii`
  escaping is written out in `Json`, and Python's `str.split` / `str.join` in `Text`, so that the framing
  can be proved to split back into one line per event.

Every module is in its own file. `Wrappers` holds `Option` and `Result`, and `Config` holds the shipped
settings.

## Model

| member | source | states |
|---|---|---|
| Schemas.ParseMaxVideos | src/shorts_dl/schemas.py:27-31 | `max_videos` is accepted exactly when it is missing or an integer in 1..20. An accepted value lies in 1..20. A given value is kept unchanged, and a missing one becomes the default 5. `null` is rejected. |
| Schemas.ParseBatchId | src/shorts_dl/schemas.py:61 | `batch_id` is `None` exactly when it is missing or `null`, and it is the caller's string otherwise. |
| Paths.NamedParts | src/shorts_dl/downloader.py:180 | Exactly the parts of a split path that name something are kept: every kept part is one of them, neither empty nor `.`, and every such part is kept. |
| Paths.NamedPartsAppend | src/shorts_dl/downloader.py:180 | Dropping unnamed parts commutes with concatenation, so the named parts keep their order. |
| Paths.NamedPartsOfSegments | src/shorts_dl/downloader.py:180 | Parts that all name something come through unchanged. |
| Paths.ParsePath | src/shorts_dl/downloader.py:180 | A path text parses to a well-formed path, absolute exactly when the text starts with `/`. |
| Paths.ParseAsPosix | src/shorts_dl/downloader.py:180 | Parsing the text of any well-formed path gives that path back, anchor and segments. |
| Paths.JoinPath | src/shorts_dl/downloader.py:180 | `base / other`: an absolute right operand is the result as it is, a relative one extends the base with its segments. Well-formed operands give a well-formed result. |
| Paths.RelativeTo | src/shorts_dl/downloader.py:40-42 | `relative_to` succeeds exactly when the base is a prefix with the same anchor. The result is relative, and base plus result gives back the path. |
| Paths.RelativeDownloadPath | src/shorts_dl/downloader.py:38-43 | The URL always starts with `/downloads/`. It is followed by the part below the download root when the path lies under it, and by the whole path otherwise. |
| Paths.UrlOfFileUnderRoot | src/shorts_dl/downloader.py:38-43 | For a file under the root, the URL's `/`-separated parts are `""`, `downloads`, then exactly the file's segments below the root. |
| Paths.UrlOfRelativeOutsideRoot | src/shorts_dl/downloader.py:41-43 | A relative path outside the root is mounted whole: its parts follow `""`, `downloads`. |
| Paths.UrlOfAbsolutePath | src/shorts_dl/downloader.py:41-43 | An absolute path is never under the relative root. Its URL has an empty part where its own leading `/` follows the mount's, then all its segments. |
| Paths.UrlOfRootItself | src/shorts_dl/downloader.py:38-43 | The download root itself maps to `/downloads/.`. |
| Adapter.Shape | src/shorts_dl/downloader.py:190-194 | The title is the info's `title` when the key is present, and the given default only when it is missing. The URL is exactly the public URL of the file the library wrote. |
| Adapter.DownloadOne | src/shorts_dl/downloader.py:188-195 | The title is the entry's `title` when the key is present, and `"Untitled"` only when it is missing. The URL is exactly `RelativeDownloadPath` of the written file, so it starts with `/downloads/` and names that file as the `Paths` lemmas state. |
| Adapter.SingleVideoResult | src/shorts_dl/downloader.py:52-57 | The same as above, except that a missing title becomes `""`. |
| Adapter.Present | src/shorts_dl/downloader.py:81-83 | The kept entries are never more than the listing. A value is kept exactly when it occurs as a non-null entry. |
| Adapter.PresentAppend | src/shorts_dl/downloader.py:81-83 | Skipping nulls commutes with concatenation, so the kept entries keep their order. |
| Adapter.PresentEmptyIff | src/shorts_dl/downloader.py:81-83 | Nothing is kept exactly when every entry is null. |
| Adapter.DownloadCreatorBatch | src/shorts_dl/downloader.py:79-93 | The loop, with its `continue` on null and its `break` after the append at `max_videos`, returns exactly `CreatorResults`: the kept entries shaped and cut at the limit. |
| Adapter.BatchItemDir | src/shorts_dl/downloader.py:178-182 | As written: `downloads_dir / batch_id` is absolute exactly when the caller's id starts with `/`. Otherwise it lies under the root with the id's segments below it. |
| Adapter.AbsoluteBatchIdLeavesRoot | src/shorts_dl/downloader.py:180 | As written: for any absolute batch id, the written file is outside the download root, and its URL is `/downloads/` followed by the file's whole filesystem path. |
| Adapter.TwoSegmentIdUrl | src/shorts_dl/downloader.py:180 | As written: the id `/a/b` and the file `c` give the URL `/downloads//a/b/c`, for example `/downloads//tmp/x/clip.mp4`. |
| Adapter.ContainedBatchItemDir | src/shorts_dl/downloader.py:180 | As corrected: a directory is given exactly when the id is relative and has no `..` part. It is then the directory the code builds, under the root and free of `..`. |
| Adapter.ContainedItemUrl | src/shorts_dl/downloader.py:180-185 | As corrected: a file in a contained batch directory gets a URL whose parts are `""`, `downloads`, the id's segments, then the file name. |
| Adapter.DownloadToBatch | src/shorts_dl/downloader.py:178-185 | As corrected: a result exactly when the directory is contained. It is then `_download_one`'s result for the file written there, with a URL that names the file under the id. |
| Adapter.CreatorResultsBounded | src/shorts_dl/downloader.py:91-92 | There are never more results than the limit, and never more than `max_videos` when that is positive. The count is either every kept entry or exactly the limit. |
| Adapter.CreatorWithoutListing | src/shorts_dl/downloader.py:79 | A missing or empty `entries` makes the info itself the single entry, with one result. |
| Adapter.CreatorEmptyIff | src/shorts_dl/downloader.py:79-93 | The creator result is empty exactly when the listing is non-empty and all null. |
| Adapter.CreatorNonPositiveLimitYieldsOne | src/shorts_dl/downloader.py:91-92 | Because the limit is tested only after an append, `max_videos <= 0` still gives at most one result. |
| Adapter.ListedVideo | src/shorts_dl/downloader.py:112-118 | `title` and `id` fall back to `"Untitled"` / `""` only when the key is missing. `url` is taken from `url` when that is truthy, then from `webpage_url`, and is `""` exactly when neither is truthy. |
| Adapter.FetchChannelVideos | src/shorts_dl/downloader.py:107-119 | The loop, with its `continue` on null, returns exactly `ChannelVideos`: every non-null entry, in order, shaped. |
| Adapter.ChannelWithoutListing | src/shorts_dl/downloader.py:107 | A missing or empty `entries` gives an empty listing, with no fallback to the info itself. |
| Adapter.ChannelSingleEntry | src/shorts_dl/downloader.py:109-118 | One null entry lists nothing, and one present entry lists exactly its video. |
| Adapter.ChannelListingAppend | src/shorts_dl/downloader.py:109-119 | Listing a concatenation lists each part in turn: nulls are skipped and order is kept. |
| Cancellation.Registry.constructor | src/shorts_dl/downloader.py:125 | The registry starts empty. |
| Cancellation.Registry.Register | src/shorts_dl/downloader.py:139-140 | Registering maps the id to a fresh unset flag, overwriting any entry, and changes no other id. |
| Cancellation.Registry.Signal | src/shorts_dl/main.py:133-134 | Signalling reports whether the id is live. When it is, only that id's flag is set; otherwise nothing changes. |
| Cancellation.Registry.Pop | src/shorts_dl/downloader.py:174-176 | Popping removes the id's entry. Popping an absent id changes nothing. |
| Batch.DownloadVideosBatch | src/shorts_dl/downloader.py:127-176 | The generator's event list equals `BatchEvents(oracle, stop)`. A stop request finds the live registry entry exactly when one of the batch's checks sees it. Afterwards the registry is the old one without the batch id. |
| Batch.ItemEventsAt | src/shorts_dl/downloader.py:154-169 | Item `j+1`'s event is at position `j` and reports that item's own outcome: `progress` with its result, or `error` with its message. |
| Batch.ItemEventsNumbered | src/shorts_dl/downloader.py:143-169 | Item events are numbered 1, 2, … in order, all carry `total = len(urls)`, and none is terminal. |
| Batch.BatchEventsWellFormed | src/shorts_dl/downloader.py:143-172 | For every outcome and every stop point, the non-terminal event at position `j` is item `j+1` of `total`. A terminal event can only be last, and a `cancelled` event counts the items before it. |
| Batch.StreamWithoutStop | src/shorts_dl/downloader.py:143-172 | When no check sees a stop, there is one event per URL in order, each the item's own `progress`/`error`, then exactly one `completed`. |
| Batch.EmptyBatchStream | src/shorts_dl/downloader.py:143-172 | Zero URLs stream `completed` alone. |
| Batch.StreamCancelledAt | src/shorts_dl/downloader.py:145-152 | A stop seen at check `k <= N` gives items 1..k-1, then `cancelled` with `current = k-1` and `total = N`, and no `completed`. |
| Batch.StreamStoppedAfterLastItem | src/shorts_dl/downloader.py:171-172 | A stop seen only after the last item's check leaves every item's event and no terminal event. |
| Batch.CompletedIffNotObserved | src/shorts_dl/downloader.py:171-172 | The stream contains `completed` exactly when no check saw the stop. |
| Batch.CancelledStreamIgnoresLaterItems | src/shorts_dl/downloader.py:145-152 | When cancelled at check `k`, items `k..N` are never attempted: their outcomes do not affect the stream. |
| Batch.ScenarioThirdOfFiveFails | src/shorts_dl/downloader.py:154-172 | Five URLs with the third failing give the statuses progress, progress, error, progress, progress, completed. |
| Batch.ScenarioStopBeforeThirdOfSix | src/shorts_dl/downloader.py:145-152 | Six URLs with a stop before the third give progress, progress, cancelled, with `current = 2`. |
| Api.FailureResponse | src/shorts_dl/main.py:58-67 | It always returns an error body: 400 exactly for the library's `DownloadError` and 500 exactly for any other exception. |
| Api.DownloadSingle | src/shorts_dl/main.py:53-67 | 200 exactly on success, with the adapter's title and URL unchanged. Failures go through the 400/500 mapping. |
| Api.DownloadCreator | src/shorts_dl/main.py:70-95 | 404 with the no-videos message exactly on an empty result, and 200 with the same videos exactly on a non-empty one. Failures go through the 400/500 mapping. |
| Api.FetchVideos | src/shorts_dl/main.py:98-110 | 200 with the listing, empty included, exactly on success. Every failure is a 500 error body. |
| Api.DownloadBatchItem | src/shorts_dl/main.py:138-148 | 200 with the bare result exactly on success. Every failure is a 500 error body. |
| Api.HandlersEnveloped | src/shorts_dl/schemas.py:19-41 | For every outcome of the four request-response handlers, a non-200 code comes exactly with an error body, whose status is `"error"`. The success models say `"success"`. |
| Api.NoVideosMessageMentionsVideos | src/shorts_dl/main.py:79 | The 404 message ends in 影片. |
| Api.CreatorRequestOutcome | src/shorts_dl/main.py:71-85 | With an accepted `max_videos`, the creator request is a 404 exactly when the listing is non-empty and all null. Otherwise it is a 200 with between 1 and `max_videos` videos. |
| Api.SingleRequestOutcome | src/shorts_dl/main.py:56-57 | The whole single-video request answers 200 `"success"` with the title, `""` when missing, and the written file's URL. For a file under the root, that URL's parts name the file. |
| Api.BatchItemRequestOutcome | src/shorts_dl/main.py:139-148 | Over the corrected directory, the batch-item request is a 500 exactly when the id is absolute or has a `..` part. A 200's URL names the file under the id below the root. |
| Api.FetchWithoutListing | src/shorts_dl/main.py:101-105 | A source with no entries answers 200 with an empty list. |
| Json.EscapeChar | src/shorts_dl/main.py:126 | One escaped character is printable ASCII, and it is the character itself exactly when that is printable and needs no escape. |
| Json.Escape | src/shorts_dl/main.py:126 | An escaped string is printable ASCII, and a string needing no escapes is unchanged. |
| Json.Quote | src/shorts_dl/main.py:126 | A JSON string literal is printable and enclosed in double quotes. |
| Json.NatText | src/shorts_dl/main.py:126 | `str(n)` is a non-empty run of decimal digits that denotes exactly `n`, with no leading zero except in `0` itself. |
| Api.EncodeEvent | src/shorts_dl/main.py:126 | One event's JSON is printable, has no line break, and opens with its `status` member. |
| Api.NdjsonLines | src/shorts_dl/main.py:124-126 | Splitting the stream at line breaks gives back exactly one encoded event per line, in order, then the empty tail. |
| Api.ResolveBatchId | src/shorts_dl/main.py:122 | The id is never empty. It is the caller's id when that is given and non-empty, and the generated hex id otherwise. |
| Api.StopAnswer | src/shorts_dl/main.py:133-136 | The stop endpoint always answers 200 with a stop body, whose status is `"success"` exactly when the id had a live entry and `"error"` otherwise. |
| Api.DownloadBatch | src/shorts_dl/main.py:113-128 | Fewer than five URLs give a 400 with the count in the message and leave the registry untouched. Otherwise the answer is the NDJSON of `BatchEvents`, and afterwards the resolved id is gone from the registry. A stop request gets the "stopping..." success answer exactly when the batch runs and one of its checks sees the stop. |
| Api.StopBatch | src/shorts_dl/main.py:131-136 | Its answer is `StopAnswer` for whether the id was live. For a live id, it sets only that id's flag and says `"success"`. For an unknown id, it says `"error"` ("not found") and leaves the registry untouched. It always answers 200. |
| Api.StopAfterBatchEnds | src/shorts_dl/downloader.py:174-176 | After a batch's stream has ended, a stop request for its id is answered "not found". |

## Left out

- The extraction library (`YoutubeDL`, `extract_info`, `prepare_filename`, where `DownloadError` comes from), `BEST_MP4_FORMAT` and `_base_opts`. What the library returns is an input: an `Info` value, a `fileOf` function, or an oracle of per-item outcomes.
- asyncio, threads and real concurrency. A stop request is a `StopPoint` parameter saying before which flag check it lands. In the service nothing awaits between registering the flag and the first check, so a `cancelled` event with `current = 0` cannot occur there; the model still admits that stop point. The other window it cannot express is at the end: the entry stays live after the last flag check (src/shorts_dl/downloader.py:171) until the generator resumes from its `completed` yield and pops it (src/shorts_dl/downloader.py:176). A stop landing while the generator is suspended at that yield finds the entry and is answered "stopping...", yet the stream still ends in `completed`. `StopPoint` has no value for that moment.
- The lazy, pull-driven generator. The batch is run to its end and its events are returned as a sequence. A client that disconnects mid-stream, which closes the generator early, is not modelled. The `finally` block's pop is modelled on the normal exits.
- Per-batch flag objects. The registry maps an id to a boolean. When two concurrent batches share an id, the service's first batch keeps polling its own `asyncio.Event` after the second has replaced it in the registry; the model keys flags by id and does not capture that aliasing.
- Filesystem and clock effects: `mkdir`, `time.time()`, `uuid4()`, and the directory and file-name templates. The generated id is an input that is assumed to be 32 lower-case hex digits.
- `HttpUrl` validation and pydantic's lax coercion of request fields (strings or floats into `max_videos`). FastAPI's 422 response for a rejected field is not modelled; `ParseMaxVideos` returns the error instead.
- Settings overrides from the environment and `.env`. The shipped defaults are constants.
- Metadata values other than strings. A key present with value `None` (for example `"title": None`) is not modelled, because a `Fields` map holds strings only.
- Paths are modelled as parsed segment lists, not path strings. `..` segments and symbolic links are not interpreted, just as `relative_to` does not interpret them.
- The landing page and the health endpoint, which are file I/O and a constant.
- `download_video_to_batch` with an id that leaves the download root is a defect; see "## Findings". Elsewhere, the model's batch-item result is built on the corrected directory (`Adapter.DownloadToBatch`).
- Paths.ParsePath: a path text beginning with exactly two slashes, which POSIX `pathlib` keeps as a separate `//` anchor, parses like one beginning with one slash.
- Api.EncodeEvent: states only that the line is printable ASCII, has no line break and opens with the event's `status` member. The members after it (their numbers written by `Json.NatText`, their strings by `Json.Quote`) are fixed by the definition, not by a separate JSON grammar with a parser.
- Api.DownloadBatch: the streamed body is the whole NDJSON text at once, not chunks flushed one by one.

## Findings

| source | as written | input that shows it | evidently intended | confidence | as-written member | corrected member |
|---|---|---|---|---|---|---|
| src/shorts_dl/downloader.py:180 | `downloads_dir / batch_id` joins the caller's unchecked `batch_id` (src/shorts_dl/schemas.py:65); an absolute id replaces the download root | `batch_id` `/tmp/x` with the file `clip.mp4`: the file is written under `/tmp/x`, and `file_url` is `/downloads//tmp/x/clip.mp4` | the batch directory lies under the download root, so a returned `file_url` names a file there; an id that would leave the root is refused | not executed | Adapter.AbsoluteBatchIdLeavesRoot | Adapter.ContainedBatchItemDir |

`Adapter.BatchItemDir` models the directory as written. `Adapter.AbsoluteBatchIdLeavesRoot` proves that every absolute id leaves the root, and `Adapter.TwoSegmentIdUrl` gives the exact URL for an id `/a/b`. The corrected `Adapter.ContainedBatchItemDir` agrees with the code on every id that stays under the root. `Adapter.ContainedItemUrl` proves that its files' URLs name them under the root. `Adapter.DownloadToBatch` and `Api.BatchItemRequestOutcome` use the corrected directory, and a refused id takes the handler's 500 path.
