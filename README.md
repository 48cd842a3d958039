# A verified model of the course RAG assistant's core

This project models, in Dafny, the decision-making core of a Django course
platform whose assistant answers questions about lecture videos from their
transcripts, their on-screen (OCR) text and the student's own notes.

What is modelled:

- **Query routing.** The engine router (`engine/rag/utils.py`) takes the first
  route that applies: summary keyword, time-anchored lookup, classifier
  verdict, and finally notes, general chat or retrieval. The older router
  (`core/rag_utils.py`, with `core/rag/utils.py`) asks the classifier first,
  searches for the exact or closest segment, and applies the decider gate.
  The hand-written clock and minute patterns live in module `Scan`. The
  router returns a `Route` value that names the chain it would call; the
  chains themselves are parameters.
- **Retrieval composition and index loading.** This covers which per-source
  indexes are loaded (`engine/rag/vector_store/loader.py`, `core/rag/vector_store.py`),
  and which retrievers, weights and k values the ensemble gets, including
  the zero- and one-source fallbacks (`retriever.py`). The index directories
  are a map from path to stored index.
- **The status machine.** This covers:
  - index building and its status writes (`indexer.py`);
  - the notes index (`core/rag/index_notes.py`);
  - the transcript pipeline (`orchestrator.py`, `db_writer.py`, `sanitize_filename`);
  - the background tasks (`engine/tasks.py`);
  - the HTTP queue gates and the transcript reader (`engine/views/api_transcript.py`);
  - the management commands clear_queue, sync_video_status, create_ocr_index,
    generate_transcripts, run_ocr, import_ocr, populate_transcripts and load_courses.

  All of them work on one shared `Db` object (module `Store`). Its fields
  are the Django tables as sequences of values (module `Models`), plus the
  task queue, the index directories and the CSV files. Each command or
  view is a method that names the fields it may change, and its result is
  tied to a function of the old state. Lemmas over those functions then
  state what the source promises: what is reset, what is left alone, that
  counts add up, and that a second run changes nothing.
- **Conversations.** This is `AssistantAPIView.post` (`engine/views/api_assistant.py`,
  copied in `core/views/api_assistant.py`): choosing the conversation,
  building the history, the title rules and the stored exchange.
- **OCR and ingestion text.** This covers:
  - cleaning, similarity-based deduplication, merging and consolidation
    (`text_processor.py`, `video_ocr_service.py`);
  - URL normalisation (`ocr_downloader.py`);
  - frame sampling (`frame_extractor.py`).
- **Browser state.** This covers:
  - the assistant's conversation map (`assistant-state.js`);
  - the shared `formatTimestamp` (`utils.js`);
  - the assistant page's transcript panel (`transcript-ui.js`);
  - the video page's own clock and highlighter (`video_player.js`).

  One lemma shows that, for sorted transcripts and a player with a
  duration, the two pages pick the same active line. Another shows that
  without a duration they can part: ten seconds after the last line starts,
  the assistant page still pins it while the video page marks nothing.

Nothing of the original program is executed. What a library, the network
or a model computes enters as a parameter:

- Python's `float` on a CSV cell or a request field;
- the float formatting of a CSV writer;
- `str.isprintable`;
- `SequenceMatcher.ratio`;
- the frames a capture returns;
- downloads and whether a path exists;
- the classifier's reply and what each chain answers;
- embedding and enqueue success;
- the clock.

One behaviour of the engine router does not earn a findings row:
`Fetch_Notes` for a request without a user looks up notes of `user__id=None`,
finds none, and always answers that the student has no notes
(`EngineRouter.FetchNotesAlwaysAnswersFromNotes`). The model states this as
written.

## Model

| member | source | states |
|---|---|---|
| Models.StatusName | core/models.py:11-47 | each status is stored as its own string: 'none', 'pending', 'processing', 'indexing', 'complete' or 'failed' |
| Models.StatusNameInjective | core/models.py:11-47 | distinct statuses are stored as distinct strings |
| Models.NewCourse | core/models.py:4-22 | a new course keeps the given columns and takes the declared default index status 'none', one of the declared choices |
| Models.NewVideo | core/models.py:28-53 | a new video keeps the given ids, title, URL and course, and starts 'pending' for transcripts (a declared choice) with no index |
| Models.PlatformId | engine/transcript_service/db_writer.py:20-23 | `youtube_id or vimeo_id`: the YouTube id when truthy, else the Vimeo id when truthy, else nothing, never "" |
| Models.SegmentFor | engine/transcript_service/db_writer.py:50-58 | a segment written for a video copies the video's id, course and platform ids and the given start and content |
| Models.RowsOf | core/models.py:59-66 | `filter(video=v)` holds exactly the rows of that video and no more rows than the table |
| Models.RowsNotOf | core/models.py:59-66 | `filter(video=v).delete()` leaves exactly the rows of other videos |
| Models.RowsOfConcat | core/models.py:59-66 | filtering a concatenation filters each part |
| Models.RowsOfAll | core/models.py:59-66 | filtering rows that all belong to the video keeps them all |
| Models.RowsOfOther | core/models.py:59-66 | filtering rows of one video for another gives nothing |
| Models.RowsOfNotOf | core/models.py:59-66 | after deleting a video's rows that video has none and every other video keeps its own |
| Models.ReplaceRowsEffect | engine/transcript_service/db_writer.py:45-62 | delete-then-bulk-create leaves the video with exactly the new rows, in order, and every other video with its old rows |
| Models.StartOrderSorts | engine/views/api_transcript.py:154 | `order_by('start')` gives the video's rows sorted by start, as a permutation of them |
| Models.PlatformMatches | engine/rag/utils.py:37 | the positions listed are exactly the videos whose YouTube or Vimeo id is the given one |
| Models.GetVideoByPlatform | engine/rag/utils.py:37 | `get(Q(youtube_id=x) \| Q(vimeo_id=x))` finds the one matching video, reports not-found exactly when none matches, and otherwise several |
| Models.VideoByYoutubeId | core/management/commands/import_ocr.py:88-91 | the first video with that YouTube id, or none exists |
| Models.VideoByVimeoId | core/management/commands/import_ocr.py:81-84 | the first video with that Vimeo id, or none exists |
| Models.VideoById | core/management/commands/import_ocr.py:97 | `get(id=…)` finds a video with that primary key, or none has it |
| Models.CourseById | core/management/commands/populate_transcripts.py:21 | `video.course` finds a course with the video's key, or none has it |
| Models.CrossColumnClash | core/models.py:33-34 | under both uniqueness constraints a platform-id `get` can still hit two rows: one video's YouTube id equal to another's Vimeo id |
| Store.Db.constructor | core/models.py:4-124 | an empty database: no rows, no queue, no index directories, no files |
| Store.WithIndexStatus | engine/rag/vector_store/indexer.py:70-154 | the status field the save names holds the new status; the other status field and every other column keep their values |
| Store.WithIndexStatusTwice | engine/rag/vector_store/indexer.py:95-102 | a second save of the same field overwrites the first |
| Storage.SaveEffect | engine/rag/vector_store/indexer.py:89-92 | `makedirs` and `save_local` write one directory and leave every other one as it was |
| Storage.RemoveTree | core/rag/index_notes.py:17-18 | `rmtree(p)` removes everything at or below `p` and nothing else |
| Storage.SaveThenLoad | engine/rag/vector_store/loader.py:13-30 | a directory just saved exists, holds `index.faiss` and loads back as the saved index |
| Scan.DigitRun | engine/rag/utils.py:13 | the run of digits at a position: all digits, followed by a non-digit or the end |
| Scan.SpaceRun | engine/rag/utils.py:24 | the run of `\s` characters at a position: all white space, followed by a non-space or the end |
| Scan.ClockAt | engine/rag/utils.py:13-16 | a match of `(\d{1,2}):(\d{1,2})(?::(\d{1,2}))?` at a position yields two or three groups |
| Scan.ClockAtIff | engine/rag/utils.py:13-14 | the clock pattern matches at a position exactly when one or two digits, a ':' and a digit stand there |
| Scan.ClockPatternsAgree | core/rag/utils.py:24 | the legacy alternation `(\d{1,2}):(\d{1,2}):(\d{1,2})\|(\d{1,2}):(\d{1,2})` matches where, and with the groups, the newer pattern does |
| Scan.FirstClock | engine/rag/utils.py:14 | `re.search` finds the leftmost position where the clock pattern matches, or there is none |
| Scan.ClockSearch | engine/rag/utils.py:14-16 | the groups of the leftmost clock match, two or three of them, and none exactly when no position matches |
| Scan.MinuteAt | engine/rag/utils.py:24 | a minute match at a position starts with a digit |
| Scan.FirstMinute | engine/rag/utils.py:24 | the leftmost position where `(\d+)\s*(?:minute\|min)` (or the legacy alternation) matches, or none |
| Scan.MinuteSearch | core/rag/utils.py:18 | the number of the leftmost minute match, none exactly when no position matches |
| ClearQueue.Handle | core/management/commands/clear_queue.py:8-56 | the Django-Q queue and its history are emptied; every video and note row becomes its bulk-updated self and no row is added or dropped |
| ClearQueue.NothingLeftStuck | core/management/commands/clear_queue.py:31-54 | no reset field is left 'processing'/'indexing'; each stuck value goes to the target the command names; every other value and field is unchanged |
| ClearQueue.ClearIdempotent | core/management/commands/clear_queue.py:27-54 | running the cleanup twice is the same as once |
| SyncVideoStatus.Handle | core/management/commands/sync_video_status.py:9-43 | every video row becomes its synced self and the count returned is the number of rows that changed |
| SyncVideoStatus.NeverDowngrades | core/management/commands/sync_video_status.py:18-34 | a status only ever rises to 'complete' (transcripts present, or `index.faiss` under the platform id's directory) and the row changes exactly when the `changed` flag is set |
| SyncVideoStatus.SyncedAll | core/management/commands/sync_video_status.py:15-37 | syncing a table keeps its length |
| SyncVideoStatus.SyncedAllAt | core/management/commands/sync_video_status.py:15-37 | the synced table is the per-row sync, position by position |
| SyncVideoStatus.SecondRunChangesNothing | core/management/commands/sync_video_status.py:15-41 | a second run finds no row to change and counts 0 updates |
| SyncVideoStatus.Synced | core/management/commands/sync_video_status.py:18-34 | reference definition of the row the loop body leaves; NeverDowngrades states that a status only rises to 'complete' |
| CreateOcrIndex.OcrTasks | core/management/commands/create_ocr_index.py:56-63 | no more tasks than videos |
| CreateOcrIndex.Handle | core/management/commands/create_ocr_index.py:15-67 | `--wipe` removes the OCR index tree (unless `rmtree` fails) and re-queues complete transcripts; the count is the number of eligible videos; each eligible video is left 'indexing' with one task queued |
| CreateOcrIndex.QueueEligible | core/management/commands/create_ocr_index.py:56-63 | each video becomes its queued self and one OCR-index task per eligible video is appended in table order |
| CreateOcrIndex.TasksCounted | core/management/commands/create_ocr_index.py:49-63 | the tasks queued number exactly the eligible videos counted |
| CreateOcrIndex.NoneEligible | core/management/commands/create_ocr_index.py:52-54 | a zero count means nothing is queued and no video is eligible |
| CreateOcrIndex.TasksAreEligible | core/management/commands/create_ocr_index.py:41-63 | a task is queued for a video id exactly when a video with that id is eligible |
| CreateOcrIndex.RerunQueuesNothing | core/management/commands/create_ocr_index.py:57-60 | every queued video is left 'indexing', so an immediate second run queues nothing |
| CreateOcrIndex.WipeMakesEligible | core/management/commands/create_ocr_index.py:32-47 | after a wipe every video with a complete OCR transcript is eligible and ends 'indexing' |
| CreateOcrIndex.Eligible | core/management/commands/create_ocr_index.py:41-47 | the selection filter; QueueEligible, NoneEligible and TasksAreEligible state which videos are queued |
| RunOcr.Handle | core/management/commands/run_ocr.py:24-92 | no match with an identifier is `NoMatch`, an empty queue is `NothingQueued`, otherwise every selected video is processed in table order, the count is the number selected and unselected rows are untouched; the service's writes to OCR rows and files are not stated |
| RunOcr.MarkProcessing | core/management/commands/run_ocr.py:62-64 | the row is 'processing' while the service runs and nothing else changes |
| RunOcr.Finish | core/management/commands/run_ocr.py:66-92 | a success completes the transcript and queues the OCR index; a false return or an exception marks the transcript failed |
| RunOcr.NoneSelected | core/management/commands/run_ocr.py:36-53 | with nothing selected every row stays as it was |
| RunOcr.OutcomeEffects | core/management/commands/run_ocr.py:70-92 | only the two OCR status fields change; a success leaves the video eligible for `create_ocr_index`; a failure keeps the index status |
| RunOcr.RetryOnlyFailures | core/management/commands/run_ocr.py:42-49 | without an identifier or `--force`, a video is selected again next run exactly when its service run did not succeed |
| RunOcr.SelectionModes | core/management/commands/run_ocr.py:32-49 | an identifier selects by vimeo or youtube id whatever the status or `--force`; `--force` without one selects every video |
| Sanitize.SanitizeFilename | engine/transcript_service/utils.py:3-4 | the result is no longer than the title and holds none of `\ / * ? : " < > \|` |
| Sanitize.SanitizeConcat | engine/transcript_service/utils.py:4 | the substitution works character by character: sanitising a concatenation concatenates the sanitised parts |
| Sanitize.SanitizeChar | engine/transcript_service/utils.py:4 | a single character is dropped exactly when it is in the class |
| Sanitize.SanitizeKeepsAllowed | engine/transcript_service/utils.py:4 | every allowed character is kept as often as it occurs and every forbidden one is gone |
| Sanitize.SanitizeClean | engine/transcript_service/utils.py:4 | a title without forbidden characters comes back unchanged |
| Sanitize.SanitizeIdempotent | engine/transcript_service/utils.py:4 | sanitising twice is sanitising once |
| DbWriter.CsvOf | engine/transcript_service/db_writer.py:32-34 | the CSV holds the header `start,content` and then one row per record, in order, with the formatted start and the content |
| DbWriter.SegmentsFor | engine/transcript_service/db_writer.py:50-59 | one row per record, in order, each the video's segment for that record |
| DbWriter.SaveAndPopulateTranscript | engine/transcript_service/db_writer.py:11-68 | no data or no platform id raises with nothing written; otherwise the CSV step runs (skipped if it fails or the course is gone) and the video's rows are deleted; they are replaced by one per record unless building the rows raises on a missing course or the insert fails, which re-raises with the rows left deleted |
| DbWriter.WrittenRows | engine/transcript_service/db_writer.py:45-62 | after a successful write the video's rows are exactly one per record in input order and every other video keeps its rows |
| DbWriter.FailedInsertRows | engine/transcript_service/db_writer.py:45-68 | a failed insert leaves the video with no rows and every other video's rows untouched |
| DbWriter.CsvWritten | engine/transcript_service/db_writer.py:26-35 | the file at the course's path holds every record after its header, and it is the only file touched |
| DbWriter.CsvPathShape | engine/transcript_service/db_writer.py:27-30 | the sanitised title holds no '/' or '\\', so it adds exactly one folder level under `MEDIA_ROOT/transcripts` (none when it is empty), and a platform id without '/' then names the file in that folder |
| Storage.Components | engine/transcript_service/db_writer.py:28-30 | the levels a path string names are non-empty and hold no '/' |
| Storage.NameComponents | engine/transcript_service/db_writer.py:28-30 | joining a name without '/' adds exactly that name as one level, or nothing when it is empty |
| Storage.TrailingSlashComponents | core/management/commands/populate_transcripts.py:21 | a name followed by '/' is still one level: `os.path.join` adds no second separator |
| Orchestrator.TranscriptData | engine/transcript_service/orchestrator.py:26-43 | API data is used as it came; Whisper data exists exactly when the audio downloaded and the transcription returned segments, and is those segments |
| Orchestrator.GenerateTranscriptForVideo | engine/transcript_service/orchestrator.py:13-78 | an unknown id gives "Error" and changes nothing; otherwise the result is "Generated" exactly when the data was saved and the rows were built and inserted, the row ends 'complete' with index 'none' or 'failed', the transcript rows and CSV are written only when there was data, and the audio is cleaned up exactly when it was downloaded |
| Orchestrator.WhisperOnlyWhenAsked | engine/transcript_service/orchestrator.py:27-30 | API data is saved whatever the download and transcription would give |
| Orchestrator.VimeoGoesToWhisper | engine/transcript_service/orchestrator.py:27-43 | a video without a YouTube id only ever gets Whisper segments, and only after a successful download |
| Orchestrator.FinalStates | engine/transcript_service/orchestrator.py:49-66 | the run ends 'complete' with the index reset to 'none', or 'failed' with the index untouched; no other field changes |
| GenerateTranscripts.Tasks | core/management/commands/generate_transcripts.py:60-79 | at most one task per video |
| GenerateTranscripts.Handle | core/management/commands/generate_transcripts.py:22-83 | an unknown course aborts without a change; otherwise every selected row ends 'processing', the queue gains the tasks of the selected rows not running elsewhere whose enqueue succeeded, and the found, queued and skipped counts are those numbers |
| GenerateTranscripts.LockAndQueue | core/management/commands/generate_transcripts.py:60-79 | the loop leaves every row as the lock step leaves it and appends exactly `Tasks` to the queue |
| GenerateTranscripts.LockOne | core/management/commands/generate_transcripts.py:61-79 | one row: a selected row becomes 'processing', it is skipped when it already was, else its task is queued when enqueueing succeeds; nothing else changes |
| GenerateTranscripts.NothingSelected | core/management/commands/generate_transcripts.py:50-53 | when nothing is selected no task is queued, nothing is skipped and no row changes |
| GenerateTranscripts.CountsBounded | core/management/commands/generate_transcripts.py:57-79 | queued plus skipped plus failed enqueues is exactly the number found |
| GenerateTranscripts.SelectionByMode | core/management/commands/generate_transcripts.py:39-48 | `--force` never selects a pending video, no mode selects a processing one, and both select a failed one of the course |
| GenerateTranscripts.CourseFilter | core/management/commands/generate_transcripts.py:27-37 | reference definition of the course filter from `--course_id`; Handle is proved against it |
| EngineRouter.ParseTimeClockFirst | engine/rag/utils.py:13-22 | a clock time anywhere in the query is recognised, so the leftmost one decides before every other form |
| EngineRouter.ParseTimeMinutes | engine/rag/utils.py:24-26 | without a clock time, the leftmost "N minute"/"N min" gives N times 60 seconds |
| EngineRouter.ParseTimeNoneIff | engine/rag/utils.py:12-31 | no time is recognised exactly when there is no clock time, no minute form and neither "this moment" nor "right now" |
| EngineRouter.Contents | engine/rag/utils.py:51 | the segment texts in the rows' order |
| EngineRouter.LatestAtOrBefore | engine/rag/utils.py:60-61 | the segment with the latest start at or before the time, and none exactly when every segment starts after it |
| EngineRouter.NotesOf | engine/rag/utils.py:88-91 | exactly the notes of the user on the video; a null user has none |
| EngineRouter.MinSecRoundTrip | engine/rag/utils.py:98-100 | "M:SS" reads back as minutes and two digits below 60 that give the timestamp |
| EngineRouter.Preview | engine/rag/utils.py:103 | short content is kept; longer content is its first 200 characters and "..." |
| EngineRouter.BuildNotesListing | engine/rag/utils.py:96-106 | the `+=` loop builds the header followed by every note's entry in order |
| EngineRouter.OrderedNotes | engine/rag/utils.py:88-91 | the user's notes on the video, sorted by video timestamp and a permutation of them |
| EngineRouter.UnresolvedVideo | engine/rag/utils.py:36-42 | a platform id matching no video, or several, gets the fixed apology |
| EngineRouter.SummaryKeywordFirst | engine/rag/utils.py:44-54 | a summary keyword decides the route whatever the timestamp and the classifier say; there is no transcript to summarize exactly when the video has no rows |
| EngineRouter.TimeLookup | engine/rag/utils.py:56-68 | a recognised time gives the time-based reply exactly when some segment starts at or before it, and then answers the query from the latest such segment; without one the route is the classifier's, as if no time were given |
| EngineRouter.FetchNotesAlwaysAnswersFromNotes | engine/rag/utils.py:81-106 | a "Fetch_Notes" classification always answers from the notes; without a user it always says there are none |
| EngineRouter.ClassifierFailureIsRag | engine/rag/utils.py:73-117 | a raising classifier routes to the RAG chain with the question, history, platform id and user |
| EngineRouter.ParseTime | engine/rag/utils.py:12-32 | reference definition of `parse_time`: a clock first, then a minute count, then the "this moment"/"right now" words taking the player time; ParseTimeClockFirst, ParseTimeMinutes and ParseTimeNoneIff state its cases |
| EngineRouter.QueryRouter | engine/rag/utils.py:34-116 | reference definition of `query_router` over the current table contents; UnresolvedVideo, SummaryKeywordFirst, TimeLookup and ClassifierFailureIsRag state which route each query takes |
| Tasks.WrapperLevel | engine/tasks.py:14-25 | the wrappers log at error level exactly for "Error" |
| Tasks.TaskGenerateIndex | engine/tasks.py:19-25 | the failure is logged exactly when the course is unknown |
| Tasks.TaskGenerateTranscript | engine/tasks.py:11-17 | an unknown video is logged as a failure; otherwise success is logged exactly when the video ends 'complete' |
| Tasks.MarkNotes | engine/tasks.py:41-42 | one entry per note |
| Tasks.MarkNotesExactly | engine/tasks.py:41-46 | an update reaches exactly the user's notes on the video (with the filtered status), changes only their status and leaves every other note |
| Tasks.TaskUpdateNoteIndexAsWritten | engine/tasks.py:27-61 | a missing user or video changes nothing; otherwise the notes end 'complete' after a successful rebuild and stay 'processing' after a failed one |
| Tasks.TaskUpdateNoteIndex | engine/tasks.py:27-61 | as above, except that a failed rebuild leaves the notes 'failed' |
| Tasks.MarkTwice | engine/tasks.py:42-46 | a second status update of the same notes overwrites the first |
| Tasks.MarkProcessingThenFailed | engine/tasks.py:42-59 | the reset to 'failed', filtered on 'processing', reaches every note the job marked |
| Tasks.NotesStuckProcessing | engine/tasks.py:59 | after a failed rebuild every affected note is 'processing' as written and 'failed' as intended |
| LegacyRagUtils.MinutesFirst | core/rag/utils.py:17-21 | a minute form is used before any clock time, and "0 min" gives 0 seconds rather than nothing |
| LegacyRagUtils.NothingIff | core/rag/utils.py:23-38 | nothing is returned exactly when there is no minute form and no clock time or one worth zero seconds; 0 comes only from a minute form |
| LegacyRagUtils.ContextWindowShape | core/rag/utils.py:40-61 | for a target in the list the window is the slice clamped to the list, at most 2w+1 long, holding the target |
| LegacyRagUtils.DefaultWindow | core/rag/utils.py:40-61 | the default window is the target and one document on each side |
| LegacyRagUtils.ContextWindowContiguous | core/rag/utils.py:56-61 | whatever the target and size, the window is a contiguous slice of the list |
| LegacyRagUtils.ParseTimestampFromQuery | core/rag/utils.py:3-38 | reference definition of `parse_timestamp_from_query`; MinutesFirst and NothingIff state which match wins and when nothing is found |
| LegacyRagUtils.ContextWindow | core/rag/utils.py:40-60 | reference definition of `get_context_window`; ContextWindowShape, ContextWindowContiguous and DefaultWindow state that it is the clamped contiguous slice around the target |
| LegacyRouter.FirstCovering | core/rag_utils.py:66-70 | the first document whose span covers the time, or none when no document does |
| LegacyRouter.Closest | core/rag_utils.py:74 | a document of least distance from the time, the first such one |
| LegacyRouter.TargetIndex | core/rag_utils.py:64-78 | -1 exactly when there are no documents, otherwise a position in the list |
| LegacyRouter.IndexOf | core/rag_utils.py:75 | the first position holding an equal document |
| LegacyRouter.FindTargetIndex | core/rag_utils.py:64-78 | the search loop with `break`, then `min` and `index`, finds `TargetIndex` |
| LegacyRouter.ClosestUnique | core/rag_utils.py:74-75 | `index` of the closest document is the position `min` chose |
| LegacyRouter.DocContents | core/rag_utils.py:82 | the documents' texts in order |
| LegacyRouter.NoVideoOrStoreIsGeneral | core/rag_utils.py:14-31 | no video id, or no store after one create-and-reload attempt, routes to the general chain |
| LegacyRouter.ClassifierFirst | core/rag_utils.py:33-41 | "General" in the classifier's reply decides before the time and summary checks |
| LegacyRouter.ZeroMinutesUsesPlayerTime | core/rag_utils.py:46-51 | a parsed 0 is falsy: the player's timestamp is used and decides the time check |
| LegacyRouter.TimeSensitivity | core/rag_utils.py:46-51 | a parsed time past one second is always time-sensitive; without one, a keyword and a player time past one second are both needed |
| LegacyRouter.TargetIndexMeaning | core/rag_utils.py:64-78 | the target is the first covering document, or, when none covers the time, one of least distance |
| LegacyRouter.TimeRouteContext | core/rag_utils.py:53-98 | the time branch answers from the five-document window around the target in start order, which holds it; an empty store gives the fixed reply |
| LegacyRouter.DeciderGate | core/rag_utils.py:110-126 | past the earlier checks, the RAG chain is used exactly when the decider says "RAG" and some context was retrieved, else the general chain |
| LegacyRouter.TimeRoute | core/rag_utils.py:53-98 | reference definition of the time branch; TimeRouteContext and TargetIndexMeaning state which documents form its context |
| LegacyRouter.QueryRouter | core/rag_utils.py:10-125 | reference definition of the legacy `query_router`; NoVideoOrStoreIsGeneral, DeciderGate, ClassifierFirst, ZeroMinutesUsesPlayerTime and TimeSensitivity state its routes |
| EngineLoader.LoadIndexDir | engine/rag/vector_store/loader.py:15-33 | no directory or no `index.faiss` gives nothing; an index is returned exactly when the file exists and the load succeeds |
| EngineLoader.LoaderOutcomes | engine/rag/vector_store/loader.py:10-62 | each loader returns an index exactly when its own directory (transcripts, or notes of the user) holds a loadable `index.faiss` |
| EngineLoader.NotePathsPerUser | engine/rag/vector_store/loader.py:13-43 | two users' notes paths for a video never coincide, nor with any transcript path |
| EngineLoader.SavedTranscriptIndexLoads | engine/rag/vector_store/loader.py:10-30 | an index saved at the transcript path is the one the loader returns |
| EngineLoader.GetTranscriptVectorStore | engine/rag/vector_store/loader.py:10-33 | reference definition of the transcript index loader; LoaderOutcomes states when it finds an index |
| EngineLoader.GetNoteVectorStore | engine/rag/vector_store/loader.py:35-61 | reference definition of the per-user note index loader; LoaderOutcomes and NotePathsPerUser state when it finds an index and whose it is |
| EngineRetriever.NotesStore | engine/rag/vector_store/retriever.py:35-37 | without a user no notes store is consulted; with one it is that user's |
| EngineRetriever.Sources | engine/rag/vector_store/retriever.py:14-44 | at most three sources are collected |
| EngineRetriever.Retrievers | engine/rag/vector_store/retriever.py:14-21 | the retrievers of the collected sources in order |
| EngineRetriever.Weights | engine/rag/vector_store/retriever.py:15-22 | the weights of the collected sources in order |
| EngineRetriever.AppendSource | engine/rag/vector_store/retriever.py:21-22 | appending a source appends to both parallel lists |
| EngineRetriever.GetRetriever | engine/rag/vector_store/retriever.py:11-59 | the retriever is the assembly of the transcript, OCR and user's notes stores that loaded, in that order |
| EngineRetriever.PlaceholderIffNothingLoaded | engine/rag/vector_store/retriever.py:48-51 | the placeholder is used exactly when no store is available |
| EngineRetriever.SingleSourceUnwrapped | engine/rag/vector_store/retriever.py:53-55 | a single store is searched on its own with its own `k` |
| EngineRetriever.FullEnsemble | engine/rag/vector_store/retriever.py:17-59 | with every store the ensemble lists transcript, OCR and notes with weights 0.5, 0.2 and 0.3 |
| EngineRetriever.WeightsNotRenormalised | engine/rag/vector_store/retriever.py:22-59 | the weights are passed on unscaled |
| EngineRetriever.AnonymousIgnoresNotes | engine/rag/vector_store/retriever.py:35 | without a user no notes index is searched, whatever files exist |
| LegacyVectorStore.LoadIndex | core/rag/vector_store.py:19-47 | an index is returned exactly when the directory holds a loadable index; every failure gives nothing |
| LegacyVectorStore.GetRetriever | core/rag/vector_store.py:49-83 | no store raises; one store is searched alone (transcripts with k 3, notes with k 2 filtered on the user); both give an ensemble weighted 0.6 and 0.4 |
| LegacyVectorStore.RowsForYoutubeId | core/rag/vector_store.py:87 | exactly the transcript rows whose video, reached through the row's foreign key, has the YouTube id |
| LegacyVectorStore.RowDocuments | core/rag/vector_store.py:93-100 | one document per row, in order |
| LegacyVectorStore.CreateThenLoad | core/rag/vector_store.py:85-114 | with rows for the video, an embedding that does not raise succeeds exactly when the splitter gives chunks (`FAISS.from_documents` raises on none), and the loader then returns that index, built from the rows sorted by start and a permutation of them |
| LegacyVectorStore.NoRowsNoIndex | core/rag/vector_store.py:89-91 | with no row whose video has the YouTube id nothing is written |
| LegacyVectorStore.CreateVectorStoreForVideo | core/rag/vector_store.py:85-113 | reference definition of `create_vector_store_for_video`, with rows joined to the video through its YouTube id; CreateThenLoad and NoRowsNoIndex state what it saves |
| Indexer.RowDocuments | engine/rag/vector_store/indexer.py:132-144 | one document per row, in order |
| Indexer.ProcessRun | engine/rag/vector_store/indexer.py:56-103 | exactly one status is saved, 'failed' exactly when embedding raised; an index of the split chunks is written at `<root>/<subfolder>/<platform id>` exactly when there were documents, chunks and a successful embedding |
| Indexer.ProcessAndSaveIndex | engine/rag/vector_store/indexer.py:56-103 | performs `ProcessRun`: the row's status field and the index tree change as it says and nothing else |
| Indexer.CreateIndexForSingleVideo | engine/rag/vector_store/indexer.py:106-189 | performs the single-video run of either kind: the saved statuses, the row's final status field, the index written and whether it raised |
| Indexer.IndexRows | engine/rag/vector_store/indexer.py:119-189 | the part of the run after the platform id: the zero-rows rule, the course lookup and the processing |
| Indexer.RowDocumentMeta | engine/rag/vector_store/indexer.py:134-186 | a row's document carries its text and exactly the six metadata keys, with its start, the platform id, the course id and the type tag |
| Indexer.BuildDocuments | engine/rag/vector_store/indexer.py:132-144 | the loop builds `RowDocuments` |
| Indexer.StartsIndexing | engine/rag/vector_store/indexer.py:110-154 | 'indexing' is saved before anything else |
| Indexer.NeverLeftIndexing | engine/rag/vector_store/indexer.py:106-189 | when the video's course exists the status field ends 'complete' or 'failed', never 'indexing', and 'failed' whenever the call raised |
| Indexer.MissingPlatformId | engine/rag/vector_store/indexer.py:113-117 | a video with neither platform id ends 'failed', raises and writes nothing |
| Indexer.NoRowsOutcome | engine/rag/vector_store/indexer.py:121-173 | with no rows the status ends 'complete' exactly when the matching transcript status is 'complete', else 'failed'; nothing is written or raised |
| Indexer.WrittenIndex | engine/rag/vector_store/indexer.py:87-146 | an index is written only at its own path, only when the status ends 'complete', holding the chunks of one document per row in start order tagged with the kind |
| Indexer.TranscriptIndexReadable | engine/rag/vector_store/indexer.py:89-92 | the spoken-transcript index written is what the engine's loader reads back |
| Indexer.PerformCourseIndexGeneration | engine/rag/vector_store/indexer.py:13-53 | a missing course gives "Error" and a course without videos "No Videos", both with no change; otherwise every course video is indexed, the counts are those of main-index successes and failures and the log reports them |
| Indexer.AnyInCourse | engine/rag/vector_store/indexer.py:20-22 | true exactly when some video belongs to the course |
| Indexer.IndexCourseVideos | engine/rag/vector_store/indexer.py:28-46 | the loop leaves every course video as its body leaves it, every other video unchanged, and counts successes and failures |
| Indexer.CourseVideoStep | engine/rag/vector_store/indexer.py:31-46 | one pass of the loop body moves the loop's state from video `j` to `j + 1` |
| Indexer.VideosAfter | engine/rag/vector_store/indexer.py:31-46 | one row per video |
| Indexer.VideosAfterAt | engine/rag/vector_store/indexer.py:31-46 | row by row, a course video becomes its state after the loop body and every other video is left |
| Indexer.CourseStep | engine/rag/vector_store/indexer.py:31-46 | one more video adds its index writes and at most one to either counter |
| Indexer.VideosAfterStep | engine/rag/vector_store/indexer.py:31 | the rows after the loop grow by one per video |
| Indexer.IndexOneVideo | engine/rag/vector_store/indexer.py:32-46 | the main index, then, when it did not raise, the on-screen-text index; raising is the main index's |
| Indexer.IndexScreen | engine/rag/vector_store/indexer.py:36-40 | the on-screen-text run on the row the main index left, its failure swallowed |
| Indexer.CountsAddUp | engine/rag/vector_store/indexer.py:28-46 | successes and failures add up to the number of course videos |
| Indexer.ScreenFailureNotCounted | engine/rag/vector_store/indexer.py:36-42 | an on-screen-text failure after a successful main index still counts as a success |
| NotesIndex.NotesDir | core/rag/index_notes.py:14 | a null YouTube id raises; otherwise the directory is `<root>/notes/<id>`, or `notes` itself for an empty id |
| NotesIndex.NotesOfVideo | core/rag/index_notes.py:12 | exactly the notes on the video, from every user |
| NotesIndex.VideoNotes | core/rag/index_notes.py:12 | a permutation of the video's notes (newest first) |
| NotesIndex.NoteDocuments | core/rag/index_notes.py:21-33 | when no note raises, one document per note |
| NotesIndex.SaveAfterMakeDirs | core/rag/index_notes.py:40-43 | saving into a directory just made is saving directly |
| NotesIndex.UpdateVideoNotesIndex | core/rag/index_notes.py:9-48 | the index tree and the outcome are those of `UpdateRun` on the tables |
| NotesIndex.BuildNoteDocuments | core/rag/index_notes.py:21-33 | the loop builds `NoteDocuments`, stopping at the first note that raises |
| NotesIndex.NoteDocumentsStops | core/rag/index_notes.py:28 | once one note has no course, the whole loop raises |
| NotesIndex.NoteDocumentsAt | core/rag/index_notes.py:21-33 | every note has a document exactly when every note has a course, and the `k`-th document is the `k`-th note's |
| NotesIndex.NoteDocumentShape | core/rag/index_notes.py:23-32 | a note's document is its labelled title and content with exactly five metadata keys naming author, note, course, video and timestamp |
| NotesIndex.NoNotesRemovesIndex | core/rag/index_notes.py:16-19 | a video without notes leaves no directory at its notes path and keeps every other directory |
| NotesIndex.BuiltIndexHoldsAllUsersNotes | core/rag/index_notes.py:12-43 | a built index holds one document per note on the video, whoever wrote it |
| NotesIndex.FailuresLeaveTree | core/rag/index_notes.py:45-48 | a missing video, a video without a YouTube id and a failure before the directory is made change nothing |
| NotesIndex.WrittenForLegacyLoaderOnly | core/rag/index_notes.py:14-43 | the index written is what the earlier notes loader reads, never the path the engine's per-user loader reads |
| TranscriptViews.GateQueuesOnce | engine/views/api_transcript.py:51-141 | a job is queued exactly from a status neither done nor running, a queued row is left running so a second request gets 409, and a failed enqueue leaves the row 'failed' |
| TranscriptViews.TranscriptQueue | engine/views/api_transcript.py:23-85 | a missing id or source, or an unknown source, gives 400 and an unknown video 404, both with no change; otherwise the gate decides the code, the row's new status and whether the transcript task is queued |
| TranscriptViews.IndexQueue | engine/views/api_transcript.py:88-141 | a missing course id gives 400 and an unknown course 404, both with no change; otherwise the same gate on the course's index status with 'indexing' as the running state |
| TranscriptViews.RecordsOf | engine/views/api_transcript.py:157 | one `{start, content}` record per row, in order |
| TranscriptViews.GetTranscriptView | engine/views/api_transcript.py:144-187 | an anonymous request is redirected to the login page; for a logged-in user, 404 exactly when no video has the platform id, and database rows are served only for a found video, sorted by start and never empty |
| TranscriptViews.FallbackOrder | engine/views/api_transcript.py:154-179 | database rows are served exactly when there are any, and they are the video's rows; the CSV file only when there are none; the empty list only when neither exists |
| TranscriptViews.ReaderFindsWrittenCsv | engine/views/api_transcript.py:161-173 | with no database rows, the reader serves exactly the CSV the transcript writer saved |
| TranscriptViews.Gate | engine/views/api_transcript.py:51-141 | reference definition of a queueing gate's decision; GateQueuesOnce states that a second request never enqueues again |
| TextProcessor.Keep | engine/transcript_service/ocr_service/text_processor.py:25 | the kept characters all pass the test and come from the text; a text whose every character passes is kept whole |
| TextProcessor.CollapseSpaces | engine/transcript_service/ocr_service/text_processor.py:21 | the only white space left is single plain spaces, empty exactly for the empty text, and a leading space exactly where the text began with white space |
| TextProcessor.CollapseChars | engine/transcript_service/ocr_service/text_processor.py:21 | collapsing brings in no character but the space |
| TextProcessor.CleanText | engine/transcript_service/ocr_service/text_processor.py:12-27 | every character of the result is printable, the only white space in it is the plain space, and it is no longer than the input |
| TextProcessor.StripKeepsNonSpace | engine/transcript_service/ocr_service/text_processor.py:21 | stripping removes only white space |
| TextProcessor.CollapseKeepsNonSpace | engine/transcript_service/ocr_service/text_processor.py:21 | collapsing keeps every non-white-space character in order |
| TextProcessor.CollapsedPrintable | engine/transcript_service/ocr_service/text_processor.py:21-25 | a collapsed text is printable when the input's visible characters and the space are |
| TextProcessor.CleanTextShape | engine/transcript_service/ocr_service/text_processor.py:12-27 | on printable text, cleaning is collapse then strip: no leading, trailing or doubled space, every visible character kept in order |
| TextProcessor.CleanBlank | engine/transcript_service/ocr_service/text_processor.py:17-21 | a blank text cleans to the empty string |
| TextProcessor.CleanIdempotent | engine/transcript_service/ocr_service/text_processor.py:12-27 | on printable text, cleaning twice is cleaning once |
| TextProcessor.CleanNotIdempotent | engine/transcript_service/ocr_service/text_processor.py:21-25 | for any non-printable, non-space character before a space and a visible character, cleaning leaves the space at the front and a second cleaning strips it, so cleaning is not idempotent |
| TextProcessor.IsSimilar | engine/transcript_service/ocr_service/text_processor.py:29-40 | an empty text is never similar; equal non-empty texts always are |
| TextProcessor.IsSimilarByRatio | engine/transcript_service/ocr_service/text_processor.py:37-40 | for two different non-empty texts similarity is the ratio exceeding the threshold |
| TextProcessor.RemoveDuplicates | engine/transcript_service/ocr_service/text_processor.py:42-63 | the loop produces `Dedupe` of the segments |
| TextProcessor.DedupeSubseq | engine/transcript_service/ocr_service/text_processor.py:47-63 | the output is a subsequence of the input beginning with the first segment, and empty for empty input |
| TextProcessor.DedupeShape | engine/transcript_service/ocr_service/text_processor.py:52-61 | no kept segment is similar to the one kept before it, and none after the first is blank |
| TextProcessor.RepeatDropped | engine/transcript_service/ocr_service/text_processor.py:37-60 | a segment identical to the one before it is dropped |
| TextProcessor.Cleaned | engine/transcript_service/ocr_service/text_processor.py:75 | each raw text cleaned, in order |
| TextProcessor.ProcessStream | engine/transcript_service/ocr_service/text_processor.py:71-77 | clean, deduplicate, then join by newlines |
| TextProcessor.NoNewline | engine/transcript_service/ocr_service/text_processor.py:21 | a cleaned text holds no newline |
| TextProcessor.StreamLines | engine/transcript_service/ocr_service/text_processor.py:65-77 | splitting the merged block on newlines gives back the deduplicated segments |
| TextProcessor.Dedupe | engine/transcript_service/ocr_service/text_processor.py:42-63 | reference definition of what `remove_duplicates` returns; RemoveDuplicates, DedupeShape, DedupeSubseq and RepeatDropped state its properties |
| TextProcessor.MergeSegments | engine/transcript_service/ocr_service/text_processor.py:65-69 | reference definition of `merge_segments`, the newline join; StreamLines states that the stream's lines are the deduplicated segments |
| VideoOcrService.ConsolidateFrom | engine/transcript_service/ocr_service/video_ocr_service.py:72-83 | the entries emitted from a run onwards begin with the run's head |
| VideoOcrService.Consolidate | engine/transcript_service/ocr_service/video_ocr_service.py:63-83 | the loop returns `Consolidation` of the raw segments |
| VideoOcrService.ConsolidateStep | engine/transcript_service/ocr_service/video_ocr_service.py:74-80 | one loop step: an entry not similar to the head closes the run and heads the next, a similar one is dropped |
| VideoOcrService.ConsolidateFromShape | engine/transcript_service/ocr_service/video_ocr_service.py:72-83 | the emitted entries are a subsequence of the run and what follows, none similar to the one before it |
| VideoOcrService.ConsolidationShape | engine/transcript_service/ocr_service/video_ocr_service.py:63-83 | nothing gives nothing; otherwise a subsequence of the input starting with its first entry, no entry similar to the one before it |
| VideoOcrService.HeadNotPrevious | engine/transcript_service/ocr_service/video_ocr_service.py:78-80 | each entry is compared with the head of its run, not its predecessor: a, b, c with b similar to a and c not gives a, c |
| VideoOcrService.TargetUrl | engine/transcript_service/ocr_service/video_ocr_service.py:92-97 | the video's URL, else the Vimeo URL, else the YouTube watch URL, else empty |
| VideoOcrService.Resolve | engine/transcript_service/ocr_service/video_ocr_service.py:101-116 | a resolved path always exists; a file counts as downloaded only for a target that is not an existing path and looks remote |
| VideoOcrService.RawSegments | engine/transcript_service/ocr_service/video_ocr_service.py:121-133 | at most one raw segment per frame |
| VideoOcrService.CollectRawSegments | engine/transcript_service/ocr_service/video_ocr_service.py:121-133 | the frame loop builds `RawSegments` |
| VideoOcrService.AdmittedIffCleaned | engine/transcript_service/ocr_service/video_ocr_service.py:127-130 | a frame is admitted exactly when its cleaned text is not empty |
| VideoOcrService.RawSegmentsFromFrames | engine/transcript_service/ocr_service/video_ocr_service.py:125-130 | every raw segment is the non-empty cleaned text of some frame, at that frame's time |
| VideoOcrService.OcrCsvName | engine/transcript_service/ocr_service/video_ocr_service.py:33-38 | the Vimeo id, else the YouTube id, else `video_<id>`, with ".csv" |
| VideoOcrService.OcrCsvNamesDistinct | engine/transcript_service/ocr_service/video_ocr_service.py:37-38 | two videos without platform ids never share a file name |
| VideoOcrService.ProcessVideo | engine/transcript_service/ocr_service/video_ocr_service.py:28-167 | an unknown video or an unresolved file changes nothing; otherwise the video's OCR rows are replaced by the consolidated entries whenever the course exists, the CSV is written exactly when the course exists and both `os.makedirs` and the write succeed, the result is true exactly when the course exists and `os.makedirs` (outside the CSV step's own `try`) did not raise, and a downloaded file is cleaned up |
| VideoOcrService.StoredOcrRows | engine/transcript_service/ocr_service/video_ocr_service.py:137-153 | the video's rows are exactly one per consolidated entry, each the cleaned text of a frame at its time, none similar to the previous; other videos keep theirs |
| VideoOcrService.Consolidation | engine/transcript_service/ocr_service/video_ocr_service.py:63-84 | reference definition of what `_consolidate_segments` returns; Consolidate, ConsolidationShape and HeadNotPrevious state its properties |
| OcrDownloader.IdAfter | engine/transcript_service/ocr_service/ocr_downloader.py:21 | the id taken after the last marker and cut at the first `?` holds neither the marker nor a `?` |
| OcrDownloader.CleanUrl | engine/transcript_service/ocr_service/ocr_downloader.py:19-40 | a Vimeo player link gives `https://vimeo.com/` and a query-free id; a plain Vimeo link loses exactly its query; embed and short YouTube links give the watch URL with a query-free id; a watch link is cut exactly at its first `&`; any other URL is unchanged |
| OcrDownloader.LinkId | engine/transcript_service/ocr_service/ocr_downloader.py:21-32 | for a link holding the marker once, the id extracted is exactly the text between the marker and the query string |
| OcrDownloader.CleanVimeoPlayerLink | engine/transcript_service/ocr_service/ocr_downloader.py:20-22 | a Vimeo player link carrying `id` becomes `https://vimeo.com/<id>` |
| OcrDownloader.CleanEmbedLink | engine/transcript_service/ocr_service/ocr_downloader.py:27-29 | a YouTube embed link carrying `id` becomes `https://www.youtube.com/watch?v=<id>` |
| OcrDownloader.CleanShortLink | engine/transcript_service/ocr_service/ocr_downloader.py:31-33 | a short YouTube link carrying `id` becomes the same watch URL |
| OcrDownloader.PlayerLinkIsVimeo | engine/transcript_service/ocr_service/ocr_downloader.py:20-24 | every Vimeo player link also matches the plain Vimeo test, which is why the player case must come first |
| FrameExtractor.Fps | engine/transcript_service/ocr_service/frame_extractor.py:39-44 | the rate used is always positive, and is the reported one whenever that is positive |
| FrameExtractor.Trunc | engine/transcript_service/ocr_service/frame_extractor.py:50 | Python's `int` of a float: the whole number next to it toward zero |
| FrameExtractor.Interval | engine/transcript_service/ocr_service/frame_extractor.py:50-52 | the interval is never zero, at least 1 for a non-negative sample rate, and the truncated product whenever that reaches 1 |
| FrameExtractor.Picked | engine/transcript_service/ocr_service/frame_extractor.py:65 | no more frame indices are kept than frames were read |
| FrameExtractor.Sampled | engine/transcript_service/ocr_service/frame_extractor.py:58-71 | one yielded pair per kept index |
| FrameExtractor.ExtractFrames | engine/transcript_service/ocr_service/frame_extractor.py:18-79 | a missing file raises the not-found error, a capture that does not open the open error; otherwise the yields are `Sampled` at the corrected rate and interval |
| FrameExtractor.ReadLoop | engine/transcript_service/ocr_service/frame_extractor.py:54-71 | the read loop yields exactly `Sampled` of the frames read |
| FrameExtractor.ExtractToDir | engine/transcript_service/ocr_service/frame_extractor.py:81-96 | the count is the number of frames the extraction yields, and its errors propagate |
| FrameExtractor.PickedIff | engine/transcript_service/ocr_service/frame_extractor.py:65 | an index is kept exactly when it is below the frame count and a multiple of the interval |
| FrameExtractor.PickedIncreasing | engine/transcript_service/ocr_service/frame_extractor.py:58-71 | kept indices are below the frame count and strictly increasing |
| FrameExtractor.PickedFirst | engine/transcript_service/ocr_service/frame_extractor.py:54-65 | the first frame is always kept |
| FrameExtractor.SampledAt | engine/transcript_service/ocr_service/frame_extractor.py:65-68 | the j-th yield is the frame at the j-th kept index, stamped with that index over the frame rate |
| FrameExtractor.SampledOrdered | engine/transcript_service/ocr_service/frame_extractor.py:65-68 | timestamps strictly increase, and a non-empty video yields its first frame at time 0 first |
| FrameExtractor.ServiceInterval | engine/transcript_service/ocr_service/frame_extractor.py:48-52 | at 2 seconds a 30 fps video, or one reporting no rate, keeps every 60th frame |
| AssistantView.TimestampOf | engine/views/api_assistant.py:23-27 | a missing or falsy timestamp, or one that does not parse, is 0 |
| AssistantView.TitleOf | engine/views/api_assistant.py:75-104 | the title is the query's first 255 characters: a prefix of it, the whole query when it is short enough |
| AssistantView.ConversationsOf | engine/views/api_assistant.py:62 | exactly the conversations of this user for this video |
| AssistantView.ById | engine/views/api_assistant.py:54-59 | the conversation found has the id, the user and the video asked for; none is found only when no such row exists |
| AssistantView.MessagesOf | engine/views/api_assistant.py:66 | exactly the messages of the conversation |
| AssistantView.Retitle | engine/views/api_assistant.py:103-105 | only the conversation with the id gets the new title; every other row is unchanged |
| AssistantView.BuildHistory | engine/views/api_assistant.py:66-70 | the history loop builds `HistoryLines` of the messages |
| AssistantView.HistoryShape | engine/views/api_assistant.py:67-70 | one "User:" line per message plus one "Assistant:" line per message with an answer, beginning with the first query |
| AssistantView.Post | engine/views/api_assistant.py:17-113 | corrected (see ## Findings): the response and the conversation and message tables after the call are those the corrected `Respond` gives, so an unknown video gets 404 |
| AssistantView.RejectedRequests | engine/views/api_assistant.py:15-48 | 403 exactly without a user, 400 exactly without a query or a video id, 404 exactly when no video has the id; nothing is written unless the request is answered |
| AssistantView.UnknownVideoAnswers500 | engine/views/api_assistant.py:45-129 | as written, an unknown video id is answered 500 where 404 is intended |
| AssistantView.AsWrittenAgrees | engine/views/api_assistant.py:41-129 | apart from the unknown video, the handler as written gives the intended response and tables |
| AssistantView.SelectedIsScoped | engine/views/api_assistant.py:54-62 | a continued conversation is always this user's for this video, and `force_new` never continues one |
| AssistantView.NamedIsContinued | engine/views/api_assistant.py:54-56 | a conversation of this user and video, named by a non-zero id without `force_new`, is the one continued |
| AssistantView.NewestFallback | engine/views/api_assistant.py:61-62 | the fallback is the newest of the user's conversations for the video, and there is none only when the user has none there |
| AssistantView.OpenedConversation | engine/views/api_assistant.py:72-82 | a new conversation gets an unused id, the user, the video, its course, the time, and "New Conversation" for the dummy start or the query's first 255 characters otherwise; a continued one leaves the table unchanged |
| AssistantView.DummyStart | engine/views/api_assistant.py:39-108 | "Start" with `force_new` opens a fresh "New Conversation" row, stores no message and answers "Starting new chat..." |
| AssistantView.ExchangeStored | engine/views/api_assistant.py:87-106 | a real query stores exactly one message, the query with the routed answer, and retitles only its own conversation, only from the placeholder |
| AssistantView.FollowUpContinues | engine/views/api_assistant.py:54-113 | the conversation id returned names a row of this user for this video, and a follow-up naming it continues it |
| AssistantView.Respond | engine/views/api_assistant.py:17-129 | reference definition of the view with an unknown video answered 404, as intended; RejectedRequests, ExchangeStored and FollowUpContinues state its answers |
| AssistantView.RespondAsWritten | engine/views/api_assistant.py:17-129 | reference definition of the view as written, where `Http404` escapes to the generic 500 handler; AsWrittenAgrees and UnknownVideoAnswers500 state where it differs |
| ImportOcr.CreateObj | core/management/commands/import_ocr.py:155-175 | no object exactly when `float` rejects the start or the stripped content is empty; otherwise the object belongs to the video and carries the parsed start and the stripped content (reading the missing course raises later, in `ImportFile`) |
| ImportOcr.FileId | core/management/commands/import_ocr.py:59 | the file id is the name without ".csv", except when only dots precede the extension, where `splitext` leaves the name whole |
| ImportOcr.PyInt | core/management/commands/import_ocr.py:96 | `int` accepts only text that is not blank once stripped |
| ImportOcr.PyIntDigits | core/management/commands/import_ocr.py:96 | `int` reads a run of decimal digits as their value |
| ImportOcr.VideoIdPart | core/management/commands/import_ocr.py:96 | the id part of `video_…` is the text up to the next `_`, which it never contains |
| ImportOcr.ByDbId | core/management/commands/import_ocr.py:93-99 | the `video_<id>` lookup finds a video of the table or nothing |
| ImportOcr.ResolveVideo | core/management/commands/import_ocr.py:76-103 | the resolved video is always one of the table |
| ImportOcr.ResolveOrder | core/management/commands/import_ocr.py:79-103 | the Vimeo id wins over the YouTube id, which wins over `video_<id>`; the video is missing exactly when all three miss |
| ImportOcr.DbIdName | core/management/commands/import_ocr.py:58-97 | a file `video_<n>.csv` that no platform id claims resolves to the video with primary key n |
| ImportOcr.RowObjects | core/management/commands/import_ocr.py:111-136 | no more objects than rows |
| ImportOcr.RowObjectsOwned | core/management/commands/import_ocr.py:155-172 | every object belongs to the video and has non-empty content with no surrounding whitespace |
| ImportOcr.AcceptedRowKept | core/management/commands/import_ocr.py:131-172 | every row with two cells, a parseable start and non-blank content gives its object |
| ImportOcr.KeptFromAcceptedRow | core/management/commands/import_ocr.py:131-172 | every collected object comes from such a row |
| ImportOcr.CollectObjects | core/management/commands/import_ocr.py:113-136 | corrected (see ## Findings): the header check and the row loop collect `RowObjects` of the rows, with the first row checked like the others |
| ImportOcr.ProcessFile | core/management/commands/import_ocr.py:76-153 | corrected (see ## Findings): the rows and videos after one file, and how handling it ends, are those the corrected `ImportFile` gives |
| ImportOcr.ImportFileEffect | core/management/commands/import_ocr.py:105-151 | a matched file replaces that video's OCR rows by the objects of its accepted rows and leaves other videos' rows; the video is marked complete with a pending OCR index exactly when it received rows; a read error, or objects for a video whose course is gone, is an error and leaves the rows deleted |
| ImportOcr.UnmatchedFileChangesNothing | core/management/commands/import_ocr.py:102-103 | a file that matches no video changes nothing and is counted as skipped |
| ImportOcr.Wiped | core/management/commands/import_ocr.py:25-36 | the wipe leaves no OCR rows and sets every video to transcript 'pending' and index 'none', changing nothing else |
| ImportOcr.Walk | core/management/commands/import_ocr.py:52-69 | corrected (see ## Findings): the walk loop's rows, videos and counters are those the corrected `ImportAll` gives |
| ImportOcr.Handle | core/management/commands/import_ocr.py:21-74 | corrected (see ## Findings): after the optional wipe, a missing directory stops with zero counts; otherwise the result is the corrected `ImportAll` of the walked files |
| ImportOcr.TallySum | core/management/commands/import_ocr.py:52-69 | every CSV file is counted exactly once: processed, skipped or an error |
| ImportOcr.FirstRowNoneIff | core/management/commands/import_ocr.py:121-175 | as written, the first row contributes `None` exactly when it has two cells, a parseable start and blank content |
| ImportOcr.FirstRowCounterexample | core/management/commands/import_ocr.py:121-140 | a file whose first row has a parseable start and blank content, followed by a good row, fails as written and imports the good row when corrected |
| ImportOcr.ImportFile | core/management/commands/import_ocr.py:76-168 | reference definition of `process_file` with the first-row `None` skipped, as intended; ImportFileEffect states the rows, video status and outcome it leaves |
| ImportOcr.ImportFileAsWritten | core/management/commands/import_ocr.py:76-168 | reference definition of `process_file` as written; FirstRowNoneIff and FirstRowCounterexample state when it crashes after the delete |
| ImportOcr.ImportAll | core/management/commands/import_ocr.py:52-69 | reference definition of the walk over the CSV files; Walk and Handle are proved against it |
| PopulateTranscripts.TranscriptRow | core/management/commands/populate_transcripts.py:52-58 | a built row carries the video, its course and its YouTube id, and no Vimeo id |
| PopulateTranscripts.Lines | core/management/commands/populate_transcripts.py:37-61 | no more rows than data lines |
| PopulateTranscripts.CollectLines | core/management/commands/populate_transcripts.py:37-61 | the row loop builds `Lines` of the data lines |
| PopulateTranscripts.PopulateOne | core/management/commands/populate_transcripts.py:16-68 | one turn either raises on a missing course, leaving the table, or leaves the table `PopulateVideo` gives; a caught failure of the open, the read or `bulk_create` adds nothing |
| PopulateTranscripts.Handle | core/management/commands/populate_transcripts.py:10-70 | the rows at the end, and whether the command raised, are those of `PopulateAll` over the videos |
| PopulateTranscripts.PopulateAllStops | core/management/commands/populate_transcripts.py:15-21 | once a turn raised, the later videos are not visited |
| PopulateTranscripts.LinesShape | core/management/commands/populate_transcripts.py:41-59 | one row per data line with two or three cells and a parseable start, each of the video with its course and YouTube id and no Vimeo id |
| PopulateTranscripts.LinesSound | core/management/commands/populate_transcripts.py:37-59 | every built row comes from some data line |
| PopulateTranscripts.LinesComplete | core/management/commands/populate_transcripts.py:37-59 | every data line that gives a row contributes it |
| PopulateTranscripts.LinesIff | core/management/commands/populate_transcripts.py:37-59 | a row is built exactly when some data line gives it |
| PopulateTranscripts.PopulateVideoEffect | core/management/commands/populate_transcripts.py:16-68 | a turn raises exactly for a video without rows and without a course; otherwise rows are only appended, other videos' rows stay, and a video that has rows is skipped |
| PopulateTranscripts.SettledAfterTurn | core/management/commands/populate_transcripts.py:16-68 | after its turn a video would be skipped or read the same nothing, however the table grows, in a rerun where no file reads whose `try` block raised in this turn |
| PopulateTranscripts.PopulateAllSettles | core/management/commands/populate_transcripts.py:15-68 | the command only appends rows, and a run that does not raise leaves every video settled for any rerun in which no file reads that failed to read in this run |
| PopulateTranscripts.SettledRunIsNoOp | core/management/commands/populate_transcripts.py:15-25 | a run over settled videos changes nothing and does not raise |
| PopulateTranscripts.SecondRunChangesNothing | core/management/commands/populate_transcripts.py:8-68 | running the command again after a run that did not raise changes nothing, as long as no file whose `try` block raised (caught at :67) reads in the rerun |
| PopulateTranscripts.CaughtFailureRetried | core/management/commands/populate_transcripts.py:27-68 | a turn whose open, read or `bulk_create` raised adds nothing, and the video stays unsettled: a rerun in which the file reads adds its rows |
| PopulateTranscripts.SettledBeforeStays | core/management/commands/populate_transcripts.py:16-18 | a settled video stays settled when the table grows, since a video with rows is skipped |
| PopulateTranscripts.UnvisitedRowsKept | core/management/commands/populate_transcripts.py:15-64 | rows of a video that no turn visits are never touched |
| PopulateTranscripts.WrittenLine | core/management/commands/populate_transcripts.py:43-59 | a two-cell line with a start that parses back and a stripped content gives exactly that row |
| PopulateTranscripts.ReadsBack | core/management/commands/populate_transcripts.py:37-59 | data lines that each read back as a record give the records' rows, in order |
| PopulateTranscripts.ReadsBackWritten | core/management/commands/populate_transcripts.py:29-59 | a CSV that `db_writer` wrote reads back, past its header, as one row per record with the record's start and content |
| PopulateTranscripts.PathsAgree | core/management/commands/populate_transcripts.py:21 | for ids without '/', this command and `db_writer` use the same file exactly when `os.path.join` of the raw course title and of the sanitised title give the same folder, and the platform id is the YouTube id as printed |
| PopulateTranscripts.PlainTitleFolders | core/management/commands/populate_transcripts.py:21 | for a title without '/', those folders agree exactly when sanitising leaves the title unchanged |
| PopulateTranscripts.TrailingSlashTitleAgrees | core/management/commands/populate_transcripts.py:21 | a safe title followed by '/' reaches the same folder `db_writer` writes to, `MEDIA_ROOT/transcripts/<title>` |
| PopulateTranscripts.PopulateVideo | core/management/commands/populate_transcripts.py:16-68 | reference definition of one turn of the loop. It reads the file at `os.path.join` of the raw course title, so a '/' in the title adds folder levels and a leading '/' starts again from the root; the caught failure of the `try` block is the parameter `turnOk`. PopulateVideoEffect, LinesIff, SettledAfterTurn and CaughtFailureRetried state its effect |
| PopulateTranscripts.PopulateAll | core/management/commands/populate_transcripts.py:10-70 | reference definition of the whole loop; Handle is proved against it and SecondRunChangesNothing states that a rerun adds nothing |
| LoadCourses.PlatformOf | core/management/commands/load_courses.py:85-99 | YouTube exactly when the URL contains "youtube.com"; Vimeo exactly when it does not but contains "vimeo.com"; otherwise no platform |
| LoadCourses.Get | core/management/commands/load_courses.py:54-92 | the lookup behind `update_or_create`: found is the one matching row, not found means no row matches, anything else is several |
| LoadCourses.GetUnique | core/management/commands/load_courses.py:54-92 | a row that alone satisfies the lookup is the one found |
| LoadCourses.Handle | core/management/commands/load_courses.py:19-104 | with `--wipe` the courses, videos and every row pointing at them are gone first; a missing or undecodable file stops there; otherwise the tables and the ending are those of `LoadAll` |
| LoadCourses.LoadEntries | core/management/commands/load_courses.py:53-102 | the outer loop's tables and ending are those of `LoadAll` |
| LoadCourses.LoadOne | core/management/commands/load_courses.py:54-102 | one course entry's effect is `LoadCourse` |
| LoadCourses.LoadVideoEntries | core/management/commands/load_courses.py:67-102 | the inner loop's table and ending are those of `LoadVideos` |
| LoadCourses.LoadAllStops | core/management/commands/load_courses.py:53-55 | once a course entry raised, the later entries are not visited |
| LoadCourses.LoadVideosStops | core/management/commands/load_courses.py:67-96 | once a video upsert raised, the later entries are not visited |
| LoadCourses.UpsertCourseEffect | core/management/commands/load_courses.py:54-60 | the course upsert raises exactly when several courses carry the title; otherwise the returned course is the only one with the title and carries the description and image URL given, a course is added exactly when none had the title, and every other course is unchanged |
| LoadCourses.UpsertCourseTwice | core/management/commands/load_courses.py:54-60 | upserting the same course twice leaves what upserting it once left |
| LoadCourses.SkippedEntries | core/management/commands/load_courses.py:72-99 | an entry without a truthy id or URL, or with a URL naming neither platform, changes nothing |
| LoadCourses.UpsertVideoRaises | core/management/commands/load_courses.py:85-96 | an upsert raises exactly when several rows match the key, or none does and some row already holds the platform id |
| LoadCourses.UpsertVideoEffect | core/management/commands/load_courses.py:70-96 | otherwise exactly one row matches the key afterwards, with the entry's title (or "Untitled Video") and URL; a row is added exactly when none matched, and every other row is unchanged |
| LoadCourses.UpsertVideoTwice | core/management/commands/load_courses.py:76-96 | upserting the same video entry twice leaves what upserting it once left |
| LoadCourses.MovedVideoRaises | core/management/commands/load_courses.py:86-90 | a YouTube video stored under another course cannot be loaded under this one: the lookup misses it and the insert breaks its id's uniqueness |
| LoadCourses.CourseByTitle | core/management/commands/load_courses.py:54-55 | the lookup by title finds the only course carrying it, finds none exactly when no course carries it, and reports several otherwise |
| LoadCourses.VideoByKey | core/management/commands/load_courses.py:86-94 | the lookup by platform id within the course finds the only matching row, finds none exactly when no row matches, and reports several otherwise |
| LoadCourses.UpsertVideoExtends | core/management/commands/load_courses.py:76-96 | one video upsert deletes no row and changes no row's id, platform ids, course or statuses |
| LoadCourses.YouTubeLinkIsYouTube | core/management/commands/load_courses.py:85-91 | every URL with "youtube.com" in it names YouTube, even one that also mentions "vimeo.com", because the YouTube test comes first |
| LoadCourses.VimeoLinkIsVimeo | core/management/commands/load_courses.py:85-91 | a URL with "vimeo.com" and no `y` around it (`https://vimeo.com/<digits>`, say) names Vimeo |
| LoadCourses.ShortLinkIsSkipped | core/management/commands/load_courses.py:85-99 | a short `https://youtu.be/<id>` link whose id has no `m` names no platform, so its entry is skipped and the table is unchanged |
| LoadCourses.LoadVideosExtends | core/management/commands/load_courses.py:67-96 | the inner loop deletes no video and keeps each one's id, platform ids, course and statuses |
| LoadCourses.LoadCourseExtends | core/management/commands/load_courses.py:53-96 | one course entry deletes nothing and keeps every row's identity and statuses |
| LoadCourses.AppendModeKeepsRows | core/management/commands/load_courses.py:39-102 | without `--wipe` nothing is deleted: however the run ends, every course and video keeps its identity and its statuses |
| LoadCourses.UpsertCourse | core/management/commands/load_courses.py:54-60 | reference definition of `update_or_create` on a course title; UpsertCourseEffect, UpsertCourseFound, UpsertCourseNew and UpsertCourseTwice state its effect |
| LoadCourses.UpsertVideo | core/management/commands/load_courses.py:70-96 | reference definition of one video entry's upsert; UpsertVideoEffect, UpsertVideoRaises, SkippedEntries and UpsertVideoTwice state its effect |
| LoadCourses.LoadAll | core/management/commands/load_courses.py:53-102 | reference definition of the outer loop; Handle and LoadEntries are proved against it |
| AssistantState.State.constructor | static/js/modules/assistant-state.js:3-5 | the module starts with an empty map and no current video or conversation |
| AssistantState.State.GetState | static/js/modules/assistant-state.js:7-13 | exactly the two current ids |
| AssistantState.State.SetActiveConversation | static/js/modules/assistant-state.js:15-24 | both ids become current; the map gains the video's conversation only for a truthy video id, and every other entry is unchanged |
| AssistantState.State.ResetCurrentConversation | static/js/modules/assistant-state.js:26-34 | the current video is kept, the current conversation and the current video's entry become null, every other entry is unchanged |
| AssistantState.State.GetConversationForVideo | static/js/modules/assistant-state.js:36-38 | the conversation the map holds for the id's property name, with a missing entry, null and 0 reading as null |
| AssistantState.RecordThenLookup | static/js/modules/assistant-state.js:15-38 | after opening a conversation for a truthy video id, asking for that video gives it back (0 reads as null) and every other video reads as before; a falsy id records nothing |
| AssistantState.ForgetThenLookup | static/js/modules/assistant-state.js:26-38 | after a reset the current video has no remembered conversation and every other video keeps its own |
| AssistantState.SwitchingVideosKeepsConversations | static/js/modules/assistant-state.js:15-38 | opening a conversation on a second video keeps the first video's |
| AssistantState.ResetAfterOpenForgets | static/js/modules/assistant-state.js:15-38 | starting a new chat on a video after opening one makes the video read as null, as if null had been opened |
| TimeFormat.FieldsDecompose | static/js/modules/utils.js:7-9 | for a non-negative time the fields are whole hours, minutes and seconds below 60 that add back up to its whole seconds |
| TimeFormat.RemOfNonNegative | static/js/modules/utils.js:8-9 | on a non-negative time JavaScript's remainder is non-negative and its floor is the integer remainder of the floor |
| TimeFormat.ZeroShownForFirstSecond | static/js/modules/utils.js:1-17 | "00:00:00" is shown exactly for NaN or a non-negative time below one second |
| TimeFormat.ZeroShownAt | static/js/modules/utils.js:7-16 | a non-negative time shows "00:00:00" exactly below one second |
| TimeFormat.Pad2Reads | static/js/modules/utils.js:12-14 | a number below 100 pads to two digits that read back as it |
| TimeFormat.Pad2Zero | static/js/modules/utils.js:12-14 | a padded field is at least two characters and is "00" exactly for zero |
| TimeFormat.ReadsBack | static/js/modules/utils.js:1-17 | under a hundred hours the clock is "HH:MM:SS" in digits whose three numbers give the whole seconds of the time |
| TimeFormat.FormatTimestamp | static/js/modules/utils.js:1-17 | reference definition of `formatTimestamp`; ReadsBack, Pad2Reads and ZeroShownForFirstSecond state that the clock reads back as the whole seconds |
| TranscriptUi.FirstActiveFrom | static/js/modules/transcript-ui.js:65-76 | the first line from a position on whose span holds the time, and no earlier one does; none when no line does |
| TranscriptUi.ActiveLine | static/js/modules/transcript-ui.js:62-76 | the search with `break` finds `FirstActive`: a covering line with no covering line before it, or nothing when none covers |
| TranscriptUi.SpansDisjoint | static/js/modules/transcript-ui.js:69-72 | with sorted starts at most one line covers any time |
| TranscriptUi.SomeLineFromFirstStart | static/js/modules/transcript-ui.js:62-72 | with a falsy duration a line is found exactly when the time is at or past the first start |
| TranscriptUi.LastStartedBy | static/js/modules/transcript-ui.js:69-72 | some line has started by the time and the next has not yet |
| TranscriptUi.LastIsActive | static/js/modules/transcript-ui.js:78-87 | after a highlight the remembered line is the one found, and the pinned line changes only when that differs from the one before |
| TranscriptUi.HighlightTwiceIsOnce | static/js/modules/transcript-ui.js:78-87 | a second highlight at the same moment changes nothing |
| TranscriptUi.HighlightKeepsPinned | static/js/modules/transcript-ui.js:78-87 | the pinned line keeps showing the remembered line, and losing it pins "..." |
| TranscriptUi.RowTimestampReadsBack | static/js/modules/transcript-ui.js:41-43 | a rendered row's timestamp reads back as the whole seconds of its start |
| TranscriptUi.RenderRows | static/js/modules/transcript-ui.js:38-55 | one row per line, in order, with its start and content |
| TranscriptUi.Panel.constructor | static/js/modules/transcript-ui.js:3 | nothing is remembered and the page shows its own markup |
| TranscriptUi.Panel.RenderTranscript | static/js/modules/transcript-ui.js:5-56 | the spinner goes; without the list nothing else changes; an empty list shows the notice and pins "Transcript not available yet."; otherwise the first line is pinned and every line is rendered in order; the remembered line is untouched |
| TranscriptUi.Panel.HighlightTranscript | static/js/modules/transcript-ui.js:58-88 | without the pinned container or lines nothing changes; otherwise the remembered and pinned lines follow the first covering line |
| TranscriptUi.FirstActive | static/js/modules/transcript-ui.js:62-76 | reference definition of the line `highlightTranscript` settles on; ActiveLine states that it is the first covering line and SpansDisjoint that covering lines do not overlap |
| VideoPlayer.ShortFormUnderAnHour | static/js/video_player.js:7-16 | for a non-negative time the player's clock is the shared clock without "00:" under an hour, and the same clock from an hour on |
| VideoPlayer.NoHoursUnderAnHour | static/js/video_player.js:8-12 | the hours field of a non-negative time is zero exactly under an hour |
| VideoPlayer.ShortFormReadsBack | static/js/video_player.js:7-16 | under an hour the player shows "MM:SS" in digits reading back as the whole seconds |
| VideoPlayer.LastActiveBefore | static/js/video_player.js:94-107 | the last of the first lines whose span holds the time, with no later one among them covering; none when none covers |
| VideoPlayer.HighlightTranscript | static/js/video_player.js:85-112 | without the list or the player nothing changes; otherwise every line is marked exactly when it covers the time, the last such line is active, and it is scrolled to when out of view |
| VideoPlayer.AtMostOneMarked | static/js/video_player.js:94-107 | with sorted starts at most one line is marked active |
| VideoPlayer.PagesAgree | static/js/video_player.js:94-107 | for sorted transcripts and a truthy duration the video page marks the line the assistant page pins |
| VideoPlayer.LastLineWithoutDuration | static/js/video_player.js:99 | without a duration the pages part on the last line: ten seconds past its start the assistant page still pins it while the video page marks none |
| VideoPlayer.FormatTimestamp | static/js/video_player.js:7-16 | reference definition of the player's `formatTimestamp`; ShortFormUnderAnHour and ShortFormReadsBack relate it to the shared clock |

## Left out

- The chains, prompt text and LLM calls (`chains.py`) are a parameter from route to answer. Exceptions a chain raises are not modelled.
- The classifier reply is an optional text parameter.
- FAISS similarity search, embeddings, text splitting and ensemble rank fusion are left out: an index is the list of documents it was built from, and the splitter is a parameter.
- Whisper, the transcript providers and PaddleOCR are left out; their outcomes are parameters.
- `download_video`, `_transcode_to_h264` and `cleanup` of the OCR downloader are left out, as network and subprocess work. Only `_clean_url` is modelled.
- Logging, `print`/`stdout` output and the log lists the pipeline appends to are left out; they carry no state the core reads.
- `select_for_update`, `transaction.atomic` and Django-Q's `async_task` are modelled as one atomic step plus an append to the Django-Q queue. Interleavings are not modelled.
- Temporary directories and the auto-increment counters are not modelled. New rows take the id one above the largest in their table, which also stands for the counter reset after `load_courses --wipe`.
- Floating point is left out: timestamps, starts and frame rates are reals. The JavaScript values `Infinity` and NaN appear only as the `None` cases of `Option<real>`. `Math.floor` is the real floor. The truncating `%` is written out.
- Python `int()` on text is modelled for ASCII digits with an optional sign and surrounding white space. Underscores and non-ASCII digits are not modelled.
- The regular expressions treat `\d` as ASCII digits, `\s` as Python's white space, and `IGNORECASE` only over ASCII letters.
- The JSON file of `load_courses` is given decoded. Non-text values in it (a number as a title, say) are not modelled.
- DOM work is left out: click-to-seek handlers, `innerHTML` markup, smooth scrolling and `isElementInView` (a parameter). The transcript fetch of `video_player.js` is left out as well.
- `TranscriptUi.Panel.RenderTranscript`: `renderTranscript` never resets `lastActiveLine`, so a highlight after a re-render can keep the old pinned line. The model keeps that behaviour, and no lemma covers the re-render case.
- `VideoOcrService.ProcessVideo` has no "Uncategorized" folder for a video without a course. The course key cannot be null, and a missing course raises before the folder is chosen, so that branch cannot run.
- `core/models.py` defines neither `OCRTranscript` nor the `ocr_transcript_status`, `index_status` and `ocr_index_status` fields of `Video`, or `Note.index_status`. The code that uses them is modelled with the columns it uses. The statuses share one enumeration.
- Several modules import names their targets do not define. `core/rag_utils.py` imports `get_vector_store` from `core/rag/vector_store.py`, and a core view imports `query_router` from `core/rag/utils.py`; both imports would fail at load time. The model takes each module's code as if the import worked.
- `retriever.py` calls `get_ocr_vector_store`, which `loader.py` does not define. The OCR store is the parameter `ocrStore` of `EngineRetriever.GetRetriever`.
- `Course.index_status` is set to 'indexing' by the index queue gate. No code in the core sets it back, and the model keeps it that way.
- `LegacyRagUtils.PySlice` models Python slicing only for the clamped window arithmetic the legacy helper uses. Negative steps are not modelled.
- AssistantView.Post follows the corrected view (see ## Findings): an unknown video is answered 404. The as-written 500 answer is `AssistantView.RespondAsWritten`, related to it by `AsWrittenAgrees` and `UnknownVideoAnswers500`.
- ImportOcr.CollectObjects follows the corrected `process_file` (see ## Findings): a `None` from the first row is skipped like any other. The as-written crash is `ImportOcr.ImportFileAsWritten` with `FirstRowNoneIff` and `FirstRowCounterexample`.
- ImportOcr.ProcessFile follows the corrected `process_file` (see ## Findings), as `ImportOcr.CollectObjects` does.
- ImportOcr.Walk follows the corrected `process_file` for each file (see ## Findings).
- ImportOcr.Handle follows the corrected `process_file` for each file (see ## Findings).
- RunOcr.Handle: the service's own writes to the OCR rows and the CSV files (`video_ocr_service.py:141-157`) are not stated. The method may change them, and only the service's outcome is a parameter. `VideoOcrService.ProcessVideo` states those writes for one video on its own.
- Common.Lower folds only the ASCII letters. Python's `str.lower()`, used by the routers (`engine/rag/utils.py:28,45`, `core/rag_utils.py:50,102`), also folds non-ASCII letters, so a query with such letters can match a keyword in the source but not in the model.
- FrameExtractor.ExtractToDir: the directory creation and the image file writes (`frame_extractor.py:81-96`) are left out. Only the count of frames is stated.
- Storage.PathJoin keeps the names "." and ".." as folder levels; the file system would resolve them. No title or id in the model is treated specially for them.
- The index directories (`TranscriptIndexPath`, `NoteIndexPath`, `NotesDir`) take each YouTube id as one folder level rather than joining it with `os.path.join`. An id holding '/' would add levels in the source and not in the model.
- Files outside the core are not part of this model:
  - the monolithic `engine/transcript_service.py` and `core/transcript_service.py`;
  - the thin views and serializers, signals and `urls.py`;
  - the diagnostic and reporting commands;
  - the network scripts;
  - the remaining browser modules (DOM, fetch and Bootstrap handling).

## Findings

| source | as written | input that shows it | evidently intended | confidence | as-written member | corrected member |
|---|---|---|---|---|---|---|
| engine/tasks.py:59 | `Note.objects,filter(…)` builds a tuple, and the built-in `filter` it calls raises. The exception is swallowed, and the failed rebuild leaves the notes 'processing' | one note of the user on the video, with a failing `update_video_notes_index` | the notes still 'processing' become 'failed' | not executed | Tasks.NotesStuckProcessing | Tasks.TaskUpdateNoteIndex |
| engine/views/api_assistant.py:45-120 | `get_object_or_404` raises `Http404`, which `except Video.DoesNotExist` does not catch, so the generic handler answers 500. The 404 branch also names `HTTP_44_NOT_FOUND`, which does not exist | an authenticated request whose `video_id` no video carries | a 404 response saying the video was not found | not executed | AssistantView.UnknownVideoAnswers500 | AssistantView.RejectedRequests |
| core/management/commands/import_ocr.py:121-125 | the first data row is appended without the `if obj` check. A blank first content adds `None`, and `bulk_create` fails after the video's rows were deleted | a header-less file whose first row is `1.0,"  "` and whose second row is `2.0,text` | blank rows are skipped and the other rows are imported | not executed | ImportOcr.FirstRowCounterexample | ImportOcr.ImportFileEffect |
