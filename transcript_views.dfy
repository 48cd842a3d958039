/** The engine's transcript and index endpoints (`engine/views/api_transcript.py`):
    two queue gates that lock a row, refuse when the job is done or running,
    mark it running and enqueue the background job; and the transcript reader that
    serves database rows, else the CSV file, else nothing. */
module TranscriptViews {
  import opened Common
  import opened Models
  import opened Storage
  import opened Store
  import opened Sanitize
  import opened DbWriter

  /** A gate's decision, by the current status, the running status and
      whether enqueueing succeeds: the row's new status and the code. */
  function Gate(current: Status, running: Status, enqueueOk: bool): (Status, nat) {
    if current == Complete then (current, 200)
    else if current == running then (current, 409)
    else if enqueueOk then (running, 202)
    else (Failed, 500)
  }

  /** A job is queued only from a status that is neither done nor running,
      and a queued job always leaves its row in the running state, so a
      second request while it runs is refused with 409. */
  lemma GateQueuesOnce(current: Status, running: Status)
    requires running != Complete
    ensures Gate(current, running, true).1 == 202 <==> current != Complete && current != running
    ensures Gate(current, running, true).1 == 202 ==> Gate(Gate(current, running, true).0, running, true).1 == 409
    ensures Gate(current, running, false).1 == 500 ==> Gate(current, running, false).0 == Failed
  {
  }

  /** `TranscriptQueueView.post`. `enqueueOk` is false when `async_task`
      raises after the locked transaction committed; the handler then saves
      the row it read first with status 'failed'. */
  method TranscriptQueue(db: Db, externalId: Option<string>, source: Option<string>, enqueueOk: bool)
    returns (code: nat)
    modifies db`videos, db`queue
    ensures !Truthy(externalId) || !Truthy(source) ==> code == 400 && unchanged(db)
    ensures Truthy(externalId) && Truthy(source) && source.value != "vimeo" && source.value != "youtube" ==>
              code == 400 && unchanged(db)
    ensures Truthy(externalId) && Truthy(source) && (source.value == "vimeo" || source.value == "youtube") ==>
              var found := if source.value == "vimeo" then VideoByVimeoId(old(db.videos), externalId.value)
                           else VideoByYoutubeId(old(db.videos), externalId.value);
              match found
              case None => code == 404 && unchanged(db)
              case Some(i) =>
                var v := old(db.videos)[i];
                var (s, c) := Gate(v.transcriptStatus, Processing, enqueueOk);
                code == c && db.videos == old(db.videos)[i := v.(transcriptStatus := s)]
                && db.queue == old(db.queue) + (if c == 202 then [TranscriptTask(v.id)] else [])
  {
    if !Truthy(externalId) || !Truthy(source) {
      return 400;
    }
    var found: Option<nat>;
    if source.value == "vimeo" {
      found := VideoByVimeoId(db.videos, externalId.value);
    } else if source.value == "youtube" {
      found := VideoByYoutubeId(db.videos, externalId.value);
    } else {
      return 400;
    }
    if found.None? {
      return 404;
    }
    var i := found.value;
    var video := db.videos[i];
    var locked := db.videos[i];
    if locked.transcriptStatus == Complete {
      return 200;
    }
    if locked.transcriptStatus == Processing {
      return 409;
    }
    db.videos := db.videos[i := locked.(transcriptStatus := Processing)];
    if !enqueueOk {
      db.videos := db.videos[i := video.(transcriptStatus := Failed)];
      return 500;
    }
    db.queue := db.queue + [TranscriptTask(locked.id)];
    return 202;
  }

  /** `IndexQueueView.post`, the same gate on the course's `index_status`
      with 'indexing' as the running state. */
  method IndexQueue(db: Db, courseId: Option<int>, enqueueOk: bool) returns (code: nat)
    modifies db`courses, db`queue
    ensures courseId.None? || courseId == Some(0) ==> code == 400 && unchanged(db)
    ensures courseId.Some? && courseId.value != 0 ==>
              var found := if courseId.value < 0 then None else CourseById(old(db.courses), courseId.value);
              match found
              case None => code == 404 && unchanged(db)
              case Some(k) =>
                var c := old(db.courses)[k];
                var (s, r) := Gate(c.indexStatus, Indexing, enqueueOk);
                code == r && db.courses == old(db.courses)[k := c.(indexStatus := s)]
                && db.queue == old(db.queue) + (if r == 202 then [CourseIndexTask(c.id)] else [])
  {
    if courseId.None? || courseId.value == 0 {
      return 400;
    }
    var found := if courseId.value < 0 then None else CourseById(db.courses, courseId.value);
    if found.None? {
      return 404;
    }
    var k := found.value;
    var course := db.courses[k];
    var locked := db.courses[k];
    if locked.indexStatus == Complete {
      return 200;
    }
    if locked.indexStatus == Indexing {
      return 409;
    }
    db.courses := db.courses[k := locked.(indexStatus := Indexing)];
    if !enqueueOk {
      db.courses := db.courses[k := course.(indexStatus := Failed)];
      return 500;
    }
    db.queue := db.queue + [CourseIndexTask(locked.id)];
    return 202;
  }

  /** What `get_transcript_view` answers; `LoginRedirect` is the redirect
      to the login page `@login_required` gives an anonymous request. */
  datatype TranscriptResponse =
    | LoginRedirect
    | DbRows(rows: seq<Record>)
    | CsvFile(csv: Csv)
    | NoRows
    | NotFound404
    | Error500

  /** The DB rows as records, in `start` order. */
  function RecordsOf(rows: seq<Segment>): (r: seq<Record>)
    ensures |r| == |rows|
    ensures forall k :: 0 <= k < |rows| ==> r[k] == Record(rows[k].start, rows[k].content)
  {
    if rows == [] then [] else [Record(rows[0].start, rows[0].content)] + RecordsOf(rows[1..])
  }

  /** `f"{platform_id}.csv"`: a missing id prints as `None`. */
  function PlatformIdText(v: Video): string {
    match PlatformId(v)
    case None => "None"
    case Some(p) => p
  }

  /** `get_transcript_view(video_id)` behind `@login_required`.
      `authenticated` says whether the request carries a logged-in user;
      `readable` says whether pandas reads the file without raising. */
  function GetTranscriptView(authenticated: bool, videos: seq<Video>, courses: seq<Course>,
                             transcripts: seq<Segment>, files: map<Path, Csv>, videoId: string,
                             mediaRoot: Path, readable: Csv -> bool): (r: TranscriptResponse)
    ensures r == LoginRedirect <==> !authenticated
    ensures r == NotFound404 <==> authenticated && GetVideoByPlatform(videos, videoId).NotFound?
    ensures r.DbRows? ==> GetVideoByPlatform(videos, videoId).Found?
    ensures r.DbRows? ==> SortedBy(r.rows, (x: Record) => x.start) && r.rows != []
  {
    if !authenticated then LoginRedirect
    else match GetVideoByPlatform(videos, videoId)
    case NotFound => NotFound404
    case Multiple => Error500
    case Found(i) =>
      var v := videos[i];
      var rows := RowsInStartOrder(transcripts, v.id);
      if rows != [] then DbRows(RecordsOf(rows))
      else match CourseById(courses, v.courseId)
        case None => Error500
        case Some(c) =>
          var p := TranscriptCsvPath(mediaRoot, courses[c].title, PlatformIdText(v));
          if p !in files then NoRows
          else if readable(files[p]) then CsvFile(files[p])
          else Error500
  }

  /** For a logged-in user the three sources are tried in order: database
      rows whenever there are any, the CSV file only when there are none,
      and an empty list only when neither exists. */
  lemma FallbackOrder(videos: seq<Video>, courses: seq<Course>, transcripts: seq<Segment>,
                      files: map<Path, Csv>, videoId: string, mediaRoot: Path, readable: Csv -> bool)
    requires GetVideoByPlatform(videos, videoId).Found?
    ensures var v := videos[GetVideoByPlatform(videos, videoId).index];
            var r := GetTranscriptView(true, videos, courses, transcripts, files, videoId, mediaRoot, readable);
            (RowsOf(transcripts, v.id) != [] <==> r.DbRows?)
            && (r.DbRows? ==> |r.rows| == |RowsOf(transcripts, v.id)|)
            && (r.DbRows? ==> forall k :: 0 <= k < |r.rows| ==>
                  exists s :: s in transcripts && s.videoId == v.id && r.rows[k] == Record(s.start, s.content))
            && (r.CsvFile? ==> RowsOf(transcripts, v.id) == [] && r.csv in files.Values)
            && (r == NoRows ==> RowsOf(transcripts, v.id) == [])
  {
    var v := videos[GetVideoByPlatform(videos, videoId).index];
    var rows := RowsInStartOrder(transcripts, v.id);
    forall k | 0 <= k < |rows|
      ensures rows[k] in transcripts && rows[k].videoId == v.id
    {
      assert rows[k] in multiset(RowsOf(transcripts, v.id));
    }
  }

  /** Once the writer has saved a transcript's CSV, the reader serves that
      file to a logged-in user whenever the database holds no rows for the
      video — for instance after the insert that followed the CSV write
      failed. */
  lemma ReaderFindsWrittenCsv(videos: seq<Video>, courses: seq<Course>, transcripts: seq<Segment>,
                              files: map<Path, Csv>, videoId: string, mediaRoot: Path,
                              data: seq<Record>, format: real -> string)
    requires GetVideoByPlatform(videos, videoId).Found?
    requires var v := videos[GetVideoByPlatform(videos, videoId).index];
             PlatformId(v).Some? && CourseById(courses, v.courseId).Some? && RowsOf(transcripts, v.id) == []
    ensures var v := videos[GetVideoByPlatform(videos, videoId).index];
            var written := CsvStep(files, courses, v, PlatformId(v).value, data, mediaRoot, format, true);
            GetTranscriptView(true, videos, courses, transcripts, written, videoId, mediaRoot, (c: Csv) => true)
              == CsvFile(CsvOf(data, format))
  {
    var v := videos[GetVideoByPlatform(videos, videoId).index];
    assert |RowsInStartOrder(transcripts, v.id)| == 0;
  }
}
