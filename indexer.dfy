/** Index building (`engine/rag/vector_store/indexer.py`): one video's
    transcript or on-screen-text index, with the status field it keeps, and
    the course-wide run that counts successes and failures. A run is first
    described as a value (`Run`: the statuses saved in order, the index
    written, whether it raised), then the methods are proved to perform it. */
module Indexer {
  import opened Common
  import opened Models
  import opened Storage
  import opened Store
  import EngineLoader

  /** The statuses saved, in order; the index written, if any; whether the
      call raised. */
  datatype Run = Run(saves: seq<Status>, written: Option<(Path, Index)>, raised: bool)

  /** What stays fixed during a course run: the tables the indexer reads,
      the index root, the text splitter, and whether embedding succeeds for
      a video's index of either kind. */
  datatype Env = Env(courses: seq<Course>, transcripts: seq<Segment>, ocrRows: seq<Segment>,
                     root: Path, split: seq<Document> -> seq<Document>,
                     embedOk: (nat, Kind) -> bool)

  function Subfolder(kind: Kind): string { if kind == Spoken then "transcripts" else "ocr" }

  function TypeTag(kind: Kind): string { if kind == Spoken then "transcript" else "ocr" }

  function IndexPath(root: Path, kind: Kind, platformId: string): Path {
    root + [Subfolder(kind), platformId]
  }

  function Written(fs: Fs, w: Option<(Path, Index)>): Fs {
    if w.Some? then Save(fs, w.value.0, w.value.1) else fs
  }

  /** The document built from one segment row. */
  function RowDocument(s: Segment, title: string, platformId: string, c: Course, kind: Kind): Document {
    Document(s.content, map["start_time" := MReal(s.start), "video_title" := MText(title),
                            "video_id" := MText(platformId), "course_title" := MText(c.title),
                            "course_id" := MInt(c.id), "type" := MText(TypeTag(kind))])
  }

  function RowDocuments(rows: seq<Segment>, title: string, platformId: string, c: Course, kind: Kind): (r: seq<Document>)
    ensures |r| == |rows|
    ensures forall k :: 0 <= k < |rows| ==> r[k] == RowDocument(rows[k], title, platformId, c, kind)
  {
    if rows == [] then []
    else RowDocuments(rows[..|rows| - 1], title, platformId, c, kind) + [RowDocument(rows[|rows| - 1], title, platformId, c, kind)]
  }

  /** `_process_and_save_index(docs, platform_id, video, subfolder, field)`:
      nothing to index or nothing after splitting is a completed index with
      nothing written; otherwise the split chunks are saved and the status
      completed, or embedding raises and the status fails. */
  function ProcessRun(docs: seq<Document>, platformId: string, root: Path, kind: Kind,
                      split: seq<Document> -> seq<Document>, embedOk: bool): (r: Run)
    ensures r.saves == [if r.raised then Failed else Complete]
    ensures r.written.Some? <==> docs != [] && split(docs) != [] && embedOk
    ensures r.raised <==> docs != [] && split(docs) != [] && !embedOk
    ensures r.written.Some? ==> r.written.value == (IndexPath(root, kind, platformId), Index(split(docs)))
  {
    if docs == [] then Run([Complete], None, false)
    else if split(docs) == [] then Run([Complete], None, false)
    else if !embedOk then Run([Failed], None, true)
    else Run([Complete], Some((IndexPath(root, kind, platformId), Index(split(docs)))), false)
  }

  /** The part of a single-video run after the platform id is known: the
      rows in start order, the zero-rows rule, the course lookup (a missing
      course raises with nothing more saved) and the processing. It reads
      only these columns of the video. */
  function RowsRun(videoId: nat, courseId: nat, title: string, sourceStatus: Status, platformId: string,
                   courses: seq<Course>, rows: seq<Segment>, kind: Kind,
                   root: Path, split: seq<Document> -> seq<Document>, embedOk: bool): Run
  {
    var found := RowsInStartOrder(rows, videoId);
    if found == [] then Run([if sourceStatus == Complete then Complete else Failed], None, false)
    else match CourseById(courses, courseId)
      case None => Run([], None, true)
      case Some(c) => ProcessRun(RowDocuments(found, title, platformId, courses[c], kind), platformId, root, kind, split, embedOk)
  }

  /** `create_index_for_single_video` (kind `Spoken`) and
      `create_ocr_index_for_single_video` (kind `Screen`) as a run. */
  function SingleVideoRun(v: Video, courses: seq<Course>, rows: seq<Segment>, kind: Kind,
                          root: Path, split: seq<Document> -> seq<Document>, embedOk: bool): Run
  {
    match PlatformId(v)
    case None => Run([Indexing, Failed], None, true)
    case Some(pid) =>
      var r := RowsRun(v.id, v.courseId, v.title, TranscriptStatusOf(v, kind), pid, courses, rows, kind, root, split, embedOk);
      Run([Indexing] + r.saves, r.written, r.raised)
  }

  method ProcessAndSaveIndex(db: Db, i: nat, kind: Kind, docs: seq<Document>, platformId: string,
                             root: Path, split: seq<Document> -> seq<Document>, embedOk: bool)
    returns (raised: bool, saved: Status)
    requires i < |db.videos|
    modifies db`videos, db`indexes
    ensures var r := ProcessRun(docs, platformId, root, kind, split, embedOk);
            raised == r.raised && [saved] == r.saves
            && db.videos == old(db.videos)[i := WithIndexStatus(old(db.videos[i]), kind, saved)]
            && db.indexes == Written(old(db.indexes), r.written)
  {
    raised := false;
    saved := Complete;
    if docs == [] {
      db.videos := db.videos[i := WithIndexStatus(db.videos[i], kind, Complete)];
      return;
    }
    var chunks := split(docs);
    if chunks == [] {
      db.videos := db.videos[i := WithIndexStatus(db.videos[i], kind, Complete)];
      return;
    }
    if !embedOk {
      saved := Failed;
      db.videos := db.videos[i := WithIndexStatus(db.videos[i], kind, Failed)];
      raised := true;
      return;
    }
    db.indexes := Save(db.indexes, IndexPath(root, kind, platformId), Index(chunks));
    db.videos := db.videos[i := WithIndexStatus(db.videos[i], kind, Complete)];
  }

  /** One video's index of either kind, as the source builds it: the status
      saved as 'indexing' first, then each outcome's status saved. */
  method CreateIndexForSingleVideo(db: Db, i: nat, kind: Kind, root: Path,
                                   split: seq<Document> -> seq<Document>, embedOk: bool)
    returns (raised: bool, saves: seq<Status>)
    requires i < |db.videos|
    modifies db`videos, db`indexes
    ensures var rows := if kind == Spoken then db.transcripts else db.ocrRows;
            var r := SingleVideoRun(old(db.videos[i]), db.courses, rows, kind, root, split, embedOk);
            raised == r.raised && saves == r.saves
            && db.videos == old(db.videos)[i := WithIndexStatus(old(db.videos[i]), kind, LastSaved(old(db.videos[i]), kind, saves))]
            && db.indexes == Written(old(db.indexes), r.written)
  {
    var videos := db.videos;
    var v := videos[i];
    var platformId := PlatformId(v);
    db.videos := videos[i := WithIndexStatus(v, kind, Indexing)];
    if platformId.None? {
      db.videos := videos[i := WithIndexStatus(v, kind, Failed)];
      return true, [Indexing, Failed];
    }
    var rows := if kind == Spoken then db.transcripts else db.ocrRows;
    var rest;
    raised, rest := IndexRows(db, i, v.id, v.courseId, v.title, TranscriptStatusOf(v, kind),
                              platformId.value, kind, rows, root, split, embedOk);
    saves := [Indexing] + rest;
    IndexedOutcome(videos, i, kind, db.courses, rows, root, split, embedOk, raised, rest,
                   db.videos, old(db.indexes), db.indexes);
  }

  /** The state `IndexRows` leaves on the row saved 'indexing' is the
      single-video run's. */
  lemma IndexedOutcome(videos: seq<Video>, i: nat, kind: Kind, courses: seq<Course>, rows: seq<Segment>,
                       root: Path, split: seq<Document> -> seq<Document>, embedOk: bool,
                       raised: bool, rest: seq<Status>, after: seq<Video>, fs: Fs, fs': Fs)
    requires i < |videos| && PlatformId(videos[i]).Some?
    requires var v := videos[i];
             var r := RowsRun(v.id, v.courseId, v.title, TranscriptStatusOf(v, kind), PlatformId(v).value,
                              courses, rows, kind, root, split, embedOk);
             var started := videos[i := WithIndexStatus(v, kind, Indexing)];
             raised == r.raised && rest == r.saves && fs' == Written(fs, r.written)
             && after == (if rest == [] then started else started[i := WithIndexStatus(started[i], kind, rest[|rest| - 1])])
    ensures var v := videos[i];
            var r := SingleVideoRun(v, courses, rows, kind, root, split, embedOk);
            raised == r.raised && [Indexing] + rest == r.saves
            && after == videos[i := WithIndexStatus(v, kind, LastSaved(v, kind, [Indexing] + rest))]
            && fs' == Written(fs, r.written)
  {
    var v := videos[i];
    if rest != [] {
      WithIndexStatusTwice(v, kind, Indexing, rest[|rest| - 1]);
      UpdateTwice(videos, i, WithIndexStatus(v, kind, Indexing), WithIndexStatus(v, kind, rest[|rest| - 1]));
    }
  }

  /** The rest of a single-video run, on the row already saved 'indexing':
      the columns the run reads are passed in. */
  method IndexRows(db: Db, i: nat, videoId: nat, courseId: nat, title: string, sourceStatus: Status,
                   platformId: string, kind: Kind, rows: seq<Segment>, root: Path,
                   split: seq<Document> -> seq<Document>, embedOk: bool)
    returns (raised: bool, saves: seq<Status>)
    requires i < |db.videos|
    modifies db`videos, db`indexes
    ensures var r := RowsRun(videoId, courseId, title, sourceStatus, platformId,
                             db.courses, rows, kind, root, split, embedOk);
            raised == r.raised && saves == r.saves
            && db.videos == (if saves == [] then old(db.videos) else old(db.videos)[i := WithIndexStatus(old(db.videos[i]), kind, saves[|saves| - 1])])
            && db.indexes == Written(old(db.indexes), r.written)
  {
    ghost var videos, fs := db.videos, db.indexes;
    var found := RowsInStartOrder(rows, videoId);
    var c := CourseById(db.courses, courseId);
    if found == [] {
      var s := if sourceStatus == Complete then Complete else Failed;
      db.videos := db.videos[i := WithIndexStatus(db.videos[i], kind, s)];
      raised, saves := false, [s];
    } else if c.None? {
      raised, saves := true, [];
    } else {
      var saved: Status;
      raised, saved := IndexFound(db, i, kind, found, title, platformId, db.courses[c.value], root, split, embedOk);
      saves := [saved];
    }
    RowsRunOutcome(videoId, courseId, title, sourceStatus, platformId, db.courses, rows, kind, root, split, embedOk,
                   raised, saves, videos, i, db.videos, fs, db.indexes);
  }

  /** Each of the three ways the rest of a run can go leaves the run's
      statuses, row and index tree. */
  lemma RowsRunOutcome(videoId: nat, courseId: nat, title: string, sourceStatus: Status, platformId: string,
                       courses: seq<Course>, rows: seq<Segment>, kind: Kind,
                       root: Path, split: seq<Document> -> seq<Document>, embedOk: bool,
                       raised: bool, saves: seq<Status>, videos: seq<Video>, i: nat, after: seq<Video>, fs: Fs, fs': Fs)
    requires i < |videos|
    requires var found := RowsInStartOrder(rows, videoId);
             var c := CourseById(courses, courseId);
             var s := if sourceStatus == Complete then Complete else Failed;
             (found == [] ==> !raised && saves == [s] && after == videos[i := WithIndexStatus(videos[i], kind, s)] && fs' == fs)
             && (found != [] && c.None? ==> raised && saves == [] && after == videos && fs' == fs)
             && (found != [] && c.Some? ==>
                   var r := ProcessRun(RowDocuments(found, title, platformId, courses[c.value], kind), platformId, root, kind, split, embedOk);
                   raised == r.raised && saves == r.saves
                   && after == videos[i := WithIndexStatus(videos[i], kind, saves[0])] && fs' == Written(fs, r.written))
    ensures var r := RowsRun(videoId, courseId, title, sourceStatus, platformId, courses, rows, kind, root, split, embedOk);
            raised == r.raised && saves == r.saves
            && after == (if saves == [] then videos else videos[i := WithIndexStatus(videos[i], kind, saves[|saves| - 1])])
            && fs' == Written(fs, r.written)
  {
  }

  /** The documents of the video's rows, split, embedded and saved. */
  method IndexFound(db: Db, i: nat, kind: Kind, found: seq<Segment>, title: string, platformId: string,
                    course: Course, root: Path, split: seq<Document> -> seq<Document>, embedOk: bool)
    returns (raised: bool, saved: Status)
    requires i < |db.videos|
    modifies db`videos, db`indexes
    ensures var r := ProcessRun(RowDocuments(found, title, platformId, course, kind), platformId, root, kind, split, embedOk);
            raised == r.raised && [saved] == r.saves
            && db.videos == old(db.videos)[i := WithIndexStatus(old(db.videos[i]), kind, saved)]
            && db.indexes == Written(old(db.indexes), r.written)
  {
    var docs := BuildDocuments(found, title, platformId, course, kind);
    raised, saved := ProcessAndSaveIndex(db, i, kind, docs, platformId, root, split, embedOk);
  }

  /** The three ways the rest of a run can go. */
  lemma RowsRunCases(videoId: nat, courseId: nat, title: string, sourceStatus: Status, platformId: string,
                     courses: seq<Course>, rows: seq<Segment>, kind: Kind,
                     root: Path, split: seq<Document> -> seq<Document>, embedOk: bool)
    ensures var found := RowsInStartOrder(rows, videoId);
            var c := CourseById(courses, courseId);
            var r := RowsRun(videoId, courseId, title, sourceStatus, platformId, courses, rows, kind, root, split, embedOk);
            (found == [] ==> r == Run([if sourceStatus == Complete then Complete else Failed], None, false))
            && (found != [] && c.None? ==> r == Run([], None, true))
            && (found != [] && c.Some? ==>
                  r == ProcessRun(RowDocuments(found, title, platformId, courses[c.value], kind), platformId, root, kind, split, embedOk))
  {
  }

  /** A row's document carries its text, its start, the platform id, the
      course id and the kind's type tag. */
  lemma RowDocumentMeta(s: Segment, title: string, platformId: string, c: Course, kind: Kind)
    ensures var d := RowDocument(s, title, platformId, c, kind);
            d.content == s.content
            && d.meta.Keys == {"start_time", "video_title", "video_id", "course_title", "course_id", "type"}
            && d.meta["start_time"] == MReal(s.start) && d.meta["video_id"] == MText(platformId)
            && d.meta["course_id"] == MInt(c.id) && d.meta["type"] == MText(TypeTag(kind))
  {
  }

  /** The document list built by the `for t in transcripts` loop. */
  method BuildDocuments(found: seq<Segment>, title: string, platformId: string, course: Course, kind: Kind)
    returns (docs: seq<Document>)
    ensures docs == RowDocuments(found, title, platformId, course, kind)
  {
    docs := [];
    for j := 0 to |found|
      invariant docs == RowDocuments(found[..j], title, platformId, course, kind)
    {
      assert found[..j + 1][..j] == found[..j];
      docs := docs + [RowDocument(found[j], title, platformId, course, kind)];
    }
    assert found[..|found|] == found;
  }

  // ---------------------------------------------------------------- one video

  function LastStatus(r: Run): Status requires r.saves != [] { r.saves[|r.saves| - 1] }

  /** The status is saved as 'indexing' before anything else. */
  lemma StartsIndexing(v: Video, courses: seq<Course>, rows: seq<Segment>, kind: Kind,
                       root: Path, split: seq<Document> -> seq<Document>, embedOk: bool)
    ensures var r := SingleVideoRun(v, courses, rows, kind, root, split, embedOk);
            |r.saves| >= 1 && r.saves[0] == Indexing
  {
  }

  /** When the call returns or raises, its status field is 'complete' or
      'failed' — never left 'indexing' — provided the video's course exists;
      it is 'failed' whenever the call raised. */
  lemma NeverLeftIndexing(v: Video, courses: seq<Course>, rows: seq<Segment>, kind: Kind,
                          root: Path, split: seq<Document> -> seq<Document>, embedOk: bool)
    requires CourseById(courses, v.courseId).Some?
    ensures var r := SingleVideoRun(v, courses, rows, kind, root, split, embedOk);
            |r.saves| >= 2 && (LastStatus(r) == Complete || LastStatus(r) == Failed)
            && (r.raised ==> LastStatus(r) == Failed)
  {
    if PlatformId(v).Some? {
      RowsRunCases(v.id, v.courseId, v.title, TranscriptStatusOf(v, kind), PlatformId(v).value,
                   courses, rows, kind, root, split, embedOk);
    }
  }

  /** A video with neither platform id fails and raises, writing nothing. */
  lemma MissingPlatformId(v: Video, courses: seq<Course>, rows: seq<Segment>, kind: Kind,
                          root: Path, split: seq<Document> -> seq<Document>, embedOk: bool)
    requires !Truthy(v.youtubeId) && !Truthy(v.vimeoId)
    ensures SingleVideoRun(v, courses, rows, kind, root, split, embedOk) == Run([Indexing, Failed], None, true)
  {
  }

  /** With no rows the index status ends 'complete' exactly when the matching
      transcript status is 'complete', else 'failed'; nothing is written and
      nothing raised. */
  lemma NoRowsOutcome(v: Video, courses: seq<Course>, rows: seq<Segment>, kind: Kind,
                      root: Path, split: seq<Document> -> seq<Document>, embedOk: bool)
    requires PlatformId(v).Some?
    requires forall s :: s in rows ==> s.videoId != v.id
    ensures var r := SingleVideoRun(v, courses, rows, kind, root, split, embedOk);
            r.written.None? && !r.raised && |r.saves| == 2
            && (LastStatus(r) == Complete <==> TranscriptStatusOf(v, kind) == Complete)
            && (LastStatus(r) != Complete ==> LastStatus(r) == Failed)
  {
  }

  /** An index is written only at `<root>/<subfolder>/<platform id>`, only
      when the status ends 'complete', and it holds the splitter's chunks of
      one document per row, in start order, tagged with the kind. */
  lemma WrittenIndex(v: Video, courses: seq<Course>, rows: seq<Segment>, kind: Kind,
                     root: Path, split: seq<Document> -> seq<Document>, embedOk: bool)
    ensures var r := SingleVideoRun(v, courses, rows, kind, root, split, embedOk);
            r.written.Some? ==>
              !r.raised && LastStatus(r) == Complete && embedOk
              && PlatformId(v).Some? && CourseById(courses, v.courseId).Some?
              && var found := RowsInStartOrder(rows, v.id);
                 var c := courses[CourseById(courses, v.courseId).value];
                 var docs := RowDocuments(found, v.title, PlatformId(v).value, c, kind);
                 found != [] && SortedBy(found, SegmentStart)
                 && r.written.value == (IndexPath(root, kind, PlatformId(v).value), Index(split(docs)))
                 && forall k :: 0 <= k < |found| ==>
                      docs[k].content == found[k].content && docs[k].meta["start_time"] == MReal(found[k].start)
                      && docs[k].meta["type"] == MText(TypeTag(kind))
  {
    if PlatformId(v).Some? {
      var pid := PlatformId(v).value;
      RowsRunCases(v.id, v.courseId, v.title, TranscriptStatusOf(v, kind), pid,
                   courses, rows, kind, root, split, embedOk);
      var found := RowsInStartOrder(rows, v.id);
      var c := CourseById(courses, v.courseId);
      StartOrderSorts(rows, v.id);
      if found != [] && c.Some? {
        DocumentsOfRows(found, v.title, pid, courses[c.value], kind);
      }
    }
  }

  /** Each row's document carries the row's text, its start and the kind's tag. */
  lemma DocumentsOfRows(found: seq<Segment>, title: string, platformId: string, c: Course, kind: Kind)
    ensures var docs := RowDocuments(found, title, platformId, c, kind);
            forall k :: 0 <= k < |found| ==>
              docs[k].content == found[k].content && docs[k].meta["start_time"] == MReal(found[k].start)
              && docs[k].meta["type"] == MText(TypeTag(kind))
  {
    var docs := RowDocuments(found, title, platformId, c, kind);
    forall k | 0 <= k < |found|
      ensures docs[k].content == found[k].content && docs[k].meta["start_time"] == MReal(found[k].start)
              && docs[k].meta["type"] == MText(TypeTag(kind))
    {
      RowDocumentMeta(found[k], title, platformId, c, kind);
    }
  }

  /** What the indexer writes for the spoken transcript is what the engine's
      transcript loader reads back. */
  lemma TranscriptIndexReadable(v: Video, courses: seq<Course>, rows: seq<Segment>, fs: Fs,
                                root: Path, split: seq<Document> -> seq<Document>, embedOk: bool)
    ensures var r := SingleVideoRun(v, courses, rows, Spoken, root, split, embedOk);
            r.written.Some? ==>
              EngineLoader.GetTranscriptVectorStore(Written(fs, r.written), root, PlatformId(v).value) == Some(r.written.value.1)
  {
    var r := SingleVideoRun(v, courses, rows, Spoken, root, split, embedOk);
    if r.written.Some? {
      WrittenIndex(v, courses, rows, Spoken, root, split, embedOk);
      EngineLoader.SavedTranscriptIndexLoads(fs, root, PlatformId(v).value, r.written.value.1);
    }
  }

  // ---------------------------------------------------------------- a course

  /** The main (spoken) run for a video and, when that did not raise, the
      on-screen-text run on the same instance. */
  function MainRun(v: Video, env: Env): Run {
    SingleVideoRun(v, env.courses, env.transcripts, Spoken, env.root, env.split, env.embedOk(v.id, Spoken))
  }

  function AfterMain(v: Video, env: Env): Video {
    WithIndexStatus(v, Spoken, LastSaved(v, Spoken, MainRun(v, env).saves))
  }

  function ScreenRun(v: Video, env: Env): Run {
    SingleVideoRun(AfterMain(v, env), env.courses, env.ocrRows, Screen, env.root, env.split, env.embedOk(v.id, Screen))
  }

  /** A course video's row after the loop body. */
  function VideoAfter(v: Video, env: Env): Video {
    var v1 := AfterMain(v, env);
    if MainRun(v, env).raised then v1
    else WithIndexStatus(v1, Screen, LastSaved(v1, Screen, ScreenRun(v, env).saves))
  }

  /** The index tree after the loop body for one course video. */
  function FsAfter(fs: Fs, v: Video, env: Env): Fs {
    var fs1 := Written(fs, MainRun(v, env).written);
    if MainRun(v, env).raised then fs1 else Written(fs1, ScreenRun(v, env).written)
  }

  function FsAfterAll(fs: Fs, videos: seq<Video>, courseId: nat, env: Env): Fs {
    if videos == [] then fs
    else
      var fs1 := FsAfterAll(fs, videos[..|videos| - 1], courseId, env);
      var v := videos[|videos| - 1];
      if v.courseId == courseId then FsAfter(fs1, v, env) else fs1
  }

  predicate InCourse(v: Video, courseId: nat) { v.courseId == courseId }

  predicate Succeeds(v: Video, courseId: nat, env: Env) { v.courseId == courseId && !MainRun(v, env).raised }

  predicate Fails(v: Video, courseId: nat, env: Env) { v.courseId == courseId && MainRun(v, env).raised }

  function CourseLog(success: nat, fail: nat): string {
    "Indexed " + NatToString(success) + " videos. Failed " + NatToString(fail) + "."
  }

  /** `perform_course_index_generation(course_id)`. A missing course is the
      outer handler's ("Error", message); a course without videos is
      ("No Videos", …); otherwise every video of the course is indexed, an
      on-screen-text failure is only logged, and the counts are reported. */
  method PerformCourseIndexGeneration(db: Db, courseId: nat, root: Path,
                                      split: seq<Document> -> seq<Document>,
                                      embedOk: (nat, Kind) -> bool)
    returns (status: string, log: string, success: nat, fail: nat)
    modifies db`videos, db`indexes
    ensures var env := Env(db.courses, db.transcripts, db.ocrRows, root, split, embedOk);
            if CourseById(db.courses, courseId).None? then
              status == "Error" && log == "Course matching query does not exist." && unchanged(db)
            else if forall j :: 0 <= j < |old(db.videos)| ==> old(db.videos)[j].courseId != courseId then
              status == "No Videos" && log == "No videos found." && unchanged(db)
            else
              status == "Generated" && log == CourseLog(success, fail)
              && success == CountWhere(old(db.videos), v => Succeeds(v, courseId, env))
              && fail == CountWhere(old(db.videos), v => Fails(v, courseId, env))
              && |db.videos| == |old(db.videos)|
              && (forall j :: 0 <= j < |db.videos| ==>
                    db.videos[j] == if old(db.videos)[j].courseId == courseId then VideoAfter(old(db.videos)[j], env) else old(db.videos)[j])
              && db.indexes == FsAfterAll(old(db.indexes), old(db.videos), courseId, env)
  {
    var c := CourseById(db.courses, courseId);
    if c.None? {
      return "Error", "Course matching query does not exist.", 0, 0;
    }
    var any := AnyInCourse(db.videos, courseId);
    if !any {
      return "No Videos", "No videos found.", 0, 0;
    }
    var env := Env(db.courses, db.transcripts, db.ocrRows, root, split, embedOk);
    success, fail := IndexCourseVideos(db, courseId, env);
    return "Generated", CourseLog(success, fail), success, fail;
  }

  /** `videos.exists()` on the course's videos. */
  method AnyInCourse(videos: seq<Video>, courseId: nat) returns (any: bool)
    ensures any <==> exists k :: 0 <= k < |videos| && videos[k].courseId == courseId
  {
    any := false;
    for j := 0 to |videos|
      invariant any <==> exists k :: 0 <= k < j && videos[k].courseId == courseId
    {
      if videos[j].courseId == courseId {
        any := true;
      }
    }
  }

  /** The `for video in videos` loop with its two counters. */
  method IndexCourseVideos(db: Db, courseId: nat, env: Env) returns (success: nat, fail: nat)
    requires env.courses == db.courses && env.transcripts == db.transcripts && env.ocrRows == db.ocrRows
    modifies db`videos, db`indexes
    ensures success == CountWhere(old(db.videos), v => Succeeds(v, courseId, env))
    ensures fail == CountWhere(old(db.videos), v => Fails(v, courseId, env))
    ensures |db.videos| == |old(db.videos)|
    ensures forall j :: 0 <= j < |db.videos| ==>
              db.videos[j] == if old(db.videos)[j].courseId == courseId then VideoAfter(old(db.videos)[j], env) else old(db.videos)[j]
    ensures db.indexes == FsAfterAll(old(db.indexes), old(db.videos), courseId, env)
  {
    success, fail := 0, 0;
    ghost var was := db.videos;
    ghost var fs0 := db.indexes;
    for j := 0 to |db.videos|
      invariant db.videos == VideosAfter(was[..j], courseId, env) + was[j..]
      invariant db.indexes == FsAfterAll(fs0, was[..j], courseId, env)
      invariant success == CountWhere(was[..j], v => Succeeds(v, courseId, env))
      invariant fail == CountWhere(was[..j], v => Fails(v, courseId, env))
    {
      success, fail := CourseVideoStep(db, courseId, env, was, fs0, j, success, fail);
    }
    assert was[..|was|] == was;
    VideosAfterAt(was, courseId, env);
  }

  /** One pass of the loop body, from the loop's state before video `j` to
      its state after it. */
  method CourseVideoStep(db: Db, courseId: nat, env: Env, ghost was: seq<Video>, ghost fs0: Fs,
                         j: nat, success0: nat, fail0: nat)
    returns (success: nat, fail: nat)
    requires j < |was|
    requires env.courses == db.courses && env.transcripts == db.transcripts && env.ocrRows == db.ocrRows
    requires db.videos == VideosAfter(was[..j], courseId, env) + was[j..]
    requires db.indexes == FsAfterAll(fs0, was[..j], courseId, env)
    requires success0 == CountWhere(was[..j], v => Succeeds(v, courseId, env))
    requires fail0 == CountWhere(was[..j], v => Fails(v, courseId, env))
    modifies db`videos, db`indexes
    ensures db.videos == VideosAfter(was[..j + 1], courseId, env) + was[j + 1..]
    ensures db.indexes == FsAfterAll(fs0, was[..j + 1], courseId, env)
    ensures success == CountWhere(was[..j + 1], v => Succeeds(v, courseId, env))
    ensures fail == CountWhere(was[..j + 1], v => Fails(v, courseId, env))
  {
    success, fail := success0, fail0;
    CourseStep(fs0, was, j, courseId, env);
    VideosAfterStep(was, j, courseId, env);
    ghost var done := VideosAfter(was[..j], courseId, env);
    assert was[j..] == [was[j]] + was[j + 1..];
    assert db.videos == done + [was[j]] + was[j + 1..];
    if db.videos[j].courseId == courseId {
      ghost var after := VideoAfter(was[j], env);
      var raised := IndexOneVideo(db, j, env);
      assert db.videos == (done + [was[j]] + was[j + 1..])[j := after];
      UpdateAfterPrefix(done, was[j], was[j + 1..], after);
      if raised {
        fail := fail + 1;
      } else {
        success := success + 1;
      }
    }
  }

  /** The video rows after the loop has passed over `videos`. */
  function VideosAfter(videos: seq<Video>, courseId: nat, env: Env): (r: seq<Video>)
    ensures |r| == |videos|
  {
    if videos == [] then []
    else
      var v := videos[|videos| - 1];
      VideosAfter(videos[..|videos| - 1], courseId, env) + [if v.courseId == courseId then VideoAfter(v, env) else v]
  }

  /** Row by row: a course video is replaced by its state after the loop
      body, every other video is left as it was. */
  lemma {:induction false} VideosAfterAt(videos: seq<Video>, courseId: nat, env: Env)
    ensures forall k :: 0 <= k < |videos| ==>
              VideosAfter(videos, courseId, env)[k] == if videos[k].courseId == courseId then VideoAfter(videos[k], env) else videos[k]
  {
    if videos != [] {
      VideosAfterAt(videos[..|videos| - 1], courseId, env);
    }
  }

  /** What one more video adds to the index tree and to the counters. */
  lemma CourseStep(fs: Fs, was: seq<Video>, j: nat, courseId: nat, env: Env)
    requires j < |was|
    ensures var v := was[j];
            FsAfterAll(fs, was[..j + 1], courseId, env)
              == (if v.courseId == courseId then FsAfter(FsAfterAll(fs, was[..j], courseId, env), v, env) else FsAfterAll(fs, was[..j], courseId, env))
    ensures CountWhere(was[..j + 1], v => Succeeds(v, courseId, env))
              == CountWhere(was[..j], v => Succeeds(v, courseId, env)) + (if Succeeds(was[j], courseId, env) then 1 else 0)
    ensures CountWhere(was[..j + 1], v => Fails(v, courseId, env))
              == CountWhere(was[..j], v => Fails(v, courseId, env)) + (if Fails(was[j], courseId, env) then 1 else 0)
  {
    assert was[..j + 1][..j] == was[..j];
  }

  /** `VideosAfter` grows by one row per video. */
  lemma VideosAfterStep(was: seq<Video>, j: nat, courseId: nat, env: Env)
    requires j < |was|
    ensures VideosAfter(was[..j + 1], courseId, env)
         == VideosAfter(was[..j], courseId, env) + [if was[j].courseId == courseId then VideoAfter(was[j], env) else was[j]]
  {
    assert was[..j + 1][..j] == was[..j];
  }

  /** The loop body for one course video: the main index, then the
      on-screen-text index with its failure swallowed. */
  method IndexOneVideo(db: Db, j: nat, env: Env) returns (raised: bool)
    requires j < |db.videos|
    requires env.courses == db.courses && env.transcripts == db.transcripts && env.ocrRows == db.ocrRows
    modifies db`videos, db`indexes
    ensures db.videos == old(db.videos)[j := VideoAfter(old(db.videos[j]), env)]
    ensures db.indexes == FsAfter(old(db.indexes), old(db.videos[j]), env)
    ensures raised == MainRun(old(db.videos[j]), env).raised
  {
    var videos := db.videos;
    var v := videos[j];
    ghost var fs0 := db.indexes;
    ghost var main := MainRun(v, env);
    var saves;
    raised, saves := CreateIndexForSingleVideo(db, j, Spoken, env.root, env.split, env.embedOk(v.id, Spoken));
    assert db.courses == env.courses && db.transcripts == env.transcripts;
    assert raised == main.raised && saves == main.saves;
    assert db.indexes == Written(fs0, main.written);
    assert db.videos == videos[j := AfterMain(v, env)];
    if !raised {
      IndexScreen(db, j, v, env);
      UpdateTwice(videos, j, AfterMain(v, env), VideoAfter(v, env));
    }
  }

  /** The on-screen-text half of the loop body, on the row the main index
      left; whether it raised is ignored. */
  method IndexScreen(db: Db, j: nat, ghost v: Video, env: Env)
    requires j < |db.videos| && db.videos[j] == AfterMain(v, env) && !MainRun(v, env).raised
    requires env.courses == db.courses && env.ocrRows == db.ocrRows
    modifies db`videos, db`indexes
    ensures db.videos == old(db.videos)[j := VideoAfter(v, env)]
    ensures db.indexes == Written(old(db.indexes), ScreenRun(v, env).written)
  {
    var mid := db.videos;
    ghost var screen := SingleVideoRun(mid[j], env.courses, env.ocrRows, Screen, env.root, env.split, env.embedOk(mid[j].id, Screen));
    var ocrRaised, ocrSaves := CreateIndexForSingleVideo(db, j, Screen, env.root, env.split, env.embedOk(mid[j].id, Screen));
    assert db.courses == env.courses && db.ocrRows == env.ocrRows;
    assert ocrSaves == screen.saves;
    assert screen == ScreenRun(v, env);
  }

  /** Every course video is counted once: the reported successes and
      failures add up to the number of the course's videos, and a video
      only fails for its main index. */
  lemma {:induction false} CountsAddUp(videos: seq<Video>, courseId: nat, env: Env)
    ensures CountWhere(videos, v => Succeeds(v, courseId, env)) + CountWhere(videos, v => Fails(v, courseId, env))
         == CountWhere(videos, v => InCourse(v, courseId))
  {
    if videos != [] {
      CountsAddUp(videos[..|videos| - 1], courseId, env);
    }
  }

  /** A failing on-screen-text index never turns a success into a failure:
      success depends only on the main run. */
  lemma ScreenFailureNotCounted(v: Video, courseId: nat, env: Env)
    requires v.courseId == courseId && !MainRun(v, env).raised && ScreenRun(v, env).raised
    ensures Succeeds(v, courseId, env) && !Fails(v, courseId, env)
  {
  }
}
