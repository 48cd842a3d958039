/** The engine's background tasks (`engine/tasks.py`): two wrappers that run
    a job and log its result, and the notes-index task that marks a user's
    notes on a video 'processing', rebuilds the index and marks them
    'complete'. The rebuild itself (`engine/rag/index_notes.py`) is not part
    of this model: whether it succeeds is the parameter `rebuildOk`. */
module Tasks {
  import opened Common
  import opened Models
  import opened Storage
  import opened Store
  import Indexer
  import Orchestrator
  import DbWriter

  datatype Level = Info | Error

  /** Both wrappers log at error level exactly for the status "Error". */
  function WrapperLevel(status: string): (r: Level)
    ensures r == Error <==> status == "Error"
  {
    if status == "Error" then Error else Info
  }

  /** `task_generate_index(course_id)`: only a missing course is logged as
      a failure; a course without videos is not. */
  method TaskGenerateIndex(db: Db, courseId: nat, root: Path, split: seq<Document> -> seq<Document>,
                           embedOk: (nat, Kind) -> bool)
    returns (level: Level)
    modifies db`videos, db`indexes
    ensures level == Error <==> CourseById(db.courses, courseId).None?
  {
    var status, log, success, fail := Indexer.PerformCourseIndexGeneration(db, courseId, root, split, embedOk);
    level := WrapperLevel(status);
  }

  /** `task_generate_transcript(video_id)`: a failure is logged, never
      raised. The task imports `_perform_transcript_generation` from
      `engine/transcript_service.py`, which is not part of this model; the
      model runs the orchestrator's `generate_transcript_for_video` in its
      place, which returns the same "Error"/"Generated" results and sets the
      same failed/complete statuses. */
  method TaskGenerateTranscript(db: Db, videoId: nat, provided: Orchestrator.Provided, downloaded: bool,
                                whisper: seq<DbWriter.Record>, mediaRoot: Path, format: real -> string,
                                csvOk: bool, dbOk: bool)
    returns (level: Level)
    modifies db`videos, db`transcripts, db`files
    ensures |db.videos| == |old(db.videos)|
    ensures VideoById(old(db.videos), videoId).None? ==> level == Error
    ensures VideoById(old(db.videos), videoId).Some? ==>
              (level == Info <==> db.videos[VideoById(old(db.videos), videoId).value].transcriptStatus == Complete)
  {
    var status, cleaned := Orchestrator.GenerateTranscriptForVideo(db, videoId, provided, downloaded, whisper,
                                                                  mediaRoot, format, csvOk, dbOk);
    level := WrapperLevel(status);
  }

  // ---------------------------------------------------------------- notes index

  /** How `task_update_note_index` ended, by the handler that logged it. */
  datatype NoteTaskEnd = Done | VideoMissing | UserMissing | FailedLogged

  predicate OfUserAndVideo(n: Note, userId: nat, videoId: nat) { n.userId == userId && n.videoId == videoId }

  /** `Note.objects.filter(user=…, video=…[, index_status=from]).update(index_status=to)`:
      the update's own filter on the status, when given, is `from`. */
  function MarkNotes(notes: seq<Note>, userId: nat, videoId: nat, from: Option<Status>, to: Status): (r: seq<Note>)
    ensures |r| == |notes|
  {
    seq(|notes|, k requires 0 <= k < |notes| =>
      if OfUserAndVideo(notes[k], userId, videoId) && (from.None? || notes[k].indexStatus == from.value)
      then notes[k].(indexStatus := to) else notes[k])
  }

  /** The update reaches exactly the user's notes on the video (with the
      given status, if one is filtered on): they take the new status and
      nothing else of them changes; every other note is untouched. */
  lemma MarkNotesExactly(notes: seq<Note>, userId: nat, videoId: nat, from: Option<Status>, to: Status)
    ensures var r := MarkNotes(notes, userId, videoId, from, to);
            forall k :: 0 <= k < |notes| ==>
              (if OfUserAndVideo(notes[k], userId, videoId) && (from.None? || notes[k].indexStatus == from.value)
               then r[k].indexStatus == to && r[k] == notes[k].(indexStatus := r[k].indexStatus)
               else r[k] == notes[k])
  {
  }

  /** Where the video lookup of the background job lands. */
  function TaskVideo(videos: seq<Video>, platformId: string): Lookup {
    GetVideoByPlatform(videos, platformId)
  }

  /** `task_update_note_index(user_id, video_id)` as written: on a rebuild
      failure the reset to 'failed' is `Note.objects,filter(…)`, a tuple
      whose second part calls the built-in `filter` with keyword arguments;
      that raises, is caught and logged, and the notes stay 'processing'. */
  method TaskUpdateNoteIndexAsWritten(db: Db, userId: nat, platformId: string, rebuildOk: bool)
    returns (end: NoteTaskEnd)
    modifies db`notes
    ensures userId !in db.users ==> end == UserMissing && db.notes == old(db.notes)
    ensures userId in db.users && TaskVideo(db.videos, platformId).NotFound? ==> end == VideoMissing && db.notes == old(db.notes)
    ensures userId in db.users && TaskVideo(db.videos, platformId).Multiple? ==> end == FailedLogged && db.notes == old(db.notes)
    ensures userId in db.users && TaskVideo(db.videos, platformId).Found? ==>
              var v := db.videos[TaskVideo(db.videos, platformId).index];
              (end == Done <==> rebuildOk) && (end == Done || end == FailedLogged)
              && db.notes == MarkNotes(old(db.notes), userId, v.id, None, if rebuildOk then Complete else Processing)
  {
    if userId !in db.users {
      return UserMissing;
    }
    var found := TaskVideo(db.videos, platformId);
    if found.NotFound? {
      return VideoMissing;
    }
    if found.Multiple? {
      return FailedLogged;
    }
    var video := db.videos[found.index];
    db.notes := MarkNotes(db.notes, userId, video.id, None, Processing);
    if !rebuildOk {
      // The reset statement raises before any update is made.
      return FailedLogged;
    }
    MarkTwice(old(db.notes), userId, video.id, Processing, Complete);
    db.notes := MarkNotes(db.notes, userId, video.id, None, Complete);
    return Done;
  }

  /** The job as evidently intended: the failure handler resets the notes
      still 'processing' to 'failed'. */
  method TaskUpdateNoteIndex(db: Db, userId: nat, platformId: string, rebuildOk: bool)
    returns (end: NoteTaskEnd)
    modifies db`notes
    ensures userId !in db.users ==> end == UserMissing && db.notes == old(db.notes)
    ensures userId in db.users && TaskVideo(db.videos, platformId).NotFound? ==> end == VideoMissing && db.notes == old(db.notes)
    ensures userId in db.users && TaskVideo(db.videos, platformId).Multiple? ==> end == FailedLogged && db.notes == old(db.notes)
    ensures userId in db.users && TaskVideo(db.videos, platformId).Found? ==>
              var v := db.videos[TaskVideo(db.videos, platformId).index];
              (end == Done <==> rebuildOk) && (end == Done || end == FailedLogged)
              && db.notes == MarkNotes(old(db.notes), userId, v.id, None, if rebuildOk then Complete else Failed)
  {
    if userId !in db.users {
      return UserMissing;
    }
    var found := TaskVideo(db.videos, platformId);
    if found.NotFound? {
      return VideoMissing;
    }
    if found.Multiple? {
      return FailedLogged;
    }
    var video := db.videos[found.index];
    db.notes := MarkNotes(db.notes, userId, video.id, None, Processing);
    if !rebuildOk {
      MarkProcessingThenFailed(old(db.notes), userId, video.id);
      db.notes := MarkNotes(db.notes, userId, video.id, Some(Processing), Failed);
      return FailedLogged;
    }
    MarkTwice(old(db.notes), userId, video.id, Processing, Complete);
    db.notes := MarkNotes(db.notes, userId, video.id, None, Complete);
    return Done;
  }

  /** A second update of the same notes overwrites the first. */
  lemma MarkTwice(notes: seq<Note>, userId: nat, videoId: nat, s: Status, t: Status)
    ensures MarkNotes(MarkNotes(notes, userId, videoId, None, s), userId, videoId, None, t)
         == MarkNotes(notes, userId, videoId, None, t)
  {
  }

  /** The intended reset reaches every note the job marked. */
  lemma MarkProcessingThenFailed(notes: seq<Note>, userId: nat, videoId: nat)
    ensures MarkNotes(MarkNotes(notes, userId, videoId, None, Processing), userId, videoId, Some(Processing), Failed)
         == MarkNotes(notes, userId, videoId, None, Failed)
  {
  }

  /** As written, a failed rebuild leaves every one of the user's notes on
      the video 'processing'; as intended, none of them is. */
  lemma NotesStuckProcessing(notes: seq<Note>, userId: nat, videoId: nat)
    ensures var stuck := MarkNotes(notes, userId, videoId, None, Processing);
            var intended := MarkNotes(notes, userId, videoId, None, Failed);
            forall k :: 0 <= k < |notes| && OfUserAndVideo(notes[k], userId, videoId) ==>
              stuck[k].indexStatus == Processing && intended[k].indexStatus == Failed
  {
  }
}
