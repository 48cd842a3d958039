/** The `generate_transcripts` command
    (`core/management/commands/generate_transcripts.py`): the selected videos
    are locked one at a time, skipped when already 'processing', else marked
    'processing' and given a transcript task.

    The row lock re-reads the row. Another worker may have marked a selected
    video 'processing' between the selection and the lock: `running` is the
    set of such video ids, the one outside write this model admits. */
module GenerateTranscripts {
  import opened Common
  import opened Models
  import opened Store

  /** The selection: the course filter (when given), then pending|failed,
      or complete|failed under `--force`. */
  predicate Selected(v: Video, course: Option<nat>, force: bool) {
    (course.None? || v.courseId == course.value)
    && if force then v.transcriptStatus == Complete || v.transcriptStatus == Failed
       else v.transcriptStatus == Pending || v.transcriptStatus == Failed
  }

  /** A selected row ends 'processing' whatever happens at the lock: either
      the other worker set it, or this command did (and kept it, even when
      enqueueing then raised). */
  function AfterLock(v: Video, course: Option<nat>, force: bool): Video {
    if Selected(v, course, force) then v.(transcriptStatus := Processing) else v
  }

  /** A task is enqueued for a selected video not running elsewhere whose
      `async_task` call does not raise. */
  predicate Queues(v: Video, course: Option<nat>, force: bool, running: set<nat>, enqueueOk: nat -> bool) {
    Selected(v, course, force) && v.id !in running && enqueueOk(v.id)
  }

  function Tasks(videos: seq<Video>, course: Option<nat>, force: bool, running: set<nat>,
                 enqueueOk: nat -> bool): (r: seq<Task>)
    ensures |r| <= |videos|
  {
    if videos == [] then []
    else Tasks(videos[..|videos| - 1], course, force, running, enqueueOk)
         + (if Queues(videos[|videos| - 1], course, force, running, enqueueOk)
            then [TranscriptTask(videos[|videos| - 1].id)] else [])
  }

  /** The course filter `handle` resolves from `--course_id`: `None` for all
      courses, or the outcome of `Course.objects.get`. */
  function CourseFilter(courses: seq<Course>, courseId: Option<int>): Option<Option<nat>> {
    if courseId.None? || courseId.value == 0 then Some(None)
    else if courseId.value < 0 || CourseById(courses, courseId.value).None? then None
    else Some(Some(courseId.value))
  }

  /** `handle(course_id=…, force=…)`. `aborted` when the course is unknown. */
  method Handle(db: Db, courseId: Option<int>, force: bool, running: set<nat>, enqueueOk: nat -> bool)
    returns (aborted: bool, found: nat, queued: nat, skipped: nat)
    modifies db`videos, db`queue
    ensures aborted <==> CourseFilter(db.courses, courseId).None?
    ensures aborted ==> db.videos == old(db.videos) && db.queue == old(db.queue)
    ensures !aborted ==>
              var c := CourseFilter(db.courses, courseId).value;
              |db.videos| == |old(db.videos)|
              && (forall k :: 0 <= k < |db.videos| ==> db.videos[k] == AfterLock(old(db.videos)[k], c, force))
              && db.queue == old(db.queue) + Tasks(old(db.videos), c, force, running, enqueueOk)
              && found == CountWhere(old(db.videos), (v: Video) => Selected(v, c, force))
              && queued == |Tasks(old(db.videos), c, force, running, enqueueOk)|
              && skipped == CountWhere(old(db.videos), (v: Video) => Selected(v, c, force) && v.id in running)
  {
    var filter := CourseFilter(db.courses, courseId);
    if filter.None? {
      return true, 0, 0, 0;
    }
    aborted, queued, skipped := false, 0, 0;
    var c := filter.value;
    found := CountWhere(db.videos, (v: Video) => Selected(v, c, force));
    if found == 0 {
      NothingSelected(db.videos, c, force, running, enqueueOk);
      return;
    }
    queued, skipped := LockAndQueue(db, c, force, running, enqueueOk);
  }

  /** The loop over the selected videos. */
  method LockAndQueue(db: Db, c: Option<nat>, force: bool, running: set<nat>, enqueueOk: nat -> bool)
    returns (queued: nat, skipped: nat)
    modifies db`videos, db`queue
    ensures |db.videos| == |old(db.videos)|
    ensures forall k :: 0 <= k < |db.videos| ==> db.videos[k] == AfterLock(old(db.videos)[k], c, force)
    ensures db.queue == old(db.queue) + Tasks(old(db.videos), c, force, running, enqueueOk)
    ensures queued == |Tasks(old(db.videos), c, force, running, enqueueOk)|
    ensures skipped == CountWhere(old(db.videos), (v: Video) => Selected(v, c, force) && v.id in running)
  {
    ghost var was := db.videos;
    ghost var q0 := db.queue;
    queued, skipped := 0, 0;
    var j := 0;
    while j < |db.videos|
      invariant j <= |db.videos| == |was|
      invariant LoopState(db.videos, db.queue, was, q0, j, queued, skipped, c, force, running, enqueueOk)
    {
      queued, skipped := LockStep(db, was, q0, j, queued, skipped, c, force, running, enqueueOk);
      j := j + 1;
    }
    assert was[..j] == was;
  }

  /** The loop's invariant after `j` videos. */
  ghost predicate LoopState(videos: seq<Video>, queue: seq<Task>, was: seq<Video>, q0: seq<Task>, j: nat,
                            queued: nat, skipped: nat, c: Option<nat>, force: bool, running: set<nat>,
                            enqueueOk: nat -> bool)
  {
    j <= |was| && |videos| == |was|
    && (forall k :: 0 <= k < j ==> videos[k] == AfterLock(was[k], c, force))
    && (forall k :: j <= k < |was| ==> videos[k] == was[k])
    && queue == q0 + Tasks(was[..j], c, force, running, enqueueOk)
    && queued == |Tasks(was[..j], c, force, running, enqueueOk)|
    && skipped == CountWhere(was[..j], (v: Video) => Selected(v, c, force) && v.id in running)
  }

  method LockStep(db: Db, ghost was: seq<Video>, ghost q0: seq<Task>, j: nat, queued: nat, skipped: nat,
                  c: Option<nat>, force: bool, running: set<nat>, enqueueOk: nat -> bool)
    returns (queued': nat, skipped': nat)
    requires j < |was|
    requires LoopState(db.videos, db.queue, was, q0, j, queued, skipped, c, force, running, enqueueOk)
    modifies db`videos, db`queue
    ensures LoopState(db.videos, db.queue, was, q0, j + 1, queued', skipped', c, force, running, enqueueOk)
  {
    assert was[..j + 1][..j] == was[..j];
    var q, s := LockOne(db, j, c, force, running, enqueueOk);
    queued' := if q then queued + 1 else queued;
    skipped' := if s then skipped + 1 else skipped;
  }

  /** One iteration: the row lock, the status write and the enqueue. */
  method LockOne(db: Db, j: nat, c: Option<nat>, force: bool, running: set<nat>, enqueueOk: nat -> bool)
    returns (q: bool, s: bool)
    requires j < |db.videos|
    modifies db`videos, db`queue
    ensures var v := old(db.videos)[j];
            db.videos == old(db.videos)[j := AfterLock(v, c, force)]
            && q == Queues(v, c, force, running, enqueueOk)
            && s == (Selected(v, c, force) && v.id in running)
            && db.queue == old(db.queue) + (if q then [TranscriptTask(v.id)] else [])
  {
    q, s := false, false;
    var video := db.videos[j];
    if Selected(video, c, force) {
      var lockedStatus := if video.id in running then Processing else video.transcriptStatus;
      db.videos := db.videos[j := video.(transcriptStatus := Processing)];
      if lockedStatus == Processing {
        s := true;
      } else if enqueueOk(video.id) {
        db.queue := db.queue + [TranscriptTask(video.id)];
        q := true;
      }
    }
  }

  lemma {:induction false} NothingSelected(videos: seq<Video>, c: Option<nat>, force: bool, running: set<nat>,
                                           enqueueOk: nat -> bool)
    requires CountWhere(videos, (v: Video) => Selected(v, c, force)) == 0
    ensures Tasks(videos, c, force, running, enqueueOk) == []
    ensures CountWhere(videos, (v: Video) => Selected(v, c, force) && v.id in running) == 0
    ensures forall k :: 0 <= k < |videos| ==> AfterLock(videos[k], c, force) == videos[k]
  {
    if videos != [] {
      NothingSelected(videos[..|videos| - 1], c, force, running, enqueueOk);
      forall k | 0 <= k < |videos| - 1
        ensures AfterLock(videos[k], c, force) == videos[k]
      {
        assert videos[k] == videos[..|videos| - 1][k];
      }
    }
  }

  /** Queued and skipped videos are disjoint kinds of selected ones, so
      together they never exceed the number found; they fall short by the
      videos whose enqueueing raised. */
  lemma {:induction false} CountsBounded(videos: seq<Video>, c: Option<nat>, force: bool, running: set<nat>,
                                         enqueueOk: nat -> bool)
    ensures |Tasks(videos, c, force, running, enqueueOk)|
            + CountWhere(videos, (v: Video) => Selected(v, c, force) && v.id in running)
            + CountWhere(videos, (v: Video) => Selected(v, c, force) && v.id !in running && !enqueueOk(v.id))
            == CountWhere(videos, (v: Video) => Selected(v, c, force))
  {
    if videos != [] {
      CountsBounded(videos[..|videos| - 1], c, force, running, enqueueOk);
    }
  }

  /** `--force` never selects a pending video, and neither mode selects one
      already 'processing'. */
  lemma SelectionByMode(v: Video, c: Option<nat>)
    ensures v.transcriptStatus == Pending ==> !Selected(v, c, true)
    ensures v.transcriptStatus == Processing ==> !Selected(v, c, true) && !Selected(v, c, false)
    ensures v.transcriptStatus == Failed && (c.None? || v.courseId == c.value) ==> Selected(v, c, true) && Selected(v, c, false)
  {
  }
}
