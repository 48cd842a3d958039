/** The `create_ocr_index` command
    (`core/management/commands/create_ocr_index.py`): an optional wipe of the
    OCR index tree with a status reset, then every video whose OCR
    transcript is complete and whose OCR index is not built or running is
    marked 'indexing' and gets an OCR index task. */
module CreateOcrIndex {
  import opened Common
  import opened Models
  import opened Storage
  import opened Store

  /** The wipe's status reset: `filter(ocr_transcript_status='complete').update(ocr_index_status='pending')`. */
  function WipedVideo(v: Video): Video {
    if v.ocrTranscriptStatus == Complete then v.(ocrIndexStatus := Pending) else v
  }

  /** The selection filter. */
  predicate Eligible(v: Video) {
    v.ocrTranscriptStatus == Complete
    && (v.ocrIndexStatus == NoIndex || v.ocrIndexStatus == Failed || v.ocrIndexStatus == Pending)
  }

  /** A video after the queueing loop. */
  function QueuedVideo(v: Video): Video {
    if Eligible(v) then v.(ocrIndexStatus := Indexing) else v
  }

  /** The videos the queueing loop reads: the table after the wipe's reset,
      or the table as it was. */
  function Selected(videos: seq<Video>, wipe: bool): (r: seq<Video>)
    ensures |r| == |videos|
    ensures forall k :: 0 <= k < |r| ==> r[k] == if wipe then WipedVideo(videos[k]) else videos[k]
  {
    if wipe then seq(|videos|, k requires 0 <= k < |videos| => WipedVideo(videos[k])) else videos
  }

  /** The tasks the loop enqueues, in table order. */
  function OcrTasks(videos: seq<Video>): (r: seq<Task>)
    ensures |r| <= |videos|
  {
    if videos == [] then []
    else OcrTasks(videos[..|videos| - 1]) + (if Eligible(videos[|videos| - 1]) then [OcrIndexTask(videos[|videos| - 1].id)] else [])
  }

  /** `handle(wipe=…)`. `removed` is false when `rmtree` raises; the tree is
      then left as it was (a partial removal is not modelled). */
  method Handle(db: Db, root: Path, wipe: bool, removed: bool) returns (count: nat)
    modifies db`indexes, db`videos, db`queue
    ensures var ocrRoot := root + ["ocr"];
            db.indexes == if wipe && Exists(old(db.indexes), ocrRoot) && removed
                          then RemoveTree(old(db.indexes), ocrRoot) else old(db.indexes)
    ensures |db.videos| == |old(db.videos)|
    ensures forall k :: 0 <= k < |db.videos| ==> db.videos[k] == QueuedVideo(Selected(old(db.videos), wipe)[k])
    ensures db.queue == old(db.queue) + OcrTasks(Selected(old(db.videos), wipe))
    ensures count == |OcrTasks(Selected(old(db.videos), wipe))|
  {
    var ocrRoot := root + ["ocr"];
    if wipe {
      if Exists(db.indexes, ocrRoot) && removed {
        db.indexes := RemoveTree(db.indexes, ocrRoot);
      }
      var vs := db.videos;
      db.videos := seq(|vs|, k requires 0 <= k < |vs| => WipedVideo(vs[k]));
    }
    ghost var was := db.videos;
    assert was == Selected(old(db.videos), wipe);
    count := CountWhere(db.videos, Eligible);
    TasksCounted(was);
    if count == 0 {
      NoneEligible(was);
      return;
    }
    QueueEligible(db);
  }

  /** The queueing loop over the selected videos. */
  method QueueEligible(db: Db)
    modifies db`videos, db`queue
    ensures |db.videos| == |old(db.videos)|
    ensures forall k :: 0 <= k < |db.videos| ==> db.videos[k] == QueuedVideo(old(db.videos)[k])
    ensures db.queue == old(db.queue) + OcrTasks(old(db.videos))
  {
    ghost var was := db.videos;
    ghost var q0 := db.queue;
    var j := 0;
    while j < |db.videos|
      invariant j <= |db.videos| == |was|
      invariant forall k :: 0 <= k < j ==> db.videos[k] == QueuedVideo(was[k])
      invariant forall k :: j <= k < |was| ==> db.videos[k] == was[k]
      invariant db.queue == q0 + OcrTasks(was[..j])
    {
      assert was[..j + 1][..j] == was[..j];
      var video := db.videos[j];
      if Eligible(video) {
        db.videos := db.videos[j := video.(ocrIndexStatus := Indexing)];
        db.queue := db.queue + [OcrIndexTask(video.id)];
      }
      j := j + 1;
    }
    assert was[..j] == was;
  }

  /** One task per eligible video: the count printed is the number queued. */
  lemma {:induction false} TasksCounted(videos: seq<Video>)
    ensures |OcrTasks(videos)| == CountWhere(videos, Eligible)
  {
    if videos != [] {
      TasksCounted(videos[..|videos| - 1]);
    }
  }

  lemma NoneEligible(videos: seq<Video>)
    requires CountWhere(videos, Eligible) == 0
    ensures OcrTasks(videos) == []
    ensures forall k :: 0 <= k < |videos| ==> !Eligible(videos[k])
  {
    TasksCounted(videos);
    forall k | 0 <= k < |videos|
      ensures !Eligible(videos[k])
    {
      TasksAreEligible(videos, videos[k].id);
    }
  }

  /** A task is queued for exactly the eligible videos: a video 'indexing' or
      'complete', or whose OCR transcript is not complete, never gets one. */
  lemma {:induction false} TasksAreEligible(videos: seq<Video>, id: nat)
    ensures OcrIndexTask(id) in OcrTasks(videos) <==> HasEligible(videos, id)
  {
    if videos != [] {
      var init, last := videos[..|videos| - 1], videos[|videos| - 1];
      var tail := if Eligible(last) then [OcrIndexTask(last.id)] else [];
      TasksAreEligible(init, id);
      assert OcrTasks(videos) == OcrTasks(init) + tail;
      assert OcrIndexTask(id) in OcrTasks(videos) <==> OcrIndexTask(id) in OcrTasks(init) || OcrIndexTask(id) in tail;
      HasEligibleSnoc(videos, id);
    }
  }

  /** Some video with this id is eligible. */
  predicate HasEligible(videos: seq<Video>, id: nat) {
    exists k :: 0 <= k < |videos| && videos[k].id == id && Eligible(videos[k])
  }

  lemma HasEligibleSnoc(videos: seq<Video>, id: nat)
    requires videos != []
    ensures var init, last := videos[..|videos| - 1], videos[|videos| - 1];
            HasEligible(videos, id) <==> HasEligible(init, id) || (last.id == id && Eligible(last))
  {
    var init := videos[..|videos| - 1];
    if HasEligible(init, id) {
      var k :| 0 <= k < |init| && init[k].id == id && Eligible(init[k]);
      assert videos[k] == init[k];
    }
    if HasEligible(videos, id) {
      var k :| 0 <= k < |videos| && videos[k].id == id && Eligible(videos[k]);
      if k < |init| {
        assert init[k] == videos[k];
      }
    }
  }

  /** Every queued video is left 'indexing', so running the command again
      queues none of them. */
  lemma {:induction false} RerunQueuesNothing(videos: seq<Video>)
    ensures OcrTasks(seq(|videos|, k requires 0 <= k < |videos| => QueuedVideo(videos[k]))) == []
  {
    if videos != [] {
      var init := videos[..|videos| - 1];
      RerunQueuesNothing(init);
      var all := seq(|videos|, k requires 0 <= k < |videos| => QueuedVideo(videos[k]));
      assert all[..|all| - 1] == seq(|init|, k requires 0 <= k < |init| => QueuedVideo(init[k]));
    }
  }

  /** After a wipe, every video with a complete OCR transcript is eligible. */
  lemma WipeMakesEligible(v: Video)
    requires v.ocrTranscriptStatus == Complete
    ensures Eligible(WipedVideo(v)) && QueuedVideo(WipedVideo(v)).ocrIndexStatus == Indexing
  {
  }
}
