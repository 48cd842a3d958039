/** The `run_ocr` command (`core/management/commands/run_ocr.py`): the
    videos matching an identifier, or else the OCR queue, are marked
    'processing' one at a time and the OCR service is run on each; success
    completes the OCR transcript and queues the OCR index, anything else
    marks the transcript failed.

    The service's own writes (the OCR rows and the CSV) are modelled by
    `VideoOcrService.ProcessVideo`; here only its outcome for each video id
    is a parameter, and what it writes is not stated. */
module RunOcr {
  import opened Common
  import opened Models
  import opened Store
  import CreateOcrIndex

  /** What `service.process_video(video.id)` did: returned true, returned
      false, or raised. */
  datatype ServiceOutcome = Succeeded | ReturnedFalse | Crashed

  /** How `handle` ended. */
  datatype Summary = NoMatch | NothingQueued | Processed(count: nat)

  /** The identifier argument, when Python treats it as given. */
  predicate HasIdentifier(identifier: Option<string>) {
    identifier.Some? && identifier.value != ""
  }

  /** `Q(vimeo_id=x) | Q(youtube_id=x)`. */
  predicate Matches(v: Video, x: string) {
    v.vimeoId == Some(x) || v.youtubeId == Some(x)
  }

  /** The queryset the loop runs over. */
  predicate Selected(v: Video, identifier: Option<string>, force: bool) {
    if HasIdentifier(identifier) then Matches(v, identifier.value)
    else force || v.ocrTranscriptStatus == Pending || v.ocrTranscriptStatus == Failed
  }

  /** A video after its turn in the loop. */
  function AfterRun(v: Video, outcome: ServiceOutcome): Video {
    if outcome == Succeeded then v.(ocrTranscriptStatus := Complete, ocrIndexStatus := Pending)
    else v.(ocrTranscriptStatus := Failed)
  }

  /** A row of the table after `handle`. */
  function RunRow(v: Video, identifier: Option<string>, force: bool, outcome: nat -> ServiceOutcome): Video {
    if Selected(v, identifier, force) then AfterRun(v, outcome(v.id)) else v
  }

  /** `handle(video_identifier, force=…)`. The service replaces the OCR
      rows and CSV files of each video it processes, so the frame includes
      them; their new contents are not stated here. */
  method Handle(db: Db, identifier: Option<string>, force: bool, outcome: nat -> ServiceOutcome)
    returns (r: Summary)
    modifies db`videos, db`ocrRows, db`files
    ensures var found := CountWhere(old(db.videos), (v: Video) => Selected(v, identifier, force));
            (r == NoMatch <==> found == 0 && HasIdentifier(identifier))
            && (r == NothingQueued <==> found == 0 && !HasIdentifier(identifier))
            && (r.Processed? ==> r.count == found)
    ensures |db.videos| == |old(db.videos)|
    ensures forall k :: 0 <= k < |db.videos| ==> db.videos[k] == RunRow(old(db.videos)[k], identifier, force, outcome)
  {
    var found := CountWhere(db.videos, (v: Video) => Selected(v, identifier, force));
    if found == 0 {
      NoneSelected(db.videos, identifier, force, outcome);
      r := if HasIdentifier(identifier) then NoMatch else NothingQueued;
      return;
    }
    ghost var was := db.videos;
    var j := 0;
    while j < |db.videos|
      invariant j <= |db.videos| == |was|
      invariant forall k :: 0 <= k < j ==> db.videos[k] == RunRow(was[k], identifier, force, outcome)
      invariant forall k :: j <= k < |was| ==> db.videos[k] == was[k]
    {
      if Selected(db.videos[j], identifier, force) {
        MarkProcessing(db, j);
        Finish(db, j, outcome(db.videos[j].id));
      }
      j := j + 1;
    }
    r := Processed(found);
  }

  /** `video.ocr_transcript_status = 'processing'; video.save(…)`: the row
      is 'processing' while the service runs. */
  method MarkProcessing(db: Db, j: nat)
    requires j < |db.videos|
    modifies db`videos
    ensures db.videos == old(db.videos)[j := old(db.videos)[j].(ocrTranscriptStatus := Processing)]
    ensures db.videos[j].ocrTranscriptStatus == Processing
  {
    db.videos := db.videos[j := db.videos[j].(ocrTranscriptStatus := Processing)];
  }

  /** The writes after the service returned or raised. */
  method Finish(db: Db, j: nat, outcome: ServiceOutcome)
    requires j < |db.videos|
    modifies db`videos
    ensures db.videos == old(db.videos)[j := AfterRun(old(db.videos)[j], outcome)]
  {
    var video := db.videos[j];
    match outcome {
      case Succeeded =>
        video := video.(ocrTranscriptStatus := Complete, ocrIndexStatus := Pending);
      case ReturnedFalse =>
        video := video.(ocrTranscriptStatus := Failed);
      case Crashed =>
        video := video.(ocrTranscriptStatus := Failed);
    }
    db.videos := db.videos[j := video];
  }

  lemma {:induction false} NoneSelected(videos: seq<Video>, identifier: Option<string>, force: bool,
                                        outcome: nat -> ServiceOutcome)
    requires CountWhere(videos, (v: Video) => Selected(v, identifier, force)) == 0
    ensures forall k :: 0 <= k < |videos| ==> RunRow(videos[k], identifier, force, outcome) == videos[k]
  {
    if videos != [] {
      NoneSelected(videos[..|videos| - 1], identifier, force, outcome);
      forall k | 0 <= k < |videos| - 1
        ensures RunRow(videos[k], identifier, force, outcome) == videos[k]
      {
        assert videos[k] == videos[..|videos| - 1][k];
      }
    }
  }

  /** A success completes the OCR transcript and leaves the video eligible
      for the OCR index; a failure or a crash marks the transcript failed and
      leaves the OCR index status as it was. No other field changes. */
  lemma OutcomeEffects(v: Video, outcome: ServiceOutcome)
    ensures var w := AfterRun(v, outcome);
            w.(ocrTranscriptStatus := v.ocrTranscriptStatus, ocrIndexStatus := v.ocrIndexStatus) == v
    ensures outcome == Succeeded ==>
              AfterRun(v, outcome).ocrTranscriptStatus == Complete && CreateOcrIndex.Eligible(AfterRun(v, outcome))
    ensures outcome != Succeeded ==>
              AfterRun(v, outcome).ocrTranscriptStatus == Failed && AfterRun(v, outcome).ocrIndexStatus == v.ocrIndexStatus
  {
  }

  /** Without an identifier or `--force`, a second run retries exactly the
      videos that did not succeed. */
  lemma RetryOnlyFailures(v: Video, outcome: nat -> ServiceOutcome)
    requires Selected(v, None, false)
    ensures Selected(RunRow(v, None, false, outcome), None, false) <==> outcome(v.id) != Succeeded
  {
  }

  /** An identifier selects the videos carrying it, whatever their status;
      `--force` alone selects every video. */
  lemma SelectionModes(v: Video, x: string)
    requires x != ""
    ensures Selected(v, Some(x), false) == Selected(v, Some(x), true) == Matches(v, x)
    ensures Selected(v, None, true) && Selected(v, Some(""), true)
  {
  }
}
