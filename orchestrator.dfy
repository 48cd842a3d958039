/** `generate_transcript_for_video` (`engine/transcript_service/orchestrator.py`):
    the transcript comes from the platform's API or, when the provider says
    so, from Whisper on downloaded audio; it is saved, and the video's status
    ends 'complete' (its index reset to 'none') or 'failed'. The provider,
    the download and the transcription are outcomes passed in. */
module Orchestrator {
  import opened Common
  import opened Models
  import opened Storage
  import opened Store
  import opened DbWriter

  /** What `get_api_transcript` returned: `(data, False)` or `(None, True)`. */
  datatype Provided = ApiData(data: seq<Record>) | UseWhisper

  /** The provider's own contract: only a video with a YouTube id can get its
      transcript from an API; every other video goes to Whisper. */
  predicate ProviderContract(v: Video, p: Provided) {
    !Truthy(v.youtubeId) ==> p == UseWhisper
  }

  /** Steps 1 and 2: the transcript data, or `None` when a step raised (the
      download returned no path, or Whisper returned no segments). */
  function TranscriptData(provided: Provided, downloaded: bool, whisper: seq<Record>): (r: Option<seq<Record>>)
    ensures provided.ApiData? ==> r == Some(provided.data)
    ensures provided.UseWhisper? ==> (r.Some? <==> downloaded && whisper != [])
    ensures provided.UseWhisper? && r.Some? ==> r.value == whisper
  {
    match provided
    case ApiData(d) => Some(d)
    case UseWhisper => if !downloaded then None else if whisper == [] then None else Some(whisper)
  }

  /** The video row after the run, given whether everything up to the final
      save succeeded. */
  function FinalVideo(v: Video, succeeded: bool): Video {
    if succeeded then v.(transcriptStatus := Complete, indexStatus := NoIndex)
    else v.(transcriptStatus := Failed)
  }

  /** The pipeline. `status` is "Generated" or "Error"; `cleaned` says the
      temporary audio file was removed in the `finally` block. */
  method GenerateTranscriptForVideo(db: Db, videoId: nat, provided: Provided, downloaded: bool,
                                    whisper: seq<Record>, mediaRoot: Path, format: real -> string,
                                    csvOk: bool, dbOk: bool)
    returns (status: string, cleaned: bool)
    modifies db`videos, db`transcripts, db`files
    ensures cleaned <==> VideoById(old(db.videos), videoId).Some? && provided.UseWhisper? && downloaded
    ensures VideoById(old(db.videos), videoId).None? ==>
              status == "Error" && db.videos == old(db.videos) && db.transcripts == old(db.transcripts) && db.files == old(db.files)
    ensures VideoById(old(db.videos), videoId).Some? ==>
              var i := VideoById(old(db.videos), videoId).value;
              var v := old(db.videos)[i];
              var data := TranscriptData(provided, downloaded, whisper);
              var saved := data.Some? && data.value != [] && PlatformId(v).Some?;
              var succeeded := saved && Inserts(db.courses, v, dbOk);
              (status == "Generated" <==> succeeded) && (status == "Generated" || status == "Error")
              && db.videos == old(db.videos)[i := FinalVideo(v, succeeded)]
              && (saved ==> db.transcripts == ReplaceRows(old(db.transcripts), v.id,
                                                          if succeeded then SegmentsFor(v, data.value) else [])
                            && db.files == CsvStep(old(db.files), db.courses, v, PlatformId(v).value, data.value, mediaRoot, format, csvOk))
              && (!saved ==> db.transcripts == old(db.transcripts) && db.files == old(db.files))
  {
    cleaned := false;
    var i := VideoById(db.videos, videoId);
    if i.None? {
      return "Error", false;
    }
    var video := db.videos[i.value];
    var audioPath := false;
    var transcriptData: Option<seq<Record>> := None;
    var failed := false;
    match provided {
      case ApiData(d) =>
        transcriptData := Some(d);
      case UseWhisper =>
        audioPath := downloaded;
        if audioPath {
          if whisper != [] {
            transcriptData := Some(whisper);
          } else {
            failed := true;
          }
        } else {
          failed := true;
        }
    }
    if !failed && transcriptData.Some? && transcriptData.value != [] {
      var raised := SaveAndPopulateTranscript(db, i.value, transcriptData.value, mediaRoot, format, csvOk, dbOk);
      failed := raised;
    } else {
      failed := true;
    }
    if failed {
      db.videos := db.videos[i.value := video.(transcriptStatus := Failed)];
      status := "Error";
    } else {
      db.videos := db.videos[i.value := video.(transcriptStatus := Complete, indexStatus := NoIndex)];
      status := "Generated";
    }
    if audioPath {
      cleaned := true;
    }
  }

  /** Whisper is used only when the provider asks for it: API data is saved
      as it came, whatever the download and the transcription would give. */
  lemma WhisperOnlyWhenAsked(data: seq<Record>, downloaded: bool, whisper: seq<Record>)
    ensures TranscriptData(ApiData(data), downloaded, whisper) == Some(data)
  {
  }

  /** A Vimeo-only video is always transcribed by Whisper: under the
      provider's contract its data is the Whisper segments or nothing. */
  lemma VimeoGoesToWhisper(v: Video, p: Provided, downloaded: bool, whisper: seq<Record>)
    requires ProviderContract(v, p) && !Truthy(v.youtubeId)
    ensures var d := TranscriptData(p, downloaded, whisper);
            d.Some? ==> d.value == whisper && downloaded
  {
  }

  /** The run ends in exactly one of the two final states: 'complete' with
      the index reset to 'none', or 'failed' with the index untouched. */
  lemma FinalStates(v: Video, succeeded: bool)
    ensures var w := FinalVideo(v, succeeded);
            (succeeded ==> w.transcriptStatus == Complete && w.indexStatus == NoIndex)
            && (!succeeded ==> w.transcriptStatus == Failed && w.indexStatus == v.indexStatus)
            && w.id == v.id && w.youtubeId == v.youtubeId && w.vimeoId == v.vimeoId && w.courseId == v.courseId
            && w.ocrTranscriptStatus == v.ocrTranscriptStatus && w.ocrIndexStatus == v.ocrIndexStatus
  {
  }
}
