/** `VideoOCRService` (`engine/transcript_service/ocr_service/video_ocr_service.py`):
    one video's file is found or downloaded, the text read from each sampled
    frame is cleaned, consecutive near-duplicates are merged, and the video's
    `OCRTranscript` rows are replaced by the result, which is also written
    to a CSV file.

    The frame reader and the OCR engine are not part of this model: the
    (timestamp, text) pairs they produce are the parameter `frames`, `None`
    when either raises. Whether a path exists is the parameter `pathExists`, and
    `download` is the downloader's result for a URL. */
module VideoOcrService {
  import opened Common
  import opened Models
  import opened Storage
  import opened Store
  import opened Sanitize
  import opened TextProcessor
  import opened DbWriter
  import OcrDownloader

  /** One sampled frame: its timestamp and the text OCR read from it. */
  datatype Frame = Frame(timestamp: real, text: string)

  // ---------------------------------------------------------------- _consolidate_segments

  /** The entries the loop emits from the run headed by `current` onwards:
      an entry not similar to the head closes the run and heads the next. */
  function ConsolidateFrom(current: Record, rest: seq<Record>, m: Matcher): (r: seq<Record>)
    decreases |rest|
    ensures |r| >= 1 && r[0] == current
  {
    if rest == [] then [current]
    else if !IsSimilar(current.content, rest[0].content, m) then [current] + ConsolidateFrom(rest[0], rest[1..], m)
    else ConsolidateFrom(current, rest[1..], m)
  }

  /** What `_consolidate_segments` returns. */
  function Consolidation(raw: seq<Record>, m: Matcher): seq<Record> {
    if raw == [] then [] else ConsolidateFrom(raw[0], raw[1..], m)
  }

  /** `_consolidate_segments(raw_segments)`. */
  method Consolidate(raw: seq<Record>, m: Matcher) returns (consolidated: seq<Record>)
    ensures consolidated == Consolidation(raw, m)
  {
    if raw == [] {
      return [];
    }
    consolidated := [];
    var current := raw[0];
    var i := 1;
    while i < |raw|
      invariant 1 <= i <= |raw|
      invariant consolidated + ConsolidateFrom(current, raw[i..], m) == Consolidation(raw, m)
    {
      var next := raw[i];
      ghost var before := consolidated;
      ConsolidateStep(current, raw, i, m);
      if !IsSimilar(current.content, next.content, m) {
        consolidated := consolidated + [current];
        assert before + ([current] + ConsolidateFrom(next, raw[i + 1..], m))
            == consolidated + ConsolidateFrom(next, raw[i + 1..], m);
        current := next;
      }
      i := i + 1;
    }
    assert raw[i..] == [];
    consolidated := consolidated + [current];
  }

  lemma ConsolidateStep(current: Record, raw: seq<Record>, i: nat, m: Matcher)
    requires i < |raw|
    ensures ConsolidateFrom(current, raw[i..], m)
         == if !IsSimilar(current.content, raw[i].content, m) then [current] + ConsolidateFrom(raw[i], raw[i + 1..], m)
            else ConsolidateFrom(current, raw[i + 1..], m)
  {
    assert raw[i..][0] == raw[i] && raw[i..][1..] == raw[i + 1..];
  }

  lemma {:induction false} ConsolidateFromShape(current: Record, rest: seq<Record>, m: Matcher)
    ensures var r := ConsolidateFrom(current, rest, m);
            SubseqOf(r, [current] + rest)
            && forall i :: 0 <= i < |r| - 1 ==> !IsSimilar(r[i].content, r[i + 1].content, m)
    decreases |rest|
  {
    var all := [current] + rest;
    if rest != [] {
      assert all[1..] == rest;
      if !IsSimilar(current.content, rest[0].content, m) {
        ConsolidateFromShape(rest[0], rest[1..], m);
        var t := ConsolidateFrom(rest[0], rest[1..], m);
        assert rest == [rest[0]] + rest[1..];
        assert ([current] + t)[1..] == t;
        assert forall i :: 1 <= i < |t| ==> ([current] + t)[i + 1] == t[i];
      } else {
        ConsolidateFromShape(current, rest[1..], m);
        SubseqSkip(ConsolidateFrom(current, rest[1..], m), current, rest);
      }
    }
  }

  /** An element of the input that the output skips over may be left out. */
  lemma SubseqSkip(r: seq<Record>, x: Record, rest: seq<Record>)
    requires rest != [] && r != [] && r[0] == x
    requires SubseqOf(r, [x] + rest[1..])
    ensures SubseqOf(r, [x] + rest)
  {
    var a := [x] + rest[1..];
    var b := [x] + rest;
    assert a[1..] == rest[1..] && b[1..] == rest;
    assert SubseqOf(r[1..], rest[1..]) || SubseqOf(r, rest[1..]);
    if SubseqOf(r[1..], rest[1..]) {
      SubseqCons(r[1..], rest);
    } else {
      SubseqCons(r, rest);
      SubseqDrop(r, rest);
    }
  }

  lemma SubseqCons(a: seq<Record>, b: seq<Record>)
    requires b != [] && SubseqOf(a, b[1..])
    ensures SubseqOf(a, b)
  {
  }

  /** Dropping the first element of a subsequence keeps it a subsequence. */
  lemma {:induction false} SubseqDrop(a: seq<Record>, b: seq<Record>)
    requires a != [] && SubseqOf(a, b)
    ensures SubseqOf(a[1..], b)
    decreases |b|
  {
    if a[0] == b[0] && SubseqOf(a[1..], b[1..]) {
      if a[1..] != [] {
        SubseqCons(a[1..], b);
      }
    } else {
      SubseqDrop(a, b[1..]);
      if a[1..] != [] {
        SubseqCons(a[1..], b);
      }
    }
  }

  /** The consolidation of nothing is nothing; of something, a subsequence
      of the input that starts with its first entry, in which no entry is
      similar to the one before it. */
  lemma ConsolidationShape(raw: seq<Record>, m: Matcher)
    ensures raw == [] ==> Consolidation(raw, m) == []
    ensures raw != [] ==> |Consolidation(raw, m)| >= 1 && Consolidation(raw, m)[0] == raw[0]
    ensures SubseqOf(Consolidation(raw, m), raw)
    ensures var r := Consolidation(raw, m);
            forall i :: 0 <= i < |r| - 1 ==> !IsSimilar(r[i].content, r[i + 1].content, m)
  {
    if raw != [] {
      ConsolidateFromShape(raw[0], raw[1..], m);
      assert [raw[0]] + raw[1..] == raw;
    }
  }

  /** Each entry is compared with the head of its run, not with the entry
      just before it: a slow drift of text that stays similar from frame to
      frame still starts a new run once it is far enough from the head. */
  lemma HeadNotPrevious(a: Record, b: Record, c: Record, m: Matcher)
    requires IsSimilar(a.content, b.content, m) && !IsSimilar(a.content, c.content, m)
    ensures Consolidation([a, b, c], m) == [a, c]
  {
    assert [a, b, c][1..] == [b, c] && [b, c][1..] == [c] && [c][1..] == [];
    assert ConsolidateFrom(c, [], m) == [c];
    assert ConsolidateFrom(a, [c], m) == [a, c];
    assert ConsolidateFrom(a, [b, c], m) == ConsolidateFrom(a, [c], m);
  }

  // ---------------------------------------------------------------- process_video

  /** The URL `process_video` works from: the video's URL, else one built
      from its Vimeo id, else from its YouTube id. */
  function TargetUrl(v: Video): (r: string)
    ensures v.videoUrl != "" ==> r == v.videoUrl
    ensures v.videoUrl == "" && Truthy(v.vimeoId) ==> r == OcrDownloader.VimeoBase + v.vimeoId.value
    ensures v.videoUrl == "" && !Truthy(v.vimeoId) && Truthy(v.youtubeId) ==> r == OcrDownloader.YoutubeWatchBase + v.youtubeId.value
    ensures v.videoUrl == "" && !Truthy(v.vimeoId) && !Truthy(v.youtubeId) ==> r == ""
  {
    if v.videoUrl != "" then v.videoUrl
    else if Truthy(v.vimeoId) then OcrDownloader.VimeoBase + v.vimeoId.value
    else if Truthy(v.youtubeId) then OcrDownloader.YoutubeWatchBase + v.youtubeId.value
    else ""
  }

  /** A target is downloaded when it is not an existing path but mentions
      `http`, `vimeo` or `youtube`. */
  predicate LooksRemote(url: string) {
    Contains(url, "http") || Contains(url, "vimeo") || Contains(url, "youtube")
  }

  /** Where the video file comes from, and whether it is a downloaded
      temporary file (the one the `finally` clause removes). */
  datatype Resolution = Resolution(path: Option<string>, downloaded: bool)

  function Resolve(target: string, pathExists: string -> bool, download: string -> Option<string>): (r: Resolution)
    ensures r.path.Some? ==> r.path.value != "" && pathExists(r.path.value)
    ensures r.downloaded ==> target != "" && !pathExists(target) && LooksRemote(target)
  {
    if target != "" && pathExists(target) then Resolution(Some(target), false)
    else if target != "" && LooksRemote(target) then
      var p := download(target);
      var temp := p.Some? && p.value != "";
      Resolution(if temp && pathExists(p.value) then p else None, temp)
    else Resolution(None, false)
  }

  /** The text of a frame becomes a raw segment when it is not blank and its
      cleaned form is not empty. */
  predicate Admitted(text: string, printable: char -> bool) {
    Strip(text) != [] && CleanText(text, printable) != []
  }

  /** The raw segments the frame loop collects, in frame order. */
  function RawSegments(frames: seq<Frame>, printable: char -> bool): (r: seq<Record>)
    ensures |r| <= |frames|
  {
    if frames == [] then []
    else
      var f := frames[|frames| - 1];
      RawSegments(frames[..|frames| - 1], printable)
      + (if Admitted(f.text, printable) then [Record(f.timestamp, CleanText(f.text, printable))] else [])
  }

  /** The frame loop. */
  method CollectRawSegments(frames: seq<Frame>, printable: char -> bool) returns (raw: seq<Record>)
    ensures raw == RawSegments(frames, printable)
  {
    raw := [];
    var k := 0;
    while k < |frames|
      invariant k <= |frames| && raw == RawSegments(frames[..k], printable)
    {
      assert frames[..k + 1][..k] == frames[..k];
      var text := frames[k].text;
      if Strip(text) != [] {
        var cleaned := CleanText(text, printable);
        if cleaned != [] {
          raw := raw + [Record(frames[k].timestamp, cleaned)];
        }
      }
      k := k + 1;
    }
    assert frames[..k] == frames;
  }

  /** The `Strip` test is subsumed by the cleaned-text test: a frame is
      admitted exactly when its cleaned text is not empty. */
  lemma AdmittedIffCleaned(text: string, printable: char -> bool)
    ensures Admitted(text, printable) <==> CleanText(text, printable) != []
  {
    StripEmptyIffBlank(text);
    if Strip(text) == [] {
      CleanBlank(text, printable);
    }
  }

  /** Every raw segment is the non-empty cleaned text of one frame, at that
      frame's timestamp. */
  lemma {:induction false} RawSegmentsFromFrames(frames: seq<Frame>, printable: char -> bool)
    ensures forall e :: e in RawSegments(frames, printable) ==>
              e.content != [] && exists k :: 0 <= k < |frames| && frames[k].timestamp == e.start
                                               && e.content == CleanText(frames[k].text, printable)
  {
    if frames != [] {
      var init := frames[..|frames| - 1];
      RawSegmentsFromFrames(init, printable);
      forall e | e in RawSegments(init, printable)
        ensures exists k :: 0 <= k < |frames| && frames[k].timestamp == e.start
                            && e.content == CleanText(frames[k].text, printable)
      {
        var k :| 0 <= k < |init| && init[k].timestamp == e.start && e.content == CleanText(init[k].text, printable);
        assert frames[k] == init[k];
      }
    }
  }

  /** `_save_to_csv`'s file name: the Vimeo id, else the YouTube id, else
      `video_<id>`. */
  function OcrCsvName(v: Video): (r: string)
    ensures Truthy(v.vimeoId) ==> r == v.vimeoId.value + ".csv"
    ensures !Truthy(v.vimeoId) && Truthy(v.youtubeId) ==> r == v.youtubeId.value + ".csv"
    ensures !Truthy(v.vimeoId) && !Truthy(v.youtubeId) ==> r == "video_" + NatToString(v.id) + ".csv"
  {
    var platformId := if Truthy(v.vimeoId) then v.vimeoId else v.youtubeId;
    if Truthy(platformId) then platformId.value + ".csv" else "video_" + NatToString(v.id) + ".csv"
  }

  /** Two videos without platform ids never share a file name. */
  lemma OcrCsvNamesDistinct(a: Video, b: Video)
    requires !Truthy(a.vimeoId) && !Truthy(a.youtubeId) && !Truthy(b.vimeoId) && !Truthy(b.youtubeId)
    requires a.id != b.id
    ensures OcrCsvName(a) != OcrCsvName(b)
  {
    var x := NatToString(a.id);
    var y := NatToString(b.id);
    if OcrCsvName(a) == OcrCsvName(b) {
      assert |x| == |y|;
      assert x == OcrCsvName(a)[6..6 + |x|];
      assert y == OcrCsvName(b)[6..6 + |y|];
      NatToStringInjective(a.id, b.id);
    }
  }

  /** `os.path.join(os.path.join(MEDIA_ROOT, 'ocr_transcripts'),
      <sanitised course title>)`, then the file name joined to it. */
  function OcrCsvPath(mediaRoot: Path, courseTitle: string, v: Video): Path {
    PathJoin(PathJoin(mediaRoot + ["ocr_transcripts"], SanitizeFilename(courseTitle)), OcrCsvName(v))
  }

  /** `process_video(video_id)`. `ok` is its return value and `cleanedUp`
      whether the `finally` clause removed a downloaded file. The course
      lookup is `video.course`: when the course row is gone it raises, after
      the video's old rows were deleted. `_save_to_csv` runs after the rows
      are stored: `dirOk` is false when its `os.makedirs` raises, which is
      outside its own `try` and so makes the run return False with the new
      rows kept; `csvOk` is false when writing the file raises inside that
      `try`, which is only logged. */
  method ProcessVideo(db: Db, videoId: nat, pathExists: string -> bool, download: string -> Option<string>,
                      frames: Option<seq<Frame>>, printable: char -> bool, m: Matcher,
                      mediaRoot: Path, format: real -> string, dirOk: bool, csvOk: bool)
    returns (ok: bool, cleanedUp: bool)
    modifies db`ocrRows, db`files
    ensures VideoById(db.videos, videoId).None? ==>
              !ok && !cleanedUp && db.ocrRows == old(db.ocrRows) && db.files == old(db.files)
    ensures VideoById(db.videos, videoId).Some? ==>
              var v := db.videos[VideoById(db.videos, videoId).value];
              var res := Resolve(TargetUrl(v), pathExists, download);
              var course := CourseById(db.courses, v.courseId);
              cleanedUp == res.downloaded
              && if res.path.None? || frames.None? then
                   !ok && db.ocrRows == old(db.ocrRows) && db.files == old(db.files)
                 else
                   var entries := Consolidation(RawSegments(frames.value, printable), m);
                   ok == (course.Some? && dirOk)
                   && db.ocrRows == ReplaceRows(old(db.ocrRows), v.id, if course.Some? then SegmentsFor(v, entries) else [])
                   && db.files == if course.Some? && dirOk && csvOk
                                  then old(db.files)[OcrCsvPath(mediaRoot, db.courses[course.value].title, v) := CsvOf(entries, format)]
                                  else old(db.files)
  {
    ok, cleanedUp := false, false;
    var found := VideoById(db.videos, videoId);
    if found.None? {
      return;
    }
    var video := db.videos[found.value];
    var res := Resolve(TargetUrl(video), pathExists, download);
    cleanedUp := res.downloaded;
    if res.path.None? || frames.None? {
      return;
    }
    var raw := CollectRawSegments(frames.value, printable);
    var entries := Consolidate(raw, m);
    db.ocrRows := RowsNotOf(db.ocrRows, video.id);
    var course := CourseById(db.courses, video.courseId);
    if course.None? {
      assert db.ocrRows + [] == db.ocrRows;
      return;
    }
    db.ocrRows := db.ocrRows + SegmentsFor(video, entries);
    if !dirOk {
      return;
    }
    if csvOk {
      db.files := db.files[OcrCsvPath(mediaRoot, db.courses[course.value].title, video) := CsvOf(entries, format)];
    }
    ok := true;
  }

  /** What a successful run stores: the video's OCR rows are exactly one per
      consolidated entry, each holding the non-empty cleaned text of one of
      its frames at that frame's time, no row's text similar to the previous
      row's; every other video keeps its rows. */
  lemma StoredOcrRows(rows: seq<Segment>, v: Video, frames: seq<Frame>, printable: char -> bool, m: Matcher,
                      other: nat)
    ensures var entries := Consolidation(RawSegments(frames, printable), m);
            var r := ReplaceRows(rows, v.id, SegmentsFor(v, entries));
            RowsOf(r, v.id) == SegmentsFor(v, entries)
            && (other != v.id ==> RowsOf(r, other) == RowsOf(rows, other))
            && (forall i :: 0 <= i < |entries| - 1 ==> !IsSimilar(entries[i].content, entries[i + 1].content, m))
            && (forall e :: e in entries ==>
                  e.content != [] && exists k :: 0 <= k < |frames| && frames[k].timestamp == e.start
                                                 && e.content == CleanText(frames[k].text, printable))
  {
    var raw := RawSegments(frames, printable);
    var entries := Consolidation(raw, m);
    WrittenRows(rows, v, entries, other);
    ConsolidationShape(raw, m);
    SubseqElems(entries, raw);
    RawSegmentsFromFrames(frames, printable);
  }
}
