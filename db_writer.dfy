/** `save_and_populate_transcript` (`engine/transcript_service/db_writer.py`):
    a transcript's records are written to a CSV file under the media root
    (a failure there is only logged), then the video's `Transcript` rows are
    replaced by one row per record, or only removed when building or
    inserting the new rows raises. */
module DbWriter {
  import opened Common
  import opened Models
  import opened Storage
  import opened Store
  import opened Sanitize

  /** One `{'start': …, 'content': …}` record. */
  datatype Record = Record(start: real, content: string)

  /** `os.path.join(MEDIA_ROOT, 'transcripts', <sanitised course title>,
      <platform id>.csv)`. */
  function TranscriptCsvPath(mediaRoot: Path, courseTitle: string, platformId: string): Path {
    PathJoin(PathJoin(mediaRoot + ["transcripts"], SanitizeFilename(courseTitle)), platformId + ".csv")
  }

  /** The file `to_csv` writes: the header, then start and content of each
      record; `format` is how pandas prints a float. */
  function CsvOf(data: seq<Record>, format: real -> string): (r: Csv)
    ensures |r| == |data| + 1 && r[0] == ["start", "content"]
    ensures forall k :: 0 <= k < |data| ==> r[k + 1] == [format(data[k].start), data[k].content]
  {
    if data == [] then [["start", "content"]]
    else CsvOf(data[..|data| - 1], format) + [[format(data[|data| - 1].start), data[|data| - 1].content]]
  }

  /** The rows the list comprehension builds, one per record, in order. */
  function SegmentsFor(v: Video, data: seq<Record>): (r: seq<Segment>)
    ensures |r| == |data|
    ensures forall k :: 0 <= k < |data| ==> r[k] == SegmentFor(v, data[k].start, data[k].content)
  {
    if data == [] then []
    else SegmentsFor(v, data[..|data| - 1]) + [SegmentFor(v, data[|data| - 1].start, data[|data| - 1].content)]
  }

  /** The CSV step: `video.course.title` raises when the course is gone, and
      `csvOk` is false when writing the file raises; either way the files are
      left as they were. */
  function CsvStep(files: map<Path, Csv>, courses: seq<Course>, v: Video, platformId: string,
                   data: seq<Record>, mediaRoot: Path, format: real -> string, csvOk: bool): map<Path, Csv>
  {
    match CourseById(courses, v.courseId)
    case None => files
    case Some(c) =>
      if csvOk then files[TranscriptCsvPath(mediaRoot, courses[c].title, platformId) := CsvOf(data, format)]
      else files
  }

  /** Whether the new rows reach the table: building each row reads
      `video.course`, which raises when the course is gone, and `dbOk` is
      false when `bulk_create` raises. */
  predicate Inserts(courses: seq<Course>, v: Video, dbOk: bool) {
    dbOk && CourseById(courses, v.courseId).Some?
  }

  /** The call. When the rows cannot be built or inserted, the rows the
      filtered delete removed stay removed and the error is re-raised. */
  method SaveAndPopulateTranscript(db: Db, i: nat, data: seq<Record>, mediaRoot: Path,
                                   format: real -> string, csvOk: bool, dbOk: bool)
    returns (raised: bool)
    requires i < |db.videos|
    modifies db`transcripts, db`files
    ensures var v := db.videos[i];
            if data == [] || PlatformId(v).None? then
              raised && db.transcripts == old(db.transcripts) && db.files == old(db.files)
            else
              db.files == CsvStep(old(db.files), db.courses, v, PlatformId(v).value, data, mediaRoot, format, csvOk)
              && raised == !Inserts(db.courses, v, dbOk)
              && db.transcripts == ReplaceRows(old(db.transcripts), v.id,
                                               if Inserts(db.courses, v, dbOk) then SegmentsFor(v, data) else [])
  {
    if data == [] {
      return true;
    }
    var video := db.videos[i];
    var platformId := PlatformId(video);
    if platformId.None? {
      return true;
    }
    var c := CourseById(db.courses, video.courseId);
    if c.Some? && csvOk {
      db.files := db.files[TranscriptCsvPath(mediaRoot, db.courses[c.value].title, platformId.value) := CsvOf(data, format)];
    }
    db.transcripts := RowsNotOf(db.transcripts, video.id);
    if c.None? || !dbOk {
      assert RowsNotOf(old(db.transcripts), video.id) + [] == RowsNotOf(old(db.transcripts), video.id);
      return true;
    }
    var rows := SegmentsFor(video, data);
    db.transcripts := db.transcripts + rows;
    return false;
  }

  /** After a successful write the video's rows are exactly one per record,
      in input order, carrying the video's ids and course; every other
      video keeps its rows. */
  lemma WrittenRows(rows: seq<Segment>, v: Video, data: seq<Record>, other: nat)
    ensures var r := ReplaceRows(rows, v.id, SegmentsFor(v, data));
            RowsOf(r, v.id) == SegmentsFor(v, data)
            && (other != v.id ==> RowsOf(r, other) == RowsOf(rows, other))
  {
    ReplaceRowsEffect(rows, v.id, SegmentsFor(v, data), other);
  }

  /** A failed insert leaves the video without rows, and the others as they were. */
  lemma FailedInsertRows(rows: seq<Segment>, v: Video, other: nat)
    ensures var r := ReplaceRows(rows, v.id, []);
            RowsOf(r, v.id) == [] && (other != v.id ==> RowsOf(r, other) == RowsOf(rows, other))
  {
    ReplaceRowsEffect(rows, v.id, [], other);
  }

  /** The CSV written holds the header and then every record, and it is the
      only file touched. */
  lemma CsvWritten(files: map<Path, Csv>, courses: seq<Course>, v: Video, platformId: string,
                   data: seq<Record>, mediaRoot: Path, format: real -> string)
    requires CourseById(courses, v.courseId).Some?
    ensures var p := TranscriptCsvPath(mediaRoot, courses[CourseById(courses, v.courseId).value].title, platformId);
            var r := CsvStep(files, courses, v, platformId, data, mediaRoot, format, true);
            p in r && r[p][1..] == seq(|data|, k requires 0 <= k < |data| => [format(data[k].start), data[k].content])
            && forall q :: q in files && q != p ==> q in r && r[q] == files[q]
  {
  }

  /** The folder under `transcripts` never holds a forbidden character, so
      the course title adds at most one path level (none when nothing of it
      is left), and a platform id without '/' names the file in it. */
  lemma CsvPathShape(mediaRoot: Path, courseTitle: string, platformId: string)
    ensures var d := SanitizeFilename(courseTitle);
            var folder := mediaRoot + ["transcripts"] + (if d == "" then [] else [d]);
            '/' !in d && '\\' !in d
            && PathJoin(mediaRoot + ["transcripts"], d) == folder
            && ('/' !in platformId ==> TranscriptCsvPath(mediaRoot, courseTitle, platformId) == folder + [platformId + ".csv"])
  {
    var d := SanitizeFilename(courseTitle);
    assert forall i :: 0 <= i < |d| ==> !Forbidden(d[i]);
    NameComponents(d);
    if '/' !in platformId {
      NameComponents(platformId + ".csv");
    }
  }
}
