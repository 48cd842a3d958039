/** The `populate_transcripts` command
    (`core/management/commands/populate_transcripts.py`): every video
    without transcript rows gets them from
    `MEDIA_ROOT/transcripts/<course title>/<youtube id>.csv`, when that file
    exists. The first line of a file is a header; a line is a row when it has
    two or three cells and its start parses.

    The files are those of `Db.files`; Python's `float` on a cell is the
    parameter `parseFloat`. Whether the `try` block for a file (the open,
    the csv read and `bulk_create`) completes is the parameter `turnOk`; a
    turn that raises inside it is caught, adds nothing and the loop goes on
    with the next video. */
module PopulateTranscripts {
  import opened Common
  import opened Models
  import opened Storage
  import opened Store
  import DbWriter
  import Sanitize

  /** Python's `str` of a nullable text column, as an f-string prints it. */
  function PyStr(o: Option<string>): string {
    if o.None? then "None" else o.value
  }

  /** The path the command opens, `os.path.join(MEDIA_ROOT, 'transcripts',
      <course title>, <youtube id>.csv)`: the course title and the YouTube
      id are used as they are, without the sanitising `db_writer` applies,
      so a '/' in the title splits it into levels. */
  function CsvPathFor(mediaRoot: Path, courseTitle: string, v: Video): Path {
    PathJoin(PathJoin(mediaRoot + ["transcripts"], courseTitle), PyStr(v.youtubeId) + ".csv")
  }

  /** The `Transcript` this command builds: no Vimeo id is set. */
  function TranscriptRow(v: Video, start: real, content: string): (s: Segment)
    ensures s.videoId == v.id && s.courseId == v.courseId && s.youtubeId == v.youtubeId && s.vimeoId.None?
    ensures s.start == start && s.content == content
  {
    Segment(v.id, v.courseId, start, content, v.youtubeId, None)
  }

  /** The start and content cells of a row: columns 0 and 2 of a
      three-cell row, 0 and 1 of a two-cell row. */
  function Cells(row: seq<string>): Option<(string, string)> {
    if |row| == 3 then Some((row[0], row[2]))
    else if |row| == 2 then Some((row[0], row[1]))
    else None
  }

  /** The row a data line gives, if any; the content is stripped and may
      end up empty. */
  function LineRow(v: Video, row: seq<string>, parseFloat: string -> Option<real>): Option<Segment> {
    match Cells(row)
    case None => None
    case Some((startCell, content)) =>
      match parseFloat(startCell)
      case None => None
      case Some(start) => Some(TranscriptRow(v, start, Strip(content)))
  }

  /** `lines_to_create` after the loop over the data lines. */
  function Lines(v: Video, rows: Csv, parseFloat: string -> Option<real>): (r: seq<Segment>)
    ensures |r| <= |rows|
  {
    if rows == [] then []
    else
      var last := rows[|rows| - 1];
      Lines(v, rows[..|rows| - 1], parseFloat)
      + (if LineRow(v, last, parseFloat).Some? then [LineRow(v, last, parseFloat).value] else [])
  }

  /** What one turn of the loop leaves, or `None` when `video.course`
      raises outside the `try`, which ends the command. A turn whose `try`
      block raises (`!turnOk(path)`) leaves the table as it was. */
  function PopulateVideo(transcripts: seq<Segment>, courses: seq<Course>, files: map<Path, Csv>,
                         v: Video, mediaRoot: Path, parseFloat: string -> Option<real>, turnOk: Path -> bool): Option<seq<Segment>>
  {
    if RowsOf(transcripts, v.id) != [] then Some(transcripts)
    else match CourseById(courses, v.courseId)
      case None => None
      case Some(c) =>
        var path := CsvPathFor(mediaRoot, courses[c].title, v);
        if path !in files || files[path] == [] || !turnOk(path) then Some(transcripts)
        else Some(transcripts + Lines(v, files[path][1..], parseFloat))
  }

  /** The loop over `Video.objects.all()`: the rows at the end, and whether
      the command raised. */
  function PopulateAll(transcripts: seq<Segment>, videos: seq<Video>, courses: seq<Course>,
                       files: map<Path, Csv>, mediaRoot: Path, parseFloat: string -> Option<real>, turnOk: Path -> bool): (seq<Segment>, bool)
  {
    if videos == [] then (transcripts, false)
    else
      var (before, crashed) := PopulateAll(transcripts, videos[..|videos| - 1], courses, files, mediaRoot, parseFloat, turnOk);
      if crashed then (before, true)
      else match PopulateVideo(before, courses, files, videos[|videos| - 1], mediaRoot, parseFloat, turnOk)
        case None => (before, true)
        case Some(after) => (after, false)
  }

  // ---------------------------------------------------------------- the command

  method Handle(db: Db, mediaRoot: Path, parseFloat: string -> Option<real>, turnOk: Path -> bool) returns (crashed: bool)
    modifies db`transcripts
    ensures (db.transcripts, crashed)
            == PopulateAll(old(db.transcripts), db.videos, db.courses, db.files, mediaRoot, parseFloat, turnOk)
  {
    ghost var t0 := db.transcripts;
    crashed := false;
    var j := 0;
    while j < |db.videos|
      invariant j <= |db.videos|
      invariant (db.transcripts, false) == PopulateAll(t0, db.videos[..j], db.courses, db.files, mediaRoot, parseFloat, turnOk)
    {
      assert db.videos[..j + 1][..j] == db.videos[..j];
      var video := db.videos[j];
      var ok := PopulateOne(db, video, mediaRoot, parseFloat, turnOk);
      if !ok {
        PopulateAllStops(t0, db.videos, j + 1, db.courses, db.files, mediaRoot, parseFloat, turnOk);
        assert db.videos[..|db.videos|] == db.videos;
        return true;
      }
      j := j + 1;
    }
    assert db.videos[..j] == db.videos;
  }

  /** One turn of the loop; false when `video.course` raised. */
  method PopulateOne(db: Db, video: Video, mediaRoot: Path, parseFloat: string -> Option<real>, turnOk: Path -> bool) returns (ok: bool)
    modifies db`transcripts
    ensures var r := PopulateVideo(old(db.transcripts), db.courses, db.files, video, mediaRoot, parseFloat, turnOk);
            ok == r.Some? && db.transcripts == if ok then r.value else old(db.transcripts)
  {
    if RowsOf(db.transcripts, video.id) != [] {
      return true;
    }
    var c := CourseById(db.courses, video.courseId);
    if c.None? {
      return false;
    }
    var path := CsvPathFor(mediaRoot, db.courses[c.value].title, video);
    if path !in db.files {
      return true;
    }
    var rows := db.files[path];
    if rows == [] {
      return true;
    }
    if !turnOk(path) {
      // the open, the read or `bulk_create` raised; the error is printed
      return true;
    }
    var lines := CollectLines(video, rows[1..], parseFloat);
    if lines != [] {
      db.transcripts := db.transcripts + lines;
    }
    return true;
  }

  /** The `for i, row in enumerate(reader)` loop. */
  method CollectLines(v: Video, rows: Csv, parseFloat: string -> Option<real>) returns (lines: seq<Segment>)
    ensures lines == Lines(v, rows, parseFloat)
  {
    lines := [];
    var i := 0;
    while i < |rows|
      invariant i <= |rows|
      invariant lines == Lines(v, rows[..i], parseFloat)
    {
      assert rows[..i + 1][..i] == rows[..i];
      var row := rows[i];
      var cells: Option<(string, string)> := None;
      if |row| == 3 {
        cells := Some((row[0], row[2]));
      } else if |row| == 2 {
        cells := Some((row[0], row[1]));
      }
      if cells.Some? {
        var start := parseFloat(cells.value.0);
        if start.Some? {
          lines := lines + [TranscriptRow(v, start.value, Strip(cells.value.1))];
        }
      }
      i := i + 1;
    }
    assert rows[..i] == rows;
  }

  /** Once the command raised, the later videos are not visited. */
  lemma {:induction false} PopulateAllStops(t0: seq<Segment>, videos: seq<Video>, n: nat, courses: seq<Course>,
                                            files: map<Path, Csv>, mediaRoot: Path, parseFloat: string -> Option<real>, turnOk: Path -> bool)
    requires 0 < n <= |videos|
    requires PopulateAll(t0, videos[..n], courses, files, mediaRoot, parseFloat, turnOk).1
    ensures PopulateAll(t0, videos[..|videos|], courses, files, mediaRoot, parseFloat, turnOk)
            == PopulateAll(t0, videos[..n], courses, files, mediaRoot, parseFloat, turnOk)
    decreases |videos| - n
  {
    if n < |videos| {
      assert videos[..n + 1][..n] == videos[..n];
      PopulateAllStops(t0, videos, n + 1, courses, files, mediaRoot, parseFloat, turnOk);
    }
  }

  // ---------------------------------------------------------------- properties

  /** A data line is kept when it has two or three cells and its start
      parses. */
  predicate Accepted(row: seq<string>, parseFloat: string -> Option<real>) {
    Cells(row).Some? && parseFloat(Cells(row).value.0).Some?
  }

  /** Every built row belongs to the video, carries its course and YouTube
      id and no Vimeo id, and there is one per accepted line. */
  lemma {:induction false} LinesShape(v: Video, rows: Csv, parseFloat: string -> Option<real>)
    ensures var r := Lines(v, rows, parseFloat);
            |r| == CountWhere(rows, (row: seq<string>) => Accepted(row, parseFloat))
            && AllOf(r, v.id)
            && forall i :: 0 <= i < |r| ==> r[i].courseId == v.courseId && r[i].youtubeId == v.youtubeId && r[i].vimeoId.None?
  {
    if rows != [] {
      var n := |rows| - 1;
      LinesShape(v, rows[..n], parseFloat);
      LinesSnoc(v, rows, parseFloat);
      var line := LineRow(v, rows[n], parseFloat);
      assert line.Some? <==> Accepted(rows[n], parseFloat);
      if line.Some? {
        SegmentsOfVideoSnoc(v, Lines(v, rows[..n], parseFloat), line.value);
      }
    }
  }

  /** A segment of the video added after segments of the video. */
  lemma SegmentsOfVideoSnoc(v: Video, prev: seq<Segment>, x: Segment)
    requires AllOf(prev, v.id)
    requires forall i :: 0 <= i < |prev| ==> prev[i].courseId == v.courseId && prev[i].youtubeId == v.youtubeId && prev[i].vimeoId.None?
    requires x.videoId == v.id && x.courseId == v.courseId && x.youtubeId == v.youtubeId && x.vimeoId.None?
    ensures var r := prev + [x];
            AllOf(r, v.id)
            && forall i :: 0 <= i < |r| ==> r[i].courseId == v.courseId && r[i].youtubeId == v.youtubeId && r[i].vimeoId.None?
  {
  }

  /** The rows built from a non-empty list: those of all but the last
      line, then the last line's row if any. */
  lemma LinesSnoc(v: Video, rows: Csv, parseFloat: string -> Option<real>)
    requires rows != []
    ensures var n := |rows| - 1;
            var line := LineRow(v, rows[n], parseFloat);
            Lines(v, rows, parseFloat) == Lines(v, rows[..n], parseFloat) + (if line.Some? then [line.value] else [])
  {
  }

  /** Every built segment comes from some data line. */
  lemma {:induction false} LinesSound(v: Video, rows: Csv, parseFloat: string -> Option<real>, s: Segment)
    requires s in Lines(v, rows, parseFloat)
    ensures exists k :: 0 <= k < |rows| && LineRow(v, rows[k], parseFloat) == Some(s)
  {
    var n := |rows| - 1;
    LinesSnoc(v, rows, parseFloat);
    if s in Lines(v, rows[..n], parseFloat) {
      LinesSound(v, rows[..n], parseFloat, s);
      var k :| 0 <= k < n && LineRow(v, rows[..n][k], parseFloat) == Some(s);
      assert rows[k] == rows[..n][k];
    } else {
      assert LineRow(v, rows[n], parseFloat) == Some(s);
    }
  }

  /** Every data line that gives a segment contributes it. */
  lemma {:induction false} LinesComplete(v: Video, rows: Csv, parseFloat: string -> Option<real>, k: nat)
    requires k < |rows| && LineRow(v, rows[k], parseFloat).Some?
    ensures LineRow(v, rows[k], parseFloat).value in Lines(v, rows, parseFloat)
  {
    var n := |rows| - 1;
    LinesSnoc(v, rows, parseFloat);
    if k < n {
      assert rows[k] == rows[..n][k];
      LinesComplete(v, rows[..n], parseFloat, k);
    }
  }

  /** A segment is built exactly when some data line gives it: its start is
      the parsed first cell and its content the stripped last cell. */
  lemma LinesIff(v: Video, rows: Csv, parseFloat: string -> Option<real>, s: Segment)
    ensures s in Lines(v, rows, parseFloat) <==> exists k :: 0 <= k < |rows| && LineRow(v, rows[k], parseFloat) == Some(s)
  {
    if s in Lines(v, rows, parseFloat) {
      LinesSound(v, rows, parseFloat, s);
    } else if k :| 0 <= k < |rows| && LineRow(v, rows[k], parseFloat) == Some(s) {
      LinesComplete(v, rows, parseFloat, k);
    }
  }

  /** One turn raises exactly when the video has no rows and no course.
      Otherwise the rows only grow, rows of other videos stay as they were,
      and a video that already has rows is left alone. */
  lemma PopulateVideoEffect(transcripts: seq<Segment>, courses: seq<Course>, files: map<Path, Csv>,
                            v: Video, mediaRoot: Path, parseFloat: string -> Option<real>, turnOk: Path -> bool, other: nat)
    ensures var r := PopulateVideo(transcripts, courses, files, v, mediaRoot, parseFloat, turnOk);
            (r.None? <==> RowsOf(transcripts, v.id) == [] && CourseById(courses, v.courseId).None?)
            && (r.Some? ==> transcripts <= r.value && (other != v.id ==> RowsOf(r.value, other) == RowsOf(transcripts, other)))
            && (RowsOf(transcripts, v.id) != [] ==> r == Some(transcripts))
  {
    var r := PopulateVideo(transcripts, courses, files, v, mediaRoot, parseFloat, turnOk);
    if r.Some? && r.value != transcripts {
      var c := CourseById(courses, v.courseId).value;
      var added := Lines(v, files[CsvPathFor(mediaRoot, courses[c].title, v)][1..], parseFloat);
      assert r.value == transcripts + added;
      LinesShape(v, files[CsvPathFor(mediaRoot, courses[c].title, v)][1..], parseFloat);
      RowsOfConcat(transcripts, added, other);
      if other != v.id {
        RowsOfOther(added, v.id, other);
      }
    }
  }

  /** A video is settled in a table when its turn would change nothing. */
  predicate Settled(transcripts: seq<Segment>, courses: seq<Course>, files: map<Path, Csv>,
                    v: Video, mediaRoot: Path, parseFloat: string -> Option<real>, turnOk: Path -> bool) {
    PopulateVideo(transcripts, courses, files, v, mediaRoot, parseFloat, turnOk) == Some(transcripts)
  }

  /** Rows a table has for a video survive any growth of the table. */
  lemma RowsGrow(a: seq<Segment>, b: seq<Segment>, id: nat)
    requires a <= b && RowsOf(a, id) != []
    ensures RowsOf(b, id) != []
  {
    assert b == a + b[|a|..];
    RowsOfConcat(a, b[|a|..], id);
  }

  /** No file whose `try` block raised in a run reads in the rerun: the
      rerun's failures include the first run's. */
  ghost predicate NoNewSuccess(turnOk: Path -> bool, rerunOk: Path -> bool) {
    forall p :: rerunOk(p) ==> turnOk(p)
  }

  /** After its turn, a video stays settled however the table grows, for a
      rerun in which no file reads that failed to read in this turn. */
  lemma SettledAfterTurn(before: seq<Segment>, after: seq<Segment>, later: seq<Segment>, courses: seq<Course>,
                         files: map<Path, Csv>, v: Video, mediaRoot: Path, parseFloat: string -> Option<real>,
                         turnOk: Path -> bool, rerunOk: Path -> bool)
    requires PopulateVideo(before, courses, files, v, mediaRoot, parseFloat, turnOk) == Some(after)
    requires after <= later
    requires NoNewSuccess(turnOk, rerunOk)
    ensures Settled(later, courses, files, v, mediaRoot, parseFloat, rerunOk)
  {
    PopulateVideoEffect(before, courses, files, v, mediaRoot, parseFloat, turnOk, v.id);
    if RowsOf(before, v.id) != [] {
      RowsGrow(before, later, v.id);
    } else {
      var c := CourseById(courses, v.courseId).value;
      var path := CsvPathFor(mediaRoot, courses[c].title, v);
      if path in files && files[path] != [] && turnOk(path) {
        var added := Lines(v, files[path][1..], parseFloat);
        assert after == before + added;
        if added != [] {
          LinesShape(v, files[path][1..], parseFloat);
          RowsOfConcat(before, added, v.id);
          RowsOfAll(added, v.id);
          RowsGrow(after, later, v.id);
        } else if RowsOf(later, v.id) == [] {
          assert later + [] == later;
        }
      } else if path in files && files[path] != [] {
        assert !rerunOk(path);
      }
    }
  }

  /** The command only appends rows; when it does not raise, every video is
      settled in the table it leaves, for any rerun in which no file reads
      that failed to read in this run. */
  lemma {:induction false} PopulateAllSettles(transcripts: seq<Segment>, videos: seq<Video>, courses: seq<Course>,
                                              files: map<Path, Csv>, mediaRoot: Path, parseFloat: string -> Option<real>,
                                              turnOk: Path -> bool, rerunOk: Path -> bool)
    requires NoNewSuccess(turnOk, rerunOk)
    ensures var (after, crashed) := PopulateAll(transcripts, videos, courses, files, mediaRoot, parseFloat, turnOk);
            transcripts <= after
            && (!crashed ==> forall k :: 0 <= k < |videos| ==> Settled(after, courses, files, videos[k], mediaRoot, parseFloat, rerunOk))
  {
    if videos != [] {
      var init := videos[..|videos| - 1];
      var last := videos[|videos| - 1];
      PopulateAllSettles(transcripts, init, courses, files, mediaRoot, parseFloat, turnOk, rerunOk);
      var (before, crashedBefore) := PopulateAll(transcripts, init, courses, files, mediaRoot, parseFloat, turnOk);
      var (after, crashed) := PopulateAll(transcripts, videos, courses, files, mediaRoot, parseFloat, turnOk);
      if !crashedBefore {
        PopulateVideoEffect(before, courses, files, last, mediaRoot, parseFloat, turnOk, 0);
        if !crashed {
          var r := PopulateVideo(before, courses, files, last, mediaRoot, parseFloat, turnOk);
          assert after == r.value;
          forall k | 0 <= k < |videos|
            ensures Settled(after, courses, files, videos[k], mediaRoot, parseFloat, rerunOk)
          {
            if k < |init| {
              assert videos[k] == init[k];
              SettledBeforeStays(before, after, courses, files, videos[k], mediaRoot, parseFloat, rerunOk);
            } else {
              SettledAfterTurn(before, after, after, courses, files, last, mediaRoot, parseFloat, turnOk, rerunOk);
            }
          }
        }
      }
    }
  }

  /** A video settled in a table stays settled when the table grows. */
  lemma SettledBeforeStays(before: seq<Segment>, after: seq<Segment>, courses: seq<Course>,
                           files: map<Path, Csv>, v: Video, mediaRoot: Path, parseFloat: string -> Option<real>,
                           rerunOk: Path -> bool)
    requires Settled(before, courses, files, v, mediaRoot, parseFloat, rerunOk)
    requires before <= after
    ensures Settled(after, courses, files, v, mediaRoot, parseFloat, rerunOk)
  {
    SettledAfterTurn(before, before, after, courses, files, v, mediaRoot, parseFloat, rerunOk, rerunOk);
  }

  /** A run over settled videos changes nothing and does not raise. */
  lemma {:induction false} SettledRunIsNoOp(transcripts: seq<Segment>, videos: seq<Video>, courses: seq<Course>,
                                            files: map<Path, Csv>, mediaRoot: Path, parseFloat: string -> Option<real>, turnOk: Path -> bool)
    requires forall k :: 0 <= k < |videos| ==> Settled(transcripts, courses, files, videos[k], mediaRoot, parseFloat, turnOk)
    ensures PopulateAll(transcripts, videos, courses, files, mediaRoot, parseFloat, turnOk) == (transcripts, false)
  {
    if videos != [] {
      var init := videos[..|videos| - 1];
      forall k | 0 <= k < |init|
        ensures Settled(transcripts, courses, files, init[k], mediaRoot, parseFloat, turnOk)
      {
        assert init[k] == videos[k];
      }
      SettledRunIsNoOp(transcripts, init, courses, files, mediaRoot, parseFloat, turnOk);
      assert Settled(transcripts, courses, files, videos[|videos| - 1], mediaRoot, parseFloat, turnOk);
    }
  }

  /** Running the command again after a run that did not raise changes
      nothing, as long as no file reads in the rerun whose `try` block
      raised in the first run: every video either has rows now or would
      read the same nothing again. */
  lemma SecondRunChangesNothing(transcripts: seq<Segment>, videos: seq<Video>, courses: seq<Course>,
                                files: map<Path, Csv>, mediaRoot: Path, parseFloat: string -> Option<real>,
                                turnOk: Path -> bool, rerunOk: Path -> bool)
    requires !PopulateAll(transcripts, videos, courses, files, mediaRoot, parseFloat, turnOk).1
    requires NoNewSuccess(turnOk, rerunOk)
    ensures var after := PopulateAll(transcripts, videos, courses, files, mediaRoot, parseFloat, turnOk).0;
            PopulateAll(after, videos, courses, files, mediaRoot, parseFloat, rerunOk) == (after, false)
  {
    PopulateAllSettles(transcripts, videos, courses, files, mediaRoot, parseFloat, turnOk, rerunOk);
    var after := PopulateAll(transcripts, videos, courses, files, mediaRoot, parseFloat, turnOk).0;
    SettledRunIsNoOp(after, videos, courses, files, mediaRoot, parseFloat, rerunOk);
  }

  /** A turn whose `try` block raised adds nothing, and the video is not
      settled: a rerun in which its file reads adds the file's rows. */
  lemma CaughtFailureRetried(transcripts: seq<Segment>, courses: seq<Course>, files: map<Path, Csv>,
                             v: Video, mediaRoot: Path, parseFloat: string -> Option<real>,
                             turnOk: Path -> bool, rerunOk: Path -> bool)
    requires RowsOf(transcripts, v.id) == [] && CourseById(courses, v.courseId).Some?
    requires var path := CsvPathFor(mediaRoot, courses[CourseById(courses, v.courseId).value].title, v);
             path in files && files[path] != [] && Lines(v, files[path][1..], parseFloat) != []
             && !turnOk(path) && rerunOk(path)
    ensures PopulateVideo(transcripts, courses, files, v, mediaRoot, parseFloat, turnOk) == Some(transcripts)
    ensures var path := CsvPathFor(mediaRoot, courses[CourseById(courses, v.courseId).value].title, v);
            PopulateVideo(transcripts, courses, files, v, mediaRoot, parseFloat, rerunOk)
            == Some(transcripts + Lines(v, files[path][1..], parseFloat))
    ensures !Settled(transcripts, courses, files, v, mediaRoot, parseFloat, rerunOk)
  {
    var path := CsvPathFor(mediaRoot, courses[CourseById(courses, v.courseId).value].title, v);
    var added := Lines(v, files[path][1..], parseFloat);
    assert |transcripts + added| > |transcripts|;
  }

  /** Rows of a video that no turn visits are never touched. */
  lemma {:induction false} UnvisitedRowsKept(transcripts: seq<Segment>, videos: seq<Video>, courses: seq<Course>,
                                             files: map<Path, Csv>, mediaRoot: Path, parseFloat: string -> Option<real>, turnOk: Path -> bool,
                                             id: nat)
    requires forall k :: 0 <= k < |videos| ==> videos[k].id != id
    ensures RowsOf(PopulateAll(transcripts, videos, courses, files, mediaRoot, parseFloat, turnOk).0, id) == RowsOf(transcripts, id)
  {
    if videos != [] {
      var init := videos[..|videos| - 1];
      forall k | 0 <= k < |init|
        ensures init[k].id != id
      {
        assert init[k] == videos[k];
      }
      UnvisitedRowsKept(transcripts, init, courses, files, mediaRoot, parseFloat, turnOk, id);
      var before := PopulateAll(transcripts, init, courses, files, mediaRoot, parseFloat, turnOk).0;
      PopulateVideoEffect(before, courses, files, videos[|videos| - 1], mediaRoot, parseFloat, turnOk, id);
    }
  }

  /** A written line reads back as the row with its start and content. */
  lemma WrittenLine(v: Video, start: real, content: string, format: real -> string,
                    parseFloat: string -> Option<real>)
    requires parseFloat(format(start)) == Some(start) && Strip(content) == content
    ensures LineRow(v, [format(start), content], parseFloat) == Some(TranscriptRow(v, start, content))
  {
  }

  /** Data lines that each read back as a record give the records' rows,
      in order. */
  lemma {:induction false} ReadsBack(v: Video, rows: Csv, data: seq<DbWriter.Record>, format: real -> string,
                                     parseFloat: string -> Option<real>)
    requires |rows| == |data|
    requires forall k :: 0 <= k < |data| ==> LineRow(v, rows[k], parseFloat) == Some(TranscriptRow(v, data[k].start, data[k].content))
    ensures var r := Lines(v, rows, parseFloat);
            |r| == |data| && forall k :: 0 <= k < |data| ==> r[k] == TranscriptRow(v, data[k].start, data[k].content)
  {
    if rows != [] {
      var n := |rows| - 1;
      forall k | 0 <= k < n
        ensures LineRow(v, rows[..n][k], parseFloat) == Some(TranscriptRow(v, data[..n][k].start, data[..n][k].content))
      {
        assert rows[..n][k] == rows[k] && data[..n][k] == data[k];
      }
      ReadsBack(v, rows[..n], data[..n], format, parseFloat);
      LinesSnoc(v, rows, parseFloat);
      assert LineRow(v, rows[n], parseFloat) == Some(TranscriptRow(v, data[n].start, data[n].content));
      RecordRowsSnoc(v, Lines(v, rows[..n], parseFloat), data);
    }
  }

  /** Rows matching all but the last record, followed by the last record's row. */
  lemma RecordRowsSnoc(v: Video, prev: seq<Segment>, data: seq<DbWriter.Record>)
    requires data != [] && |prev| == |data| - 1
    requires forall k :: 0 <= k < |prev| ==> prev[k] == TranscriptRow(v, data[..|prev|][k].start, data[..|prev|][k].content)
    ensures var r := prev + [TranscriptRow(v, data[|prev|].start, data[|prev|].content)];
            |r| == |data| && forall k :: 0 <= k < |data| ==> r[k] == TranscriptRow(v, data[k].start, data[k].content)
  {
    var n := |prev|;
    forall k | 0 <= k < n
      ensures prev[k] == TranscriptRow(v, data[k].start, data[k].content)
    {
      assert data[..n][k] == data[k];
    }
  }

  /** Reading back a file `db_writer` wrote gives one row per record, with
      the record's start and content, as long as the float format parses
      back and the contents carry no surrounding blanks. */
  lemma ReadsBackWritten(v: Video, data: seq<DbWriter.Record>, format: real -> string,
                         parseFloat: string -> Option<real>)
    requires forall k :: 0 <= k < |data| ==>
               parseFloat(format(data[k].start)) == Some(data[k].start) && Strip(data[k].content) == data[k].content
    ensures var r := Lines(v, DbWriter.CsvOf(data, format)[1..], parseFloat);
            |r| == |data| && forall k :: 0 <= k < |data| ==> r[k] == TranscriptRow(v, data[k].start, data[k].content)
  {
    var rows := DbWriter.CsvOf(data, format)[1..];
    forall k | 0 <= k < |data|
      ensures LineRow(v, rows[k], parseFloat) == Some(TranscriptRow(v, data[k].start, data[k].content))
    {
      assert rows[k] == [format(data[k].start), data[k].content];
      WrittenLine(v, data[k].start, data[k].content, format, parseFloat);
    }
    ReadsBack(v, rows, data, format, parseFloat);
  }

  /** For platform ids without '/', the two commands meet at the same file
      exactly when joining the raw course title and joining the sanitised
      one give the same folder, and the platform id is the YouTube id as
      printed. */
  lemma PathsAgree(mediaRoot: Path, courseTitle: string, v: Video, platformId: string)
    requires '/' !in PyStr(v.youtubeId) && '/' !in platformId
    ensures CsvPathFor(mediaRoot, courseTitle, v) == DbWriter.TranscriptCsvPath(mediaRoot, courseTitle, platformId)
            <==> PathJoin(mediaRoot + ["transcripts"], courseTitle)
                   == PathJoin(mediaRoot + ["transcripts"], Sanitize.SanitizeFilename(courseTitle))
                 && PyStr(v.youtubeId) == platformId
  {
    var x := PyStr(v.youtubeId);
    var f1 := PathJoin(mediaRoot + ["transcripts"], courseTitle);
    var f2 := PathJoin(mediaRoot + ["transcripts"], Sanitize.SanitizeFilename(courseTitle));
    NameComponents(x + ".csv");
    NameComponents(platformId + ".csv");
    assert CsvPathFor(mediaRoot, courseTitle, v) == f1 + [x + ".csv"];
    assert DbWriter.TranscriptCsvPath(mediaRoot, courseTitle, platformId) == f2 + [platformId + ".csv"];
    if f1 + [x + ".csv"] == f2 + [platformId + ".csv"] {
      assert |f1| == |f2|;
      assert f1 == (f1 + [x + ".csv"])[..|f1|] && f2 == (f2 + [platformId + ".csv"])[..|f2|];
      assert x + ".csv" == platformId + ".csv";
      assert x == (x + ".csv")[..|x|] && platformId == (platformId + ".csv")[..|platformId|];
    }
  }

  /** For a title without '/', the folders agree exactly when the title is
      already a safe folder name. */
  lemma PlainTitleFolders(mediaRoot: Path, courseTitle: string)
    requires '/' !in courseTitle
    ensures PathJoin(mediaRoot + ["transcripts"], courseTitle)
              == PathJoin(mediaRoot + ["transcripts"], Sanitize.SanitizeFilename(courseTitle))
            <==> Sanitize.SanitizeFilename(courseTitle) == courseTitle
  {
    var d := Sanitize.SanitizeFilename(courseTitle);
    assert forall i :: 0 <= i < |d| ==> !Sanitize.Forbidden(d[i]);
    NameComponents(courseTitle);
    NameComponents(d);
    var root := mediaRoot + ["transcripts"];
    if courseTitle != "" && d != "" && root + [courseTitle] == root + [d] {
      assert (root + [courseTitle])[|root|] == courseTitle;
    }
  }

  /** A safe title followed by '/' names the same folder `db_writer` writes
      to: `os.path.join` adds no second separator, and sanitising drops the
      '/'. */
  lemma TrailingSlashTitleAgrees(mediaRoot: Path, t: string)
    requires t != "" && Sanitize.SanitizeFilename(t) == t
    ensures PathJoin(mediaRoot + ["transcripts"], t + "/")
              == PathJoin(mediaRoot + ["transcripts"], Sanitize.SanitizeFilename(t + "/"))
              == mediaRoot + ["transcripts", t]
  {
    assert forall i :: 0 <= i < |t| ==> !Sanitize.Forbidden(t[i]);
    assert '/' !in t;
    TrailingSlashComponents(t);
    Sanitize.SanitizeConcat(t, "/");
    Sanitize.SanitizeChar('/');
    NameComponents(t);
  }
}
