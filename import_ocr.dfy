/** The `import_ocr` command (`core/management/commands/import_ocr.py`): an
    optional wipe of every OCR row with a status reset, then each CSV file
    found under `MEDIA_ROOT/ocr_transcripts` is matched to a video by its
    name, the video's OCR rows are replaced by the file's rows, and a video
    that received rows is marked ready for the OCR index.

    The directory walk is a parameter: the files in walk order, each with
    the rows `csv.reader` returns or nothing when reading it raises. Python's
    `float` on a cell is the parameter `parseFloat`. */
module ImportOcr {
  import opened Common
  import opened Models
  import opened Store

  datatype WalkedFile = WalkedFile(name: string, rows: Option<Csv>)

  /** How `process_file` ended, as `handle` counts it: normally, by
      `Video.DoesNotExist`, or by another exception. */
  datatype FileOutcome = Processed | NoVideo | Error

  /** The OCR rows and the videos, the state the command changes, with the
      courses it reads. */
  datatype ImportState = ImportState(ocrRows: seq<Segment>, videos: seq<Video>, courses: seq<Course>)

  /** The state after a walk and the three counters it printed. */
  datatype Run = Run(state: ImportState, processed: nat, skipped: nat, errors: nat)

  predicate IsCsv(f: WalkedFile) { EndsWith(f.name, ".csv") }

  predicate AllDots(s: string) { forall i :: 0 <= i < |s| ==> s[i] == '.' }

  /** `os.path.splitext(name)[0]` for a name ending in `.csv`: the name
      without its extension, unless only dots precede the extension, which
      `splitext` then does not treat as one. */
  function FileId(name: string): (r: string)
    requires EndsWith(name, ".csv")
    ensures r == name <==> AllDots(name[..|name| - 4])
    ensures r != name ==> r + ".csv" == name
  {
    var stem := name[..|name| - 4];
    if AllDots(stem) then name else stem
  }

  /** Python's `int(s)` on decimal text: surrounding whitespace, an
      optional sign, then at least one digit. */
  function PyInt(s: string): (r: Option<int>)
    ensures r.Some? ==> Strip(s) != ""
  {
    SignedDecimal(Strip(s))
  }

  /** An optional sign, then at least one digit. */
  function SignedDecimal(t: string): (r: Option<int>)
    ensures r.Some? ==> t != ""
  {
    if |t| > 0 && (t[0] == '-' || t[0] == '+') then
      var body := t[1..];
      if |body| > 0 && AllDigits(body) then
        var n: int := DigitsValue(body);
        Some(if t[0] == '-' then -n else n)
      else None
    else if |t| > 0 && AllDigits(t) then Some(DigitsValue(t))
    else None
  }

  /** `file_id.split('_')[1]` for an id starting with `video_`: the text
      after the first `_` up to the next one. */
  function VideoIdPart(fileId: string): (r: string)
    requires StartsWith(fileId, "video_")
    ensures !Contains(r, "_")
  {
    BeforeFirst(fileId[6..], "_")
  }

  /** The id lookup by the `video_<id>` naming, when it applies. */
  function ByDbId(videos: seq<Video>, fileId: string): (r: Option<nat>)
    ensures r.Some? ==> r.value < |videos|
  {
    if !StartsWith(fileId, "video_") then None
    else match PyInt(VideoIdPart(fileId))
      case None => None
      case Some(n) => if n < 0 then None else VideoById(videos, n)
  }

  /** The three lookups of `process_file`, tried in order; `None` is the
      `Video.DoesNotExist` it raises. The `get` on a unique column finds the
      first match. */
  function ResolveVideo(videos: seq<Video>, fileId: string): (r: Option<nat>)
    ensures r.Some? ==> r.value < |videos|
  {
    match VideoByVimeoId(videos, fileId)
    case Some(i) => Some(i)
    case None =>
      match VideoByYoutubeId(videos, fileId)
      case Some(i) => Some(i)
      case None => ByDbId(videos, fileId)
  }

  /** `_create_obj(video, row)`: a row is kept when its start parses and its
      stripped content is non-empty. */
  function CreateObj(v: Video, row: seq<string>, parseFloat: string -> Option<real>): (r: Option<Segment>)
    requires |row| >= 2
    ensures r.None? <==> parseFloat(row[0]).None? || Strip(row[1]) == ""
    ensures r.Some? ==> r.value.videoId == v.id && r.value.start == parseFloat(row[0]).value
                        && r.value.content == Strip(row[1])
  {
    match parseFloat(row[0])
    case None => None
    case Some(start) =>
      var content := Strip(row[1]);
      if content != "" then Some(SegmentFor(v, start, content)) else None
  }

  /** A row `process_file` accepts: two or more columns and an object. */
  predicate Accepts(v: Video, row: seq<string>, parseFloat: string -> Option<real>) {
    |row| >= 2 && CreateObj(v, row, parseFloat).Some?
  }

  /** The objects collected from `rows` with every row checked the same
      way; this is the corrected reading of the first row (see
      `ObjectsAsWritten`). */
  function RowObjects(v: Video, rows: Csv, parseFloat: string -> Option<real>): (r: seq<Segment>)
    ensures |r| <= |rows|
  {
    if rows == [] then []
    else
      var last := rows[|rows| - 1];
      RowObjects(v, rows[..|rows| - 1], parseFloat)
      + (if Accepts(v, last, parseFloat) then [CreateObj(v, last, parseFloat).value] else [])
  }

  /** `transcript_objects` as the code builds it: the first row, when its
      start parses and it has two columns, is appended without the `if obj`
      check the later rows get. */
  function ObjectsAsWritten(v: Video, rows: Csv, parseFloat: string -> Option<real>): seq<Option<Segment>>
    requires rows != [] && rows[0] != []
  {
    var first := rows[0];
    var head := if parseFloat(first[0]).Some? && |first| >= 2 then [CreateObj(v, first, parseFloat)] else [];
    var tail := RowObjects(v, rows[1..], parseFloat);
    head + seq(|tail|, k requires 0 <= k < |tail| => Some(tail[k]))
  }

  /** The video after a non-empty import. */
  function MarkImported(v: Video): Video {
    v.(ocrTranscriptStatus := Complete, ocrIndexStatus := Pending)
  }

  /** `process_file` on a CSV file, corrected. The video's OCR rows are
      deleted before the file is read, so a read error or an empty file
      still leaves them deleted. Building an object reads `video.course`,
      which raises when the course is gone: the file then counts as an
      error, with its video's rows deleted and nothing inserted. */
  function ImportFile(st: ImportState, f: WalkedFile, parseFloat: string -> Option<real>): (ImportState, FileOutcome)
    requires IsCsv(f)
  {
    match ResolveVideo(st.videos, FileId(f.name))
    case None => (st, NoVideo)
    case Some(i) =>
      var v := st.videos[i];
      var cleared := RowsNotOf(st.ocrRows, v.id);
      var emptied := ImportState(cleared, st.videos, st.courses);
      if f.rows.None? then (emptied, Error)
      else if f.rows.value == [] || f.rows.value[0] == [] then (emptied, Processed)
      else
        var objs := RowObjects(v, f.rows.value, parseFloat);
        if objs == [] then (emptied, Processed)
        else if CourseById(st.courses, v.courseId).None? then (emptied, Error)
        else (ImportState(cleared + objs, st.videos[i := MarkImported(v)], st.courses), Processed)
  }

  /** `process_file` as written: `bulk_create` raises on the `None` the
      first row can contribute, after the delete. */
  function ImportFileAsWritten(st: ImportState, f: WalkedFile, parseFloat: string -> Option<real>): (ImportState, FileOutcome)
    requires IsCsv(f)
  {
    match ResolveVideo(st.videos, FileId(f.name))
    case None => (st, NoVideo)
    case Some(i) =>
      var cleared := RowsNotOf(st.ocrRows, st.videos[i].id);
      if f.rows.Some? && f.rows.value != [] && f.rows.value[0] != []
         && None in ObjectsAsWritten(st.videos[i], f.rows.value, parseFloat)
      then (ImportState(cleared, st.videos, st.courses), Error)
      else ImportFile(st, f, parseFloat)
  }

  /** The wipe: no OCR rows left, every video back to 'pending' / 'none'. */
  function Wiped(st: ImportState): (r: ImportState)
    ensures r.ocrRows == [] && |r.videos| == |st.videos| && r.courses == st.courses
    ensures forall k :: 0 <= k < |st.videos| ==>
              r.videos[k] == st.videos[k].(ocrTranscriptStatus := Pending, ocrIndexStatus := NoIndex)
  {
    ImportState([], seq(|st.videos|, k requires 0 <= k < |st.videos| =>
                          st.videos[k].(ocrTranscriptStatus := Pending, ocrIndexStatus := NoIndex)),
                st.courses)
  }

  /** The walk: each CSV file in turn, the others ignored. */
  function ImportAll(st: ImportState, files: seq<WalkedFile>, parseFloat: string -> Option<real>): Run {
    if files == [] then Run(st, 0, 0, 0)
    else
      var before := ImportAll(st, files[..|files| - 1], parseFloat);
      var f := files[|files| - 1];
      if !IsCsv(f) then before
      else
        var (next, o) := ImportFile(before.state, f, parseFloat);
        Run(next, before.processed + (if o == Processed then 1 else 0),
            before.skipped + (if o == NoVideo then 1 else 0),
            before.errors + (if o == Error then 1 else 0))
  }

  // ---------------------------------------------------------------- the command

  /** `handle(wipe=…)`. `baseExists` says whether the directory exists. */
  method Handle(db: Db, wipe: bool, baseExists: bool, files: seq<WalkedFile>, parseFloat: string -> Option<real>)
    returns (processed: nat, skipped: nat, errors: nat)
    modifies db`ocrRows, db`videos
    ensures var st0 := if wipe then Wiped(ImportState(old(db.ocrRows), old(db.videos), db.courses))
                       else ImportState(old(db.ocrRows), old(db.videos), db.courses);
            if !baseExists then
              ImportState(db.ocrRows, db.videos, db.courses) == st0 && processed == skipped == errors == 0
            else
              Run(ImportState(db.ocrRows, db.videos, db.courses), processed, skipped, errors) == ImportAll(st0, files, parseFloat)
  {
    if wipe {
      db.ocrRows := [];
      var vs := db.videos;
      db.videos := seq(|vs|, k requires 0 <= k < |vs| =>
                         vs[k].(ocrTranscriptStatus := Pending, ocrIndexStatus := NoIndex));
      assert ImportState(db.ocrRows, db.videos, db.courses) == Wiped(ImportState(old(db.ocrRows), old(db.videos), db.courses));
    }
    processed, skipped, errors := 0, 0, 0;
    if !baseExists {
      return;
    }
    processed, skipped, errors := Walk(db, files, parseFloat);
  }

  /** The `os.walk` loop with its three counters. */
  method Walk(db: Db, files: seq<WalkedFile>, parseFloat: string -> Option<real>)
    returns (processed: nat, skipped: nat, errors: nat)
    modifies db`ocrRows, db`videos
    ensures Run(ImportState(db.ocrRows, db.videos, db.courses), processed, skipped, errors)
            == ImportAll(ImportState(old(db.ocrRows), old(db.videos), db.courses), files, parseFloat)
  {
    ghost var st0 := ImportState(db.ocrRows, db.videos, db.courses);
    processed, skipped, errors := 0, 0, 0;
    var j := 0;
    while j < |files|
      invariant j <= |files|
      invariant Run(ImportState(db.ocrRows, db.videos, db.courses), processed, skipped, errors) == ImportAll(st0, files[..j], parseFloat)
    {
      assert files[..j + 1][..j] == files[..j];
      var f := files[j];
      if IsCsv(f) {
        var o := ProcessFile(db, f, parseFloat);
        processed := processed + (if o == Processed then 1 else 0);
        skipped := skipped + (if o == NoVideo then 1 else 0);
        errors := errors + (if o == Error then 1 else 0);
      }
      j := j + 1;
    }
    assert files[..j] == files;
  }

  /** `process_file(file_path, file_id)`, with the outcome `handle` sees. */
  method ProcessFile(db: Db, f: WalkedFile, parseFloat: string -> Option<real>) returns (o: FileOutcome)
    requires IsCsv(f)
    modifies db`ocrRows, db`videos
    ensures (ImportState(db.ocrRows, db.videos, db.courses), o) == ImportFile(ImportState(old(db.ocrRows), old(db.videos), db.courses), f, parseFloat)
  {
    var found := ResolveVideo(db.videos, FileId(f.name));
    if found.None? {
      return NoVideo;
    }
    var i := found.value;
    var video := db.videos[i];
    db.ocrRows := RowsNotOf(db.ocrRows, video.id);
    if f.rows.None? {
      return Error;
    }
    var rows := f.rows.value;
    if rows == [] || rows[0] == [] {
      return Processed;
    }
    var objs := CollectObjects(video, rows, parseFloat);
    if objs != [] {
      var course := CourseById(db.courses, video.courseId);
      if course.None? {
        return Error;
      }
      db.ocrRows := db.ocrRows + objs;
      db.videos := db.videos[i := video.(ocrTranscriptStatus := Complete, ocrIndexStatus := Pending)];
    }
    return Processed;
  }

  /** The header check and the row loop of `process_file`. */
  method CollectObjects(v: Video, rows: Csv, parseFloat: string -> Option<real>) returns (objs: seq<Segment>)
    requires rows != [] && rows[0] != []
    ensures objs == RowObjects(v, rows, parseFloat)
  {
    objs := [];
    var first := rows[0];
    if parseFloat(first[0]).Some? && |first| >= 2 {
      var obj := CreateObj(v, first, parseFloat);
      if obj.Some? {
        objs := [obj.value];
      }
    }
    FirstRowAccepted(v, first, parseFloat);
    RowObjectsFirst(v, rows, parseFloat);
    var k := 1;
    while k < |rows|
      invariant 1 <= k <= |rows|
      invariant objs == RowObjects(v, rows[..k], parseFloat)
    {
      var row := rows[k];
      RowObjectsStep(v, rows, k, parseFloat);
      if |row| >= 2 {
        var obj := CreateObj(v, row, parseFloat);
        if obj.Some? {
          objs := objs + [obj.value];
        }
      }
      k := k + 1;
    }
    assert rows[..k] == rows;
  }

  // ---------------------------------------------------------------- properties

  /** Every CSV file is counted exactly once: processed, skipped or an
      error. */
  lemma {:induction false} TallySum(st: ImportState, files: seq<WalkedFile>, parseFloat: string -> Option<real>)
    ensures var run := ImportAll(st, files, parseFloat);
            run.processed + run.skipped + run.errors == CountWhere(files, IsCsv)
  {
    if files != [] {
      TallySum(st, files[..|files| - 1], parseFloat);
    }
  }

  /** The collected objects belong to the video and carry non-empty
      stripped content. */
  lemma {:induction false} RowObjectsOwned(v: Video, rows: Csv, parseFloat: string -> Option<real>)
    ensures var r := RowObjects(v, rows, parseFloat);
            AllOf(r, v.id)
            && forall j :: 0 <= j < |r| ==>
                 r[j].content != "" && !IsSpace(r[j].content[0]) && !IsSpace(r[j].content[|r[j].content| - 1])
  {
    if rows != [] {
      var last := rows[|rows| - 1];
      var init := RowObjects(v, rows[..|rows| - 1], parseFloat);
      RowObjectsOwned(v, rows[..|rows| - 1], parseFloat);
      var r := RowObjects(v, rows, parseFloat);
      if Accepts(v, last, parseFloat) {
        var o := CreateObj(v, last, parseFloat).value;
        assert r == init + [o];
        forall j | 0 <= j < |r|
          ensures r[j].videoId == v.id && r[j].content != ""
                  && !IsSpace(r[j].content[0]) && !IsSpace(r[j].content[|r[j].content| - 1])
        {
          if j < |init| {
            assert r[j] == init[j];
          } else {
            assert r[j] == o;
          }
        }
      } else {
        assert r == init;
      }
    }
  }

  /** An accepted row's object is collected. */
  lemma {:induction false} AcceptedRowKept(v: Video, rows: Csv, parseFloat: string -> Option<real>, k: nat)
    requires k < |rows| && Accepts(v, rows[k], parseFloat)
    ensures CreateObj(v, rows[k], parseFloat).value in RowObjects(v, rows, parseFloat)
  {
    var init := rows[..|rows| - 1];
    if k < |init| {
      assert init[k] == rows[k];
      AcceptedRowKept(v, init, parseFloat, k);
    }
  }

  /** Every collected object comes from an accepted row. */
  lemma {:induction false} KeptFromAcceptedRow(v: Video, rows: Csv, parseFloat: string -> Option<real>, s: Segment)
    requires s in RowObjects(v, rows, parseFloat)
    ensures exists k :: 0 <= k < |rows| && Accepts(v, rows[k], parseFloat) && CreateObj(v, rows[k], parseFloat).value == s
  {
    var init := rows[..|rows| - 1];
    if s in RowObjects(v, init, parseFloat) {
      KeptFromAcceptedRow(v, init, parseFloat, s);
      var k :| 0 <= k < |init| && Accepts(v, init[k], parseFloat) && CreateObj(v, init[k], parseFloat).value == s;
      assert rows[k] == init[k];
    } else {
      assert Accepts(v, rows[|rows| - 1], parseFloat);
    }
  }

  /** A file matched to video `i` replaces that video's OCR rows by the
      objects of its accepted rows and leaves every other video's rows; the
      video is marked complete / pending exactly when it received rows, and
      no other video changes. A read error, or objects for a video whose
      course is gone, leaves the rows deleted and counts as an error. */
  lemma ImportFileEffect(st: ImportState, f: WalkedFile, parseFloat: string -> Option<real>, other: nat)
    requires IsCsv(f) && ResolveVideo(st.videos, FileId(f.name)).Some?
    ensures var i := ResolveVideo(st.videos, FileId(f.name)).value;
            var v := st.videos[i];
            var objs := if f.rows.None? || f.rows.value == [] || f.rows.value[0] == [] then []
                        else RowObjects(v, f.rows.value, parseFloat);
            var stored := if CourseById(st.courses, v.courseId).None? then [] else objs;
            var (next, o) := ImportFile(st, f, parseFloat);
            (o == Error <==> f.rows.None? || (objs != [] && stored == []))
            && RowsOf(next.ocrRows, v.id) == stored
            && (other != v.id ==> RowsOf(next.ocrRows, other) == RowsOf(st.ocrRows, other))
            && next.videos == (if stored == [] then st.videos else st.videos[i := MarkImported(v)])
            && next.courses == st.courses
  {
    var i := ResolveVideo(st.videos, FileId(f.name)).value;
    var v := st.videos[i];
    var objs := if f.rows.None? || f.rows.value == [] || f.rows.value[0] == [] then []
                else RowObjects(v, f.rows.value, parseFloat);
    var stored := if CourseById(st.courses, v.courseId).None? then [] else objs;
    if f.rows.Some? {
      RowObjectsOwned(v, f.rows.value, parseFloat);
    }
    ReplaceRowsEffect(st.ocrRows, v.id, stored, other);
    assert RowsNotOf(st.ocrRows, v.id) + [] == RowsNotOf(st.ocrRows, v.id);
  }

  /** A file that matches no video changes nothing. */
  lemma UnmatchedFileChangesNothing(st: ImportState, f: WalkedFile, parseFloat: string -> Option<real>)
    requires IsCsv(f) && ResolveVideo(st.videos, FileId(f.name)).None?
    ensures ImportFile(st, f, parseFloat) == (st, NoVideo)
  {
  }

  /** The lookups in order: the Vimeo id wins over the YouTube id, which
      wins over the `video_<id>` naming. */
  lemma ResolveOrder(videos: seq<Video>, fileId: string)
    ensures VideoByVimeoId(videos, fileId).Some? ==> ResolveVideo(videos, fileId) == VideoByVimeoId(videos, fileId)
    ensures VideoByVimeoId(videos, fileId).None? && VideoByYoutubeId(videos, fileId).Some? ==>
              ResolveVideo(videos, fileId) == VideoByYoutubeId(videos, fileId)
    ensures ResolveVideo(videos, fileId).None? <==>
              VideoByVimeoId(videos, fileId).None? && VideoByYoutubeId(videos, fileId).None? && ByDbId(videos, fileId).None?
  {
  }

  /** No decimal rendering contains `_`. */
  lemma DigitsHaveNoUnderscore(s: string)
    requires AllDigits(s)
    ensures !Contains(s, "_")
  {
    forall j: nat | j + 1 <= |s|
      ensures !OccursAt(s, "_", j)
    {
      assert s[j..j + 1][0] == s[j];
    }
  }

  lemma DigitsStripped(s: string)
    requires AllDigits(s) && |s| > 0
    ensures Strip(s) == s
  {
    assert !IsSpace(s[0]);
    assert LStrip(s) == s;
    assert !IsSpace(s[|s| - 1]);
  }

  /** `int` reads a decimal rendering back. */
  lemma PyIntDigits(d: string)
    requires AllDigits(d) && |d| > 0
    ensures PyInt(d) == Some(DigitsValue(d))
  {
    DecimalDigits(d);
    DigitsStripped(d);
  }

  lemma DecimalDigits(d: string)
    requires AllDigits(d) && |d| > 0
    ensures SignedDecimal(d) == Some(DigitsValue(d))
  {
    assert IsDigit(d[0]);
  }

  /** The id part of `video_<digits>` is the digits. */
  lemma VideoIdPartDigits(d: string)
    requires AllDigits(d)
    ensures StartsWith("video_" + d, "video_") && VideoIdPart("video_" + d) == d
  {
    var id := "video_" + d;
    assert id[..6] == "video_" && id[6..] == d;
    DigitsHaveNoUnderscore(d);
  }

  /** The stem of `<id>.csv` is `id` when `id` does not start with a dot. */
  lemma FileIdOfStem(id: string)
    requires id != [] && id[0] != '.'
    ensures EndsWith(id + ".csv", ".csv") && FileId(id + ".csv") == id
  {
    var name := id + ".csv";
    assert name[|name| - 4..] == ".csv";
    assert name[..|name| - 4] == id;
  }

  /** A file named `video_<n>.csv` that no platform id claims resolves to
      the video whose primary key is `n`. */
  lemma DbIdName(videos: seq<Video>, n: nat)
    requires VideoByVimeoId(videos, "video_" + NatToString(n)).None?
    requires VideoByYoutubeId(videos, "video_" + NatToString(n)).None?
    ensures FileId("video_" + NatToString(n) + ".csv") == "video_" + NatToString(n)
    ensures ResolveVideo(videos, FileId("video_" + NatToString(n) + ".csv")) == VideoById(videos, n)
  {
    var d := NatToString(n);
    NatToStringRoundTrip(n);
    FileIdOfStem("video_" + d);
    VideoIdPartDigits(d);
    PyIntDigits(d);
  }

  /** The difference the first-row check makes: a first row whose start
      parses but whose content is blank contributes `None` as written, and
      the file then fails in `bulk_create` instead of importing its other
      rows. */
  lemma FirstRowNoneIff(v: Video, rows: Csv, parseFloat: string -> Option<real>)
    requires rows != [] && rows[0] != []
    ensures None in ObjectsAsWritten(v, rows, parseFloat) <==>
              |rows[0]| >= 2 && parseFloat(rows[0][0]).Some? && Strip(rows[0][1]) == ""
  {
    var tail := RowObjects(v, rows[1..], parseFloat);
    var all := ObjectsAsWritten(v, rows, parseFloat);
    if |rows[0]| >= 2 && parseFloat(rows[0][0]).Some? {
      assert all[0] == CreateObj(v, rows[0], parseFloat);
      if None in all {
        var k :| 0 <= k < |all| && all[k] == None;
        assert k == 0;
      }
    } else {
      assert all == seq(|tail|, k requires 0 <= k < |tail| => Some(tail[k]));
    }
  }

  /** The input that shows it: a header-less file whose first row has a
      parseable start and a blank content cell, followed by a good row. As
      written the file fails; corrected, the good row is imported. */
  lemma FirstRowCounterexample(st: ImportState, f: WalkedFile, parseFloat: string -> Option<real>,
                               first: seq<string>, second: seq<string>)
    requires IsCsv(f) && ResolveVideo(st.videos, FileId(f.name)).Some?
    requires f.rows == Some([first, second])
    requires |first| == 2 && parseFloat(first[0]).Some? && Strip(first[1]) == ""
    requires |second| == 2 && parseFloat(second[0]).Some? && Strip(second[1]) != ""
    requires CourseById(st.courses, st.videos[ResolveVideo(st.videos, FileId(f.name)).value].courseId).Some?
    ensures ImportFileAsWritten(st, f, parseFloat).1 == Error
    ensures var v := st.videos[ResolveVideo(st.videos, FileId(f.name)).value];
            ImportFile(st, f, parseFloat).1 == Processed
            && RowsOf(ImportFile(st, f, parseFloat).0.ocrRows, v.id)
               == [SegmentFor(v, parseFloat(second[0]).value, Strip(second[1]))]
  {
    var v := st.videos[ResolveVideo(st.videos, FileId(f.name)).value];
    FirstRowNoneIff(v, [first, second], parseFloat);
    PairObjects(v, first, second, parseFloat);
    ImportFileEffect(st, f, parseFloat, v.id);
  }

  lemma PairObjects(v: Video, first: seq<string>, second: seq<string>, parseFloat: string -> Option<real>)
    requires |first| == 2 && Strip(first[1]) == ""
    requires |second| == 2 && parseFloat(second[0]).Some? && Strip(second[1]) != ""
    ensures RowObjects(v, [first, second], parseFloat) == [SegmentFor(v, parseFloat(second[0]).value, Strip(second[1]))]
  {
    assert !Accepts(v, first, parseFloat);
    RowObjectsSnoc(v, [], first, parseFloat);
    assert [] + [first] == [first];
    assert Accepts(v, second, parseFloat);
    RowObjectsSnoc(v, [first], second, parseFloat);
    assert [first] + [second] == [first, second];
  }

  lemma RowObjectsFirst(v: Video, rows: Csv, parseFloat: string -> Option<real>)
    requires rows != []
    ensures RowObjects(v, rows[..1], parseFloat) == if Accepts(v, rows[0], parseFloat) then [CreateObj(v, rows[0], parseFloat).value] else []
  {
    assert rows[..1][..0] == [];
  }

  lemma FirstRowAccepted(v: Video, row: seq<string>, parseFloat: string -> Option<real>)
    requires row != []
    ensures Accepts(v, row, parseFloat) <==> parseFloat(row[0]).Some? && |row| >= 2 && CreateObj(v, row, parseFloat).Some?
  {
  }

  lemma RowObjectsStep(v: Video, rows: Csv, k: nat, parseFloat: string -> Option<real>)
    requires k < |rows|
    ensures RowObjects(v, rows[..k + 1], parseFloat)
            == RowObjects(v, rows[..k], parseFloat) + (if Accepts(v, rows[k], parseFloat) then [CreateObj(v, rows[k], parseFloat).value] else [])
  {
    assert rows[..k + 1][..k] == rows[..k];
  }

  lemma RowObjectsSnoc(v: Video, rows: Csv, row: seq<string>, parseFloat: string -> Option<real>)
    ensures RowObjects(v, rows + [row], parseFloat)
            == RowObjects(v, rows, parseFloat) + (if Accepts(v, row, parseFloat) then [CreateObj(v, row, parseFloat).value] else [])
  {
    assert (rows + [row])[..|rows|] == rows;
  }

  /** The cells of the concrete input `["1.0", "  "]`, `["2.0", "text"]`
      meet those conditions whenever `float` reads both starts. */
  lemma ConcreteCells()
    ensures Strip("  ") == "" && Strip("text") == "text" && Strip("text") != ""
  {
    StripEmptyIffBlank("  ");
    var t := "text";
    assert !IsSpace(t[0]) && !IsSpace(t[|t| - 1]);
    assert LStrip(t) == t;
    assert RStrip(t) == t;
  }
}
