/** The `load_courses` command (`core/management/commands/load_courses.py`):
    courses and their videos are read from a JSON list and upserted, courses
    by title and videos by their platform id within the course. With
    `--wipe` every course and video (and, by the cascading keys, every row
    that points at one) is deleted first.

    The decoded JSON is a parameter: `None` when the file is missing or does
    not decode. New rows get the id one above the largest in their table. */
module LoadCourses {
  import opened Common
  import opened Models
  import opened Store

  /** One element of a course's `videos` list; `None` is an absent key. */
  datatype VideoEntry = VideoEntry(videoId: Option<string>, videoUrl: Option<string>, title: Option<string>)

  /** One element of the top-level list; an absent `videos` key is the
      empty list. */
  datatype CourseEntry = CourseEntry(title: Option<string>, description: Option<string>,
                                     imageUrl: Option<string>, videos: seq<VideoEntry>)

  /** How `handle` ended. */
  datatype Outcome = Finished | FileProblem | Crashed

  /** The two tables the loop writes. */
  datatype Tables = Tables(courses: seq<Course>, videos: seq<Video>)

  /** Which `update_or_create` a URL leads to. */
  datatype Platform = YouTube | Vimeo | Unknown

  const UntitledVideo := "Untitled Video"

  /** `dict.get(key, default)` on a text value. */
  function GetOr(o: Option<string>, default: string): string {
    if o.Some? then o.value else default
  }

  /** 'youtube.com' is checked first, then 'vimeo.com'; nothing else (a
      `youtu.be` short link, say) names a platform. */
  function PlatformOf(url: string): (p: Platform)
    ensures p == YouTube <==> Contains(url, "youtube.com")
    ensures p == Vimeo <==> !Contains(url, "youtube.com") && Contains(url, "vimeo.com")
  {
    if Contains(url, "youtube.com") then YouTube
    else if Contains(url, "vimeo.com") then Vimeo
    else Unknown
  }

  /** Positions of the elements satisfying `p`, in increasing order. */
  function Positions<T>(s: seq<T>, p: T -> bool): (r: seq<nat>)
    ensures forall k :: 0 <= k < |r| ==> r[k] < |s| && p(s[r[k]])
    ensures forall i :: 0 <= i < |s| && p(s[i]) ==> i in r
    ensures forall j, k :: 0 <= j < k < |r| ==> r[j] < r[k]
  {
    if s == [] then []
    else Positions(s[..|s| - 1], p) + (if p(s[|s| - 1]) then [|s| - 1] else [])
  }

  /** A `get` over the rows satisfying `p`. */
  function Get<T>(s: seq<T>, p: T -> bool): (r: Lookup)
    ensures r.Found? ==> r.index < |s| && p(s[r.index])
    ensures r.Found? ==> forall i :: 0 <= i < |s| && i != r.index ==> !p(s[i])
    ensures r.NotFound? <==> forall i :: 0 <= i < |s| ==> !p(s[i])
  {
    var m := Positions(s, p);
    assert |m| > 0 ==> p(s[m[0]]);
    LookupOf(m)
  }

  /** The id the next insert into a table receives: above every id in it. */
  function NextCourseId(courses: seq<Course>): (r: nat)
    ensures r > 0 && forall k :: 0 <= k < |courses| ==> courses[k].id < r
  {
    if courses == [] then 1
    else
      var n := NextCourseId(courses[..|courses| - 1]);
      var last := courses[|courses| - 1].id;
      if last < n then n else last + 1
  }

  function NextVideoId(videos: seq<Video>): (r: nat)
    ensures r > 0 && forall k :: 0 <= k < |videos| ==> videos[k].id < r
  {
    if videos == [] then 1
    else
      var n := NextVideoId(videos[..|videos| - 1]);
      var last := videos[|videos| - 1].id;
      if last < n then n else last + 1
  }

  // ---------------------------------------------------------------- one course

  /** `Course.objects.get(title=…)`. */
  function CourseByTitle(courses: seq<Course>, title: string): (r: Lookup)
    ensures r.Found? ==> r.index < |courses| && courses[r.index].title == title
    ensures r.Found? ==> forall i :: 0 <= i < |courses| && i != r.index ==> courses[i].title != title
    ensures r.NotFound? <==> forall i :: 0 <= i < |courses| ==> courses[i].title != title
  {
    Get(courses, (c: Course) => c.title == title)
  }

  lemma CourseUnique(courses: seq<Course>, title: string, i: nat)
    requires i < |courses| && courses[i].title == title
    requires forall k :: 0 <= k < |courses| && k != i ==> courses[k].title != title
    ensures CourseByTitle(courses, title) == Found(i)
  {
    GetUnique(courses, (c: Course) => c.title == title, i);
  }

  /** `Course.objects.update_or_create(title=…, defaults=…)`: the position
      of the course upserted, or `None` when several courses carry the
      title and `get` raises. */
  function UpsertCourse(courses: seq<Course>, title: string, description: string, imageUrl: string)
    : Option<(seq<Course>, nat)>
  {
    var found := CourseByTitle(courses, title);
    if found.Multiple? then None
    else if found.Found? then
      var i := found.index;
      Some((courses[i := courses[i].(description := description, imageUrl := imageUrl)], i))
    else Some((courses + [NewCourse(NextCourseId(courses), title, description, imageUrl)], |courses|))
  }

  /** The lookup columns of the video `update_or_create`. */
  predicate KeyMatches(v: Video, p: Platform, id: string, courseId: nat) {
    v.courseId == courseId && (if p == YouTube then v.youtubeId == Some(id) else v.vimeoId == Some(id))
  }

  /** `Video.objects.get(youtube_id=…, course=…)` (or `vimeo_id`). */
  function VideoByKey(videos: seq<Video>, p: Platform, id: string, courseId: nat): (r: Lookup)
    ensures r.Found? ==> r.index < |videos| && KeyMatches(videos[r.index], p, id, courseId)
    ensures r.Found? ==> forall i :: 0 <= i < |videos| && i != r.index ==> !KeyMatches(videos[i], p, id, courseId)
    ensures r.NotFound? <==> forall i :: 0 <= i < |videos| ==> !KeyMatches(videos[i], p, id, courseId)
  {
    Get(videos, (v: Video) => KeyMatches(v, p, id, courseId))
  }

  lemma VideoUnique(videos: seq<Video>, p: Platform, id: string, courseId: nat, i: nat)
    requires i < |videos| && KeyMatches(videos[i], p, id, courseId)
    requires forall k :: 0 <= k < |videos| && k != i ==> !KeyMatches(videos[k], p, id, courseId)
    ensures VideoByKey(videos, p, id, courseId) == Found(i)
  {
    GetUnique(videos, (v: Video) => KeyMatches(v, p, id, courseId), i);
  }

  /** Some row already holds the platform id, in whatever course: a create
      with it breaks the column's uniqueness. */
  predicate Taken(videos: seq<Video>, p: Platform, id: string) {
    exists k :: 0 <= k < |videos| && (if p == YouTube then videos[k].youtubeId == Some(id) else videos[k].vimeoId == Some(id))
  }

  /** One turn of the inner loop: the table after it, or `None` when the
      upsert raises. */
  function UpsertVideo(videos: seq<Video>, courseId: nat, e: VideoEntry): Option<seq<Video>> {
    if !Truthy(e.videoId) || !Truthy(e.videoUrl) then Some(videos)
    else
      var id := e.videoId.value;
      var url := e.videoUrl.value;
      var title := GetOr(e.title, UntitledVideo);
      var p := PlatformOf(url);
      if p == Unknown then Some(videos)
      else
        var found := VideoByKey(videos, p, id, courseId);
        if found.Multiple? then None
        else if found.Found? then
          var i := found.index;
          Some(videos[i := videos[i].(title := title, videoUrl := url, courseId := courseId)])
        else if Taken(videos, p, id) then None
        else
          var yt := if p == YouTube then Some(id) else None;
          var vm := if p == Vimeo then Some(id) else None;
          Some(videos + [NewVideo(NextVideoId(videos), yt, vm, title, url, courseId)])
  }

  /** The inner loop: the table, and whether an upsert raised (which ends
      the command with the earlier writes kept). */
  function LoadVideos(videos: seq<Video>, courseId: nat, es: seq<VideoEntry>): (seq<Video>, bool) {
    if es == [] then (videos, false)
    else
      var (before, crashed) := LoadVideos(videos, courseId, es[..|es| - 1]);
      if crashed then (before, true)
      else match UpsertVideo(before, courseId, es[|es| - 1])
        case None => (before, true)
        case Some(after) => (after, false)
  }

  /** One turn of the outer loop. A missing `title` key raises. */
  function LoadCourse(t: Tables, e: CourseEntry): (Tables, bool) {
    if e.title.None? then (t, true)
    else match UpsertCourse(t.courses, e.title.value, GetOr(e.description, ""), GetOr(e.imageUrl, ""))
      case None => (t, true)
      case Some((courses, i)) =>
        var (videos, crashed) := LoadVideos(t.videos, courses[i].id, e.videos);
        (Tables(courses, videos), crashed)
  }

  /** The outer loop over the decoded list. */
  function LoadAll(t: Tables, es: seq<CourseEntry>): (Tables, bool) {
    if es == [] then (t, false)
    else
      var (before, crashed) := LoadAll(t, es[..|es| - 1]);
      if crashed then (before, true)
      else LoadCourse(before, es[|es| - 1])
  }

  // ---------------------------------------------------------------- the command

  /** `handle(json_file, wipe=…)`; `parsed` is what `json.load` returned. */
  method Handle(db: Db, wipe: bool, parsed: Option<seq<CourseEntry>>) returns (r: Outcome)
    modifies db`courses, db`videos, db`transcripts, db`ocrRows, db`notes, db`conversations, db`messages
    ensures wipe ==> db.transcripts == [] && db.ocrRows == [] && db.notes == [] && db.conversations == [] && db.messages == []
    ensures !wipe ==> db.transcripts == old(db.transcripts) && db.ocrRows == old(db.ocrRows) && db.notes == old(db.notes)
                      && db.conversations == old(db.conversations) && db.messages == old(db.messages)
    ensures var start := if wipe then Tables([], []) else Tables(old(db.courses), old(db.videos));
            if parsed.None? then r == FileProblem && Tables(db.courses, db.videos) == start
            else var (t, crashed) := LoadAll(start, parsed.value);
                 Tables(db.courses, db.videos) == t && (r == Crashed <==> crashed) && (r == Finished <==> !crashed)
  {
    if wipe {
      db.videos := [];
      db.transcripts := [];
      db.ocrRows := [];
      db.notes := [];
      db.conversations := [];
      db.messages := [];
      db.courses := [];
    }
    if parsed.None? {
      return FileProblem;
    }
    var crashed := LoadEntries(db, parsed.value);
    r := if crashed then Crashed else Finished;
  }

  /** `for course_data in courses_data`. */
  method LoadEntries(db: Db, es: seq<CourseEntry>) returns (crashed: bool)
    modifies db`courses, db`videos
    ensures (Tables(db.courses, db.videos), crashed) == LoadAll(Tables(old(db.courses), old(db.videos)), es)
  {
    ghost var t0 := Tables(db.courses, db.videos);
    var j := 0;
    while j < |es|
      invariant j <= |es|
      invariant (Tables(db.courses, db.videos), false) == LoadAll(t0, es[..j])
    {
      LoadAllStep(t0, es, j);
      crashed := LoadOne(db, es[j]);
      if crashed {
        LoadAllStops(t0, es, j + 1);
        assert es[..|es|] == es;
        return;
      }
      j := j + 1;
    }
    assert es[..j] == es;
    crashed := false;
  }

  /** The body of the outer loop. */
  method LoadOne(db: Db, e: CourseEntry) returns (crashed: bool)
    modifies db`courses, db`videos
    ensures (Tables(db.courses, db.videos), crashed) == LoadCourse(Tables(old(db.courses), old(db.videos)), e)
  {
    if e.title.None? {
      return true;
    }
    var upserted := UpsertCourse(db.courses, e.title.value, GetOr(e.description, ""), GetOr(e.imageUrl, ""));
    if upserted.None? {
      return true;
    }
    var (courses, i) := upserted.value;
    db.courses := courses;
    crashed := LoadVideoEntries(db, courses[i].id, e.videos);
  }

  /** `for video_data in course_data.get('videos', [])`. */
  method LoadVideoEntries(db: Db, courseId: nat, es: seq<VideoEntry>) returns (crashed: bool)
    modifies db`videos
    ensures (db.videos, crashed) == LoadVideos(old(db.videos), courseId, es)
  {
    ghost var v0 := db.videos;
    var j := 0;
    while j < |es|
      invariant j <= |es|
      invariant (db.videos, false) == LoadVideos(v0, courseId, es[..j])
    {
      assert es[..j + 1][..j] == es[..j];
      var next := UpsertVideo(db.videos, courseId, es[j]);
      if next.None? {
        LoadVideosStops(v0, courseId, es, j + 1);
        assert es[..|es|] == es;
        return true;
      }
      db.videos := next.value;
      j := j + 1;
    }
    assert es[..j] == es;
    crashed := false;
  }

  lemma LoadAllStep(t0: Tables, es: seq<CourseEntry>, j: nat)
    requires j < |es|
    ensures var (before, crashed) := LoadAll(t0, es[..j]);
            LoadAll(t0, es[..j + 1]) == if crashed then (before, true) else LoadCourse(before, es[j])
  {
    assert es[..j + 1][..j] == es[..j];
  }

  lemma {:induction false} LoadAllStops(t0: Tables, es: seq<CourseEntry>, n: nat)
    requires 0 < n <= |es| && LoadAll(t0, es[..n]).1
    ensures LoadAll(t0, es[..|es|]) == LoadAll(t0, es[..n])
    decreases |es| - n
  {
    if n < |es| {
      assert es[..n + 1][..n] == es[..n];
      LoadAllStops(t0, es, n + 1);
    }
  }

  lemma {:induction false} LoadVideosStops(v0: seq<Video>, courseId: nat, es: seq<VideoEntry>, n: nat)
    requires 0 < n <= |es| && LoadVideos(v0, courseId, es[..n]).1
    ensures LoadVideos(v0, courseId, es[..|es|]) == LoadVideos(v0, courseId, es[..n])
    decreases |es| - n
  {
    if n < |es| {
      assert es[..n + 1][..n] == es[..n];
      LoadVideosStops(v0, courseId, es, n + 1);
    }
  }

  // ---------------------------------------------------------------- properties

  /** The course upsert raises exactly when the title is ambiguous.
      Otherwise the course at the returned position carries the title, the
      description and the image URL given, it is the only one with that
      title, a course is added exactly when none had the title, and every
      other course is left as it was. */
  lemma UpsertCourseEffect(courses: seq<Course>, title: string, description: string, imageUrl: string)
    ensures var found := CourseByTitle(courses, title);
            var r := UpsertCourse(courses, title, description, imageUrl);
            (r.None? <==> found.Multiple?)
            && (r.Some? ==>
                  var (cs, i) := r.value;
                  i < |cs| && cs[i].title == title && cs[i].description == description && cs[i].imageUrl == imageUrl
                  && CourseByTitle(cs, title) == Found(i)
                  && |cs| == |courses| + (if found.NotFound? then 1 else 0)
                  && (forall k :: 0 <= k < |courses| && k != i ==> cs[k] == courses[k])
                  && (i < |courses| ==> cs[i].id == courses[i].id && cs[i].indexStatus == courses[i].indexStatus)
                  && (i == |courses| ==> cs[i].indexStatus == NoIndex && forall k :: 0 <= k < |courses| ==> courses[k].id != cs[i].id))
  {
    var found := CourseByTitle(courses, title);
    if found.Found? {
      UpsertCourseFound(courses, title, description, imageUrl, found.index);
    } else if found.NotFound? {
      UpsertCourseNew(courses, title, description, imageUrl);
    }
  }

  lemma UpsertCourseFound(courses: seq<Course>, title: string, description: string, imageUrl: string, i: nat)
    requires CourseByTitle(courses, title) == Found(i)
    ensures var cs := courses[i := courses[i].(description := description, imageUrl := imageUrl)];
            UpsertCourse(courses, title, description, imageUrl) == Some((cs, i))
            && CourseByTitle(cs, title) == Found(i)
  {
    var cs := courses[i := courses[i].(description := description, imageUrl := imageUrl)];
    assert forall k :: 0 <= k < |cs| && k != i ==> cs[k] == courses[k];
    CourseUnique(cs, title, i);
  }

  lemma UpsertCourseNew(courses: seq<Course>, title: string, description: string, imageUrl: string)
    requires CourseByTitle(courses, title).NotFound?
    ensures var cs := courses + [NewCourse(NextCourseId(courses), title, description, imageUrl)];
            UpsertCourse(courses, title, description, imageUrl) == Some((cs, |courses|))
            && CourseByTitle(cs, title) == Found(|courses|)
  {
    var cs := courses + [NewCourse(NextCourseId(courses), title, description, imageUrl)];
    assert forall k :: 0 <= k < |courses| ==> cs[k] == courses[k];
    CourseUnique(cs, title, |courses|);
  }

  /** The last of a strictly increasing list lies at least its length
      minus one above the first. */
  lemma {:induction false} Spread(m: seq<nat>)
    requires |m| > 0 && forall j, k :: 0 <= j < k < |m| ==> m[j] < m[k]
    ensures m[|m| - 1] >= m[0] + |m| - 1
  {
    if |m| > 1 {
      Spread(m[..|m| - 1]);
      assert m[|m| - 2] < m[|m| - 1];
    }
  }

  /** A `get` finds the one row that satisfies the test. */
  lemma GetUnique<T>(s: seq<T>, p: T -> bool, i: nat)
    requires i < |s| && p(s[i])
    requires forall k :: 0 <= k < |s| && k != i ==> !p(s[k])
    ensures Get(s, p) == Found(i)
  {
    var m := Positions(s, p);
    assert i in m;
    assert forall k :: 0 <= k < |m| ==> m[k] == i;
    Spread(m);
  }

  /** Upserting the same course twice leaves what upserting it once left. */
  lemma UpsertCourseTwice(courses: seq<Course>, title: string, description: string, imageUrl: string)
    requires UpsertCourse(courses, title, description, imageUrl).Some?
    ensures var (cs, i) := UpsertCourse(courses, title, description, imageUrl).value;
            UpsertCourse(cs, title, description, imageUrl) == Some((cs, i))
  {
    UpsertCourseEffect(courses, title, description, imageUrl);
    var (cs, i) := UpsertCourse(courses, title, description, imageUrl).value;
    assert cs[i := cs[i].(description := description, imageUrl := imageUrl)] == cs;
  }

  /** A video entry without a truthy id, without a truthy URL, or whose URL
      names neither platform changes nothing. */
  lemma SkippedEntries(videos: seq<Video>, courseId: nat, e: VideoEntry)
    requires !Truthy(e.videoId) || !Truthy(e.videoUrl) || PlatformOf(e.videoUrl.value) == Unknown
    ensures UpsertVideo(videos, courseId, e) == Some(videos)
  {
  }

  /** For an entry that is not skipped, the upsert raises exactly when
      several rows match the key, or none does and another course's row
      already holds the platform id. */
  lemma UpsertVideoRaises(videos: seq<Video>, courseId: nat, e: VideoEntry)
    requires Truthy(e.videoId) && Truthy(e.videoUrl) && PlatformOf(e.videoUrl.value) != Unknown
    ensures var p := PlatformOf(e.videoUrl.value);
            var found := VideoByKey(videos, p, e.videoId.value, courseId);
            UpsertVideo(videos, courseId, e).None? <==> found.Multiple? || (found.NotFound? && Taken(videos, p, e.videoId.value))
  {
  }

  /** When it does not raise, exactly one row matches the key afterwards,
      with the entry's title (or "Untitled Video") and URL; a row is added
      exactly when none matched, and every other row is left as it was. */
  lemma UpsertVideoEffect(videos: seq<Video>, courseId: nat, e: VideoEntry)
    requires Truthy(e.videoId) && Truthy(e.videoUrl) && PlatformOf(e.videoUrl.value) != Unknown
    requires UpsertVideo(videos, courseId, e).Some?
    ensures var p := PlatformOf(e.videoUrl.value);
            var found := VideoByKey(videos, p, e.videoId.value, courseId);
            var vs := UpsertVideo(videos, courseId, e).value;
            var i := if found.Found? then found.index else |videos|;
            |vs| == |videos| + (if found.NotFound? then 1 else 0)
            && (forall k :: 0 <= k < |videos| && k != i ==> vs[k] == videos[k])
            && i < |vs| && VideoByKey(vs, p, e.videoId.value, courseId) == Found(i)
            && vs[i].title == GetOr(e.title, UntitledVideo) && vs[i].videoUrl == e.videoUrl.value
  {
    var found := VideoByKey(videos, PlatformOf(e.videoUrl.value), e.videoId.value, courseId);
    var vs := UpsertVideo(videos, courseId, e).value;
    if found.Found? {
      UpsertVideoFound(videos, courseId, e, found.index);
    } else {
      UpsertVideoNew(videos, courseId, e);
    }
  }

  lemma UpsertVideoFound(videos: seq<Video>, courseId: nat, e: VideoEntry, i: nat)
    requires Truthy(e.videoId) && Truthy(e.videoUrl) && PlatformOf(e.videoUrl.value) != Unknown
    requires VideoByKey(videos, PlatformOf(e.videoUrl.value), e.videoId.value, courseId) == Found(i)
    ensures var vs := UpsertVideo(videos, courseId, e).value;
            vs == videos[i := videos[i].(title := GetOr(e.title, UntitledVideo), videoUrl := e.videoUrl.value)]
            && VideoByKey(vs, PlatformOf(e.videoUrl.value), e.videoId.value, courseId) == Found(i)
  {
    var vs := UpsertVideo(videos, courseId, e).value;
    assert vs == videos[i := videos[i].(title := GetOr(e.title, UntitledVideo), videoUrl := e.videoUrl.value)];
    assert forall k :: 0 <= k < |vs| && k != i ==> vs[k] == videos[k];
    VideoUnique(vs, PlatformOf(e.videoUrl.value), e.videoId.value, courseId, i);
  }

  lemma UpsertVideoNew(videos: seq<Video>, courseId: nat, e: VideoEntry)
    requires Truthy(e.videoId) && Truthy(e.videoUrl) && PlatformOf(e.videoUrl.value) != Unknown
    requires VideoByKey(videos, PlatformOf(e.videoUrl.value), e.videoId.value, courseId).NotFound?
    requires UpsertVideo(videos, courseId, e).Some?
    ensures var vs := UpsertVideo(videos, courseId, e).value;
            |vs| == |videos| + 1 && vs[..|videos|] == videos
            && vs[|videos|].title == GetOr(e.title, UntitledVideo) && vs[|videos|].videoUrl == e.videoUrl.value
            && VideoByKey(vs, PlatformOf(e.videoUrl.value), e.videoId.value, courseId) == Found(|videos|)
  {
    var vs := UpsertVideo(videos, courseId, e).value;
    assert vs[..|videos|] == videos;
    assert forall k :: 0 <= k < |videos| ==> vs[k] == videos[k];
    VideoUnique(vs, PlatformOf(e.videoUrl.value), e.videoId.value, courseId, |videos|);
  }

  /** Upserting the same video entry twice leaves what upserting it once
      left. */
  lemma UpsertVideoTwice(videos: seq<Video>, courseId: nat, e: VideoEntry)
    requires UpsertVideo(videos, courseId, e).Some?
    ensures UpsertVideo(UpsertVideo(videos, courseId, e).value, courseId, e) == UpsertVideo(videos, courseId, e)
  {
    if Truthy(e.videoId) && Truthy(e.videoUrl) && PlatformOf(e.videoUrl.value) != Unknown {
      UpsertVideoEffect(videos, courseId, e);
      var vs := UpsertVideo(videos, courseId, e).value;
      var found := VideoByKey(videos, PlatformOf(e.videoUrl.value), e.videoId.value, courseId);
      var i := if found.Found? then found.index else |videos|;
      UpsertVideoFound(vs, courseId, e, i);
      assert vs[i := vs[i].(title := GetOr(e.title, UntitledVideo), videoUrl := e.videoUrl.value)] == vs;
    }
  }

  /** A video already stored under another course cannot be loaded under a
      new one: the lookup misses it and the insert breaks the uniqueness of
      its platform id. */
  lemma MovedVideoRaises(videos: seq<Video>, courseId: nat, e: VideoEntry, k: nat)
    requires Truthy(e.videoId) && Truthy(e.videoUrl) && PlatformOf(e.videoUrl.value) == YouTube
    requires k < |videos| && videos[k].youtubeId == e.videoId && videos[k].courseId != courseId
    requires forall j :: 0 <= j < |videos| && videos[j].youtubeId == e.videoId ==> j == k
    ensures UpsertVideo(videos, courseId, e).None?
  {
    assert forall j :: 0 <= j < |videos| ==> !KeyMatches(videos[j], YouTube, e.videoId.value, courseId);
  }

  /** A text in which some character of `sub` never appears does not
      contain `sub`. */
  lemma MissingChar(s: string, sub: string, c: char)
    requires c in sub && c !in s
    ensures !Contains(s, sub)
  {
    var k :| 0 <= k < |sub| && sub[k] == c;
    forall j: nat | j + |sub| <= |s|
      ensures !OccursAt(s, sub, j)
    {
      assert s[j..j + |sub|][k] == s[j + k];
    }
  }

  lemma ContainsMiddle(a: string, sub: string, b: string)
    ensures Contains(a + sub + b, sub)
  {
    assert (a + sub + b)[|a|..|a| + |sub|] == sub;
    ContainsAt(a + sub + b, sub, |a|);
  }

  /** Any URL with "youtube.com" in it names YouTube, even when it also
      mentions "vimeo.com": the YouTube test comes first. */
  lemma YouTubeLinkIsYouTube(a: string, b: string)
    ensures PlatformOf(a + "youtube.com" + b) == YouTube
    ensures PlatformOf(a + "youtube.com" + b + "vimeo.com") == YouTube
  {
    ContainsMiddle(a, "youtube.com", b);
    assert a + "youtube.com" + b + "vimeo.com" == a + "youtube.com" + (b + "vimeo.com");
    ContainsMiddle(a, "youtube.com", b + "vimeo.com");
  }

  /** A Vimeo URL names Vimeo when nothing around "vimeo.com" has a `y`, so
      that "youtube.com" cannot occur in it — `https://vimeo.com/<digits>`,
      say. */
  lemma VimeoLinkIsVimeo(a: string, b: string)
    requires 'y' !in a && 'y' !in b
    ensures PlatformOf(a + "vimeo.com" + b) == Vimeo
  {
    var url := a + "vimeo.com" + b;
    assert 'y' !in url by {
      assert 'y' !in "vimeo.com";
    }
    MissingChar(url, "youtube.com", 'y');
    ContainsMiddle(a, "vimeo.com", b);
  }

  /** A short `https://youtu.be/<id>` link names no platform when the id has
      no `m` (both platform names contain one), so its entry is skipped. */
  lemma ShortLinkIsSkipped(videos: seq<Video>, courseId: nat, id: string, videoId: string, title: Option<string>)
    requires videoId != "" && 'm' !in id
    ensures PlatformOf("https://youtu.be/" + id) == Unknown
    ensures UpsertVideo(videos, courseId, VideoEntry(Some(videoId), Some("https://youtu.be/" + id), title)) == Some(videos)
  {
    var url := "https://youtu.be/" + id;
    assert 'm' !in url by {
      assert 'm' !in "https://youtu.be/";
    }
    MissingChar(url, "youtube.com", 'm');
    MissingChar(url, "vimeo.com", 'm');
  }

  /** The table after a run extends the one before: no course or video is
      deleted, and each keeps its id, its title (courses), its platform ids
      and course (videos) and its status fields. */
  predicate Extends(a: Tables, b: Tables) {
    CoursesExtend(a.courses, b.courses) && VideosExtend(a.videos, b.videos)
  }

  predicate CoursesExtend(a: seq<Course>, b: seq<Course>) {
    |a| <= |b|
    && forall k :: 0 <= k < |a| ==>
         b[k].id == a[k].id && b[k].title == a[k].title && b[k].indexStatus == a[k].indexStatus
  }

  predicate VideosExtend(a: seq<Video>, b: seq<Video>) {
    |a| <= |b|
    && forall k :: 0 <= k < |a| ==>
         b[k].id == a[k].id && b[k].youtubeId == a[k].youtubeId
         && b[k].vimeoId == a[k].vimeoId && b[k].courseId == a[k].courseId
         && b[k].transcriptStatus == a[k].transcriptStatus
         && b[k].ocrTranscriptStatus == a[k].ocrTranscriptStatus
         && b[k].indexStatus == a[k].indexStatus
         && b[k].ocrIndexStatus == a[k].ocrIndexStatus
  }

  lemma VideosExtendTrans(a: seq<Video>, b: seq<Video>, c: seq<Video>)
    requires VideosExtend(a, b) && VideosExtend(b, c)
    ensures VideosExtend(a, c)
  {
  }

  lemma ExtendsTrans(a: Tables, b: Tables, c: Tables)
    requires Extends(a, b) && Extends(b, c)
    ensures Extends(a, c)
  {
    VideosExtendTrans(a.videos, b.videos, c.videos);
  }

  /** One upsert deletes no video and changes no identity, course or status. */
  lemma UpsertVideoExtends(videos: seq<Video>, courseId: nat, e: VideoEntry)
    requires UpsertVideo(videos, courseId, e).Some?
    ensures VideosExtend(videos, UpsertVideo(videos, courseId, e).value)
  {
    if Truthy(e.videoId) && Truthy(e.videoUrl) && PlatformOf(e.videoUrl.value) != Unknown {
      var found := VideoByKey(videos, PlatformOf(e.videoUrl.value), e.videoId.value, courseId);
      if found.Found? {
        UpsertVideoFound(videos, courseId, e, found.index);
      } else {
        UpsertVideoNew(videos, courseId, e);
        var vs := UpsertVideo(videos, courseId, e).value;
        assert forall k :: 0 <= k < |videos| ==> vs[k] == vs[..|videos|][k];
      }
    }
  }

  lemma {:induction false} LoadVideosExtends(t: Tables, courseId: nat, es: seq<VideoEntry>)
    ensures Extends(t, Tables(t.courses, LoadVideos(t.videos, courseId, es).0))
  {
    if es != [] {
      LoadVideosExtends(t, courseId, es[..|es| - 1]);
      var (before, crashed) := LoadVideos(t.videos, courseId, es[..|es| - 1]);
      var e := es[|es| - 1];
      if !crashed && UpsertVideo(before, courseId, e).Some? {
        UpsertVideoExtends(before, courseId, e);
        VideosExtendTrans(t.videos, before, UpsertVideo(before, courseId, e).value);
      }
    }
  }

  lemma LoadCourseExtends(t: Tables, e: CourseEntry)
    ensures Extends(t, LoadCourse(t, e).0)
  {
    if e.title.Some? {
      UpsertCourseEffect(t.courses, e.title.value, GetOr(e.description, ""), GetOr(e.imageUrl, ""));
      var r := UpsertCourse(t.courses, e.title.value, GetOr(e.description, ""), GetOr(e.imageUrl, ""));
      if r.Some? {
        var (courses, i) := r.value;
        LoadVideosExtends(Tables(courses, t.videos), courses[i].id, e.videos);
      }
    }
  }

  /** Without `--wipe` nothing is deleted: whatever the file holds and
      however the run ends, every course and video row keeps its identity
      and its statuses. */
  lemma {:induction false} AppendModeKeepsRows(t: Tables, es: seq<CourseEntry>)
    ensures Extends(t, LoadAll(t, es).0)
  {
    if es != [] {
      AppendModeKeepsRows(t, es[..|es| - 1]);
      var (before, crashed) := LoadAll(t, es[..|es| - 1]);
      if !crashed {
        LoadCourseExtends(before, es[|es| - 1]);
        ExtendsTrans(t, before, LoadAll(t, es).0);
      }
    }
  }
}
