/** The Django models the core reads and writes, as values: courses,
    videos with their four status fields, transcript and OCR segment rows,
    notes, conversations and their messages. The status fields are one
    enumeration whose values are the strings stored in the database. */
module Models {
  import opened Common

  /** Every status string the core stores ('none', 'pending', 'processing',
      'indexing', 'complete', 'failed'). */
  datatype Status = NoIndex | Pending | Processing | Indexing | Complete | Failed

  /** The string the database stores for each status. */
  function StatusName(s: Status): (r: string)
    ensures |r| > 0
    ensures s == NoIndex <==> r == "none"
    ensures s == Pending <==> r == "pending"
    ensures s == Processing <==> r == "processing"
    ensures s == Indexing <==> r == "indexing"
    ensures s == Complete <==> r == "complete"
    ensures s == Failed <==> r == "failed"
  {
    match s
    case NoIndex => "none"
    case Pending => "pending"
    case Processing => "processing"
    case Indexing => "indexing"
    case Complete => "complete"
    case Failed => "failed"
  }

  /** The stored strings are distinct, so the enumeration loses nothing. */
  lemma StatusNameInjective(a: Status, b: Status)
    requires StatusName(a) == StatusName(b)
    ensures a == b
  {
    match a
    case NoIndex => assert StatusName(a)[0] == 'n';
    case Pending => assert StatusName(a)[0] == 'p' && StatusName(a)[1] == 'e';
    case Processing => assert StatusName(a)[0] == 'p' && StatusName(a)[1] == 'r';
    case Indexing => assert StatusName(a)[0] == 'i';
    case Complete => assert StatusName(a)[0] == 'c';
    case Failed => assert StatusName(a)[0] == 'f';
  }

  /** The choices declared for `Course.index_status`. */
  predicate CourseIndexChoice(s: Status) {
    s == NoIndex || s == Indexing || s == Complete || s == Failed
  }

  /** The choices declared for `Video.transcript_status`. */
  predicate TranscriptChoice(s: Status) {
    s == Pending || s == Processing || s == Complete || s == Failed
  }

  datatype Course = Course(id: nat, title: string, description: string, imageUrl: string,
                           indexStatus: Status)

  /** A new course row; `index_status` takes its declared default. */
  function NewCourse(id: nat, title: string, description: string, imageUrl: string): (c: Course)
    ensures c.indexStatus == NoIndex && CourseIndexChoice(c.indexStatus)
    ensures c.id == id && c.title == title && c.description == description && c.imageUrl == imageUrl
  {
    Course(id, title, description, imageUrl, NoIndex)
  }

  datatype Video = Video(id: nat, youtubeId: Option<string>, vimeoId: Option<string>,
                         title: string, videoUrl: string, courseId: nat,
                         transcriptStatus: Status, ocrTranscriptStatus: Status,
                         indexStatus: Status, ocrIndexStatus: Status)

  /** A new video row; `transcript_status` takes its declared default. */
  function NewVideo(id: nat, youtubeId: Option<string>, vimeoId: Option<string>,
                    title: string, videoUrl: string, courseId: nat): (v: Video)
    ensures v.transcriptStatus == Pending && TranscriptChoice(v.transcriptStatus)
    ensures v.ocrTranscriptStatus == Pending && v.indexStatus == NoIndex && v.ocrIndexStatus == NoIndex
    ensures v.id == id && v.youtubeId == youtubeId && v.vimeoId == vimeoId && v.courseId == courseId
    ensures v.title == title && v.videoUrl == videoUrl
  {
    Video(id, youtubeId, vimeoId, title, videoUrl, courseId, Pending, Pending, NoIndex, NoIndex)
  }

  /** A nullable text column is truthy when it is present and non-empty. */
  predicate Truthy(o: Option<string>) { o.Some? && o.value != "" }

  /** `video.youtube_id or video.vimeo_id`, or nothing when both are falsy. */
  function PlatformId(v: Video): (r: Option<string>)
    ensures r.Some? <==> Truthy(v.youtubeId) || Truthy(v.vimeoId)
    ensures Truthy(v.youtubeId) ==> r == v.youtubeId
    ensures !Truthy(v.youtubeId) && Truthy(v.vimeoId) ==> r == v.vimeoId
    ensures r.Some? ==> r.value != ""
  {
    if Truthy(v.youtubeId) then v.youtubeId
    else if Truthy(v.vimeoId) then v.vimeoId
    else None
  }

  /** One row of `Transcript` or of `OCRTranscript`: both tables have the same columns. */
  datatype Segment = Segment(videoId: nat, courseId: nat, start: real, content: string,
                             youtubeId: Option<string>, vimeoId: Option<string>)

  function SegmentStart(s: Segment): real { s.start }

  /** The row a writer builds for `video` from one (start, content) record. */
  function SegmentFor(v: Video, start: real, content: string): (s: Segment)
    ensures s.videoId == v.id && s.courseId == v.courseId
    ensures s.youtubeId == v.youtubeId && s.vimeoId == v.vimeoId
    ensures s.start == start && s.content == content
  {
    Segment(v.id, v.courseId, start, content, v.youtubeId, v.vimeoId)
  }

  datatype Note = Note(id: nat, userId: nat, videoId: nat, courseId: Option<nat>,
                       title: string, content: string, videoTimestamp: nat,
                       createdAt: int, indexStatus: Status)

  function NoteTimestamp(n: Note): real { n.videoTimestamp as real }

  datatype Conversation = Conversation(id: nat, userId: nat, videoId: nat, courseId: nat,
                                       title: string, createdAt: int)

  const DefaultConversationTitle := "New Conversation"
  const ConversationTitleMax := 255

  datatype Message = Message(conversationId: nat, query: string, answer: string, timestamp: int)

  function MessageTime(m: Message): real { m.timestamp as real }

  /** Conversations are ordered newest first (`-created_at`). */
  function ConversationNewness(c: Conversation): real { -(c.createdAt as real) }

  // ---------------------------------------------------------------- rows of one video

  /** `Model.objects.filter(video=v)`, in table order. */
  function RowsOf(rows: seq<Segment>, videoId: nat): (r: seq<Segment>)
    ensures |r| <= |rows|
    ensures forall s :: s in r <==> s in rows && s.videoId == videoId
  {
    if rows == [] then []
    else if rows[0].videoId == videoId then [rows[0]] + RowsOf(rows[1..], videoId)
    else RowsOf(rows[1..], videoId)
  }

  /** What `filter(video=v).delete()` leaves behind. */
  function RowsNotOf(rows: seq<Segment>, videoId: nat): (r: seq<Segment>)
    ensures |r| <= |rows|
    ensures forall s :: s in r <==> s in rows && s.videoId != videoId
  {
    if rows == [] then []
    else if rows[0].videoId != videoId then [rows[0]] + RowsNotOf(rows[1..], videoId)
    else RowsNotOf(rows[1..], videoId)
  }

  predicate AllOf(rows: seq<Segment>, videoId: nat) {
    forall i :: 0 <= i < |rows| ==> rows[i].videoId == videoId
  }

  lemma {:induction false} RowsOfConcat(a: seq<Segment>, b: seq<Segment>, videoId: nat)
    ensures RowsOf(a + b, videoId) == RowsOf(a, videoId) + RowsOf(b, videoId)
  {
    if a == [] {
      assert a + b == b;
    } else {
      assert (a + b)[0] == a[0] && (a + b)[1..] == a[1..] + b;
      RowsOfConcat(a[1..], b, videoId);
    }
  }

  lemma {:induction false} RowsOfAll(rows: seq<Segment>, videoId: nat)
    requires AllOf(rows, videoId)
    ensures RowsOf(rows, videoId) == rows
  {
    if rows != [] {
      RowsOfAll(rows[1..], videoId);
    }
  }

  lemma {:induction false} RowsOfOther(rows: seq<Segment>, videoId: nat, other: nat)
    requires AllOf(rows, videoId) && other != videoId
    ensures RowsOf(rows, other) == []
  {
    if rows != [] {
      RowsOfOther(rows[1..], videoId, other);
    }
  }

  lemma {:induction false} RowsOfNotOf(rows: seq<Segment>, videoId: nat, other: nat)
    ensures RowsOf(RowsNotOf(rows, videoId), other) == if other == videoId then [] else RowsOf(rows, other)
  {
    if rows != [] {
      RowsOfNotOf(rows[1..], videoId, other);
    }
  }

  /** Delete the video's rows, then bulk-insert `added` (all of that video). */
  function ReplaceRows(rows: seq<Segment>, videoId: nat, added: seq<Segment>): seq<Segment>
  {
    RowsNotOf(rows, videoId) + added
  }

  /** After the replacement the video's rows are exactly `added`, in order, and
      every other video keeps its rows. */
  lemma ReplaceRowsEffect(rows: seq<Segment>, videoId: nat, added: seq<Segment>, other: nat)
    requires AllOf(added, videoId)
    ensures RowsOf(ReplaceRows(rows, videoId, added), videoId) == added
    ensures other != videoId ==> RowsOf(ReplaceRows(rows, videoId, added), other) == RowsOf(rows, other)
  {
    ReplaceRowsSplit(rows, videoId, added, videoId);
    RowsOfNotOf(rows, videoId, videoId);
    RowsOfAll(added, videoId);
    if other != videoId {
      ReplaceRowsSplit(rows, videoId, added, other);
      RowsOfNotOf(rows, videoId, other);
      RowsOfOther(added, videoId, other);
    }
  }

  /** Any video's rows after the replacement are its surviving rows followed by its added ones. */
  lemma ReplaceRowsSplit(rows: seq<Segment>, videoId: nat, added: seq<Segment>, w: nat)
    ensures RowsOf(ReplaceRows(rows, videoId, added), w) == RowsOf(RowsNotOf(rows, videoId), w) + RowsOf(added, w)
  {
    RowsOfConcat(RowsNotOf(rows, videoId), added, w);
  }

  /** `filter(video=v).order_by('start')`. */
  function RowsInStartOrder(rows: seq<Segment>, videoId: nat): seq<Segment> {
    SortBy(RowsOf(rows, videoId), SegmentStart)
  }

  /** The video's rows in start order are sorted and a permutation of its rows. */
  lemma StartOrderSorts(rows: seq<Segment>, videoId: nat)
    ensures var r := RowsInStartOrder(rows, videoId);
            SortedBy(r, SegmentStart) && multiset(r) == multiset(RowsOf(rows, videoId))
            && |r| == |RowsOf(rows, videoId)|
  {
  }

  // ---------------------------------------------------------------- lookups

  /** The outcome of a Django `get`: no row, one row (its position), or several. */
  datatype Lookup = NotFound | Found(index: nat) | Multiple

  predicate MatchesPlatform(v: Video, id: string) {
    v.youtubeId == Some(id) || v.vimeoId == Some(id)
  }

  /** Positions, from `from` on, of the videos matched by
      `Q(youtube_id=id) | Q(vimeo_id=id)`. */
  function PlatformMatches(videos: seq<Video>, id: string, from: nat): (r: seq<nat>)
    requires from <= |videos|
    decreases |videos| - from
    ensures forall k :: 0 <= k < |r| ==> from <= r[k] < |videos| && MatchesPlatform(videos[r[k]], id)
    ensures forall i :: from <= i < |videos| && MatchesPlatform(videos[i], id) ==> i in r
  {
    if from == |videos| then []
    else (if MatchesPlatform(videos[from], id) then [from] else []) + PlatformMatches(videos, id, from + 1)
  }

  function LookupOf(matches: seq<nat>): Lookup {
    if |matches| == 0 then NotFound else if |matches| == 1 then Found(matches[0]) else Multiple
  }

  /** `Video.objects.get(Q(youtube_id=id) | Q(vimeo_id=id))`. */
  function GetVideoByPlatform(videos: seq<Video>, id: string): (r: Lookup)
    ensures r.Found? ==> r.index < |videos| && MatchesPlatform(videos[r.index], id)
    ensures r.Found? ==> forall i :: 0 <= i < |videos| && i != r.index ==> !MatchesPlatform(videos[i], id)
    ensures r.NotFound? <==> forall i :: 0 <= i < |videos| ==> !MatchesPlatform(videos[i], id)
  {
    var m := PlatformMatches(videos, id, 0);
    assert |m| > 0 ==> MatchesPlatform(videos[m[0]], id);
    LookupOf(m)
  }

  /** The first video whose `field` column equals `id` (a unique column, so a
      `get` on it finds at most one row when the uniqueness constraint holds). */
  function VideoByYoutubeId(videos: seq<Video>, id: string): (r: Option<nat>)
    ensures r.Some? ==> r.value < |videos| && videos[r.value].youtubeId == Some(id)
    ensures r.Some? ==> forall j :: 0 <= j < r.value ==> videos[j].youtubeId != Some(id)
    ensures r.None? ==> forall j :: 0 <= j < |videos| ==> videos[j].youtubeId != Some(id)
  {
    if videos == [] then None
    else if videos[0].youtubeId == Some(id) then Some(0)
    else match VideoByYoutubeId(videos[1..], id)
      case None => None
      case Some(j) => Some(j + 1)
  }

  function VideoByVimeoId(videos: seq<Video>, id: string): (r: Option<nat>)
    ensures r.Some? ==> r.value < |videos| && videos[r.value].vimeoId == Some(id)
    ensures r.Some? ==> forall j :: 0 <= j < r.value ==> videos[j].vimeoId != Some(id)
    ensures r.None? ==> forall j :: 0 <= j < |videos| ==> videos[j].vimeoId != Some(id)
  {
    if videos == [] then None
    else if videos[0].vimeoId == Some(id) then Some(0)
    else match VideoByVimeoId(videos[1..], id)
      case None => None
      case Some(j) => Some(j + 1)
  }

  /** `Video.objects.get(id=id)` on the primary key. */
  function VideoById(videos: seq<Video>, id: nat): (r: Option<nat>)
    ensures r.Some? ==> r.value < |videos| && videos[r.value].id == id
    ensures r.None? ==> forall j :: 0 <= j < |videos| ==> videos[j].id != id
  {
    if videos == [] then None
    else if videos[0].id == id then Some(0)
    else match VideoById(videos[1..], id)
      case None => None
      case Some(j) => Some(j + 1)
  }

  /** `Course.objects.get(id=id)` on the primary key. */
  function CourseById(courses: seq<Course>, id: nat): (r: Option<nat>)
    ensures r.Some? ==> r.value < |courses| && courses[r.value].id == id
    ensures r.None? ==> forall j :: 0 <= j < |courses| ==> courses[j].id != id
  {
    if courses == [] then None
    else if courses[0].id == id then Some(0)
    else match CourseById(courses[1..], id)
      case None => None
      case Some(j) => Some(j + 1)
  }

  /** The declared uniqueness of `youtube_id` and `vimeo_id` (nulls excepted). */
  predicate UniquePlatformIds(videos: seq<Video>) {
    (forall i, j :: 0 <= i < j < |videos| && videos[i].youtubeId.Some? ==> videos[i].youtubeId != videos[j].youtubeId)
    && (forall i, j :: 0 <= i < j < |videos| && videos[i].vimeoId.Some? ==> videos[i].vimeoId != videos[j].vimeoId)
  }

  /** Under the uniqueness constraints a platform-id `get` can still find two
      rows: one video's YouTube id may equal another's Vimeo id. */
  lemma CrossColumnClash()
    ensures var a := NewVideo(1, Some("x"), None, "a", "u", 1);
            var b := NewVideo(2, None, Some("x"), "b", "u", 1);
            UniquePlatformIds([a, b]) && GetVideoByPlatform([a, b], "x") == Multiple
  {
    var a := NewVideo(1, Some("x"), None, "a", "u", 1);
    var b := NewVideo(2, None, Some("x"), "b", "u", 1);
    var m := PlatformMatches([a, b], "x", 0);
    assert 0 in m && 1 in m;
    assert |m| >= 2;
  }
}
