/** The persistent state the pipeline, the commands and the views change:
    the Django tables as sequences of rows, the Django-Q queue and the
    history as sequences of tasks, the index directories and the CSV files
    under the media root as maps. Every operation that writes is a method
    that names, field by field, which of these it may change. */
module Store {
  import opened Common
  import opened Models
  import opened Storage

  /** A queued background task, by the function it runs and its argument. */
  datatype Task =
    | TranscriptTask(videoId: nat)
    | CourseIndexTask(courseId: nat)
    | OcrIndexTask(videoId: nat)
    | NoteIndexTask(userId: nat, platformId: string)

  /** A CSV file: its rows of cells. */
  type Csv = seq<seq<string>>

  class Db {
    var courses: seq<Course>
    var videos: seq<Video>
    var transcripts: seq<Segment>
    var ocrRows: seq<Segment>
    var notes: seq<Note>
    var users: set<nat>
    var conversations: seq<Conversation>
    var messages: seq<Message>
    var queue: seq<Task>
    var history: seq<Task>
    var indexes: Fs
    var files: map<Path, Csv>

    constructor ()
      ensures courses == [] && videos == [] && transcripts == [] && ocrRows == [] && notes == []
      ensures users == {} && conversations == [] && messages == []
      ensures queue == [] && history == [] && indexes == map[] && files == map[]
    {
      courses := [];
      videos := [];
      transcripts := [];
      ocrRows := [];
      notes := [];
      users := {};
      conversations := [];
      messages := [];
      queue := [];
      history := [];
      indexes := map[];
      files := map[];
    }
  }

  /** Which of a video's two pipelines a status field or an index belongs to:
      the spoken transcript or the on-screen text. */
  datatype Kind = Spoken | Screen

  /** `transcript_status` or `ocr_transcript_status`. */
  function TranscriptStatusOf(v: Video, kind: Kind): Status {
    if kind == Spoken then v.transcriptStatus else v.ocrTranscriptStatus
  }

  /** `index_status` or `ocr_index_status`. */
  function IndexStatusOf(v: Video, kind: Kind): Status {
    if kind == Spoken then v.indexStatus else v.ocrIndexStatus
  }

  /** `setattr(video, status_field, s)`: nothing else of the row changes. */
  function WithIndexStatus(v: Video, kind: Kind, s: Status): (r: Video)
    ensures IndexStatusOf(r, kind) == s
    ensures forall other: Kind :: other != kind ==> IndexStatusOf(r, other) == IndexStatusOf(v, other)
    ensures r.(indexStatus := v.indexStatus, ocrIndexStatus := v.ocrIndexStatus) == v
  {
    if kind == Spoken then v.(indexStatus := s) else v.(ocrIndexStatus := s)
  }

  /** A second save of the same status field overwrites the first. */
  lemma WithIndexStatusTwice(v: Video, kind: Kind, s: Status, t: Status)
    ensures WithIndexStatus(WithIndexStatus(v, kind, s), kind, t) == WithIndexStatus(v, kind, t)
  {
  }

  /** A video's index status after a run of saves: the last one written. */
  function LastSaved(v: Video, kind: Kind, saves: seq<Status>): Status {
    if saves == [] then IndexStatusOf(v, kind) else saves[|saves| - 1]
  }

  /** Count of positions satisfying `p`. */
  function CountWhere<T>(s: seq<T>, p: T -> bool): (n: nat)
    ensures n <= |s|
  {
    if s == [] then 0 else CountWhere(s[..|s| - 1], p) + (if p(s[|s| - 1]) then 1 else 0)
  }
}
