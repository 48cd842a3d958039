/** The earlier generation's notes index (`core/rag/index_notes.py`): all
    notes on a video, from every user, in one index directory keyed by the
    video's YouTube id; the directory is removed when the video has no notes.
    Every failure is swallowed: a missing video silently, anything else
    after printing it. */
module NotesIndex {
  import opened Common
  import opened Models
  import opened Storage
  import opened Store
  import LegacyVectorStore
  import EngineLoader

  /** How a call ended: nothing done for a missing video, an error printed,
      the directory removed (or found absent) for a video without notes, or
      an index saved. */
  datatype Outcome = VideoMissing | ErrorPrinted | NoNotes | Built

  /** `os.path.join(FAISS_INDEX_ROOT, 'notes', video.youtube_id)`: a null id
      raises; an empty id names the `notes` directory itself. */
  function NotesDir(root: Path, youtubeId: Option<string>): (r: Option<Path>)
    ensures r.Some? <==> youtubeId.Some?
    ensures youtubeId.Some? && youtubeId.value != "" ==> r == Some(root + ["notes", youtubeId.value])
    ensures youtubeId == Some("") ==> r == Some(root + ["notes"])
  {
    match youtubeId
    case None => None
    case Some(id) => if id == "" then Some(root + ["notes"]) else Some(root + ["notes", id])
  }

  /** `Note.objects.filter(video=video)`, in table order. */
  function NotesOfVideo(notes: seq<Note>, videoId: nat): (r: seq<Note>)
    ensures |r| <= |notes|
    ensures forall n :: n in r <==> n in notes && n.videoId == videoId
  {
    if notes == [] then []
    else (if notes[0].videoId == videoId then [notes[0]] else []) + NotesOfVideo(notes[1..], videoId)
  }

  /** Notes come newest first (`ordering = ['-created_at']`). */
  function NoteNewness(n: Note): real { -(n.createdAt as real) }

  function VideoNotes(notes: seq<Note>, videoId: nat): (r: seq<Note>)
    ensures multiset(r) == multiset(NotesOfVideo(notes, videoId))
    ensures |r| == |NotesOfVideo(notes, videoId)|
  {
    SortBy(NotesOfVideo(notes, videoId), NoteNewness)
  }

  /** The document built for one note; `note.course.id` raises (`None`)
      when the note has no course. */
  function NoteDocument(n: Note, videoId: nat): Option<Document> {
    match n.courseId
    case None => None
    case Some(c) =>
      Some(Document("Title: " + n.title + "\nContent: " + n.content,
                    map["user_id" := MInt(n.userId), "note_id" := MInt(n.id), "course_id" := MInt(c),
                        "video_id" := MInt(videoId), "timestamp" := MInt(n.videoTimestamp)]))
  }

  /** The `for note in notes` loop: one document per note, or `None` as soon
      as one note raises. */
  function NoteDocuments(notes: seq<Note>, videoId: nat): (r: Option<seq<Document>>)
    ensures r.Some? ==> |r.value| == |notes|
  {
    if notes == [] then Some([])
    else
      match (NoteDocuments(notes[..|notes| - 1], videoId), NoteDocument(notes[|notes| - 1], videoId))
      case (Some(ds), Some(d)) => Some(ds + [d])
      case _ => None
  }

  /** `os.makedirs(dir, exist_ok=True)`: an absent directory appears, empty. */
  function MakeDirs(fs: Fs, p: Path): Fs {
    if Exists(fs, p) then fs else fs[p := IndexDir(false, None)]
  }

  /** Saving into a directory just made is the same as saving directly. */
  lemma SaveAfterMakeDirs(fs: Fs, p: Path, index: Index)
    ensures Save(MakeDirs(fs, p), p, index) == Save(fs, p, index)
  {
  }

  /** `update_video_notes_index(video_id)` as a result: the new index tree
      and how the call ended. `embedOk` is false when building the FAISS
      store raises. */
  function UpdateRun(fs: Fs, videos: seq<Video>, notes: seq<Note>, videoId: nat, root: Path, embedOk: bool): (Fs, Outcome)
  {
    match VideoById(videos, videoId)
    case None => (fs, VideoMissing)
    case Some(i) =>
      match NotesDir(root, videos[i].youtubeId)
      case None => (fs, ErrorPrinted)
      case Some(dir) =>
        var ns := VideoNotes(notes, videos[i].id);
        if ns == [] then (if Exists(fs, dir) then RemoveTree(fs, dir) else fs, NoNotes)
        else match NoteDocuments(ns, videos[i].id)
          case None => (fs, ErrorPrinted)
          case Some(docs) =>
            if !embedOk then (MakeDirs(fs, dir), ErrorPrinted)
            else (Save(fs, dir, Index(docs)), Built)
  }

  /** The call itself: the document list is built by a loop, then the index
      directory is removed or written. */
  method UpdateVideoNotesIndex(db: Db, videoId: nat, root: Path, embedOk: bool) returns (outcome: Outcome)
    modifies db`indexes
    ensures (db.indexes, outcome) == UpdateRun(old(db.indexes), db.videos, db.notes, videoId, root, embedOk)
  {
    var i := VideoById(db.videos, videoId);
    if i.None? {
      return VideoMissing;
    }
    var video := db.videos[i.value];
    var dir := NotesDir(root, video.youtubeId);
    if dir.None? {
      return ErrorPrinted;
    }
    var notes := VideoNotes(db.notes, video.id);
    if notes == [] {
      if Exists(db.indexes, dir.value) {
        db.indexes := RemoveTree(db.indexes, dir.value);
      }
      return NoNotes;
    }
    var documents := BuildNoteDocuments(notes, video.id);
    if documents.None? {
      return ErrorPrinted;
    }
    ghost var before := db.indexes;
    db.indexes := MakeDirs(db.indexes, dir.value);
    if !embedOk {
      return ErrorPrinted;
    }
    SaveAfterMakeDirs(before, dir.value, Index(documents.value));
    db.indexes := Save(db.indexes, dir.value, Index(documents.value));
    return Built;
  }

  /** The document loop, stopping at the first note that raises. */
  method BuildNoteDocuments(notes: seq<Note>, videoId: nat) returns (documents: Option<seq<Document>>)
    ensures documents == NoteDocuments(notes, videoId)
  {
    var docs: seq<Document> := [];
    for j := 0 to |notes|
      invariant NoteDocuments(notes[..j], videoId) == Some(docs)
    {
      assert notes[..j + 1][..j] == notes[..j];
      var d := NoteDocument(notes[j], videoId);
      if d.None? {
        NoteDocumentsStops(notes, j, videoId);
        return None;
      }
      docs := docs + [d.value];
    }
    assert notes[..|notes|] == notes;
    return Some(docs);
  }

  /** Once one note raises, so does the whole loop. */
  lemma {:induction false} NoteDocumentsStops(notes: seq<Note>, j: nat, videoId: nat)
    requires j < |notes| && NoteDocument(notes[j], videoId).None?
    ensures NoteDocuments(notes, videoId).None?
    decreases |notes|
  {
    if j < |notes| - 1 {
      NoteDocumentsStops(notes[..|notes| - 1], j, videoId);
    }
  }

  /** Every note has a document exactly when every note has a course; the
      `k`-th document is then the `k`-th note's. */
  lemma {:induction false} NoteDocumentsAt(notes: seq<Note>, videoId: nat)
    ensures NoteDocuments(notes, videoId).Some? <==> forall k :: 0 <= k < |notes| ==> notes[k].courseId.Some?
    ensures NoteDocuments(notes, videoId).Some? ==>
              forall k :: 0 <= k < |notes| ==> Some(NoteDocuments(notes, videoId).value[k]) == NoteDocument(notes[k], videoId)
  {
    if notes != [] {
      var init := notes[..|notes| - 1];
      NoteDocumentsAt(init, videoId);
      if !(forall k :: 0 <= k < |notes| ==> notes[k].courseId.Some?) {
        var k :| 0 <= k < |notes| && notes[k].courseId.None?;
        NoteDocumentsStops(notes, k, videoId);
      }
    }
  }

  /** One note's document: its text is the title and the content on two
      labelled lines, and its metadata names the note, its author, its
      course, the video and the note's timestamp. */
  lemma NoteDocumentShape(n: Note, videoId: nat)
    requires n.courseId.Some?
    ensures var d := NoteDocument(n, videoId);
            d.Some? && d.value.content == "Title: " + n.title + "\nContent: " + n.content
            && d.value.meta.Keys == {"user_id", "note_id", "course_id", "video_id", "timestamp"}
            && d.value.meta["user_id"] == MInt(n.userId) && d.value.meta["note_id"] == MInt(n.id)
            && d.value.meta["course_id"] == MInt(n.courseId.value) && d.value.meta["video_id"] == MInt(videoId)
            && d.value.meta["timestamp"] == MInt(n.videoTimestamp)
  {
  }

  /** A video without notes leaves no directory at its notes path, and every
      directory outside that path is kept; nothing is built. */
  lemma NoNotesRemovesIndex(fs: Fs, videos: seq<Video>, notes: seq<Note>, videoId: nat, root: Path, embedOk: bool)
    requires VideoById(videos, videoId).Some?
    requires var v := videos[VideoById(videos, videoId).value];
             v.youtubeId.Some? && forall n :: n in notes ==> n.videoId != v.id
    ensures var v := videos[VideoById(videos, videoId).value];
            var dir := NotesDir(root, v.youtubeId).value;
            var (r, outcome) := UpdateRun(fs, videos, notes, videoId, root, embedOk);
            outcome == NoNotes && !Exists(r, dir)
            && (forall k :: k in fs && !(dir <= k) ==> k in r && r[k] == fs[k])
            && (forall k :: k in r ==> k in fs)
  {
    var v := videos[VideoById(videos, videoId).value];
    assert forall n :: n !in NotesOfVideo(notes, v.id);
  }

  /** A built index holds one document per note of the video, whoever wrote
      it — all users' notes share the directory keyed by the YouTube id. */
  lemma BuiltIndexHoldsAllUsersNotes(fs: Fs, videos: seq<Video>, notes: seq<Note>, videoId: nat, root: Path)
    requires UpdateRun(fs, videos, notes, videoId, root, true).1 == Built
    ensures var v := videos[VideoById(videos, videoId).value];
            var dir := NotesDir(root, v.youtubeId).value;
            var r := UpdateRun(fs, videos, notes, videoId, root, true).0;
            dir in r && r[dir].hasFaiss && r[dir].load.Some?
            && |r[dir].load.value.docs| == |NotesOfVideo(notes, v.id)|
            && forall n :: n in notes && n.videoId == v.id ==> NoteDocument(n, v.id).Some? && NoteDocument(n, v.id).value in r[dir].load.value.docs
  {
    BuiltRun(fs, videos, notes, videoId, root);
    var v := videos[VideoById(videos, videoId).value];
    AllNotesDocumented(notes, v.id);
  }

  /** A call that built an index saved the documents of the video's notes
      at its notes directory. */
  lemma BuiltRun(fs: Fs, videos: seq<Video>, notes: seq<Note>, videoId: nat, root: Path)
    requires UpdateRun(fs, videos, notes, videoId, root, true).1 == Built
    ensures VideoById(videos, videoId).Some?
    ensures var v := videos[VideoById(videos, videoId).value];
            NotesDir(root, v.youtubeId).Some? && NoteDocuments(VideoNotes(notes, v.id), v.id).Some?
            && UpdateRun(fs, videos, notes, videoId, root, true).0
               == Save(fs, NotesDir(root, v.youtubeId).value, Index(NoteDocuments(VideoNotes(notes, v.id), v.id).value))
  {
  }

  /** When every note of the video has a document, each of the video's
      notes, from any user, has its document among them. */
  lemma AllNotesDocumented(notes: seq<Note>, videoId: nat)
    requires NoteDocuments(VideoNotes(notes, videoId), videoId).Some?
    ensures var docs := NoteDocuments(VideoNotes(notes, videoId), videoId).value;
            |docs| == |NotesOfVideo(notes, videoId)|
            && forall n :: n in notes && n.videoId == videoId ==> NoteDocument(n, videoId).Some? && NoteDocument(n, videoId).value in docs
  {
    var ns := VideoNotes(notes, videoId);
    var docs := NoteDocuments(ns, videoId).value;
    NoteDocumentsAt(ns, videoId);
    forall n | n in notes && n.videoId == videoId
      ensures NoteDocument(n, videoId).Some? && NoteDocument(n, videoId).value in docs
    {
      assert n in multiset(NotesOfVideo(notes, videoId));
      assert n in multiset(ns);
      var k :| 0 <= k < |ns| && ns[k] == n;
      assert docs[k] == NoteDocument(n, videoId).value;
    }
  }

  /** No failure escapes: a missing video, a video without a YouTube id and a
      note without a course all leave the index tree as it was. */
  lemma FailuresLeaveTree(fs: Fs, videos: seq<Video>, notes: seq<Note>, videoId: nat, root: Path, embedOk: bool)
    ensures var (r, outcome) := UpdateRun(fs, videos, notes, videoId, root, embedOk);
            (outcome == VideoMissing <==> VideoById(videos, videoId).None?)
            && (outcome == VideoMissing ==> r == fs)
            && (VideoById(videos, videoId).Some? && videos[VideoById(videos, videoId).value].youtubeId.None? ==> outcome == ErrorPrinted && r == fs)
            && (outcome == ErrorPrinted && embedOk ==> r == fs)
  {
  }

  /** What this writes is what the earlier loader reads back for the video
      (an id other than empty), but never what the engine's per-user notes
      loader reads: that one looks one level deeper. */
  lemma WrittenForLegacyLoaderOnly(fs: Fs, videos: seq<Video>, notes: seq<Note>, videoId: nat, root: Path, userId: int)
    requires UpdateRun(fs, videos, notes, videoId, root, true).1 == Built
    ensures var v := videos[VideoById(videos, videoId).value];
            var r := UpdateRun(fs, videos, notes, videoId, root, true).0;
            var dir := NotesDir(root, v.youtubeId).value;
            (v.youtubeId.value != "" ==> LegacyVectorStore.GetNoteVectorStore(r, root, v.youtubeId.value) == r[dir].load)
            && dir != EngineLoader.NoteIndexPath(root, v.youtubeId.value, userId)
  {
    var v := videos[VideoById(videos, videoId).value];
    var dir := NotesDir(root, v.youtubeId).value;
    assert |dir| < |EngineLoader.NoteIndexPath(root, v.youtubeId.value, userId)|;
    var r := UpdateRun(fs, videos, notes, videoId, root, true).0;
    if v.youtubeId.value != "" {
      assert dir in r && dir <= dir;
    }
  }
}
