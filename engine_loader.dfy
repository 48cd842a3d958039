/** The engine's index loaders (`engine/rag/vector_store/loader.py`):
    transcripts under `<root>/transcripts/<video>`, notes under
    `<root>/notes/<user>/<video>`; a missing directory, a missing
    `index.faiss` or a load that raises all give `None`. */
module EngineLoader {
  import opened Common
  import opened Storage

  function TranscriptIndexPath(root: Path, videoId: string): Path {
    root + ["transcripts", videoId]
  }

  function NoteIndexPath(root: Path, videoId: string, userId: int): Path {
    root + ["notes", IntToString(userId), videoId]
  }

  /** The checks both loaders make, in order, on one index directory. */
  function LoadIndexDir(fs: Fs, p: Path): (r: Option<Index>)
    ensures !Exists(fs, p) ==> r.None?
    ensures !(p in fs && fs[p].hasFaiss) ==> r.None?
    ensures r.Some? <==> p in fs && fs[p].hasFaiss && fs[p].load.Some?
    ensures r.Some? ==> r == fs[p].load
  {
    if !Exists(fs, p) then None
    else if !(p in fs && fs[p].hasFaiss) then None
    else fs[p].load
  }

  /** `get_transcript_vector_store(video_id)`. */
  function GetTranscriptVectorStore(fs: Fs, root: Path, videoId: string): Option<Index> {
    LoadIndexDir(fs, TranscriptIndexPath(root, videoId))
  }

  /** `get_note_vector_store(video_id, user_id)`. */
  function GetNoteVectorStore(fs: Fs, root: Path, videoId: string, userId: int): Option<Index> {
    LoadIndexDir(fs, NoteIndexPath(root, videoId, userId))
  }

  /** A loader finds an index exactly when its directory holds `index.faiss`
      and the index loads; the failure cases are all `None`, never an error. */
  lemma LoaderOutcomes(fs: Fs, root: Path, videoId: string, userId: int)
    ensures var p := TranscriptIndexPath(root, videoId);
            GetTranscriptVectorStore(fs, root, videoId).Some? <==> p in fs && fs[p].hasFaiss && fs[p].load.Some?
    ensures var p := NoteIndexPath(root, videoId, userId);
            GetNoteVectorStore(fs, root, videoId, userId).Some? <==> p in fs && fs[p].hasFaiss && fs[p].load.Some?
  {
  }

  /** Notes indexes are kept apart per user: two users' note paths for the
      same video never coincide, nor with any transcript path. */
  lemma NotePathsPerUser(root: Path, videoId: string, videoId2: string, u1: int, u2: int)
    ensures NoteIndexPath(root, videoId, u1) == NoteIndexPath(root, videoId, u2) ==> u1 == u2
    ensures NoteIndexPath(root, videoId, u1) != TranscriptIndexPath(root, videoId2)
  {
    var p1 := NoteIndexPath(root, videoId, u1);
    var p2 := NoteIndexPath(root, videoId, u2);
    if p1 == p2 {
      assert p1[|root| + 1] == IntToString(u1);
      assert p2[|root| + 1] == IntToString(u2);
      IntToStringInjective(u1, u2);
    }
    assert |p1| != |TranscriptIndexPath(root, videoId2)|;
  }

  /** An index saved at the transcript path is what the loader returns. */
  lemma SavedTranscriptIndexLoads(fs: Fs, root: Path, videoId: string, index: Index)
    ensures GetTranscriptVectorStore(Save(fs, TranscriptIndexPath(root, videoId), index), root, videoId) == Some(index)
  {
    SaveThenLoad(fs, TranscriptIndexPath(root, videoId), index);
  }
}
