/** The earlier generation's index code (`core/rag/vector_store.py`):
    transcripts indexed under `<root>/<youtube id>`, all users' notes under
    `<root>/notes/<youtube id>`, a two-source retriever that raises when
    nothing loads, and the index builder over one video's transcript rows. */
module LegacyVectorStore {
  import opened Common
  import opened Storage
  import opened Models

  function TranscriptIndexPath(root: Path, videoId: string): Path { root + [videoId] }

  function NoteIndexPath(root: Path, videoId: string): Path { root + ["notes", videoId] }

  /** Both loaders: no directory gives `None`; otherwise `load_local`, which
      raises (caught, giving `None`) when there is no loadable index. */
  function LoadIndex(fs: Fs, p: Path): (r: Option<Index>)
    ensures r.Some? <==> p in fs && fs[p].hasFaiss && fs[p].load.Some?
    ensures r.Some? ==> r == fs[p].load
  {
    if !Exists(fs, p) then None
    else if p in fs && fs[p].hasFaiss then fs[p].load
    else None
  }

  function GetTranscriptVectorStore(fs: Fs, root: Path, videoId: string): Option<Index> {
    LoadIndex(fs, TranscriptIndexPath(root, videoId))
  }

  function GetNoteVectorStore(fs: Fs, root: Path, videoId: string): Option<Index> {
    LoadIndex(fs, NoteIndexPath(root, videoId))
  }

  /** A retriever; the notes one filters on the asking user's id. */
  datatype Retriever =
    | Similarity(index: Index, k: nat, userFilter: Option<int>)
    | Ensemble(parts: seq<Retriever>, weights: seq<real>)

  /** `get_retriever(video_id, user_id)`; `None` stands for the exception
      raised when neither index loads. */
  method GetRetriever(fs: Fs, root: Path, videoId: string, userId: int) returns (r: Option<Retriever>)
    ensures var t := GetTranscriptVectorStore(fs, root, videoId);
            var n := GetNoteVectorStore(fs, root, videoId);
            (r.None? <==> t.None? && n.None?)
            && (t.Some? && n.None? ==> r == Some(Similarity(t.value, 3, None)))
            && (t.None? && n.Some? ==> r == Some(Similarity(n.value, 2, Some(userId))))
            && (t.Some? && n.Some? ==>
                  r == Some(Ensemble([Similarity(t.value, 3, None), Similarity(n.value, 2, Some(userId))], [0.6, 0.4])))
  {
    var transcriptStore := GetTranscriptVectorStore(fs, root, videoId);
    var noteStore := GetNoteVectorStore(fs, root, videoId);
    var retrievers: seq<Retriever> := [];
    if transcriptStore.Some? {
      retrievers := retrievers + [Similarity(transcriptStore.value, 3, None)];
    }
    if noteStore.Some? {
      retrievers := retrievers + [Similarity(noteStore.value, 2, Some(userId))];
    }
    if |retrievers| == 0 {
      return None;
    }
    if |retrievers| == 1 {
      return Some(retrievers[0]);
    }
    assert retrievers == [Similarity(transcriptStore.value, 3, None), Similarity(noteStore.value, 2, Some(userId))];
    return Some(Ensemble(retrievers, [0.6, 0.4]));
  }

  /** The video a row's foreign key names carries the YouTube id; the row's
      own `youtube_id` column plays no part. */
  predicate OfYoutubeVideo(videos: seq<Video>, s: Segment, videoId: string) {
    var i := VideoById(videos, s.videoId);
    i.Some? && videos[i.value].youtubeId == Some(videoId)
  }

  /** `Transcript.objects.filter(video__youtube_id=video_id)`, in table
      order: the join through each row's video. */
  function RowsForYoutubeId(videos: seq<Video>, rows: seq<Segment>, videoId: string): (r: seq<Segment>)
    ensures forall s :: s in r <==> s in rows && OfYoutubeVideo(videos, s, videoId)
  {
    if rows == [] then []
    else (if OfYoutubeVideo(videos, rows[0], videoId) then [rows[0]] else [])
         + RowsForYoutubeId(videos, rows[1..], videoId)
  }

  /** The document loaded from one row: its text, start and YouTube id. */
  function RowDocument(s: Segment, videoId: string): Document {
    Document(s.content, map["start" := MReal(s.start), "video_id" := MText(videoId)])
  }

  function RowDocuments(rows: seq<Segment>, videoId: string): (r: seq<Document>)
    ensures |r| == |rows| && forall i :: 0 <= i < |rows| ==> r[i] == RowDocument(rows[i], videoId)
  {
    if rows == [] then [] else [RowDocument(rows[0], videoId)] + RowDocuments(rows[1..], videoId)
  }

  /** `create_vector_store_for_video(video_id)`. `split` is the text
      splitter (chunks of 1000 with overlap 150); `embedOk` is false when
      embedding raises. `FAISS.from_documents` also raises when the splitter
      gives no chunks (every content empty, say). The caller sees either
      raise as `None`. */
  function CreateVectorStoreForVideo(fs: Fs, root: Path, videos: seq<Video>, rows: seq<Segment>, videoId: string,
                                     split: seq<Document> -> seq<Document>, embedOk: bool): Option<Fs>
  {
    var found := SortBy(RowsForYoutubeId(videos, rows, videoId), SegmentStart);
    if found == [] then Some(fs)
    else if !embedOk || split(RowDocuments(found, videoId)) == [] then None
    else Some(Save(fs, TranscriptIndexPath(root, videoId), Index(split(RowDocuments(found, videoId)))))
  }

  /** With rows for the video, the build succeeds exactly when the
      splitter gives chunks, and then the transcript loader returns them:
      the chunks come from the rows in start order. */
  lemma CreateThenLoad(fs: Fs, root: Path, videos: seq<Video>, rows: seq<Segment>, videoId: string,
                       split: seq<Document> -> seq<Document>)
    requires exists s :: s in rows && OfYoutubeVideo(videos, s, videoId)
    ensures var found := SortBy(RowsForYoutubeId(videos, rows, videoId), SegmentStart);
            var r := CreateVectorStoreForVideo(fs, root, videos, rows, videoId, split, true);
            (r.Some? <==> split(RowDocuments(found, videoId)) != [])
            && (r.Some? ==> GetTranscriptVectorStore(r.value, root, videoId) == Some(Index(split(RowDocuments(found, videoId)))))
            && SortedBy(found, SegmentStart) && multiset(found) == multiset(RowsForYoutubeId(videos, rows, videoId))
  {
    var s :| s in rows && OfYoutubeVideo(videos, s, videoId);
    var found := SortBy(RowsForYoutubeId(videos, rows, videoId), SegmentStart);
    assert s in multiset(RowsForYoutubeId(videos, rows, videoId));
    assert found != [];
    SaveThenLoad(fs, TranscriptIndexPath(root, videoId), Index(split(RowDocuments(found, videoId))));
  }

  /** Without any row whose video carries the YouTube id — when the id is
      a Vimeo id, for one — nothing is written, so a loader that found
      nothing still finds nothing. */
  lemma NoRowsNoIndex(fs: Fs, root: Path, videos: seq<Video>, rows: seq<Segment>, videoId: string,
                      split: seq<Document> -> seq<Document>, embedOk: bool)
    requires forall s :: s in rows ==> !OfYoutubeVideo(videos, s, videoId)
    ensures CreateVectorStoreForVideo(fs, root, videos, rows, videoId, split, embedOk) == Some(fs)
  {
    NoneJoined(videos, rows, videoId);
    assert |SortBy(RowsForYoutubeId(videos, rows, videoId), SegmentStart)| == 0;
  }

  lemma {:induction false} NoneJoined(videos: seq<Video>, rows: seq<Segment>, videoId: string)
    requires forall s :: s in rows ==> !OfYoutubeVideo(videos, s, videoId)
    ensures RowsForYoutubeId(videos, rows, videoId) == []
  {
    if rows != [] {
      assert rows[0] in rows;
      NoneJoined(videos, rows[1..], videoId);
    }
  }
}
