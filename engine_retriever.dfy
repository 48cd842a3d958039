/** The engine's retriever assembly (`engine/rag/vector_store/retriever.py`):
    up to three similarity retrievers — transcript, on-screen text (OCR) and
    the user's notes — collected in that order with fixed weights, then a
    placeholder when none loaded, the one retriever itself, or an ensemble. */
module EngineRetriever {
  import opened Common
  import opened Storage
  import opened EngineLoader

  /** What a retriever searches: an index with a result count `k`. */
  datatype Retriever =
    | Similarity(index: Index, k: nat)
    | Ensemble(parts: seq<Retriever>, weights: seq<real>)

  const NoContextText := "No context available for this video."

  const TranscriptK := 3
  const OcrK := 3
  const NotesK := 5
  const TranscriptWeight := 0.5
  const OcrWeight := 0.2
  const NotesWeight := 0.3

  /** The stand-in built when nothing loaded: one text, `k = 1`. */
  function Placeholder(): Retriever {
    Similarity(Index([Document(NoContextText, map[])]), 1)
  }

  /** The notes store consulted: only with a user, then that user's index. */
  function NotesStore(fs: Fs, root: Path, videoId: string, userId: Option<int>): (r: Option<Index>)
    ensures userId.None? ==> r.None?
    ensures userId.Some? ==> r == GetNoteVectorStore(fs, root, videoId, userId.value)
  {
    if userId.Some? then GetNoteVectorStore(fs, root, videoId, userId.value) else None
  }

  /** One optional source: its retriever and weight when its store loaded. */
  function Part(store: Option<Index>, k: nat, w: real): seq<(Retriever, real)> {
    if store.Some? then [(Similarity(store.value, k), w)] else []
  }

  /** The sources collected, in order transcript, OCR, notes. */
  function Sources(transcript: Option<Index>, ocr: Option<Index>, notes: Option<Index>): (r: seq<(Retriever, real)>)
    ensures |r| <= 3
  {
    Part(transcript, TranscriptK, TranscriptWeight) + Part(ocr, OcrK, OcrWeight) + Part(notes, NotesK, NotesWeight)
  }

  function Retrievers(s: seq<(Retriever, real)>): (r: seq<Retriever>)
    ensures |r| == |s| && forall i :: 0 <= i < |s| ==> r[i] == s[i].0
  {
    if s == [] then [] else [s[0].0] + Retrievers(s[1..])
  }

  function Weights(s: seq<(Retriever, real)>): (r: seq<real>)
    ensures |r| == |s| && forall i :: 0 <= i < |s| ==> r[i] == s[i].1
  {
    if s == [] then [] else [s[0].1] + Weights(s[1..])
  }

  /** Appending one source appends to both parallel lists. */
  lemma AppendSource(c: seq<(Retriever, real)>, x: Retriever, w: real)
    ensures Retrievers(c + [(x, w)]) == Retrievers(c) + [x]
    ensures Weights(c + [(x, w)]) == Weights(c) + [w]
  {
  }

  /** The fallback and return logic on the collected sources. */
  function Assemble(s: seq<(Retriever, real)>): Retriever {
    if |s| == 0 then Placeholder()
    else if |s| == 1 then s[0].0
    else Ensemble(Retrievers(s), Weights(s))
  }

  /** `get_retriever(video_id, user_id)`. The OCR loader this file imports is
      not defined next to the other loaders, so what it returns is the
      parameter `ocrStore`. */
  method GetRetriever(fs: Fs, root: Path, videoId: string, userId: Option<int>, ocrStore: Option<Index>)
    returns (r: Retriever)
    ensures r == Assemble(Sources(GetTranscriptVectorStore(fs, root, videoId), ocrStore, NotesStore(fs, root, videoId, userId)))
  {
    var retrievers: seq<Retriever> := [];
    var weights: seq<real> := [];
    ghost var collected: seq<(Retriever, real)> := [];
    assert Retrievers(collected) == [] && Weights(collected) == [];

    var transcriptStore := GetTranscriptVectorStore(fs, root, videoId);
    if transcriptStore.Some? {
      AppendSource(collected, Similarity(transcriptStore.value, TranscriptK), TranscriptWeight);
      retrievers := retrievers + [Similarity(transcriptStore.value, TranscriptK)];
      weights := weights + [TranscriptWeight];
      collected := collected + [(Similarity(transcriptStore.value, TranscriptK), TranscriptWeight)];
    }
    assert collected == Part(transcriptStore, TranscriptK, TranscriptWeight);
    assert retrievers == Retrievers(collected) && weights == Weights(collected);

    if ocrStore.Some? {
      AppendSource(collected, Similarity(ocrStore.value, OcrK), OcrWeight);
      retrievers := retrievers + [Similarity(ocrStore.value, OcrK)];
      weights := weights + [OcrWeight];
      collected := collected + [(Similarity(ocrStore.value, OcrK), OcrWeight)];
    }
    assert collected == Part(transcriptStore, TranscriptK, TranscriptWeight) + Part(ocrStore, OcrK, OcrWeight);
    assert retrievers == Retrievers(collected) && weights == Weights(collected);

    var noteStore: Option<Index> := None;
    if userId.Some? {
      noteStore := GetNoteVectorStore(fs, root, videoId, userId.value);
      if noteStore.Some? {
        AppendSource(collected, Similarity(noteStore.value, NotesK), NotesWeight);
        retrievers := retrievers + [Similarity(noteStore.value, NotesK)];
        weights := weights + [NotesWeight];
        collected := collected + [(Similarity(noteStore.value, NotesK), NotesWeight)];
      }
    }
    assert collected == Sources(transcriptStore, ocrStore, noteStore);
    assert noteStore == NotesStore(fs, root, videoId, userId);
    assert retrievers == Retrievers(collected) && weights == Weights(collected);

    if |retrievers| == 0 {
      r := Placeholder();
    } else if |retrievers| == 1 {
      r := retrievers[0];
    } else {
      r := Ensemble(retrievers, weights);
    }
  }

  /** The placeholder is used exactly when none of the three stores is
      available (with no user, the notes store never is). */
  lemma PlaceholderIffNothingLoaded(t: Option<Index>, o: Option<Index>, n: Option<Index>)
    ensures Assemble(Sources(t, o, n)) == Placeholder() <==> t.None? && o.None? && n.None?
  {
    var s := Sources(t, o, n);
    if |s| == 1 {
      assert s[0].0.k != 1;
    }
  }

  /** A single available store is searched on its own, with its own `k`. */
  lemma SingleSourceUnwrapped(t: Option<Index>, o: Option<Index>, n: Option<Index>)
    ensures t.Some? && o.None? && n.None? ==> Assemble(Sources(t, o, n)) == Similarity(t.value, TranscriptK)
    ensures t.None? && o.Some? && n.None? ==> Assemble(Sources(t, o, n)) == Similarity(o.value, OcrK)
    ensures t.None? && o.None? && n.Some? ==> Assemble(Sources(t, o, n)) == Similarity(n.value, NotesK)
  {
  }

  /** With every store available the ensemble lists them in order
      transcript, OCR, notes with weights 0.5, 0.2 and 0.3. */
  lemma FullEnsemble(t: Index, o: Index, n: Index)
    ensures Assemble(Sources(Some(t), Some(o), Some(n))) ==
      Ensemble([Similarity(t, TranscriptK), Similarity(o, OcrK), Similarity(n, NotesK)],
               [TranscriptWeight, OcrWeight, NotesWeight])
  {
  }

  /** The weights are passed on as collected, not rescaled: without notes
      the ensemble gets 0.5 and 0.2. */
  lemma WeightsNotRenormalised(t: Index, o: Index)
    ensures Assemble(Sources(Some(t), Some(o), None)) == Ensemble([Similarity(t, TranscriptK), Similarity(o, OcrK)], [0.5, 0.2])
  {
  }

  /** Without a signed-in user no notes index is ever searched, whatever
      index files exist. */
  lemma AnonymousIgnoresNotes(fs: Fs, root: Path, videoId: string, o: Option<Index>)
    ensures Assemble(Sources(GetTranscriptVectorStore(fs, root, videoId), o, NotesStore(fs, root, videoId, None)))
         == Assemble(Sources(GetTranscriptVectorStore(fs, root, videoId), o, None))
  {
  }
}
