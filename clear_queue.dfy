/** The `clear_queue` command (`core/management/commands/clear_queue.py`):
    the Django-Q queue and its history are emptied, and every status a
    killed worker could have left behind is reset, one bulk update per
    field. */
module ClearQueue {
  import opened Models
  import opened Store

  /** `filter(field=from).update(field=to)` on one row's field. */
  function Reset(s: Status, from: Status, to: Status): Status {
    if s == from then to else s
  }

  /** A video after the four bulk updates. */
  function ClearedVideo(v: Video): Video {
    v.(transcriptStatus := Reset(v.transcriptStatus, Processing, Pending),
       ocrTranscriptStatus := Reset(v.ocrTranscriptStatus, Processing, Pending),
       indexStatus := Reset(v.indexStatus, Indexing, Failed),
       ocrIndexStatus := Reset(v.ocrIndexStatus, Indexing, Failed))
  }

  function ClearedNote(n: Note): Note {
    n.(indexStatus := Reset(n.indexStatus, Processing, Pending))
  }

  /** `handle()`. */
  method Handle(db: Db)
    modifies db`queue, db`history, db`videos, db`notes
    ensures db.queue == [] && db.history == []
    ensures |db.videos| == |old(db.videos)|
    ensures forall k :: 0 <= k < |db.videos| ==> db.videos[k] == ClearedVideo(old(db.videos)[k])
    ensures |db.notes| == |old(db.notes)|
    ensures forall k :: 0 <= k < |db.notes| ==> db.notes[k] == ClearedNote(old(db.notes)[k])
  {
    db.queue := [];
    db.history := [];
    var vs := db.videos;
    ghost var was := vs;
    vs := seq(|vs|, k requires 0 <= k < |vs| => vs[k].(transcriptStatus := Reset(vs[k].transcriptStatus, Processing, Pending)));
    vs := seq(|vs|, k requires 0 <= k < |vs| => vs[k].(ocrTranscriptStatus := Reset(vs[k].ocrTranscriptStatus, Processing, Pending)));
    vs := seq(|vs|, k requires 0 <= k < |vs| => vs[k].(indexStatus := Reset(vs[k].indexStatus, Indexing, Failed)));
    vs := seq(|vs|, k requires 0 <= k < |vs| => vs[k].(ocrIndexStatus := Reset(vs[k].ocrIndexStatus, Indexing, Failed)));
    assert forall k :: 0 <= k < |vs| ==> vs[k] == ClearedVideo(was[k]);
    db.videos := vs;
    var ns := db.notes;
    db.notes := seq(|ns|, k requires 0 <= k < |ns| => ClearedNote(ns[k]));
  }

  /** Afterwards no row is left 'processing' or 'indexing' in the fields the
      command resets, each reset goes to the value the command names, and
      every field whose value was not the stuck one keeps it. */
  lemma NothingLeftStuck(v: Video, n: Note)
    ensures var w := ClearedVideo(v);
            w.transcriptStatus != Processing && w.ocrTranscriptStatus != Processing
            && w.indexStatus != Indexing && w.ocrIndexStatus != Indexing
            && ClearedNote(n).indexStatus != Processing
    ensures var w := ClearedVideo(v);
            (v.transcriptStatus == Processing ==> w.transcriptStatus == Pending)
            && (v.ocrTranscriptStatus == Processing ==> w.ocrTranscriptStatus == Pending)
            && (v.indexStatus == Indexing ==> w.indexStatus == Failed)
            && (v.ocrIndexStatus == Indexing ==> w.ocrIndexStatus == Failed)
            && (n.indexStatus == Processing ==> ClearedNote(n).indexStatus == Pending)
    ensures var w := ClearedVideo(v);
            (v.transcriptStatus != Processing ==> w.transcriptStatus == v.transcriptStatus)
            && (v.ocrTranscriptStatus != Processing ==> w.ocrTranscriptStatus == v.ocrTranscriptStatus)
            && (v.indexStatus != Indexing ==> w.indexStatus == v.indexStatus)
            && (v.ocrIndexStatus != Indexing ==> w.ocrIndexStatus == v.ocrIndexStatus)
            && (n.indexStatus != Processing ==> ClearedNote(n) == n)
            && w.(transcriptStatus := v.transcriptStatus, ocrTranscriptStatus := v.ocrTranscriptStatus,
                  indexStatus := v.indexStatus, ocrIndexStatus := v.ocrIndexStatus) == v
  {
  }

  /** Running the command a second time changes nothing more. */
  lemma ClearIdempotent(v: Video, n: Note)
    ensures ClearedVideo(ClearedVideo(v)) == ClearedVideo(v)
    ensures ClearedNote(ClearedNote(n)) == ClearedNote(n)
  {
  }
}
