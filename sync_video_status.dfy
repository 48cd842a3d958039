/** The `sync_video_status` command
    (`core/management/commands/sync_video_status.py`): each video's transcript
    and index statuses are raised to 'complete' when its transcript rows or
    its transcript index exist; only changed videos are saved and counted. */
module SyncVideoStatus {
  import opened Common
  import opened Models
  import opened Storage
  import opened Store

  /** `<root>/transcripts/<platform id>` exists and holds `index.faiss`. */
  predicate HasTranscriptIndex(v: Video, fs: Fs, root: Path) {
    PlatformId(v).Some?
    && var p := root + ["transcripts", PlatformId(v).value];
       Exists(fs, p) && p in fs && fs[p].hasFaiss
  }

  /** The row the loop body leaves for `v`. */
  function Synced(v: Video, rows: seq<Segment>, fs: Fs, root: Path): Video {
    v.(transcriptStatus := if RowsOf(rows, v.id) != [] then Complete else v.transcriptStatus,
       indexStatus := if HasTranscriptIndex(v, fs, root) then Complete else v.indexStatus)
  }

  /** The `changed` flag. */
  predicate Changed(v: Video, rows: seq<Segment>, fs: Fs, root: Path) {
    (RowsOf(rows, v.id) != [] && v.transcriptStatus != Complete)
    || (HasTranscriptIndex(v, fs, root) && v.indexStatus != Complete)
  }

  /** `handle()`: every video is synced and `updated` counts those changed. */
  method Handle(db: Db, root: Path) returns (updated: nat)
    modifies db`videos
    ensures |db.videos| == |old(db.videos)|
    ensures forall k :: 0 <= k < |db.videos| ==>
              db.videos[k] == Synced(old(db.videos)[k], db.transcripts, db.indexes, root)
    ensures var rows := db.transcripts;
            var fs := db.indexes;
            updated == CountWhere(old(db.videos), (v: Video) => Changed(v, rows, fs, root))
  {
    ghost var was := db.videos;
    var rows := db.transcripts;
    var fs := db.indexes;
    ghost var changes := (v: Video) => Changed(v, rows, fs, root);
    updated := 0;
    var j := 0;
    while j < |db.videos|
      invariant j <= |db.videos| == |was|
      invariant forall k :: 0 <= k < j ==> db.videos[k] == Synced(was[k], rows, fs, root)
      invariant forall k :: j <= k < |was| ==> db.videos[k] == was[k]
      invariant updated == CountWhere(was[..j], changes)
    {
      var video := db.videos[j];
      var changed := false;
      if RowsOf(rows, video.id) != [] {
        if video.transcriptStatus != Complete {
          video := video.(transcriptStatus := Complete);
          changed := true;
        }
      }
      if HasTranscriptIndex(video, fs, root) {
        if video.indexStatus != Complete {
          video := video.(indexStatus := Complete);
          changed := true;
        }
      }
      assert was[..j + 1][..j] == was[..j];
      if changed {
        db.videos := db.videos[j := video];
        updated := updated + 1;
      }
      j := j + 1;
    }
    assert was[..j] == was;
  }

  /** Statuses are only ever raised to 'complete': each of the two fields
      either keeps its value or becomes 'complete', and nothing else of the
      row changes. */
  lemma NeverDowngrades(v: Video, rows: seq<Segment>, fs: Fs, root: Path)
    ensures var w := Synced(v, rows, fs, root);
            (w.transcriptStatus == v.transcriptStatus || w.transcriptStatus == Complete)
            && (w.indexStatus == v.indexStatus || w.indexStatus == Complete)
            && w.(transcriptStatus := v.transcriptStatus, indexStatus := v.indexStatus) == v
    ensures Synced(v, rows, fs, root) != v <==> Changed(v, rows, fs, root)
  {
  }

  /** The result of syncing every video of a table. */
  function SyncedAll(videos: seq<Video>, rows: seq<Segment>, fs: Fs, root: Path): (r: seq<Video>)
    ensures |r| == |videos|
  {
    if videos == [] then []
    else SyncedAll(videos[..|videos| - 1], rows, fs, root) + [Synced(videos[|videos| - 1], rows, fs, root)]
  }

  /** `SyncedAll` is the table `handle()` leaves: position by position. */
  lemma {:induction false} SyncedAllAt(videos: seq<Video>, rows: seq<Segment>, fs: Fs, root: Path)
    ensures forall k :: 0 <= k < |videos| ==> SyncedAll(videos, rows, fs, root)[k] == Synced(videos[k], rows, fs, root)
  {
    if videos != [] {
      SyncedAllAt(videos[..|videos| - 1], rows, fs, root);
    }
  }

  /** A second run over the synced table finds nothing to change. */
  lemma {:induction false} SecondRunChangesNothing(videos: seq<Video>, rows: seq<Segment>, fs: Fs, root: Path)
    ensures CountWhere(SyncedAll(videos, rows, fs, root), (v: Video) => Changed(v, rows, fs, root)) == 0
    ensures forall k :: 0 <= k < |videos| ==> Synced(SyncedAll(videos, rows, fs, root)[k], rows, fs, root)
                                              == SyncedAll(videos, rows, fs, root)[k]
  {
    var r := SyncedAll(videos, rows, fs, root);
    if videos != [] {
      var init := videos[..|videos| - 1];
      SecondRunChangesNothing(init, rows, fs, root);
      assert r[..|r| - 1] == SyncedAll(init, rows, fs, root);
      var w := Synced(videos[|videos| - 1], rows, fs, root);
      assert !Changed(w, rows, fs, root);
      forall k | 0 <= k < |videos|
        ensures Synced(r[k], rows, fs, root) == r[k]
      {
        if k < |videos| - 1 {
          assert r[k] == SyncedAll(init, rows, fs, root)[k];
        }
      }
    }
  }
}
