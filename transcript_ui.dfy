/** The transcript panel of the assistant page
    (`static/js/modules/transcript-ui.js`): `renderTranscript` fills the
    list of lines and the pinned "current line", `highlightTranscript`
    finds the line being spoken and pins it.

    A transcript line is an object; `Line.ref` stands for its identity, so
    two distinct objects are distinct values even with equal contents, and
    `!==` on objects is `!=` on lines. A `null` transcript list behaves as an
    empty one in both functions and is written as `[]`. Whether the page has
    each element the functions look up is a parameter. */
module TranscriptUi {
  import opened Common
  import TimeFormat

  datatype Line = Line(ref: nat, start: real, content: string)

  /** A player duration: `None` is `undefined` or NaN. */
  type Duration = Option<real>

  /** JavaScript truthiness of a duration: absent, NaN and 0 are falsy. */
  predicate Truthy(d: Duration) {
    d.Some? && d.value != 0.0
  }

  /** What the pinned-line container shows. `Initial` is the page's own
      markup before either function wrote to it. */
  datatype Pinned = Initial | NotAvailable | Showing(timestamp: string, text: string) | Ellipsis

  /** A rendered `.transcript-line`: its `data-start` and its text; the
      timestamp it shows is `formatTimestamp` of the start. */
  datatype Row = Row(start: real, text: string) {
    function Timestamp(): string {
      TimeFormat.FormatTimestamp(Some(start))
    }
  }

  function PinnedFor(line: Line): Pinned {
    Showing(TimeFormat.FormatTimestamp(Some(line.start)), line.content)
  }

  function RowOf(line: Line): Row {
    Row(line.start, line.content)
  }

  // ---------------------------------------------------------------- the active line

  /** The end of line `i`: the next line's start, or for the last line the
      duration, `Infinity` (here `None`) when the duration is falsy. */
  function EndOf(ts: seq<Line>, i: nat, duration: Duration): Option<real>
    requires i < |ts|
  {
    if i + 1 < |ts| then Some(ts[i + 1].start)
    else if Truthy(duration) then duration
    else None
  }

  /** `currentTime >= startTime && currentTime < endTime`. */
  predicate Covers(ts: seq<Line>, i: nat, t: real, duration: Duration)
    requires i < |ts|
  {
    ts[i].start <= t && (EndOf(ts, i, duration).None? || t < EndOf(ts, i, duration).value)
  }

  /** The first line from `k` on that covers `t`. */
  function FirstActiveFrom(ts: seq<Line>, k: nat, t: real, duration: Duration): (r: Option<nat>)
    requires k <= |ts|
    ensures r.Some? ==> k <= r.value < |ts| && Covers(ts, r.value, t, duration)
                        && forall j :: k <= j < r.value ==> !Covers(ts, j, t, duration)
    ensures r.None? ==> forall j :: k <= j < |ts| ==> !Covers(ts, j, t, duration)
    decreases |ts| - k
  {
    if k == |ts| then None
    else if Covers(ts, k, t, duration) then Some(k)
    else FirstActiveFrom(ts, k + 1, t, duration)
  }

  /** The line `highlightTranscript` settles on: the first covering line. */
  function FirstActive(ts: seq<Line>, t: real, duration: Duration): Option<nat> {
    FirstActiveFrom(ts, 0, t, duration)
  }

  /** The `for … break` search of `highlightTranscript`. */
  method ActiveLine(ts: seq<Line>, t: real, duration: Duration) returns (found: Option<nat>)
    ensures found.Some? ==> found.value < |ts| && Covers(ts, found.value, t, duration)
                            && forall j :: 0 <= j < found.value ==> !Covers(ts, j, t, duration)
    ensures found.None? ==> forall j :: 0 <= j < |ts| ==> !Covers(ts, j, t, duration)
    ensures found == FirstActive(ts, t, duration)
  {
    found := None;
    var i := 0;
    while i < |ts|
      invariant i <= |ts|
      invariant forall j :: 0 <= j < i ==> !Covers(ts, j, t, duration)
    {
      var end := if i + 1 < |ts| then Some(ts[i + 1].start)
                 else if duration.Some? && duration.value != 0.0 then duration
                 else None;
      if t >= ts[i].start && (end.None? || t < end.value) {
        found := Some(i);
        break;
      }
      i := i + 1;
    }
  }

  /** Nondecreasing starts, as the transcript API returns them. */
  predicate Sorted(ts: seq<Line>) {
    forall i, j :: 0 <= i < j < |ts| ==> ts[i].start <= ts[j].start
  }

  /** With sorted starts the lines' spans do not overlap, so at most one
      line covers any time. */
  lemma SpansDisjoint(ts: seq<Line>, t: real, duration: Duration, i: nat, j: nat)
    requires Sorted(ts) && i < |ts| && j < |ts|
    requires Covers(ts, i, t, duration) && Covers(ts, j, t, duration)
    ensures i == j
  {
  }

  /** With a falsy duration the last line stays active for ever after its
      start; the search finds a line exactly when `t` is at or past the
      first start. */
  lemma {:induction false} SomeLineFromFirstStart(ts: seq<Line>, t: real, duration: Duration)
    requires Sorted(ts) && !Truthy(duration) && |ts| > 0
    ensures FirstActive(ts, t, duration).Some? <==> ts[0].start <= t
  {
    if ts[0].start <= t {
      var k := LastStartedBy(ts, t, 0);
      assert Covers(ts, k, t, duration);
    }
  }

  /** The last line whose start is at or before `t`, searching from `k`. */
  lemma {:induction false} LastStartedBy(ts: seq<Line>, t: real, k: nat) returns (i: nat)
    requires Sorted(ts) && k < |ts| && ts[k].start <= t
    ensures k <= i < |ts| && ts[i].start <= t && (i + 1 == |ts| || t < ts[i + 1].start)
    decreases |ts| - k
  {
    if k + 1 < |ts| && ts[k + 1].start <= t {
      i := LastStartedBy(ts, t, k + 1);
    } else {
      i := k;
    }
  }

  // ---------------------------------------------------------------- the pinned line

  /** `lastActiveLine` and the pinned line after a highlight that found
      `active`: a new active line is pinned; losing the active line pins
      "..." once. */
  function Highlighted(last: Option<Line>, pinned: Pinned, active: Option<Line>): (Option<Line>, Pinned) {
    if active.Some? && active != last then (active, PinnedFor(active.value))
    else if active.None? && last.Some? then (None, Ellipsis)
    else (last, pinned)
  }

  /** After every highlight `lastActiveLine` is the line just found; the
      pinned line is rewritten only when that differs from the one before. */
  lemma LastIsActive(last: Option<Line>, pinned: Pinned, active: Option<Line>)
    ensures Highlighted(last, pinned, active).0 == active
    ensures Highlighted(last, pinned, active).1 != pinned ==> active != last
    ensures active == last ==> Highlighted(last, pinned, active) == (last, pinned)
  {
  }

  /** A second highlight at the same moment changes nothing. */
  lemma HighlightTwiceIsOnce(last: Option<Line>, pinned: Pinned, active: Option<Line>)
    ensures var (l, p) := Highlighted(last, pinned, active);
            Highlighted(l, p, active) == (l, p)
  {
  }

  /** The pinned line shows the last active line; highlights keep that true. */
  predicate PinnedShowsLast(last: Option<Line>, pinned: Pinned) {
    last.Some? ==> pinned == PinnedFor(last.value)
  }

  lemma HighlightKeepsPinned(last: Option<Line>, pinned: Pinned, active: Option<Line>)
    requires PinnedShowsLast(last, pinned)
    ensures var (l, p) := Highlighted(last, pinned, active);
            PinnedShowsLast(l, p) && (l.None? && last.Some? ==> p == Ellipsis)
  {
  }

  /** A rendered row's timestamp reads back as the whole seconds of the
      line's start (for starts under a hundred hours). */
  lemma RowTimestampReadsBack(line: Line)
    requires 0.0 <= line.start < 360000.0
    ensures var s := RowOf(line).Timestamp();
            |s| == 8 && AllDigits(s[..2]) && AllDigits(s[3..5]) && AllDigits(s[6..])
            && DigitsValue(s[..2]) * 3600 + DigitsValue(s[3..5]) * 60 + DigitsValue(s[6..]) == line.start.Floor
  {
    TimeFormat.ReadsBack(line.start);
  }

  // ---------------------------------------------------------------- the panel

  /** The `transcripts.forEach` of `renderTranscript`: one row per line, in order. */
  method RenderRows(ts: seq<Line>) returns (rendered: seq<Row>)
    ensures |rendered| == |ts| && forall i :: 0 <= i < |ts| ==> rendered[i] == RowOf(ts[i])
  {
    rendered := [];
    for i := 0 to |ts|
      invariant |rendered| == i
      invariant forall j :: 0 <= j < i ==> rendered[j] == RowOf(ts[j])
    {
      rendered := rendered + [RowOf(ts[i])];
    }
  }

  /** The module's `lastActiveLine` with the page elements both functions write. */
  class Panel {
    var lastActiveLine: Option<Line>
    var pinned: Pinned
    var rows: seq<Row>
    var unavailableShown: bool
    var spinnerShown: bool

    constructor ()
      ensures lastActiveLine == None && pinned == Initial && rows == [] && !unavailableShown && spinnerShown
    {
      lastActiveLine := None;
      pinned := Initial;
      rows := [];
      unavailableShown := false;
      spinnerShown := true;
    }

    /** `renderTranscript(transcripts, player)`. The spinner goes first;
        without the list container nothing else happens. An empty list
        shows the unavailable notice (when its template exists) and pins
        "Transcript not available yet."; otherwise segment 0 is pinned and
        every line is rendered in order. `lastActiveLine` is not touched. */
    method RenderTranscript(ts: seq<Line>, hasContent: bool, hasPinned: bool, hasTemplate: bool)
      modifies this
      ensures !spinnerShown && lastActiveLine == old(lastActiveLine)
      ensures !hasContent ==> pinned == old(pinned) && rows == old(rows) && unavailableShown == old(unavailableShown)
      ensures hasContent && ts == [] ==>
                rows == [] && unavailableShown == hasTemplate
                && pinned == (if hasPinned then NotAvailable else old(pinned))
      ensures hasContent && ts != [] ==>
                !unavailableShown && |rows| == |ts| && (forall i :: 0 <= i < |ts| ==> rows[i] == RowOf(ts[i]))
                && pinned == (if hasPinned then PinnedFor(ts[0]) else old(pinned))
    {
      spinnerShown := false;
      if !hasContent {
        return;
      }
      rows := [];
      unavailableShown := false;
      if |ts| == 0 {
        unavailableShown := hasTemplate;
        if hasPinned {
          pinned := NotAvailable;
        }
        return;
      }
      if hasPinned {
        pinned := PinnedFor(ts[0]);
      }
      rows := RenderRows(ts);
    }

    /** `highlightTranscript(currentTime, transcripts, playerDuration)`:
        without the pinned-line container or with no lines it does
        nothing; otherwise the first covering line decides the new
        `lastActiveLine` and pinned line. */
    method HighlightTranscript(t: real, ts: seq<Line>, duration: Duration, hasPinned: bool)
      modifies this`lastActiveLine, this`pinned
      ensures !hasPinned || ts == [] ==> lastActiveLine == old(lastActiveLine) && pinned == old(pinned)
      ensures hasPinned && ts != [] ==>
                var active := FirstActive(ts, t, duration);
                (lastActiveLine, pinned)
                  == Highlighted(old(lastActiveLine), old(pinned), if active.Some? then Some(ts[active.value]) else None)
    {
      if !hasPinned || |ts| == 0 {
        return;
      }
      var found := ActiveLine(ts, t, duration);
      var active := if found.Some? then Some(ts[found.value]) else None;
      if active.Some? && active != lastActiveLine {
        lastActiveLine := active;
        pinned := PinnedFor(active.value);
      } else if active.None? && lastActiveLine.Some? {
        lastActiveLine := None;
        pinned := Ellipsis;
      }
    }
  }
}
