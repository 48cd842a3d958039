/** The transcript beside the video page's player (`static/js/video_player.js`):
    its own `formatTimestamp`, which drops the hours when they are "00", and
    its own `highlightTranscript`, which marks every line whose span holds
    the current time.

    The lines' `data-start` attributes are written from the transcript's
    starts and read back with `parseFloat`, which gives the same numbers;
    `starts` are those numbers. The class lists of the rendered lines are an
    array of flags, `true` for a line carrying the class `active`. */
module VideoPlayer {
  import opened Common
  import TimeFormat
  import TranscriptUi

  // ---------------------------------------------------------------- timestamps

  /** `formatTimestamp(seconds)`: "HH:MM:SS", or "MM:SS" when the padded
      hours are "00". */
  function FormatTimestamp(seconds: real): string {
    var h := TimeFormat.Pad2(TimeFormat.Hours(seconds));
    var m := TimeFormat.Pad2(TimeFormat.Minutes(seconds));
    var s := TimeFormat.Pad2(TimeFormat.Seconds(seconds));
    if h != "00" then h + ":" + m + ":" + s else m + ":" + s
  }

  /** For a non-negative time the player's clock is the shared clock of
      `utils.js` without its "00:" prefix under an hour, and the same clock
      from an hour on. */
  lemma ShortFormUnderAnHour(t: real)
    requires t >= 0.0
    ensures t < 3600.0 ==> FormatTimestamp(t) == TimeFormat.FormatTimestamp(Some(t))[3..]
    ensures t >= 3600.0 ==> FormatTimestamp(t) == TimeFormat.FormatTimestamp(Some(t))
  {
    NoHoursUnderAnHour(t);
    TimeFormat.Pad2Zero(TimeFormat.Hours(t));
    DropHours(TimeFormat.Pad2(TimeFormat.Hours(t)), TimeFormat.Pad2(TimeFormat.Minutes(t)),
              TimeFormat.Pad2(TimeFormat.Seconds(t)));
  }

  /** The hours field of a non-negative time is zero exactly under an hour. */
  lemma NoHoursUnderAnHour(t: real)
    requires t >= 0.0
    ensures TimeFormat.Hours(t) == 0 <==> t < 3600.0
  {
    TimeFormat.FloorDiv(t, 3600);
  }

  lemma DropHours(h: string, m: string, s: string)
    ensures h == "00" ==> (h + ":" + m + ":" + s)[3..] == m + ":" + s
  {
    if h == "00" {
      assert (h + ":" + m + ":" + s)[3..] == m + ":" + s;
    }
  }

  /** Under an hour the player shows "MM:SS" in digits, reading back as the
      whole seconds of `t`. */
  lemma ShortFormReadsBack(t: real)
    requires 0.0 <= t < 3600.0
    ensures var r := FormatTimestamp(t);
            |r| == 5 && r[2] == ':' && AllDigits(r[..2]) && AllDigits(r[3..])
            && DigitsValue(r[..2]) * 60 + DigitsValue(r[3..]) == t.Floor
  {
    TimeFormat.FieldsDecompose(t);
    NoHoursUnderAnHour(t);
    TimeFormat.Pad2Zero(TimeFormat.Hours(t));
    TimeFormat.Pad2Reads(TimeFormat.Minutes(t));
    TimeFormat.Pad2Reads(TimeFormat.Seconds(t));
    MinutesClock(TimeFormat.Pad2(TimeFormat.Minutes(t)), TimeFormat.Pad2(TimeFormat.Seconds(t)));
  }

  lemma MinutesClock(m: string, s: string)
    requires |m| == 2 && |s| == 2
    ensures var r := m + ":" + s; |r| == 5 && r[2] == ':' && r[..2] == m && r[3..] == s
  {
    var r := m + ":" + s;
    assert r[..2] == m;
    assert r[3..] == s;
  }

  // ---------------------------------------------------------------- the active lines

  /** The end of line `i`: the next line's start, else the duration when
      truthy, else five seconds after the line's start. */
  function EndOf(starts: seq<real>, i: nat, duration: TranscriptUi.Duration): real
    requires i < |starts|
  {
    if i + 1 < |starts| then starts[i + 1]
    else if TranscriptUi.Truthy(duration) then duration.value
    else starts[i] + 5.0
  }

  predicate Covers(starts: seq<real>, i: nat, t: real, duration: TranscriptUi.Duration)
    requires i < |starts|
  {
    starts[i] <= t < EndOf(starts, i, duration)
  }

  /** The last of the first `n` lines that covers `t`: the line the loop
      leaves in `activeLine`. */
  function LastActiveBefore(starts: seq<real>, n: nat, t: real, duration: TranscriptUi.Duration): (r: Option<nat>)
    requires n <= |starts|
    ensures r.Some? ==> r.value < n && Covers(starts, r.value, t, duration)
                        && forall j :: r.value < j < n ==> !Covers(starts, j, t, duration)
    ensures r.None? ==> forall j :: 0 <= j < n ==> !Covers(starts, j, t, duration)
  {
    if n == 0 then None
    else if Covers(starts, n - 1, t, duration) then Some(n - 1)
    else LastActiveBefore(starts, n - 1, t, duration)
  }

  function LastActive(starts: seq<real>, t: real, duration: TranscriptUi.Duration): Option<nat> {
    LastActiveBefore(starts, |starts|, t, duration)
  }

  /** `highlightTranscript(currentTime)`. Without the transcript container
      or the player nothing changes. Otherwise every line is marked active
      exactly when it covers `t` (there is no `break`), the last such line
      is the active one, and it is scrolled to when it is out of view. */
  method HighlightTranscript(marks: array<bool>, starts: seq<real>, t: real, duration: TranscriptUi.Duration,
                             hasContent: bool, hasPlayer: bool, inView: nat -> bool)
    returns (activeLine: Option<nat>, scrollTo: Option<nat>)
    requires marks.Length == |starts|
    modifies marks
    ensures !(hasContent && hasPlayer) ==> marks[..] == old(marks[..]) && activeLine == None
    ensures hasContent && hasPlayer ==>
              (forall i :: 0 <= i < |starts| ==> marks[i] == Covers(starts, i, t, duration))
              && activeLine == LastActive(starts, t, duration)
    ensures scrollTo == if activeLine.Some? && !inView(activeLine.value) then activeLine else None
  {
    activeLine := None;
    scrollTo := None;
    if !hasContent || !hasPlayer {
      return;
    }
    var i := 0;
    while i < |starts|
      invariant i <= |starts|
      invariant forall j :: 0 <= j < i ==> marks[j] == Covers(starts, j, t, duration)
      invariant activeLine == LastActiveBefore(starts, i, t, duration)
    {
      var end := if i + 1 < |starts| then starts[i + 1]
                 else if duration.Some? && duration.value != 0.0 then duration.value
                 else starts[i] + 5.0;
      if t >= starts[i] && t < end {
        marks[i] := true;
        activeLine := Some(i);
      } else {
        marks[i] := false;
      }
      i := i + 1;
    }
    if activeLine.Some? && !inView(activeLine.value) {
      scrollTo := activeLine;
    }
  }

  // ---------------------------------------------------------------- the two pages agree

  /** The `data-start` values of the rendered transcript. */
  function StartsOf(ts: seq<TranscriptUi.Line>): seq<real> {
    seq(|ts|, i requires 0 <= i < |ts| => ts[i].start)
  }

  /** With sorted starts at most one line is marked active. */
  lemma AtMostOneMarked(starts: seq<real>, t: real, duration: TranscriptUi.Duration, i: nat, j: nat)
    requires forall a, b :: 0 <= a < b < |starts| ==> starts[a] <= starts[b]
    requires i < |starts| && j < |starts| && Covers(starts, i, t, duration) && Covers(starts, j, t, duration)
    ensures i == j
  {
  }

  /** For sorted transcripts and a truthy duration, the line the video page
      marks is the line the assistant page pins: the first covering line
      and the last covering line are the same. */
  lemma {:induction false} PagesAgree(ts: seq<TranscriptUi.Line>, t: real, duration: TranscriptUi.Duration)
    requires TranscriptUi.Sorted(ts) && TranscriptUi.Truthy(duration)
    ensures LastActive(StartsOf(ts), t, duration) == TranscriptUi.FirstActive(ts, t, duration)
  {
    var starts := StartsOf(ts);
    var first := TranscriptUi.FirstActive(ts, t, duration);
    var last := LastActive(starts, t, duration);
    forall i | 0 <= i < |ts|
      ensures Covers(starts, i, t, duration) == TranscriptUi.Covers(ts, i, t, duration)
    {
    }
    if first.Some? {
      assert Covers(starts, first.value, t, duration);
      AtMostOneMarked(starts, t, duration, first.value, last.value);
    }
  }

  /** Without a duration the two pages part on the last line: ten seconds
      after its start the assistant page still pins it while the video page
      marks nothing. */
  lemma {:induction false} LastLineWithoutDuration(ts: seq<TranscriptUi.Line>)
    requires TranscriptUi.Sorted(ts) && |ts| > 0
    ensures var t := ts[|ts| - 1].start + 10.0;
            TranscriptUi.FirstActive(ts, t, None) == Some(|ts| - 1)
            && LastActive(StartsOf(ts), t, None) == None
  {
    var t := ts[|ts| - 1].start + 10.0;
    var n := |ts| - 1;
    assert TranscriptUi.Covers(ts, n, t, None);
    forall j | 0 <= j < n
      ensures !TranscriptUi.Covers(ts, j, t, None)
    {
      assert ts[j + 1].start <= ts[n].start;
    }
    forall j | 0 <= j < |ts|
      ensures !Covers(StartsOf(ts), j, t, None)
    {
      if j < n {
        assert ts[j + 1].start <= ts[n].start;
      }
    }
  }
}
