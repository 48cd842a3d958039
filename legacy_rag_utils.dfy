/** The legacy router's helpers (`core/rag/utils.py`): the timestamp parser,
    which tries "N minutes" before clock times and treats a zero clock time
    as no time, and the clamped context window around a target document. */
module LegacyRagUtils {
  import opened Common
  import opened Scan

  /** `parse_timestamp_from_query(query)`. The clock pattern of this file
      (three-part alternative first) matches as `ClockAt` does: see
      `Scan.ClockPatternsAgree`. */
  function ParseTimestampFromQuery(query: string): (r: Option<nat>)
  {
    FromMatches(MinuteSearch(query, true), ClockSearch(query))
  }

  /** The parser's answer from the leftmost minute match and the leftmost
      clock match. */
  function FromMatches(minutes: Option<nat>, clock: Option<seq<nat>>): Option<nat>
    requires clock.Some? ==> |clock.value| == 2 || |clock.value| == 3
  {
    if minutes.Some? then Some(minutes.value * 60)
    else if clock.None? then None
    else if ClockSeconds(clock.value) > 0 then Some(ClockSeconds(clock.value))
    else None
  }

  /** A minute form is used before any clock time, and "0 min" gives 0 rather
      than nothing. */
  lemma MinutesFirst(query: string)
    ensures MinuteSearch(query, true).Some? ==>
              ParseTimestampFromQuery(query) == Some(MinuteSearch(query, true).value * 60)
    ensures MinuteSearch(query, true) == Some(0) ==> ParseTimestampFromQuery(query) == Some(0)
  {
    MinutesFirstOf(MinuteSearch(query, true), ClockSearch(query));
  }

  lemma MinutesFirstOf(minutes: Option<nat>, clock: Option<seq<nat>>)
    requires clock.Some? ==> |clock.value| == 2 || |clock.value| == 3
    ensures minutes.Some? ==> FromMatches(minutes, clock) == Some(minutes.value * 60)
  {
  }

  /** The parser returns nothing exactly when there is no minute form and
      either no clock time or a clock time worth zero seconds; it never
      returns a zero clock time. */
  lemma NothingIff(query: string)
    ensures ParseTimestampFromQuery(query).None? <==>
      MinuteSearch(query, true).None? && (ClockSearch(query).None? || ClockSeconds(ClockSearch(query).value) == 0)
    ensures ParseTimestampFromQuery(query) == Some(0) ==> MinuteSearch(query, true) == Some(0)
  {
    NothingIffOf(MinuteSearch(query, true), ClockSearch(query));
  }

  lemma NothingIffOf(minutes: Option<nat>, clock: Option<seq<nat>>)
    requires clock.Some? ==> |clock.value| == 2 || |clock.value| == 3
    ensures FromMatches(minutes, clock).None? <==>
      minutes.None? && (clock.None? || ClockSeconds(clock.value) == 0)
    ensures FromMatches(minutes, clock) == Some(0) ==> minutes == Some(0)
  {
  }

  /** Python's `s[a:b]` for any integers `a` and `b`: negative bounds count
      from the end, and bounds are clamped to the sequence. */
  function PySlice<T>(s: seq<T>, a: int, b: int): (r: seq<T>)
    ensures |r| <= |s|
  {
    var lo := if a < 0 then (if |s| + a < 0 then 0 else |s| + a) else (if a > |s| then |s| else a);
    var hi := if b < 0 then (if |s| + b < 0 then 0 else |s| + b) else (if b > |s| then |s| else b);
    if lo >= hi then [] else s[lo..hi]
  }

  /** `get_context_window(all_docs, target_index, window_size=1)`. */
  function ContextWindow<T>(docs: seq<T>, target: int, windowSize: int := 1): (r: seq<T>)
  {
    var lo := if 0 < target - windowSize then target - windowSize else 0;
    var hi := if |docs| < target + windowSize + 1 then |docs| else target + windowSize + 1;
    PySlice(docs, lo, hi)
  }

  /** For a target inside the list and a non-negative window, the window is
      the contiguous slice clamped to the list, at most 2w+1 long, and it
      holds the target at position `target - lo`. */
  lemma ContextWindowShape<T>(docs: seq<T>, target: int, w: int)
    requires 0 <= target < |docs| && 0 <= w
    ensures var lo := if target - w > 0 then target - w else 0;
            var hi := if target + w + 1 < |docs| then target + w + 1 else |docs|;
            var r := ContextWindow(docs, target, w);
            r == docs[lo..hi] && |r| <= 2 * w + 1
            && 0 <= target - lo < |r| && r[target - lo] == docs[target]
  {
  }

  /** The default window is one document on either side. */
  lemma DefaultWindow<T>(docs: seq<T>, target: int)
    requires 1 <= target < |docs| - 1
    ensures ContextWindow(docs, target) == [docs[target - 1], docs[target], docs[target + 1]]
  {
  }

  /** The window never invents documents: whatever the target and size, it is
      some contiguous slice of the list. */
  lemma ContextWindowContiguous<T>(docs: seq<T>, target: int, w: int)
    ensures exists lo, hi :: 0 <= lo <= hi <= |docs| && ContextWindow(docs, target, w) == docs[lo..hi]
  {
    var r := ContextWindow(docs, target, w);
    if r == [] {
      assert r == docs[0..0];
    }
  }
}
