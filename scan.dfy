/** Hand-written matchers for the time patterns the two routers search
    for with `re.search`. A search returns the leftmost position at which
    the pattern matches, and at that position the greedy quantifiers take as
    much as the rest of the pattern allows; each matcher below is that
    greedy reading, worked out for its pattern.
    `\d` is the ASCII digits, `\s` is `IsSpace`, and IGNORECASE folds ASCII
    letters only. */
module Scan {
  import opened Common

  function DigitRun(s: string, i: nat): (r: nat)
    requires i <= |s|
    decreases |s| - i
    ensures i + r <= |s|
    ensures forall k :: i <= k < i + r ==> IsDigit(s[k])
    ensures i + r < |s| ==> !IsDigit(s[i + r])
  {
    if i < |s| && IsDigit(s[i]) then 1 + DigitRun(s, i + 1) else 0
  }

  function SpaceRun(s: string, i: nat): (r: nat)
    requires i <= |s|
    decreases |s| - i
    ensures i + r <= |s|
    ensures forall k :: i <= k < i + r ==> IsSpace(s[k])
    ensures i + r < |s| ==> !IsSpace(s[i + r])
  {
    if i < |s| && IsSpace(s[i]) then 1 + SpaceRun(s, i + 1) else 0
  }

  /** The number written by the `n` digits at position `i`. */
  function NumberAt(s: string, i: nat, n: nat): nat
    requires i + n <= |s| && forall k :: i <= k < i + n ==> IsDigit(s[k])
  {
    var t := s[i..i + n];
    assert AllDigits(t) by {
      forall k | 0 <= k < |t| ensures IsDigit(t[k]) {
        assert t[k] == s[i + k];
      }
    }
    DigitsValue(t)
  }

  function Min(a: nat, b: nat): nat { if a < b then a else b }

  predicate DigitAt(s: string, i: int) { 0 <= i < |s| && IsDigit(s[i]) }
  predicate ColonAt(s: string, i: int) { 0 <= i < |s| && s[i] == ':' }

  // ---------------------------------------------------------------- clock times

  /** The groups of `(\d{1,2}):(\d{1,2})(?::(\d{1,2}))?` matched at position `i`
      (two or three numbers), if the pattern matches there. The first group
      must be the whole digit run (a longer run cannot be followed by ':'),
      the second takes up to two digits, and the optional third part is taken
      whenever a ':' and a digit follow. */
  function ClockAt(s: string, i: nat): (r: Option<seq<nat>>)
    requires i <= |s|
    ensures r.Some? ==> |r.value| == 2 || |r.value| == 3
  {
    var r1 := DigitRun(s, i);
    if r1 == 0 || r1 > 2 || !ColonAt(s, i + r1) then None
    else
      var j := i + r1 + 1;
      var r2 := DigitRun(s, j);
      if r2 == 0 then None
      else
        var k := j + Min(2, r2);
        var h := NumberAt(s, i, r1);
        var m := NumberAt(s, j, Min(2, r2));
        if ColonAt(s, k) && DigitAt(s, k + 1) then
          Some([h, m, NumberAt(s, k + 1, Min(2, DigitRun(s, k + 1)))])
        else
          Some([h, m])
  }

  /** Where the clock pattern can match at all: one or two digits, a ':' and a digit. */
  lemma ClockAtIff(s: string, i: nat)
    requires i <= |s|
    ensures ClockAt(s, i).Some? <==>
      (DigitAt(s, i) && ColonAt(s, i + 1) && DigitAt(s, i + 2))
      || (DigitAt(s, i) && DigitAt(s, i + 1) && ColonAt(s, i + 2) && DigitAt(s, i + 3))
  {
    var r1 := DigitRun(s, i);
    if DigitAt(s, i) {
      assert r1 >= 1;
      if DigitAt(s, i + 1) {
        assert r1 >= 2;
      } else {
        assert r1 == 1;
      }
    }
  }

  /** The legacy pattern `(\d{1,2}):(\d{1,2}):(\d{1,2})|(\d{1,2}):(\d{1,2})`
      read as written: the three-part alternative first, then the two-part one. */
  function LegacyClockAt(s: string, i: nat): (r: Option<seq<nat>>)
    requires i <= |s|
  {
    var r1 := DigitRun(s, i);
    if r1 == 0 || r1 > 2 || !ColonAt(s, i + r1) then None
    else
      var j := i + r1 + 1;
      var r2 := DigitRun(s, j);
      if r2 == 0 then None
      else if r2 <= 2 && ColonAt(s, j + r2) && DigitAt(s, j + r2 + 1) then
        Some([NumberAt(s, i, r1), NumberAt(s, j, r2),
              NumberAt(s, j + r2 + 1, Min(2, DigitRun(s, j + r2 + 1)))])
      else
        Some([NumberAt(s, i, r1), NumberAt(s, j, Min(2, r2))])
  }

  /** The two clock patterns match at the same positions with the same groups. */
  lemma ClockPatternsAgree(s: string, i: nat)
    requires i <= |s|
    ensures LegacyClockAt(s, i) == ClockAt(s, i)
  {
    var r1 := DigitRun(s, i);
    if !(r1 == 0 || r1 > 2 || !ColonAt(s, i + r1)) {
      var j := i + r1 + 1;
      var r2 := DigitRun(s, j);
      if r2 > 2 {
        assert IsDigit(s[j + 2]);
      }
    }
  }

  /** The leftmost position at or after `from` where the clock pattern matches. */
  function FirstClock(s: string, from: nat): (r: Option<nat>)
    requires from <= |s|
    decreases |s| - from
    ensures r.Some? ==> from <= r.value <= |s| && ClockAt(s, r.value).Some?
    ensures r.Some? ==> forall j :: from <= j < r.value ==> ClockAt(s, j).None?
    ensures r.None? ==> forall j :: from <= j <= |s| ==> ClockAt(s, j).None?
  {
    if ClockAt(s, from).Some? then Some(from)
    else if from == |s| then None
    else FirstClock(s, from + 1)
  }

  /** The groups of the leftmost clock match, if any. */
  function ClockSearch(s: string): (r: Option<seq<nat>>)
    ensures r.Some? ==> |r.value| == 2 || |r.value| == 3
    ensures r.None? <==> forall j :: 0 <= j <= |s| ==> ClockAt(s, j).None?
  {
    match FirstClock(s, 0)
    case None => None
    case Some(p) => ClockAt(s, p)
  }

  /** Seconds denoted by clock groups: h*3600 + m*60 + s, or m*60 + s. */
  function ClockSeconds(parts: seq<nat>): nat
    requires |parts| == 2 || |parts| == 3
  {
    if |parts| == 3 then parts[0] * 3600 + parts[1] * 60 + parts[2]
    else parts[0] * 60 + parts[1]
  }

  // ---------------------------------------------------------------- "N minutes"

  /** "min" in any case at position `k`. */
  predicate MinAt(s: string, k: nat) {
    k + 3 <= |s| && LowerChar(s[k]) == 'm' && LowerChar(s[k + 1]) == 'i' && LowerChar(s[k + 2]) == 'n'
  }

  /** "th minute" in any case at position `k`. */
  predicate ThMinuteAt(s: string, k: nat) {
    k + 9 <= |s| && LowerChar(s[k]) == 't' && LowerChar(s[k + 1]) == 'h' && s[k + 2] == ' '
    && MinAt(s, k + 3) && LowerChar(s[k + 6]) == 'u' && LowerChar(s[k + 7]) == 't' && LowerChar(s[k + 8]) == 'e'
  }

  /** The number of `(\d+)\s*(?:minute|min)` at position `i`, or, with
      `legacy`, of `(\d+)\s*(?:minute|minutes|min|th minute)`. Every word but
      "th minute" begins with "min", so matching "min" decides those
      alternatives; backing off digits or spaces can never help, since the
      next character would then be a digit or a space. */
  function MinuteAt(s: string, i: nat, legacy: bool): (r: Option<nat>)
    requires i <= |s|
    ensures r.Some? ==> DigitAt(s, i)
  {
    var r := DigitRun(s, i);
    if r == 0 then None
    else
      var k := i + r + SpaceRun(s, i + r);
      if MinAt(s, k) || (legacy && ThMinuteAt(s, k)) then Some(NumberAt(s, i, r))
      else None
  }

  function FirstMinute(s: string, from: nat, legacy: bool): (r: Option<nat>)
    requires from <= |s|
    decreases |s| - from
    ensures r.Some? ==> from <= r.value <= |s| && MinuteAt(s, r.value, legacy).Some?
    ensures r.Some? ==> forall j :: from <= j < r.value ==> MinuteAt(s, j, legacy).None?
    ensures r.None? ==> forall j :: from <= j <= |s| ==> MinuteAt(s, j, legacy).None?
  {
    if MinuteAt(s, from, legacy).Some? then Some(from)
    else if from == |s| then None
    else FirstMinute(s, from + 1, legacy)
  }

  /** The number of the leftmost minute match, if any. */
  function MinuteSearch(s: string, legacy: bool): (r: Option<nat>)
    ensures r.None? <==> forall j :: 0 <= j <= |s| ==> MinuteAt(s, j, legacy).None?
  {
    match FirstMinute(s, 0, legacy)
    case None => None
    case Some(p) => MinuteAt(s, p, legacy)
  }
}
