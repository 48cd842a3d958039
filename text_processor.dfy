/** The OCR text pipeline (`engine/transcript_service/ocr_service/text_processor.py`):
    cleaning one frame's text, the similarity test between two texts,
    removal of near-duplicate consecutive segments, and their merge into
    one block of lines.

    Python's `str.isprintable` depends on Unicode tables and is the
    parameter `printable`; difflib's `SequenceMatcher(...).ratio()` is the
    parameter `ratio` of a `Matcher`. */
module TextProcessor {
  import opened Common

  /** The similarity threshold and the ratio function it is compared with. */
  datatype Matcher = Matcher(ratio: (string, string) -> real, minSimilarity: real)

  /** `TextProcessor()`'s default threshold, the one `VideoOCRService` passes. */
  const DefaultMinSimilarity: real := 0.85

  // ---------------------------------------------------------------- clean_text

  /** The only white space left is the plain space. */
  predicate SpacesAreBlanks(s: string) {
    forall i :: 0 <= i < |s| ==> IsSpace(s[i]) ==> s[i] == ' '
  }

  predicate NoDoubleSpace(s: string) {
    forall i :: 0 <= i < |s| - 1 ==> !(s[i] == ' ' && s[i + 1] == ' ')
  }

  /** The characters of `s` that satisfy `p`, in order. */
  function Keep(s: string, p: char -> bool): (r: string)
    ensures |r| <= |s|
    ensures forall i :: 0 <= i < |r| ==> p(r[i])
    ensures (forall i :: 0 <= i < |s| ==> p(s[i])) ==> r == s
  {
    if s == [] then [] else (if p(s[0]) then [s[0]] else []) + Keep(s[1..], p)
  }

  predicate Visible(c: char) { !IsSpace(c) }

  /** The non-white-space characters of `s`, in order. */
  function NonSpace(s: string): string {
    Keep(s, Visible)
  }

  /** `re.sub(r'\s+', ' ', s)`: every maximal run of white space becomes one
      space. */
  function CollapseSpaces(s: string): (r: string)
    decreases |s|
    ensures |r| <= |s|
    ensures SpacesAreBlanks(r) && NoDoubleSpace(r)
    ensures s == [] <==> r == []
    ensures s != [] ==> (r[0] == ' ' <==> IsSpace(s[0]))
  {
    if s == [] then []
    else if IsSpace(s[0]) then
      var rest := LStrip(s[1..]);
      var t := CollapseSpaces(rest);
      assert t != [] ==> t[0] != ' ';
      [' '] + t
    else
      [s[0]] + CollapseSpaces(s[1..])
  }

  /** Collapsing brings in no character but the space. */
  lemma {:induction false} CollapseChars(s: string)
    ensures forall i :: 0 <= i < |CollapseSpaces(s)| ==> CollapseSpaces(s)[i] == ' ' || CollapseSpaces(s)[i] in s
    decreases |s|
  {
    if s != [] {
      var r := CollapseSpaces(s);
      if IsSpace(s[0]) {
        var rest := LStrip(s[1..]);
        CollapseChars(rest);
        var t := CollapseSpaces(rest);
        assert r == [' '] + t;
        forall i | 0 <= i < |r| && r[i] != ' '
          ensures r[i] in s
        {
          assert r[i] == t[i - 1];
          assert r[i] in rest;
          var j :| 0 <= j < |rest| && rest[j] == r[i];
          assert rest[j] == s[|s| - |rest| + j];
        }
      } else {
        CollapseChars(s[1..]);
        var t := CollapseSpaces(s[1..]);
        assert r == [s[0]] + t;
        forall i | 0 <= i < |r| && r[i] != ' '
          ensures r[i] in s
        {
          if i > 0 {
            assert r[i] == t[i - 1];
            assert r[i] in s[1..];
          }
        }
      }
    }
  }

  /** `clean_text(text)`: white-space runs collapsed to one space, the ends
      stripped, then every non-printable character dropped. */
  function CleanText(text: string, printable: char -> bool): (r: string)
    ensures forall i :: 0 <= i < |r| ==> printable(r[i])
    ensures SpacesAreBlanks(r)
    ensures |r| <= |text|
  {
    if text == [] then []
    else
      var c := CollapseSpaces(text);
      StripBlanks(c);
      KeepBlanks(Strip(c), printable);
      Keep(Strip(c), printable)
  }

  /** Stripping brings in no character. */
  lemma StripBlanks(s: string)
    requires SpacesAreBlanks(s)
    ensures SpacesAreBlanks(Strip(s))
  {
    var a := StripOffset(s);
    var r := Strip(s);
    forall i | 0 <= i < |r|
      ensures IsSpace(r[i]) ==> r[i] == ' '
    {
      assert r[i] == s[a + i];
    }
  }

  /** Keeping brings in no character. */
  lemma {:induction false} KeepBlanks(s: string, p: char -> bool)
    requires SpacesAreBlanks(s)
    ensures SpacesAreBlanks(Keep(s, p))
  {
    if s != [] {
      assert SpacesAreBlanks(s[1..]) by {
        forall i | 0 <= i < |s| - 1 ensures s[1..][i] == s[i + 1] { }
      }
      KeepBlanks(s[1..], p);
    }
  }

  /** Keeping distributes over concatenation. */
  lemma {:induction false} KeepAppend(a: string, b: string, p: char -> bool)
    ensures Keep(a + b, p) == Keep(a, p) + Keep(b, p)
  {
    if a != [] {
      KeepAppend(a[1..], b, p);
      assert (a + b)[0] == a[0] && (a + b)[1..] == a[1..] + b;
      var h := if p(a[0]) then [a[0]] else [];
      assert Keep(a + b, p) == h + Keep(a[1..] + b, p);
      assert Keep(a, p) == h + Keep(a[1..], p);
    } else {
      assert a + b == b;
    }
  }

  lemma {:induction false} LStripKeepsNonSpace(s: string)
    ensures NonSpace(LStrip(s)) == NonSpace(s)
  {
    if |s| > 0 && IsSpace(s[0]) {
      LStripKeepsNonSpace(s[1..]);
    }
  }

  lemma {:induction false} RStripKeepsNonSpace(s: string)
    ensures NonSpace(RStrip(s)) == NonSpace(s)
  {
    if |s| > 0 && IsSpace(s[|s| - 1]) {
      var init := s[..|s| - 1];
      RStripKeepsNonSpace(init);
      assert s == init + [s[|s| - 1]];
      KeepAppend(init, [s[|s| - 1]], Visible);
      assert Keep([s[|s| - 1]], Visible) == [];
    }
  }

  /** Stripping removes only white space. */
  lemma StripKeepsNonSpace(s: string)
    ensures NonSpace(Strip(s)) == NonSpace(s)
  {
    LStripKeepsNonSpace(s);
    RStripKeepsNonSpace(LStrip(s));
  }

  /** Collapsing keeps every non-white-space character, in order: only white
      space is replaced. */
  lemma {:induction false} CollapseKeepsNonSpace(s: string)
    ensures NonSpace(CollapseSpaces(s)) == NonSpace(s)
    decreases |s|
  {
    if s != [] {
      if IsSpace(s[0]) {
        var rest := LStrip(s[1..]);
        CollapseKeepsNonSpace(rest);
        LStripKeepsNonSpace(s[1..]);
        assert CollapseSpaces(s) == [' '] + CollapseSpaces(rest);
      } else {
        CollapseKeepsNonSpace(s[1..]);
      }
    }
  }

  /** Every character of a collapsed text is printable when the text's
      visible characters and the space are. */
  lemma CollapsedPrintable(text: string, printable: char -> bool)
    requires printable(' ')
    requires forall i :: 0 <= i < |text| ==> IsSpace(text[i]) || printable(text[i])
    ensures forall i :: 0 <= i < |CollapseSpaces(text)| ==> printable(CollapseSpaces(text)[i])
  {
    var c := CollapseSpaces(text);
    CollapseChars(text);
    forall i | 0 <= i < |c|
      ensures printable(c[i])
    {
      if c[i] != ' ' {
        var j :| 0 <= j < |text| && text[j] == c[i];
      }
    }
  }

  /** The strip of a collapsed text keeps its printability and has no
      doubled space. */
  lemma StrippedCollapse(c: string, printable: char -> bool)
    requires NoDoubleSpace(c)
    requires forall i :: 0 <= i < |c| ==> printable(c[i])
    ensures var st := Strip(c);
            (forall i :: 0 <= i < |st| ==> printable(st[i])) && NoDoubleSpace(st)
  {
    var a := StripOffset(c);
    var st := Strip(c);
    assert forall i :: 0 <= i < |st| ==> st[i] == c[a + i];
  }

  /** With the non-printable characters out of the picture (every character
      that is not white space is printable, and so is the space), cleaning is
      exactly collapse-then-strip: no leading, trailing or doubled space, and
      every visible character of the input kept in order. */
  lemma CleanTextShape(text: string, printable: char -> bool)
    requires printable(' ')
    requires forall i :: 0 <= i < |text| ==> IsSpace(text[i]) || printable(text[i])
    ensures var r := CleanText(text, printable);
            r == Strip(CollapseSpaces(text))
            && NoDoubleSpace(r)
            && (r == [] || (r[0] != ' ' && r[|r| - 1] != ' '))
            && NonSpace(r) == NonSpace(text)
  {
    CollapsedPrintable(text, printable);
    StrippedCollapse(CollapseSpaces(text), printable);
    CollapseKeepsNonSpace(text);
    StripKeepsNonSpace(CollapseSpaces(text));
  }

  /** A blank text cleans to the empty string. */
  lemma CleanBlank(text: string, printable: char -> bool)
    requires forall i :: 0 <= i < |text| ==> IsSpace(text[i])
    ensures CleanText(text, printable) == []
  {
    if text != [] {
      LStripBlank(text[1..]);
      assert CollapseSpaces(text) == " ";
    }
  }

  lemma {:induction false} CollapseFixed(s: string)
    requires SpacesAreBlanks(s) && NoDoubleSpace(s)
    ensures CollapseSpaces(s) == s
    decreases |s|
  {
    if s != [] {
      assert SpacesAreBlanks(s[1..]) && NoDoubleSpace(s[1..]) by {
        assert forall i :: 0 <= i < |s| - 1 ==> s[1..][i] == s[i + 1];
      }
      CollapseFixed(s[1..]);
      if IsSpace(s[0]) {
        assert |s| > 1 ==> !IsSpace(s[1]);
        assert LStrip(s[1..]) == s[1..];
      }
    }
  }

  lemma StripFixed(s: string)
    requires s == [] || (!IsSpace(s[0]) && !IsSpace(s[|s| - 1]))
    ensures Strip(s) == s
  {
  }

  /** On texts of printable characters and white space, cleaning twice is
      cleaning once. */
  lemma CleanIdempotent(text: string, printable: char -> bool)
    requires printable(' ')
    requires forall i :: 0 <= i < |text| ==> IsSpace(text[i]) || printable(text[i])
    ensures CleanText(CleanText(text, printable), printable) == CleanText(text, printable)
  {
    var r := CleanText(text, printable);
    CleanTextShape(text, printable);
    if r != [] {
      CollapseFixed(r);
      StripFixed(r);
    }
  }

  /** In general it is not: a non-printable character dropped after the
      strip can leave a space at the front, which a second cleaning removes. */
  lemma CleanNotIdempotent(u: char, a: char, printable: char -> bool)
    requires !printable(u) && !IsSpace(u) && printable(a) && !IsSpace(a) && printable(' ')
    ensures CleanText([u, ' ', a], printable) == [' ', a]
    ensures CleanText([' ', a], printable) == [a]
  {
    KeepLast(a, printable);
    CleanKeepsSpace(u, a, printable);
    var t := [' ', a];
    CollapseFixed(t);
    assert t[1..] == [a];
    assert Strip(t) == [a];
  }

  lemma CleanKeepsSpace(u: char, a: char, printable: char -> bool)
    requires !printable(u) && !IsSpace(u) && !IsSpace(a) && Keep([' ', a], printable) == [' ', a]
    ensures CleanText([u, ' ', a], printable) == [' ', a]
  {
    var s := [u, ' ', a];
    CollapseFixed(s);
    StripFixed(s);
    assert s[1..] == [' ', a];
  }

  lemma KeepLast(a: char, p: char -> bool)
    requires p(a) && p(' ')
    ensures Keep([' ', a], p) == [' ', a] && Keep([a], p) == [a]
  {
    assert [' ', a][1..] == [a];
  }

  // ---------------------------------------------------------------- is_similar

  /** `is_similar(text1, text2)`. */
  function IsSimilar(a: string, b: string, m: Matcher): (r: bool)
    ensures a == [] || b == [] ==> !r
    ensures a != [] && a == b ==> r
  {
    if a == [] || b == [] then false
    else if a == b then true
    else m.ratio(a, b) > m.minSimilarity
  }

  /** Between two different non-empty texts, similarity is the ratio test
      alone. */
  lemma IsSimilarByRatio(a: string, b: string, m: Matcher)
    requires a != [] && b != [] && a != b
    ensures IsSimilar(a, b, m) <==> m.ratio(a, b) > m.minSimilarity
  {
  }

  // ---------------------------------------------------------------- remove_duplicates

  predicate Blank(s: string) { Strip(s) == [] }

  /** The segments the loop appends after `last`, the last one kept: a blank
      segment is skipped, one similar to `last` is dropped, any other is
      kept and becomes the new `last`. */
  function DedupeFrom(last: string, rest: seq<string>, m: Matcher): (r: seq<string>)
    decreases |rest|
  {
    if rest == [] then []
    else if Blank(rest[0]) then DedupeFrom(last, rest[1..], m)
    else if !IsSimilar(last, rest[0], m) then [rest[0]] + DedupeFrom(rest[0], rest[1..], m)
    else DedupeFrom(last, rest[1..], m)
  }

  /** What `remove_duplicates` returns: the first segment, kept whatever it
      is, then the segments the loop keeps. */
  function Dedupe(segments: seq<string>, m: Matcher): seq<string> {
    if segments == [] then [] else [segments[0]] + DedupeFrom(segments[0], segments[1..], m)
  }

  /** `remove_duplicates(segments)`. */
  method RemoveDuplicates(segments: seq<string>, m: Matcher) returns (unique: seq<string>)
    ensures unique == Dedupe(segments, m)
  {
    if segments == [] {
      return [];
    }
    unique := [segments[0]];
    var i := 1;
    while i < |segments|
      invariant 1 <= i <= |segments| && unique != []
      invariant unique + DedupeFrom(unique[|unique| - 1], segments[i..], m) == Dedupe(segments, m)
    {
      var current := segments[i];
      var previous := unique[|unique| - 1];
      ghost var before := unique;
      DedupeFromStep(previous, segments, i, m);
      if Strip(current) == [] {
        i := i + 1;
        continue;
      }
      if !IsSimilar(previous, current, m) {
        unique := unique + [current];
        assert before + ([current] + DedupeFrom(current, segments[i + 1..], m))
            == unique + DedupeFrom(current, segments[i + 1..], m);
      }
      i := i + 1;
    }
  }

  /** One step of the loop, as `DedupeFrom` takes it. */
  lemma DedupeFromStep(last: string, segments: seq<string>, i: nat, m: Matcher)
    requires i < |segments|
    ensures DedupeFrom(last, segments[i..], m)
         == if Blank(segments[i]) then DedupeFrom(last, segments[i + 1..], m)
            else if !IsSimilar(last, segments[i], m) then [segments[i]] + DedupeFrom(segments[i], segments[i + 1..], m)
            else DedupeFrom(last, segments[i + 1..], m)
  {
    assert segments[i..][0] == segments[i] && segments[i..][1..] == segments[i + 1..];
  }

  lemma {:induction false} DedupeFromSubseq(last: string, rest: seq<string>, m: Matcher)
    ensures SubseqOf(DedupeFrom(last, rest, m), rest)
    decreases |rest|
  {
    if rest != [] {
      DedupeFromSubseq(last, rest[1..], m);
      DedupeFromSubseq(rest[0], rest[1..], m);
      var t := DedupeFrom(rest[0], rest[1..], m);
      assert ([rest[0]] + t)[1..] == t;
    }
  }

  /** The output is a subsequence of the input, it starts with the first
      segment, and it is empty only for an empty input. */
  lemma DedupeSubseq(segments: seq<string>, m: Matcher)
    ensures SubseqOf(Dedupe(segments, m), segments)
    ensures segments != [] ==> |Dedupe(segments, m)| >= 1 && Dedupe(segments, m)[0] == segments[0]
    ensures segments == [] ==> Dedupe(segments, m) == []
  {
    if segments != [] {
      DedupeFromSubseq(segments[0], segments[1..], m);
    }
  }

  lemma {:induction false} DedupeFromShape(last: string, rest: seq<string>, m: Matcher)
    ensures var r := DedupeFrom(last, rest, m);
            (r != [] ==> !IsSimilar(last, r[0], m))
            && (forall i :: 0 <= i < |r| - 1 ==> !IsSimilar(r[i], r[i + 1], m))
            && (forall i :: 0 <= i < |r| ==> !Blank(r[i]))
    decreases |rest|
  {
    if rest != [] {
      DedupeFromShape(last, rest[1..], m);
      DedupeFromShape(rest[0], rest[1..], m);
    }
  }

  /** No kept segment is similar to the one kept just before it, and none
      after the first is blank. */
  lemma DedupeShape(segments: seq<string>, m: Matcher)
    ensures var r := Dedupe(segments, m);
            (forall i :: 0 <= i < |r| - 1 ==> !IsSimilar(r[i], r[i + 1], m))
            && (forall i :: 1 <= i < |r| ==> !Blank(r[i]))
  {
    if segments != [] {
      var t := DedupeFrom(segments[0], segments[1..], m);
      DedupeFromShape(segments[0], segments[1..], m);
      assert forall i :: 1 <= i < |t| + 1 ==> ([segments[0]] + t)[i] == t[i - 1];
    }
  }

  /** A segment identical to the one kept before it is always dropped. */
  lemma RepeatDropped(s: string, m: Matcher)
    requires !Blank(s)
    ensures Dedupe([s, s], m) == [s]
  {
    assert s != [];
    assert [s, s][1..] == [s] && [s][1..] == [];
    assert IsSimilar(s, s, m);
    assert DedupeFrom(s, [s], m) == DedupeFrom(s, [], m) == [];
  }

  // ---------------------------------------------------------------- merge and stream

  /** `merge_segments(segments)`. */
  function MergeSegments(segments: seq<string>): string {
    Join(segments, "\n")
  }

  /** The list comprehension of `process_stream`. */
  function Cleaned(raw: seq<string>, printable: char -> bool): (r: seq<string>)
    ensures |r| == |raw| && forall i :: 0 <= i < |raw| ==> r[i] == CleanText(raw[i], printable)
  {
    seq(|raw|, i requires 0 <= i < |raw| => CleanText(raw[i], printable))
  }

  /** `process_stream(raw_text_list)`: clean, deduplicate, merge. */
  method ProcessStream(raw: seq<string>, printable: char -> bool, m: Matcher) returns (r: string)
    ensures r == MergeSegments(Dedupe(Cleaned(raw, printable), m))
  {
    var cleaned := seq(|raw|, i requires 0 <= i < |raw| => CleanText(raw[i], printable));
    var deduped := RemoveDuplicates(cleaned, m);
    r := MergeSegments(deduped);
  }

  lemma NoNewline(text: string, printable: char -> bool)
    ensures forall i :: 0 <= i < |CleanText(text, printable)| ==> CleanText(text, printable)[i] != '\n'
  {
    var r := CleanText(text, printable);
    assert SpacesAreBlanks(r);
    assert IsSpace('\n');
  }

  /** A cleaned text holds no newline, so splitting the merged block on
      newlines gives back exactly the deduplicated segments, one per line. */
  lemma StreamLines(raw: seq<string>, printable: char -> bool, m: Matcher)
    requires raw != []
    ensures Split(MergeSegments(Dedupe(Cleaned(raw, printable), m)), '\n') == Dedupe(Cleaned(raw, printable), m)
  {
    var c := Cleaned(raw, printable);
    var d := Dedupe(c, m);
    DedupeSubseq(c, m);
    SubseqElems(d, c);
    forall k | 0 <= k < |d|
      ensures forall i :: 0 <= i < |d[k]| ==> d[k][i] != '\n'
    {
      var j :| 0 <= j < |c| && c[j] == d[k];
      NoNewline(raw[j], printable);
    }
    SplitJoin(d, '\n');
  }
}
