/** `sanitize_filename` (`engine/transcript_service/utils.py`): the
    characters Windows forbids in file names are deleted from a title. */
module Sanitize {

  // The nine characters of the pattern's class: backslash, slash, star,
  // question mark, colon, double quote, angle brackets and bar.
  predicate Forbidden(c: char) {
    c == '\\' || c == '/' || c == '*' || c == '?' || c == ':' || c == '"' || c == '<' || c == '>' || c == '|'
  }

  // `re.sub` of that class with the empty string.
  function SanitizeFilename(title: string): (r: string)
    ensures |r| <= |title|
    ensures forall i :: 0 <= i < |r| ==> !Forbidden(r[i])
  {
    if title == [] then []
    else (if Forbidden(title[0]) then [] else [title[0]]) + SanitizeFilename(title[1..])
  }

  /** The substitution works character by character: a title split in two
      is sanitised as its two parts, joined. */
  lemma {:induction false} SanitizeConcat(a: string, b: string)
    ensures SanitizeFilename(a + b) == SanitizeFilename(a) + SanitizeFilename(b)
  {
    if a == [] {
      assert a + b == b;
    } else {
      assert (a + b)[0] == a[0] && (a + b)[1..] == a[1..] + b;
      SanitizeConcat(a[1..], b);
    }
  }

  /** One character is dropped exactly when it is forbidden. */
  lemma SanitizeChar(c: char)
    ensures SanitizeFilename([c]) == if Forbidden(c) then [] else [c]
  {
    assert [c][1..] == [];
  }

  /** Every allowed character is kept as often as it occurs, and no
      forbidden one is left. */
  lemma {:induction false} SanitizeKeepsAllowed(title: string, c: char)
    ensures multiset(SanitizeFilename(title))[c] == if Forbidden(c) then 0 else multiset(title)[c]
  {
    if title != [] {
      SanitizeKeepsAllowed(title[1..], c);
      assert title == [title[0]] + title[1..];
      assert multiset(title) == multiset{title[0]} + multiset(title[1..]);
    }
  }

  /** A title without forbidden characters comes back unchanged. */
  lemma {:induction false} SanitizeClean(title: string)
    requires forall i :: 0 <= i < |title| ==> !Forbidden(title[i])
    ensures SanitizeFilename(title) == title
  {
    if title != [] {
      SanitizeClean(title[1..]);
    }
  }

  /** Sanitising twice is sanitising once. */
  lemma SanitizeIdempotent(title: string)
    ensures SanitizeFilename(SanitizeFilename(title)) == SanitizeFilename(title)
  {
    SanitizeClean(SanitizeFilename(title));
  }
}
