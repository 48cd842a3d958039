/** The URL normalisation of the OCR downloader
    (`engine/transcript_service/ocr_service/ocr_downloader.py`, `_clean_url`):
    player and embed links become canonical watch URLs, query strings are cut
    where the downloader does not need them, and anything else is passed on
    unchanged. The download itself is not part of this model. */
module OcrDownloader {
  import opened Common

  const VimeoBase := "https://vimeo.com/"
  const YoutubeWatchBase := "https://www.youtube.com/watch?v="

  const VimeoPlayerMark := "player.vimeo.com/video/"
  const VimeoMark := "vimeo.com/"
  const PlayerMark := "player."
  const EmbedMark := "youtube.com/embed/"
  const ShortMark := "youtu.be/"
  const WatchMark := "youtube.com/watch"

  /** The id after the last occurrence of `mark`, cut at the first `?`. */
  function IdAfter(url: string, mark: string): (r: string)
    requires |mark| > 0
    ensures !Contains(r, "?") && !Contains(r, mark)
  {
    var tail := AfterLast(url, mark);
    var id := BeforeFirst(tail, "?");
    NoSubInPrefix(tail, id, mark);
    id
  }

  /** A prefix of a text without `sub` has no `sub` either. */
  lemma NoSubInPrefix(s: string, p: string, sub: string)
    requires |sub| > 0 && |p| <= |s| && p == s[..|p|] && !Contains(s, sub)
    ensures !Contains(p, sub)
  {
    if Contains(p, sub) {
      var i := IndexOf(p, sub).value;
      assert s[i..i + |sub|] == p[i..i + |sub|];
      ContainsAt(s, sub, i);
    }
  }

  predicate NoKnownMark(url: string) {
    !Contains(url, VimeoPlayerMark) && !Contains(url, VimeoMark) && !Contains(url, EmbedMark)
    && !Contains(url, ShortMark) && !Contains(url, WatchMark)
  }

  /** `_clean_url(url)`: the five cases are tried in this order. */
  function CleanUrl(url: string): (r: string)
    ensures Contains(url, VimeoPlayerMark) ==>
              |r| >= |VimeoBase| && r[..|VimeoBase|] == VimeoBase && !Contains(r[|VimeoBase|..], "?")
    ensures !Contains(url, VimeoPlayerMark) && Contains(url, VimeoMark) && !Contains(url, PlayerMark) ==>
              |r| <= |url| && r == url[..|r|] && !Contains(r, "?") && (Contains(url, "?") <==> |r| < |url|)
    ensures !Contains(url, VimeoPlayerMark) && !(Contains(url, VimeoMark) && !Contains(url, PlayerMark))
            && (Contains(url, EmbedMark) || Contains(url, ShortMark)) ==>
              |r| >= |YoutubeWatchBase| && r[..|YoutubeWatchBase|] == YoutubeWatchBase
              && !Contains(r[|YoutubeWatchBase|..], "?")
    ensures !Contains(url, VimeoPlayerMark) && !(Contains(url, VimeoMark) && !Contains(url, PlayerMark))
            && !Contains(url, EmbedMark) && !Contains(url, ShortMark) && Contains(url, WatchMark) ==>
              |r| <= |url| && r == url[..|r|] && !Contains(r, "&") && (Contains(url, "&") <==> |r| < |url|)
    ensures NoKnownMark(url) ==> r == url
  {
    if Contains(url, VimeoPlayerMark) then
      var id := IdAfter(url, VimeoPlayerMark);
      assert (VimeoBase + id)[|VimeoBase|..] == id;
      VimeoBase + id
    else if Contains(url, VimeoMark) && !Contains(url, PlayerMark) then BeforeFirst(url, "?")
    else if Contains(url, EmbedMark) then
      var id := IdAfter(url, EmbedMark);
      assert (YoutubeWatchBase + id)[|YoutubeWatchBase|..] == id;
      YoutubeWatchBase + id
    else if Contains(url, ShortMark) then
      var id := IdAfter(url, ShortMark);
      assert (YoutubeWatchBase + id)[|YoutubeWatchBase|..] == id;
      YoutubeWatchBase + id
    else if Contains(url, WatchMark) then
      if Contains(url, "&") then BeforeFirst(url, "&") else url
    else url
  }

  /** The id a link carries: after the first occurrence of `mark`, which
      occurs nowhere after it, up to the query string. */
  predicate LinkWithId(url: string, p: string, mark: string, id: string, q: string) {
    url == p + mark + id + q && (q == [] || q[0] == '?') && !Contains(id, "?")
    && IndexOf(url, mark) == Some(|p|) && !Contains(id + q, mark)
  }

  lemma AfterOnlyOccurrence(s: string, sep: string, i: nat)
    requires |sep| > 0 && IndexOf(s, sep) == Some(i) && !Contains(s[i + |sep|..], sep)
    ensures AfterLast(s, sep) == s[i + |sep|..]
  {
    AfterLastStep(s, sep, i);
    AfterLastNone(s[i + |sep|..], sep);
  }

  /** Cutting `id + q` at the first `?` gives `id`. */
  lemma CutAtQuery(id: string, q: string)
    requires (q == [] || q[0] == '?') && !Contains(id, "?")
    ensures BeforeFirst(id + q, "?") == id
  {
    var rest := id + q;
    if q == [] {
      assert rest == id;
    } else {
      assert OccursAt(rest, "?", |id|);
      forall j | 0 <= j < |id|
        ensures !OccursAt(rest, "?", j)
      {
        if OccursAt(rest, "?", j) {
          assert rest[j] == id[j];
          assert OccursAt(id, "?", j);
        }
      }
      BeforeFirstAt(rest, "?", |id|);
      assert rest[..|id|] == id;
    }
  }

  lemma LinkId(url: string, p: string, mark: string, id: string, q: string)
    requires |mark| > 0 && LinkWithId(url, p, mark, id, q)
    ensures Contains(url, mark) && IdAfter(url, mark) == id
  {
    var rest := url[|p| + |mark|..];
    assert rest == id + q;
    AfterOnlyOccurrence(url, mark, |p|);
    CutAtQuery(id, q);
  }

  /** A Vimeo player link, wherever the page put it, becomes
      `https://vimeo.com/<id>`. */
  lemma CleanVimeoPlayerLink(url: string, p: string, id: string, q: string)
    requires LinkWithId(url, p, VimeoPlayerMark, id, q)
    ensures CleanUrl(url) == VimeoBase + id
  {
    LinkId(url, p, VimeoPlayerMark, id, q);
  }

  /** A short YouTube link that matches none of the earlier cases becomes
      `https://www.youtube.com/watch?v=<id>`. */
  lemma CleanShortLink(url: string, p: string, id: string, q: string)
    requires LinkWithId(url, p, ShortMark, id, q)
    requires !Contains(url, VimeoMark) && !Contains(url, EmbedMark)
    ensures CleanUrl(url) == YoutubeWatchBase + id
  {
    LinkId(url, p, ShortMark, id, q);
    if Contains(url, VimeoPlayerMark) {
      PlayerLinkIsVimeo(url);
    }
  }

  /** So does an embed link. */
  lemma CleanEmbedLink(url: string, p: string, id: string, q: string)
    requires LinkWithId(url, p, EmbedMark, id, q)
    requires !Contains(url, VimeoMark)
    ensures CleanUrl(url) == YoutubeWatchBase + id
  {
    LinkId(url, p, EmbedMark, id, q);
    if Contains(url, VimeoPlayerMark) {
      PlayerLinkIsVimeo(url);
    }
  }

  /** A Vimeo player link contains the plain Vimeo mark. */
  lemma PlayerLinkIsVimeo(url: string)
    requires Contains(url, VimeoPlayerMark)
    ensures Contains(url, VimeoMark)
  {
    var i := IndexOf(url, VimeoPlayerMark).value;
    assert VimeoPlayerMark[7..17] == VimeoMark;
    OccursInside(url, VimeoPlayerMark, i, VimeoMark, 7);
    ContainsAt(url, VimeoMark, i + 7);
  }

  lemma BeforeFirstAt(s: string, sep: string, i: nat)
    requires |sep| > 0 && OccursAt(s, sep, i) && forall j :: 0 <= j < i ==> !OccursAt(s, sep, j)
    ensures BeforeFirst(s, sep) == s[..i]
  {
  }
}
