/** The engine's query router (`engine/rag/utils.py`): `parse_time`, the
    first-match-wins dispatch (summary keywords, then a time-anchored
    segment, then the classifier's Fetch_Notes / General / RAG), and the
    notes listing it builds. The LLM chains are not modelled: the router
    returns a `Route` naming the chain it invokes and that chain's inputs, or
    the literal reply it returns itself. */
module EngineRouter {
  import opened Common
  import opened Models
  import opened Scan

  // ---------------------------------------------------------------- parse_time

  /** `parse_time(query, timestamp)`: the leftmost clock time, else the
      leftmost "N minute"/"N min" (any case), else the player's `timestamp`
      for "this moment"/"right now", else nothing. */
  /** "this moment" or "right now" occurs in the lower-cased query. */
  predicate Deictic(query: string) {
    Contains(Lower(query), "this moment") || Contains(Lower(query), "right now")
  }

  function ParseTime(query: string, timestamp: real): (r: Option<real>)
  {
    match ClockSearch(query)
    case Some(parts) => Some(ClockSeconds(parts) as real)
    case None =>
      match MinuteSearch(query, false)
      case Some(n) => Some((n * 60) as real)
      case None =>
        if Deictic(query) then Some(timestamp)
        else None
  }

  /** A clock time anywhere in the query wins over every other form. */
  lemma ParseTimeClockFirst(query: string, timestamp: real, p: nat)
    requires p <= |query| && ClockAt(query, p).Some?
    ensures ParseTime(query, timestamp).Some?
    ensures exists q :: 0 <= q <= p && ClockAt(query, q).Some?
              && ParseTime(query, timestamp) == Some(ClockSeconds(ClockAt(query, q).value) as real)
  {
    var q := FirstClock(query, 0).value;
    assert q <= p;
  }

  /** Without a clock time, the minute form decides. */
  lemma ParseTimeMinutes(query: string, timestamp: real)
    requires ClockSearch(query).None? && MinuteSearch(query, false).Some?
    ensures ParseTime(query, timestamp) == Some((MinuteSearch(query, false).value * 60) as real)
  {
  }

  /** Nothing is recognised exactly when there is no clock time, no minute
      form and neither deictic phrase. */
  lemma ParseTimeNoneIff(query: string, timestamp: real)
    ensures ParseTime(query, timestamp).None? <==>
      (forall j :: 0 <= j <= |query| ==> ClockAt(query, j).None?)
      && (forall j :: 0 <= j <= |query| ==> MinuteAt(query, j, false).None?)
      && !Deictic(query)
  {
  }

  // ---------------------------------------------------------------- routes

  const VideoUnresolvedReply := "Sorry, I couldn't identify the video associated with this request."
  const NoTranscriptReply := "I couldn't find a transcript to summarize for this video."
  const NoNotesReply := "You haven't created any notes for this video yet."

  /** What the router does with a query: reply with a fixed text or a
      notes listing, or invoke one chain with the inputs given. */
  datatype Route =
    | Reply(text: string)
    | Summarize(context: string, question: string)
    | TimeBased(context: string, question: string)
    | General(question: string)
    | Rag(question: string, chatHistory: string, videoId: string, userId: Option<nat>)

  const SummaryKeywords: seq<string> := ["summarize", "summary", "overview", "tldr", "key points"]

  predicate AnyKeyword(text: string, keywords: seq<string>) {
    exists k :: 0 <= k < |keywords| && Contains(text, keywords[k])
  }

  function Contents(rows: seq<Segment>): (r: seq<string>)
    ensures |r| == |rows| && forall i :: 0 <= i < |rows| ==> r[i] == rows[i].content
  {
    if rows == [] then [] else [rows[0].content] + Contents(rows[1..])
  }

  /** `Transcript.objects.filter(video=v, start__lte=t).latest('start')`: a row
      of greatest start not after `t` (the first such in table order). */
  function LatestAtOrBefore(rows: seq<Segment>, t: real): (r: Option<Segment>)
    ensures r.Some? ==> r.value in rows && r.value.start <= t
    ensures r.Some? ==> forall x :: x in rows && x.start <= t ==> x.start <= r.value.start
    ensures r.None? <==> forall x :: x in rows ==> x.start > t
  {
    if rows == [] then None
    else
      var rest := LatestAtOrBefore(rows[1..], t);
      assert forall x :: x in rows ==> x == rows[0] || x in rows[1..];
      if rows[0].start > t then rest
      else match rest
        case None => Some(rows[0])
        case Some(b) => if b.start > rows[0].start then rest else Some(rows[0])
  }

  /** `Note.objects.filter(user__id=user_id, video=video)`. A null user id
      matches no note, since every note has a user. */
  function NotesOf(notes: seq<Note>, userId: Option<nat>, videoId: nat): (r: seq<Note>)
    ensures forall n :: n in r <==> n in notes && userId == Some(n.userId) && n.videoId == videoId
    ensures userId.None? ==> r == []
  {
    if notes == [] then []
    else
      var rest := NotesOf(notes[1..], userId, videoId);
      if userId == Some(notes[0].userId) && notes[0].videoId == videoId then [notes[0]] + rest else rest
  }

  // ---------------------------------------------------------------- notes listing

  const NotesHeader := "Here are your notes for this video:\n\n"
  const PreviewLength := 200

  /** `f"{ts // 60}:{ts % 60:02d}"`. */
  function MinSec(ts: nat): string {
    NatToString(ts / 60) + ":" + PadStart(NatToString(ts % 60), 2, '0')
  }

  /** The M:SS text reads back as the minutes, a colon and exactly two digits
      worth less than 60, which together give the timestamp. */
  lemma MinSecRoundTrip(ts: nat)
    ensures var m := NatToString(ts / 60);
            |MinSec(ts)| == |m| + 3 && MinSec(ts)[..|m|] == m && MinSec(ts)[|m|] == ':'
    ensures var m := NatToString(ts / 60);
            var t := MinSec(ts);
            |t| == |m| + 3 && AllDigits(m) && AllDigits(t[|m| + 1..])
            && DigitsValue(t[|m| + 1..]) < 60
            && DigitsValue(m) * 60 + DigitsValue(t[|m| + 1..]) == ts
  {
    var m := NatToString(ts / 60);
    var ss := PadStart(NatToString(ts % 60), 2, '0');
    NatToStringRoundTrip(ts / 60);
    PadTwoReads(ts % 60);
    JoinParts(m, ':', ss);
    assert MinSec(ts) == m + [':'] + ss;
  }

  /** `content[:200] + ('...' if len(content) > 200 else '')`. */
  function Preview(content: string): (r: string)
    ensures |content| <= PreviewLength ==> r == content
    ensures |content| > PreviewLength ==> |r| == PreviewLength + 3 && r[..PreviewLength] == content[..PreviewLength] && r[PreviewLength..] == "..."
  {
    if |content| > PreviewLength then content[..PreviewLength] + "..." else content
  }

  function NoteEntry(n: Note): string {
    "* **(at " + MinSec(n.videoTimestamp) + ") - " + n.title + "**\n"
    + "    * " + Preview(n.content) + "\n"
  }

  /** The entries of `notes` in order, as the loop appends them. */
  function Entries(notes: seq<Note>): string {
    ConcatMap(notes, NoteEntry)
  }

  /** The response the notes branch builds by `+=`, one note at a time. */
  method BuildNotesListing(notes: seq<Note>) returns (message: string)
    ensures message == NotesHeader + Entries(notes)
  {
    message := NotesHeader;
    var i := 0;
    while i < |notes|
      invariant 0 <= i <= |notes|
      invariant message == NotesHeader + ConcatMap(notes[..i], NoteEntry)
    {
      assert notes[..i + 1][..i] == notes[..i];
      AppendAssoc(NotesHeader, ConcatMap(notes[..i], NoteEntry), NoteEntry(notes[i]));
      message := message + NoteEntry(notes[i]);
      i := i + 1;
    }
    assert notes[..i] == notes;
  }

  /** The notes of the user for the video in `video_timestamp` order. */
  function OrderedNotes(notes: seq<Note>, userId: Option<nat>, videoId: nat): (r: seq<Note>)
    ensures SortedBy(r, NoteTimestamp)
    ensures multiset(r) == multiset(NotesOf(notes, userId, videoId))
  {
    SortBy(NotesOf(notes, userId, videoId), NoteTimestamp)
  }

  function NotesReply(notes: seq<Note>, userId: Option<nat>, videoId: nat): Route {
    var mine := OrderedNotes(notes, userId, videoId);
    if mine == [] then Reply(NoNotesReply) else Reply(NotesHeader + Entries(mine))
  }

  // ---------------------------------------------------------------- the router

  /** The classification the router acts on: the classifier's reply stripped,
      or "RAG" when invoking the classifier raised (`None`). */
  function Classification(classifierReply: Option<string>): string {
    match classifierReply
    case None => "RAG"
    case Some(s) => Strip(s)
  }

  /** The part of the router after the time lookup. */
  function ClassifiedRoute(notes: seq<Note>, video: Video, query: string, videoId: string,
                           chatHistory: string, userId: Option<nat>,
                           classifierReply: Option<string>): Route
  {
    var c := Classification(classifierReply);
    if Contains(c, "Fetch_Notes") then NotesReply(notes, userId, video.id)
    else if Contains(c, "General") then General(query)
    else Rag(query, chatHistory, videoId, userId)
  }

  /** `query_router(query, video_id, timestamp, chat_history, user_id)` over
      the current table contents. */
  function QueryRouter(videos: seq<Video>, transcripts: seq<Segment>, notes: seq<Note>,
                       query: string, videoId: string, timestamp: real, chatHistory: string,
                       userId: Option<nat>, classifierReply: Option<string>): Route
  {
    match GetVideoByPlatform(videos, videoId)
    case NotFound => Reply(VideoUnresolvedReply)
    case Multiple => Reply(VideoUnresolvedReply)
    case Found(vi) =>
      var video := videos[vi];
      if AnyKeyword(Lower(query), SummaryKeywords) then
        var rows := RowsInStartOrder(transcripts, video.id);
        if rows == [] then Reply(NoTranscriptReply)
        else Summarize(Join(Contents(rows), " "), query)
      else
        match ParseTime(query, timestamp)
        case Some(t) =>
          (match LatestAtOrBefore(RowsOf(transcripts, video.id), t)
           case Some(seg) => TimeBased(seg.content, query)
           case None => ClassifiedRoute(notes, video, query, videoId, chatHistory, userId, classifierReply))
        case None => ClassifiedRoute(notes, video, query, videoId, chatHistory, userId, classifierReply)
  }

  /** An id that matches no video, or several, gets the fixed apology and no chain. */
  lemma UnresolvedVideo(videos: seq<Video>, transcripts: seq<Segment>, notes: seq<Note>,
                        query: string, videoId: string, timestamp: real, chatHistory: string,
                        userId: Option<nat>, classifierReply: Option<string>)
    requires !GetVideoByPlatform(videos, videoId).Found?
    ensures QueryRouter(videos, transcripts, notes, query, videoId, timestamp, chatHistory, userId, classifierReply)
            == Reply(VideoUnresolvedReply)
  {
  }

  /** A summary keyword decides the route before time parsing and before the
      classifier: the reply does not depend on either, and the summary has no
      transcript exactly when the video has no rows. */
  lemma SummaryKeywordFirst(videos: seq<Video>, transcripts: seq<Segment>, notes: seq<Note>,
                            query: string, videoId: string, t1: real, t2: real, chatHistory: string,
                            userId: Option<nat>, c1: Option<string>, c2: Option<string>)
    requires GetVideoByPlatform(videos, videoId).Found?
    requires AnyKeyword(Lower(query), SummaryKeywords)
    ensures var vid := videos[GetVideoByPlatform(videos, videoId).index].id;
            var r := QueryRouter(videos, transcripts, notes, query, videoId, t1, chatHistory, userId, c1);
            r == QueryRouter(videos, transcripts, notes, query, videoId, t2, chatHistory, userId, c2)
            && (r == Reply(NoTranscriptReply) <==> RowsOf(transcripts, vid) == [])
            && (r.Summarize? <==> RowsOf(transcripts, vid) != [])
  {
    var vid := videos[GetVideoByPlatform(videos, videoId).index].id;
    var rows := RowsInStartOrder(transcripts, vid);
    if rows == [] {
      assert |RowsOf(transcripts, vid)| == 0;
    }
  }

  /** A recognised time with a segment at or before it answers from that one
      segment; without such a segment the route is what the classifier stage
      decides, as if no time had been given. */
  lemma TimeLookup(videos: seq<Video>, transcripts: seq<Segment>, notes: seq<Note>,
                   query: string, videoId: string, timestamp: real, chatHistory: string,
                   userId: Option<nat>, classifierReply: Option<string>)
    requires GetVideoByPlatform(videos, videoId).Found?
    requires !AnyKeyword(Lower(query), SummaryKeywords)
    requires ParseTime(query, timestamp).Some?
    ensures var video := videos[GetVideoByPlatform(videos, videoId).index];
            var t := ParseTime(query, timestamp).value;
            var r := QueryRouter(videos, transcripts, notes, query, videoId, timestamp, chatHistory, userId, classifierReply);
            (r.TimeBased? ==> exists seg :: seg in RowsOf(transcripts, video.id) && seg.start <= t && r.context == seg.content
                               && forall x :: x in RowsOf(transcripts, video.id) && x.start <= t ==> x.start <= seg.start)
            && ((exists x :: x in RowsOf(transcripts, video.id) && x.start <= t) ==>
                 r.TimeBased? && r.question == query
                 && r.context == LatestAtOrBefore(RowsOf(transcripts, video.id), t).value.content)
            && ((forall x :: x in RowsOf(transcripts, video.id) ==> x.start > t) ==>
                 r == ClassifiedRoute(notes, video, query, videoId, chatHistory, userId, classifierReply))
  {
    var video := videos[GetVideoByPlatform(videos, videoId).index];
    var t := ParseTime(query, timestamp).value;
    var found := LatestAtOrBefore(RowsOf(transcripts, video.id), t);
    if found.Some? {
      assert found.value in RowsOf(transcripts, video.id);
    }
  }

  /** A classification containing "Fetch_Notes" always ends in the notes
      branch, whatever else it contains, and without a user it always answers
      that there are no notes: the "RAG" fallback the code sets has no effect. */
  lemma FetchNotesAlwaysAnswersFromNotes(notes: seq<Note>, video: Video, query: string, videoId: string,
                                         chatHistory: string, userId: Option<nat>,
                                         classifierReply: Option<string>)
    requires Contains(Classification(classifierReply), "Fetch_Notes")
    ensures var r := ClassifiedRoute(notes, video, query, videoId, chatHistory, userId, classifierReply);
            r.Reply? && (r.text == NoNotesReply || StartsWith(r.text, NotesHeader))
    ensures userId.None? ==>
            ClassifiedRoute(notes, video, query, videoId, chatHistory, userId, classifierReply) == Reply(NoNotesReply)
  {
    var mine := OrderedNotes(notes, userId, video.id);
    if mine != [] {
      assert (NotesHeader + Entries(mine))[..|NotesHeader|] == NotesHeader;
    }
    if userId.None? {
      assert |mine| == 0;
    }
  }

  /** A raising classifier is treated as "RAG": the RAG chain gets the
      question, the chat history, the platform id and the user id. */
  lemma ClassifierFailureIsRag(notes: seq<Note>, video: Video, query: string, videoId: string,
                               chatHistory: string, userId: Option<nat>)
    ensures ClassifiedRoute(notes, video, query, videoId, chatHistory, userId, None)
            == Rag(query, chatHistory, videoId, userId)
  {
    assert !Contains("RAG", "Fetch_Notes");
    assert !Contains("RAG", "General");
  }
}
