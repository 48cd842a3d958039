/** The assistant endpoint, `AssistantAPIView.post`
    (`engine/views/api_assistant.py`, copied in `core/views/api_assistant.py`):
    a query about a video is answered within a conversation of the user for
    that video: the one named by id, else the newest one, else a new one,
    and the exchange is stored as one message.

    The router is `EngineRouter.QueryRouter`; what the chain it picks
    replies, the classifier's reply, Python's `float` on the timestamp and
    the clock are parameters. */
module AssistantView {
  import opened Common
  import opened Models
  import opened Store
  import EngineRouter

  /** The request body's fields (`None` is an absent key) and the
      authenticated user, if any. */
  datatype Request = Request(user: Option<nat>, query: Option<string>, videoId: Option<string>,
                             timestamp: Option<string>, conversationId: Option<nat>, forceNew: bool)

  datatype Response =
    | Forbidden
    | BadRequest
    | VideoMissing
    | ServerError
    | Answered(answer: string, conversationId: nat)

  /** The two tables the view writes. */
  datatype Chat = Chat(conversations: seq<Conversation>, messages: seq<Message>)

  /** What the view cannot see: how `float` parses the timestamp, what the
      classifier and the chosen chain reply, and the time of the call. */
  datatype Oracles = Oracles(parseFloat: string -> Option<real>, classifierReply: Option<string>,
                             llm: EngineRouter.Route -> string, now: int)

  const StartQuery := "Start"
  const StartingReply := "Starting new chat..."

  /** `float(timestamp_data or 0.0)`, with 0.0 when that raises. */
  function TimestampOf(data: Option<string>, parseFloat: string -> Option<real>): (t: real)
    ensures !Truthy(data) ==> t == 0.0
  {
    if !Truthy(data) then 0.0
    else match parseFloat(data.value)
      case None => 0.0
      case Some(x) => x
  }

  /** The front end's "Start" with `force_new` opens a chat without asking
      anything. */
  predicate IsDummyStart(req: Request) {
    req.forceNew && req.query == Some(StartQuery)
  }

  /** `query[:255]`. */
  function TitleOf(query: string): (t: string)
    ensures |t| <= ConversationTitleMax && |t| <= |query| && t == query[..|t|]
    ensures |query| <= ConversationTitleMax ==> t == query
  {
    if |query| <= ConversationTitleMax then query else query[..ConversationTitleMax]
  }

  /** `Conversation.objects.filter(user=user, video=video)`, in table order. */
  function ConversationsOf(cs: seq<Conversation>, user: nat, videoId: nat): (r: seq<Conversation>)
    ensures forall c :: c in r <==> c in cs && c.userId == user && c.videoId == videoId
  {
    if cs == [] then []
    else
      var last := cs[|cs| - 1];
      ConversationsOf(cs[..|cs| - 1], user, videoId)
      + (if last.userId == user && last.videoId == videoId then [last] else [])
  }

  /** `Conversation.objects.get(id=…, user=user, video=video)`; ids are the
      primary key, so at most one row matches. */
  function ById(cs: seq<Conversation>, id: nat, user: nat, videoId: nat): (r: Option<Conversation>)
    ensures r.Some? ==> r.value in cs && r.value.id == id && r.value.userId == user && r.value.videoId == videoId
    ensures r.None? ==> forall c :: c in cs && c.userId == user && c.videoId == videoId ==> c.id != id
  {
    if cs == [] then None
    else if cs[0].id == id && cs[0].userId == user && cs[0].videoId == videoId then Some(cs[0])
    else ById(cs[1..], id, user, videoId)
  }

  /** `filter(user=user, video=video).order_by('-created_at').first()`. */
  function Newest(cs: seq<Conversation>, user: nat, videoId: nat): Option<Conversation> {
    var s := SortBy(ConversationsOf(cs, user, videoId), ConversationNewness);
    if s == [] then None else Some(s[0])
  }

  /** The conversation the view continues, if any: the one named, unless
      `force_new`; failing that the newest one, unless `force_new`. */
  function Selected(cs: seq<Conversation>, req: Request, user: nat, videoId: nat): Option<Conversation> {
    var named := if req.conversationId.Some? && req.conversationId.value != 0 && !req.forceNew
                 then ById(cs, req.conversationId.value, user, videoId) else None;
    if named.Some? then named
    else if !req.forceNew then Newest(cs, user, videoId)
    else None
  }

  /** `conversation.messages.all()`, in table order. */
  function MessagesOf(ms: seq<Message>, conversationId: nat): (r: seq<Message>)
    ensures forall m :: m in r <==> m in ms && m.conversationId == conversationId
  {
    if ms == [] then []
    else
      var last := ms[|ms| - 1];
      MessagesOf(ms[..|ms| - 1], conversationId) + (if last.conversationId == conversationId then [last] else [])
  }

  /** The lines one message adds to the history. */
  function MessageLines(m: Message): seq<string> {
    ["User: " + m.query] + (if m.answer != "" then ["Assistant: " + m.answer] else [])
  }

  /** `chat_history_messages` for messages in the order given. */
  function HistoryLines(ms: seq<Message>): seq<string> {
    if ms == [] then [] else HistoryLines(ms[..|ms| - 1]) + MessageLines(ms[|ms| - 1])
  }

  /** The conversation's messages, oldest first. */
  function Ordered(ms: seq<Message>, conversationId: nat): seq<Message> {
    SortBy(MessagesOf(ms, conversationId), MessageTime)
  }

  function NextConversationId(cs: seq<Conversation>): (r: nat)
    ensures r > 0 && forall k :: 0 <= k < |cs| ==> cs[k].id < r
  {
    if cs == [] then 1
    else
      var n := NextConversationId(cs[..|cs| - 1]);
      if cs[|cs| - 1].id < n then n else cs[|cs| - 1].id + 1
  }

  /** `conversation.title = …; conversation.save(update_fields=['title'])`. */
  function Retitle(cs: seq<Conversation>, id: nat, title: string): (r: seq<Conversation>)
    ensures |r| == |cs|
    ensures forall k :: 0 <= k < |cs| ==> r[k] == if cs[k].id == id then cs[k].(title := title) else cs[k]
  {
    seq(|cs|, k requires 0 <= k < |cs| => if cs[k].id == id then cs[k].(title := title) else cs[k])
  }

  /** What the chosen chain answers; the router's own replies are texts. */
  function AnswerOf(route: EngineRouter.Route, llm: EngineRouter.Route -> string): string {
    if route.Reply? then route.text else llm(route)
  }

  /** The title a new conversation gets. */
  function InitialTitle(req: Request, query: string): string {
    if IsDummyStart(req) then DefaultConversationTitle else TitleOf(query)
  }

  /** The conversation used and the table after it is chosen or created. */
  function Opened(cs: seq<Conversation>, req: Request, query: string, user: nat, video: Video, now: int)
    : (Conversation, seq<Conversation>)
  {
    match Selected(cs, req, user, video.id)
    case Some(c) => (c, cs)
    case None =>
      var c := Conversation(NextConversationId(cs), user, video.id, video.courseId, InitialTitle(req, query), now);
      (c, cs + [c])
  }

  /** The history text handed to the router. */
  function HistoryFor(chat: Chat, req: Request, user: nat, videoId: nat): string {
    match Selected(chat.conversations, req, user, videoId)
    case Some(c) => Join(HistoryLines(Ordered(chat.messages, c.id)), "\n")
    case None => ""
  }

  /** The router's call for this request. */
  function RouteFor(videos: seq<Video>, transcripts: seq<Segment>, notes: seq<Note>, chat: Chat,
                    req: Request, user: nat, video: Video, o: Oracles): EngineRouter.Route
    requires Truthy(req.query) && Truthy(req.videoId)
  {
    EngineRouter.QueryRouter(videos, transcripts, notes, req.query.value, req.videoId.value,
                             TimestampOf(req.timestamp, o.parseFloat), HistoryFor(chat, req, user, video.id),
                             Some(user), o.classifierReply)
  }

  /** The view once the video is known. */
  function Converse(videos: seq<Video>, transcripts: seq<Segment>, notes: seq<Note>, chat: Chat,
                    req: Request, user: nat, video: Video, o: Oracles): (Response, Chat)
    requires Truthy(req.query) && Truthy(req.videoId)
  {
    var query := req.query.value;
    var (conv, cs) := Opened(chat.conversations, req, query, user, video, o.now);
    if IsDummyStart(req) then (Answered(StartingReply, conv.id), Chat(cs, chat.messages))
    else
      var answer := AnswerOf(RouteFor(videos, transcripts, notes, chat, req, user, video, o), o.llm);
      var ms := chat.messages + [Message(conv.id, query, answer, o.now)];
      var cs' := if conv.title == DefaultConversationTitle then Retitle(cs, conv.id, TitleOf(query)) else cs;
      (Answered(answer, conv.id), Chat(cs', ms))
  }

  /** The view, with an unknown video answered 404 as the handler intends. */
  function Respond(videos: seq<Video>, transcripts: seq<Segment>, notes: seq<Note>, chat: Chat,
                   req: Request, o: Oracles): (Response, Chat)
  {
    if req.user.None? then (Forbidden, chat)
    else if !Truthy(req.query) || !Truthy(req.videoId) then (BadRequest, chat)
    else match GetVideoByPlatform(videos, req.videoId.value)
      case NotFound => (VideoMissing, chat)
      case Multiple => (ServerError, chat)
      case Found(i) => Converse(videos, transcripts, notes, chat, req, req.user.value, videos[i], o)
  }

  /** The view as written: `get_object_or_404` raises `Http404`, which the
      `except Video.DoesNotExist` clause does not catch, so the generic
      handler answers 500. */
  function RespondAsWritten(videos: seq<Video>, transcripts: seq<Segment>, notes: seq<Note>, chat: Chat,
                            req: Request, o: Oracles): (Response, Chat)
  {
    var (r, after) := Respond(videos, transcripts, notes, chat, req, o);
    if r == VideoMissing then (ServerError, after) else (r, after)
  }

  // ---------------------------------------------------------------- the handler

  method Post(db: Db, req: Request, o: Oracles) returns (resp: Response)
    modifies db`conversations, db`messages
    ensures (resp, Chat(db.conversations, db.messages))
            == Respond(db.videos, db.transcripts, db.notes, Chat(old(db.conversations), old(db.messages)), req, o)
  {
    if req.user.None? {
      return Forbidden;
    }
    if !Truthy(req.query) || !Truthy(req.videoId) {
      return BadRequest;
    }
    var user := req.user.value;
    var query := req.query.value;
    var found := GetVideoByPlatform(db.videos, req.videoId.value);
    if found.NotFound? {
      return VideoMissing;
    }
    if found.Multiple? {
      return ServerError;
    }
    var video := db.videos[found.index];
    ghost var chat := Chat(db.conversations, db.messages);
    var selected := Selected(db.conversations, req, user, video.id);
    var history := "";
    if selected.Some? {
      var lines := BuildHistory(Ordered(db.messages, selected.value.id));
      history := Join(lines, "\n");
    }
    assert history == HistoryFor(chat, req, user, video.id);
    var conversation;
    if selected.Some? {
      conversation := selected.value;
    } else {
      conversation := Conversation(NextConversationId(db.conversations), user, video.id, video.courseId,
                                   InitialTitle(req, query), o.now);
      db.conversations := db.conversations + [conversation];
    }
    if IsDummyStart(req) {
      return Answered(StartingReply, conversation.id);
    }
    var route := EngineRouter.QueryRouter(db.videos, db.transcripts, db.notes, query, req.videoId.value,
                                          TimestampOf(req.timestamp, o.parseFloat), history, Some(user),
                                          o.classifierReply);
    var answer := AnswerOf(route, o.llm);
    db.messages := db.messages + [Message(conversation.id, query, answer, o.now)];
    if conversation.title == DefaultConversationTitle {
      db.conversations := Retitle(db.conversations, conversation.id, TitleOf(query));
    }
    return Answered(answer, conversation.id);
  }

  /** The `for msg in messages` loop. */
  method BuildHistory(ms: seq<Message>) returns (lines: seq<string>)
    ensures lines == HistoryLines(ms)
  {
    lines := [];
    for k := 0 to |ms|
      invariant lines == HistoryLines(ms[..k])
    {
      assert ms[..k + 1][..k] == ms[..k];
      lines := lines + ["User: " + ms[k].query];
      if ms[k].answer != "" {
        lines := lines + ["Assistant: " + ms[k].answer];
      }
    }
    assert ms[..|ms|] == ms;
  }

  // ---------------------------------------------------------------- properties

  /** Only an authenticated request with a query and a video id reaches the
      tables; an unknown video is answered 404; nothing is written unless
      the request is answered. */
  lemma RejectedRequests(videos: seq<Video>, transcripts: seq<Segment>, notes: seq<Note>, chat: Chat,
                         req: Request, o: Oracles)
    ensures var (r, after) := Respond(videos, transcripts, notes, chat, req, o);
            (r == Forbidden <==> req.user.None?)
            && (r == BadRequest <==> req.user.Some? && (!Truthy(req.query) || !Truthy(req.videoId)))
            && (r == VideoMissing <==> req.user.Some? && Truthy(req.query) && Truthy(req.videoId)
                                       && forall i :: 0 <= i < |videos| ==> !MatchesPlatform(videos[i], req.videoId.value))
            && (!r.Answered? ==> after == chat)
  {
  }

  /** As written, a video id no row carries is answered 500, not 404. */
  lemma UnknownVideoAnswers500(videos: seq<Video>, transcripts: seq<Segment>, notes: seq<Note>, chat: Chat,
                               req: Request, o: Oracles)
    requires req.user.Some? && Truthy(req.query) && Truthy(req.videoId)
    requires forall i :: 0 <= i < |videos| ==> !MatchesPlatform(videos[i], req.videoId.value)
    ensures RespondAsWritten(videos, transcripts, notes, chat, req, o) == (ServerError, chat)
    ensures Respond(videos, transcripts, notes, chat, req, o) == (VideoMissing, chat)
  {
  }

  /** Apart from the unknown video, the handler and its intended form
      agree. */
  lemma AsWrittenAgrees(videos: seq<Video>, transcripts: seq<Segment>, notes: seq<Note>, chat: Chat,
                        req: Request, o: Oracles)
    requires Respond(videos, transcripts, notes, chat, req, o).0 != VideoMissing
    ensures RespondAsWritten(videos, transcripts, notes, chat, req, o) == Respond(videos, transcripts, notes, chat, req, o)
  {
  }

  /** The conversation continued is always one of this user's for this
      video, and `force_new` never continues one. */
  lemma SelectedIsScoped(cs: seq<Conversation>, req: Request, user: nat, videoId: nat)
    ensures var s := Selected(cs, req, user, videoId);
            (s.Some? ==> s.value in cs && s.value.userId == user && s.value.videoId == videoId)
            && (req.forceNew ==> s.None?)
  {
    var sorted := SortBy(ConversationsOf(cs, user, videoId), ConversationNewness);
    if sorted != [] {
      assert sorted[0] in multiset(sorted);
    }
  }

  /** A named conversation of this user and video is continued. */
  lemma NamedIsContinued(cs: seq<Conversation>, req: Request, user: nat, videoId: nat, c: Conversation)
    requires c in cs && c.userId == user && c.videoId == videoId
    requires req.conversationId == Some(c.id) && c.id != 0 && !req.forceNew
    ensures Selected(cs, req, user, videoId).Some? && Selected(cs, req, user, videoId).value.id == c.id
  {
  }

  /** Without a usable id, the newest of the user's conversations for the
      video is continued, and a new one is opened only when there is none. */
  lemma NewestFallback(cs: seq<Conversation>, user: nat, videoId: nat)
    ensures var n := Newest(cs, user, videoId);
            (n.None? <==> forall c :: c in cs ==> c.userId != user || c.videoId != videoId)
            && (n.Some? ==> n.value in cs && n.value.userId == user && n.value.videoId == videoId
                            && forall c :: c in cs && c.userId == user && c.videoId == videoId ==> c.createdAt <= n.value.createdAt)
  {
    var mine := ConversationsOf(cs, user, videoId);
    var sorted := SortBy(mine, ConversationNewness);
    if sorted != [] {
      assert sorted[0] in multiset(sorted);
      forall c | c in cs && c.userId == user && c.videoId == videoId
        ensures c.createdAt <= sorted[0].createdAt
      {
        assert c in multiset(sorted);
        var j :| 0 <= j < |sorted| && sorted[j] == c;
        assert ConversationNewness(sorted[0]) <= ConversationNewness(sorted[j]);
      }
    } else {
      assert mine == [];
    }
  }

  /** A new conversation gets an id no row has, the user, the video and its
      course, the placeholder title for the dummy "Start" and the query's
      first 255 characters otherwise. */
  lemma OpenedConversation(cs: seq<Conversation>, req: Request, query: string, user: nat, video: Video, now: int)
    ensures var (c, after) := Opened(cs, req, query, user, video, now);
            c.userId == user && c.videoId == video.id
            && (Selected(cs, req, user, video.id).Some? ==> after == cs && c in cs)
            && (Selected(cs, req, user, video.id).None? ==>
                  after == cs + [c] && (forall k :: 0 <= k < |cs| ==> cs[k].id != c.id)
                  && c.courseId == video.courseId && c.createdAt == now
                  && c.title == (if IsDummyStart(req) then DefaultConversationTitle else TitleOf(query)))
  {
    SelectedIsScoped(cs, req, user, video.id);
  }

  /** The dummy "Start" opens a fresh conversation with the placeholder
      title, stores no message and does not call the router. */
  lemma DummyStart(videos: seq<Video>, transcripts: seq<Segment>, notes: seq<Note>, chat: Chat,
                   req: Request, user: nat, video: Video, o: Oracles)
    requires Truthy(req.query) && Truthy(req.videoId) && IsDummyStart(req)
    ensures var (r, after) := Converse(videos, transcripts, notes, chat, req, user, video, o);
            r.Answered? && r.answer == StartingReply && after.messages == chat.messages
            && |after.conversations| == |chat.conversations| + 1
            && after.conversations[..|chat.conversations|] == chat.conversations
            && var c := after.conversations[|chat.conversations|];
               c.id == r.conversationId && c.title == DefaultConversationTitle
               && c.userId == user && c.videoId == video.id
               && forall k :: 0 <= k < |chat.conversations| ==> chat.conversations[k].id != c.id
  {
    SelectedIsScoped(chat.conversations, req, user, video.id);
    OpenedConversation(chat.conversations, req, req.query.value, user, video, o.now);
    var (c, cs) := Opened(chat.conversations, req, req.query.value, user, video, o.now);
    assert cs[..|chat.conversations|] == chat.conversations;
  }

  /** A real query stores exactly one message, the query with the answer of
      the route the router picks from the conversation's history; the
      conversation's row then carries the query's first 255 characters if
      its title was the placeholder, and every other conversation stays as
      it was. */
  lemma ExchangeStored(videos: seq<Video>, transcripts: seq<Segment>, notes: seq<Note>, chat: Chat,
                       req: Request, user: nat, video: Video, o: Oracles)
    requires Truthy(req.query) && Truthy(req.videoId) && !IsDummyStart(req)
    ensures var (c, cs) := Opened(chat.conversations, req, req.query.value, user, video, o.now);
            var (r, after) := Converse(videos, transcripts, notes, chat, req, user, video, o);
            var answer := AnswerOf(RouteFor(videos, transcripts, notes, chat, req, user, video, o), o.llm);
            var title := if c.title == DefaultConversationTitle then TitleOf(req.query.value) else c.title;
            r == Answered(answer, c.id)
            && after.messages == chat.messages + [Message(c.id, req.query.value, answer, o.now)]
            && |after.conversations| == |cs|
            && (exists k :: 0 <= k < |cs| && cs[k] == c && after.conversations[k] == c.(title := title))
            && (forall k :: 0 <= k < |cs| && cs[k].id != c.id ==> after.conversations[k] == cs[k])
  {
    OpenedConversation(chat.conversations, req, req.query.value, user, video, o.now);
    var (c, cs) := Opened(chat.conversations, req, req.query.value, user, video, o.now);
    var k :| 0 <= k < |cs| && cs[k] == c;
    var title := if c.title == DefaultConversationTitle then TitleOf(req.query.value) else c.title;
    var after := Converse(videos, transcripts, notes, chat, req, user, video, o).1;
    assert after.conversations[k] == c.(title := title);
  }

  /** The reply names a conversation that the tables now hold, of this user
      for this video; a follow-up naming it continues it. */
  lemma FollowUpContinues(videos: seq<Video>, transcripts: seq<Segment>, notes: seq<Note>, chat: Chat,
                          req: Request, user: nat, video: Video, o: Oracles, next: Request)
    requires Truthy(req.query) && Truthy(req.videoId)
    requires var r := Converse(videos, transcripts, notes, chat, req, user, video, o).0;
             next.conversationId == Some(r.conversationId) && r.conversationId != 0 && !next.forceNew
    ensures var (r, after) := Converse(videos, transcripts, notes, chat, req, user, video, o);
            var s := Selected(after.conversations, next, user, video.id);
            (exists c :: c in after.conversations && c.id == r.conversationId && c.userId == user && c.videoId == video.id)
            && s.Some? && s.value.id == r.conversationId
  {
    OpenedConversation(chat.conversations, req, req.query.value, user, video, o.now);
    var (c, cs) := Opened(chat.conversations, req, req.query.value, user, video, o.now);
    var after := Converse(videos, transcripts, notes, chat, req, user, video, o).1;
    var k :| 0 <= k < |cs| && cs[k] == c;
    var row := after.conversations[k];
    assert row.id == c.id && row.userId == user && row.videoId == video.id;
    assert row in after.conversations;
    NamedIsContinued(after.conversations, next, user, video.id, row);
  }

  /** Each message gives its query line, then its answer line when there is
      an answer. */
  lemma {:induction false} HistoryShape(ms: seq<Message>)
    ensures |HistoryLines(ms)| == |ms| + CountWhere(ms, (m: Message) => m.answer != "")
    ensures ms != [] ==> HistoryLines(ms)[0] == "User: " + ms[0].query
  {
    if ms != [] {
      HistoryShape(ms[..|ms| - 1]);
      if |ms| > 1 {
        assert ms[..|ms| - 1][0] == ms[0];
      }
    }
  }
}
