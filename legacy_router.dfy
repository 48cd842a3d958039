/** The legacy query router (`core/rag_utils.py`): no video goes to the
    general chain; the vector store gets one create-and-reload attempt; the
    classifier runs first; then a time-sensitive query is answered from a
    window of five documents around the covering (or closest) one; then
    summaries; then the decider gate in front of the RAG chain.
    The vector store, the retriever and the chains are not modelled: the
    store is its documents, a retrieval is the `retrieve(k, query)` oracle,
    the decider is `decide(context, query)`, and the router returns the
    `Route` it takes. */
module LegacyRouter {
  import opened Common
  import opened LegacyRagUtils

  /** A stored chunk: its text and its optional `start`/`end` metadata. */
  datatype Doc = Doc(content: string, start: Option<real>, end: Option<real>)

  /** A loaded vector store, as the documents of its docstore. */
  datatype Store = Store(docs: seq<Doc>)

  /** `doc.metadata.get('start', 0)`. */
  function DocStart(d: Doc): real { if d.start.Some? then d.start.value else 0.0 }

  /** `start <= t < metadata.get('end', inf)`. */
  predicate Covers(d: Doc, t: real) {
    DocStart(d) <= t && (d.end.None? || t < d.end.value)
  }

  function Abs(x: real): real { if x < 0.0 then -x else x }

  function Distance(d: Doc, t: real): real { Abs(DocStart(d) - t) }

  /** The first document covering `t`. */
  function FirstCovering(docs: seq<Doc>, t: real): (r: Option<nat>)
    ensures r.Some? ==> r.value < |docs| && Covers(docs[r.value], t)
    ensures r.Some? ==> forall j :: 0 <= j < r.value ==> !Covers(docs[j], t)
    ensures r.None? ==> forall j :: 0 <= j < |docs| ==> !Covers(docs[j], t)
  {
    if docs == [] then None
    else if Covers(docs[0], t) then Some(0)
    else match FirstCovering(docs[1..], t)
      case None => None
      case Some(j) => Some(j + 1)
  }

  /** `min(docs, key=|start - t|)`: the first document of least distance. */
  function Closest(docs: seq<Doc>, t: real): (r: nat)
    requires |docs| > 0
    ensures r < |docs|
    ensures forall j :: 0 <= j < |docs| ==> Distance(docs[r], t) <= Distance(docs[j], t)
    ensures forall j :: 0 <= j < r ==> Distance(docs[j], t) > Distance(docs[r], t)
  {
    if |docs| == 1 then 0
    else
      var c := Closest(docs[..|docs| - 1], t);
      assert forall j :: 0 <= j < |docs| - 1 ==> docs[..|docs| - 1][j] == docs[j];
      if Distance(docs[|docs| - 1], t) < Distance(docs[c], t) then |docs| - 1 else c
  }

  /** The target index the time branch looks for: the first covering
      document, else the closest one, else -1 when there are no documents. */
  function TargetIndex(docs: seq<Doc>, t: real): (r: int)
    ensures -1 <= r < |docs|
    ensures r == -1 <==> docs == []
  {
    match FirstCovering(docs, t)
    case Some(i) => i
    case None => if docs == [] then -1 else Closest(docs, t)
  }

  /** `all_video_docs.index(doc)`: the first position holding a document equal to `doc`. */
  function IndexOf(docs: seq<Doc>, doc: Doc): (r: nat)
    requires doc in docs
    ensures r < |docs| && docs[r] == doc
    ensures forall j :: 0 <= j < r ==> docs[j] != doc
  {
    if docs[0] == doc then 0 else 1 + IndexOf(docs[1..], doc)
  }

  /** The search loop of the time branch (exact match with `break`, then
      `min` and `index`), proved to find `TargetIndex`. */
  method FindTargetIndex(docs: seq<Doc>, t: real) returns (target: int)
    ensures target == TargetIndex(docs, t)
  {
    target := -1;
    var i := 0;
    while i < |docs|
      invariant 0 <= i <= |docs|
      invariant target == -1
      invariant forall j :: 0 <= j < i ==> !Covers(docs[j], t)
      decreases |docs| - i
    {
      if Covers(docs[i], t) {
        target := i;
        break;
      }
      i := i + 1;
    }
    assert target != -1 ==> FirstCovering(docs, t) == Some(target as nat);
    if target == -1 && |docs| > 0 {
      var closest := 0;
      var k := 1;
      while k < |docs|
        invariant 1 <= k <= |docs| && closest < k
        invariant forall j :: 0 <= j < k ==> Distance(docs[closest], t) <= Distance(docs[j], t)
        invariant forall j :: 0 <= j < closest ==> Distance(docs[j], t) > Distance(docs[closest], t)
      {
        if Distance(docs[k], t) < Distance(docs[closest], t) {
          closest := k;
        }
        k := k + 1;
      }
      ClosestUnique(docs, t, closest);
      target := IndexOf(docs, docs[closest]);
    }
  }

  /** The first least-distance position is determined by its two properties,
      and an equal document earlier in the list would have had the same
      distance, so `index` of the closest document finds that position too. */
  lemma ClosestUnique(docs: seq<Doc>, t: real, c: nat)
    requires c < |docs|
    requires forall j :: 0 <= j < |docs| ==> Distance(docs[c], t) <= Distance(docs[j], t)
    requires forall j :: 0 <= j < c ==> Distance(docs[j], t) > Distance(docs[c], t)
    ensures IndexOf(docs, docs[c]) == c == Closest(docs, t)
  {
    var r := Closest(docs, t);
    var x := IndexOf(docs, docs[c]);
  }

  // ---------------------------------------------------------------- routes

  const NoTranscriptReply := "I couldn't retrieve the transcript for this video to answer your question."

  datatype Route =
    | General(question: string)
    | TimeBased(context: string)
    | Reply(text: string)
    | Summarize(context: string, question: string)
    | Rag(context: string, question: string)

  const TimeKeywords: seq<string> := ["this moment", "right now", "at this time", "what is he saying",
                                      "what does this mean", "what did he just say"]
  const SummaryKeywords: seq<string> := ["summarize", "summary", "overview", "what is this video about",
                                         "key points", "give me a tldr"]

  predicate AnyKeyword(text: string, keywords: seq<string>) {
    exists k :: 0 <= k < |keywords| && Contains(text, keywords[k])
  }

  /** `parse_timestamp_from_query(query) or timestamp`: a parsed 0 is falsy. */
  function EffectiveTimestamp(query: string, timestamp: real): real {
    match ParseTimestampFromQuery(query)
    case Some(n) => if n != 0 then n as real else timestamp
    case None => timestamp
  }

  predicate TimeSensitive(query: string, timestamp: real) {
    EffectiveTimestamp(query, timestamp) > 1.0
    && (ParseTimestampFromQuery(query).Some? || AnyKeyword(Lower(query), TimeKeywords))
  }

  function DocContents(docs: seq<Doc>): (r: seq<string>)
    ensures |r| == |docs| && forall i :: 0 <= i < |docs| ==> r[i] == docs[i].content
  {
    if docs == [] then [] else [docs[0].content] + DocContents(docs[1..])
  }

  /** The store the router works with: the loaded one, else the one loaded
      after creating it, else none (also when creating raised). */
  function StoreAfterLoading(loaded: Option<Store>, createRaises: bool, reloaded: Option<Store>): Option<Store> {
    if loaded.Some? then loaded else if createRaises then None else reloaded
  }

  /** The time branch: documents sorted by start, the target found, and the
      five-document window around it joined by blank lines. */
  function TimeRoute(store: Store, t: real): Route {
    var docs := SortBy(store.docs, DocStart);
    var target := TargetIndex(docs, t);
    if target != -1 then TimeBased(Join(DocContents(ContextWindow(docs, target, 5)), "\n\n"))
    else Reply(NoTranscriptReply)
  }

  /** `query_router(query, video_id, video_title, timestamp)`. */
  function QueryRouter(query: string, videoId: Option<string>, timestamp: real,
                       loaded: Option<Store>, createRaises: bool, reloaded: Option<Store>,
                       classification: string,
                       retrieve: (nat, string) -> seq<string>,
                       decide: (string, string) -> string): Route
  {
    if videoId.None? || videoId.value == "" then General(query)
    else match StoreAfterLoading(loaded, createRaises, reloaded)
      case None => General(query)
      case Some(store) =>
        if Contains(classification, "General") then General(query)
        else if TimeSensitive(query, timestamp) then TimeRoute(store, EffectiveTimestamp(query, timestamp))
        else if AnyKeyword(Lower(query), SummaryKeywords) then
          Summarize(Join(retrieve(500, ""), "\n\n"), query)
        else
          var context := Join(retrieve(5, query), "\n\n");
          if Contains(decide(context, query), "RAG") && context != "" then Rag(context, query)
          else General(query)
  }

  /** Without a video, or without a store after one create-and-reload
      attempt, the query goes to the general chain. */
  lemma NoVideoOrStoreIsGeneral(query: string, videoId: Option<string>, timestamp: real,
                                loaded: Option<Store>, createRaises: bool, reloaded: Option<Store>,
                                classification: string, retrieve: (nat, string) -> seq<string>,
                                decide: (string, string) -> string)
    requires videoId.None? || videoId == Some("")
             || (loaded.None? && (createRaises || reloaded.None?))
    ensures QueryRouter(query, videoId, timestamp, loaded, createRaises, reloaded, classification, retrieve, decide)
            == General(query)
  {
  }

  /** The classifier decides before time and summary checks: "General" in its
      reply sends even a timed summary request to the general chain. */
  lemma ClassifierFirst(query: string, videoId: string, timestamp: real, store: Store,
                        classification: string, retrieve: (nat, string) -> seq<string>,
                        decide: (string, string) -> string)
    requires videoId != "" && Contains(classification, "General")
    ensures QueryRouter(query, Some(videoId), timestamp, Some(store), false, None, classification, retrieve, decide)
            == General(query)
  {
  }

  /** A parsed "0 min" is falsy: the player's timestamp is used instead, and
      the query counts as time-sensitive exactly when that timestamp is past 1s. */
  lemma ZeroMinutesUsesPlayerTime(query: string, timestamp: real)
    requires ParseTimestampFromQuery(query) == Some(0)
    ensures EffectiveTimestamp(query, timestamp) == timestamp
    ensures TimeSensitive(query, timestamp) <==> timestamp > 1.0
  {
  }

  /** Any parsed time past one second makes the query time-sensitive, with or
      without a keyword; without a parsed time a keyword and a player
      timestamp past one second are both needed. */
  lemma TimeSensitivity(query: string, timestamp: real)
    ensures ParseTimestampFromQuery(query).Some? && ParseTimestampFromQuery(query).value > 1 ==>
            TimeSensitive(query, timestamp)
    ensures ParseTimestampFromQuery(query).None? ==>
            (TimeSensitive(query, timestamp) <==> timestamp > 1.0 && AnyKeyword(Lower(query), TimeKeywords))
  {
  }

  /** The target is the first document covering `t`; only when none covers
      it is the first document of least distance from `t`. */
  lemma TargetIndexMeaning(docs: seq<Doc>, t: real)
    requires docs != []
    ensures var target := TargetIndex(docs, t);
            0 <= target < |docs|
            && (forall j :: 0 <= j < target ==> !Covers(docs[j], t))
            && (Covers(docs[target], t)
                || ((forall j :: 0 <= j < |docs| ==> !Covers(docs[j], t))
                    && (forall j :: 0 <= j < |docs| ==> Distance(docs[target], t) <= Distance(docs[j], t))))
  {
  }

  /** The time branch answers from the window around the target in start
      order, which holds the target itself; with no documents it replies that
      the transcript could not be retrieved. */
  lemma TimeRouteContext(store: Store, t: real)
    ensures var docs := SortBy(store.docs, DocStart);
            var target := TargetIndex(docs, t);
            var r := TimeRoute(store, t);
            (store.docs == [] <==> r == Reply(NoTranscriptReply))
            && (store.docs != [] ==>
                  r == TimeBased(Join(DocContents(ContextWindow(docs, target, 5)), "\n\n"))
                  && docs[target] in ContextWindow(docs, target, 5))
  {
    var docs := SortBy(store.docs, DocStart);
    if store.docs != [] {
      assert |docs| > 0;
      var target := TargetIndex(docs, t);
      ContextWindowShape(docs, target, 5);
      var lo := if target - 5 > 0 then target - 5 else 0;
      assert ContextWindow(docs, target, 5)[target - lo] == docs[target];
    } else {
      assert |docs| == 0;
    }
  }

  /** Past the classifier, time and summary checks, the RAG chain is used
      exactly when the decider says "RAG" and some context was retrieved. */
  lemma DeciderGate(query: string, videoId: string, timestamp: real, store: Store,
                    classification: string, retrieve: (nat, string) -> seq<string>,
                    decide: (string, string) -> string)
    requires videoId != "" && !Contains(classification, "General")
    requires !TimeSensitive(query, timestamp) && !AnyKeyword(Lower(query), SummaryKeywords)
    ensures var context := Join(retrieve(5, query), "\n\n");
            var r := QueryRouter(query, Some(videoId), timestamp, Some(store), false, None, classification, retrieve, decide);
            (r.Rag? <==> Contains(decide(context, query), "RAG") && context != "")
            && (r.Rag? ==> r == Rag(context, query))
            && (!r.Rag? ==> r == General(query))
  {
  }
}
