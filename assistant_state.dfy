/** The assistant's client-side state (`static/js/modules/assistant-state.js`):
    the video on screen, the conversation open in the chat panel, and for
    every video the conversation last opened for it.

    The module's three top-level variables become the fields of `State`;
    JavaScript's `null` is `None`. A JavaScript object indexed by a video id
    turns the id into a property name, so `null` indexes the property
    "null". */
module AssistantState {
  import opened Common

  /** JavaScript truthiness of a video id: `null` and "" are falsy. */
  predicate Truthy(videoId: Option<string>) {
    videoId.Some? && videoId.value != ""
  }

  /** The property name that `videoConversationMap[videoId]` reads. */
  function Key(videoId: Option<string>): string {
    if videoId.None? then "null" else videoId.value
  }

  /** `videoConversationMap[key] || null`: a missing entry, `null` and the
      falsy id 0 all read as `null`. */
  function Lookup(m: map<string, Option<nat>>, key: string): Option<nat> {
    if key in m && m[key].Some? && m[key].value != 0 then m[key] else None
  }

  /** The map after `setActiveConversation(videoId, convId)`. */
  function Recorded(m: map<string, Option<nat>>, videoId: Option<string>, convId: Option<nat>): map<string, Option<nat>> {
    if Truthy(videoId) then m[videoId.value := convId] else m
  }

  /** The map after `resetCurrentConversation()` while `videoId` is current. */
  function Forgotten(m: map<string, Option<nat>>, videoId: Option<string>): map<string, Option<nat>> {
    if Truthy(videoId) then m[videoId.value := None] else m
  }

  class State {
    var conversationFor: map<string, Option<nat>>
    var currentVideoId: Option<string>
    var currentConversationId: Option<nat>

    /** The module as loaded: an empty map and no current ids. */
    constructor ()
      ensures conversationFor == map[] && currentVideoId == None && currentConversationId == None
    {
      conversationFor := map[];
      currentVideoId := None;
      currentConversationId := None;
    }

    /** `getState()`: exactly the two current ids, the map stays private. */
    method GetState() returns (videoId: Option<string>, conversationId: Option<nat>)
      ensures videoId == currentVideoId && conversationId == currentConversationId
    {
      videoId := currentVideoId;
      conversationId := currentConversationId;
    }

    /** `setActiveConversation(videoId, convId)`: both ids become current;
        the video remembers the conversation only when its id is truthy. */
    method SetActiveConversation(videoId: Option<string>, convId: Option<nat>)
      modifies this
      ensures currentVideoId == videoId && currentConversationId == convId
      ensures conversationFor == Recorded(old(conversationFor), videoId, convId)
      ensures forall k :: k in old(conversationFor) && k != Key(videoId) ==>
                k in conversationFor && conversationFor[k] == old(conversationFor)[k]
      ensures forall k :: k in conversationFor && k != Key(videoId) ==> k in old(conversationFor)
    {
      currentVideoId := videoId;
      currentConversationId := convId;
      if videoId.Some? && videoId.value != "" {
        conversationFor := conversationFor[videoId.value := convId];
      }
    }

    /** `resetCurrentConversation()`: the current video is kept, its
        remembered conversation and the current conversation become null. */
    method ResetCurrentConversation()
      modifies this
      ensures currentVideoId == old(currentVideoId) && currentConversationId == None
      ensures conversationFor == Forgotten(old(conversationFor), old(currentVideoId))
      ensures forall k :: k in old(conversationFor) && k != Key(currentVideoId) ==>
                k in conversationFor && conversationFor[k] == old(conversationFor)[k]
      ensures forall k :: k in conversationFor && k != Key(currentVideoId) ==> k in old(conversationFor)
    {
      if currentVideoId.Some? && currentVideoId.value != "" {
        conversationFor := conversationFor[currentVideoId.value := None];
      }
      currentConversationId := None;
    }

    /** `getConversationForVideo(videoId)`. */
    method GetConversationForVideo(videoId: Option<string>) returns (r: Option<nat>)
      ensures r == Lookup(conversationFor, Key(videoId))
    {
      var k := if videoId.None? then "null" else videoId.value;
      if k in conversationFor && conversationFor[k].Some? && conversationFor[k].value != 0 {
        r := conversationFor[k];
      } else {
        r := None;
      }
    }
  }

  /** Opening a conversation for a video and asking for that video's
      conversation gives it back (a falsy id 0 reads as null); every other
      video reads as before. A falsy video id records nothing. */
  lemma RecordThenLookup(m: map<string, Option<nat>>, videoId: Option<string>, convId: Option<nat>, other: string)
    ensures Truthy(videoId) ==>
              Lookup(Recorded(m, videoId, convId), Key(videoId)) == (if convId == Some(0) then None else convId)
    ensures other != Key(videoId) ==> Lookup(Recorded(m, videoId, convId), other) == Lookup(m, other)
    ensures !Truthy(videoId) ==> Recorded(m, videoId, convId) == m
  {
  }

  /** After a reset the current video has no remembered conversation, and
      every other video keeps its own. */
  lemma ForgetThenLookup(m: map<string, Option<nat>>, videoId: Option<string>, other: string)
    ensures Truthy(videoId) ==> Lookup(Forgotten(m, videoId), Key(videoId)) == None
    ensures other != Key(videoId) ==> Lookup(Forgotten(m, videoId), other) == Lookup(m, other)
  {
  }

  /** Moving on to a second video keeps the first video's
      conversation: the second `setActiveConversation` touches only its own
      entry. */
  lemma SwitchingVideosKeepsConversations(m: map<string, Option<nat>>, first: string, a: nat,
                                          second: string, b: Option<nat>)
    requires first != "" && second != "" && first != second && a != 0
    ensures Lookup(Recorded(Recorded(m, Some(first), Some(a)), Some(second), b), first) == Some(a)
  {
    RecordThenLookup(m, Some(first), Some(a), first);
    RecordThenLookup(Recorded(m, Some(first), Some(a)), Some(second), b, first);
  }

  /** Starting a new chat on a video and then asking for its conversation
      gives null, whatever was opened before; the video stays current. */
  lemma ResetAfterOpenForgets(m: map<string, Option<nat>>, videoId: string, convId: Option<nat>)
    requires videoId != ""
    ensures Lookup(Forgotten(Recorded(m, Some(videoId), convId), Some(videoId)), videoId) == None
    ensures Forgotten(Recorded(m, Some(videoId), convId), Some(videoId)) == Recorded(m, Some(videoId), None)
  {
  }
}
