/**
 * The two rules of the page layout that decide what a control acts on: the
 * regenerate button re-sends the last user message of the shown session, and
 * the model picker changes the model of the shown session.
 */
module Layout {
  import opened Wrappers
  import opened Types
  import opened Sessions
  import opened Transcript
  import ChatStore
  import MessageHandler

  /** A call of `onSendMessage(message, isVoice, isRegeneration)`. */
  datatype SendCall = SendCall(content: string, isVoice: Option<bool>, isRegeneration: bool)

  /**
   * `handleRegenerate`: the content and voice flag of the last user message,
   * sent again as a regeneration; nothing when the session has no user message.
   */
  function Regenerate(current: ChatSession): (r: Option<SendCall>)
    ensures r.None? <==> forall j :: 0 <= j < |current.messages| ==> current.messages[j].role != User
    ensures r.Some? ==>
      var u := current.messages[LastIndexOfRole(current.messages, User)];
      r.value == SendCall(u.content, u.isVoice, true)
  {
    match LastOfRole(current.messages, User)
    case None => None
    case Some(u) => Some(SendCall(u.content, u.isVoice, true))
  }

  /**
   * After a user message and any number of replies, regenerating re-sends that
   * user message, and the handler turns it into a user message with the same
   * content (an absent voice flag taking the handler's default `false`).
   */
  lemma RegenerateResendsQuestion(s: ChatSession, before: seq<Message>, u: Message, replies: seq<Message>, at: int)
    requires u.role == User
    requires forall j :: 0 <= j < |replies| ==> replies[j].role == Assistant
    requires s.messages == before + [u] + replies
    ensures Regenerate(s) == Some(SendCall(u.content, u.isVoice, true))
    ensures var m := MessageHandler.UserMessage(u.content, u.isVoice.GetOr(false), at);
      m.role == User && m.content == u.content && m.isVoice == Some(u.isVoice.GetOr(false))
  {
    var ms := s.messages;
    forall j | |before| < j < |ms| ensures ms[j].role != User {
      assert ms[j] == replies[j - |before| - 1];
    }
    assert IsLastOfRole(ms, User, |before|);
    LastIndexOfRoleUnique(ms, User, |before|);
  }

  /**
   * The picker's binding `onChangeModel(currentSession.id, model)` applied to
   * the newer store: the model change is addressed to the shown session.
   */
  function ModelPicked(st: ChatState, model: MistralModel): (r: ChatState)
    requires |st.sessions| > 0
    ensures r.currentSessionId == st.currentSessionId && |r.sessions| == |st.sessions|
  {
    ChatStore.ModelChanged(st, ChatStore.CurrentSession(st).value.id, model)
  }

  /**
   * The picker changes the model of the session the page shows, whether that
   * session is found by the current id or is the fallback first session, and
   * the same session is shown afterwards.
   */
  lemma ModelPickTargetsShownSession(st: ChatState, model: MistralModel)
    requires |st.sessions| > 0
    ensures var shown := ChatStore.CurrentSession(st).value;
      ChatStore.CurrentSession(ModelPicked(st, model)) == Some(shown.(model := Some(model.Id())))
  {
    var shown := ChatStore.CurrentSession(st).value;
    var f := (s: ChatSession) => s.(model := Some(model.Id()));
    var r := ModelPicked(st, model);
    MapWhereKeepsIds(st.sessions, shown.id, f);
    if HasId(st.sessions, st.currentSessionId) {
      var k := FindSession(st.sessions, st.currentSessionId).value;
      var j := FindSession(r.sessions, r.currentSessionId).value;
      assert r.sessions[k].id == st.currentSessionId;
      assert j == k;
    } else {
      assert !HasId(r.sessions, r.currentSessionId);
      assert r.sessions[0] == shown.(model := Some(model.Id()));
    }
  }
}
