/**
 * `handleSendMessage`: one turn of the conversation against the store the
 * application shell wires in (the older store). The language-model call is an
 * oracle `llm` from the request to a reply or a failure; the identifiers of
 * extracted code blocks and the two timestamps are parameters.
 *
 * The handler reads the current session through a closure over the state of
 * the render that created it, so the request is built from the state as it
 * was before the user message was added.
 */
module MessageHandler {
  import opened Wrappers
  import opened Types
  import opened Sessions
  import opened LegacyChatStore
  import CodeBlocks

  const ConfigError: string := "API key not configured. Please add VITE_MISTRAL_API_KEY to your environment variables."
  const ReplyError: string := "Failed to get response from AI. Please try again."

  /** One entry of the request: role and content only. */
  datatype ChatTurn = ChatTurn(role: Role, content: string)

  /** What is sent to the model. */
  datatype ChatRequest = ChatRequest(model: Option<string>, messages: seq<ChatTurn>)

  /** The outcome of the model call: the text of the first choice, or a thrown error. */
  datatype LlmReply = Reply(content: string) | Failed

  /** The message the user sends. */
  function UserMessage(content: string, isVoice: bool, at: int): (r: Message)
    ensures r.role == User && r.content == content && r.isVoice == Some(isVoice) && r.timestamp == at
    ensures r.codeBlocks.None? && r.alternatives.None? && r.currentAlternativeIndex.None? && r.originalContent.None?
  {
    Message(User, content, Some(isVoice), None, at, None, None, None, None)
  }

  /** The assistant message made of a reply: the normalised text and its code blocks. */
  function AssistantMessage(reply: string, idOf: nat -> string, at: int): (r: Message)
    ensures r.role == Assistant && r.timestamp == at
    ensures r.content == CodeBlocks.Rebuilt(reply, 0)
    ensures r.codeBlocks == Some(CodeBlocks.BlocksOf(reply, CodeBlocks.Matches(reply, 0), idOf))
    ensures r.alternatives.None? && r.originalContent.None? && r.currentAlternativeIndex.None?
  {
    Message(Assistant, CodeBlocks.Rebuilt(reply, 0), None,
      Some(CodeBlocks.BlocksOf(reply, CodeBlocks.Matches(reply, 0), idOf)), at, None, None, None, None)
  }

  /** `messages.map(msg => ({ role, content }))`. */
  function Turns(ms: seq<Message>): (r: seq<ChatTurn>)
    ensures |r| == |ms|
    ensures forall i :: 0 <= i < |ms| ==> r[i] == ChatTurn(ms[i].role, ms[i].content)
  {
    seq(|ms|, i requires 0 <= i < |ms| => ChatTurn(ms[i].role, ms[i].content))
  }

  /**
   * The request built from the pre-send state: the current session's model,
   * and its messages followed by the new one. Without a current session the
   * read of its messages throws, and no request is made.
   */
  function Request(snapshot: ChatState, um: Message): (r: Option<ChatRequest>)
    ensures r.Some? <==> CurrentExists(snapshot)
    ensures r.Some? ==>
      && r.value.model == CurrentSession(snapshot).value.model
      && r.value.messages == Turns(CurrentSession(snapshot).value.messages) + [ChatTurn(um.role, um.content)]
  {
    match CurrentSession(snapshot)
    case None => None
    case Some(s) => Some(ChatRequest(s.model, Turns(s.messages + [um])))
  }

  /**
   * The request holds exactly the transcript the user sees once the message
   * is added: neither a system prompt nor a window is applied.
   */
  lemma RequestIsTranscript(st: ChatState, um: Message)
    requires CurrentExists(st)
    ensures Request(st, um).value.messages == Turns(CurrentSession(MessageAdded(st, um)).value.messages)
  {
    MessageAddedFindsAppended(st, um);
  }

  /** The state a send leaves behind, for the reply `reply` of the model. */
  function AfterSend(st: ChatState, configured: bool, um: Message, reply: LlmReply, idOf: nat -> string, repliedAt: int): (r: ChatState)
    ensures !configured ==> r == st.(error := Some(ConfigError))
    ensures configured && (!CurrentExists(st) || reply.Failed?) ==>
      r == MessageAdded(st, um).(isLoading := false, error := Some(ReplyError))
    ensures configured && CurrentExists(st) && reply.Reply? ==>
      r == MessageAdded(MessageAdded(st, um).(isLoading := true, error := None),
                        AssistantMessage(reply.content, idOf, repliedAt)).(isLoading := false)
  {
    if !configured then st.(error := Some(ConfigError))
    else
      var loading := MessageAdded(st, um).(isLoading := true, error := None);
      if !CurrentExists(st) || reply.Failed? then loading.(isLoading := false, error := Some(ReplyError))
      else MessageAdded(loading, AssistantMessage(reply.content, idOf, repliedAt)).(isLoading := false)
  }

  /**
   * Net effect on the current session: a successful turn adds the user
   * message and the assistant message, a failed one only the user message,
   * an unconfigured client nothing. A send that reaches the client always
   * ends with loading off.
   */
  lemma SendAppends(st: ChatState, configured: bool, um: Message, reply: LlmReply, idOf: nat -> string, repliedAt: int)
    requires CurrentExists(st)
    ensures var r := AfterSend(st, configured, um, reply, idOf, repliedAt);
      && CurrentExists(r)
      && (if configured then !r.isLoading else r.isLoading == st.isLoading)
      && CurrentSession(r).value.messages ==
           CurrentSession(st).value.messages
           + (if configured then [um] else [])
           + (if configured && reply.Reply? then [AssistantMessage(reply.content, idOf, repliedAt)] else [])
      && (configured && reply.Reply? ==> r.error.None?)
      && (configured && reply.Failed? ==> r.error == Some(ReplyError))
      && (!configured ==> r.error == Some(ConfigError))
  {
    var cur := CurrentSession(st).value;
    if configured {
      MessageAddedFindsAppended(st, um);
      var loading := MessageAdded(st, um).(isLoading := true, error := None);
      assert CurrentSession(loading) == Some(AppendMessage(cur, um));
      if reply.Reply? {
        var am := AssistantMessage(reply.content, idOf, repliedAt);
        MessageAddedFindsAppended(loading, am);
        var r := MessageAdded(loading, am).(isLoading := false);
        assert CurrentSession(r) == Some(AppendMessage(AppendMessage(cur, um), am));
        assert CurrentSession(r).value.messages == cur.messages + [um] + [am];
      }
    }
  }

  /**
   * `handleSendMessage(content, isVoice)`. Returns the request made, if any,
   * and the text handed to speech, which is the reply's text for a voice
   * message that got an answer.
   */
  method HandleSendMessage(store: Store, configured: bool, content: string, isVoice: bool,
                           sentAt: int, repliedAt: int, llm: ChatRequest -> LlmReply, idOf: nat -> string)
    returns (request: Option<ChatRequest>, spoken: Option<string>)
    modifies store
    ensures request == (if configured then Request(old(store.state), UserMessage(content, isVoice, sentAt)) else None)
    ensures var reply := if request.Some? then llm(request.value) else Failed;
      && store.state == AfterSend(old(store.state), configured, UserMessage(content, isVoice, sentAt), reply, idOf, repliedAt)
      && spoken == (if isVoice && reply.Reply? then Some(CodeBlocks.Rebuilt(reply.content, 0)) else None)
  {
    request, spoken := None, None;
    if !configured {
      store.state := store.state.(error := Some(ConfigError));
      return;
    }
    var snapshot := store.state;
    var um := UserMessage(content, isVoice, sentAt);
    store.AddMessage(um);
    store.state := store.state.(isLoading := true, error := None);
    var current := CurrentSession(snapshot);
    if current.None? {
      store.state := store.state.(isLoading := false, error := Some(ReplyError));
      return;
    }
    request := Some(ChatRequest(current.value.model, Turns(current.value.messages + [um])));
    var reply := llm(request.value);
    if reply.Failed? {
      store.state := store.state.(isLoading := false, error := Some(ReplyError));
      return;
    }
    var text, blocks := CodeBlocks.ExtractCodeBlocks(reply.content, idOf);
    store.AddMessage(Message(Assistant, text, None, Some(blocks), repliedAt, None, None, None, None));
    if isVoice {
      spoken := Some(text);
    }
    store.state := store.state.(isLoading := false);
  }
}
