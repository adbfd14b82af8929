/**
 * The message list of the chat view: which message is the last assistant
 * message, which per-message controls each message receives, and the message
 * a forwarded set of search results becomes.
 */
module ChatContainer {
  import opened Wrappers
  import opened Text
  import opened Types
  import opened Transcript
  import ChatStore

  /**
   * What one message of the list receives: whether it shows the speaking
   * state, whether the regenerate, navigate and search-results handlers are
   * attached, and the last-assistant flag. The handlers that every message
   * receives (code execution, speech) are not recorded.
   */
  datatype MessageProps = MessageProps(
    isSpeaking: bool,
    canRegenerate: bool,
    isLastAssistantMessage: bool,
    canNavigate: bool,
    canSearch: bool)

  /**
   * The props of message `i`. `hasRegenerate` and `hasNavigate` say whether
   * the optional handlers were passed to the container; the search-results
   * handler is the container's own and always exists.
   */
  function PropsAt(ms: seq<Message>, i: nat, isSpeaking: bool, hasRegenerate: bool, hasNavigate: bool): MessageProps
    requires i < |ms|
  {
    var last := LastIndexOfRole(ms, Assistant);
    MessageProps(
      isSpeaking && i == |ms| - 1,
      i == last && hasRegenerate,
      i == last,
      i == last && hasNavigate,
      i == last && ms[i].role == Assistant)
  }

  /** `messages.map(...)`: the props of every message, in order. */
  function Props(ms: seq<Message>, isSpeaking: bool, hasRegenerate: bool, hasNavigate: bool): (r: seq<MessageProps>)
    ensures |r| == |ms|
    ensures forall i :: 0 <= i < |ms| ==> r[i] == PropsAt(ms, i, isSpeaking, hasRegenerate, hasNavigate)
  {
    seq(|ms|, i requires 0 <= i < |ms| => PropsAt(ms, i, isSpeaking, hasRegenerate, hasNavigate))
  }

  /**
   * A message carries the last-assistant flag exactly when it is an assistant
   * message and no assistant message follows it; the regenerate, navigate and
   * search-results handlers go to that message only, and the speaking state
   * only to the final message of the list.
   */
  lemma PropsGating(ms: seq<Message>, isSpeaking: bool, hasRegenerate: bool, hasNavigate: bool, i: nat)
    requires i < |ms|
    ensures var p := Props(ms, isSpeaking, hasRegenerate, hasNavigate)[i];
      && (p.isLastAssistantMessage <==>
            ms[i].role == Assistant && forall j :: i < j < |ms| ==> ms[j].role != Assistant)
      && (p.canRegenerate <==> p.isLastAssistantMessage && hasRegenerate)
      && (p.canNavigate <==> p.isLastAssistantMessage && hasNavigate)
      && (p.canSearch <==> p.isLastAssistantMessage)
      && (p.isSpeaking <==> isSpeaking && i == |ms| - 1)
  {
    var last := LastIndexOfRole(ms, Assistant);
    if ms[i].role == Assistant && forall j :: i < j < |ms| ==> ms[j].role != Assistant {
      assert IsLastOfRole(ms, Assistant, i);
      LastIndexOfRoleUnique(ms, Assistant, i);
    }
  }

  /** At most one message receives the regenerate handler, and it is an assistant message. */
  lemma AtMostOneRegenerate(ms: seq<Message>, isSpeaking: bool, hasRegenerate: bool, hasNavigate: bool, i: nat, j: nat)
    requires i < |ms| && j < |ms|
    requires Props(ms, isSpeaking, hasRegenerate, hasNavigate)[i].canRegenerate
    requires Props(ms, isSpeaking, hasRegenerate, hasNavigate)[j].canRegenerate
    ensures i == j && ms[i].role == Assistant
  {
  }

  /** A list holding an assistant message has exactly one message with the last-assistant flag. */
  lemma SomeAssistantFlagged(ms: seq<Message>, isSpeaking: bool, hasRegenerate: bool, hasNavigate: bool, k: nat)
    requires k < |ms| && ms[k].role == Assistant
    ensures var last := LastIndexOfRole(ms, Assistant);
      && k <= last < |ms|
      && Props(ms, isSpeaking, hasRegenerate, hasNavigate)[last].isLastAssistantMessage
  {
  }

  /**
   * With two assistant turns the controls and the navigation disagree: the
   * controls sit on the last assistant message, but navigating changes the
   * first assistant message followed by a user message.
   */
  lemma NavigationControlsMismatch(q1: string, a1: string, q2: string, a2: string)
    ensures var ask1 := Message(User, q1, None, None, 1, None, None, None, None);
      var reply1 := Message(Assistant, a1, None, None, 2, None, Some([a1, "other"]), Some(0), Some(a1));
      var ask2 := Message(User, q2, None, None, 3, None, None, None, None);
      var reply2 := Message(Assistant, a2, None, None, 4, None, Some([a2, "other"]), Some(0), Some(a2));
      var ms := [ask1, reply1, ask2, reply2];
      && LastIndexOfRole(ms, Assistant) == 3
      && Props(ms, false, true, true)[3].canNavigate
      && !Props(ms, false, true, true)[1].canNavigate
      && ChatStore.NavTarget(ms) == Some(1)
  {
    var ask1 := Message(User, q1, None, None, 1, None, None, None, None);
    var reply1 := Message(Assistant, a1, None, None, 2, None, Some([a1, "other"]), Some(0), Some(a1));
    var ask2 := Message(User, q2, None, None, 3, None, None, None, None);
    var reply2 := Message(Assistant, a2, None, None, 4, None, Some([a2, "other"]), Some(0), Some(a2));
    var ms := [ask1, reply1, ask2, reply2];
    assert IsLastOfRole(ms, Assistant, 3);
    LastIndexOfRoleUnique(ms, Assistant, 3);
    assert !EndsAssistantTurn(ms, 0) && EndsAssistantTurn(ms, 1);
    assert FirstTurnEndFrom(ms, 1) == Some(1);
  }

  /** The text put in front of forwarded search results. */
  const AnalysisPrompt: string := "Please analyze these search results and provide insights:\n\n"

  /**
   * `handleSearchResults`: the message sent for a set of search results, or
   * nothing when no send handler was passed. The results can be read back
   * from the message.
   */
  function SearchResultsMessage(results: string, hasSend: bool): (r: Option<string>)
    ensures r.Some? <==> hasSend
    ensures r.Some? ==> StartsWith(r.value, AnalysisPrompt) && r.value[|AnalysisPrompt|..] == results
  {
    if hasSend then Some(AnalysisPrompt + results) else None
  }

  /** Different results become different messages. */
  lemma SearchResultsMessageInjective(a: string, b: string)
    requires SearchResultsMessage(a, true) == SearchResultsMessage(b, true)
    ensures a == b
  {
    assert a == SearchResultsMessage(a, true).value[|AnalysisPrompt|..];
  }
}
