/**
 * The older message list of the chat view: the last assistant message gets
 * the regenerate handler and the last-assistant flag, the final message the
 * speaking state.
 */
module LegacyChatContainer {
  import opened Types
  import opened Transcript

  /** What one message of the older list receives. */
  datatype MessageProps = MessageProps(isSpeaking: bool, canRegenerate: bool, isLastAssistantMessage: bool)

  /** The props of message `i`; `hasRegenerate` says whether the handler was passed. */
  function PropsAt(ms: seq<Message>, i: nat, isSpeaking: bool, hasRegenerate: bool): MessageProps
    requires i < |ms|
  {
    var last := LastIndexOfRole(ms, Assistant);
    MessageProps(isSpeaking && i == |ms| - 1, i == last && hasRegenerate, i == last)
  }

  /** `messages.map(...)`: the props of every message, in order. */
  function Props(ms: seq<Message>, isSpeaking: bool, hasRegenerate: bool): (r: seq<MessageProps>)
    ensures |r| == |ms|
    ensures forall i :: 0 <= i < |ms| ==> r[i] == PropsAt(ms, i, isSpeaking, hasRegenerate)
  {
    seq(|ms|, i requires 0 <= i < |ms| => PropsAt(ms, i, isSpeaking, hasRegenerate))
  }

  /**
   * The last-assistant flag is set exactly on the assistant message no other
   * assistant message follows, the regenerate handler only there, and the
   * speaking state only on the final message.
   */
  lemma PropsGating(ms: seq<Message>, isSpeaking: bool, hasRegenerate: bool, i: nat)
    requires i < |ms|
    ensures var p := Props(ms, isSpeaking, hasRegenerate)[i];
      && (p.isLastAssistantMessage <==>
            ms[i].role == Assistant && forall j :: i < j < |ms| ==> ms[j].role != Assistant)
      && (p.canRegenerate <==> p.isLastAssistantMessage && hasRegenerate)
      && (p.isSpeaking <==> isSpeaking && i == |ms| - 1)
  {
    if ms[i].role == Assistant && forall j :: i < j < |ms| ==> ms[j].role != Assistant {
      assert IsLastOfRole(ms, Assistant, i);
      LastIndexOfRoleUnique(ms, Assistant, i);
    }
  }

  /** At most one message receives the regenerate handler. */
  lemma AtMostOneRegenerate(ms: seq<Message>, isSpeaking: bool, hasRegenerate: bool, i: nat, j: nat)
    requires i < |ms| && j < |ms|
    requires Props(ms, isSpeaking, hasRegenerate)[i].canRegenerate
    requires Props(ms, isSpeaking, hasRegenerate)[j].canRegenerate
    ensures i == j && ms[i].role == Assistant
  {
  }
}
