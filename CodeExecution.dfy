/**
 * `handleExecuteCode`: the status bookkeeping of running one code block in
 * the current session. Running the code itself is an oracle that yields the
 * captured output or the message of the thrown error.
 */
module CodeExecution {
  import opened Wrappers
  import opened Types
  import opened Sessions
  import LegacyChatStore

  /** What running the code gives. */
  datatype ExecResult = Ran(output: string) | Threw(message: string)

  /** `msg.codeBlocks?.map(block => block.id === blockId ? f(block) : block)` on every message. */
  function UpdateBlocks(ms: seq<Message>, blockId: string, f: CodeBlock -> CodeBlock): (r: seq<Message>)
    ensures |r| == |ms|
    ensures forall i :: 0 <= i < |ms| ==> r[i] == ms[i].(codeBlocks := r[i].codeBlocks)
    ensures forall i :: 0 <= i < |ms| ==> (r[i].codeBlocks.None? <==> ms[i].codeBlocks.None?)
    ensures forall i :: 0 <= i < |ms| && ms[i].codeBlocks.Some? ==>
      |r[i].codeBlocks.value| == |ms[i].codeBlocks.value|
    ensures forall i, j :: 0 <= i < |ms| && ms[i].codeBlocks.Some? && 0 <= j < |ms[i].codeBlocks.value| ==>
      r[i].codeBlocks.value[j] == (if ms[i].codeBlocks.value[j].id == blockId then f(ms[i].codeBlocks.value[j]) else ms[i].codeBlocks.value[j])
  {
    seq(|ms|, i requires 0 <= i < |ms| =>
      ms[i].(codeBlocks := match ms[i].codeBlocks
        case None => None
        case Some(bs) => Some(seq(|bs|, j requires 0 <= j < |bs| => if bs[j].id == blockId then f(bs[j]) else bs[j]))))
  }

  /** The session with its messages' blocks updated. */
  function InSession(s: ChatSession, blockId: string, f: CodeBlock -> CodeBlock): ChatSession {
    s.(messages := UpdateBlocks(s.messages, blockId, f))
  }

  /** The first update: running, with output and error cleared. */
  function Started(b: CodeBlock): (r: CodeBlock)
    ensures r.id == b.id && r.language == b.language && r.code == b.code
    ensures r.isExecuting == Some(true) && r.output.None? && r.error.None?
  {
    b.(isExecuting := Some(true), output := None, error := None)
  }

  /** The second update, for the result of the run. */
  function Settled(b: CodeBlock, result: ExecResult): (r: CodeBlock)
    ensures r.id == b.id && r.language == b.language && r.code == b.code
    ensures r.isExecuting == Some(false)
    ensures result.Ran? ==> r.output == Some(result.output) && r.error == b.error
    ensures result.Threw? ==> r.error == Some(result.message) && r.output == b.output
  {
    match result
    case Ran(out) => b.(isExecuting := Some(false), output := Some(out))
    case Threw(msg) => b.(isExecuting := Some(false), error := Some(msg))
  }

  /** The two successive updates of the current session. */
  function Executed(st: ChatState, blockId: string, result: ExecResult): (r: ChatState)
    ensures r == st.(sessions := r.sessions) && |r.sessions| == |st.sessions|
    ensures forall i :: 0 <= i < |st.sessions| && st.sessions[i].id != st.currentSessionId ==>
      r.sessions[i] == st.sessions[i]
  {
    var started := UpdatedCurrent(st, s => InSession(s, blockId, Started));
    UpdatedCurrent(started, s => InSession(s, blockId, b => Settled(b, result)))
  }

  /** Two block updates in a row are one update by their composition `h`. */
  lemma UpdateBlocksTwice(ms: seq<Message>, blockId: string,
                          f: CodeBlock -> CodeBlock, g: CodeBlock -> CodeBlock, h: CodeBlock -> CodeBlock)
    requires forall b :: f(b).id == b.id && h(b) == g(f(b))
    ensures UpdateBlocks(UpdateBlocks(ms, blockId, f), blockId, g) == UpdateBlocks(ms, blockId, h)
  {
    var twice := UpdateBlocks(UpdateBlocks(ms, blockId, f), blockId, g);
    var direct := UpdateBlocks(ms, blockId, h);
    forall i | 0 <= i < |ms| ensures twice[i] == direct[i] {
      if ms[i].codeBlocks.Some? {
        assert twice[i].codeBlocks.value == direct[i].codeBlocks.value;
      }
    }
  }

  /**
   * What a block with the id ends as: not executing, with the output and no
   * error after a run that returned, with the error message and no output
   * after one that threw; its id, language and code are kept.
   */
  function Outcome(b: CodeBlock, result: ExecResult): (r: CodeBlock)
    ensures r.id == b.id && r.language == b.language && r.code == b.code
    ensures r.isExecuting == Some(false)
    ensures result.Ran? ==> r.output == Some(result.output) && r.error.None?
    ensures result.Threw? ==> r.output.None? && r.error == Some(result.message)
  {
    Settled(Started(b), result)
  }

  /**
   * The two updates amount to one: the current session's blocks with the id
   * take their outcome, and nothing else changes.
   */
  lemma ExecutedNetEffect(st: ChatState, blockId: string, result: ExecResult)
    ensures Executed(st, blockId, result) == UpdatedCurrent(st, s => InSession(s, blockId, b => Outcome(b, result)))
  {
    var r := Executed(st, blockId, result);
    var e := UpdatedCurrent(st, s => InSession(s, blockId, b => Outcome(b, result)));
    forall i | 0 <= i < |st.sessions| ensures r.sessions[i] == e.sessions[i] {
      var s := st.sessions[i];
      if s.id == st.currentSessionId {
        UpdateBlocksTwice(s.messages, blockId, Started, b => Settled(b, result), b => Outcome(b, result));
      }
    }
  }

  /** `handleExecuteCode(blockId, code)` on the store the shell wires in. */
  method HandleExecuteCode(store: LegacyChatStore.Store, blockId: string, code: string, run: string -> ExecResult)
    modifies store
    ensures store.state == Executed(old(store.state), blockId, run(code))
  {
    store.UpdateCurrentSession(s => InSession(s, blockId, Started));
    var result := run(code);
    store.UpdateCurrentSession(s => InSession(s, blockId, b => Settled(b, result)));
  }
}
