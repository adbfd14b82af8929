/**
 * The older chat-state store (`useChatState.ts`), the one the application
 * shell imports, and the session selection the shell performs on its state.
 * Unlike the newer store it does not validate restored data, lets a delete
 * empty the session list, stores names untrimmed and creates sessions
 * without a model.
 */
module LegacyChatStore {
  import opened Wrappers
  import opened Types
  import opened Sessions
  import SessionName

  /** What the hook finds in storage at start-up. */
  datatype Saved =
    | Absent               // nothing stored, or the empty string
    | Unparsable           // `JSON.parse` throws, and nothing catches it
    | Parsed(state: ChatState)

  /** An empty session as this revision creates it: no model. */
  function NewSession(id: string, name: string, now: int): (r: ChatSession)
    ensures r.id == id && r.name == name && r.createdAt == now
    ensures r.messages == [] && r.model.None? && r.language.None?
  {
    ChatSession(id, name, now, [], None, None)
  }

  /**
   * The state the hook starts with: the restored value as it is, whatever it
   * holds; the `default` session when nothing is stored; `None` when parsing
   * throws, since the initialiser does not catch it.
   */
  function Loaded(saved: Saved, now: int): (r: Option<ChatState>)
    ensures saved.Parsed? ==> r == Some(saved.state)
    ensures saved.Unparsable? ==> r.None?
    ensures saved.Absent? ==>
      && r.Some? && r.value.sessions == [NewSession("default", SessionName.DefaultName, now)]
      && r.value.currentSessionId == "default" && !r.value.isLoading && r.value.error.None? && !r.value.isSpeaking
  {
    match saved
    case Absent => Some(ChatState([NewSession("default", SessionName.DefaultName, now)], "default", false, None, false))
    case Unparsable => None
    case Parsed(st) => Some(st)
  }

  /** A fresh store has its current session. */
  lemma LoadedFreshIsConsistent(now: int)
    ensures Loaded(Absent, now).Some? && CurrentExists(Loaded(Absent, now).value)
  {
    assert Loaded(Absent, now).value.sessions[0].id == "default";
  }

  /** `getCurrentSession`: the first session whose id is the current one; there may be none. */
  function CurrentSession(st: ChatState): (r: Option<ChatSession>)
    ensures r.Some? <==> CurrentExists(st)
    ensures r.Some? ==> r.value in st.sessions && r.value.id == st.currentSessionId
  {
    match FindSession(st.sessions, st.currentSessionId)
    case Some(i) => Some(st.sessions[i])
    case None => None
  }

  /** `handleCreateSession`: an empty session named `name` (`New Chat` when omitted) appended and made current. */
  function Created(st: ChatState, id: string, now: int, name: Option<string>): (r: ChatState)
    ensures |r.sessions| == |st.sessions| + 1
    ensures r.sessions[..|st.sessions|] == st.sessions
    ensures r.sessions[|st.sessions|] == NewSession(id, name.GetOr(SessionName.DefaultName), now)
    ensures r.currentSessionId == id
    ensures r.isLoading == st.isLoading && r.error == st.error && r.isSpeaking == st.isSpeaking
  {
    st.(sessions := st.sessions + [NewSession(id, name.GetOr(SessionName.DefaultName), now)], currentSessionId := id)
  }

  /** Creating always leaves a current session, even after the list was emptied. */
  lemma CreatedHasCurrent(st: ChatState, id: string, now: int, name: Option<string>)
    ensures CurrentExists(Created(st, id, now, name))
  {
    assert Created(st, id, now, name).sessions[|st.sessions|].id == id;
  }

  /**
   * `handleDeleteSession`: the sessions with the id are removed and the first
   * remaining session becomes current, whichever session was deleted; with
   * none remaining the current id is the empty string.
   */
  function Deleted(st: ChatState, id: string): (r: ChatState)
    ensures r.sessions == Without(st.sessions, id)
    ensures r.sessions != [] ==> r.currentSessionId == r.sessions[0].id
    ensures r.sessions == [] ==> r.currentSessionId == ""
    ensures r.isLoading == st.isLoading && r.error == st.error && r.isSpeaking == st.isSpeaking
  {
    var remaining := Without(st.sessions, id);
    st.(sessions := remaining, currentSessionId := if remaining != [] then remaining[0].id else "")
  }

  /** Deleting the only session empties the list and leaves no current session. */
  lemma DeleteLastSession(st: ChatState)
    requires |st.sessions| == 1
    ensures var r := Deleted(st, st.sessions[0].id);
      r.sessions == [] && r.currentSessionId == "" && CurrentSession(r).None?
  {
  }

  /**
   * Deleting a session that is not current still moves the selection to the
   * first remaining session.
   */
  lemma DeleteOtherMovesSelection(st: ChatState)
    requires |st.sessions| == 3
    requires st.sessions[0].id != st.sessions[1].id && st.sessions[0].id != st.sessions[2].id
    requires st.sessions[1].id != st.sessions[2].id && st.currentSessionId == st.sessions[2].id
    ensures var r := Deleted(st, st.sessions[0].id);
      r.sessions == st.sessions[1..] && r.currentSessionId == st.sessions[1].id != st.currentSessionId
  {
    var rest := st.sessions[1..];
    assert !HasId(rest, st.sessions[0].id);
    WithoutNoMatch(rest, st.sessions[0].id);
  }

  /**
   * When sessions remain, the new current session is the first session of the
   * old list with another id, whichever session was deleted.
   */
  lemma DeleteSelectsFirstRemaining(st: ChatState, id: string)
    requires Without(st.sessions, id) != []
    ensures exists k ::
      && 0 <= k < |st.sessions| && st.sessions[k].id == Deleted(st, id).currentSessionId
      && st.sessions[k].id != id
      && forall j :: 0 <= j < k ==> st.sessions[j].id == id
  {
    WithoutFirst(st.sessions, id);
  }

  /** After a delete the current session exists exactly when some session is left. */
  lemma DeletedCurrentIffNonEmpty(st: ChatState, id: string)
    ensures CurrentExists(Deleted(st, id)) <==> Deleted(st, id).sessions != []
  {
    var r := Deleted(st, id);
    if r.sessions != [] {
      assert r.sessions[0].id == r.currentSessionId;
    }
  }

  /** `handleRenameSession`: the sessions with the id take `newName` exactly as given. */
  function Renamed(st: ChatState, id: string, newName: string): (r: ChatState)
    ensures r == st.(sessions := r.sessions) && |r.sessions| == |st.sessions|
    ensures forall i :: 0 <= i < |st.sessions| ==>
      r.sessions[i] == if st.sessions[i].id == id then st.sessions[i].(name := newName) else st.sessions[i]
  {
    st.(sessions := MapWhere(st.sessions, id, (s: ChatSession) => s.(name := newName)))
  }

  /** A blank name is stored as it is, unlike in the newer store. */
  lemma RenameToBlank(st: ChatState, i: nat)
    requires i < |st.sessions|
    ensures Renamed(st, st.sessions[i].id, "  ").sessions[i].name == "  "
  {
  }

  /** `onSelectSession` of the application shell: the id becomes current, existing or not. */
  function Selected(st: ChatState, id: string): (r: ChatState)
    ensures r.currentSessionId == id
    ensures r == st.(currentSessionId := r.currentSessionId)
  {
    st.(currentSessionId := id)
  }

  /** Selecting an unknown id leaves no current session, and adding a message then drops it. */
  lemma SelectUnknownDropsMessages(st: ChatState, id: string, m: Message)
    requires !HasId(st.sessions, id)
    ensures CurrentSession(Selected(st, id)).None?
    ensures MessageAdded(Selected(st, id), m) == Selected(st, id)
  {
    UpdatedCurrentDangling(Selected(st, id), s => AppendMessage(s, m));
  }

  /** The state cell of the hook, with the selection handler of the shell. */
  class Store {
    var state: ChatState

    /** The state restored at start-up; a parse that throws leaves no store to build. */
    constructor(saved: Saved, now: int)
      requires Loaded(saved, now).Some?
      ensures state == Loaded(saved, now).value
    {
      state := Loaded(saved, now).value;
    }

    method GetCurrentSession() returns (r: Option<ChatSession>)
      ensures r == CurrentSession(state)
    {
      r := CurrentSession(state);
    }

    method UpdateCurrentSession(f: ChatSession -> ChatSession)
      modifies this
      ensures state == UpdatedCurrent(old(state), f)
    {
      state := UpdatedCurrent(state, f);
    }

    method HandleCreateSession(name: Option<string>, id: string, now: int)
      modifies this
      ensures state == Created(old(state), id, now, name)
    {
      state := Created(state, id, now, name);
    }

    method HandleDeleteSession(id: string)
      modifies this
      ensures state == Deleted(old(state), id)
    {
      state := Deleted(state, id);
    }

    method HandleRenameSession(id: string, newName: string)
      modifies this
      ensures state == Renamed(old(state), id, newName)
    {
      state := Renamed(state, id, newName);
    }

    method AddMessage(m: Message)
      modifies this
      ensures state == MessageAdded(old(state), m)
    {
      state := MessageAdded(state, m);
    }

    method HandleSelectSession(id: string)
      modifies this
      ensures state == Selected(old(state), id)
    {
      state := Selected(state, id);
    }
  }
}
