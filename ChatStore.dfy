/**
 * The newer chat-state store (the hook in `useChatState/index.ts`). Every
 * handler applies a pure updater to the previous state; the updaters are the
 * functions below, and `Store` holds the state cell they update.
 *
 * Identifiers and timestamps that the hook draws from `Math.random` and
 * `Date.now` are parameters. Persistence is reduced to the value read back
 * from storage.
 */
module ChatStore {
  import opened Wrappers
  import opened Text
  import opened Types
  import opened Sessions
  import opened Transcript
  import SessionName

  /** What the hook finds in storage at start-up. */
  datatype Saved =
    | Absent               // nothing stored, or the empty string
    | Unparsable           // `JSON.parse` throws
    | Parsed(state: ChatState)

  /** The identifier of the session of a fresh store. */
  const DefaultSessionId: string := "default"

  /** The two models a restored session may keep. */
  predicate KnownModel(model: Option<string>) {
    model == Some(MistralLarge.Id()) || model == Some(Codestral.Id())
  }

  /** An empty session with the default name and the default model. */
  function NewSession(id: string, now: int): (r: ChatSession)
    ensures r.id == id && r.createdAt == now && r.messages == []
    ensures r.name == SessionName.DefaultName && r.model == Some(MistralLarge.Id())
  {
    ChatSession(id, SessionName.DefaultName, now, [], Some(MistralLarge.Id()), None)
  }

  /** The state of a store that restored nothing. */
  function InitialState(now: int): (r: ChatState)
    ensures r.sessions == [NewSession(DefaultSessionId, now)]
    ensures r.currentSessionId == DefaultSessionId
    ensures !r.isLoading && r.error.None? && !r.isSpeaking
  {
    ChatState([NewSession(DefaultSessionId, now)], DefaultSessionId, false, None, false)
  }

  /** A restored session keeps a known model and is moved to `mistral-large` otherwise. */
  function MigrateSession(s: ChatSession): (r: ChatSession)
    ensures KnownModel(r.model)
    ensures r == s.(model := r.model)
    ensures KnownModel(s.model) ==> r == s
    ensures !KnownModel(s.model) ==> r.model == Some(MistralLarge.Id())
  {
    if s.model != Some(MistralLarge.Id()) && s.model != Some(Codestral.Id())
    then s.(model := Some(MistralLarge.Id()))
    else s
  }

  /**
   * The state the hook starts with. A restored state with sessions keeps all
   * its fields except that each session's model is migrated; anything else
   * (no data, a parse error, no sessions) gives the initial state.
   */
  function Loaded(saved: Saved, now: int): (r: ChatState)
    ensures |r.sessions| > 0
    ensures forall i :: 0 <= i < |r.sessions| ==> KnownModel(r.sessions[i].model)
    ensures saved.Parsed? && |saved.state.sessions| > 0 ==>
      && r.currentSessionId == saved.state.currentSessionId
      && r.isLoading == saved.state.isLoading
      && r.error == saved.state.error
      && r.isSpeaking == saved.state.isSpeaking
      && |r.sessions| == |saved.state.sessions|
      && forall i :: 0 <= i < |r.sessions| ==> r.sessions[i] == MigrateSession(saved.state.sessions[i])
    ensures !(saved.Parsed? && |saved.state.sessions| > 0) ==> r == InitialState(now)
  {
    if saved.Parsed? && |saved.state.sessions| > 0 then
      var ss := saved.state.sessions;
      saved.state.(sessions := seq(|ss|, i requires 0 <= i < |ss| => MigrateSession(ss[i])))
    else
      InitialState(now)
  }

  /** Saving the loaded state and loading it again gives the same state. */
  lemma ReloadIsIdentity(saved: Saved, now: int, later: int)
    ensures Loaded(Parsed(Loaded(saved, now)), later) == Loaded(saved, now)
  {
    var st := Loaded(saved, now);
    var again := Loaded(Parsed(st), later);
    assert again.sessions == st.sessions;
  }

  /**
   * `getCurrentSession`: the first session whose id is the current one,
   * falling back to the first session; `None` where the fallback reads past
   * an empty list.
   */
  function CurrentSession(st: ChatState): (r: Option<ChatSession>)
    ensures r.None? <==> |st.sessions| == 0
    ensures HasId(st.sessions, st.currentSessionId) ==>
      r == Some(st.sessions[FindSession(st.sessions, st.currentSessionId).value])
    ensures !HasId(st.sessions, st.currentSessionId) && |st.sessions| > 0 ==> r == Some(st.sessions[0])
  {
    match FindSession(st.sessions, st.currentSessionId)
    case Some(i) => Some(st.sessions[i])
    case None => if |st.sessions| > 0 then Some(st.sessions[0]) else None
  }

  /**
   * `handleCreateSession`: a new empty session (named `name`, `New Chat` when
   * omitted, with `model`, `mistral-large` when omitted) is appended and made current.
   */
  function Created(st: ChatState, id: string, now: int, name: Option<string>, model: Option<MistralModel>): (r: ChatState)
    ensures |r.sessions| == |st.sessions| + 1
    ensures r.sessions[..|st.sessions|] == st.sessions
    ensures r.sessions[|st.sessions|] ==
      ChatSession(id, name.GetOr(SessionName.DefaultName), now, [], Some(model.GetOr(MistralLarge).Id()), None)
    ensures r.currentSessionId == id
    ensures r.isLoading == st.isLoading && r.error == st.error && r.isSpeaking == st.isSpeaking
  {
    var s := ChatSession(id, name.GetOr(SessionName.DefaultName), now, [], Some(model.GetOr(MistralLarge).Id()), None);
    st.(sessions := st.sessions + [s], currentSessionId := id)
  }

  /** With a fresh id, the created session is the current session afterwards. */
  lemma CreatedIsCurrent(st: ChatState, id: string, now: int, name: Option<string>, model: Option<MistralModel>)
    requires !HasId(st.sessions, id)
    ensures var r := Created(st, id, now, name, model);
      CurrentExists(r) && CurrentSession(r) == Some(r.sessions[|st.sessions|])
  {
    var r := Created(st, id, now, name, model);
    assert r.sessions[|st.sessions|].id == id;
  }

  /**
   * Identifiers are random and not checked: when the new id is already taken,
   * the current session afterwards is the older session with that id, not the
   * created one.
   */
  lemma CreatedWithTakenId(st: ChatState, id: string, now: int, name: Option<string>, model: Option<MistralModel>)
    requires HasId(st.sessions, id)
    ensures var r := Created(st, id, now, name, model);
      CurrentSession(r) == Some(st.sessions[FindSession(st.sessions, id).value])
  {
    var r := Created(st, id, now, name, model);
    var k := FindSession(st.sessions, id).value;
    assert r.sessions[k] == st.sessions[k];
    var j := FindSession(r.sessions, id).value;
    assert j == k;
  }

  /**
   * `handleDeleteSession`: the sessions with the id are removed. An emptied
   * list is replaced by one fresh `New Chat` session, which becomes current;
   * otherwise deleting the current session makes the last remaining one current.
   */
  function Deleted(st: ChatState, id: string, freshId: string, now: int): (r: ChatState)
    ensures |r.sessions| > 0
    ensures r.isLoading == st.isLoading && r.error == st.error && r.isSpeaking == st.isSpeaking
    ensures Without(st.sessions, id) == [] ==>
      r.sessions == [NewSession(freshId, now)] && r.currentSessionId == freshId
    ensures Without(st.sessions, id) != [] ==>
      && r.sessions == Without(st.sessions, id)
      && r.currentSessionId == (if st.currentSessionId == id then r.sessions[|r.sessions| - 1].id else st.currentSessionId)
  {
    var remaining := Without(st.sessions, id);
    if remaining == [] then
      st.(sessions := [NewSession(freshId, now)], currentSessionId := freshId)
    else
      var current := if st.currentSessionId == id then remaining[|remaining| - 1].id else st.currentSessionId;
      st.(sessions := remaining, currentSessionId := current)
  }

  /** Deleting keeps the current id pointing at an existing session. */
  lemma DeletedKeepsCurrent(st: ChatState, id: string, freshId: string, now: int)
    requires CurrentExists(st)
    ensures CurrentExists(Deleted(st, id, freshId, now))
  {
    var r := Deleted(st, id, freshId, now);
    if Without(st.sessions, id) == [] {
      assert r.sessions[0].id == freshId;
    } else if st.currentSessionId == id {
      assert r.sessions[|r.sessions| - 1].id == r.currentSessionId;
    } else {
      WithoutKeepsOthers(st.sessions, id, st.currentSessionId);
    }
  }

  /** Deleting an id no session has, other than the current id, changes nothing. */
  lemma DeleteUnknownIsIdentity(st: ChatState, id: string, freshId: string, now: int)
    requires |st.sessions| > 0 && !HasId(st.sessions, id) && st.currentSessionId != id
    ensures Deleted(st, id, freshId, now) == st
  {
    WithoutNoMatch(st.sessions, id);
  }

  /**
   * Deleting the id of a dangling current session removes nothing but repairs
   * the current id: the last session becomes current.
   */
  lemma DeleteDanglingCurrent(st: ChatState, freshId: string, now: int)
    requires |st.sessions| > 0 && !CurrentExists(st)
    ensures var r := Deleted(st, st.currentSessionId, freshId, now);
      r.sessions == st.sessions && r.currentSessionId == st.sessions[|st.sessions| - 1].id
  {
    WithoutNoMatch(st.sessions, st.currentSessionId);
  }

  /**
   * Deleting the current session, when others remain, selects the last session
   * of the old list that has another id: every later session had the deleted id.
   */
  lemma DeleteCurrentSelectsLastRemaining(st: ChatState, freshId: string, now: int)
    requires Without(st.sessions, st.currentSessionId) != []
    ensures var r := Deleted(st, st.currentSessionId, freshId, now);
      exists k ::
        && 0 <= k < |st.sessions| && st.sessions[k].id == r.currentSessionId
        && st.sessions[k].id != st.currentSessionId
        && forall j :: k < j < |st.sessions| ==> st.sessions[j].id == st.currentSessionId
  {
    WithoutLast(st.sessions, st.currentSessionId);
    var k :| LastKeptAt(st.sessions, st.currentSessionId, k);
  }

  /**
   * `handleRenameSession`: the sessions with the id take the trimmed name; a
   * name that trims to nothing leaves the state as it is.
   */
  function Renamed(st: ChatState, id: string, newName: string): (r: ChatState)
    ensures Trim(newName) == [] ==> r == st
    ensures r == st.(sessions := r.sessions) && |r.sessions| == |st.sessions|
    ensures Trim(newName) != [] ==> forall i :: 0 <= i < |st.sessions| ==>
      r.sessions[i] == if st.sessions[i].id == id then st.sessions[i].(name := Trim(newName)) else st.sessions[i]
  {
    var trimmed := Trim(newName);
    if trimmed == [] then st
    else st.(sessions := MapWhere(st.sessions, id, (s: ChatSession) => s.(name := trimmed)))
  }

  /**
   * A renamed session's name is never empty and has no surrounding
   * whitespace, and renaming again with the same name changes nothing.
   */
  lemma RenamedNameNormalised(st: ChatState, id: string, newName: string, i: nat)
    requires i < |st.sessions| && st.sessions[i].id == id && !AllWhitespace(newName)
    ensures var n := Renamed(st, id, newName).sessions[i].name;
      n != [] && !IsJsWhitespace(n[0]) && !IsJsWhitespace(n[|n| - 1])
    ensures Renamed(Renamed(st, id, newName), id, newName) == Renamed(st, id, newName)
  {
    TrimEmptyIff(newName);
    TrimRemovesWhitespace(newName);
  }

  /** `handleChangeModel`: the sessions with the id take the model. */
  function ModelChanged(st: ChatState, id: string, model: MistralModel): (r: ChatState)
    ensures r == st.(sessions := r.sessions) && |r.sessions| == |st.sessions|
    ensures forall i :: 0 <= i < |st.sessions| ==>
      r.sessions[i] == if st.sessions[i].id == id then st.sessions[i].(model := Some(model.Id())) else st.sessions[i]
  {
    st.(sessions := MapWhere(st.sessions, id, (s: ChatSession) => s.(model := Some(model.Id()))))
  }

  /** Renaming keeps every identifier, so the current session keeps existing. */
  lemma RenamedKeepsCurrent(st: ChatState, id: string, newName: string)
    requires CurrentExists(st)
    ensures CurrentExists(Renamed(st, id, newName))
  {
    if Trim(newName) != [] {
      var trimmed := Trim(newName);
      MapWhereKeepsIds(st.sessions, id, (s: ChatSession) => s.(name := trimmed));
    }
  }

  /** Changing a model keeps every identifier, so the current session keeps existing. */
  lemma ModelChangedKeepsCurrent(st: ChatState, id: string, model: MistralModel)
    requires CurrentExists(st)
    ensures CurrentExists(ModelChanged(st, id, model))
  {
    MapWhereKeepsIds(st.sessions, id, (s: ChatSession) => s.(model := Some(model.Id())));
  }

  /** A model chosen in the picker survives a reload only when it is one of the two known models. */
  lemma ModelChangeSurvivesReload(st: ChatState, id: string, model: MistralModel, i: nat, now: int)
    requires i < |st.sessions| && st.sessions[i].id == id
    ensures var r := Loaded(Parsed(ModelChanged(st, id, model)), now);
      r.sessions[i].model == Some(if model == Codestral then Codestral.Id() else MistralLarge.Id())
  {
    if model.Id() == Codestral.Id() { ModelIdInjective(model, Codestral); }
    if model.Id() == MistralLarge.Id() { ModelIdInjective(model, MistralLarge); }
  }

  /**
   * The current session afterwards is the current session before, with the
   * message appended (and renamed by the first user message).
   */
  lemma MessageAddedToCurrent(st: ChatState, m: Message)
    requires CurrentExists(st)
    ensures CurrentSession(MessageAdded(st, m)) == Some(AppendMessage(CurrentSession(st).value, m))
  {
    MessageAddedFindsAppended(st, m);
  }

  /**
   * With a dangling current id the message is dropped, although
   * `getCurrentSession` then reports the first session.
   */
  lemma MessageAddedDangling(st: ChatState, m: Message)
    requires |st.sessions| > 0 && !CurrentExists(st)
    ensures MessageAdded(st, m) == st
    ensures CurrentSession(st) == Some(st.sessions[0])
  {
    UpdatedCurrentDangling(st, s => AppendMessage(s, m));
  }

  /** The way through the alternatives of a reply. */
  datatype Direction = Prev | Next

  function Opposite(d: Direction): Direction {
    if d == Prev then Next else Prev
  }

  /**
   * The index after one step: with `total` alternatives the indices
   * `0..total` form a cycle, 0 being the original reply.
   */
  function StepIndex(cur: nat, total: nat, dir: Direction): (r: nat)
    ensures r <= total
    ensures dir == Next ==> r == (cur + 1) % (total + 1)
    ensures dir == Prev ==> r == (cur + total) % (total + 1)
  {
    if dir == Next then (cur + 1) % (total + 1)
    else (cur - 1 + total + 1) % (total + 1)
  }

  lemma ModBelow(x: int, n: int)
    requires 0 <= x < n
    ensures x % n == x && (x + n) % n == x && n % n == 0
  {
  }

  /** Stepping back undoes stepping forward, and conversely, on every index of the cycle. */
  lemma StepRoundTrip(cur: nat, total: nat, dir: Direction)
    requires cur <= total
    ensures StepIndex(StepIndex(cur, total, dir), total, Opposite(dir)) == cur
  {
    var n := total + 1;
    if dir == Next {
      if cur == total {
        ModBelow(total, n);
      } else {
        ModBelow(cur + 1, n);
        ModBelow(cur, n);
      }
    } else {
      if cur == 0 {
        ModBelow(total, n);
        ModBelow(0, n);
      } else {
        ModBelow(cur - 1, n);
        ModBelow(cur, n);
      }
    }
  }

  /** The index wraps: forward from the last alternative is the original, back from the original the last. */
  lemma StepWraps(total: nat)
    ensures StepIndex(total, total, Next) == 0
    ensures StepIndex(0, total, Prev) == total
  {
    ModBelow(total, total + 1);
  }

  /** The reply has at least one alternative. */
  predicate HasAlternatives(m: Message) {
    m.alternatives.Some? && |m.alternatives.value| > 0
  }

  /** `a || b` on optional strings: `a` when it is present and non-empty. */
  function OrElse(a: Option<string>, b: string): (r: string)
    ensures a.Some? && a.value != [] ==> r == a.value
    ensures a.None? || a.value == [] ==> r == b
  {
    if a.Some? && a.value != [] then a.value else b
  }

  /** The text shown at index `k`: the original reply at 0, otherwise alternative `k`. */
  function ShownContent(m: Message, k: nat): (r: string)
    requires HasAlternatives(m) && k <= |m.alternatives.value|
  {
    if k == 0 then OrElse(m.originalContent, m.content) else m.alternatives.value[k - 1]
  }

  /** The reply showing index `k`. */
  function ShowAlternative(m: Message, k: nat): (r: Message)
    requires HasAlternatives(m) && k <= |m.alternatives.value|
    ensures r.(content := m.content, currentAlternativeIndex := m.currentAlternativeIndex) == m
    ensures k == 0 ==> r.content == OrElse(m.originalContent, m.content)
    ensures k > 0 ==> r.content == m.alternatives.value[k - 1]
    ensures r.currentAlternativeIndex == Some(k)
  {
    m.(content := ShownContent(m, k), currentAlternativeIndex := Some(k))
  }

  /** The message navigation acts on: the first turn end, when it has alternatives. */
  function NavTarget(ms: seq<Message>): (r: Option<nat>)
    ensures r.Some? ==> r.value < |ms| && HasAlternatives(ms[r.value]) && r == FirstTurnEnd(ms)
    ensures r.None? ==> FirstTurnEnd(ms).None? || !HasAlternatives(ms[FirstTurnEnd(ms).value])
  {
    match FirstTurnEnd(ms)
    case None => None
    case Some(t) => if HasAlternatives(ms[t]) then Some(t) else None
  }

  /** `currentAlternativeIndex || 0`. */
  function CurrentIndex(m: Message): nat {
    m.currentAlternativeIndex.GetOr(0)
  }

  /**
   * The updater of `navigateResponse`: the target reply steps its index in
   * the cycle and shows the text at the new index; without a target the
   * session is returned as it is.
   */
  function NavigateSession(s: ChatSession, dir: Direction): (r: ChatSession)
    ensures r == s.(messages := r.messages) && |r.messages| == |s.messages|
    ensures NavTarget(s.messages).None? ==> r == s
    ensures NavTarget(s.messages).Some? ==>
      forall i :: 0 <= i < |s.messages| && i != NavTarget(s.messages).value ==> r.messages[i] == s.messages[i]
    ensures NavTarget(s.messages).Some? ==>
      var t := NavTarget(s.messages).value;
      var k := StepIndex(CurrentIndex(s.messages[t]), |s.messages[t].alternatives.value|, dir);
      r.messages[t] == ShowAlternative(s.messages[t], k)
  {
    match NavTarget(s.messages)
    case None => s
    case Some(t) =>
      var m := s.messages[t];
      var k := StepIndex(CurrentIndex(m), |m.alternatives.value|, dir);
      s.(messages := s.messages[t := ShowAlternative(m, k)])
  }

  /** `navigateResponse`: the current session navigated. */
  function Navigated(st: ChatState, dir: Direction): (r: ChatState)
    ensures r == st.(sessions := r.sessions) && |r.sessions| == |st.sessions|
    ensures forall i :: 0 <= i < |st.sessions| ==>
      r.sessions[i] == if st.sessions[i].id == st.currentSessionId then NavigateSession(st.sessions[i], dir) else st.sessions[i]
  {
    UpdatedCurrent(st, s => NavigateSession(s, dir))
  }

  /**
   * A reply whose index is set, whose text is the one that index shows and
   * whose original text was recorded comes back unchanged from a step and
   * the opposite step.
   */
  lemma {:induction false} NavigateRoundTrip(s: ChatSession, dir: Direction)
    requires NavTarget(s.messages).Some?
    requires var m := s.messages[NavTarget(s.messages).value];
      && m.currentAlternativeIndex.Some? && m.currentAlternativeIndex.value <= |m.alternatives.value|
      && m.originalContent.Some? && m.originalContent.value != []
      && m.content == ShownContent(m, m.currentAlternativeIndex.value)
    ensures NavigateSession(NavigateSession(s, dir), Opposite(dir)) == s
  {
    var t := NavTarget(s.messages).value;
    var m := s.messages[t];
    var cur := m.currentAlternativeIndex.value;
    var n := |m.alternatives.value|;
    var s1 := NavigateSession(s, dir);
    FirstTurnEndSameRoles(s.messages, s1.messages);
    var m1 := s1.messages[t];
    assert NavTarget(s1.messages) == Some(t);
    StepRoundTrip(cur, n, dir);
    var s2 := NavigateSession(s1, Opposite(dir));
    assert s2.messages[t] == m;
    assert s2.messages == s.messages;
  }

  /**
   * Without a recorded original text the first reply is lost: with one
   * alternative, two forward steps show the alternative again instead of the
   * original answer.
   */
  lemma NavigateWithoutOriginalLosesReply()
    ensures var m := Message(Assistant, "first answer", None, None, 0, None, Some(["second answer"]), None, None);
      var s := ChatSession("s", "New Chat", 0, [m], None, None);
      var twice := NavigateSession(NavigateSession(s, Next), Next);
      twice.messages[0].content == "second answer" && twice.messages[0].currentAlternativeIndex == Some(0)
  {
    var m := Message(Assistant, "first answer", None, None, 0, None, Some(["second answer"]), None, None);
    var s := ChatSession("s", "New Chat", 0, [m], None, None);
    assert EndsAssistantTurn(s.messages, 0);
    var s1 := NavigateSession(s, Next);
    assert s1.messages[0].content == "second answer";
    assert EndsAssistantTurn(s1.messages, 0);
  }

  /** Every handler keeps the current session existing. */
  lemma HandlersKeepCurrent(st: ChatState, m: Message, dir: Direction)
    requires CurrentExists(st)
    ensures CurrentExists(MessageAdded(st, m))
    ensures CurrentExists(Navigated(st, dir))
  {
    UpdatedCurrentKeepsIds(st, s => AppendMessage(s, m));
    UpdatedCurrentKeepsIds(st, s => NavigateSession(s, dir));
  }

  /** The state cell of the hook; each method is one handler. */
  class Store {
    var state: ChatState

    /** The state restored at start-up. */
    constructor(saved: Saved, now: int)
      ensures state == Loaded(saved, now)
    {
      state := Loaded(saved, now);
    }

    method GetCurrentSession() returns (r: Option<ChatSession>)
      ensures r == CurrentSession(state)
    {
      r := CurrentSession(state);
    }

    method UpdateCurrentSession(f: ChatSession -> ChatSession)
      modifies this
      ensures state == UpdatedCurrent(old(state), f)
    {
      state := UpdatedCurrent(state, f);
    }

    method HandleCreateSession(name: Option<string>, model: Option<MistralModel>, id: string, now: int)
      returns (newId: string)
      modifies this
      ensures newId == id && state == Created(old(state), id, now, name, model)
    {
      state := Created(state, id, now, name, model);
      newId := id;
    }

    method HandleDeleteSession(id: string, freshId: string, now: int)
      modifies this
      ensures state == Deleted(old(state), id, freshId, now)
    {
      state := Deleted(state, id, freshId, now);
    }

    method HandleRenameSession(id: string, newName: string)
      modifies this
      ensures state == Renamed(old(state), id, newName)
    {
      state := Renamed(state, id, newName);
    }

    method HandleChangeModel(id: string, model: MistralModel)
      modifies this
      ensures state == ModelChanged(old(state), id, model)
    {
      state := ModelChanged(state, id, model);
    }

    method AddMessage(m: Message)
      modifies this
      ensures state == MessageAdded(old(state), m)
    {
      state := MessageAdded(state, m);
    }

    method NavigateResponse(dir: Direction)
      modifies this
      ensures state == Navigated(old(state), dir)
    {
      state := Navigated(state, dir);
    }
  }
}
