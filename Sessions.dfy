/**
 * The list operations both chat stores apply to their sessions (`find` and
 * `findIndex` by id, a `map` that rewrites the sessions with a given id, a
 * `filter` that removes them) and the two updaters the store revisions share
 * word for word: `updateCurrentSession` and the one of `addMessage`.
 */
module Sessions {
  import opened Wrappers
  import opened Types
  import SessionName

  /** Some session in `ss` has identifier `id`. */
  predicate HasId(ss: seq<ChatSession>, id: string) {
    exists i :: 0 <= i < |ss| && ss[i].id == id
  }

  /** `ss.findIndex(s => s.id === id)` over `ss[from..]`: the first session with the id. */
  function FindFrom(ss: seq<ChatSession>, id: string, from: nat): (r: Option<nat>)
    decreases |ss| - from
    ensures r.Some? ==> from <= r.value < |ss| && ss[r.value].id == id
    ensures r.Some? ==> forall j :: from <= j < r.value ==> ss[j].id != id
    ensures r.None? ==> forall j :: from <= j < |ss| ==> ss[j].id != id
  {
    if from >= |ss| then None
    else if ss[from].id == id then Some(from)
    else FindFrom(ss, id, from + 1)
  }

  /** The position of the first session with identifier `id`, if any. */
  function FindSession(ss: seq<ChatSession>, id: string): (r: Option<nat>)
    ensures r.Some? ==> r.value < |ss| && ss[r.value].id == id
    ensures r.Some? ==> forall j :: 0 <= j < r.value ==> ss[j].id != id
    ensures r.None? <==> !HasId(ss, id)
  {
    FindFrom(ss, id, 0)
  }

  /** `ss.map(s => s.id === id ? f(s) : s)`. */
  function MapWhere(ss: seq<ChatSession>, id: string, f: ChatSession -> ChatSession): (r: seq<ChatSession>)
    ensures |r| == |ss|
    ensures forall i :: 0 <= i < |ss| ==> r[i] == if ss[i].id == id then f(ss[i]) else ss[i]
  {
    seq(|ss|, i requires 0 <= i < |ss| => if ss[i].id == id then f(ss[i]) else ss[i])
  }

  /** A `map` that matches no session leaves the list as it is. */
  lemma MapWhereNoMatch(ss: seq<ChatSession>, id: string, f: ChatSession -> ChatSession)
    requires !HasId(ss, id)
    ensures MapWhere(ss, id, f) == ss
  {
  }

  /** A `map` whose rewrite keeps identifiers keeps every identifier in place. */
  lemma MapWhereKeepsIds(ss: seq<ChatSession>, id: string, f: ChatSession -> ChatSession)
    requires forall s :: f(s).id == s.id
    ensures forall i :: 0 <= i < |ss| ==> MapWhere(ss, id, f)[i].id == ss[i].id
    ensures forall k :: HasId(MapWhere(ss, id, f), k) <==> HasId(ss, k)
  {
    var r := MapWhere(ss, id, f);
    forall k ensures HasId(r, k) <==> HasId(ss, k) {
      if HasId(ss, k) {
        var i :| 0 <= i < |ss| && ss[i].id == k;
        assert r[i].id == k;
      }
    }
  }

  /** `ss.filter(s => s.id !== id)`: the sessions without identifier `id`, in their order. */
  function Without(ss: seq<ChatSession>, id: string): (r: seq<ChatSession>)
    ensures |r| <= |ss|
    ensures forall i :: 0 <= i < |r| ==> r[i].id != id
    ensures forall s :: s in r <==> s in ss && s.id != id
  {
    if ss == [] then []
    else (if ss[0].id == id then [] else [ss[0]]) + Without(ss[1..], id)
  }

  /** Filtering out an identifier no session has keeps the list. */
  lemma {:induction false} WithoutNoMatch(ss: seq<ChatSession>, id: string)
    requires !HasId(ss, id)
    ensures Without(ss, id) == ss
  {
    if ss != [] {
      var tail := ss[1..];
      assert !HasId(tail, id) by {
        forall j | 0 <= j < |tail| ensures tail[j].id != id {
          assert tail[j] == ss[j + 1];
        }
      }
      WithoutNoMatch(tail, id);
      assert ss[0].id != id;
      assert ss == [ss[0]] + tail;
    }
  }

  /** `filter` distributes over concatenation, so it keeps the order and the repetitions of what it keeps. */
  lemma {:induction false} WithoutAppend(a: seq<ChatSession>, b: seq<ChatSession>, id: string)
    ensures Without(a + b, id) == Without(a, id) + Without(b, id)
  {
    if a != [] {
      assert (a + b)[1..] == a[1..] + b;
      WithoutAppend(a[1..], b, id);
    } else {
      assert a + b == b;
    }
  }

  /** The first session left by the filter is the first session of the list with another identifier. */
  lemma {:induction false} WithoutFirst(ss: seq<ChatSession>, id: string)
    requires Without(ss, id) != []
    ensures exists k ::
      && 0 <= k < |ss| && ss[k] == Without(ss, id)[0] && ss[k].id != id
      && forall j :: 0 <= j < k ==> ss[j].id == id
  {
    if ss[0].id == id {
      WithoutFirst(ss[1..], id);
      var k :|
        && 0 <= k < |ss[1..]| && ss[1..][k] == Without(ss[1..], id)[0] && ss[1..][k].id != id
        && forall j :: 0 <= j < k ==> ss[1..][j].id == id;
      assert ss[k + 1] == ss[1..][k];
      assert forall j :: 0 <= j < k + 1 ==> ss[j].id == id by {
        forall j | 0 < j < k + 1 ensures ss[j].id == id {
          assert ss[j] == ss[1..][j - 1];
        }
      }
    } else {
      assert ss[0] == Without(ss, id)[0];
    }
  }

  /** Filtering one more session appends it exactly when its identifier differs. */
  lemma WithoutSnoc(init: seq<ChatSession>, x: ChatSession, id: string)
    ensures Without(init + [x], id) == Without(init, id) + (if x.id == id then [] else [x])
  {
    WithoutAppend(init, [x], id);
    assert [x][1..] == [];
  }

  /** `k` is the position of the last session the filter keeps, and every later session has the filtered identifier. */
  ghost predicate LastKeptAt(ss: seq<ChatSession>, id: string, k: int)
    requires Without(ss, id) != []
  {
    && 0 <= k < |ss| && ss[k] == Without(ss, id)[|Without(ss, id)| - 1] && ss[k].id != id
    && forall j :: k < j < |ss| ==> ss[j].id == id
  }

  /** The last session left by the filter is the last session of the list with another identifier. */
  lemma {:induction false} WithoutLast(ss: seq<ChatSession>, id: string)
    requires Without(ss, id) != []
    ensures exists k :: LastKeptAt(ss, id, k)
    decreases |ss|, 1
  {
    var init := ss[..|ss| - 1];
    var x := ss[|ss| - 1];
    assert ss == init + [x];
    if x.id == id {
      WithoutLastSkipped(init, x, id);
    } else {
      WithoutSnoc(init, x, id);
      assert LastKeptAt(ss, id, |ss| - 1);
    }
  }

  /** A trailing session with the filtered identifier leaves the last kept session where it was. */
  lemma {:induction false} WithoutLastSkipped(init: seq<ChatSession>, x: ChatSession, id: string)
    requires x.id == id && Without(init + [x], id) != []
    ensures exists k :: LastKeptAt(init + [x], id, k)
    decreases |init| + 1, 0
  {
    var ss := init + [x];
    WithoutSnoc(init, x, id);
    assert Without(ss, id) == Without(init, id);
    WithoutLast(init, id);
    var k :| LastKeptAt(init, id, k);
    assert ss[k] == init[k];
    forall j | k < j < |ss| ensures ss[j].id == id {
      if j < |init| { assert ss[j] == init[j]; }
    }
    assert LastKeptAt(ss, id, k);
  }

  /** A session with another identifier survives the filter. */
  lemma WithoutKeepsOthers(ss: seq<ChatSession>, id: string, other: string)
    requires other != id && HasId(ss, other)
    ensures HasId(Without(ss, id), other)
  {
    var i :| 0 <= i < |ss| && ss[i].id == other;
    assert ss[i] in ss;
    var r := Without(ss, id);
    assert ss[i] in r;
    var j :| 0 <= j < |r| && r[j] == ss[i];
  }

  /** `updateCurrentSession`: `f` applied to the sessions whose id is the current one (the same code in both store revisions). */
  function UpdatedCurrent(st: ChatState, f: ChatSession -> ChatSession): (r: ChatState)
    ensures r == st.(sessions := r.sessions)
    ensures |r.sessions| == |st.sessions|
    ensures forall i :: 0 <= i < |st.sessions| ==>
      r.sessions[i] == if st.sessions[i].id == st.currentSessionId then f(st.sessions[i]) else st.sessions[i]
  {
    st.(sessions := MapWhere(st.sessions, st.currentSessionId, f))
  }

  /** The current id names an existing session. */
  predicate CurrentExists(st: ChatState) {
    HasId(st.sessions, st.currentSessionId)
  }

  /** An update that keeps identifiers keeps the current session existing, and the sessions non-empty. */
  lemma UpdatedCurrentKeepsIds(st: ChatState, f: ChatSession -> ChatSession)
    requires forall s :: f(s).id == s.id
    ensures forall i :: 0 <= i < |st.sessions| ==> UpdatedCurrent(st, f).sessions[i].id == st.sessions[i].id
    ensures CurrentExists(st) ==> CurrentExists(UpdatedCurrent(st, f))
  {
    MapWhereKeepsIds(st.sessions, st.currentSessionId, f);
  }

  /** An update while no session is current changes nothing. */
  lemma UpdatedCurrentDangling(st: ChatState, f: ChatSession -> ChatSession)
    requires !CurrentExists(st)
    ensures UpdatedCurrent(st, f) == st
  {
    MapWhereNoMatch(st.sessions, st.currentSessionId, f);
  }

  /**
   * The session with one more message: a user message sent into an empty
   * session also renames it after its content.
   */
  function AppendMessage(s: ChatSession, m: Message): (r: ChatSession)
    ensures r.messages == s.messages + [m]
    ensures r.name == if m.role == User && |s.messages| == 0 then SessionName.GenerateSessionName(m.content) else s.name
    ensures r == s.(messages := r.messages, name := r.name)
  {
    var updated := s.(messages := s.messages + [m]);
    if m.role == User && |s.messages| == 0
    then updated.(name := SessionName.GenerateSessionName(m.content))
    else updated
  }

  /** `addMessage`: the message appended to the current session (the same updater in both store revisions). */
  function MessageAdded(st: ChatState, m: Message): (r: ChatState)
    ensures r == st.(sessions := r.sessions) && |r.sessions| == |st.sessions|
    ensures forall i :: 0 <= i < |st.sessions| ==>
      r.sessions[i] == if st.sessions[i].id == st.currentSessionId then AppendMessage(st.sessions[i], m) else st.sessions[i]
  {
    UpdatedCurrent(st, s => AppendMessage(s, m))
  }

  /**
   * The first session with the current id afterwards is the first one
   * before, with the message appended.
   */
  lemma MessageAddedFindsAppended(st: ChatState, m: Message)
    requires CurrentExists(st)
    ensures CurrentExists(MessageAdded(st, m))
    ensures var r := MessageAdded(st, m);
      FindSession(r.sessions, r.currentSessionId) == FindSession(st.sessions, st.currentSessionId)
      && r.sessions[FindSession(r.sessions, r.currentSessionId).value]
         == AppendMessage(st.sessions[FindSession(st.sessions, st.currentSessionId).value], m)
  {
    var r := MessageAdded(st, m);
    UpdatedCurrentKeepsIds(st, s => AppendMessage(s, m));
    var k := FindSession(st.sessions, st.currentSessionId).value;
    var j := FindSession(r.sessions, r.currentSessionId).value;
    assert r.sessions[k].id == st.currentSessionId;
    assert j == k;
  }
}
