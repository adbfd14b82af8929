/**
 * Index rules over the messages of a session: which message is the end of an
 * assistant turn, and the reverse-then-search idiom the components use to
 * find the last message with a given role.
 */
module Transcript {
  import opened Wrappers
  import opened Types

  /** `ms[i]` is an assistant message that is last or followed by a user message. */
  predicate EndsAssistantTurn(ms: seq<Message>, i: nat)
    requires i < |ms|
  {
    ms[i].role == Assistant && (i == |ms| - 1 || ms[i + 1].role == User)
  }

  /** `findIndex` of an assistant turn end in `ms[from..]`. */
  function FirstTurnEndFrom(ms: seq<Message>, from: nat): (r: Option<nat>)
    decreases |ms| - from
    ensures r.Some? ==> from <= r.value < |ms| && EndsAssistantTurn(ms, r.value)
    ensures r.Some? ==> forall j :: from <= j < r.value ==> !EndsAssistantTurn(ms, j)
    ensures r.None? ==> forall j :: from <= j < |ms| ==> !EndsAssistantTurn(ms, j)
  {
    if from >= |ms| then None
    else if EndsAssistantTurn(ms, from) then Some(from)
    else FirstTurnEndFrom(ms, from + 1)
  }

  /** The first assistant message that is last or followed by a user message. */
  function FirstTurnEnd(ms: seq<Message>): Option<nat> {
    FirstTurnEndFrom(ms, 0)
  }

  /** Turn ends depend on roles alone. */
  lemma {:induction false} FirstTurnEndFromSameRoles(ms: seq<Message>, ns: seq<Message>, from: nat)
    requires |ms| == |ns| && forall i :: 0 <= i < |ms| ==> ms[i].role == ns[i].role
    ensures FirstTurnEndFrom(ms, from) == FirstTurnEndFrom(ns, from)
    decreases |ms| - from
  {
    if from < |ms| {
      assert EndsAssistantTurn(ms, from) == EndsAssistantTurn(ns, from);
      FirstTurnEndFromSameRoles(ms, ns, from + 1);
    }
  }

  /** Two transcripts with the same roles have the same first turn end. */
  lemma FirstTurnEndSameRoles(ms: seq<Message>, ns: seq<Message>)
    requires |ms| == |ns| && forall i :: 0 <= i < |ms| ==> ms[i].role == ns[i].role
    ensures FirstTurnEnd(ms) == FirstTurnEnd(ns)
  {
    FirstTurnEndFromSameRoles(ms, ns, 0);
  }

  /** `[...s].reverse()`. */
  function Reverse<T>(s: seq<T>): (r: seq<T>)
    ensures |r| == |s|
    ensures forall k :: 0 <= k < |s| ==> r[k] == s[|s| - 1 - k]
  {
    if s == [] then [] else Reverse(s[1..]) + [s[0]]
  }

  /** `ms.findIndex(m => m.role === role)`, or -1. */
  function FindIndexByRole(ms: seq<Message>, role: Role): (r: int)
    ensures -1 <= r < |ms|
    ensures r >= 0 ==> ms[r].role == role && forall j :: 0 <= j < r ==> ms[j].role != role
    ensures r == -1 ==> forall j :: 0 <= j < |ms| ==> ms[j].role != role
  {
    if ms == [] then -1
    else if ms[0].role == role then 0
    else
      var k := FindIndexByRole(ms[1..], role);
      if k == -1 then -1 else k + 1
  }

  /** The greatest index of a message with `role`, or -1 when there is none. */
  ghost predicate IsLastOfRole(ms: seq<Message>, role: Role, r: int) {
    && -1 <= r < |ms|
    && (r >= 0 ==> ms[r].role == role)
    && (forall j :: r < j < |ms| ==> ms[j].role != role)
  }

  /**
   * The components' computation of the last index with a role: search the
   * reversed copy, and turn the position `k` found there back into `|ms| - 1 - k`.
   */
  function LastIndexOfRole(ms: seq<Message>, role: Role): (r: int)
    ensures IsLastOfRole(ms, role, r)
  {
    var rv := Reverse(ms);
    var k := FindIndexByRole(rv, role);
    assert forall j :: 0 <= j < |ms| ==> ms[j] == rv[|ms| - 1 - j];
    if k == -1 then -1 else |ms| - 1 - k
  }

  /** There is one such index, so any index with those properties is the one computed. */
  lemma LastIndexOfRoleUnique(ms: seq<Message>, role: Role, r: int)
    requires IsLastOfRole(ms, role, r)
    ensures LastIndexOfRole(ms, role) == r
  {
  }

  /** `[...ms].reverse().find(m => m.role === role)`: the last message with the role. */
  function LastOfRole(ms: seq<Message>, role: Role): (r: Option<Message>)
    ensures r.None? <==> forall j :: 0 <= j < |ms| ==> ms[j].role != role
    ensures r.Some? ==> r.value == ms[LastIndexOfRole(ms, role)]
  {
    var rv := Reverse(ms);
    var k := FindIndexByRole(rv, role);
    assert forall j :: 0 <= j < |ms| ==> ms[j] == rv[|ms| - 1 - j];
    if k == -1 then None else Some(rv[k])
  }
}
