/** The passes over a decomposed action list: default durations, the conversation window,
    and rests between repeated work (agenttown-mcp/cmd/agenttown-mcp/tactical.go). */
module TacticalPasses {
  import opened Text

  datatype Value = Str(s: string) | Num(n: int) | Other
  type Params = map<string, Value>
  datatype PlannedAction = PlannedAction(action: string, params: Params, toolCallId: string)

  const REST_SEC: int := 1800
  const WORK_SEC: int := 5400
  const TALK_SEC: int := 3600
  const WORK_INTERACTIONS: set<string> := {"assemble", "sort_cargo", "dismantle", "debug", "inspect", "process"}

  function StringParam(p: Params, key: string): Option<string> {
    if key in p && p[key].Str? then Some(p[key].s) else None
  }

  predicate IsRest(a: PlannedAction) {
    a.action == "InteractSmartObject" && StringParam(a.params, "interaction") == Some("rest")
  }

  /** isWorkAction. */
  predicate IsWork(a: PlannedAction) {
    a.action == "work_shift"
    || (a.action == "InteractSmartObject" && StringParam(a.params, "interaction").Some? && StringParam(a.params, "interaction").value in WORK_INTERACTIONS)
  }

  predicate IsTalk(a: PlannedAction) { a.action == "speak_to" }

  predicate Timed(a: PlannedAction) { "duration" in a.params }

  function WithDuration(a: PlannedAction, sec: int): PlannedAction {
    a.(params := a.params["duration" := Num(sec)])
  }

  function RestFilled(a: PlannedAction): PlannedAction {
    if IsRest(a) && !Timed(a) then WithDuration(a, REST_SEC) else a
  }

  function WorkFilled(a: PlannedAction): PlannedAction {
    if IsWork(a) && !Timed(a) then WithDuration(a, WORK_SEC) else a
  }

  function TalkForced(a: PlannedAction): PlannedAction {
    if IsTalk(a) then WithDuration(a, TALK_SEC) else a
  }

  // ----- the in-place passes -----

  method FillDefaultDurationForRest(actions: array<PlannedAction>)
    modifies actions
    ensures forall k :: 0 <= k < actions.Length ==> actions[k] == RestFilled(old(actions[k]))
  {
    for i := 0 to actions.Length
      invariant forall k :: 0 <= k < i ==> actions[k] == RestFilled(old(actions[k]))
      invariant forall k :: i <= k < actions.Length ==> actions[k] == old(actions[k])
    {
      if !IsRest(actions[i]) || "duration" in actions[i].params {
        continue;
      }
      actions[i] := actions[i].(params := actions[i].params["duration" := Num(REST_SEC)]);
    }
  }

  method FillDefaultDurationForWork(actions: array<PlannedAction>)
    modifies actions
    ensures forall k :: 0 <= k < actions.Length ==> actions[k] == WorkFilled(old(actions[k]))
  {
    for i := 0 to actions.Length
      invariant forall k :: 0 <= k < i ==> actions[k] == WorkFilled(old(actions[k]))
      invariant forall k :: i <= k < actions.Length ==> actions[k] == old(actions[k])
    {
      if !IsWork(actions[i]) || "duration" in actions[i].params {
        continue;
      }
      actions[i] := actions[i].(params := actions[i].params["duration" := Num(WORK_SEC)]);
    }
  }

  method ForceConversationDuration(actions: array<PlannedAction>)
    modifies actions
    ensures forall k :: 0 <= k < actions.Length ==> actions[k] == TalkForced(old(actions[k]))
  {
    for i := 0 to actions.Length
      invariant forall k :: 0 <= k < i ==> actions[k] == TalkForced(old(actions[k]))
      invariant forall k :: i <= k < actions.Length ==> actions[k] == old(actions[k])
    {
      if actions[i].action != "speak_to" {
        continue;
      }
      actions[i] := actions[i].(params := actions[i].params["duration" := Num(TALK_SEC)]);
    }
  }

  // ----- rests between repeated work -----

  /** restSegmentBetweenWork; `pick` is the random draw. */
  function RestSegment(pick: int): (a: PlannedAction)
    ensures !IsWork(a) && Timed(a) && !IsTalk(a)
  {
    if pick == 0 then
      PlannedAction("exercise", map["exercise_type" := Str("stretch"), "duration" := Num(REST_SEC)], "")
    else if pick == 1 then
      PlannedAction("InteractSmartObject", map["semantic_group" := Str("bench"), "interaction" := Str("rest"), "duration" := Num(REST_SEC)], "")
    else
      PlannedAction("exercise", map["exercise_type" := Str("walk"), "duration" := Num(REST_SEC)], "")
  }

  predicate SameParam(a: Params, b: Params, key: string) {
    StringParam(a, key).Some? && StringParam(a, key) == StringParam(b, key)
  }

  /** The same work at the same place twice in a row. */
  predicate Repeats(a: PlannedAction, b: PlannedAction) {
    IsWork(a) && IsWork(b) && SameParam(a.params, b.params, "semantic_group") && SameParam(a.params, b.params, "interaction")
  }

  datatype Placed = Given(action: PlannedAction) | Inserted(action: PlannedAction)

  /** The list with its rests, each marked; `picks` holds a draw per position. */
  function Rested(actions: seq<PlannedAction>, picks: seq<int>): (out: seq<Placed>)
    requires |picks| >= |actions|
    ensures actions != [] ==> out != [] && Last(out) == Given(Last(actions))
  {
    if |actions| <= 1 then seq(|actions|, i requires 0 <= i < |actions| => Given(actions[i]))
    else Rested(actions[..|actions| - 1], picks) + Joint(actions[|actions| - 2], Last(actions), picks[|actions| - 2])
  }

  /** What the list grows by. */
  function Joint(a: PlannedAction, b: PlannedAction, pick: int): seq<Placed> {
    if Repeats(a, b) then [Inserted(RestSegment(pick)), Given(b)] else [Given(b)]
  }

  function Actions(out: seq<Placed>): (r: seq<PlannedAction>)
    ensures |r| == |out| && forall k :: 0 <= k < |out| ==> r[k] == out[k].action
  {
    seq(|out|, k requires 0 <= k < |out| => out[k].action)
  }

  function WithoutInserted(out: seq<Placed>): seq<PlannedAction> {
    if out == [] then []
    else WithoutInserted(out[..|out| - 1]) + (if Last(out).Given? then [Last(out).action] else [])
  }

  predicate NoRepeats(actions: seq<PlannedAction>) {
    forall k :: 0 < k < |actions| ==> !Repeats(actions[k - 1], actions[k])
  }

  /** How the list grows by its last action. */
  lemma RestedGrows(actions: seq<PlannedAction>, picks: seq<int>)
    requires |actions| > 1 && |picks| >= |actions|
    ensures var n, before := |actions|, Rested(actions[..|actions| - 1], picks);
            before != [] && Last(before) == Given(actions[n - 2])
            && Rested(actions, picks) == before + Joint(actions[n - 2], actions[n - 1], picks[n - 2])
  {
    hide Joint;
  }

  lemma JointOf(a: PlannedAction, b: PlannedAction, pick: int, placed: seq<Placed>)
    ensures placed + Joint(a, b, pick) ==
            (if Repeats(a, b) then placed + [Inserted(RestSegment(pick))] else placed) + [Given(b)]
  {
    hide Repeats, RestSegment;
  }

  lemma ActionsAppend(placed: seq<Placed>, p: Placed)
    ensures Actions(placed + [p]) == Actions(placed) + [p.action]
  {
  }

  lemma RestedOfOne(a: PlannedAction, picks: seq<int>)
    requires |picks| >= 1
    ensures Rested([a], picks) == [Given(a)]
  {
  }

  /** insertRestBetweenDuplicateWork. */
  method InsertRestBetweenDuplicateWork(actions: seq<PlannedAction>, picks: seq<int>) returns (out: seq<PlannedAction>)
    requires |picks| >= |actions|
    ensures out == Actions(Rested(actions, picks))
  {
    hide Repeats, RestSegment, Rested, Joint, Actions;
    if |actions| < 2 {
      RestedShort(actions, picks);
      return actions;
    }
    assert Actions([]) == [];
    ghost var placed: seq<Placed> := [];
    out := [];
    RestedOfOne(actions[0], picks);
    assert actions[..1] == [actions[0]] && [] + [Given(actions[0])] == [Given(actions[0])];
    for i := 0 to |actions| - 1
      invariant out == Actions(placed)
      invariant placed + [Given(actions[i])] == Rested(actions[..i + 1], picks)
    {
      var a := actions[i];
      out := out + [a];
      ActionsAppend(placed, Given(a));
      placed := placed + [Given(a)];
      NextRested(actions, picks, i, placed);
      if Repeats(a, actions[i + 1]) {
        out := out + [RestSegment(picks[i])];
        ActionsAppend(placed, Inserted(RestSegment(picks[i])));
        placed := placed + [Inserted(RestSegment(picks[i]))];
      }
    }
    assert actions[..|actions|] == actions;
    ActionsAppend(placed, Given(actions[|actions| - 1]));
    out := out + [actions[|actions| - 1]];
  }

  lemma NextRested(actions: seq<PlannedAction>, picks: seq<int>, i: nat, placed: seq<Placed>)
    requires i + 1 < |actions| <= |picks| && placed == Rested(actions[..i + 1], picks)
    ensures Rested(actions[..i + 2], picks) ==
            (if Repeats(actions[i], actions[i + 1]) then placed + [Inserted(RestSegment(picks[i]))] else placed)
            + [Given(actions[i + 1])]
  {
    hide Repeats, RestSegment, Rested, Joint;
    var upTo := actions[..i + 2];
    RestedGrows(upTo, picks);
    assert upTo[..i + 1] == actions[..i + 1];
    JointOf(actions[i], actions[i + 1], picks[i], placed);
  }

  /** No work is repeated in place without a rest between. */
  lemma {:induction false} RestsSeparate(actions: seq<PlannedAction>, picks: seq<int>)
    requires |picks| >= |actions|
    ensures NoRepeats(Actions(Rested(actions, picks)))
  {
    hide Repeats, RestSegment, Rested;
    var n := |actions|;
    if n <= 1 {
      RestedShort(actions, picks);
    } else {
      RestsSeparate(actions[..n - 1], picks);
      RestedGrows(actions, picks);
      WorkDoesNotRepeatRest(actions[n - 2], actions[n - 1], picks[n - 2]);
      var (before, out) := (Rested(actions[..n - 1], picks), Rested(actions, picks));
      assert Actions(out)[..|before|] == Actions(before);
      forall k | 0 < k < |out| ensures !Repeats(Actions(out)[k - 1], Actions(out)[k]) {
        if k < |before| {
          assert Actions(out)[k - 1] == Actions(before)[k - 1] && Actions(out)[k] == Actions(before)[k];
        }
      }
    }
  }

  lemma RestedShort(actions: seq<PlannedAction>, picks: seq<int>)
    requires |actions| <= 1 && |picks| >= |actions|
    ensures Actions(Rested(actions, picks)) == actions && WithoutInserted(Rested(actions, picks)) == actions
  {
    if |actions| == 1 {
      assert Rested(actions, picks)[..0] == [];
    }
  }

  lemma {:induction false} WithoutInsertedConcat(a: seq<Placed>, b: seq<Placed>)
    ensures WithoutInserted(a + b) == WithoutInserted(a) + WithoutInserted(b)
  {
    if b == [] {
      assert a + b == a;
    } else {
      WithoutInsertedConcat(a, b[..|b| - 1]);
      assert (a + b)[..|a + b| - 1] == a + b[..|b| - 1];
    }
  }

  lemma JointComesOut(before: seq<Placed>, a: PlannedAction, b: PlannedAction, pick: int)
    ensures WithoutInserted(before + Joint(a, b, pick)) == WithoutInserted(before) + [b]
  {
    hide Repeats, RestSegment;
    var joint := Joint(a, b, pick);
    WithoutInsertedConcat(before, joint);
    assert joint[..|joint| - 1] == [] || joint[..|joint| - 1] == [Inserted(RestSegment(pick))];
    assert [Inserted(RestSegment(pick))][..0] == [] && WithoutInserted([]) == [];
    assert WithoutInserted([Inserted(RestSegment(pick))]) == [];
    assert WithoutInserted(joint) == [] + [b];
  }

  /** Taking the rests out again gives the list back. */
  lemma {:induction false} RestsComeOut(actions: seq<PlannedAction>, picks: seq<int>)
    requires |picks| >= |actions|
    ensures WithoutInserted(Rested(actions, picks)) == actions
  {
    hide Repeats, RestSegment, Rested, WithoutInserted, Joint;
    var n := |actions|;
    if n <= 1 {
      RestedShort(actions, picks);
    } else {
      RestsComeOut(actions[..n - 1], picks);
      RestedGrows(actions, picks);
      JointComesOut(Rested(actions[..n - 1], picks), actions[n - 2], actions[n - 1], picks[n - 2]);
      assert actions == actions[..n - 1] + [actions[n - 1]];
    }
  }

  lemma {:induction false} GivenAreGiven(out: seq<Placed>, k: nat)
    requires k < |out| && out[k].Given?
    ensures out[k].action in WithoutInserted(out)
  {
    if k < |out| - 1 {
      GivenAreGiven(out[..|out| - 1], k);
    }
  }

  lemma WorkDoesNotRepeatRest(a: PlannedAction, b: PlannedAction, pick: int)
    ensures !Repeats(a, RestSegment(pick)) && !Repeats(RestSegment(pick), b) && Timed(RestSegment(pick))
  {
  }

  // ----- the passes together -----

  function Timings(a: PlannedAction): PlannedAction {
    TalkForced(WorkFilled(RestFilled(a)))
  }

  function TimedAll(actions: seq<PlannedAction>): (r: seq<PlannedAction>)
    ensures |r| == |actions| && forall k :: 0 <= k < |r| ==> r[k] == Timings(actions[k])
  {
    seq(|actions|, k requires 0 <= k < |actions| => Timings(actions[k]))
  }

  predicate Bounded(a: PlannedAction) {
    (IsWork(a) || IsRest(a) || IsTalk(a) ==> Timed(a)) && (IsTalk(a) ==> a.params["duration"] == Num(TALK_SEC))
  }

  /** A duration the model set survives on everything but conversations. */
  lemma TimingsBound(a: PlannedAction)
    ensures Bounded(Timings(a)) && Timings(a).action == a.action
    ensures forall key :: key != "duration" ==> (key in Timings(a).params <==> key in a.params)
    ensures forall key :: key in a.params && (key != "duration" || !IsTalk(a)) ==> Timings(a).params[key] == a.params[key]
  {
  }

  /** For every list the passes leave each work, rest and conversation with a duration, no
      work repeated in place without a rest between, and the given actions in their order
      once the rests are taken out again. */
  lemma PassesTogether(actions: seq<PlannedAction>, picks: seq<int>)
    requires |picks| >= |actions|
    ensures var placed := Rested(TimedAll(actions), picks);
            && (forall k :: 0 <= k < |placed| ==> Bounded(placed[k].action))
            && NoRepeats(Actions(placed))
            && WithoutInserted(placed) == TimedAll(actions)
  {
    hide Bounded, Timings, Repeats;
    var timed := TimedAll(actions);
    RestsSeparate(timed, picks);
    RestsComeOut(timed, picks);
    var placed := Rested(timed, picks);
    forall k | 0 <= k < |placed| ensures Bounded(placed[k].action) {
      if placed[k].Given? {
        GivenAreGiven(placed, k);
        var i :| 0 <= i < |timed| && timed[i] == placed[k].action;
        TimingsBound(actions[i]);
      } else {
        InsertedIsBounded(timed, picks, k);
      }
    }
  }

  lemma {:induction false} InsertedIsBounded(actions: seq<PlannedAction>, picks: seq<int>, k: nat)
    requires |picks| >= |actions| && k < |Rested(actions, picks)| && Rested(actions, picks)[k].Inserted?
    ensures Bounded(Rested(actions, picks)[k].action)
  {
    var n := |actions|;
    hide Repeats, Bounded, RestSegment, Rested, Joint;
    if n <= 1 {
      ShortIsGiven(actions, picks);
    } else {
      RestedGrows(actions, picks);
      var before := Rested(actions[..n - 1], picks);
      if k < |before| {
        InsertedIsBounded(actions[..n - 1], picks, k);
      } else {
        JointIsBounded(actions[n - 2], actions[n - 1], picks[n - 2], k - |before|);
      }
    }
  }

  lemma ShortIsGiven(actions: seq<PlannedAction>, picks: seq<int>)
    requires |actions| <= 1 && |picks| >= |actions|
    ensures forall k :: 0 <= k < |Rested(actions, picks)| ==> Rested(actions, picks)[k].Given?
  {
  }

  lemma JointIsBounded(a: PlannedAction, b: PlannedAction, pick: int, k: nat)
    requires k < |Joint(a, b, pick)| && Joint(a, b, pick)[k].Inserted?
    ensures Bounded(Joint(a, b, pick)[k].action)
  {
    hide Repeats;
  }

  /** The passes in the order tacticalDecompose runs them. */
  method PostProcess(actions: array<PlannedAction>, picks: seq<int>) returns (out: seq<PlannedAction>)
    requires |picks| >= actions.Length
    modifies actions
    ensures out == Actions(Rested(TimedAll(old(actions[..])), picks))
    ensures NoRepeats(out) && forall k :: 0 <= k < |out| ==> Bounded(out[k])
  {
    hide Rested, RestFilled, WorkFilled, TalkForced, Bounded, Repeats;
    ghost var given := actions[..];
    FillDefaultDurationForRest(actions);
    ghost var rested := actions[..];
    assert forall k :: 0 <= k < |given| ==> rested[k] == RestFilled(given[k]);
    FillDefaultDurationForWork(actions);
    ghost var worked := actions[..];
    assert forall k :: 0 <= k < |given| ==> worked[k] == WorkFilled(rested[k]);
    ForceConversationDuration(actions);
    assert actions[..] == TimedAll(given);
    out := InsertRestBetweenDuplicateWork(actions[..], picks);
    PassesTogether(given, picks);
  }

  // ----- the passes in numbers -----

  /** What an untimed action gets: half an hour of rest, an hour and a half of work, an hour of
      conversation; nothing else is timed, and a given duration stays on all but conversations. */
  lemma UntimedGets(a: PlannedAction)
    requires !Timed(a)
    ensures IsTalk(a) ==> Timings(a).params == a.params["duration" := Num(3600)]
    ensures IsRest(a) ==> Timings(a).params == a.params["duration" := Num(1800)]
    ensures IsWork(a) ==> Timings(a).params == a.params["duration" := Num(5400)]
    ensures !IsTalk(a) && !IsRest(a) && !IsWork(a) ==> Timings(a) == a
  {
    RestIsNoWork(a);
  }

  lemma TimedKeeps(a: PlannedAction)
    requires Timed(a)
    ensures Timings(a) == if a.action == "speak_to" then a.(params := a.params["duration" := Num(3600)]) else a
  {
  }

  lemma RestIsNoWork(a: PlannedAction)
    ensures !(IsRest(a) && IsWork(a)) && !(IsTalk(a) && (IsWork(a) || IsRest(a)))
  {
  }

  /** The interaction with an object is a rest or a kind of work by its name alone. */
  lemma InteractionDecides(p: Params, kind: string, toolCallId: string)
    requires "interaction" in p && p["interaction"] == Str(kind)
    ensures var a := PlannedAction("InteractSmartObject", p, toolCallId);
            && (IsRest(a) <==> kind == "rest")
            && (IsWork(a) <==> kind == "assemble" || kind == "sort_cargo" || kind == "dismantle" || kind == "debug"
                               || kind == "inspect" || kind == "process")
    ensures IsWork(PlannedAction("work_shift", p, toolCallId))
  {
  }

  /** Two jobs repeat exactly when both name the same place and the same interaction. */
  lemma RepeatsExactly(p: Params, q: Params, t: string, u: string)
    ensures var (a, b) := (PlannedAction("work_shift", p, t), PlannedAction("work_shift", q, u));
            Repeats(a, b) <==>
            forall key :: key in {"semantic_group", "interaction"} ==> key in p && p[key].Str? && key in q && q[key] == p[key]
    ensures forall a, b :: !IsWork(a) || !IsWork(b) ==> !Repeats(a, b)
  {
  }

  function Rests(out: seq<Placed>): nat {
    if out == [] then 0 else Rests(out[..|out| - 1]) + (if out[|out| - 1].Inserted? then 1 else 0)
  }

  function Repetitions(actions: seq<PlannedAction>): nat {
    if |actions| <= 1 then 0
    else Repetitions(actions[..|actions| - 1]) + (if Repeats(actions[|actions| - 2], actions[|actions| - 1]) then 1 else 0)
  }

  lemma {:induction false} RestsConcat(a: seq<Placed>, b: seq<Placed>)
    ensures Rests(a + b) == Rests(a) + Rests(b)
  {
    if b == [] {
      assert a + b == a;
    } else {
      RestsConcat(a, b[..|b| - 1]);
      assert (a + b)[..|a + b| - 1] == a + b[..|b| - 1];
    }
  }

  lemma RestsInJoint(a: PlannedAction, b: PlannedAction, pick: int)
    ensures Rests(Joint(a, b, pick)) == if Repeats(a, b) then 1 else 0
  {
    hide Repeats, RestSegment;
    var j := Joint(a, b, pick);
    assert j[..|j| - 1] == [] || j[..|j| - 1] == [Inserted(RestSegment(pick))];
    assert [Inserted(RestSegment(pick))][..0] == [] && Rests([]) == 0;
    assert Rests([Inserted(RestSegment(pick))]) == 1;
  }

  /** No more rests are inserted than there are repetitions. */
  lemma {:induction false} RestsAreNeeded(actions: seq<PlannedAction>, picks: seq<int>)
    requires |picks| >= |actions|
    ensures Rests(Rested(actions, picks)) == Repetitions(actions)
  {
    hide Repeats, RestSegment, Rested, Rests, Joint;
    var n := |actions|;
    if n <= 1 {
      ShortIsGiven(actions, picks);
      GivenIsNoRest(Rested(actions, picks));
    } else {
      RestsAreNeeded(actions[..n - 1], picks);
      RestedGrows(actions, picks);
      RestsConcat(Rested(actions[..n - 1], picks), Joint(actions[n - 2], actions[n - 1], picks[n - 2]));
      RestsInJoint(actions[n - 2], actions[n - 1], picks[n - 2]);
    }
  }

  lemma {:induction false} GivenIsNoRest(out: seq<Placed>)
    requires forall k :: 0 <= k < |out| ==> out[k].Given?
    ensures Rests(out) == 0
  {
    if out != [] {
      GivenIsNoRest(out[..|out| - 1]);
    }
  }

  /** What is inserted: half an hour of stretching, of rest on a bench, or of a walk. */
  lemma RestSegmentIs(pick: int)
    ensures var a := RestSegment(pick);
            && "duration" in a.params && a.params["duration"] == Num(1800) && a.toolCallId == ""
            && (IsRest(a) <==> pick == 1)
            && (pick != 1 ==> a.action == "exercise"
                              && StringParam(a.params, "exercise_type") == Some(if pick == 0 then "stretch" else "walk"))
            && (pick == 1 ==> StringParam(a.params, "semantic_group") == Some("bench"))
  {
  }
}
