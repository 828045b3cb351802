/** The in-flight action, its stash, the action queue and the deferred stop of one agent
    (agenttown-mcp/pkg/agentstate/agent_state.go). Each method is one critical section. */
module AgentState {
  import opened Text

  type Params = map<string, string>
  datatype Source = NoSource | Tool | Tactical
  datatype PlannedAction = PlannedAction(action: string, params: Params, toolCallId: string)

  /** A tracked action; an empty id means none. */
  datatype Action = Action(id: string, cmd: string, params: Params, start: int, src: Source, toolCallId: string)

  datatype CompletionResult = CompletionResult(wasInFlight: bool, wasPendingStop: bool, wasSelfStop: bool,
                                               src: Source, cmd: string, params: Params, start: int, toolCallId: string)

  const NO_ACTION: Action := Action("", "", map[], 0, NoSource, "")

  /** The state the methods below read and write. */
  datatype State = State(cur: Action, cleared: Option<Action>, queue: seq<PlannedAction>,
                         pendingStop: string, selfStop: string)

  const INITIAL: State := State(NO_ACTION, None, [], "", "")

  // ----- what each critical section does -----

  function Started(s: State, a: Action): State {
    s.(cur := a)
  }

  predicate Stashed(s: State, id: string) {
    s.cleared.Some? && s.cleared.value.id == id
  }

  /** RecordActionCompletion. */
  function Completed(s: State, id: string): (State, CompletionResult) {
    var inFlight := s.cur.id == id;
    var stashed := !inFlight && Stashed(s, id);
    var from := if inFlight then s.cur else if stashed then s.cleared.value else NO_ACTION;
    var cur := if inFlight then NO_ACTION else if stashed then s.cur.(src := NoSource) else s.cur;
    (s.(cur := cur,
        cleared := if stashed then None else s.cleared,
        pendingStop := if s.pendingStop == id then "" else s.pendingStop,
        selfStop := if s.selfStop == id then "" else s.selfStop),
     CompletionResult(inFlight || stashed, s.pendingStop == id, s.selfStop == id,
                      from.src, from.cmd, from.params, from.start, from.toolCallId))
  }

  /** ClearInFlightKeepQueue: the tracked action, if any, replaces the stash. */
  function ClearedKeepQueue(s: State): State {
    s.(cur := NO_ACTION, cleared := if s.cur.id != "" then Some(s.cur) else s.cleared)
  }

  /** ClearForSlotSwitch and ClearForReplan. */
  function ClearedForSlotSwitch(s: State): State {
    ClearedKeepQueue(s).(queue := [])
  }

  /** ClearInFlightAction: no stash; the tool call id stays behind. */
  function ClearedInFlight(s: State, id: string): State {
    if s.cur.id == id then s.(cur := NO_ACTION.(toolCallId := s.cur.toolCallId)) else s
  }

  function Stopped(s: State): State {
    s.(cur := NO_ACTION, cleared := None, queue := [])
  }

  predicate CanPop(s: State) {
    s.queue != [] && s.cur.id == ""
  }

  function Popped(s: State): State
    requires CanPop(s)
  {
    s.(queue := s.queue[1..], pendingStop := "")
  }

  // ----- the object -----

  class Agent {
    var currentActionID: string
    var currentActionCmd: string
    var currentActionParams: Params
    var currentActionStart: int
    var currentActionSrc: Source
    var currentActionToolCallID: string
    var clearedAction: Option<Action>
    var actionQueue: seq<PlannedAction>
    var pendingStopActionID: string
    var selfStopInProgress: string

    function View(): State
      reads this
    {
      State(Action(currentActionID, currentActionCmd, currentActionParams, currentActionStart, currentActionSrc, currentActionToolCallID),
            clearedAction, actionQueue, pendingStopActionID, selfStopInProgress)
    }

    constructor ()
      ensures View() == INITIAL
    {
      currentActionID, currentActionCmd, currentActionParams := "", "", map[];
      currentActionStart, currentActionSrc, currentActionToolCallID := 0, NoSource, "";
      clearedAction, actionQueue, pendingStopActionID, selfStopInProgress := None, [], "", "";
    }

    method RecordActionStarted(id: string, cmd: string, params: Params, now: int, src: Source, toolCallId: string)
      modifies this
      ensures View() == Started(old(View()), Action(id, cmd, params, now, src, toolCallId))
    {
      currentActionID := id;
      currentActionSrc := src;
      currentActionCmd := cmd;
      currentActionParams := params;
      currentActionStart := now;
      currentActionToolCallID := toolCallId;
    }

    method DropCurrent()
      modifies this
      ensures View() == old(View()).(cur := NO_ACTION)
    {
      currentActionID := "";
      currentActionCmd := "";
      currentActionParams := map[];
      currentActionStart := 0;
      currentActionSrc := NoSource;
      currentActionToolCallID := "";
    }

    method RecordActionCompletion(id: string) returns (res: CompletionResult)
      modifies this
      ensures (View(), res) == Completed(old(View()), id)
    {
      var wasInFlight := currentActionID == id;
      var cmd, params, start, src, toolCallId := "", map[], 0, NoSource, "";
      if wasInFlight {
        cmd := currentActionCmd;
        params := currentActionParams;
        start := currentActionStart;
        src := currentActionSrc;
        toolCallId := currentActionToolCallID;
        DropCurrent();
      } else if clearedAction.Some? && clearedAction.value.id == id {
        cmd := clearedAction.value.cmd;
        params := clearedAction.value.params;
        start := clearedAction.value.start;
        src := clearedAction.value.src;
        toolCallId := clearedAction.value.toolCallId;
        wasInFlight := true;
        clearedAction := None;
      }
      var wasPendingStop := pendingStopActionID == id;
      if wasPendingStop {
        pendingStopActionID := "";
      }
      var wasSelfStop := selfStopInProgress == id;
      if wasSelfStop {
        selfStopInProgress := "";
      }
      if wasInFlight {
        currentActionSrc := NoSource;
      }
      res := CompletionResult(wasInFlight, wasPendingStop, wasSelfStop, src, cmd, params, start, toolCallId);
    }

    method ClearInFlightAction(id: string)
      modifies this
      ensures View() == ClearedInFlight(old(View()), id)
    {
      if currentActionID == id {
        var t := currentActionToolCallID;
        DropCurrent();
        currentActionToolCallID := t;
      }
    }

    method ClearInFlightKeepQueue() returns (actionID: string, actionCmd: string, queueLen: nat)
      modifies this
      ensures View() == ClearedKeepQueue(old(View()))
      ensures actionID == old(currentActionID) && actionCmd == old(currentActionCmd) && queueLen == |old(actionQueue)|
    {
      actionID, actionCmd, queueLen := currentActionID, currentActionCmd, |actionQueue|;
      if currentActionID != "" {
        clearedAction := Some(Action(currentActionID, currentActionCmd, currentActionParams,
                                     currentActionStart, currentActionSrc, currentActionToolCallID));
      }
      DropCurrent();
    }

    method ClearForSlotSwitch() returns (actionID: string, actionCmd: string, queueLen: nat)
      modifies this
      ensures View() == ClearedForSlotSwitch(old(View()))
      ensures actionID == old(currentActionID) && actionCmd == old(currentActionCmd) && queueLen == |old(actionQueue)|
    {
      actionID, actionCmd, queueLen := ClearInFlightKeepQueue();
      actionQueue := [];
    }

    method Stop()
      modifies this
      ensures View() == Stopped(old(View()))
    {
      DropCurrent();
      actionQueue := [];
      clearedAction := None;
    }

    /** PopActionIfIdle: the head of the queue and the deferred stop, taken together. */
    method PopActionIfIdle() returns (action: Option<PlannedAction>, pendingStop: string)
      modifies this
      ensures action.Some? <==> CanPop(old(View()))
      ensures action.Some? ==> action.value == old(actionQueue)[0] && pendingStop == old(pendingStopActionID)
                               && View() == Popped(old(View()))
      ensures action.None? ==> View() == old(View()) && pendingStop == ""
    {
      if |actionQueue| == 0 || currentActionID != "" {
        return None, "";
      }
      action := Some(actionQueue[0]);
      actionQueue := actionQueue[1..];
      pendingStop := pendingStopActionID;
      pendingStopActionID := "";
    }

    method PrependAction(action: PlannedAction)
      modifies this
      ensures View() == old(View()).(queue := [action] + old(actionQueue))
    {
      actionQueue := [action] + actionQueue;
    }

    /** ReplaceQueue, RefillQueue and CommitReplan. */
    method ReplaceQueue(actions: seq<PlannedAction>)
      modifies this
      ensures View() == old(View()).(queue := actions)
    {
      actionQueue := actions;
    }

    method SetPendingStopActionID(id: string)
      modifies this
      ensures View() == old(View()).(pendingStop := id)
    {
      pendingStopActionID := id;
    }

    method SetSelfStopInProgress(id: string)
      modifies this
      ensures View() == old(View()).(selfStop := id)
    {
      selfStopInProgress := id;
    }
  }
}
