/** The race between the worker that records and arms a dispatched action
    (recordActionStarted, armActionTimeout) and the reader that handles its completion
    (recordActionCompletion), one step per critical section
    (agenttown-mcp/cmd/agenttown-mcp/main.go). Two locks, never nested. */
module ActionRace {
  import opened Text
  import opened AgentState

  // ----- the coordination fields -----

  /** The timers and the early completions, guarded by coordMu. */
  datatype Timers = Timers(armed: set<string>, early: set<string>)

  /** The bookkeeping of recordActionCompletion: stop the timer, or note that there is none yet. */
  function Noted(t: Timers, id: string, isSelfStop: bool): Timers {
    if id in t.armed then t.(armed := t.armed - {id})
    else if isSelfStop then t
    else t.(early := t.early + {id})
  }

  /** armActionTimeout: consume the early completion, or keep the timer. */
  function Armed(t: Timers, id: string): Timers {
    if id in t.early then t.(early := t.early - {id}) else t.(armed := t.armed + {id})
  }

  class Coordination {
    var pendingActionTimeouts: set<string>
    var completedBeforeArm: set<string>

    function View(): Timers
      reads this
    {
      Timers(pendingActionTimeouts, completedBeforeArm)
    }

    method NoteCompletion(id: string, isSelfStop: bool)
      modifies this
      ensures View() == Noted(old(View()), id, isSelfStop)
    {
      if id in pendingActionTimeouts {
        pendingActionTimeouts := pendingActionTimeouts - {id};
      } else if !isSelfStop {
        completedBeforeArm := completedBeforeArm + {id};
      }
    }

    method Arm(id: string)
      modifies this
      ensures View() == Armed(old(View()), id)
    {
      if id in completedBeforeArm {
        completedBeforeArm := completedBeforeArm - {id};
        return;
      }
      pendingActionTimeouts := pendingActionTimeouts + {id};
    }
  }

  // ----- the two threads -----

  datatype WorkerPc = Check | Record | Recheck | Untrack | Arm | WorkerDone
  datatype HandlerPc = Complete | Note | HandlerDone

  datatype Race = Race(agent: State, coord: Timers, w: WorkerPc, h: HandlerPc)

  datatype Thread = Worker | Handler

  /** One step of the chosen thread for a dispatched action; a finished thread stands still. */
  function Next(r: Race, a: Action, t: Thread): Race {
    match t
    case Worker => (
      match r.w
      case Check => r.(w := if a.id in r.coord.early then Arm else Record)
      case Record => r.(agent := Started(r.agent, a), w := Recheck)
      case Recheck => r.(w := if a.id in r.coord.early then Untrack else Arm)
      case Untrack => r.(agent := ClearedInFlight(r.agent, a.id), w := Arm)
      case Arm => r.(coord := Armed(r.coord, a.id), w := WorkerDone)
      case WorkerDone => r
    )
    case Handler => (
      match r.h
      case Complete => r.(agent := Completed(r.agent, a.id).0, h := Note)
      case Note => r.(coord := Noted(r.coord, a.id, false), h := HandlerDone)
      case HandlerDone => r
    )
  }

  /** The state after a schedule, a choice of thread for every step. */
  function After(r: Race, a: Action, schedule: seq<Thread>): Race {
    if schedule == [] then r else Next(After(r, a, schedule[..|schedule| - 1]), a, Last(schedule))
  }

  /** The worker records the action when its completion has already been handled once. */
  ghost predicate RecordsAfterCompletion(r: Race, a: Action, schedule: seq<Thread>) {
    exists k :: 0 <= k < |schedule| && schedule[k].Worker?
                && After(r, a, schedule[..k]).w.Record? && !After(r, a, schedule[..k]).h.Complete?
  }

  /** The worker rechecks while the completion is still to be noted. */
  ghost predicate RechecksBeforeNote(r: Race, a: Action, schedule: seq<Thread>) {
    exists k :: 0 <= k < |schedule| && schedule[k].Worker?
                && After(r, a, schedule[..k]).w.Recheck? && !After(r, a, schedule[..k]).h.HandlerDone?
  }

  /** A fresh action, about to be recorded, while its completion may already have arrived. */
  predicate Fresh(r: Race, a: Action) {
    && a.id != "" && r.w.Check? && r.h.Complete?
    && r.agent.cur.id != a.id && !Stashed(r.agent, a.id) && r.agent.selfStop != a.id
    && a.id !in r.coord.armed && a.id !in r.coord.early
  }

  /** What holds in every reachable state; `late` and `blind` record whether the action was
      recorded after its completion and rechecked before the note. */
  predicate Reachable(r: Race, a: Action, late: bool, blind: bool) {
    && a.id != "" && !Stashed(r.agent, a.id)
    && (a.id in r.coord.early <==> r.h.HandlerDone? && a.id !in r.coord.armed && !r.w.WorkerDone?)
    && (a.id in r.coord.armed <==> r.w.WorkerDone? && !r.h.HandlerDone?)
    && (late ==> !r.h.Complete? && !r.w.Check? && !r.w.Record?)
    && (blind ==> (r.w.Arm? || r.w.WorkerDone?))
    && (r.w.Check? || r.w.Record? ==> !late && r.agent.cur.id != a.id)
    && (r.w.Recheck? ==> !blind && (r.agent.cur.id == a.id <==> late || r.h.Complete?))
    && (r.w.Untrack? ==> !blind && r.h.HandlerDone? && (r.agent.cur.id == a.id <==> late))
    && (r.w.Arm? || r.w.WorkerDone? ==> (r.agent.cur.id == a.id <==> (late && blind) || (blind && r.h.Complete?)))
  }

  lemma StepStaysReachable(r: Race, a: Action, t: Thread, late: bool, blind: bool)
    requires Reachable(r, a, late, blind)
    ensures Reachable(Next(r, a, t), a,
                      late || (t.Worker? && r.w.Record? && !r.h.Complete?),
                      blind || (t.Worker? && r.w.Recheck? && !r.h.HandlerDone?))
  {
  }

  lemma {:induction false} AlwaysReachable(r: Race, a: Action, schedule: seq<Thread>)
    requires Fresh(r, a)
    ensures Reachable(After(r, a, schedule), a, RecordsAfterCompletion(r, a, schedule), RechecksBeforeNote(r, a, schedule))
  {
    if schedule != [] {
      var init, t := schedule[..|schedule| - 1], Last(schedule);
      AlwaysReachable(r, a, init);
      var s := After(r, a, init);
      StepStaysReachable(s, a, t, RecordsAfterCompletion(r, a, init), RechecksBeforeNote(r, a, init));
      assert schedule == init + [t];
      Grows(r, a, init, t);
    }
  }

  lemma Grows(r: Race, a: Action, init: seq<Thread>, t: Thread)
    ensures var (s, all) := (After(r, a, init), init + [t]);
            && (RecordsAfterCompletion(r, a, all) <==>
                RecordsAfterCompletion(r, a, init) || (t.Worker? && s.w.Record? && !s.h.Complete?))
            && (RechecksBeforeNote(r, a, all) <==>
                RechecksBeforeNote(r, a, init) || (t.Worker? && s.w.Recheck? && !s.h.HandlerDone?))
  {
    hide After;
    var all, n := init + [t], |init|;
    assert forall k :: 0 <= k <= n ==> all[..k] == init[..k];
    assert init[..n] == init && all[n] == t;
    assert forall k :: 0 <= k < n ==> all[k] == init[k];
  }

  /** Over every interleaving that lets both threads finish, no timer stays armed and no
      early completion stays noted; and the finished action stays tracked, holding up the
      queue, exactly when its completion ran before it was recorded and its note only after
      the recheck. */
  lemma EveryInterleaving(r: Race, a: Action, schedule: seq<Thread>)
    requires Fresh(r, a)
    requires After(r, a, schedule).w.WorkerDone? && After(r, a, schedule).h.HandlerDone?
    ensures var end := After(r, a, schedule);
            a.id !in end.coord.armed && a.id !in end.coord.early
            && (end.agent.cur.id == a.id <==>
                RecordsAfterCompletion(r, a, schedule) && RechecksBeforeNote(r, a, schedule))
  {
    AlwaysReachable(r, a, schedule);
  }

  /** The one schedule that strands the action. */
  lemma StrandingSchedule(r: Race, a: Action)
    requires Fresh(r, a)
    ensures var s := [Worker, Handler, Worker, Worker, Handler, Worker];
            var end := After(r, a, s);
            end.w.WorkerDone? && end.h.HandlerDone? && end.agent.cur == a && !CanPop(end.agent)
  {
    var s := [Worker, Handler, Worker, Worker, Handler, Worker];
    var r1 := Next(r, a, Worker);
    var r2 := Next(r1, a, Handler);
    var r3 := Next(r2, a, Worker);
    var r4 := Next(r3, a, Worker);
    var r5 := Next(r4, a, Handler);
    var r6 := Next(r5, a, Worker);
    assert s[..5] == [Worker, Handler, Worker, Worker, Handler] && s[..5][..4] == [Worker, Handler, Worker, Worker];
    assert s[..5][..4][..3] == [Worker, Handler, Worker] && [Worker, Handler, Worker][..2] == [Worker, Handler];
    assert [Worker, Handler][..1] == [Worker] && [Worker][..0] == [];
    assert After(r, a, [Worker]) == r1;
    assert After(r, a, [Worker, Handler]) == r2;
    assert After(r, a, [Worker, Handler, Worker]) == r3;
    assert After(r, a, [Worker, Handler, Worker, Worker]) == r4;
    assert After(r, a, [Worker, Handler, Worker, Worker, Handler]) == r5;
    assert After(r, a, s) == r6;
  }

  // ----- actions without a timeout -----

  datatype TimerOp = NoteOp(id: string, isSelfStop: bool) | ArmOp(id: string)

  function TimersAfter(t: Timers, ops: seq<TimerOp>): Timers {
    if ops == [] then t
    else
      var s := TimersAfter(t, ops[..|ops| - 1]);
      match Last(ops)
      case NoteOp(id, isSelfStop) => Noted(s, id, isSelfStop)
      case ArmOp(id) => Armed(s, id)
  }

  /** A composite action is never armed, so the note of its completion is never consumed:
      it is there at the end of every run that has its completion anywhere in it. */
  lemma {:induction false} CompositeNoteStays(t: Timers, ops: seq<TimerOp>, id: string)
    requires id !in t.armed && ArmOp(id) !in ops
    ensures id !in TimersAfter(t, ops).armed
    ensures id in TimersAfter(t, ops).early <==> id in t.early || NoteOp(id, false) in ops
  {
    if ops != [] {
      var init := ops[..|ops| - 1];
      assert ops == init + [Last(ops)];
      CompositeNoteStays(t, init, id);
    }
  }

  // ----- an action that completed before it was checked -----

  /** When the completion was noted before the worker looks, the action is never recorded, at
      any point of any schedule. */
  lemma {:induction false} NotedIsNotRecorded(r: Race, a: Action, schedule: seq<Thread>)
    requires a.id != "" && r.w.Check? && r.h.HandlerDone? && a.id in r.coord.early && a.id !in r.coord.armed
    ensures var end := After(r, a, schedule);
            && end.agent == r.agent && a.id !in end.coord.armed
            && (end.w.Check? || end.w.Arm? || end.w.WorkerDone?)
            && end.h.HandlerDone? && (a.id in end.coord.early <==> !end.w.WorkerDone?)
  {
    if schedule != [] {
      NotedIsNotRecorded(r, a, schedule[..|schedule| - 1]);
    }
  }
}
