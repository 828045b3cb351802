/** Every run of the tracked-action bookkeeping: which completions are reported as in
    flight, and with whose record (agent_state.go). */
module ActionRuns {
  import opened Text
  import opened AgentState

  /** The critical sections that touch tracking; a timeout is a completion. */
  datatype Op =
    | Start(action: Action)
    | Complete(id: string)
    | ClearSlot
    | ClearKeep
    | ClearInFlight(id: string)
    | Offline
    | Other(queue: seq<PlannedAction>, pendingStop: string, selfStop: string)

  function Step(s: State, op: Op): State {
    match op
    case Start(a) => Started(s, a)
    case Complete(id) => Completed(s, id).0
    case ClearSlot => ClearedForSlotSwitch(s)
    case ClearKeep => ClearedKeepQueue(s)
    case ClearInFlight(id) => ClearedInFlight(s, id)
    case Offline => Stopped(s)
    case Other(q, p, f) => s.(queue := q, pendingStop := p, selfStop := f)
  }

  function Run(s: State, ops: seq<Op>): State
    decreases |ops|
  {
    if ops == [] then s else Run(Step(s, ops[0]), ops[1..])
  }

  // ----- counting along a run -----

  function One(b: bool): nat { if b then 1 else 0 }

  /** How many records of an id are tracked: as the current action and in the stash. */
  function Held(s: State, id: string): nat {
    One(s.cur.id == id) + One(Stashed(s, id))
  }

  predicate Reports(s: State, op: Op, id: string) {
    op.Complete? && op.id == id && Completed(s, id).1.wasInFlight
  }

  /** The records of an id an operation discards: overwritten by a start, pushed out of the
      stash, dropped without a stash, or dropped when the agent goes offline. */
  function Discards(s: State, op: Op, id: string): nat {
    match op
    case Start(_) => One(s.cur.id == id)
    case ClearSlot => One(s.cur.id != "" && Stashed(s, id))
    case ClearKeep => One(s.cur.id != "" && Stashed(s, id))
    case ClearInFlight(x) => One(x == id && s.cur.id == id)
    case Offline => Held(s, id)
    case _ => 0
  }

  function Starts(ops: seq<Op>, id: string): nat {
    if ops == [] then 0 else One(ops[0].Start? && ops[0].action.id == id) + Starts(ops[1..], id)
  }

  function Reported(s: State, ops: seq<Op>, id: string): nat
    decreases |ops|
  {
    if ops == [] then 0 else One(Reports(s, ops[0], id)) + Reported(Step(s, ops[0]), ops[1..], id)
  }

  function Discarded(s: State, ops: seq<Op>, id: string): nat
    decreases |ops|
  {
    if ops == [] then 0 else Discards(s, ops[0], id) + Discarded(Step(s, ops[0]), ops[1..], id)
  }

  lemma StepSettles(s: State, op: Op, id: string)
    requires id != ""
    ensures Held(s, id) + One(op.Start? && op.action.id == id)
         == One(Reports(s, op, id)) + Discards(s, op, id) + Held(Step(s, op), id)
  {
  }

  /** Every start of an id is reported by exactly one completion, discarded exactly once, or
      still tracked at the end: nothing is counted twice, nothing vanishes. */
  lemma {:induction false} EveryStartIsSettled(s: State, ops: seq<Op>, id: string)
    requires id != ""
    ensures Held(s, id) + Starts(ops, id) == Reported(s, ops, id) + Discarded(s, ops, id) + Held(Run(s, ops), id)
    decreases |ops|
  {
    hide Step, Reports, Discards, Held;
    if ops != [] {
      StepSettles(s, ops[0], id);
      EveryStartIsSettled(Step(s, ops[0]), ops[1..], id);
    }
  }

  lemma {:induction false} Append(s: State, ops: seq<Op>, op: Op, id: string)
    ensures Run(s, ops + [op]) == Step(Run(s, ops), op)
    ensures Starts(ops + [op], id) == Starts(ops, id) + One(op.Start? && op.action.id == id)
    ensures Reported(s, ops + [op], id) == Reported(s, ops, id) + One(Reports(Run(s, ops), op, id))
    ensures Discarded(s, ops + [op], id) == Discarded(s, ops, id) + Discards(Run(s, ops), op, id)
    decreases |ops|
  {
    hide Step, Reports, Discards;
    if ops == [] {
      assert [] + [op] == [op];
    } else {
      assert (ops + [op])[1..] == ops[1..] + [op];
      Append(Step(s, ops[0]), ops[1..], op, id);
    }
  }

  /** With a fresh id, whatever else happens, at most one completion is reported in flight;
      once its completion arrives, exactly one is, unless the record was discarded. */
  lemma ReportedOnce(s: State, ops: seq<Op>, id: string)
    requires id != "" && Held(s, id) == 0 && Starts(ops, id) <= 1
    ensures Reported(s, ops, id) <= 1
    ensures Starts(ops, id) == 1 ==>
              (Reported(s, ops + [Complete(id)], id) == 1 <==> Discarded(s, ops, id) == 0)
  {
    EveryStartIsSettled(s, ops, id);
    EveryStartIsSettled(s, ops + [Complete(id)], id);
    Append(s, ops, Complete(id), id);
  }

  // ----- whose record is reported -----

  /** Same action, source aside. */
  predicate SameRecord(a: Action, b: Action) {
    a.id == b.id && a.cmd == b.cmd && a.params == b.params && a.start == b.start && a.toolCallId == b.toolCallId
    && (a.src == b.src || a.src == NoSource)
  }

  predicate TracksOnly(s: State, a: Action) {
    (s.cur.id == a.id ==> SameRecord(s.cur, a)) && (Stashed(s, a.id) ==> SameRecord(s.cleared.value, a))
  }

  predicate StartsOnly(ops: seq<Op>, a: Action) {
    forall k :: 0 <= k < |ops| && ops[k].Start? && ops[k].action.id == a.id ==> ops[k].action == a
  }

  /** Every completion reported in flight for the id of `a` carries a's own cmd, params,
      start and tool call. */
  predicate ReportsOnly(s: State, ops: seq<Op>, a: Action)
    decreases |ops|
  {
    ops != [] ==>
      && (Reports(s, ops[0], a.id) ==>
            var r := Completed(s, a.id).1;
            r.cmd == a.cmd && r.params == a.params && r.start == a.start && r.toolCallId == a.toolCallId
            && (r.src == a.src || r.src == NoSource))
      && ReportsOnly(Step(s, ops[0]), ops[1..], a)
  }

  lemma StepTracksOnly(s: State, op: Op, a: Action)
    requires a.id != "" && TracksOnly(s, a) && (op.Start? && op.action.id == a.id ==> op.action == a)
    ensures TracksOnly(Step(s, op), a)
  {
  }

  lemma {:induction false} OwnRecord(s: State, ops: seq<Op>, a: Action)
    requires a.id != "" && TracksOnly(s, a) && StartsOnly(ops, a)
    ensures ReportsOnly(s, ops, a)
    decreases |ops|
  {
    if ops != [] {
      assert StartsOnly(ops[1..], a) by {
        assert forall k :: 0 <= k < |ops[1..]| ==> ops[1..][k] == ops[k + 1];
      }
      StepTracksOnly(s, ops[0], a);
      hide Step;
      OwnRecord(Step(s, ops[0]), ops[1..], a);
    }
  }

  /** The source is not always its own: a late completion of a stashed action blanks the
      source of whatever action is current by then. */
  lemma SourceIsLost(a: Action, b: Action)
    requires a.id != "" && b.id != "" && a.id != b.id
    ensures var s := Run(INITIAL, [Start(a), ClearKeep, Start(b), Complete(a.id)]);
            s.cur == b.(src := NoSource) && Completed(s, b.id).1.wasInFlight && Completed(s, b.id).1.src == NoSource
  {
    var ops := [Start(a), ClearKeep, Start(b), Complete(a.id)];
    var s1 := Step(INITIAL, ops[0]);
    var s2 := Step(s1, ops[1]);
    var s3 := Step(s2, ops[2]);
    var s4 := Step(s3, ops[3]);
    assert s4.cur == b.(src := NoSource);
    assert Run(INITIAL, ops) == Run(s1, ops[1..]) && Run(s1, ops[1..]) == Run(s2, ops[1..][1..]);
    assert Run(s2, ops[2..]) == Run(s3, ops[2..][1..]) && Run(s3, ops[3..]) == Run(s4, ops[3..][1..]);
    assert ops[1..][1..] == ops[2..] && ops[2..][1..] == ops[3..] && ops[3..][1..] == [];
  }

  /** The current action stays tracked throughout. */
  predicate StaysCurrent(s: State, ops: seq<Op>)
    decreases |ops|
  {
    ops != [] ==>
      !ops[0].Start? && Step(s, ops[0]).cur.id == s.cur.id && StaysCurrent(Step(s, ops[0]), ops[1..])
  }

  /** Exactly this does it: over every run in which an action stays tracked, its record is
      kept but for the source, and the source is lost if and only if the action stashed when
      the run began completes during it. */
  lemma {:induction false} SourceLostExactly(s: State, ops: seq<Op>)
    requires s.cur.id != "" && !Stashed(s, s.cur.id) && StaysCurrent(s, ops)
    ensures Run(s, ops).cur == s.cur || Run(s, ops).cur == s.cur.(src := NoSource)
    ensures s.cur.src != NoSource ==>
              (Run(s, ops).cur.src == NoSource <==> s.cleared.Some? && Complete(s.cleared.value.id) in ops)
    decreases |ops|
  {
    if ops != [] {
      assert ops == [ops[0]] + ops[1..];
      StepWhileCurrent(s, ops[0]);
      hide Step;
      SourceLostExactly(Step(s, ops[0]), ops[1..]);
    }
  }

  lemma StepWhileCurrent(s: State, op: Op)
    requires s.cur.id != "" && !Stashed(s, s.cur.id) && !op.Start? && Step(s, op).cur.id == s.cur.id
    ensures var (next, hit) := (Step(s, op), op.Complete? && Stashed(s, op.id));
            && next.cur == (if hit then s.cur.(src := NoSource) else s.cur)
            && next.cleared == (if hit then None else s.cleared)
  {
  }

  // ----- what stays behind -----

  /** Untracking without a stash leaves the tool call of the action behind, until the next
      start or stashing clear; only its own id untracks an action. */
  lemma ToolCallStays(s: State, id: string, a: Action)
    requires s.cur.id != ""
    ensures var r := Step(s, ClearInFlight(id));
            if id == s.cur.id then
              r.cur == Action("", "", map[], 0, NoSource, s.cur.toolCallId) && r.cleared == s.cleared && r.queue == s.queue
            else r == s
    ensures Step(Step(s, ClearInFlight(id)), Start(a)).cur == a
    ensures Step(Step(s, ClearInFlight(id)), ClearKeep).cur == NO_ACTION
  {
  }
}
