/** The queue path: the worker pops an action and its deferred stop, sends the stop, and
    dispatches the action, while other threads replace, clear and complete
    (popAndSendQueueAction in agenttown-mcp/cmd/agenttown-mcp/main.go). */
module QueuePath {
  import opened Text
  import opened AgentState
  import ActionRuns

  /** What became of an action placed in the queue. */
  datatype Fate = Waiting | InHand | Dispatched | Rejected | Lost | Dropped

  /** The worker between its steps; `stop` is a deferred stop taken and not yet sent. Once it
      is sent it is still to be marked as the worker's own. After a failed dispatch the source
      of the tracked action has been read before the worker puts its own back. */
  datatype Worker = Idle | Holding(tag: nat, stop: string) | Marking(tag: nat, sent: string) | Returning(tag: nat)

  datatype Outcome = MappingRejected | Acknowledged(action: Action) | SendFailed

  datatype Event =
    | Replace(actions: seq<PlannedAction>)  // ReplaceQueue, RefillQueue, CommitReplan
    | ClearSlot
    | ClearKeep
    | ClearInFlight(id: string)
    | Offline
    | Complete(id: string)
    | SetPendingStop(id: string)
    | StartElsewhere(action: Action)        // an action dispatched by a tool call
    | Pop
    | SendStop
    | MarkStop                              // SetSelfStopInProgress
    | Resolve(outcome: Outcome)
    | PutBack                               // PrependAction

  /** The agent, every action ever placed with its fate, the queue as positions in that
      list, and the order in which actions were dispatched. */
  datatype Sys = Sys(st: State, placed: seq<PlannedAction>, fate: seq<Fate>, tags: seq<nat>,
                     worker: Worker, dispatched: seq<nat>)

  predicate Enabled(s: Sys, e: Event) {
    match e
    case Pop => s.worker.Idle? && CanPop(s.st) && s.tags != []
    case SendStop => s.worker.Holding? && s.worker.stop != ""
    case MarkStop => s.worker.Marking?
    case Resolve(_) => s.worker.Holding? && s.worker.stop == "" && s.worker.tag < |s.placed| && |s.fate| == |s.placed|
    case PutBack => s.worker.Returning? && s.worker.tag < |s.placed| && |s.fate| == |s.placed|
    case _ => true
  }

  function DropWaiting(fate: seq<Fate>): (r: seq<Fate>)
    ensures |r| == |fate|
    ensures forall t :: 0 <= t < |fate| ==> r[t] == if fate[t].Waiting? then Dropped else fate[t]
  {
    seq(|fate|, t requires 0 <= t < |fate| => if fate[t].Waiting? then Dropped else fate[t])
  }

  function TagsFrom(n: nat, m: nat): (r: seq<nat>)
    ensures |r| == m
    ensures forall k :: 0 <= k < m ==> r[k] == n + k
  {
    seq(m, i requires 0 <= i => n + i)
  }

  function Step(s: Sys, e: Event): Sys
    requires Enabled(s, e)
  {
    match e
    case Replace(actions) =>
      s.(st := s.st.(queue := actions),
         placed := s.placed + actions,
         fate := DropWaiting(s.fate) + seq(|actions|, _ => Waiting),
         tags := TagsFrom(|s.placed|, |actions|))
    case ClearSlot => s.(st := ClearedForSlotSwitch(s.st), fate := DropWaiting(s.fate), tags := [])
    case ClearKeep => s.(st := ClearedKeepQueue(s.st))
    case ClearInFlight(id) => s.(st := ClearedInFlight(s.st, id))
    case Offline => s.(st := Stopped(s.st), fate := DropWaiting(s.fate), tags := [])
    case Complete(id) => s.(st := Completed(s.st, id).0)
    case SetPendingStop(id) => s.(st := s.st.(pendingStop := id))
    case StartElsewhere(a) => s.(st := Started(s.st, a))
    case Pop =>
      var t := s.tags[0];
      s.(st := Popped(s.st), tags := s.tags[1..],
         fate := if t < |s.fate| then s.fate[t := InHand] else s.fate,
         worker := Holding(t, s.st.pendingStop))
    case SendStop => s.(worker := Marking(s.worker.tag, s.worker.stop))
    case MarkStop => s.(st := s.st.(selfStop := s.worker.sent), worker := Holding(s.worker.tag, ""))
    case Resolve(outcome) =>
      var t := s.worker.tag;
      var done := s.(worker := Idle);
      (match outcome
       case MappingRejected => done.(fate := s.fate[t := Rejected])
       case Acknowledged(a) =>
         done.(st := Started(s.st, a), fate := s.fate[t := Dispatched], dispatched := s.dispatched + [t])
       case SendFailed =>
         if s.st.cur.src == Tactical then s.(worker := Returning(t)) else done.(fate := s.fate[t := Lost]))
    case PutBack =>
      var t := s.worker.tag;
      s.(worker := Idle, st := s.st.(queue := [s.placed[t]] + s.st.queue), tags := [t] + s.tags, fate := s.fate[t := Waiting])
  }

  // ----- the invariant -----

  predicate Ascending(tags: seq<nat>) {
    forall i, j :: 0 <= i < j < |tags| ==> tags[i] < tags[j]
  }

  /** What the invariant speaks of; `held` is the action in the worker's hand. */
  datatype Line = Line(placed: seq<PlannedAction>, fate: seq<Fate>, tags: seq<nat>, queue: seq<PlannedAction>,
                       held: Option<nat>, dispatched: seq<nat>)

  function LineOf(s: Sys): Line {
    Line(s.placed, s.fate, s.tags, s.st.queue, if s.worker.Idle? then None else Some(s.worker.tag), s.dispatched)
  }

  /** The queue is the waiting actions in placement order, the action in hand is older than
      all of them, and everything dispatched is older still, in order. */
  predicate Arranged(l: Line) {
    && |l.fate| == |l.placed| && |l.tags| == |l.queue|
    && Ascending(l.tags) && Ascending(l.dispatched)
    && (forall k :: 0 <= k < |l.tags| ==> l.tags[k] < |l.placed| && l.queue[k] == l.placed[l.tags[k]])
    && (forall t :: 0 <= t < |l.fate| ==> (l.fate[t].Waiting? <==> t in l.tags))
    && (forall t :: 0 <= t < |l.fate| ==> (l.fate[t].InHand? <==> l.held == Some(t)))
    && (forall t :: 0 <= t < |l.fate| ==> (l.fate[t].Dispatched? <==> t in l.dispatched))
    && (forall k :: 0 <= k < |l.dispatched| ==> l.dispatched[k] < |l.placed|)
    && (forall i, k :: 0 <= i < |l.dispatched| && 0 <= k < |l.tags| ==> l.dispatched[i] < l.tags[k])
    && (l.held.Some? ==>
          && l.held.value < |l.placed|
          && (forall k :: 0 <= k < |l.tags| ==> l.held.value < l.tags[k])
          && (forall k :: 0 <= k < |l.dispatched| ==> l.dispatched[k] < l.held.value))
  }

  predicate Good(s: Sys) {
    Arranged(LineOf(s))
  }

  lemma Lengths(l: Line)
    requires Arranged(l)
    ensures |l.fate| == |l.placed| && |l.tags| == |l.queue| && (l.held.Some? ==> l.held.value < |l.placed|)
    ensures forall k :: 0 <= k < |l.tags| ==> l.tags[k] < |l.placed|
  {
  }

  lemma TagsFromAscend(n: nat, m: nat)
    ensures Ascending(TagsFrom(n, m)) && forall t :: t in TagsFrom(n, m) <==> n <= t < n + m
  {
    forall t | n <= t < n + m ensures t in TagsFrom(n, m) {
      assert TagsFrom(n, m)[t - n] == t;
    }
  }

  /** Everything waiting is dropped, and `m` new actions are placed behind the `n` old ones. */
  lemma RenewedKeeps(l: Line, r: Line, n: nat, m: nat)
    requires Arranged(l) && n == |l.placed| && r.held == l.held && r.dispatched == l.dispatched
    requires |r.placed| == n + m == |r.fate| && |r.queue| == m && r.tags == TagsFrom(n, m)
    requires forall k :: 0 <= k < m ==> r.queue[k] == r.placed[n + k]
    requires forall t :: 0 <= t < n ==> r.fate[t] == if l.fate[t].Waiting? then Dropped else l.fate[t]
    requires forall t :: n <= t < n + m ==> r.fate[t].Waiting?
    ensures Arranged(r)
  {
    TagsFromAscend(n, m);
    hide Ascending, TagsFrom;
    assert forall t :: n <= t < n + m ==> t !in l.dispatched;
  }

  lemma ReplaceKeeps(s: Sys, actions: seq<PlannedAction>)
    requires Good(s)
    ensures Good(Step(s, Replace(actions)))
  {
    hide Arranged, TagsFrom;
    Lengths(LineOf(s));
    RenewedKeeps(LineOf(s), LineOf(Step(s, Replace(actions))), |s.placed|, |actions|);
  }

  lemma DropKeeps(l: Line)
    requires Arranged(l)
    ensures Arranged(l.(fate := DropWaiting(l.fate), tags := [], queue := []))
  {
  }

  lemma TailTags(tags: seq<nat>)
    requires tags != [] && Ascending(tags)
    ensures Ascending(tags[1..])
    ensures forall x :: x in tags <==> x == tags[0] || x in tags[1..]
    ensures forall x :: x in tags[1..] ==> tags[0] < x
  {
    assert tags == [tags[0]] + tags[1..];
  }

  lemma PopKeeps(l: Line)
    requires Arranged(l) && l.tags != [] && l.held == None
    ensures l.tags[0] < |l.fate|
    ensures Arranged(l.(tags := l.tags[1..], queue := l.queue[1..], fate := l.fate[l.tags[0] := InHand], held := Some(l.tags[0])))
  {
    var t := l.tags[0];
    TailTags(l.tags);
    assert l.fate[t].Waiting? by {
      assert t in l.tags;
    }
    hide Ascending;
  }

  lemma SettleKeeps(l: Line, f: Fate)
    requires Arranged(l) && l.held.Some? && (f.Rejected? || f.Lost?)
    ensures l.held.value < |l.fate| && Arranged(l.(held := None, fate := l.fate[l.held.value := f]))
  {
    hide Ascending;
  }

  lemma LastTag(tags: seq<nat>, t: nat)
    requires Ascending(tags) && forall k :: 0 <= k < |tags| ==> tags[k] < t
    ensures Ascending(tags + [t])
    ensures forall x :: x in tags + [t] <==> x in tags || x == t
  {
  }

  lemma FirstTag(tags: seq<nat>, t: nat)
    requires Ascending(tags) && forall k :: 0 <= k < |tags| ==> t < tags[k]
    ensures Ascending([t] + tags)
    ensures forall x :: x in [t] + tags <==> x in tags || x == t
  {
  }

  lemma DispatchKeeps(l: Line)
    requires Arranged(l) && l.held.Some?
    ensures var t := l.held.value;
            t < |l.fate| && Arranged(l.(held := None, fate := l.fate[t := Dispatched], dispatched := l.dispatched + [t]))
  {
    LastTag(l.dispatched, l.held.value);
    hide Ascending;
  }

  lemma PutBackKeeps(l: Line)
    requires Arranged(l) && l.held.Some?
    ensures var t := l.held.value;
            t < |l.fate| == |l.placed|
            && Arranged(l.(held := None, fate := l.fate[t := Waiting], tags := [t] + l.tags, queue := [l.placed[t]] + l.queue))
  {
    FirstTag(l.tags, l.held.value);
    hide Ascending;
  }

  lemma StepKeeps(s: Sys, e: Event)
    requires Good(s) && Enabled(s, e)
    ensures Good(Step(s, e))
  {
    hide Arranged, DropWaiting, TagsFrom;
    var l := LineOf(s);
    match e
    case Replace(actions) => ReplaceKeeps(s, actions);
    case ClearSlot => DropKeeps(l);
    case Offline => DropKeeps(l);
    case Pop => PopKeeps(l);
    case Resolve(outcome) => {
      match outcome
      case MappingRejected => SettleKeeps(l, Rejected);
      case Acknowledged(_) => DispatchKeeps(l);
      case SendFailed => SettleKeeps(l, Lost);
    }
    case PutBack => PutBackKeeps(l);
    case _ => assert LineOf(Step(s, e)) == l;
  }

  // ----- runs -----

  const START: Sys := Sys(INITIAL, [], [], [], Idle, [])

  predicate Runs(s: Sys, events: seq<Event>)
    decreases |events|
  {
    events == [] || (Enabled(s, events[0]) && Runs(Step(s, events[0]), events[1..]))
  }

  function After(s: Sys, events: seq<Event>): Sys
    requires Runs(s, events)
    decreases |events|
  {
    if events == [] then s else After(Step(s, events[0]), events[1..])
  }

  lemma {:induction false} RunKeeps(s: Sys, events: seq<Event>)
    requires Good(s) && Runs(s, events)
    ensures Good(After(s, events))
    decreases |events|
  {
    hide Step, Good, Enabled;
    if events != [] {
      StepKeeps(s, events[0]);
      RunKeeps(Step(s, events[0]), events[1..]);
    }
  }

  predicate Settled(f: Fate) { f.Dispatched? || f.Rejected? || f.Lost? || f.Dropped? }

  /** An action leaves the queue path once: a settled fate never changes. */
  lemma {:induction false} FateIsFinal(s: Sys, events: seq<Event>, t: nat)
    requires Good(s) && Runs(s, events) && t < |s.fate| && Settled(s.fate[t])
    ensures t < |After(s, events).fate| && After(s, events).fate[t] == s.fate[t] && s.placed <= After(s, events).placed
    decreases |events|
  {
    if events != [] {
      var e := events[0];
      StepKeeps(s, e);
      SettledStays(s, e, t);
      hide Step, Good, Enabled, Settled;
      FateIsFinal(Step(s, e), events[1..], t);
    }
  }

  lemma SettledStays(s: Sys, e: Event, t: nat)
    requires Good(s) && Enabled(s, e) && t < |s.fate| && Settled(s.fate[t])
    ensures var r := Step(s, e); t < |r.fate| && r.fate[t] == s.fate[t] && s.placed <= r.placed
  {
    hide Arranged, TagsFrom, DropWaiting;
    NotInQueue(LineOf(s), t);
    Lengths(LineOf(s));
    var dropped := DropWaiting(s.fate);
    assert dropped[t] == s.fate[t];
    if e.Pop? {
      assert s.tags[0] in s.tags;
    }
  }

  lemma NotInQueue(l: Line, t: nat)
    requires Arranged(l) && t < |l.fate| && Settled(l.fate[t])
    ensures t !in l.tags && l.held != Some(t)
  {
    hide Ascending;
  }

  /** The queue path over every run: each placed action is in exactly one place, the queue
      holds the waiting ones in placement order, and dispatch follows placement order. */
  lemma QueueIsConserved(events: seq<Event>)
    requires Runs(START, events)
    ensures var s := After(START, events);
            && |s.fate| == |s.placed| && Ascending(s.tags) && Ascending(s.dispatched)
            && |s.tags| == |s.st.queue|
            && (forall k :: 0 <= k < |s.tags| ==> s.tags[k] < |s.placed| && s.st.queue[k] == s.placed[s.tags[k]])
            && (forall t :: 0 <= t < |s.fate| ==> (s.fate[t].Waiting? <==> t in s.tags))
            && (forall t :: 0 <= t < |s.fate| ==> (s.fate[t].Dispatched? <==> t in s.dispatched))
            && (forall t :: 0 <= t < |s.fate| ==> (s.fate[t].InHand? <==> !s.worker.Idle? && s.worker.tag == t))
  {
    RunKeeps(START, events);
  }

  // ----- the deferred stop -----

  function One(b: bool): nat { if b then 1 else 0 }

  /** How often an id waits to be stopped: set and not popped, or popped and not sent. */
  function Owed(s: Sys, id: string): nat {
    One(s.st.pendingStop == id) + One(s.worker.Holding? && s.worker.stop == id)
  }

  predicate Sends(s: Sys, e: Event, id: string) {
    e.SendStop? && s.worker.Holding? && s.worker.stop == id
  }

  /** A request forgotten: its completion came while it was set, or another replaced it. */
  predicate Forgets(s: Sys, e: Event, id: string) {
    s.st.pendingStop == id && (e.SetPendingStop? || (e.Complete? && e.id == id))
  }

  function Requests(events: seq<Event>, id: string): nat {
    if events == [] then 0 else One(events[0].SetPendingStop? && events[0].id == id) + Requests(events[1..], id)
  }

  function Sent(s: Sys, events: seq<Event>, id: string): nat
    requires Runs(s, events)
    decreases |events|
  {
    if events == [] then 0 else One(Sends(s, events[0], id)) + Sent(Step(s, events[0]), events[1..], id)
  }

  function Forgotten(s: Sys, events: seq<Event>, id: string): nat
    requires Runs(s, events)
    decreases |events|
  {
    if events == [] then 0 else One(Forgets(s, events[0], id)) + Forgotten(Step(s, events[0]), events[1..], id)
  }

  lemma StepSettlesStop(s: Sys, e: Event, id: string)
    requires id != "" && Enabled(s, e)
    ensures Owed(s, id) + One(e.SetPendingStop? && e.id == id)
         == One(Sends(s, e, id)) + One(Forgets(s, e, id)) + Owed(Step(s, e), id)
  {
  }

  /** Every request to stop an id is sent once, forgotten once, or still owed. */
  lemma {:induction false} StopsAreConserved(s: Sys, events: seq<Event>, id: string)
    requires id != "" && Runs(s, events)
    ensures Owed(s, id) + Requests(events, id) == Sent(s, events, id) + Forgotten(s, events, id) + Owed(After(s, events), id)
    decreases |events|
  {
    hide Step, Sends, Forgets, Owed, Enabled;
    if events != [] {
      StepSettlesStop(s, events[0], id);
      StopsAreConserved(Step(s, events[0]), events[1..], id);
    }
  }

  /** After the completion of an id is recorded, and until a new request, its stop is sent
      exactly when the worker had already taken it off the agent, and then once. */
  lemma StopAfterCompletion(s: Sys, events: seq<Event>, id: string)
    requires id != "" && Runs(Step(s, Complete(id)), events) && Requests(events, id) == 0
    ensures Sent(Step(s, Complete(id)), events, id) == One(s.worker.Holding? && s.worker.stop == id && SendStop in events)
  {
    SentFromHand(Step(s, Complete(id)), events, id);
  }

  lemma {:induction false} SentFromHand(s: Sys, events: seq<Event>, id: string)
    requires id != "" && Runs(s, events) && Requests(events, id) == 0 && s.st.pendingStop != id
    ensures Sent(s, events, id) == One(s.worker.Holding? && s.worker.stop == id && SendStop in events)
    decreases |events|
  {
    if events != [] {
      assert events == [events[0]] + events[1..];
      NextInHand(s, events[0], id);
      hide Step, Enabled, Sends;
      SentFromHand(Step(s, events[0]), events[1..], id);
    }
  }

  lemma NextInHand(s: Sys, e: Event, id: string)
    requires id != "" && Enabled(s, e) && s.st.pendingStop != id && !(e.SetPendingStop? && e.id == id)
    ensures var (r, held) := (Step(s, e), s.worker.Holding? && s.worker.stop == id);
            r.st.pendingStop != id && (Sends(s, e, id) <==> held && e == SendStop)
            && (r.worker.Holding? && r.worker.stop == id <==> held && e != SendStop)
  {
  }

  lemma PoppedWithStop(a: PlannedAction, id: string)
    requires id != ""
    ensures var before := [Replace([a]), SetPendingStop(id), Pop];
            Runs(START, before) && After(START, before).worker == Holding(0, id) && After(START, before).st.selfStop == ""
  {
    var s1 := Step(START, Replace([a]));
    var s2 := Step(s1, SetPendingStop(id));
    assert Enabled(s2, Pop) && Step(s2, Pop).worker == Holding(0, id);
    hide Runs, After;
    RunsThree(START, Replace([a]), SetPendingStop(id), Pop);
  }

  /** A run in which the stop of an action goes out after its completion. */
  lemma LateStop(a: PlannedAction, id: string)
    requires id != ""
    ensures var before, after := [Replace([a]), SetPendingStop(id), Pop], [SendStop];
            && Runs(START, before) && Runs(Step(After(START, before), Complete(id)), after)
            && Sent(Step(After(START, before), Complete(id)), after, id) == 1
  {
    PoppedWithStop(a, id);
    var held := After(START, [Replace([a]), SetPendingStop(id), Pop]);
    assert Enabled(Step(held, Complete(id)), SendStop);
    RunsOne(Step(held, Complete(id)), SendStop);
    StopAfterCompletion(held, [SendStop], id);
  }

  lemma RunsThree(s: Sys, e1: Event, e2: Event, e3: Event)
    requires Enabled(s, e1) && Enabled(Step(s, e1), e2) && Enabled(Step(Step(s, e1), e2), e3)
    ensures Runs(s, [e1, e2, e3]) && After(s, [e1, e2, e3]) == Step(Step(Step(s, e1), e2), e3)
  {
    hide Step, Enabled;
    var (s1, es) := (Step(s, e1), [e1, e2, e3]);
    var s2 := Step(s1, e2);
    assert es[1..] == [e2, e3] && [e2, e3][1..] == [e3] && [e3][1..] == [];
    assert Runs(s2, [e3]) && After(s2, [e3]) == Step(s2, e3);
    assert Runs(s1, [e2, e3]) && After(s1, [e2, e3]) == After(s2, [e3]);
  }

  /** The stop that was marked last, if any was. */
  function LastMarked(s: Sys, events: seq<Event>): Option<string>
    requires Runs(s, events)
    decreases |events|
  {
    if events == [] then None
    else
      var later := LastMarked(Step(s, events[0]), events[1..]);
      if later.None? && events[0].MarkStop? then Some(s.worker.sent) else later
  }

  lemma {:induction false} SelfStopIsLastMarked(s: Sys, events: seq<Event>, id: string)
    requires id != "" && Runs(s, events) && Complete(id) !in events
    ensures LastMarked(s, events).Some? ==>
              (After(s, events).st.selfStop == id <==> LastMarked(s, events) == Some(id))
    ensures LastMarked(s, events).None? ==> (After(s, events).st.selfStop == id <==> s.st.selfStop == id)
    decreases |events|
  {
    if events != [] {
      var (e, next) := (events[0], Step(s, events[0]));
      assert Complete(id) != e;
      assert e.MarkStop? ==> next.st.selfStop == s.worker.sent;
      assert !e.MarkStop? ==> (next.st.selfStop == id <==> s.st.selfStop == id);
      hide Step, Enabled;
      SelfStopIsLastMarked(next, events[1..], id);
    }
  }

  predicate NoFurtherStop(events: seq<Event>) {
    SendStop !in events
  }

  lemma {:induction false} MarkedOnce(s: Sys, events: seq<Event>, id: string)
    requires Runs(s, events) && NoFurtherStop(events)
    requires s.worker.Marking? ==> s.worker.sent == id
    ensures LastMarked(s, events) == if s.worker.Marking? && MarkStop in events then Some(id) else None
    decreases |events|
  {
    if events != [] {
      var (e, next) := (events[0], Step(s, events[0]));
      assert events == [e] + events[1..];
      assert next.worker.Marking? <==> s.worker.Marking? && e != MarkStop;
      assert next.worker.Marking? ==> next.worker == s.worker;
      hide Step;
      MarkedOnce(next, events[1..], id);
    }
  }

  /** The first completion of an action the worker stopped is recognized as its own doing if
      and only if it comes after the worker has marked the stop; the mark of another stop in
      between is the only other thing that can undo it. */
  lemma SelfStopIsRecognized(s: Sys, events: seq<Event>, id: string)
    requires Enabled(s, SendStop) && s.worker.stop == id && s.st.selfStop != id
    requires Runs(Step(s, SendStop), events) && Complete(id) !in events
    ensures Completed(After(Step(s, SendStop), events).st, id).1.wasSelfStop
            <==> LastMarked(Step(s, SendStop), events) == Some(id)
    ensures NoFurtherStop(events) ==>
              (Completed(After(Step(s, SendStop), events).st, id).1.wasSelfStop <==> MarkStop in events)
  {
    var sent := Step(s, SendStop);
    SelfStopIsLastMarked(sent, events, id);
    if NoFurtherStop(events) {
      MarkedOnce(sent, events, id);
    }
  }

  /** A run in which it is not: the completion comes between the stop and the mark, which then
      stays set. */
  lemma UnrecognizedStop(a: PlannedAction, id: string)
    requires id != ""
    ensures var events := [Replace([a]), SetPendingStop(id), Pop];
            && Runs(START, events) && Enabled(After(START, events), SendStop)
            && (var sent := Step(After(START, events), SendStop);
                var done := Step(sent, Complete(id));
                && !Completed(sent.st, id).1.wasSelfStop
                && Enabled(done, MarkStop) && Step(done, MarkStop).st.selfStop == id)
  {
    PoppedWithStop(a, id);
    hide Runs, After;
    var sent := Step(After(START, [Replace([a]), SetPendingStop(id), Pop]), SendStop);
    assert sent.worker == Marking(0, id) && sent.st.selfStop == "";
  }

  // ----- what a clear leaves -----

  /** The worker's remaining steps for the action in its hand, ending with its dispatch or its
      return to the queue. */
  function Finishing(w: Worker, a: Action): seq<Event> {
    match w
    case Idle => []
    case Holding(_, stop) => (if stop != "" then [SendStop, MarkStop] else []) + [Resolve(Acknowledged(a))]
    case Marking(_, _) => [MarkStop, Resolve(Acknowledged(a))]
    case Returning(_) => [PutBack]
  }

  lemma {:induction false} RunsOn(s: Sys, e: Event, events: seq<Event>)
    requires Enabled(s, e) && Runs(Step(s, e), events)
    ensures Runs(s, [e] + events) && After(s, [e] + events) == After(Step(s, e), events)
  {
    hide Step, Enabled;
    assert ([e] + events)[1..] == events;
  }

  lemma RunsOne(s: Sys, e: Event)
    requires Enabled(s, e)
    ensures Runs(s, [e]) && After(s, [e]) == Step(s, e)
  {
    hide Step, Enabled;
    assert [e][1..] == [];
  }

  lemma DispatchInHand(s: Sys, a: Action)
    requires s.worker.Holding? && s.worker.stop == "" && s.worker.tag < |s.placed| == |s.fate|
    ensures Runs(s, [Resolve(Acknowledged(a))])
    ensures After(s, [Resolve(Acknowledged(a))]).fate == s.fate[s.worker.tag := Dispatched]
  {
    RunsOne(s, Resolve(Acknowledged(a)));
  }

  lemma FinishesInHand(s: Sys, a: Action)
    requires Good(s) && !s.worker.Idle?
    ensures Runs(s, Finishing(s.worker, a))
    ensures var t := s.worker.tag;
            t < |s.fate| && After(s, Finishing(s.worker, a)).fate == s.fate[t := if s.worker.Returning? then Waiting else Dispatched]
  {
    hide Arranged, Runs, After;
    Lengths(LineOf(s));
    var last := Resolve(Acknowledged(a));
    match s.worker
    case Holding(_, stop) =>
      if stop == "" {
        DispatchInHand(s, a);
        assert [] + [last] == [last];
      } else {
        FinishesMarking(Step(s, SendStop), a);
        RunsOn(s, SendStop, [MarkStop, last]);
        assert [SendStop] + [MarkStop, last] == [SendStop, MarkStop] + [last];
      }
    case Marking(_, _) => FinishesMarking(s, a);
    case Returning(_) => RunsOne(s, PutBack);
  }

  lemma FinishesMarking(s: Sys, a: Action)
    requires s.worker.Marking? && s.worker.tag < |s.placed| == |s.fate|
    ensures Runs(s, [MarkStop, Resolve(Acknowledged(a))])
    ensures After(s, [MarkStop, Resolve(Acknowledged(a))]).fate == s.fate[s.worker.tag := Dispatched]
  {
    hide Runs, After;
    var last := Resolve(Acknowledged(a));
    DispatchInHand(Step(s, MarkStop), a);
    RunsOn(s, MarkStop, [last]);
    assert [MarkStop] + [last] == [MarkStop, last];
  }

  /** Waiting again, or dispatched although it was not before. */
  ghost predicate ComesBack(s: Sys, events: seq<Event>, t: nat)
    requires Runs(s, events) && t < |s.fate|
  {
    t < |After(s, events).fate|
    && (After(s, events).fate[t].Waiting? || (After(s, events).fate[t].Dispatched? && !s.fate[t].Dispatched?))
  }

  /** After a slot switch has cleared the queue, an action placed before it can still be
      dispatched or return to the queue if and only if the worker holds it. */
  lemma ClearedExceptInHand(s: Sys, t: nat)
    requires Good(s) && t < |s.placed|
    ensures Good(Step(s, ClearSlot)) && |Step(s, ClearSlot).fate| == |s.placed|
    ensures (exists events :: Runs(Step(s, ClearSlot), events) && ComesBack(Step(s, ClearSlot), events, t))
            <==> !s.worker.Idle? && s.worker.tag == t
  {
    var cleared := Step(s, ClearSlot);
    StepKeeps(s, ClearSlot);
    Lengths(LineOf(s));
    FateAfterClear(s, t);
    hide Arranged;
    if !s.worker.Idle? && s.worker.tag == t {
      FinishesInHand(cleared, NO_ACTION);
      assert ComesBack(cleared, Finishing(cleared.worker, NO_ACTION), t);
    } else {
      hide Step;
      forall events | Runs(cleared, events) ensures !ComesBack(cleared, events, t) {
        FateIsFinal(cleared, events, t);
      }
    }
  }

  lemma FateAfterClear(s: Sys, t: nat)
    requires Good(s) && t < |s.placed|
    ensures var cleared := Step(s, ClearSlot);
            cleared.worker == s.worker && t < |cleared.fate|
            && (if !s.worker.Idle? && s.worker.tag == t then cleared.fate[t].InHand? else Settled(cleared.fate[t]))
  {
    Lengths(LineOf(s));
    InHandExactly(LineOf(s), t);
    hide Arranged;
  }

  lemma InHandExactly(l: Line, t: nat)
    requires Arranged(l) && t < |l.fate|
    ensures l.fate[t].InHand? <==> l.held == Some(t)
  {
    hide Ascending;
  }

  // ----- what each fate is due to -----

  /** The worker's dispatch of action `t` ends in this step. */
  predicate Ends(s: Sys, e: Event, t: nat) {
    e.Resolve? && s.worker.Holding? && s.worker.tag == t
  }

  predicate TacticalInFlight(s: Sys) {
    s.st.cur.src == Tactical
  }

  /** The ends that settle an action: an unmapped action is rejected, an acknowledged one is
      dispatched, and one whose send failed is lost unless a tactical action is in flight. */
  predicate Settles(s: Sys, e: Event, t: nat, f: Fate) {
    Ends(s, e, t)
    && match f
       case Rejected => e.outcome.MappingRejected?
       case Dispatched => e.outcome.Acknowledged?
       case Lost => e.outcome.SendFailed? && !TacticalInFlight(s)
       case _ => false
  }

  predicate Drops(e: Event) {
    e.Replace? || e.ClearSlot? || e.Offline?
  }

  /** The fate of one action after a step. */
  function NextFate(s: Sys, e: Event, t: nat): Fate
    requires t < |s.fate| && Enabled(s, e)
  {
    if Drops(e) then if s.fate[t].Waiting? then Dropped else s.fate[t]
    else if e.Pop? && s.tags[0] == t then InHand
    else if e.PutBack? && s.worker.tag == t then Waiting
    else if e.Resolve? && s.worker.tag == t then
      match e.outcome
      case MappingRejected => Rejected
      case Acknowledged(_) => Dispatched
      case SendFailed => if TacticalInFlight(s) then s.fate[t] else Lost
    else s.fate[t]
  }

  lemma FateAfter(s: Sys, e: Event, t: nat)
    requires Enabled(s, e) && t < |s.fate| == |s.placed|
    ensures t < |Step(s, e).fate| && Step(s, e).fate[t] == NextFate(s, e, t)
  {
    hide TagsFrom;
  }

  lemma SettledHasCause(s: Sys, e: Event, t: nat, f: Fate)
    requires Good(s) && Enabled(s, e) && t < |s.fate| && (f.Rejected? || f.Dispatched? || f.Lost?)
    ensures t < |Step(s, e).fate| && (Step(s, e).fate[t] == f <==> s.fate[t] == f || Settles(s, e, t, f))
  {
    SamePlaced(s);
    FateAfter(s, e, t);
    InHandAt(s, t);
    FirstIsWaiting(s);
    hide Step, Good;
  }

  lemma WaitingHasCause(s: Sys, e: Event, t: nat)
    requires Good(s) && Enabled(s, e) && t < |s.fate|
    ensures t < |Step(s, e).fate|
    ensures var (was, now) := (s.fate[t], Step(s, e).fate[t]);
            && (now.Dropped? <==> was.Dropped? || (was.Waiting? && Drops(e)))
            && (now.Waiting? <==> (was.Waiting? && !Drops(e) && !(e.Pop? && s.tags[0] == t))
                                  || (e.PutBack? && s.worker.tag == t))
  {
    SamePlaced(s);
    FateAfter(s, e, t);
    InHandAt(s, t);
    FirstIsWaiting(s);
    hide Step, Good;
  }

  lemma InHandAt(s: Sys, t: nat)
    requires Good(s) && t < |s.fate|
    ensures s.fate[t].InHand? <==> !s.worker.Idle? && s.worker.tag == t
  {
    InHandExactly(LineOf(s), t);
    hide Arranged;
  }

  lemma FirstIsWaiting(s: Sys)
    requires Good(s)
    ensures s.tags != [] ==> s.tags[0] < |s.fate| && s.fate[s.tags[0]].Waiting?
  {
    if |s.fate| > 0 {
      WaitingExactly(LineOf(s), 0);
    }
    Lengths(LineOf(s));
    hide Arranged;
  }

  /** Every fate has one cause: an action is rejected, dispatched or lost by the end of its own
      dispatch, dropped from the queue only, and waits again only when it is put back. */
  lemma FateHasCause(s: Sys, e: Event, t: nat)
    requires Good(s) && Enabled(s, e) && t < |s.fate|
    ensures t < |Step(s, e).fate|
    ensures var (was, now) := (s.fate[t], Step(s, e).fate[t]);
            && (forall f: Fate :: f.Rejected? || f.Dispatched? || f.Lost? ==> (now == f <==> was == f || Settles(s, e, t, f)))
            && (now.Dropped? <==> was.Dropped? || (was.Waiting? && Drops(e)))
            && (now.Waiting? <==> (was.Waiting? && !Drops(e) && !(e.Pop? && s.tags[0] == t))
                                  || (e.PutBack? && s.worker.tag == t))
  {
    WaitingHasCause(s, e, t);
    hide Step, Good, Settles, Drops;
    forall f: Fate | f.Rejected? || f.Dispatched? || f.Lost?
      ensures Step(s, e).fate[t] == f <==> s.fate[t] == f || Settles(s, e, t, f)
    {
      SettledHasCause(s, e, t, f);
    }
  }

  lemma WaitingExactly(l: Line, t: nat)
    requires Arranged(l) && t < |l.fate|
    ensures l.fate[t].Waiting? <==> t in l.tags
    ensures l.tags != [] ==> l.tags[0] < |l.fate| && l.fate[l.tags[0]].Waiting?
  {
    hide Ascending;
    assert l.tags != [] ==> l.tags[0] in l.tags;
  }

  function Count(fate: seq<Fate>, f: Fate): nat {
    if fate == [] then 0 else Count(fate[..|fate| - 1], f) + One(fate[|fate| - 1] == f)
  }

  lemma {:induction false} CountsAgree(a: seq<Fate>, b: seq<Fate>, f: Fate)
    requires |a| == |b| && forall t :: 0 <= t < |a| ==> (a[t] == f <==> b[t] == f)
    ensures Count(a, f) == Count(b, f)
  {
    if a != [] {
      CountsAgree(a[..|a| - 1], b[..|b| - 1], f);
    }
  }

  lemma {:induction false} CountsOneMore(a: seq<Fate>, b: seq<Fate>, f: Fate, t: nat)
    requires |a| == |b| && t < |a| && a[t] != f && b[t] == f
    requires forall i :: 0 <= i < |a| && i != t ==> (a[i] == f <==> b[i] == f)
    ensures Count(b, f) == Count(a, f) + 1
  {
    var n := |a| - 1;
    if t == n {
      CountsAgree(a[..n], b[..n], f);
    } else {
      CountsOneMore(a[..n], b[..n], f, t);
    }
  }

  lemma {:induction false} CountsAppended(a: seq<Fate>, b: seq<Fate>, f: Fate)
    requires |a| <= |b| && forall t :: |a| <= t < |b| ==> b[t] != f
    ensures Count(b, f) == Count(b[..|a|], f)
    decreases |b|
  {
    if |b| > |a| {
      CountsAppended(a, b[..|b| - 1], f);
      assert b[..|b| - 1][..|a|] == b[..|a|];
    } else {
      assert b[..|a|] == b;
    }
  }

  /** The steps of a run that reject, dispatch or lose the action in hand. */
  function Endings(s: Sys, events: seq<Event>, f: Fate): nat
    requires Runs(s, events)
    decreases |events|
  {
    if events == [] then 0
    else One(s.worker.Holding? && Settles(s, events[0], s.worker.tag, f)) + Endings(Step(s, events[0]), events[1..], f)
  }

  lemma NewAreWaiting(s: Sys, e: Event, t: nat)
    requires Good(s) && Enabled(s, e)
    ensures |s.fate| <= |Step(s, e).fate|
    ensures |s.fate| <= t < |Step(s, e).fate| ==> Step(s, e).fate[t].Waiting?
  {
    Lengths(LineOf(s));
    hide Arranged, TagsFrom, DropWaiting;
    assert |DropWaiting(s.fate)| == |s.fate|;
  }

  lemma StepCounts(s: Sys, e: Event, f: Fate)
    requires Good(s) && Enabled(s, e) && (f.Rejected? || f.Dispatched? || f.Lost?)
    ensures Count(Step(s, e).fate, f) == Count(s.fate, f) + One(s.worker.Holding? && Settles(s, e, s.worker.tag, f))
  {
    hide Step, Good, Enabled, Count;
    var (a, b) := (s.fate, Step(s, e).fate);
    NewAreWaiting(s, e, 0);
    forall t | |a| <= t < |b| ensures b[t] != f {
      NewAreWaiting(s, e, t);
    }
    CountsAppended(a, b, f);
    forall t | 0 <= t < |a| ensures b[..|a|][t] == f <==> a[t] == f || Settles(s, e, t, f) {
      SettledHasCause(s, e, t, f);
    }
    if s.worker.Holding? && Settles(s, e, s.worker.tag, f) {
      HeldIsInHand(s);
      CountsOneMore(a, b[..|a|], f, s.worker.tag);
    } else {
      CountsAgree(a, b[..|a|], f);
    }
  }

  lemma HeldIsInHand(s: Sys)
    requires Good(s) && !s.worker.Idle?
    ensures s.worker.tag < |s.fate| && s.fate[s.worker.tag].InHand?
  {
    Lengths(LineOf(s));
    InHandExactly(LineOf(s), s.worker.tag);
    hide Arranged;
  }

  /** Over every run there are as many lost actions as sends that failed while no tactical
      action was in flight, as many rejected ones as mappings that failed, and as many
      dispatched ones as acknowledgements. */
  lemma {:induction false} FatesAreCounted(s: Sys, events: seq<Event>, f: Fate)
    requires Good(s) && Runs(s, events) && (f.Rejected? || f.Dispatched? || f.Lost?)
    ensures Count(After(s, events).fate, f) == Count(s.fate, f) + Endings(s, events, f)
    decreases |events|
  {
    if events != [] {
      StepKeeps(s, events[0]);
      StepCounts(s, events[0], f);
      hide Step, Good, Enabled, Settles, Count;
      FatesAreCounted(Step(s, events[0]), events[1..], f);
    }
  }

  /** A tactical action is in flight whenever a send fails. */
  predicate FailsBusy(s: Sys, events: seq<Event>)
    requires Runs(s, events)
    decreases |events|
  {
    events == [] || ((events[0] == Resolve(SendFailed) ==> TacticalInFlight(s)) && FailsBusy(Step(s, events[0]), events[1..]))
  }

  lemma {:induction false} NoLosses(s: Sys, events: seq<Event>)
    requires Runs(s, events) && FailsBusy(s, events)
    ensures Endings(s, events, Lost) == 0
    decreases |events|
  {
    if events != [] {
      hide Step, Enabled;
      NoLosses(Step(s, events[0]), events[1..]);
    }
  }

  lemma {:induction false} CountIsZero(fate: seq<Fate>, f: Fate)
    ensures Count(fate, f) == 0 <==> f !in fate
  {
    if fate != [] {
      CountIsZero(fate[..|fate| - 1], f);
      assert fate == fate[..|fate| - 1] + [fate[|fate| - 1]];
    }
  }

  lemma NothingYet(f: Fate)
    ensures Good(START) && Count(START.fate, f) == 0
  {
  }

  /** So nothing is ever lost in a run whose sends fail only while a tactical action is in
      flight. */
  lemma BusySendsLoseNothing(events: seq<Event>)
    requires Runs(START, events) && FailsBusy(START, events)
    ensures Lost !in After(START, events).fate
  {
    hide Runs, After, Count, Endings, FailsBusy;
    NothingYet(Lost);
    FatesAreCounted(START, events, Lost);
    NoLosses(START, events);
    CountIsZero(After(START, events).fate, Lost);
  }

  lemma SamePlaced(s: Sys)
    requires Good(s)
    ensures |s.placed| == |s.fate|
  {
    Lengths(LineOf(s));
    hide Arranged;
  }

  /** A failed send: behind a tactical action in flight the action returns to the front of the
      queue by the worker's next step; otherwise it is lost and never returns. */
  lemma FailedSend(s: Sys, events: seq<Event>)
    requires Good(s) && Enabled(s, Resolve(SendFailed)) && Runs(Step(s, Resolve(SendFailed)), events)
    ensures var (failed, t) := (Step(s, Resolve(SendFailed)), s.worker.tag);
            if TacticalInFlight(s) then
              Enabled(failed, PutBack) && Step(failed, PutBack).st.queue == [s.placed[t]] + s.st.queue
              && Step(failed, PutBack).worker.Idle?
            else
              failed.worker.Idle? && t < |After(failed, events).fate| && After(failed, events).fate[t].Lost?
  {
    hide Good, Runs, After;
    var failed := Step(s, Resolve(SendFailed));
    StepKeeps(s, Resolve(SendFailed));
    HeldIsInHand(s);
    SamePlaced(s);
    if !TacticalInFlight(s) {
      FateIsFinal(failed, events, s.worker.tag);
    }
  }

  /** An action leaves the queue only while nothing is tracked in flight, and an acknowledged
      one is tracked from then on. */
  lemma PopsWhenIdle(s: Sys, e: Event)
    requires Enabled(s, e)
    ensures e.Pop? ==> s.st.cur.id == "" && s.st.queue != [] && Step(s, e).st.queue == s.st.queue[1..]
    ensures e.Resolve? && e.outcome.Acknowledged? ==> Step(s, e).st.cur == e.outcome.action && Step(s, e).worker.Idle?
  {
  }

  // ----- the marks a completion finds -----

  /** Nothing takes the deferred stop away or replaces it. */
  predicate LeavesStop(events: seq<Event>, id: string) {
    forall k :: 0 <= k < |events| ==> !events[k].Pop? && !events[k].SetPendingStop? && events[k] != Complete(id)
  }

  lemma {:induction false} StopStaysPending(s: Sys, events: seq<Event>, id: string)
    requires s.st.pendingStop == id && Runs(s, events) && LeavesStop(events, id)
    ensures After(s, events).st.pendingStop == id
    decreases |events|
  {
    if events != [] {
      assert Step(s, events[0]).st.pendingStop == id;
      hide Step, Enabled;
      StopStaysPending(Step(s, events[0]), events[1..], id);
    }
  }

  /** A completion that finds its own stop still pending says so, and leaves nothing to stop;
      it leaves no mark of the worker's stop either. */
  lemma PendingStopIsReported(s: Sys, events: seq<Event>, id: string)
    requires id != "" && Runs(Step(s, SetPendingStop(id)), events) && LeavesStop(events, id)
    ensures var end := After(Step(s, SetPendingStop(id)), events);
            && Completed(end.st, id).1.wasPendingStop
            && Step(end, Complete(id)).st.pendingStop == "" && Step(end, Complete(id)).st.selfStop != id
            && !Completed(Step(end, Complete(id)).st, id).1.wasPendingStop
            && !Completed(Step(end, Complete(id)).st, id).1.wasSelfStop
  {
    StopStaysPending(Step(s, SetPendingStop(id)), events, id);
  }

  // ----- the tracked action beside the queue -----

  /** What a step does to the tracked action and its stash. */
  function Tracking(s: Sys, e: Event): ActionRuns.Op
    requires Enabled(s, e)
  {
    match e
    case ClearSlot => ActionRuns.Op.ClearSlot
    case ClearKeep => ActionRuns.Op.ClearKeep
    case ClearInFlight(id) => ActionRuns.Op.ClearInFlight(id)
    case Offline => ActionRuns.Op.Offline
    case Complete(id) => ActionRuns.Op.Complete(id)
    case StartElsewhere(a) => ActionRuns.Op.Start(a)
    case Resolve(Acknowledged(a)) => ActionRuns.Op.Start(a)
    case _ => ActionRuns.Op.Other(Step(s, e).st.queue, Step(s, e).st.pendingStop, Step(s, e).st.selfStop)
  }

  function TrackingAll(s: Sys, events: seq<Event>): seq<ActionRuns.Op>
    requires Runs(s, events)
    decreases |events|
  {
    if events == [] then [] else [Tracking(s, events[0])] + TrackingAll(Step(s, events[0]), events[1..])
  }

  /** Every run of the queue path is a run of the tracked-action bookkeeping, so what that
      reports, and whose record, holds here too. */
  lemma {:induction false} QueueRunTracks(s: Sys, events: seq<Event>)
    requires Runs(s, events)
    ensures ActionRuns.Run(s.st, TrackingAll(s, events)) == After(s, events).st
    decreases |events|
  {
    if events != [] {
      var (e, ops) := (events[0], TrackingAll(s, events));
      assert ActionRuns.Step(s.st, Tracking(s, e)) == Step(s, e).st;
      hide Step, Tracking, Enabled;
      QueueRunTracks(Step(s, e), events[1..]);
      assert ops[0] == Tracking(s, e) && ops[1..] == TrackingAll(Step(s, e), events[1..]);
    }
  }
}
