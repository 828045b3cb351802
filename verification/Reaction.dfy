/** The router's verdict and the reaction window it may cut
    (agenttown-mcp/cmd/agenttown-mcp/event_router.go, world_event_dispatch.go). */
module Reaction {
  import opened Text

  const THRESHOLD: real := 0.5
  const SOCIAL_CAP: int := 3
  const SOCIAL_BAR: int := 2
  const TOP: int := 10

  datatype Motive = Urgent | SituationResolved | Social

  /** The three answers of the judgment model; absent ones are None. */
  datatype Answers = Answers(noul: Option<real>, motive: string, score: Option<real>)

  datatype Decision = Decision(interrupt: bool, severity: int, motive: Motive)

  /** math.Round: to the nearest integer, halves away from zero. */
  function Round(x: real): int {
    if x >= 0.0 then (x + 0.5).Floor else -((-x + 0.5).Floor)
  }

  function Clamp(v: int): (r: int)
    ensures 0 <= r <= TOP
  {
    if v < 0 then 0 else if v > TOP then TOP else v
  }

  /** routerDecisionFromJev; None is `ok == false`. */
  function DecisionFromJev(a: Answers): Option<Decision> {
    match a.noul
    case None => None
    case Some(noul) =>
      var motive := if a.motive == "situation_resolved" then SituationResolved
                    else if a.motive == "social" then Social else Urgent;
      var severity := if a.score.Some? then Clamp(Round(a.score.value * 10.0)) else 0;
      var interrupt := noul > THRESHOLD && a.motive != "no_interrupt";
      Some(Decision(interrupt,
                    if interrupt && motive.Social? && severity > SOCIAL_CAP then SOCIAL_CAP else severity,
                    motive))
  }

  predicate Plausible(d: Decision) {
    0 <= d.severity <= TOP && (d.interrupt && d.motive.Social? ==> d.severity <= SOCIAL_CAP)
  }

  /** A verdict interrupts only above the threshold and with a motive to, a tie or a
      self-contradiction stays in the queue, and no social verdict ranks with an emergency. */
  lemma VerdictIsConservative(a: Answers)
    ensures DecisionFromJev(a).Some? <==> a.noul.Some?
    ensures DecisionFromJev(a).Some? ==>
              var d := DecisionFromJev(a).value;
              Plausible(d) && (d.interrupt <==> a.noul.value > THRESHOLD && a.motive != "no_interrupt")
  {
  }

  /** An in-range score is rounded to the nearest tenth. */
  lemma SeverityIsNearest(a: Answers)
    requires a.noul.Some? && a.score.Some? && 0.0 <= a.score.value <= 1.0
    ensures var d := DecisionFromJev(a).value;
            !(d.interrupt && d.motive.Social?) ==> -0.5 <= d.severity as real - a.score.value * 10.0 <= 0.5
  {
    var x := a.score.value * 10.0;
    assert 0.0 <= x <= 10.0;
    var r := Round(x);
    assert r as real <= x + 0.5 < r as real + 1.0;
    assert 0 <= r <= TOP;
  }

  // ----- the window -----

  datatype Window = Closed | Open(bar: int)

  /** The guard of routerInterrupt. */
  predicate Accepted(w: Window, d: Decision) {
    d.interrupt && (w.Open? && d.severity <= w.bar ==> d.motive.SituationResolved?)
  }

  /** The window routerInterrupt leaves when it arms. */
  function ArmedBy(d: Decision): Window {
    match d.motive
    case SituationResolved => Closed
    case Social => Open(SOCIAL_BAR)
    case Urgent => Open(Clamp(d.severity))
  }

  /** A verdict with nothing between its guard and its arming. */
  function Applied(w: Window, d: Decision): Window {
    if Accepted(w, d) then ArmedBy(d) else w
  }

  class ReactionGuard {
    var reactionActive: bool
    var reactionSeverity: int

    function View(): Window
      reads this
    {
      if reactionActive then Open(reactionSeverity) else Closed
    }

    method BeginReaction(severity: int)
      modifies this
      ensures View() == Open(Clamp(severity))
    {
      var s := severity;
      if s < 0 {
        s := 0;
      }
      if s > TOP {
        s := TOP;
      }
      reactionActive, reactionSeverity := true, s;
    }

    method ClearReaction()
      modifies this
      ensures View() == Closed
    {
      reactionActive, reactionSeverity := false, 0;
    }

    /** The first critical section of routerInterrupt, for an agent that is neither stopped
        nor yielded. */
    method Guard(d: Decision) returns (passes: bool)
      requires d.interrupt
      ensures passes <==> Accepted(View(), d)
    {
      passes := !(reactionActive && d.severity <= reactionSeverity && !d.motive.SituationResolved?);
    }

    /** The second, after the stop was sent. */
    method Arm(d: Decision)
      modifies this
      ensures View() == ArmedBy(d)
    {
      match d.motive {
        case SituationResolved => ClearReaction();
        case Social => BeginReaction(SOCIAL_BAR);
        case Urgent => BeginReaction(d.severity);
      }
    }
  }

  // ----- from the answers to the window -----

  /** The judgment model wants an interrupt. */
  predicate Wants(a: Answers) {
    a.noul.Some? && a.noul.value > 0.5 && a.motive != "no_interrupt"
  }

  /** What the answers come to: whether they pass the guard, and the window they then leave. */
  function Outcome(w: Window, a: Answers): Option<Window> {
    if DecisionFromJev(a).Some? && Accepted(w, DecisionFromJev(a).value) then Some(ArmedBy(DecisionFromJev(a).value)) else None
  }

  lemma UnwantedIsRefused(w: Window, a: Answers)
    requires !Wants(a)
    ensures Outcome(w, a) == None
  {
  }

  /** The end of a situation passes every bar and closes the window. */
  lemma ResolutionEndsReaction(w: Window, a: Answers)
    requires Wants(a) && a.motive == "situation_resolved"
    ensures Outcome(w, a) == Some(Closed)
  {
  }

  /** A social event is refused by every bar from three on and by a lower one unless its score
      is higher; it never closes the window and leaves the bar at two. */
  lemma SocialStaysLow(w: Window, a: Answers)
    requires Wants(a) && a.motive == "social" && (w.Open? ==> 0 <= w.bar <= TOP)
    ensures Outcome(w, a) == if w.Closed? || (w.bar < 3 && Above(a, w.bar)) then Some(Open(2)) else None
  {
    if a.score.Some? {
      RoundAbove(a, if w.Open? then w.bar else 0);
    }
  }

  /** The score rounds to more than the bar. */
  predicate Above(a: Answers, bar: int) {
    a.score.Some? && a.score.value * 10.0 >= bar as real + 0.5
  }

  lemma RoundAbove(a: Answers, bar: int)
    requires a.score.Some? && bar >= 0
    ensures Round(a.score.value * 10.0) > bar <==> Above(a, bar)
  {
    var x := a.score.value * 10.0;
    if x >= 0.0 {
      var f := (x + 0.5).Floor;
      assert f as real <= x + 0.5 < f as real + 1.0;
      if x >= bar as real + 0.5 {
        assert f as real + 1.0 > (bar + 1) as real;
      }
    }
  }

  /** Any other event that the model wants passes a bar below ten exactly when its score rounds
      to more, and leaves its own severity: the nearest to ten times a score from 0 to 1, and 0
      without one. */
  lemma UrgencyClimbs(w: Window, a: Answers)
    requires Wants(a) && a.motive != "social" && a.motive != "situation_resolved" && (w.Open? ==> 0 <= w.bar <= TOP)
    ensures Outcome(w, a).Some? <==> w.Closed? || (w.bar < 10 && Above(a, w.bar))
    ensures Outcome(w, a).Some? ==>
              var left := Outcome(w, a).value;
              && left.Open? && 0 <= left.bar <= 10
              && (a.score.None? ==> left.bar == 0)
              && (a.score.Some? ==> Nearest(left.bar, a.score.value))
  {
    if a.score.Some? {
      RoundAbove(a, if w.Open? then w.bar else 0);
      ClampIsNearest(a.score.value);
    }
  }

  /** `severity` is the nearest to ten times the score, or the end of the scale next to it. */
  predicate Nearest(severity: int, score: real) {
    if score > 1.0 then severity == 10
    else if score < 0.0 then severity == 0
    else -0.5 <= severity as real - score * 10.0 <= 0.5
  }

  lemma ClampIsNearest(score: real)
    ensures Nearest(Clamp(Round(score * 10.0)), score)
  {
    var x := score * 10.0;
    var f := (x + 0.5).Floor;
    assert f as real <= x + 0.5 < f as real + 1.0;
    var g := (-x + 0.5).Floor;
    assert g as real <= -x + 0.5 < g as real + 1.0;
  }

  // ----- verdicts side by side -----

  /** A verdict that passed the guard, and how often the window had changed by then. */
  datatype Passed = Passed(d: Decision, at: nat, armed: bool)

  datatype Router = Router(window: Window, changes: nat, passed: seq<Passed>)

  /** Every event has its own thread: it is judged and passes the guard or not, and later arms
      the window; clears and force events set the window elsewhere. */
  datatype Event = Judged(answers: Answers) | Arm(k: nat) | Elsewhere(window: Window)

  predicate Passes(r: Router, a: Answers) {
    DecisionFromJev(a).Some? && Accepted(r.window, DecisionFromJev(a).value)
  }

  predicate Arms(r: Router, e: Event) {
    e.Arm? && e.k < |r.passed| && !r.passed[e.k].armed
  }

  function Step(r: Router, e: Event): Router {
    match e
    case Judged(a) =>
      if Passes(r, a) then r.(passed := r.passed + [Passed(DecisionFromJev(a).value, r.changes, false)]) else r
    case Arm(k) =>
      if Arms(r, e)
      then Router(ArmedBy(r.passed[k].d), r.changes + 1, r.passed[k := r.passed[k].(armed := true)])
      else r
    case Elsewhere(w) => r.(window := w, changes := r.changes + 1)
  }

  function After(r: Router, es: seq<Event>): Router {
    if es == [] then r else Step(After(r, es[..|es| - 1]), Last(es))
  }

  /** The window was changed between the verdict's guard and now. */
  predicate Overtaken(r: Router, k: nat)
    requires k < |r.passed|
  {
    r.passed[k].at < r.changes
  }

  predicate Sound(r: Router) {
    && (r.window.Open? ==> 0 <= r.window.bar <= TOP)
    && (forall k :: 0 <= k < |r.passed| ==>
          var p := r.passed[k];
          Plausible(p.d) && p.d.interrupt && p.at <= r.changes && (p.at == r.changes ==> Accepted(r.window, p.d)))
  }

  lemma StepIsSound(r: Router, e: Event)
    requires Sound(r) && (e.Elsewhere? && e.window.Open? ==> 0 <= e.window.bar <= TOP)
    ensures Sound(Step(r, e))
  {
    if e.Judged? {
      VerdictIsConservative(e.answers);
    }
    hide DecisionFromJev;
  }

  // ----- when an arming lowers the bar -----

  predicate Lowers(before: Window, after: Window) {
    before.Open? && after.Open? && after.bar < before.bar
  }

  /** What the last change during `es` left, if there was one. */
  function LastLeft(r: Router, es: seq<Event>): Option<Window> {
    if es == [] then None
    else
      var (before, e) := (After(r, es[..|es| - 1]), Last(es));
      if Arms(before, e) then Some(ArmedBy(before.passed[e.k].d))
      else if e.Elsewhere? then Some(e.window)
      else LastLeft(r, es[..|es| - 1])
  }

  lemma {:induction false} WindowIsLastLeft(r: Router, es: seq<Event>)
    ensures After(r, es).window == if LastLeft(r, es).None? then r.window else LastLeft(r, es).value
  {
    if es != [] {
      WindowIsLastLeft(r, es[..|es| - 1]);
    }
  }

  /** Whatever happens between a verdict's guard and its arming: the arming lowers the bar if
      and only if the window was changed in between and last to a higher bar. */
  lemma LoweredExactly(r: Router, a: Answers, between: seq<Event>)
    requires Passes(r, a)
    ensures var (d, seen) := (DecisionFromJev(a).value, Step(r, Judged(a)));
            Lowers(After(seen, between).window, ArmedBy(d)) <==>
            LastLeft(seen, between).Some? && Lowers(LastLeft(seen, between).value, ArmedBy(d))
  {
    VerdictIsConservative(a);
    WindowIsLastLeft(Step(r, Judged(a)), between);
    hide DecisionFromJev;
  }

  /** Two urgent verdicts pass the closed window together, and the second lowers the bar the
      first has set. */
  lemma LadderIsLowered()
    ensures var (high, low) := (Urgency(9), Urgency(5));
            var r := After(START, [Judged(high), Judged(low), Arm(0)]);
            r.window == Open(9) && Step(r, Arm(1)).window == Open(5)
  {
    hide Urgency, Step, After, Passes;
    var (e1, e2, e3) := (Judged(Urgency(9)), Judged(Urgency(5)), Arm(0));
    var r1 := Step(START, e1);
    var r2 := Step(r1, e2);
    PassesUrgent(START, 9);
    PassesUrgent(r1, 5);
    assert r2.passed == [Passed(Decision(true, 9, Urgent), 0, false), Passed(Decision(true, 5, Urgent), 0, false)];
    ArmsUrgent(r2, 0);
    ArmsUrgent(Step(r2, e3), 1);
    AfterNone(START);
    OneMore(START, [], e1);
    OneMore(START, [e1], e2);
    OneMore(START, [e1, e2], e3);
    assert [] + [e1] == [e1] && [e1] + [e2] == [e1, e2] && [e1, e2] + [e3] == [e1, e2, e3];
  }

  lemma AfterNone(r: Router)
    ensures After(r, []) == r
  {
  }

  lemma PassesUrgent(r: Router, severity: int)
    requires 0 <= severity <= TOP && (r.window.Open? ==> r.window.bar < severity)
    ensures var e := Judged(Urgency(severity));
            Step(r, e) == r.(passed := r.passed + [Passed(Decision(true, severity, Urgent), r.changes, false)]) && !Arms(r, e)
  {
    UrgencyIs(severity);
    hide DecisionFromJev, Urgency;
  }

  lemma ArmsUrgent(r: Router, k: nat)
    requires k < |r.passed| && !r.passed[k].armed && r.passed[k].d.motive.Urgent? && Plausible(r.passed[k].d)
    ensures var p := r.passed[k];
            Arms(r, Arm(k)) && Step(r, Arm(k)) == Router(Open(p.d.severity), r.changes + 1, r.passed[k := p.(armed := true)])
  {
  }

  lemma OneMore(r: Router, es: seq<Event>, e: Event)
    ensures After(r, es + [e]) == Step(After(r, es), e)
  {
    hide Step;
    assert (es + [e])[..|es|] == es;
  }

  const START: Router := Router(Closed, 0, [])

  // ----- runs without clears and force events -----

  predicate NoClear(es: seq<Event>) {
    forall k :: 0 <= k < |es| ==>
      !es[k].Elsewhere?
      && (es[k].Judged? && DecisionFromJev(es[k].answers).Some? ==>
            !DecisionFromJev(es[k].answers).value.motive.SituationResolved?)
  }

  predicate NoneResolves(r: Router) {
    forall k :: 0 <= k < |r.passed| ==> !r.passed[k].d.motive.SituationResolved?
  }

  function UrgentArmed(r: Router, es: seq<Event>): nat {
    if es == [] then 0
    else
      var (before, e) := (After(r, es[..|es| - 1]), Last(es));
      UrgentArmed(r, es[..|es| - 1]) + (if Arms(before, e) && before.passed[e.k].d.motive.Urgent? then 1 else 0)
  }

  function OvertakenArmed(r: Router, es: seq<Event>): nat {
    if es == [] then 0
    else
      var (before, e) := (After(r, es[..|es| - 1]), Last(es));
      OvertakenArmed(r, es[..|es| - 1]) + (if Arms(before, e) && Overtaken(before, e.k) then 1 else 0)
  }

  /** How many urgent interrupts the window still has room for. */
  function Room(w: Window): int {
    match w
    case Closed => TOP + 1
    case Open(bar) => TOP - bar
  }

  lemma LadderStep(r: Router, e: Event)
    requires Sound(r) && NoneResolves(r) && NoClear([e])
    ensures Sound(Step(r, e)) && NoneResolves(Step(r, e))
    ensures !Arms(r, e) ==> Step(r, e).window == r.window
    ensures Arms(r, e) ==>
              var (p, end) := (r.passed[e.k], Step(r, e).window);
              end.Open?
              && (Overtaken(r, e.k) || !p.d.motive.Urgent? || Room(end) <= Room(r.window) - 1)
              && (!Overtaken(r, e.k) ==> Room(end) <= Room(r.window))
  {
    assert [e][0] == e;
    StepIsSound(r, e);
    hide DecisionFromJev;
  }

  /** Between two clears every urgent interrupt uses up room unless it was overtaken: at most
      eleven are armed, and eleven more for every overtaken one. Without an overtaken one the
      bar never falls. */
  lemma {:induction false} LadderIsBounded(r: Router, es: seq<Event>)
    requires Sound(r) && NoneResolves(r) && NoClear(es)
    ensures var end := After(r, es);
            && Sound(end) && NoneResolves(end)
            && UrgentArmed(r, es) <= Room(r.window) - Room(end.window) + (TOP + 1) * OvertakenArmed(r, es)
            && (OvertakenArmed(r, es) == 0 && r.window.Open? ==> end.window.Open? && r.window.bar <= end.window.bar)
  {
    if es != [] {
      var (init, e) := (es[..|es| - 1], es[|es| - 1]);
      assert NoClear(init) && NoClear([e]) by {
        assert forall k :: 0 <= k < |init| ==> init[k] == es[k];
      }
      LadderIsBounded(r, init);
      LadderStep(After(r, init), e);
      hide Step, Sound, NoneResolves, NoClear;
    }
  }

  /** The answers that make an urgent verdict of a given severity. */
  function Urgency(severity: int): Answers {
    Answers(Some(1.0), "urgent", Some(severity as real / 10.0))
  }

  lemma UrgencyIs(severity: int)
    requires 0 <= severity <= TOP
    ensures DecisionFromJev(Urgency(severity)) == Some(Decision(true, severity, Urgent))
  {
    SeverityIsNearest(Urgency(severity));
  }

  function Climb(n: nat): (es: seq<Event>)
    ensures |es| == 2 * n
  {
    if n == 0 then [] else Climb(n - 1) + [Judged(Urgency(n - 1)), Arm(n - 1)]
  }

  lemma TwoMore(r: Router, es: seq<Event>, e: Event, f: Event)
    ensures After(r, es + [e, f]) == Step(Step(After(r, es), e), f)
    ensures Arms(Step(After(r, es), e), f) && !Arms(After(r, es), e) ==>
              var (mid, p) := (Step(After(r, es), e), Step(After(r, es), e).passed[f.k]);
              && UrgentArmed(r, es + [e, f]) == UrgentArmed(r, es) + (if p.d.motive.Urgent? then 1 else 0)
              && OvertakenArmed(r, es + [e, f]) == OvertakenArmed(r, es) + (if Overtaken(mid, f.k) then 1 else 0)
  {
    hide Step;
    assert (es + [e, f])[..|es| + 1] == es + [e] && (es + [e])[..|es|] == es;
  }

  /** Eleven are possible without an overtaken one. */
  lemma {:induction false} LadderIsTight(n: nat)
    requires n <= TOP + 1
    ensures UrgentArmed(START, Climb(n)) == n && OvertakenArmed(START, Climb(n)) == 0
    ensures var end := After(START, Climb(n));
            |end.passed| == n && end.window == if n == 0 then Closed else Open(n - 1)
  {
    hide Urgency, Climb, Step, After, UrgentArmed, OvertakenArmed, Arms;
    if n == 0 {
      NoClimb();
    } else {
      LadderIsTight(n - 1);
      ClimbIs(n);
      var r := After(START, Climb(n - 1));
      PassesUrgent(r, n - 1);
      ArmsUrgent(Step(r, Judged(Urgency(n - 1))), n - 1);
      TwoMore(START, Climb(n - 1), Judged(Urgency(n - 1)), Arm(n - 1));
    }
  }

  lemma NoClimb()
    ensures Climb(0) == [] && After(START, []) == START && UrgentArmed(START, []) == OvertakenArmed(START, []) == 0
  {
  }

  lemma ClimbIs(n: nat)
    requires n > 0
    ensures Climb(n) == Climb(n - 1) + [Judged(Urgency(n - 1)), Arm(n - 1)]
  {
  }

  /** Any number of interrupting verdicts that are judged before the first one arms pass the
      closed window. */
  lemma {:induction false} TogetherAllPass(verdicts: seq<Answers>)
    requires forall k :: 0 <= k < |verdicts| ==> DecisionFromJev(verdicts[k]).Some? && DecisionFromJev(verdicts[k]).value.interrupt
    ensures var es := seq(|verdicts|, k requires 0 <= k < |verdicts| => Judged(verdicts[k]));
            var r := After(START, es);
            |r.passed| == |verdicts| && r.window == Closed && forall k :: 0 <= k < |r.passed| ==> !r.passed[k].armed
  {
    hide DecisionFromJev;
    var es := seq(|verdicts|, k requires 0 <= k < |verdicts| => Judged(verdicts[k]));
    if verdicts != [] {
      var init := verdicts[..|verdicts| - 1];
      TogetherAllPass(init);
      assert es[..|es| - 1] == seq(|init|, k requires 0 <= k < |init| => Judged(init[k]));
      assert Last(es) == Judged(Last(verdicts));
    }
  }

  // ----- social interrupts -----

  /** The window after a row of verdicts, one at a time. */
  function AfterRow(w: Window, ds: seq<Decision>): Window {
    if ds == [] then w else Applied(AfterRow(w, ds[..|ds| - 1]), Last(ds))
  }

  function CountAccepted(w: Window, ds: seq<Decision>): nat {
    if ds == [] then 0
    else CountAccepted(w, ds[..|ds| - 1]) + (if Accepted(AfterRow(w, ds[..|ds| - 1]), Last(ds)) then 1 else 0)
  }

  function CountAtCap(ds: seq<Decision>): nat {
    if ds == [] then 0 else CountAtCap(ds[..|ds| - 1]) + (if Last(ds).severity == SOCIAL_CAP then 1 else 0)
  }

  predicate AllSocial(ds: seq<Decision>) {
    forall k :: 0 <= k < |ds| ==> Plausible(ds[k]) && ds[k].interrupt && ds[k].motive.Social?
  }

  /** In a row of social verdicts after a social interrupt the bar never moves: exactly those
      of severity three are accepted, however many come. */
  lemma {:induction false} SocialAfterSocial(w: Window, first: Decision, ds: seq<Decision>)
    requires Accepted(w, first) && first.motive.Social? && AllSocial(ds)
    ensures AfterRow(Applied(w, first), ds) == Applied(w, first)
    ensures CountAccepted(Applied(w, first), ds) == CountAtCap(ds)
  {
    if ds != [] {
      SocialAfterSocial(w, first, ds[..|ds| - 1]);
    }
  }
}
