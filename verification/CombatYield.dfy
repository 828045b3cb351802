/** The combat-detach yield: handing the body to the game's combat system and taking it back
    (agenttown-mcp/cmd/agenttown-mcp/world_event_dispatch.go, main.go). */
module CombatYield {
  import opened Text

  const TTL: real := 7200.0        // game seconds: 120 game minutes
  const GRACE: int := 2_000_000_000 // wall-clock nanoseconds

  datatype Physical = Physical(energy: real, fatigue: real, jointWear: real)

  /** `prevActionID` is the action in flight at entry while it may still need a stop. */
  datatype Yield = Yield(active: bool, sinceGameSec: real, lastEvent: string, sinceWall: Option<int>,
                         prevActionID: string, phys: Option<Physical>)

  const NO_YIELD: Yield := Yield(false, 0.0, "", None, "", None)

  // ----- the steps -----

  datatype Event =
    | Detach(event: string, nowGameSec: real, nowWall: int, current: string, physical: Option<Physical>)
    | Completion(id: string)
    | TakeoverCheck(wall: int)
    | ExpiryCheck(gameSec: real)
    | CombatExit

  /** beginCombatYield. */
  function Begun(y: Yield, event: string, nowGameSec: real, nowWall: int, prev: string, phys: Option<Physical>): Yield {
    Yield(true, if nowGameSec > 0.0 then nowGameSec else 0.0, event, Some(nowWall),
          if prev != "" then prev else y.prevActionID,
          if phys.Some? && y.phys.None? then phys else y.phys)
  }

  predicate StopsNow(y: Yield, wall: int) {
    y.active && y.prevActionID != "" && y.sinceWall.Some? && wall - y.sinceWall.value >= GRACE
  }

  predicate Expired(y: Yield, gameSec: real) {
    y.active && y.sinceGameSec > 0.0 && gameSec > 0.0 && gameSec - y.sinceGameSec >= TTL
  }

  function Step(y: Yield, e: Event): Yield {
    match e
    case Detach(event, game, wall, current, phys) =>
      // A repeat attack passes neither the action in flight nor a new baseline.
      Begun(y, event, game, wall, if y.active then "" else current, if y.active then None else phys)
    case Completion(id) => if y.active && y.prevActionID == id then y.(prevActionID := "") else y
    case TakeoverCheck(wall) => if StopsNow(y, wall) then y.(prevActionID := "") else y
    case ExpiryCheck(game) =>
      if Expired(y, game) then NO_YIELD
      else if y.active && y.sinceGameSec <= 0.0 && game > 0.0 then y.(sinceGameSec := game)
      else y
    case CombatExit => if y.active then NO_YIELD else y
  }

  predicate Reclaims(y: Yield, e: Event) {
    (e.CombatExit? && y.active) || (e.ExpiryCheck? && Expired(y, e.gameSec))
  }

  /** The stop a step attempts: the takeover check after the grace window, or the catch-up
      stop of a reclaim. */
  function StopAttempt(y: Yield, e: Event): Option<string> {
    if (e.TakeoverCheck? && StopsNow(y, e.wall)) || (Reclaims(y, e) && y.prevActionID != "")
    then Some(y.prevActionID) else None
  }

  // ----- the object -----

  class CombatGuard {
    var combatYield: bool
    var sinceGameSec: real
    var lastEvent: string
    var sinceWall: Option<int>
    var prevActionID: string
    var phys: Option<Physical>

    function View(): Yield
      reads this
    {
      Yield(combatYield, sinceGameSec, lastEvent, sinceWall, prevActionID, phys)
    }

    constructor ()
      ensures View() == NO_YIELD
    {
      combatYield, sinceGameSec, lastEvent, sinceWall, prevActionID, phys := false, 0.0, "", None, "", None;
    }

    method BeginCombatYield(event: string, nowGameSec: real, nowWall: int, prev: string, physical: Option<Physical>)
      modifies this
      ensures View() == Begun(old(View()), event, nowGameSec, nowWall, prev, physical)
    {
      combatYield := true;
      lastEvent := event;
      sinceWall := Some(nowWall);
      if prev != "" {
        prevActionID := prev;
      }
      if physical.Some? && phys.None? {
        phys := physical;
      }
      sinceGameSec := if nowGameSec > 0.0 then nowGameSec else 0.0;
    }

    /** The yield part of handleCombatDetach. */
    method HandleCombatDetach(event: string, nowGameSec: real, nowWall: int, current: string, physical: Option<Physical>)
      modifies this
      ensures View() == Step(old(View()), Detach(event, nowGameSec, nowWall, current, physical))
    {
      var prev, baseline := "", None;
      if !combatYield {
        prev := current;
        baseline := physical;
      }
      BeginCombatYield(event, nowGameSec, nowWall, prev, baseline);
    }

    /** The hook in recordActionCompletion. */
    method NoteCompletion(id: string)
      modifies this
      ensures View() == Step(old(View()), Completion(id))
    {
      if combatYield && prevActionID == id {
        prevActionID := "";
      }
    }

    method EndCombatYield()
      modifies this
      ensures View() == NO_YIELD
    {
      combatYield, sinceGameSec, sinceWall, lastEvent, prevActionID, phys := false, 0.0, None, "", "", None;
    }

    /** reclaimFromCombatYield: the catch-up stop, the event to echo and the baseline. */
    method Reclaim() returns (stop: Option<string>, echo: string, baseline: Option<Physical>)
      modifies this
      ensures View() == NO_YIELD
      ensures stop == if old(prevActionID) != "" then Some(old(prevActionID)) else None
      ensures echo == old(lastEvent) && baseline == old(phys)
    {
      var prev := prevActionID;
      echo, baseline := lastEvent, phys;
      EndCombatYield();
      stop := if prev != "" then Some(prev) else None;
    }

    method CheckTakeoverStop(wall: int) returns (stop: Option<string>)
      modifies this
      ensures View() == Step(old(View()), TakeoverCheck(wall))
      ensures stop == StopAttempt(old(View()), TakeoverCheck(wall))
    {
      var prev := prevActionID;
      if !combatYield || prev == "" || sinceWall.None? {
        return None;
      }
      if wall - sinceWall.value < GRACE {
        return None;
      }
      stop := Some(prev);
      prevActionID := "";
    }

    method CheckExpiry(now: real) returns (reclaimed: bool, stop: Option<string>)
      modifies this
      ensures View() == Step(old(View()), ExpiryCheck(now))
      ensures reclaimed <==> Reclaims(old(View()), ExpiryCheck(now))
      ensures stop == StopAttempt(old(View()), ExpiryCheck(now))
    {
      reclaimed, stop := false, None;
      if !combatYield {
        return;
      }
      if sinceGameSec <= 0.0 {
        if now > 0.0 {
          sinceGameSec := now;
        }
        return;
      }
      if now <= 0.0 || now - sinceGameSec < TTL {
        return;
      }
      var echo, baseline;
      stop, echo, baseline := Reclaim();
      reclaimed := true;
    }
  }

  // ----- every run -----

  function After(y: Yield, es: seq<Event>): Yield {
    if es == [] then y else Step(After(y, es[..|es| - 1]), Last(es))
  }

  function One(b: bool): nat { if b then 1 else 0 }

  predicate Consistent(y: Yield) {
    (!y.active ==> y.prevActionID == "" && y.phys.None?) && (y.active ==> y.sinceWall.Some?)
  }

  lemma {:induction false} AlwaysConsistent(es: seq<Event>)
    ensures Consistent(After(NO_YIELD, es))
  {
    if es != [] {
      AlwaysConsistent(es[..|es| - 1]);
    }
  }

  /** Entries that find the action in flight. */
  function Entries(es: seq<Event>, id: string): nat {
    if es == [] then 0
    else
      var e, init := Last(es), es[..|es| - 1];
      Entries(init, id) + One(e.Detach? && !After(NO_YIELD, init).active && e.current == id)
  }

  function Attempts(es: seq<Event>, id: string): nat {
    if es == [] then 0
    else Attempts(es[..|es| - 1], id) + One(StopAttempt(After(NO_YIELD, es[..|es| - 1]), Last(es)) == Some(id))
  }

  /** Completions that settle the remembered action. */
  function Seen(es: seq<Event>, id: string): nat {
    if es == [] then 0
    else
      var y := After(NO_YIELD, es[..|es| - 1]);
      Seen(es[..|es| - 1], id) + One(Last(es) == Completion(id) && y.active && y.prevActionID == id)
  }

  /** Over any run, with any number of repeat attacks, checks, completions and handbacks, an
      action in flight at entry is settled once: by one stop attempt or by its completion,
      never both, or it is still remembered. */
  lemma {:induction false} OneStopOrCompletion(es: seq<Event>, id: string)
    requires id != ""
    ensures Entries(es, id) == Attempts(es, id) + Seen(es, id) + One(After(NO_YIELD, es).prevActionID == id)
  {
    if es != [] {
      var init := es[..|es| - 1];
      OneStopOrCompletion(init, id);
      AlwaysConsistent(init);
      var y, e := After(NO_YIELD, init), Last(es);
      assert After(NO_YIELD, es) == Step(y, e);
      hide After;
    }
  }

  // ----- one episode -----

  /** The events after an entry, none of which takes the body back. */
  predicate Holds(y: Yield, es: seq<Event>) {
    es == [] || (Holds(y, es[..|es| - 1]) && !Reclaims(After(y, es[..|es| - 1]), Last(es)))
  }

  predicate StoppedIn(y: Yield, es: seq<Event>) {
    es != [] && (StoppedIn(y, es[..|es| - 1]) || StopAttempt(After(y, es[..|es| - 1]), Last(es)).Some?)
  }

  /** Through repeat attacks the baseline and the remembered action stay those of the first
      entry; the action is forgotten exactly when it was stopped or seen to complete. */
  lemma {:induction false} EntryIsRemembered(y: Yield, first: Event, es: seq<Event>)
    requires Consistent(y) && !y.active && first.Detach? && first.current != "" && Holds(Step(y, first), es)
    ensures var (start, end) := (Step(y, first), After(Step(y, first), es));
            && end.active && end.phys == first.physical
            && (end.prevActionID == first.current || end.prevActionID == "")
            && (end.prevActionID == "" <==> Completion(first.current) in es || StoppedIn(start, es))
    decreases |es|
  {
    if es != [] {
      var init, e := es[..|es| - 1], Last(es);
      EntryIsRemembered(y, first, init);
      assert es == init + [e];
      var start := Step(y, first);
      var mid := After(start, init);
      EpisodeStep(mid, e, first);
      assert After(start, es) == Step(mid, e);
      assert Completion(first.current) in es <==> Completion(first.current) in init || e == Completion(first.current);
    }
  }

  lemma EpisodeStep(mid: Yield, e: Event, first: Event)
    requires first.Detach? && first.current != "" && mid.active && mid.phys == first.physical && !Reclaims(mid, e)
    requires mid.prevActionID == first.current || mid.prevActionID == ""
    ensures var end := Step(mid, e);
            && end.active && end.phys == first.physical
            && (end.prevActionID == "" <==>
                mid.prevActionID == "" || e == Completion(first.current) || StopAttempt(mid, e).Some?)
            && (end.prevActionID == first.current || end.prevActionID == "")
  {
  }

  // ----- clocks -----

  /** When the current yield was last entered or refreshed, on the wall clock. */
  function LastDetachWall(es: seq<Event>): Option<int> {
    if es == [] then None
    else if Last(es).Detach? then Some(Last(es).nowWall)
    else LastDetachWall(es[..|es| - 1])
  }

  /** The first game time known since the last attack: its own, or that of a later check. */
  function Anchor(es: seq<Event>): Option<real> {
    if es == [] then None
    else
      var e, before := Last(es), Anchor(es[..|es| - 1]);
      if e.Detach? then if e.nowGameSec > 0.0 then Some(e.nowGameSec) else None
      else if e.ExpiryCheck? && before.None? && e.gameSec > 0.0 then Some(e.gameSec)
      else before
  }

  lemma {:induction false} ClocksAreLatest(es: seq<Event>)
    ensures var y := After(NO_YIELD, es);
            y.active ==>
              && y.sinceWall == LastDetachWall(es)
              && (if y.sinceGameSec > 0.0 then Anchor(es) == Some(y.sinceGameSec) else Anchor(es) == None)
  {
    if es != [] {
      ClocksAreLatest(es[..|es| - 1]);
    }
  }

  /** The takeover check stops the old action exactly when it is still remembered and two
      seconds have passed since the last attack. */
  lemma TakeoverStopTiming(es: seq<Event>, wall: int)
    ensures var (y, last) := (After(NO_YIELD, es), LastDetachWall(es));
            StopAttempt(y, TakeoverCheck(wall)).Some? <==>
            y.active && y.prevActionID != "" && last.Some? && wall - last.value >= 2_000_000_000
  {
    ClocksAreLatest(es);
  }

  /** Control comes back without combat_exit exactly when the yield is on and 120 game
      minutes have passed since its anchor. */
  lemma ReclaimTiming(es: seq<Event>, now: real)
    ensures var (y, anchor) := (After(NO_YIELD, es), Anchor(es));
            Reclaims(y, ExpiryCheck(now)) <==>
            y.active && anchor.Some? && now > 0.0 && now - anchor.value >= 120.0 * 60.0
  {
    ClocksAreLatest(es);
    AnchorsArePositive(es);
  }

  lemma {:induction false} AnchorsArePositive(es: seq<Event>)
    ensures Anchor(es).Some? ==> Anchor(es).value > 0.0
  {
    if es != [] {
      AnchorsArePositive(es[..|es| - 1]);
    }
  }

  /** As long as checks see a running clock, an attack keeps the body for at least 120 game
      minutes more. */
  lemma AttackExtends(es: seq<Event>, attack: Event, quiet: seq<Event>, now: real)
    requires attack.Detach? && attack.nowGameSec > 0.0
    requires forall k :: 0 <= k < |quiet| ==> !quiet[k].Detach?
    requires Reclaims(After(NO_YIELD, es + [attack] + quiet), ExpiryCheck(now))
    ensures now - attack.nowGameSec >= 120.0 * 60.0
  {
    ReclaimTiming(es + [attack] + quiet, now);
    AnchorHolds(es + [attack], quiet);
    assert (es + [attack])[..|es|] == es;
  }

  lemma {:induction false} AnchorHolds(es: seq<Event>, quiet: seq<Event>)
    requires Anchor(es).Some? && forall k :: 0 <= k < |quiet| ==> !quiet[k].Detach?
    ensures Anchor(es + quiet) == Anchor(es)
  {
    if quiet == [] {
      assert es + quiet == es;
    } else {
      assert (es + quiet)[..|es + quiet| - 1] == es + quiet[..|quiet| - 1];
      AnchorHolds(es, quiet[..|quiet| - 1]);
    }
  }

  // ----- the takeover check is not one critical section -----

  predicate StopsAgain(y: Yield, es: seq<Event>, id: string) {
    es != [] && (StopsAgain(y, es[..|es| - 1], id) || StopAttempt(After(y, es[..|es| - 1]), Last(es)) == Some(id))
  }

  /** Control is handed back before the action is seen to complete. */
  predicate ExitsFirst(es: seq<Event>, id: string) {
    exists k :: 0 <= k < |es| && es[k].CombatExit? && Completion(id) !in es[..k]
  }

  /** What another thread can do while the worker is inside a takeover check for `id`. */
  predicate BesideCheck(es: seq<Event>, id: string) {
    forall k :: 0 <= k < |es| ==>
      !es[k].TakeoverCheck? && !es[k].ExpiryCheck? && (es[k].Detach? ==> es[k].current != id)
  }

  /** The code reads the remembered action, sends the stop and then clears whatever is
      remembered. Events between the reading and the clearing leave the state of an undivided
      check, except that an action remembered by a new yield is forgotten too; and the action
      is stopped twice if and only if control is handed back in between before it is seen to
      complete. */
  lemma DividedCheck(y: Yield, wall: int, inside: seq<Event>)
    requires StopsNow(y, wall) && BesideCheck(inside, y.prevActionID)
    ensures After(y, inside).(prevActionID := "")
         == After(Step(y, TakeoverCheck(wall)), inside).(prevActionID := "")
    ensures StopsAgain(y, inside, y.prevActionID) <==> ExitsFirst(inside, y.prevActionID)
  {
    DividedRun(y, wall, inside);
  }

  /** Inside the check for `id`: `end` and `undivided` differ in the remembered action only,
      and `end` remembers `id` until it is seen to complete or control is handed back. */
  predicate Mirrors(id: string, end: Yield, undivided: Yield, completed: bool, exited: bool) {
    && end.(prevActionID := "") == undivided.(prevActionID := "")
    && (end.prevActionID == undivided.prevActionID
        || (end.active && end.prevActionID == id && undivided.prevActionID == ""))
    && (!end.active ==> end == NO_YIELD)
    && (end.prevActionID == id <==> !completed && !exited)
    && (end.prevActionID == id ==> end.active)
  }

  lemma MirrorsNext(id: string, end: Yield, undivided: Yield, completed: bool, exited: bool, e: Event)
    requires id != "" && Mirrors(id, end, undivided, completed, exited)
    requires !e.TakeoverCheck? && !e.ExpiryCheck? && (e.Detach? ==> e.current != id)
    ensures var exits := exited || (e.CombatExit? && !completed);
            Mirrors(id, Step(end, e), Step(undivided, e), completed || e == Completion(id), exits)
            && (StopAttempt(end, e) == Some(id) <==> e.CombatExit? && !completed && !exited)
  {
  }

  lemma {:induction false} DividedRun(y: Yield, wall: int, inside: seq<Event>)
    requires StopsNow(y, wall) && BesideCheck(inside, y.prevActionID)
    ensures var id := y.prevActionID;
            Mirrors(id, After(y, inside), After(Step(y, TakeoverCheck(wall)), inside), Completion(id) in inside, ExitsFirst(inside, id))
            && (StopsAgain(y, inside, id) <==> ExitsFirst(inside, id))
  {
    var id, checked := y.prevActionID, Step(y, TakeoverCheck(wall));
    if inside != [] {
      var init, e := inside[..|inside| - 1], inside[|inside| - 1];
      assert inside == init + [e] && BesideCheck(init, id);
      DividedRun(y, wall, init);
      ExitsFirstAppend(init, e, id);
      MirrorsNext(id, After(y, init), After(checked, init), Completion(id) in init, ExitsFirst(init, id), e);
      hide ExitsFirst, Mirrors, Step, StopAttempt, BesideCheck;
      assert After(y, inside) == Step(After(y, init), e) && After(checked, inside) == Step(After(checked, init), e);
      assert Completion(id) in inside <==> Completion(id) in init || e == Completion(id);
    }
  }

  lemma ExitsFirstAppend(es: seq<Event>, e: Event, id: string)
    ensures ExitsFirst(es + [e], id) <==> ExitsFirst(es, id) || (e.CombatExit? && Completion(id) !in es)
  {
    var both := es + [e];
    assert forall k :: 0 <= k <= |es| ==> both[..k] == es[..k];
    if ExitsFirst(es, id) {
      var k :| 0 <= k < |es| && es[k].CombatExit? && Completion(id) !in es[..k];
      assert both[k].CombatExit? && Completion(id) !in both[..k];
    }
    if e.CombatExit? && Completion(id) !in es {
      assert both[|es|].CombatExit? && both[..|es|] == es;
    }
  }

  /** A run in which an action is stopped twice. */
  lemma StoppedTwice(event: string, id: string)
    requires id != ""
    ensures var y := After(NO_YIELD, [Detach(event, 0.0, 0, id, None)]);
            StopAttempt(y, TakeoverCheck(GRACE)) == Some(id) && StopsAgain(y, [CombatExit], id)
  {
    var entry := Detach(event, 0.0, 0, id, None);
    var y := Step(NO_YIELD, entry);
    AfterOne(NO_YIELD, entry);
    assert StopAttempt(y, CombatExit) == Some(id) && After(y, []) == y;
    assert [CombatExit][..|[CombatExit]| - 1] == [];
  }

  lemma AfterOne(y: Yield, e: Event)
    ensures After(y, [e]) == Step(y, e)
  {
    hide Step;
    assert [e][..0] == [] && After(y, []) == y;
  }

  // ----- nor is the expiry check -----

  /** The latest attack comes after the latest handback. */
  predicate AttackedAgain(es: seq<Event>) {
    es != [] && (Last(es).Detach? || (!Last(es).CombatExit? && AttackedAgain(es[..|es| - 1])))
  }

  /** What another thread can do while the worker is inside an expiry check at game time `now`. */
  predicate BesideExpiry(es: seq<Event>, now: real) {
    forall k :: 0 <= k < |es| ==>
      !es[k].TakeoverCheck? && !es[k].ExpiryCheck?
      && (es[k].Detach? && es[k].nowGameSec > 0.0 ==> now - es[k].nowGameSec < TTL)
  }

  /** The code reads the anchor, decides, and then takes the body back. It takes it from a
      yield that has not expired if and only if an attack came in between, after any
      handback. */
  lemma {:induction false} DividedExpiry(y: Yield, now: real, inside: seq<Event>)
    requires Expired(y, now) && BesideExpiry(inside, now)
    ensures var end := After(y, inside);
            (end.active && !Expired(end, now) <==> AttackedAgain(inside))
            && (!AttackedAgain(inside) && end.active ==> end.sinceGameSec == y.sinceGameSec)
  {
    if inside != [] {
      var init := inside[..|inside| - 1];
      DividedExpiry(y, now, init);
      assert forall k :: 0 <= k < |init| ==> init[k] == inside[k];
      assert Last(inside) == inside[|init|];
    }
  }

  /** A run in which that happens: the check finds the first attack's 120 minutes over, and a
      second attack comes before the body is taken back. */
  lemma TakenBackTooSoon(event: string)
    ensures var y := After(NO_YIELD, [Detach(event, 1.0, 0, "", None)]);
            Expired(y, 7201.0)
            && (var end := After(y, [Detach(event, 7201.0, 0, "", None)]); end.active && !Expired(end, 7201.0))
  {
    AfterOne(NO_YIELD, Detach(event, 1.0, 0, "", None));
    AfterOne(After(NO_YIELD, [Detach(event, 1.0, 0, "", None)]), Detach(event, 7201.0, 0, "", None));
  }

  // ----- nor is the detach -----

  lemma {:induction false} HeldOrEnded(y: Yield, inside: seq<Event>)
    requires forall k :: 0 <= k < |inside| ==> !inside[k].Detach?
    ensures var now := After(y, inside);
            && (!y.active ==> now == y)
            && (y.active ==> (now.active <==> Holds(y, inside)) && (!now.active ==> now == NO_YIELD))
  {
    if inside != [] {
      var init := inside[..|inside| - 1];
      assert forall k :: 0 <= k < |init| ==> init[k] == inside[k];
      assert !Last(inside).Detach?;
      HeldOrEnded(y, init);
    }
  }

  /** The code reads whether the body is yielded, and begins the yield later with the action
      and the baseline of an entry or of a repeat attack. That is what an undivided detach
      does, unless the body was yielded and is taken back in between: then the new yield
      remembers neither, although there is one to remember. */
  lemma DividedDetach(y: Yield, inside: seq<Event>, detach: Event)
    requires Consistent(y) && detach.Detach? && forall k :: 0 <= k < |inside| ==> !inside[k].Detach?
    ensures var now := After(y, inside);
            var begun := Begun(now, detach.event, detach.nowGameSec, detach.nowWall,
                               if y.active then "" else detach.current, if y.active then None else detach.physical);
            begun == Step(now, detach) <==>
            !y.active || Holds(y, inside) || (detach.current == "" && detach.physical.None?)
  {
    HeldOrEnded(y, inside);
  }

  // ----- the event that is echoed -----

  /** The latest attack of a run. */
  function LastAttack(es: seq<Event>): string {
    if es == [] then "" else if Last(es).Detach? then Last(es).event else LastAttack(es[..|es| - 1])
  }

  /** Over every run a yielded body remembers the latest attack, which is what a reclaim echoes;
      a body that is not yielded remembers nothing. */
  lemma {:induction false} LatestAttackIsEchoed(es: seq<Event>)
    ensures var y := After(NO_YIELD, es);
            if y.active then y.lastEvent == LastAttack(es) else y == NO_YIELD
  {
    if es != [] {
      LatestAttackIsEchoed(es[..|es| - 1]);
    }
  }

  // ----- the baseline, whoever passes it -----

  function FirstGiven(given: seq<Option<Physical>>): Option<Physical> {
    if given == [] then None
    else if FirstGiven(given[..|given| - 1]).Some? then FirstGiven(given[..|given| - 1])
    else Last(given)
  }

  /** However often a yield is begun again, and with whatever baselines, the first one stays. */
  function BegunAgain(y: Yield, event: string, game: real, wall: int, given: seq<Option<Physical>>): Yield {
    if given == [] then y
    else Begun(BegunAgain(y, event, game, wall, given[..|given| - 1]), event, game, wall, "", Last(given))
  }

  lemma {:induction false} BaselineLatches(y: Yield, event: string, game: real, wall: int, given: seq<Option<Physical>>)
    ensures var end := BegunAgain(y, event, game, wall, given);
            end.phys == (if y.phys.Some? then y.phys else FirstGiven(given)) && end.prevActionID == y.prevActionID
  {
    if given != [] {
      BaselineLatches(y, event, game, wall, given[..|given| - 1]);
    }
  }
}
