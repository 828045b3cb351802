/** The slot in force (selectCurrentGoal, tactical.go) and the mid-day revision of the plan
    text (strategic_replan.go). */
module PlanRevision {
  import opened Text
  import opened SlotUtil
  import opened PlanItems
  import opened PlanText

  datatype Choice = NoGoal | Chosen(goal: string, slot: string, index: nat)

  function FirstWith(items: seq<Item>, slot: string): (r: Option<nat>)
    ensures r.Some? ==> r.value < |items| && items[r.value].time == slot
                        && forall k :: 0 <= k < r.value ==> items[k].time != slot
    ensures r.None? ==> forall k :: 0 <= k < |items| ==> items[k].time != slot
  {
    if items == [] then None
    else if items[0].time == slot then Some(0)
    else
      match FirstWith(items[1..], slot)
      case None => None
      case Some(k) => Some(k + 1)
  }

  /** selectCurrentGoal; 06:00-07:00 belongs to planning and has no goal. */
  function SelectCurrentGoal(dailyPlan: string, timeOfDay: string): Choice {
    var cur := ParsePlanMinute(timeOfDay);
    if dailyPlan == "" || DAY_START - 60 <= cur < DAY_START then NoGoal
    else
      var items := Parsed(dailyPlan);
      var slot := MatchPlanSlot(items, timeOfDay);
      if slot == "" then NoGoal
      else
        match FirstWith(items, slot)
        case None => NoGoal
        case Some(i) => Chosen(items[i].goal, slot, i)
  }

  // ----- a chosen slot is not an expired one -----

  lemma RangeIsInt64(time: string)
    requires SplitPlanRange(time).Some?
    ensures SplitPlanRange(time).value.0 < TWO_63 && SplitPlanRange(time).value.1 < TWO_63
  {
    hide AtoiValue, Wrap, TrimSpace, IndexOf;
  }

  lemma NextDayWraps(end: int)
    requires 0 <= end < TWO_63
    ensures Wrap(end + DAY) == end + DAY || Wrap(end + DAY) < 0
  {
    if end + DAY >= TWO_63 {
      assert Wrap(end + DAY) == Wrap(end + DAY - TWO_64);
    }
  }

  lemma NotPastEnd(start: int, end: int, cur: int)
    requires start >= 0 && 0 <= end < TWO_63 && 0 <= cur < DAY && InForce(start, end, cur)
    ensures !PastEnd(RangeOf(start, end), cur)
  {
    NextDayWraps(end);
    hide Wrap;
  }

  lemma InForceIsNotExpired(slot: string, tod: string, start: int, end: int)
    requires SplitPlanRange(slot) == Some((start, end)) && start >= 0 && end >= 0
    requires 0 <= ParsePlanMinute(tod) < DAY && InForce(start, end, ParsePlanMinute(tod))
    ensures !SlotExpired(slot, tod)
  {
    hide ParsePlanMinute, SplitPlanRange, PastEnd, InForce;
    RangeIsInt64(slot);
    NotPastEnd(start, end, ParsePlanMinute(tod));
  }

  /** The slot chosen at a time of day is never expired at that time, for any plan text:
      choosing it and switching away from it cannot alternate. */
  lemma ChosenIsNotExpired(dailyPlan: string, tod: string)
    requires ParsePlanMinute(tod) < DAY
    requires SelectCurrentGoal(dailyPlan, tod).Chosen?
    ensures !SlotExpired(SelectCurrentGoal(dailyPlan, tod).slot, tod)
  {
    hide ParsePlanMinute, SplitPlanRange, Parsed, InForce, SlotExpired;
    var items, cur := Parsed(dailyPlan), ParsePlanMinute(tod);
    MatchAtFindsFirst(items, cur);
    var i :| 0 <= i < |items| && Covers(items[i], cur) && MatchAt(items, cur) == items[i].time;
    InForceIsNotExpired(items[i].time, tod, items[i].Start(), items[i].End());
  }

  // ----- which goal is chosen -----

  lemma ParsedHaveRanges(text: string)
    ensures forall k :: 0 <= k < |Parsed(text)| ==> Parsed(text)[k].Range().Some?
  {
    hide ParseLines, Line, IndexColonSpace, SplitPlanRange;
    ParsedArePrintable(Lines(text));
  }

  /** The first item in force, by its own slot. */
  predicate FirstInForce(items: seq<Item>, cur: int, i: nat) {
    && i < |items| && InForce(items[i].Start(), items[i].End(), cur)
    && forall k :: 0 <= k < i ==> !InForce(items[k].Start(), items[k].End(), cur)
  }

  predicate SomeInForce(items: seq<Item>, cur: int) {
    exists i :: 0 <= i < |items| && InForce(items[i].Start(), items[i].End(), cur)
  }

  lemma FirstWithSlot(items: seq<Item>, cur: int, i: nat)
    requires FirstInForce(items, cur, i) && forall k :: 0 <= k < |items| ==> items[k].Range().Some?
    ensures FirstWith(items, items[i].time) == Some(i)
  {
    hide SplitPlanRange, InForce;
    var r := FirstWith(items, items[i].time);
    assert r.Some?;
    assert items[r.value].time == items[i].time;
  }

  /** Over all plan texts and times: a goal is chosen exactly when the time parses, is not
      within 06:00-07:00, and some item is in force; and then goal, slot and index are those of
      the first item in force. */
  lemma ChosenIsFirstInForce(dailyPlan: string, tod: string)
    ensures var (items, cur, c) := (Parsed(dailyPlan), ParsePlanMinute(tod), SelectCurrentGoal(dailyPlan, tod));
            && (c.Chosen? <==> cur >= 0 && !(6 * 60 <= cur < 7 * 60) && SomeInForce(items, cur))
            && (c.Chosen? ==> FirstInForce(items, cur, c.index) && items[c.index] == Item(c.slot, c.goal))
  {
    hide ParsePlanMinute, SplitPlanRange, Parsed, InForce, FirstWith, MatchAt;
    var (items, cur) := (Parsed(dailyPlan), ParsePlanMinute(tod));
    EmptyPlan();
    ParsedHaveRanges(dailyPlan);
    MatchAtFindsFirst(items, cur);
    NoTimeIsNegative();
    if Covered(items, cur) {
      var i :| 0 <= i < |items| && Covers(items[i], cur) && MatchAt(items, cur) == items[i].time
               && forall k :: 0 <= k < i ==> !Covers(items[k], cur);
      FirstWithSlot(items, cur, i);
    } else {
      assert forall k :: 0 <= k < |items| ==> !Covers(items[k], cur);
    }
  }

  lemma NoTimeIsNegative()
    ensures ParsePlanMinute("") < 0
  {
    NoColonNoTime("");
  }

  // ----- revision -----

  predicate IsPast(it: Item, cur: int) {
    var (start, end) := SlotRangeMinute(it.time);
    start >= 0 && end >= 0 && end <= cur
  }

  function PastOf(items: seq<Item>, cur: int): seq<Item> {
    if items == [] then []
    else PastOf(items[..|items| - 1], cur) + (if IsPast(Last(items), cur) then [Last(items)] else [])
  }

  lemma {:induction false} PastOfIsPast(items: seq<Item>, cur: int)
    ensures forall k :: 0 <= k < |PastOf(items, cur)| ==> PastOf(items, cur)[k] in items && IsPast(PastOf(items, cur)[k], cur)
  {
    hide IsPast;
    if items != [] {
      PastOfIsPast(items[..|items| - 1], cur);
    }
  }

  /** pastSlots: the old slots that have ended by `timeOfDay`. */
  function PastSlots(oldPlan: string, timeOfDay: string): seq<Item> {
    var cur := ParsePlanMinute(timeOfDay);
    if cur < 0 then [] else PastOf(Parsed(oldPlan), cur)
  }

  /** countPastSlots. */
  function CountPastSlots(oldPlan: string, timeOfDay: string): nat {
    |PastSlots(oldPlan, timeOfDay)|
  }

  /** mergeRemainder. */
  function MergeRemainder(oldPlan: string, newPlan: string, timeOfDay: string): string {
    var past := PastSlots(oldPlan, timeOfDay);
    if past == [] then newPlan else JoinLines(FormatLines(past)) + "\n" + newPlan
  }

  lemma PastArePrintable(oldPlan: string, timeOfDay: string)
    ensures AllPrintable(PastSlots(oldPlan, timeOfDay))
  {
    hide Printable, IsPast, ParseLines, ParsePlanMinute;
    ParsedArePrintable(Lines(oldPlan));
    var items := Parsed(oldPlan);
    PastOfIsPast(items, ParsePlanMinute(timeOfDay));
    forall k | 0 <= k < |PastSlots(oldPlan, timeOfDay)| ensures Printable(PastSlots(oldPlan, timeOfDay)[k]) {
      assert PastSlots(oldPlan, timeOfDay)[k] in items;
    }
  }

  /** The revised text reads back as the ended old slots, in order, followed by the new
      plan: countPastSlots is the index of the first new slot. */
  lemma RevisionReadsBack(oldPlan: string, newPlan: string, timeOfDay: string)
    ensures Parsed(MergeRemainder(oldPlan, newPlan, timeOfDay)) == PastSlots(oldPlan, timeOfDay) + Parsed(newPlan)
    ensures Parsed(MergeRemainder(oldPlan, newPlan, timeOfDay))[CountPastSlots(oldPlan, timeOfDay)..] == Parsed(newPlan)
  {
    hide Printable, ParseLines, FormatLines, PastSlots;
    var past := PastSlots(oldPlan, timeOfDay);
    if past != [] {
      PastArePrintable(oldPlan, timeOfDay);
      ParseOfFormat(past);
      LinesOfConcat(FormatDailyPlan(past), newPlan);
      ParseConcat(Lines(FormatDailyPlan(past)), Lines(newPlan));
    }
  }

  lemma PastIsNotInForce(it: Item, cur: int)
    requires 0 <= cur < DAY && IsPast(it, cur)
    ensures !Covers(it, cur)
  {
    hide SplitPlanRange, Wrap;
    if it.Range().Some? {
      RangeIsInt64(it.time);
      NextDayWraps(it.End());
    }
  }

  lemma {:induction false} MatchAtSkips(a: seq<Item>, b: seq<Item>, cur: int)
    requires forall k :: 0 <= k < |a| ==> !Covers(a[k], cur)
    ensures MatchAt(a + b, cur) == MatchAt(b, cur)
  {
    hide Covers;
    if a == [] {
      assert a + b == b;
    } else {
      assert (a + b)[1..] == a[1..] + b;
      MatchAtSkips(a[1..], b, cur);
    }
  }

  lemma {:induction false} FirstWithSkips(a: seq<Item>, b: seq<Item>, slot: string)
    requires forall k :: 0 <= k < |a| ==> a[k].time != slot
    ensures FirstWith(a + b, slot) == (match FirstWith(b, slot) case None => None case Some(k) => Some(|a| + k))
  {
    if a == [] {
      assert a + b == b;
    } else {
      assert (a + b)[1..] == a[1..] + b;
      FirstWithSkips(a[1..], b, slot);
    }
  }

  /** At the moment of the revision the new plan alone decides the goal, and the index moves
      by countPastSlots. */
  lemma RevisionTakesOver(oldPlan: string, newPlan: string, tod: string)
    requires 0 <= ParsePlanMinute(tod) < DAY
    ensures SelectCurrentGoal(MergeRemainder(oldPlan, newPlan, tod), tod) ==
            match SelectCurrentGoal(newPlan, tod)
            case NoGoal => NoGoal
            case Chosen(goal, slot, index) => Chosen(goal, slot, index + CountPastSlots(oldPlan, tod))
  {
    hide ParsePlanMinute, Parsed, MergeRemainder, PastSlots, MatchAt, FirstWith, Covers;
    var past, items := PastSlots(oldPlan, tod), Parsed(newPlan);
    RevisionReadsBack(oldPlan, newPlan, tod);
    PastDoesNotMatch(oldPlan, tod, items);
    EmptyPlan();
    MergedEmpty(oldPlan, newPlan, tod);
  }

  lemma MergedEmpty(oldPlan: string, newPlan: string, tod: string)
    ensures MergeRemainder(oldPlan, newPlan, tod) == "" ==> newPlan == ""
  {
    hide PastSlots, JoinLines, FormatLines;
  }

  /** Ended slots are skipped by either lookup. */
  lemma PastDoesNotMatch(oldPlan: string, tod: string, items: seq<Item>)
    requires 0 <= ParsePlanMinute(tod) < DAY
    ensures var (past, cur) := (PastSlots(oldPlan, tod), ParsePlanMinute(tod));
            var slot := MatchAt(items, cur);
            MatchAt(past + items, cur) == slot
            && (slot != "" ==>
                  FirstWith(past + items, slot) == (match FirstWith(items, slot) case None => None case Some(k) => Some(|past| + k)))
  {
    hide ParsePlanMinute, Parsed, Covers, IsPast, PastOf, MatchAt, FirstWith;
    var (past, cur) := (PastSlots(oldPlan, tod), ParsePlanMinute(tod));
    PastOfIsPast(Parsed(oldPlan), cur);
    forall k | 0 <= k < |past| ensures !Covers(past[k], cur) {
      PastIsNotInForce(past[k], cur);
    }
    MatchAtSkips(past, items, cur);
    var slot := MatchAt(items, cur);
    if slot != "" {
      forall k | 0 <= k < |past| ensures past[k].time != slot {
        SameTimeSameCover(items, past[k], cur);
      }
      FirstWithSkips(past, items, slot);
    }
  }

  lemma EmptyPlan()
    ensures Parsed("") == []
  {
    hide ParseLine;
    EmptyLineIsNone();
    assert Lines("") == [""] && Last([""]) == "" && [""][..|[""]| - 1] == [];
    assert ParseLines([]) == [];
  }

  lemma SameTimeSameCover(items: seq<Item>, it: Item, cur: int)
    requires !Covers(it, cur) && MatchAt(items, cur) != ""
    ensures it.time != MatchAt(items, cur)
  {
    hide SplitPlanRange, InForce;
    MatchAtFindsFirst(items, cur);
  }

  // ----- which old slots are kept -----

  /** A slot has ended by a time of day exactly when it lies within the day and its end is
      reached: one over midnight never has. */
  lemma EndedExactly(it: Item, cur: int)
    requires it.Range().Some? && 0 <= cur < DAY
    ensures IsPast(it, cur) <==> it.Start() < it.End() <= cur
  {
    hide SplitPlanRange, RangeOf;
    RangeIsInt64(it.time);
    EndedRange(it.Start(), it.End(), cur);
  }

  lemma EndedRange(start: int, end: int, cur: int)
    requires 0 <= start && 0 <= end < TWO_63 && 0 <= cur < DAY
    ensures var (a, b) := RangeOf(start, end);
            a >= 0 && b >= 0 && b <= cur <==> start < end <= cur
  {
    NextDayWraps(end);
    hide Wrap;
  }

  /** Without a time of day nothing counts as ended, and the new plan replaces the old one. */
  lemma NoTimeKeepsNothing(oldPlan: string, newPlan: string, tod: string)
    requires ParsePlanMinute(tod) < 0
    ensures MergeRemainder(oldPlan, newPlan, tod) == newPlan && CountPastSlots(oldPlan, tod) == 0
  {
    hide ParsePlanMinute, Parsed, PastOf;
  }

  lemma {:induction false} PastOfConcat(a: seq<Item>, b: seq<Item>, cur: int)
    ensures PastOf(a + b, cur) == PastOf(a, cur) + PastOf(b, cur)
  {
    hide IsPast;
    if b == [] {
      assert a + b == a;
    } else {
      PastOfConcat(a, b[..|b| - 1], cur);
      assert (a + b)[..|a + b| - 1] == a + b[..|b| - 1];
    }
  }

  /** Wherever an item stands among the old ones, it is kept in its place exactly when it has
      ended. */
  lemma EndedAreKept(a: seq<Item>, it: Item, b: seq<Item>, cur: int)
    requires it.Range().Some? && 0 <= cur < DAY
    ensures PastOf(a + [it] + b, cur) == PastOf(a, cur) + (if it.Start() < it.End() <= cur then [it] else []) + PastOf(b, cur)
    ensures PastOf([], cur) == []
  {
    EndedExactly(it, cur);
    hide IsPast;
    PastOfConcat(a + [it], b, cur);
    PastOfConcat(a, [it], cur);
    assert [it][..0] == [] && PastOf([it], cur) == [] + (if IsPast(it, cur) then [it] else []);
  }
}
