/** Which minutes of the day a normalized plan covers: what normalizeDailyPlan promises
    matchPlanSlot (agenttown-mcp/cmd/agenttown-mcp/strategic.go). */
module PlanCoverage {
  import opened Text
  import opened SlotUtil
  import opened PlanItems
  import opened DailyPlan

  /** Every slot parses and starts within the day; ends are not restricted. */
  predicate Clocked(v: seq<Item>) {
    forall i :: 0 <= i < |v| ==> v[i].Range().Some? && v[i].Start() < DAY
  }

  function Min(a: int, b: int): int { if a < b then a else b }

  // ----- starts survive every step -----

  lemma MergeIntoKeepsStarts(m: seq<Item>, it: Item)
    requires Clocked(m) && SortedByStart(m) && m != []
    requires it.Range().Some? && it.Start() < DAY && Last(m).Start() <= it.Start()
    ensures var r := MergeInto(m, it);
            r != [] && Clocked(r) && SortedByStart(r) && r[0].Start() == m[0].Start()
            && Last(r).Start() <= it.Start() && Last(r).goal == it.goal
            && Last(r).End() == (if Last(m).goal == it.goal then it.End() % DAY else it.End())
            && Last(r).Start() == (if Last(m).goal == it.goal then Last(m).Start() else it.Start())
  {
    hide SplitPlanRange, Slot, Item.Start, Item.End, Item.Range;
    SlotReads(Last(m).Start(), it.End(), it.goal);
    var r := MergeInto(m, it);
    var n := |m| - 1;
    assert forall i :: 0 <= i < n ==> r[i] == m[i];
  }

  lemma {:induction false} MergeKeepsStarts(v: seq<Item>)
    requires Clocked(v) && SortedByStart(v) && v != []
    ensures var m := Merge(v);
            m != [] && Clocked(m) && SortedByStart(m)
            && m[0].Start() == v[0].Start() && Last(m).Start() <= Last(v).Start() && Last(m).goal == Last(v).goal
  {
    hide SplitPlanRange, Slot, Item.Start, Item.End, Item.Range, MergeInto;
    var init := v[..|v| - 1];
    if init == [] {
      assert Merge(v) == MergeInto([], v[0]);
      FirstIsKept(v[0]);
    } else {
      MergeKeepsStarts(init);
      assert Last(init) == v[|v| - 2];
      MergeIntoKeepsStarts(Merge(init), Last(v));
    }
  }

  lemma FirstIsKept(it: Item)
    ensures MergeInto([], it) == [it]
  {
  }

  lemma ReachBack(m: seq<Item>, startMinute: int)
    requires m != [] && m[0].Range().Some? && m[0].Start() < DAY && 0 <= startMinute < DAY
    ensures var r := StartFrom(m, startMinute);
            |r| == |m| && (forall i :: 1 <= i < |m| ==> r[i] == m[i]) && r[0].Range().Some?
            && r[0].Start() == Min(m[0].Start(), startMinute)
            && (m[0].End() < DAY ==> r[0].End() == m[0].End())
  {
    hide SplitPlanRange, Slot, Item.Start, Item.End, Item.Range;
    SlotReads(startMinute, m[0].End(), m[0].goal);
  }

  lemma LaidStarts(sorted: seq<Item>, startMinute: int)
    requires Clocked(sorted) && SortedByStart(sorted) && sorted != [] && 0 <= startMinute < DAY
    ensures Merge(sorted) != []
    ensures var m := Laid(sorted, startMinute);
            m != [] && Clocked(m) && SortedByStart(m) && m[0].Start() == Min(sorted[0].Start(), startMinute)
  {
    hide SplitPlanRange, Slot, Item.Start, Item.End, Item.Range, Merge, StartFrom;
    MergeKeepsStarts(sorted);
    ReachBack(Merge(sorted), startMinute);
  }

  // ----- what each slot covers -----

  /** A stretched slot covers at least up to the next start. */
  lemma StretchedCovers(m: seq<Item>, i: nat, c: int)
    requires Clocked(m) && i + 1 < |m| && m[i].Start() <= c < m[i + 1].Start()
    ensures Covers(FillGaps(m)[i], c)
  {
    hide SplitPlanRange, Slot, Item.Start, Item.End, Item.Range;
    SlotReads(m[i].Start(), m[i + 1].Start(), m[i].goal);
  }

  /** How the last slot ends up, from its start `s` and end `e` before step 5. */
  function FinalEnd(s: int, e: int): int {
    if e > s then
      if e < NIGHT_START then NIGHT_START
      else if e < DAY_END then MORNING
      else e
    else if e < MORNING then MORNING
    else e
  }

  lemma FinalSlot(it: Item)
    requires it.Range().Some?
    ensures var f := ClampItem(ExtendItem(it));
            f.Range().Some? && f.End() == FinalEnd(it.Start(), it.End())
            && (f.Start() == it.Start() || f.Start() == it.Start() % DAY)
  {
    hide SplitPlanRange, Slot, Item.Start, Item.End, Item.Range;
    SlotReads(it.Start(), NIGHT_START, it.goal);
    SlotReads(it.Start(), DAY_END, it.goal);
    SlotReads(it.Start(), MORNING, it.goal);
    SlotReads(it.Start() % DAY, MORNING, it.goal);
  }

  /** The normalized plan slot by slot. */
  lemma NormalizedSlots(sorted: seq<Item>, startMinute: int)
    requires Clocked(sorted) && SortedByStart(sorted) && sorted != [] && 0 <= startMinute < DAY
    ensures Merge(sorted) != []
    ensures var m, v := Laid(sorted, startMinute), Normalized(sorted, startMinute);
            |v| == |m| > 0
            && (forall i :: 0 <= i < |m| - 1 ==> v[i] == FillGaps(m)[i])
            && Last(v).Range().Some? && Last(v).Start() == Last(m).Start()
            && Last(v).End() == FinalEnd(Last(m).Start(), Last(m).End())
  {
    hide SplitPlanRange, Slot, Item.Start, Item.End, Item.Range, FillOne, ExtendItem, ClampItem, FinalEnd, Merge;
    LaidStarts(sorted, startMinute);
    var m := Laid(sorted, startMinute);
    assert Last(FillGaps(m)) == Last(m);
    FinalSlot(Last(m));
  }

  lemma FindSlot(m: seq<Item>, c: int) returns (i: nat)
    requires m != [] && SortedByStart(m) && m[0].Start() <= c
    ensures i < |m| && m[i].Start() <= c && (i + 1 < |m| ==> c < m[i + 1].Start())
  {
    hide Item.Start;
    i := 0;
    while i + 1 < |m| && m[i + 1].Start() <= c
      invariant i < |m| && m[i].Start() <= c
    {
      i := i + 1;
    }
  }

  /** Everything before the last start is covered, whatever the plan. */
  lemma CoveredBeforeLast(sorted: seq<Item>, startMinute: int, c: int)
    requires Clocked(sorted) && SortedByStart(sorted) && sorted != [] && 0 <= startMinute < DAY
    requires Merge(sorted) != []
    requires Min(sorted[0].Start(), startMinute) <= c < Last(Laid(sorted, startMinute)).Start()
    ensures Covered(Normalized(sorted, startMinute), c)
  {
    hide SplitPlanRange, Item.Start, Item.Range, FillOne, Merge, InForce, Normalized, Covers, FillGaps, StartFrom;
    LaidStarts(sorted, startMinute);
    NormalizedSlots(sorted, startMinute);
    var m := Laid(sorted, startMinute);
    var i := FindSlot(m, c);
    StretchedCovers(m, i, c);
  }

  // ----- the day, 22:00 excluded -----

  /** Step 5 pulls the end of a last slot back to 06:00 that starts before it. */
  predicate Shrinks(s: int, e: int) {
    s < MORNING && (e <= s || NIGHT_START <= e < DAY_END)
  }

  /** The slot is in force at every minute from its start to 22:00. */
  predicate Reaches(it: Item) {
    it.End() <= it.Start() || it.End() >= NIGHT_START
  }

  ghost predicate DayCovered(sorted: seq<Item>, startMinute: int)
    requires sorted != []
  {
    forall c :: Min(sorted[0].Start(), startMinute) <= c < NIGHT_START ==> Covered(Normalized(sorted, startMinute), c)
  }

  /** Before gaps are filled: the slot will still reach 22:00 in front of `next`. */
  predicate StaysLong(it: Item, next: Item) {
    it.End() == 0 || it.End() >= NIGHT_START || it.End() <= it.Start() == next.Start()
  }

  lemma FilledReaches(m: seq<Item>, i: nat)
    requires Clocked(m) && SortedByStart(m) && i + 1 < |m| && m[i + 1].Start() < NIGHT_START
    ensures Reaches(FillGaps(m)[i]) <==> StaysLong(m[i], m[i + 1])
  {
    hide SplitPlanRange, Slot, Item.Start, Item.End, Item.Range;
    SlotReads(m[i].Start(), m[i + 1].Start(), m[i].goal);
  }

  /** Every minute from the first start to 22:00 is covered, exactly unless the last of the
      merged slots begins before 06:00, is pulled back to end there, and no earlier one
      stays long enough. */
  lemma DayIsCovered(sorted: seq<Item>, startMinute: int)
    requires Clocked(sorted) && SortedByStart(sorted) && sorted != [] && 0 <= startMinute < DAY
    ensures Merge(sorted) != []
    ensures var m := Laid(sorted, startMinute);
            DayCovered(sorted, startMinute) <==>
            !Shrinks(Last(m).Start(), Last(m).End()) || exists i :: 0 <= i < |m| - 1 && StaysLong(m[i], m[i + 1])
  {
    hide SplitPlanRange, Item.Start, Item.End, Item.Range, FillOne, Merge, Normalized, FillGaps, StartFrom, StaysLong;
    NormalizedSlots(sorted, startMinute);
    LaidStarts(sorted, startMinute);
    var m, v := Laid(sorted, startMinute), Normalized(sorted, startMinute);
    if !Shrinks(Last(m).Start(), Last(m).End()) {
      forall c | Min(sorted[0].Start(), startMinute) <= c < NIGHT_START ensures Covered(v, c) {
        if c < Last(m).Start() {
          CoveredBeforeLast(sorted, startMinute, c);
        } else {
          assert Covers(v[|v| - 1], c);
        }
      }
    } else if i :| 0 <= i < |m| - 1 && StaysLong(m[i], m[i + 1]) {
      FilledReaches(m, i);
      LongSlotCovers(sorted, startMinute, i);
    } else {
      forall i | 0 <= i < |m| - 1 ensures !Reaches(v[i]) {
        FilledReaches(m, i);
      }
      LateMinuteNeedsReach(m, v);
      assert Min(sorted[0].Start(), startMinute) <= NIGHT_START - 1;
      assert !Covered(v, NIGHT_START - 1);
    }
  }

  lemma LongSlotCovers(sorted: seq<Item>, startMinute: int, i: nat)
    requires Clocked(sorted) && SortedByStart(sorted) && sorted != [] && 0 <= startMinute < DAY
    requires Merge(sorted) != []
    requires i < |Laid(sorted, startMinute)| - 1 && Reaches(FillGaps(Laid(sorted, startMinute))[i])
    ensures DayCovered(sorted, startMinute)
  {
    hide SplitPlanRange, Item.Start, Item.End, Item.Range, FillOne, Merge, Normalized, FillGaps, StartFrom;
    NormalizedSlots(sorted, startMinute);
    LaidStarts(sorted, startMinute);
    var m, v := Laid(sorted, startMinute), Normalized(sorted, startMinute);
    StretchedStart(m, i);
    forall c | Min(sorted[0].Start(), startMinute) <= c < NIGHT_START ensures Covered(v, c) {
      if c < Last(m).Start() {
        CoveredBeforeLast(sorted, startMinute, c);
      } else {
        assert Covers(v[i], c);
      }
    }
  }

  /** So a plan made and starting from 06:00 on is covered to 22:00, whatever its slots. */
  lemma MorningPlanCoversDay(sorted: seq<Item>, startMinute: int)
    requires Clocked(sorted) && SortedByStart(sorted) && sorted != [] && MORNING <= startMinute < DAY
    requires sorted[0].Start() >= MORNING
    ensures DayCovered(sorted, startMinute)
  {
    hide Clocked, Item.Start, Item.End, Merge, StartFrom, DayCovered, SplitPlanRange;
    DayIsCovered(sorted, startMinute);
    LaidStarts(sorted, startMinute);
    LastIsLatest(Laid(sorted, startMinute));
  }

  lemma LastIsLatest(m: seq<Item>)
    requires m != [] && SortedByStart(m)
    ensures m[0].Start() <= Last(m).Start()
  {
    hide Item.Start;
  }

  lemma StretchedStart(m: seq<Item>, i: nat)
    requires Clocked(m) && SortedByStart(m) && i + 1 < |m|
    ensures FillGaps(m)[i].Range().Some? && FillGaps(m)[i].Start() == m[i].Start() <= Last(m).Start()
  {
    hide SplitPlanRange, Slot, Item.Start, Item.End, Item.Range;
    SlotReads(m[i].Start(), m[i + 1].Start(), m[i].goal);
  }

  lemma LateMinuteNeedsReach(m: seq<Item>, v: seq<Item>)
    requires m != [] && |v| == |m| && forall i :: 0 <= i < |m| - 1 ==> v[i] == FillGaps(m)[i] && !Reaches(v[i])
    requires Last(v).Start() == Last(m).Start() && Last(v).End() == FinalEnd(Last(m).Start(), Last(m).End())
    requires Shrinks(Last(m).Start(), Last(m).End())
    ensures !Covered(v, NIGHT_START - 1)
  {
    hide SplitPlanRange, Item.Start, Item.End, Item.Range, FillGaps;
  }

  // ----- the night -----

  predicate SameDay(it: Item) {
    it.Range().Some? && it.Start() < it.End() < DAY
  }

  /** Only the latest slot may cross midnight, ending no later than the first start. */
  predicate OnlyLastCrosses(sorted: seq<Item>)
    requires sorted != []
  {
    && (forall i :: 0 <= i < |sorted| - 1 ==> SameDay(sorted[i]))
    && Last(sorted).Range().Some? && Last(sorted).Start() < DAY
    && (SameDay(Last(sorted)) || Last(sorted).End() <= sorted[0].Start())
  }

  predicate OneGoal(v: seq<Item>) {
    forall i :: 0 <= i < |v| ==> v[i].goal == v[0].goal
  }

  predicate AllSameDay(v: seq<Item>) {
    forall i :: 0 <= i < |v| ==> SameDay(v[i])
  }

  lemma SameDayIsClocked(v: seq<Item>)
    requires AllSameDay(v)
    ensures Clocked(v)
  {
    hide Item.Start, Item.End, Item.Range;
  }

  lemma SameDaySlot(a: Item, it: Item)
    requires SameDay(a) && SameDay(it) && a.Start() <= it.Start()
    ensures SameDay(Slot(a.Start(), it.End(), it.goal)) && SameDay(Slot(a.Start(), it.End(), a.goal))
  {
    SlotReads(a.Start(), it.End(), it.goal);
    SlotReads(a.Start(), it.End(), a.goal);
    hide SplitPlanRange, Slot;
  }

  lemma AddSameDay(m: seq<Item>, it: Item)
    requires AllSameDay(m) && m != [] && SameDay(it) && Last(m).Start() <= it.Start()
    ensures AllSameDay(MergeInto(m, it))
  {
    hide Slot, Item.Start, Item.End, SameDay;
    var last, r := m[|m| - 1], MergeInto(m, it);
    assert SameDay(last);
    SameDaySlot(last, it);
    assert forall i :: 0 <= i < |r| - 1 ==> r[i] == m[i];
  }

  lemma {:induction false} MergeOfSameDay(v: seq<Item>)
    requires v != [] && SortedByStart(v) && AllSameDay(v)
    ensures Merge(v) != [] && AllSameDay(Merge(v)) && (|Merge(v)| == 1 <==> OneGoal(v))
  {
    hide Item.Start, Item.End, Item.Range, MergeInto, SameDay, Clocked;
    var init, last := v[..|v| - 1], v[|v| - 1];
    if init == [] {
      assert Merge(v) == MergeInto([], v[0]);
      FirstIsKept(v[0]);
    } else {
      MergeOfSameDay(init);
      SameDayIsClocked(init);
      MergeKeepsStarts(init);
      assert v == init + [last] && Last(init).Start() <= last.Start();
      hide OneGoal, AllSameDay, SortedByStart;
      AddSameDay(Merge(init), last) by {
        SameDayAt(v, |v| - 1);
      }
      MergeIntoCount(Merge(init), last);
      OneGoalGrows(init, last);
    }
  }

  lemma SameDayAt(v: seq<Item>, i: nat)
    requires AllSameDay(v) && i < |v|
    ensures SameDay(v[i])
  {
    hide SameDay;
  }

  lemma MergeIntoCount(m: seq<Item>, it: Item)
    requires m != []
    ensures |MergeInto(m, it)| == if Last(m).goal == it.goal then |m| else |m| + 1
    ensures forall i :: 0 <= i < |MergeInto(m, it)| - 1 ==> MergeInto(m, it)[i] == m[i]
  {
    hide Slot;
  }

  lemma OneGoalGrows(v: seq<Item>, it: Item)
    requires v != []
    ensures OneGoal(v + [it]) <==> OneGoal(v) && Last(v).goal == it.goal
  {
    var w := v + [it];
    assert forall i :: 0 <= i < |v| ==> w[i] == v[i];
    assert Last(w) == it;
  }

  /** The merged plan of such a plan, and when its last slot still crosses midnight. */
  lemma LaidNight(sorted: seq<Item>, startMinute: int)
    requires sorted != [] && SortedByStart(sorted) && OnlyLastCrosses(sorted) && 0 <= startMinute < DAY
    ensures Merge(sorted) != [] && Clocked(sorted)
    ensures var m := Laid(sorted, startMinute);
            m != [] && (forall i :: 0 <= i < |m| - 1 ==> SameDay(m[i]))
            && Last(m).End() == Last(sorted).End() < DAY
            && (Last(m).End() <= Last(m).Start() <==>
                Last(sorted).End() <= Last(sorted).Start()
                && (!OneGoal(sorted) || Last(sorted).End() <= Min(sorted[0].Start(), startMinute)))
  {
    hide Item.Start, Item.End, Item.Range, StartFrom, Merge, SameDay, OneGoal, SortedByStart;
    OnlyLastCrossesClocked(sorted);
    assert sorted == sorted[..|sorted| - 1] + [Last(sorted)];
    MergedNight(sorted[..|sorted| - 1], Last(sorted));
    LaidStarts(sorted, startMinute);
    hide OnlyLastCrosses, Clocked;
    LaidShape(Merge(sorted), sorted[0], Last(sorted), startMinute);
  }

  lemma LaidShape(m: seq<Item>, first: Item, last: Item, startMinute: int)
    requires NightShape(m, first, last) && first.Start() < DAY && 0 <= startMinute < DAY
    ensures var r := StartFrom(m, startMinute);
            (forall i :: 0 <= i < |r| - 1 ==> SameDay(r[i])) && r[|r| - 1].End() == last.End() < DAY
            && (r[|r| - 1].End() <= r[|r| - 1].Start() <==>
                last.End() <= last.Start() && (|m| > 1 || last.End() <= Min(first.Start(), startMinute)))
  {
    hide SplitPlanRange, Item.Start, Item.End, Item.Range, StartFrom;
    ReachBack(m, startMinute);
    var r := StartFrom(m, startMinute);
    if |m| > 1 {
      assert SameDay(m[0]) && SameDay(r[0]);
    }
  }

  /** A merged plan that begins with `first` and whose last slot ends as `last` does. */
  predicate NightShape(r: seq<Item>, first: Item, last: Item) {
    && r != [] && r[0].Range().Some? && r[0].Start() == first.Start() <= r[|r| - 1].Start()
    && (forall i :: 0 <= i < |r| - 1 ==> SameDay(r[i]))
    && r[|r| - 1].End() == last.End() < DAY
    && (r[|r| - 1].End() <= r[|r| - 1].Start() <==> last.End() <= last.Start())
  }

  lemma AddNight(m: seq<Item>, it: Item)
    requires Clocked(m) && SortedByStart(m) && m != [] && AllSameDay(m)
    requires it.Range().Some? && it.Start() < DAY && Last(m).Start() <= it.Start()
    requires SameDay(it) || it.End() <= m[0].Start()
    ensures NightShape(MergeInto(m, it), m[0], it)
  {
    hide Item.Start, Item.End, Item.Range, MergeInto, SameDay, Clocked, SortedByStart;
    var r := MergeInto(m, it);
    LastIsLatest(m);
    MergeIntoCount(m, it);
    MergeIntoKeepsStarts(m, it);
    LastIsLatest(r);
    ClockedFirst(r);
    assert SameDay(m[|m| - 1]);
    NightEnds(it, m[0], Last(m));
    SameDayEnds(it, Last(m));
  }

  lemma ClockedFirst(m: seq<Item>)
    requires m != [] && Clocked(m)
    ensures m[0].Range().Some?
  {
    hide Item.Start, Item.Range;
  }

  lemma SameDayEnds(it: Item, last: Item)
    ensures SameDay(it) ==> it.Start() < it.End() < DAY
    ensures SameDay(last) ==> last.Start() < DAY
  {
    hide Item.Start, Item.End, Item.Range;
  }

  lemma NightEnds(it: Item, first: Item, last: Item)
    requires SameDay(it) || it.End() <= first.Start()
    requires first.Start() <= last.Start() <= it.Start() && SameDay(last)
    ensures it.End() < DAY && (it.End() <= it.Start() <==> it.End() <= last.Start())
  {
    hide Item.Start, Item.End, Item.Range;
  }

  lemma MergeStep(init: seq<Item>, it: Item)
    ensures Merge(init + [it]) == MergeInto(Merge(init), it)
  {
    hide MergeInto;
    assert (init + [it])[..|init + [it]| - 1] == init;
  }

  lemma OnlyLastCrossesClocked(sorted: seq<Item>)
    requires sorted != [] && OnlyLastCrosses(sorted)
    ensures Clocked(sorted)
  {
    hide Item.Start, Item.End, Item.Range;
  }

  lemma MergedNight(init: seq<Item>, last: Item)
    requires SortedByStart(init + [last]) && OnlyLastCrosses(init + [last])
    ensures NightShape(Merge(init + [last]), (init + [last])[0], last)
    ensures |Merge(init + [last])| == 1 <==> OneGoal(init + [last])
  {
    hide Item.Start, Item.End, Item.Range, MergeInto, Merge, SameDay;
    if init == [] {
      assert init + [last] == [last];
      hide NightShape, OnlyLastCrosses, OneGoal, SortedByStart;
      LastAlone(last);
    } else {
      MergeStep(init, last);
      BeforeLast(init, last);
      MergeOfSameDay(init);
      SameDayIsClocked(init);
      MergeKeepsStarts(init);
      hide Clocked, SortedByStart, AllSameDay, OneGoal, NightShape, OnlyLastCrosses;
      AddNight(Merge(init), last);
      MergeIntoCount(Merge(init), last);
      OneGoalGrows(init, last);
      SameShape(MergeInto(Merge(init), last), Merge(init)[0], init[0], last);
    }
  }

  lemma LastAlone(last: Item)
    requires OnlyLastCrosses([last])
    ensures NightShape(Merge([last]), last, last) && |Merge([last])| == 1 && OneGoal([last])
  {
    hide Item.Start, Item.End, Item.Range, Merge;
    assert Last([last]) == last;
    MergeOfOne(last);
  }

  lemma BeforeLast(init: seq<Item>, last: Item)
    requires init != [] && SortedByStart(init + [last]) && OnlyLastCrosses(init + [last])
    ensures SortedByStart(init) && AllSameDay(init) && Last(init).Start() <= last.Start() < DAY && last.Range().Some?
    ensures SameDay(last) || last.End() <= init[0].Start()
    ensures (init + [last])[0] == init[0]
  {
    hide Item.Start, Item.End, Item.Range, SameDay;
    var sorted := init + [last];
    assert Last(sorted) == last && forall i :: 0 <= i < |init| ==> sorted[i] == init[i];
  }

  lemma SameShape(r: seq<Item>, a: Item, b: Item, last: Item)
    requires NightShape(r, a, last) && a.Start() == b.Start()
    ensures NightShape(r, b, last)
  {
    hide Item.Start, Item.End, Item.Range, SameDay;
  }

  /** From 22:00, or from a first start after it, to 06:00. */
  predicate AtNight(c: int, first: int) {
    (NIGHT_START <= c < DAY && first <= c) || 0 <= c < MORNING
  }

  ghost predicate NightCovered(sorted: seq<Item>, startMinute: int)
    requires sorted != []
  {
    forall c :: AtNight(c, Min(sorted[0].Start(), startMinute)) ==> Covered(Normalized(sorted, startMinute), c)
  }

  /** In force from its start through midnight to 06:00. */
  predicate Overnight(it: Item) {
    MORNING <= it.End() <= it.Start()
  }

  lemma OvernightCovers(it: Item, c: int)
    requires it.Range().Some? && Overnight(it) && (c >= it.Start() || 0 <= c < MORNING)
    ensures Covers(it, c)
  {
  }

  lemma EarlyMinuteNeedsOvernight(it: Item)
    requires it.Start() >= MORNING && Covers(it, MORNING - 1)
    ensures Overnight(it)
  {
  }

  /** Before gaps are filled: the slot will still do so in front of `next`. */
  predicate StaysOvernight(it: Item, next: Item) {
    0 < it.End() <= it.Start() == next.Start()
  }

  lemma FilledOvernight(m: seq<Item>, i: nat)
    requires Clocked(m) && SortedByStart(m) && i + 1 < |m| && m[i].Start() >= MORNING
    ensures Overnight(FillGaps(m)[i]) <==> StaysOvernight(m[i], m[i + 1])
  {
    hide SplitPlanRange, Slot, Item.Start, Item.End, Item.Range;
    SlotReads(m[i].Start(), m[i + 1].Start(), m[i].goal);
  }

  lemma OvernightCoversNight(sorted: seq<Item>, startMinute: int, i: nat)
    requires Clocked(sorted) && SortedByStart(sorted) && sorted != [] && MORNING <= startMinute < DAY
    requires i < |Normalized(sorted, startMinute)| && Overnight(Normalized(sorted, startMinute)[i])
    ensures NightCovered(sorted, startMinute)
  {
    hide SplitPlanRange, Item.Start, Item.End, Item.Range, FillOne, Merge, Normalized, FillGaps, StartFrom, Covers, Overnight;
    NormalizedSlots(sorted, startMinute);
    LaidStarts(sorted, startMinute);
    var m, v := Laid(sorted, startMinute), Normalized(sorted, startMinute);
    if i < |m| - 1 {
      StretchedStart(m, i);
    }
    forall c | AtNight(c, Min(sorted[0].Start(), startMinute)) ensures Covered(v, c) {
      if Min(sorted[0].Start(), startMinute) <= c < Last(m).Start() {
        CoveredBeforeLast(sorted, startMinute, c);
      } else {
        OvernightCovers(v[i], c);
      }
    }
  }

  /** The night, 22:00 to 06:00, is covered exactly when the last of the merged slots crosses
      midnight or ends between 22:00 and 06:00, or an earlier one that crosses it starts with
      its successor. */
  lemma NightOfLaid(sorted: seq<Item>, startMinute: int)
    requires Clocked(sorted) && SortedByStart(sorted) && sorted != []
    requires MORNING <= startMinute < DAY && sorted[0].Start() >= MORNING
    ensures Merge(sorted) != []
    ensures var m := Laid(sorted, startMinute);
            NightCovered(sorted, startMinute) <==>
            || Last(m).End() <= Last(m).Start() || NIGHT_START <= Last(m).End() < DAY_END
            || exists i :: 0 <= i < |m| - 1 && StaysOvernight(m[i], m[i + 1])
  {
    hide SplitPlanRange, Item.Start, Item.End, Item.Range, FillOne, Merge, Normalized, FillGaps, StartFrom, Covers, StaysOvernight;
    NormalizedSlots(sorted, startMinute);
    LaidStarts(sorted, startMinute);
    var m, v := Laid(sorted, startMinute), Normalized(sorted, startMinute);
    forall i | 0 <= i < |m| - 1
      ensures v[i].Start() >= MORNING
      ensures Overnight(v[i]) <==> StaysOvernight(m[i], m[i + 1])
    {
      StretchedStart(m, i);
      FilledOvernight(m, i);
    }
    LastIsLatest(m);
    assert Overnight(Last(v)) <==> Last(m).End() <= Last(m).Start() || NIGHT_START <= Last(m).End() < DAY_END;
    if i :| 0 <= i < |v| && Overnight(v[i]) {
      OvernightCoversNight(sorted, startMinute, i);
      assert i < |m| - 1 ==> StaysOvernight(m[i], m[i + 1]);
    } else {
      forall i | 0 <= i < |v| ensures !Covers(v[i], MORNING - 1) {
        if Covers(v[i], MORNING - 1) {
          EarlyMinuteNeedsOvernight(v[i]);
        }
      }
      assert AtNight(MORNING - 1, m[0].Start()) && !Covered(v, MORNING - 1);
    }
  }

  /** In terms of the plan itself, when only the latest slot may cross midnight: the night is
      covered exactly when that slot reaches 22:00, or it crosses midnight and is not the only
      slot left after merging, reaching back before its own end. */
  lemma NightIsCovered(sorted: seq<Item>, startMinute: int)
    requires sorted != [] && SortedByStart(sorted) && OnlyLastCrosses(sorted)
    requires MORNING <= startMinute < DAY && sorted[0].Start() >= MORNING
    ensures NightCovered(sorted, startMinute) <==>
            var s, e := Last(sorted).Start(), Last(sorted).End();
            e >= NIGHT_START || (e <= s && (!OneGoal(sorted) || e <= Min(sorted[0].Start(), startMinute)))
  {
    hide Item.Start, Item.End, Item.Range, Merge, StartFrom, NightCovered, OneGoal, OnlyLastCrosses, SortedByStart;
    LaidNight(sorted, startMinute);
    NightOfLaid(sorted, startMinute);
  }

  // ----- slots of zero length -----

  predicate ZeroLength(it: Item) {
    it.Start() == it.End()
  }

  /** The last slot, from `s` to `e` before step 5, is pulled back or extended to its own start. */
  predicate EndsAtStart(s: int, e: int) {
    e == s >= MORNING || (s == MORNING && (e <= s || NIGHT_START <= e < DAY_END))
  }

  lemma FinalEndIsStart(s: int, e: int)
    ensures FinalEnd(s, e) == s <==> EndsAtStart(s, e)
  {
  }

  /** Before gaps are filled: the slot will have no length in front of `next`. */
  predicate Pinched(it: Item, next: Item) {
    StaysOvernight(it, next) || it.Start() == it.End() == 0
  }

  lemma FilledPinched(m: seq<Item>, i: nat)
    requires Clocked(m) && SortedByStart(m) && i + 1 < |m|
    ensures ZeroLength(FillGaps(m)[i]) <==> Pinched(m[i], m[i + 1])
  {
    hide SplitPlanRange, Slot, Item.Start, Item.End, Item.Range;
    SlotReads(m[i].Start(), m[i + 1].Start(), m[i].goal);
  }

  /** Slots of zero length are dropped first of all, and still the result has one if and only
      if the last merged slot ends up at its own start, or one that crosses midnight starts
      with its successor, or one from 00:00 to 00:00 was merged. */
  lemma ZeroLengthExactly(sorted: seq<Item>, startMinute: int)
    requires Clocked(sorted) && SortedByStart(sorted) && sorted != [] && 0 <= startMinute < DAY
    ensures Merge(sorted) != []
    ensures var (m, v) := (Laid(sorted, startMinute), Normalized(sorted, startMinute));
            (exists i :: 0 <= i < |v| && ZeroLength(v[i])) <==>
            || EndsAtStart(Last(m).Start(), Last(m).End())
            || exists i :: 0 <= i < |m| - 1 && Pinched(m[i], m[i + 1])
  {
    hide SplitPlanRange, Item.Start, Item.End, Item.Range, FillOne, Merge, Normalized, FillGaps, StartFrom, EndsAtStart, FinalEnd, Pinched;
    NormalizedSlots(sorted, startMinute);
    LaidStarts(sorted, startMinute);
    var m, v := Laid(sorted, startMinute), Normalized(sorted, startMinute);
    FinalEndIsStart(Last(m).Start(), Last(m).End());
    assert ZeroLength(v[|v| - 1]) <==> EndsAtStart(Last(m).Start(), Last(m).End());
    forall i | 0 <= i < |m| - 1 ensures ZeroLength(v[i]) <==> Pinched(m[i], m[i + 1]) {
      FilledPinched(m, i);
    }
    hide ZeroLength;
    if i :| 0 <= i < |v| && ZeroLength(v[i]) {
      assert i < |m| - 1 ==> Pinched(m[i], m[i + 1]);
    }
  }

  /** 06:00-23:00 alone becomes 06:00-06:00, which is in force at every minute and never
      reads as expired. */
  lemma SlotCollapses(goal: string, c: int, tod: string)
    requires 0 <= c
    ensures var v := Normalized([Slot(6 * 60, 23 * 60, goal)], 6 * 60);
            |v| == 1 && v[0].Range() == Some((360, 360)) && !Usable(v[0])
            && Covers(v[0], c) && !SlotExpired(v[0].time, tod)
  {
    hide Slot, Item.Start, Item.End, Item.Range, Merge, StartFrom, Normalized, Covers, SlotExpired, Usable;
    var it := Slot(360, 1380, goal);
    SlotReads(360, 1380, goal);
    LaidOfOne(it, 360);
    NormalizedSlots([it], 360);
    CollapsedSlot(Normalized([it], 360)[0], c, tod);
  }

  lemma CollapsedSlot(it: Item, c: int, tod: string)
    requires it.Range().Some? && it.Start() == it.End() == 360 && 0 <= c
    ensures it.Range() == Some((360, 360)) && !Usable(it) && Covers(it, c) && !SlotExpired(it.time, tod)
  {
    hide SplitPlanRange, ParsePlanMinute;
  }

  // ----- plans the code leaves uncovered -----

  lemma MergeOfOne(it: Item)
    ensures Merge([it]) == [it]
  {
    hide Slot;
    assert [it][..0] == [] && Merge([]) == [];
  }

  lemma LaidOfOne(it: Item, startMinute: int)
    requires it.Range().Some? && it.Start() <= startMinute
    ensures Merge([it]) != [] && Laid([it], startMinute) == [it]
  {
    hide Slot, Merge, SplitPlanRange;
    MergeOfOne(it);
  }

  /** 05:00-23:00 alone is pulled back to 05:00-06:00. */
  lemma DayIsLost(goal: string)
    ensures !DayCovered([Slot(5 * 60, 23 * 60, goal)], DAY_START)
  {
    hide Slot, Item.Start, Item.End, Item.Range, Merge, StartFrom, DayCovered;
    var it := Slot(300, 1380, goal);
    SlotReads(300, 1380, goal);
    LaidOfOne(it, DAY_START);
    DayIsCovered([it], DAY_START);
  }

  /** 07:00-18:00 alone leaves the night open. */
  lemma NightIsLost(goal: string)
    ensures !NightCovered([Slot(7 * 60, 18 * 60, goal)], DAY_START)
  {
    hide Slot, Item.Start, Item.End, Item.Range, Merge, StartFrom, NightCovered;
    var it := Slot(420, 1080, goal);
    SlotReads(420, 1080, goal);
    LaidOfOne(it, DAY_START);
    NightOfLaid([it], DAY_START);
  }

  lemma TwoDigitMinute(a: char, b: char)
    requires IsDigit(a) && IsDigit(b)
    ensures ParsePlanMinute([a, b] + ":" + "00") == 60 * (10 * DigitValue(a) + DigitValue(b))
  {
    hide ParsePlanMinute, AtoiValue;
    ClockText([a, b], "00");
    AtoiOfDigits([a, b]);
    AtoiOfDigits("00");
    DecimalOfTwo(a, b);
    DecimalOfTwo('0', '0');
  }

  lemma LateTime()
    ensures SplitPlanRange("33:00-34:00") == Some((33 * 60, 34 * 60))
  {
    hide ParsePlanMinute, IndexOf;
    var s := "33:00-34:00";
    TwoDigitMinute('3', '3');
    TwoDigitMinute('3', '4');
    IndexOfFirst(s, '-', 5);
    assert s[..5] == ['3', '3'] + ":" + "00" && s[6..] == ['3', '4'] + ":" + "00";
  }

  /** Starts have to be clock times: 07:00-08:00 before 33:00-34:00, which parses, is stretched
      to 07:00-09:00 and leaves the day open. */
  lemma LateStartLosesDay(a: string, b: string)
    requires a != b
    ensures var sorted := [Slot(7 * 60, 8 * 60, a), Item("33:00-34:00", b)];
            SortedByStart(sorted) && !DayCovered(sorted, DAY_START)
  {
    hide SplitPlanRange, Slot;
    var (day, late) := (Slot(420, 480, a), Item("33:00-34:00", b));
    SlotReads(420, 480, a);
    LateTime();
    var sorted := [day, late];
    hide Item.Range, Item.Start, Item.End;
    LateReads(b);
    assert Merge(sorted) == sorted by {
      assert sorted[..1] == [day];
      MergeOfOne(day);
    }
    assert Laid(sorted, DAY_START) == sorted;
    SlotReads(420, 33 * 60, a);
    var v := Normalized(sorted, DAY_START);
    assert v == [Slot(420, 33 * 60, a), late];
    assert !Covered(v, 600);
  }

  lemma LateReads(b: string)
    ensures var late := Item("33:00-34:00", b);
            late.Range().Some? && late.Start() == 33 * 60 && late.End() == 34 * 60
  {
    hide SplitPlanRange;
    LateTime();
  }

  // ----- goals -----

  function Goals(v: seq<Item>): (r: seq<string>)
    ensures |r| == |v| && forall k :: 0 <= k < |r| ==> r[k] == v[k].goal
  {
    seq(|v|, k requires 0 <= k < |v| => v[k].goal)
  }

  /** A list with equal neighbours collapsed. */
  function RunHeads(gs: seq<string>): seq<string> {
    if gs == [] then []
    else
      var r := RunHeads(gs[..|gs| - 1]);
      if r != [] && Last(r) == Last(gs) then r else r + [Last(gs)]
  }

  lemma MergeIntoGoals(m: seq<Item>, it: Item)
    ensures Goals(MergeInto(m, it)) == if m != [] && Last(m).goal == it.goal then Goals(m) else Goals(m) + [it.goal]
  {
    hide Slot, Item.Start, Item.End;
    if m != [] && Last(m).goal == it.goal {
      var slot := Slot(Last(m).Start(), it.End(), it.goal);
      assert slot.goal == it.goal by {
        SlotReads(Last(m).Start(), it.End(), it.goal);
      }
    }
  }

  lemma GoalsOfInit(v: seq<Item>)
    requires v != []
    ensures Goals(v) != [] && Goals(v)[..|Goals(v)| - 1] == Goals(v[..|v| - 1]) && Last(Goals(v)) == Last(v).goal
  {
  }

  lemma {:induction false} MergeGoals(v: seq<Item>)
    ensures Goals(Merge(v)) == RunHeads(Goals(v))
  {
    hide MergeInto, Goals;
    if v != [] {
      var init := v[..|v| - 1];
      MergeGoals(init);
      GoalsOfInit(v);
      MergeIntoGoals(Merge(init), Last(v));
      if Merge(init) != [] {
        GoalsOfInit(Merge(init));
      }
    }
  }

  lemma SameGoals(v: seq<Item>, startMinute: int)
    requires v != []
    ensures Goals(StartFrom(v, startMinute)) == Goals(v)
    ensures Goals(FillGaps(v)) == Goals(v)
    ensures Goals(ExtendLast(v)) == Goals(v) && Goals(ClampNightEnd(v)) == Goals(v)
  {
    hide SplitPlanRange, SlotText, Item.Start, Item.End, Item.Range;
  }

  /** The normalized plan pursues the goals of the usable slots in the order of their
      starts, each run of equal goals once. */
  lemma NormalizedGoals(sorted: seq<Item>, startMinute: int)
    requires sorted != []
    ensures Goals(Normalized(sorted, startMinute)) == RunHeads(Goals(sorted))
  {
    hide Merge, RunHeads, StartFrom, FillGaps, ExtendLast, ClampNightEnd, Goals;
    MergeGoals(sorted);
    MergeNonempty(sorted);
    SameGoals(Merge(sorted), startMinute);
    var laid := Laid(sorted, startMinute);
    GoalsKeepLength(laid, Merge(sorted));
    SameGoals(laid, startMinute);
    SameGoals(FillGaps(laid), startMinute);
    var extended := ExtendLast(FillGaps(laid));
    GoalsKeepLength(extended, FillGaps(laid));
    SameGoals(extended, startMinute);
  }

  lemma GoalsKeepLength(v: seq<Item>, w: seq<Item>)
    requires Goals(v) == Goals(w)
    ensures |v| == |w|
  {
  }

  /** matchPlanSlot finds a slot exactly at the covered minutes. */
  lemma MatchedWhereCovered(items: seq<Item>, timeOfDay: string)
    requires ParsePlanMinute(timeOfDay) >= 0
    ensures MatchPlanSlot(items, timeOfDay) != "" <==> Covered(items, ParsePlanMinute(timeOfDay))
  {
    EmptyIsNoTime(timeOfDay);
    hide ParsePlanMinute, Covers;
    MatchAtFindsFirst(items, ParsePlanMinute(timeOfDay));
  }
}
