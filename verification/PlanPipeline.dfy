/** The plan as it is stored: clampNightEnd(jitterPlanNodes(normalizeDailyPlan(..)))
    (agenttown-mcp/cmd/agenttown-mcp/strategic.go). */
module PlanPipeline {
  import opened Text
  import opened SlotUtil
  import opened PlanItems
  import opened DailyPlan
  import opened PlanCoverage
  import opened PlanJitter

  /** jitterPlanNodes on all items. */
  function Jittered(v: seq<Item>, d: Draw): (r: seq<Item>)
    requires Fits(Nodes(v), d)
    ensures |r| == |v|
  {
    seq(|v|, i requires 0 <= i < |v| => JitterItem(v[i], OffsetMap(Nodes(v), d, |Nodes(v)|)))
  }

  /** The stored plan. */
  function Stored(v: seq<Item>, d: Draw): (r: seq<Item>)
    requires Fits(Nodes(v), d)
    ensures |r| == |v|
    ensures v != [] ==> r == Jittered(v, d)[|v| - 1 := ClampItem(Last(Jittered(v, d)))]
  {
    ClampNightEnd(Jittered(v, d))
  }

  // ----- from the first start to the last -----

  /** Every slot is valid, and each ends no sooner than the next one starts. */
  predicate Chained(v: seq<Item>) {
    && (forall i :: 0 <= i < |v| ==> 0 <= SlotRangeMinute(v[i].time).0 < SlotRangeMinute(v[i].time).1)
    && (forall i :: 0 <= i < |v| - 1 ==> SlotRangeMinute(v[i + 1].time).0 <= SlotRangeMinute(v[i].time).1)
  }

  /** Where a slot's boundaries went. */
  function MovedRange(v: seq<Item>, d: Draw, i: nat): (r: (int, int))
    requires Fits(Nodes(v), d) && i < |v| && SlotRangeMinute(v[i].time).0 >= 0
  {
    SlotMoves(v, d, i);
    var f := OffsetMap(Nodes(v), d, |Nodes(v)|);
    (f[SlotRangeMinute(v[i].time).0], f[SlotRangeMinute(v[i].time).1])
  }

  lemma MovedRangeIs(v: seq<Item>, d: Draw, i: nat)
    requires Fits(Nodes(v), d) && i < |v| && 0 <= SlotRangeMinute(v[i].time).0 < SlotRangeMinute(v[i].time).1
    ensures var (js, je) := MovedRange(v, d, i);
            Jittered(v, d)[i] == Slot(js, je, v[i].goal) && js >= d.minStart && js < je
  {
    hide SlotRangeMinute, JitterItem, Nodes, Slot, OffsetMap, Fits;
    SlotMoves(v, d, i);
    OneIncreasingMap(Nodes(v), d, SlotRangeMinute(v[i].time).0, SlotRangeMinute(v[i].time).1);
  }

  lemma MovedInChain(v: seq<Item>, d: Draw, i: nat)
    requires Fits(Nodes(v), d) && Chained(v) && i + 1 < |v|
    ensures MovedRange(v, d, i + 1).0 <= MovedRange(v, d, i).1
  {
    hide SlotRangeMinute, JitterItem, Nodes, Slot, OffsetMap, Fits;
    SlotMoves(v, d, i);
    SlotMoves(v, d, i + 1);
    OneIncreasingMap(Nodes(v), d, SlotRangeMinute(v[i + 1].time).0, SlotRangeMinute(v[i].time).1);
  }

  lemma PrintedCovers(js: int, je: int, goal: string, c: int)
    requires 0 <= js <= c < je && c < DAY && je - js <= DAY
    ensures Covers(Slot(js, je, goal), c)
  {
    SlotReads(js, je, goal);
    hide Slot, Item.Start, Item.End, Item.Range;
  }

  lemma StoredSlotCovers(v: seq<Item>, d: Draw, i: nat, c: int)
    requires Chained(v) && Fits(Nodes(v), d) && d.minStart >= 0 && i + 1 < |v| && c < DAY
    requires MovedRange(v, d, i).1 - MovedRange(v, d, i).0 <= DAY
    requires MovedRange(v, d, i).0 <= c < MovedRange(v, d, i + 1).0
    ensures Covers(Stored(v, d)[i], c)
  {
    MovedInChain(v, d, i);
    MovedRangeIs(v, d, i);
    hide SlotRangeMinute, Nodes, Slot, Fits, Jittered, MovedRange, Covers, ClampItem, Stored, Chained;
    var (js, je) := MovedRange(v, d, i);
    PrintedCovers(js, je, v[i].goal, c);
  }

  lemma FindMoved(v: seq<Item>, d: Draw, c: int) returns (i: nat)
    requires |v| > 1 && Chained(v) && Fits(Nodes(v), d)
    requires MovedRange(v, d, 0).0 <= c < MovedRange(v, d, |v| - 1).0
    ensures i + 1 < |v| && MovedRange(v, d, i).0 <= c < MovedRange(v, d, i + 1).0
  {
    hide SlotRangeMinute, Nodes, Fits, MovedRange;
    i := 0;
    while MovedRange(v, d, i + 1).0 <= c
      invariant i + 1 < |v| && MovedRange(v, d, i).0 <= c
      decreases |v| - i
    {
      i := i + 1;
    }
  }

  /** The stored plan covers every minute of the day from its first start to its last, for
      every draw that leaves no slot but the last longer than a day. */
  lemma StoredPlanCovers(v: seq<Item>, d: Draw, c: int)
    requires v != [] && Chained(v) && Fits(Nodes(v), d) && d.minStart >= 0 && c < DAY
    requires forall i :: 0 <= i < |v| - 1 ==> MovedRange(v, d, i).1 - MovedRange(v, d, i).0 <= DAY
    requires MovedRange(v, d, 0).0 <= c < MovedRange(v, d, |v| - 1).0
    ensures Covered(Stored(v, d), c)
  {
    hide SlotRangeMinute, Nodes, Fits, MovedRange, Covers, Stored, Chained;
    var i := FindMoved(v, d, c);
    StoredSlotCovers(v, d, i, c);
  }

  // ----- a normalized plan is such a chain -----

  lemma SameDayRange(it: Item)
    requires SameDay(it)
    ensures SlotRangeMinute(it.time) == (it.Start(), it.End())
  {
    hide SplitPlanRange;
  }

  lemma FilledSameDay(m: seq<Item>, i: nat)
    requires i + 1 < |m| && SameDay(m[i]) && m[i + 1].Range().Some? && m[i + 1].Start() < DAY
    ensures var f := FillGaps(m)[i];
            SameDay(f) && f.Start() == m[i].Start() && f.End() >= m[i + 1].Start()
  {
    hide SplitPlanRange, Slot, Item.Start, Item.End, Item.Range;
    SlotReads(m[i].Start(), m[i + 1].Start(), m[i].goal);
  }

  lemma LastRange(it: Item)
    requires it.Range().Some? && it.Start() < DAY && it.End() < DAY && SlotRangeMinute(it.time).0 >= 0
    ensures SlotRangeMinute(it.time).0 == it.Start() < SlotRangeMinute(it.time).1
  {
    hide SplitPlanRange;
  }

  lemma ZeroLengthHasNoRange(it: Item)
    requires it.Range().Some? && it.Start() < DAY && it.End() < DAY
    ensures SlotRangeMinute(it.time).0 >= 0 <==> !ZeroLength(it)
  {
    hide SplitPlanRange;
  }

  /** In a normalized plan whose latest slot alone may cross midnight, every slot is valid and
      reaches the next, if and only if the last of the merged slots does not end up at its own
      start. */
  lemma NormalizedIsChained(sorted: seq<Item>, startMinute: int)
    requires sorted != [] && SortedByStart(sorted) && OnlyLastCrosses(sorted) && 0 <= startMinute < DAY
    ensures Merge(sorted) != []
    ensures Chained(Normalized(sorted, startMinute)) <==>
            !EndsAtStart(Last(Laid(sorted, startMinute)).Start(), Last(Laid(sorted, startMinute)).End())
  {
    hide SlotRangeMinute, Item.Start, Item.End, Item.Range, FillGaps, Normalized, SameDay, Merge, StartFrom, EndsAtStart;
    LaidNight(sorted, startMinute);
    LaidStarts(sorted, startMinute);
    NormalizedSlots(sorted, startMinute);
    var m, v := Laid(sorted, startMinute), Normalized(sorted, startMinute);
    FinalEndIsStart(Last(m).Start(), Last(m).End());
    ZeroLengthHasNoRange(Last(v));
    if !ZeroLength(Last(v)) {
      FilledIsChained(m, v);
    } else {
      assert SlotRangeMinute(v[|v| - 1].time).0 < 0;
    }
  }

  lemma FilledIsChained(m: seq<Item>, v: seq<Item>)
    requires m != [] && |v| == |m| && Clocked(m)
    requires forall i :: 0 <= i < |m| - 1 ==> SameDay(m[i]) && v[i] == FillGaps(m)[i]
    requires Last(v).Range().Some? && Last(v).Start() == Last(m).Start() && Last(v).End() < DAY
    requires SlotRangeMinute(Last(v).time).0 >= 0
    ensures Chained(v)
  {
    hide SlotRangeMinute, Item.Start, Item.End, Item.Range, FillGaps, SameDay;
    LastRange(Last(v));
    forall i | 0 <= i < |v| - 1
      ensures 0 <= SlotRangeMinute(v[i].time).0 == m[i].Start() < SlotRangeMinute(v[i].time).1
      ensures m[i + 1].Start() <= SlotRangeMinute(v[i].time).1
    {
      FilledSameDay(m, i);
      SameDayRange(v[i]);
      SameDayStarts(v[i]);
    }
  }

  lemma SameDayStarts(it: Item)
    requires SameDay(it)
    ensures 0 <= it.Start() < it.End()
  {
    hide SplitPlanRange;
  }

  // ----- the second clamp: the night end -----

  ghost predicate NightKept(it: Item) {
    forall c :: 0 <= c < MORNING ==> Covers(it, c)
  }

  lemma ClampedRange(it: Item, a: int, b: int)
    requires it.Range() == Some((a, b)) && 0 <= a < DAY && 0 <= b < DAY
    ensures ClampItem(it).Range() == Some((a, if b > a || b >= MORNING then b else MORNING))
  {
    SlotReads(a, MORNING, it.goal);
    hide Slot, SplitPlanRange;
  }

  lemma KeptExactly(it: Item, a: int, b: int)
    requires it.Range() == Some((a, b)) && 0 <= a < DAY && 0 <= b < DAY && (b > a || b >= MORNING)
    ensures NightKept(it) <==> b <= a || (a == 0 && b >= MORNING)
  {
    hide Item.Range;
    assert Covers(it, 0) <==> a == 0 || b <= a;
    assert Covers(it, MORNING - 1) <==> InForce(a, b, MORNING - 1);
  }

  /** The clamped last slot covers the early morning exactly when it was moved to a stretch
      over midnight, or to one that starts at midnight sharp and lasts till 06:00. */
  lemma ClampedNight(js: int, je: int, goal: string)
    requires MORNING <= js < je < 2 * DAY && je - js <= DAY
    ensures NightKept(ClampItem(Slot(js, je, goal))) <==> js < DAY <= je || (js == DAY && je >= DAY + MORNING)
  {
    hide Slot, Item.Range, ClampItem, NightKept;
    SlotReads(js, je, goal);
    var (a, b) := (js % DAY, je % DAY);
    ClampedRange(Slot(js, je, goal), a, b);
    KeptExactly(ClampItem(Slot(js, je, goal)), a, if b > a || b >= MORNING then b else MORNING);
  }

  /** The draw that sends the boundaries ahead up to the i-th and the later ones back. */
  function Close(n: nat, i: nat, maxJitter: int, minStart: int): Draw {
    Draw(seq(n, k => if k <= i then 2 * maxJitter else 0), maxJitter, minStart)
  }

  lemma {:induction false} CloseIsSoonest(nodes: seq<int>, d: Draw, i: nat, j: nat)
    requires Fits(nodes, d) && i <= j < |nodes|
    requires Moved(nodes, d, i) == Moved(nodes, Ahead(|nodes|, d.maxJitter, d.minStart), i)
    ensures Fits(nodes, Close(|nodes|, i, d.maxJitter, d.minStart))
    ensures Moved(nodes, Close(|nodes|, i, d.maxJitter, d.minStart), j) <= Moved(nodes, d, j)
  {
    var (e, ahead) := (Close(|nodes|, i, d.maxJitter, d.minStart), Ahead(|nodes|, d.maxJitter, d.minStart));
    if i == j {
      MovedGrows(nodes, e, ahead, i);
    } else {
      CloseIsSoonest(nodes, d, i, j - 1);
      assert Wish(nodes, e, j) <= Wish(nodes, d, j);
    }
  }

  /** What the boundaries have to satisfy: the start cannot be drawn past midnight, the end
      not back before it, and a start at midnight sharp leaves six hours. */
  predicate NightClear(nodes: seq<int>, maxJitter: int, minStart: int, i: nat, j: nat)
    requires maxJitter > 0 && i < j < |nodes|
  {
    var n := |nodes|;
    var (back, ahead, close) := (Back(n, maxJitter, minStart), Ahead(n, maxJitter, minStart), Close(n, i, maxJitter, minStart));
    && Moved(nodes, ahead, i) <= DAY <= Moved(nodes, back, j)
    && (Moved(nodes, ahead, i) == DAY ==> Moved(nodes, close, j) >= DAY + MORNING)
  }

  /** No draw lengthens the stretch to more than a day, or moves it out of two. */
  predicate Bounded(nodes: seq<int>, maxJitter: int, minStart: int, i: nat, j: nat)
    requires maxJitter > 0 && i < j < |nodes|
  {
    var n := |nodes|;
    var (back, ahead, split) := (Back(n, maxJitter, minStart), Ahead(n, maxJitter, minStart), Split(n, i, maxJitter, minStart));
    && MORNING <= Moved(nodes, back, i) && Moved(nodes, ahead, j) < 2 * DAY
    && Moved(nodes, split, j) - Moved(nodes, split, i) <= DAY
  }

  lemma NightOfDraw(v: seq<Item>, d: Draw, i: nat, j: nat)
    requires v != [] && Fits(Nodes(v), d) && i < j < |Nodes(v)| && Bounded(Nodes(v), d.maxJitter, d.minStart, i, j)
    requires SlotRangeMinute(Last(v).time) == (Nodes(v)[i], Nodes(v)[j]) && Nodes(v)[i] >= 0
    ensures var (js, je) := (Moved(Nodes(v), d, i), Moved(Nodes(v), d, j));
            NightKept(Last(Stored(v, d))) <==> js < DAY <= je || (js == DAY && je >= DAY + MORNING)
  {
    hide SlotRangeMinute, Nodes, Moved, Slot, NightKept, ClampItem, Fits, OffsetMap, JitterItem;
    var nodes := Nodes(v);
    BetweenBackAndAhead(nodes, d, i);
    BetweenBackAndAhead(nodes, d, j);
    SplitIsLongest(nodes, d, i, j);
    MovedApart(nodes, d, i, j);
    MovedSlot(v, d, |v| - 1, i, j);
    ClampedNight(Moved(nodes, d, i), Moved(nodes, d, j), Last(v).goal);
  }

  /** The second clamp keeps the night until 06:00 for all draws exactly under NightClear. */
  lemma NightEndIsKept(v: seq<Item>, i: nat, j: nat, maxJitter: int, minStart: int)
    requires maxJitter > 0 && v != [] && i < j < |Nodes(v)| && Bounded(Nodes(v), maxJitter, minStart, i, j)
    requires SlotRangeMinute(Last(v).time) == (Nodes(v)[i], Nodes(v)[j]) && Nodes(v)[i] >= 0
    ensures (forall d: Draw :: d.maxJitter == maxJitter && d.minStart == minStart && Fits(Nodes(v), d)
                               ==> NightKept(Last(Stored(v, d))))
            <==> NightClear(Nodes(v), maxJitter, minStart, i, j)
  {
    hide SlotRangeMinute, Nodes, Moved, NightKept, Stored, Bounded;
    var nodes := Nodes(v);
    var n := |nodes|;
    var (back, ahead, close) := (Back(n, maxJitter, minStart), Ahead(n, maxJitter, minStart), Close(n, i, maxJitter, minStart));
    assert Fits(nodes, back) && Fits(nodes, ahead) && Fits(nodes, close);
    NightOfDraw(v, back, i, j);
    NightOfDraw(v, ahead, i, j);
    NightOfDraw(v, close, i, j);
    SameUpTo(nodes, close, ahead, i);
    BetweenBackAndAhead(nodes, close, j);
    if NightClear(nodes, maxJitter, minStart, i, j) {
      forall d: Draw | d.maxJitter == maxJitter && d.minStart == minStart && Fits(nodes, d)
        ensures NightKept(Last(Stored(v, d)))
      {
        BetweenBackAndAhead(nodes, d, i);
        BetweenBackAndAhead(nodes, d, j);
        NightOfDraw(v, d, i, j);
        if Moved(nodes, d, i) == DAY {
          CloseIsSoonest(nodes, d, i, j);
        }
      }
    }
  }

  lemma SameUpTo(nodes: seq<int>, d: Draw, e: Draw, k: nat)
    requires Fits(nodes, d) && Fits(nodes, e) && k < |nodes| && d.maxJitter == e.maxJitter && d.minStart == e.minStart
    requires forall i :: 0 <= i <= k ==> d.rand[i] == e.rand[i]
    ensures Moved(nodes, d, k) == Moved(nodes, e, k)
  {
    MovedGrows(nodes, d, e, k);
    MovedGrows(nodes, e, d, k);
  }

  /** A night that ends before 06:00: 23:50-06:00 is moved to 00:05-05:50, which the second
      clamp leaves alone. */
  lemma NightEndIsLost(goal: string)
    ensures var (v, d) := ([Slot(23 * 60 + 50, 6 * 60, goal)], Draw([30, 5], 15, 6 * 60));
            Fits(Nodes(v), d) && Stored(v, d) == [Slot(1445, 1790, goal)]
    ensures !NightKept(Slot(1445, 1790, goal))
  {
    hide SlotRangeMinute, Nodes, Slot, NightKept, OffsetMap, JitterItem, Fits, Item.Start, Item.End;
    CrossingIsLost(goal);
    var (v, d) := ([Slot(1430, 360, goal)], Draw([30, 5], 15, 360));
    assert |Nodes(v)| == 2;
    assert Jittered(v, d) == [Slot(1445, 1790, goal)];
    assert ClampItem(Slot(1445, 1790, goal)) == Slot(1445, 1790, goal);
    ClampedNight(1445, 1790, goal);
  }

  // ----- from the parsed plan to the stored one -----

  lemma OffsetIsClose(nodes: seq<int>, d: Draw, x: int)
    requires Fits(nodes, d) && Ascending(nodes) && Spaced(nodes, d) && x in nodes && nodes[0] >= 0
    ensures var f := OffsetMap(nodes, d, |nodes|);
            x in f && -d.maxJitter <= f[x] - x <= d.maxJitter
  {
    hide Moved, Fits, Spaced;
    OffsetMapHolds(nodes, d, |nodes|);
    SpacedStaysClose(nodes, d);
    var i :| 0 <= i < |nodes| && nodes[i] == x;
  }

  lemma MovedRangeIsClose(v: seq<Item>, d: Draw, i: nat)
    requires Fits(Nodes(v), d) && Spaced(Nodes(v), d) && i < |v|
    requires 0 <= SlotRangeMinute(v[i].time).0 && Nodes(v) != [] && Nodes(v)[0] >= 0
    ensures var ((js, je), (s, e)) := (MovedRange(v, d, i), SlotRangeMinute(v[i].time));
            js >= s - d.maxJitter && je <= e + d.maxJitter
  {
    hide SlotRangeMinute, JitterItem, Nodes, Slot, OffsetMap, Fits, Spaced;
    SlotMoves(v, d, i);
    OffsetIsClose(Nodes(v), d, SlotRangeMinute(v[i].time).0);
    OffsetIsClose(Nodes(v), d, SlotRangeMinute(v[i].time).1);
  }

  lemma {:induction false} NodesArePositive(v: seq<Item>)
    requires forall i :: 0 <= i < |v| ==> SlotRangeMinute(v[i].time).0 < SlotRangeMinute(v[i].time).1
    ensures forall x :: x in Nodes(v) ==> x >= 0
  {
    hide SlotRangeMinute, InsertNode, Ascending;
    if v != [] {
      var init := v[..|v| - 1];
      assert forall i :: 0 <= i < |init| ==> init[i] == v[i];
      NodesArePositive(init);
      assert Last(v) == v[|v| - 1];
    }
  }

  lemma ChainedNodes(v: seq<Item>)
    requires v != [] && Chained(v)
    ensures Nodes(v) != [] && Nodes(v)[0] >= 0
  {
    hide SlotRangeMinute, Nodes;
    NodesHold(v, 0);
    NodesArePositive(v);
    assert Nodes(v)[0] in Nodes(v);
  }

  /** What a plan made from 06:00 on has to satisfy, all of it to be checked before any draw. */
  predicate FromMorning(sorted: seq<Item>, startMinute: int) {
    && sorted != [] && SortedByStart(sorted) && OnlyLastCrosses(sorted)
    && MORNING <= startMinute < DAY && sorted[0].Start() >= MORNING
  }

  lemma MorningSlotsAreShort(sorted: seq<Item>, startMinute: int, i: nat)
    requires FromMorning(sorted, startMinute) && i < |Normalized(sorted, startMinute)| - 1
    ensures var (s, e) := SlotRangeMinute(Normalized(sorted, startMinute)[i].time); MORNING <= s < e < DAY
  {
    hide SlotRangeMinute, Item.Start, Item.End, Item.Range, FillGaps, Normalized, SameDay, Merge, StartFrom;
    LaidNight(sorted, startMinute);
    LaidStarts(sorted, startMinute);
    NormalizedSlots(sorted, startMinute);
    var m, v := Laid(sorted, startMinute), Normalized(sorted, startMinute);
    FilledSameDay(m, i);
    SameDayRange(v[i]);
    SameDayEnds(v[i], v[i]);
  }

  /** With boundaries half an hour apart, the stored plan covers every minute from its first
      start to its last, for every draw of up to three hours. */
  lemma StoredPlanFromSorted(sorted: seq<Item>, startMinute: int, d: Draw, c: int)
    requires FromMorning(sorted, startMinute) && d.minStart == startMinute && d.maxJitter <= 180 && c < DAY
    requires Merge(sorted) != [] && !EndsAtStart(Last(Laid(sorted, startMinute)).Start(), Last(Laid(sorted, startMinute)).End())
    requires var v := Normalized(sorted, startMinute); Fits(Nodes(v), d) && Spaced(Nodes(v), d)
    ensures var v := Normalized(sorted, startMinute);
            Chained(v) && (MovedRange(v, d, 0).0 <= c < MovedRange(v, d, |v| - 1).0 ==> Covered(Stored(v, d), c))
  {
    hide SlotRangeMinute, Nodes, Fits, Spaced, MovedRange, Covers, Stored, Normalized, Laid, Merge, OnlyLastCrosses, SortedByStart, EndsAtStart;
    NormalizedIsChained(sorted, startMinute);
    var v := Normalized(sorted, startMinute);
    ChainedNodes(v);
    forall i | 0 <= i < |v| - 1 ensures MovedRange(v, d, i).1 - MovedRange(v, d, i).0 <= DAY {
      MorningSlotsAreShort(sorted, startMinute, i);
      MovedRangeIsClose(v, d, i);
    }
    if MovedRange(v, d, 0).0 <= c < MovedRange(v, d, |v| - 1).0 {
      StoredPlanCovers(v, d, c);
    }
  }

  lemma MovedFromStart(nodes: seq<int>, d: Draw, k: nat)
    requires Fits(nodes, d) && k < |nodes|
    ensures Moved(nodes, d, k) >= d.minStart
  {
    hide Moved, Fits;
    MovedBounds(nodes, d, 0);
    if k > 0 {
      MovedApart(nodes, d, 0, k);
    }
  }

  /** A last slot with as much free time around it as the draws can take is Bounded. */
  lemma SpacedIsBounded(nodes: seq<int>, maxJitter: int, minStart: int, i: nat, j: nat)
    requires maxJitter > 0 && i < j < |nodes| && nodes[0] >= 0 && minStart >= MORNING
    requires Spaced(nodes, Back(|nodes|, maxJitter, minStart))
    requires nodes[i] < DAY && nodes[j] - nodes[i] + 2 * maxJitter <= DAY
    ensures Bounded(nodes, maxJitter, minStart, i, j)
  {
    var n := |nodes|;
    var (back, ahead, split) := (Back(n, maxJitter, minStart), Ahead(n, maxJitter, minStart), Split(n, i, maxJitter, minStart));
    assert Fits(nodes, back) && Fits(nodes, ahead) && Fits(nodes, split);
    assert Spaced(nodes, ahead) && Spaced(nodes, split);
    hide Moved, Spaced, Fits;
    MovedFromStart(nodes, back, i);
    MovedAhead(nodes, ahead, j);
    MovedAhead(nodes, split, j);
    MovedBounds(nodes, split, i);
  }

  lemma LastStartsToday(sorted: seq<Item>, startMinute: int)
    requires FromMorning(sorted, startMinute)
    ensures SlotRangeMinute(Last(Normalized(sorted, startMinute)).time).0 < DAY
  {
    hide SlotRangeMinute, Item.Start, Item.End, Item.Range, Normalized, SameDay, Merge, StartFrom;
    LaidNight(sorted, startMinute);
    LaidStarts(sorted, startMinute);
    NormalizedSlots(sorted, startMinute);
    RangeStart(Last(Normalized(sorted, startMinute)));
  }

  lemma RangeStart(it: Item)
    ensures SlotRangeMinute(it.time).0 == -1 || SlotRangeMinute(it.time).0 == it.Start()
  {
    hide SplitPlanRange;
  }

  /** And the night of such a plan is kept until 06:00 for all draws exactly under NightClear. */
  lemma StoredNightFromSorted(sorted: seq<Item>, startMinute: int, maxJitter: int, i: nat, j: nat)
    requires FromMorning(sorted, startMinute) && maxJitter > 0
    requires Merge(sorted) != [] && !EndsAtStart(Last(Laid(sorted, startMinute)).Start(), Last(Laid(sorted, startMinute)).End())
    requires var (v, nodes) := (Normalized(sorted, startMinute), Nodes(Normalized(sorted, startMinute)));
             && Spaced(nodes, Back(|nodes|, maxJitter, startMinute)) && i < j < |nodes|
             && SlotRangeMinute(Last(v).time) == (nodes[i], nodes[j]) && nodes[j] - nodes[i] + 2 * maxJitter <= DAY
    ensures var (v, nodes) := (Normalized(sorted, startMinute), Nodes(Normalized(sorted, startMinute)));
            (forall d: Draw :: d.maxJitter == maxJitter && d.minStart == startMinute && Fits(nodes, d)
                               ==> NightKept(Last(Stored(v, d))))
            <==> NightClear(nodes, maxJitter, startMinute, i, j)
  {
    hide SlotRangeMinute, Nodes, Spaced, Stored, NightKept, NightClear, Normalized, Laid, Merge, OnlyLastCrosses, SortedByStart, EndsAtStart;
    NormalizedIsChained(sorted, startMinute);
    var v := Normalized(sorted, startMinute);
    ChainedNodes(v);
    LastStartsToday(sorted, startMinute);
    SpacedIsBounded(Nodes(v), maxJitter, startMinute, i, j);
    NightEndIsKept(v, i, j, maxJitter, startMinute);
  }
}
