/** jitterPlanNodes: moving every boundary of the plan by a bounded random offset
    (agenttown-mcp/cmd/agenttown-mcp/strategic.go). Random draws are a parameter. */
module PlanJitter {
  import opened Text
  import opened SlotUtil
  import opened PlanItems

  const MIN_GAP: int := 30
  const NO_NODE: int := -0x4000_0000

  // ----- the boundaries -----

  predicate Ascending(nodes: seq<int>) {
    forall i, j :: 0 <= i < j < |nodes| ==> nodes[i] < nodes[j]
  }

  function InsertNode(nodes: seq<int>, n: int): (r: seq<int>)
    requires Ascending(nodes)
    ensures Ascending(r)
    ensures forall x :: x in r <==> x in nodes || x == n
  {
    if nodes == [] || n < nodes[0] then [n] + nodes
    else if n == nodes[0] then nodes
    else
      var rest := InsertNode(nodes[1..], n);
      assert forall x :: x in nodes <==> x == nodes[0] || x in nodes[1..];
      assert forall k :: 0 <= k < |rest| ==> rest[k] in rest;
      [nodes[0]] + rest
  }

  /** The distinct boundaries of the plan in ascending order, on the line where a slot that
      crosses midnight ends on the next day. */
  function Nodes(items: seq<Item>): (r: seq<int>)
    ensures Ascending(r)
  {
    if items == [] then []
    else
      var nodes := Nodes(items[..|items| - 1]);
      var (s, e) := SlotRangeMinute(Last(items).time);
      if s < 0 then nodes else InsertNode(InsertNode(nodes, s), e)
  }

  lemma {:induction false} NodesHold(items: seq<Item>, i: nat)
    requires i < |items| && SlotRangeMinute(items[i].time).0 >= 0
    ensures SlotRangeMinute(items[i].time).0 in Nodes(items)
    ensures SlotRangeMinute(items[i].time).1 in Nodes(items)
  {
    hide SlotRangeMinute, Ascending, InsertNode;
    if i < |items| - 1 {
      NodesHold(items[..|items| - 1], i);
    }
  }

  // ----- where each boundary goes -----

  datatype Draw = Draw(rand: seq<int>, maxJitter: int, minStart: int)

  predicate Fits(nodes: seq<int>, d: Draw) {
    d.maxJitter > 0 && |d.rand| >= |nodes| && forall k :: 0 <= k < |nodes| ==> 0 <= d.rand[k] <= 2 * d.maxJitter
  }

  /** The place the draw asks for, before neighbours are considered. */
  function Wish(nodes: seq<int>, d: Draw, k: nat): int
    requires Fits(nodes, d) && k < |nodes|
  {
    var j := nodes[k] + d.rand[k] - d.maxJitter;
    if k == 0 && j < d.minStart then d.minStart else j
  }

  /** The k-th jittered boundary. */
  function Moved(nodes: seq<int>, d: Draw, k: nat): int
    requires Fits(nodes, d) && k < |nodes|
  {
    var prev := if k == 0 then NO_NODE else Moved(nodes, d, k - 1);
    var j := Wish(nodes, d, k);
    if j < prev + MIN_GAP then prev + MIN_GAP else j
  }

  /** Boundaries keep their order and end at least half an hour apart. */
  lemma {:induction false} MovedApart(nodes: seq<int>, d: Draw, i: nat, k: nat)
    requires Fits(nodes, d) && i < k < |nodes|
    ensures Moved(nodes, d, k) >= Moved(nodes, d, i) + MIN_GAP * (k - i)
  {
    if i < k - 1 {
      MovedApart(nodes, d, i, k - 1);
    }
  }

  lemma MovedBounds(nodes: seq<int>, d: Draw, k: nat)
    requires Fits(nodes, d) && k < |nodes|
    ensures Moved(nodes, d, k) >= nodes[k] - d.maxJitter
    ensures k == 0 ==> Moved(nodes, d, k) >= d.minStart
  {
  }

  /** The jittered boundaries are the least ones that give every boundary its wish and keep
      the gaps. */
  lemma {:induction false} MovedIsLeast(nodes: seq<int>, d: Draw, g: int -> int, k: nat)
    requires Fits(nodes, d) && k < |nodes| && g(0) >= NO_NODE + MIN_GAP
    requires forall i :: 0 <= i < |nodes| ==> g(i) >= Wish(nodes, d, i)
    requires forall i :: 0 < i < |nodes| ==> g(i) >= g(i - 1) + MIN_GAP
    ensures g(k) >= Moved(nodes, d, k)
  {
    hide Wish;
    if k > 0 {
      MovedIsLeast(nodes, d, g, k - 1);
    }
  }

  predicate Spaced(nodes: seq<int>, d: Draw) {
    nodes != [] ==> d.minStart <= nodes[0] + d.maxJitter
                    && forall k :: 0 < k < |nodes| ==> nodes[k] - nodes[k - 1] >= MIN_GAP
  }

  lemma {:induction false} MovedAhead(nodes: seq<int>, d: Draw, k: nat)
    requires Fits(nodes, d) && Spaced(nodes, d) && k < |nodes| && nodes[0] >= 0
    ensures Moved(nodes, d, k) <= nodes[k] + d.maxJitter
  {
    if k > 0 {
      MovedAhead(nodes, d, k - 1);
    }
  }

  ghost predicate StaysClose(nodes: seq<int>, d: Draw)
    requires Fits(nodes, d)
  {
    forall k :: 0 <= k < |nodes| ==> -d.maxJitter <= Moved(nodes, d, k) - nodes[k] <= d.maxJitter
  }

  lemma SpacedStaysClose(nodes: seq<int>, d: Draw)
    requires Fits(nodes, d) && Spaced(nodes, d) && (nodes != [] ==> nodes[0] >= 0)
    ensures StaysClose(nodes, d)
  {
    hide Moved, Spaced, Fits;
    forall k | 0 <= k < |nodes| ensures -d.maxJitter <= Moved(nodes, d, k) - nodes[k] <= d.maxJitter {
      MovedBounds(nodes, d, k);
      MovedAhead(nodes, d, k);
    }
  }

  /** The draw that sends every boundary as far ahead as it may go. */
  function Ahead(n: nat, maxJitter: int, minStart: int): Draw {
    Draw(seq(n, _ => 2 * maxJitter), maxJitter, minStart)
  }

  lemma CrowdedStrays(nodes: seq<int>, maxJitter: int, minStart: int)
    requires maxJitter > 0 && !Spaced(nodes, Ahead(|nodes|, maxJitter, minStart))
    ensures Fits(nodes, Ahead(|nodes|, maxJitter, minStart)) && !StaysClose(nodes, Ahead(|nodes|, maxJitter, minStart))
  {
    var d := Ahead(|nodes|, maxJitter, minStart);
    assert Fits(nodes, d);
    hide Moved;
    if minStart > nodes[0] + maxJitter {
      MovedBounds(nodes, d, 0);
    } else {
      var k :| 0 < k < |nodes| && nodes[k] - nodes[k - 1] < MIN_GAP;
      FullDraw(nodes, d, k - 1);
      MovedApart(nodes, d, k - 1, k);
    }
  }

  /** The documented bound on every offset, +-maxJitter, holds for all draws exactly when
      the boundaries were half an hour apart to begin with and the lower bound on the first
      is within its reach. */
  lemma OffsetsAreBounded(nodes: seq<int>, maxJitter: int, minStart: int)
    requires maxJitter > 0 && (nodes != [] ==> nodes[0] >= 0)
    ensures (forall d: Draw :: d.maxJitter == maxJitter && d.minStart == minStart && Fits(nodes, d) ==> StaysClose(nodes, d))
            <==> Spaced(nodes, Ahead(|nodes|, maxJitter, minStart))
  {
    if Spaced(nodes, Ahead(|nodes|, maxJitter, minStart)) {
      forall d: Draw | d.maxJitter == maxJitter && d.minStart == minStart && Fits(nodes, d) ensures StaysClose(nodes, d) {
        SpacedStaysClose(nodes, d);
      }
    } else {
      CrowdedStrays(nodes, maxJitter, minStart);
      hide StaysClose, Fits, Spaced;
      var d := Ahead(|nodes|, maxJitter, minStart);
      assert d.maxJitter == maxJitter && d.minStart == minStart;
    }
  }

  lemma FullDraw(nodes: seq<int>, d: Draw, k: nat)
    requires Fits(nodes, d) && k < |nodes| && d.rand[k] == 2 * d.maxJitter
    ensures Moved(nodes, d, k) >= nodes[k] + d.maxJitter
  {
  }

  // ----- the jittered plan -----

  function OffsetMap(nodes: seq<int>, d: Draw, k: nat): map<int, int>
    requires Fits(nodes, d) && k <= |nodes|
  {
    if k == 0 then map[] else OffsetMap(nodes, d, k - 1)[nodes[k - 1] := Moved(nodes, d, k - 1)]
  }

  lemma {:induction false} OffsetMapHolds(nodes: seq<int>, d: Draw, k: nat)
    requires Fits(nodes, d) && k <= |nodes| && Ascending(nodes)
    ensures OffsetMap(nodes, d, k).Keys == (set i | 0 <= i < k :: nodes[i])
    ensures forall i :: 0 <= i < k ==> nodes[i] in OffsetMap(nodes, d, k) && OffsetMap(nodes, d, k)[nodes[i]] == Moved(nodes, d, i)
  {
    hide Moved;
    if k > 0 {
      OffsetMapHolds(nodes, d, k - 1);
    }
  }

  function JitterItem(it: Item, offset: map<int, int>): Item {
    if it.Range().None? then it
    else
      var lookupE := if it.End() <= it.Start() then Wrap(it.End() + DAY) else it.End();
      if it.Start() !in offset || lookupE !in offset then it
      else Slot(offset[it.Start()], offset[lookupE], it.goal)
  }

  /** jitterPlanNodes. */
  method JitterPlanNodes(items: seq<Item>, d: Draw) returns (out: seq<Item>)
    requires d.maxJitter > 0 ==> Fits(Nodes(items), d)
    ensures d.maxJitter <= 0 ==> out == items
    ensures |out| == |items|
    ensures d.maxJitter > 0 ==>
              var nodes := Nodes(items);
              forall i :: 0 <= i < |items| ==> out[i] == JitterItem(items[i], OffsetMap(nodes, d, |nodes|))
  {
    hide Slot, SplitPlanRange, Fits, JitterItem;
    if |items| == 0 || d.maxJitter <= 0 {
      return items;
    }
    var nodes := CollectNodes(items);
    var offset := Offsets(nodes, d);
    out := [];
    for i := 0 to |items|
      invariant |out| == i
      invariant forall k :: 0 <= k < i ==> out[k] == JitterItem(items[k], offset)
    {
      var it := JitterItem(items[i], offset);
      out := out + [it];
    }
  }

  method CollectNodes(items: seq<Item>) returns (nodes: seq<int>)
    ensures nodes == Nodes(items)
  {
    hide SlotRangeMinute, InsertNode;
    nodes := [];
    for k := 0 to |items|
      invariant nodes == Nodes(items[..k])
    {
      assert items[..k + 1][..k] == items[..k];
      var (s, e) := SlotRangeMinute(items[k].time);
      if s < 0 {
        continue;
      }
      nodes := InsertNode(InsertNode(nodes, s), e);
    }
    assert items[..|items|] == items;
  }

  method Offsets(nodes: seq<int>, d: Draw) returns (offset: map<int, int>)
    requires Fits(nodes, d)
    ensures offset == OffsetMap(nodes, d, |nodes|)
  {
    offset := map[];
    var prev := NO_NODE;
    for i := 0 to |nodes|
      invariant offset == OffsetMap(nodes, d, i)
      invariant prev == if i == 0 then NO_NODE else Moved(nodes, d, i - 1)
    {
      var j := nodes[i] + d.rand[i] - d.maxJitter;
      if i == 0 && j < d.minStart {
        j := d.minStart;
      }
      if j < prev + MIN_GAP {
        j := prev + MIN_GAP;
      }
      offset := offset[nodes[i] := j];
      prev := j;
    }
  }

  /** One strictly increasing map moves all boundaries: any two of them end at least half
      an hour apart in the same order, none moves back by more than maxJitter, and none lies
      before minStart. */
  lemma OneIncreasingMap(nodes: seq<int>, d: Draw, x: int, y: int)
    requires Fits(nodes, d) && Ascending(nodes) && x in nodes && y in nodes
    ensures var f := OffsetMap(nodes, d, |nodes|);
            x in f && y in f && f[x] >= x - d.maxJitter && f[x] >= d.minStart && (x < y ==> f[y] >= f[x] + 30)
  {
    hide Moved, Fits;
    OffsetMapHolds(nodes, d, |nodes|);
    var i :| 0 <= i < |nodes| && nodes[i] == x;
    var j :| 0 <= j < |nodes| && nodes[j] == y;
    MovedBounds(nodes, d, i);
    MovedBounds(nodes, d, 0);
    if i > 0 {
      MovedApart(nodes, d, 0, i);
    }
    if i < j {
      MovedApart(nodes, d, i, j);
    }
  }

  lemma JitterOfValid(it: Item, f: map<int, int>)
    requires SlotRangeMinute(it.time).0 >= 0
    requires SlotRangeMinute(it.time).0 in f && SlotRangeMinute(it.time).1 in f
    ensures JitterItem(it, f) == Slot(f[SlotRangeMinute(it.time).0], f[SlotRangeMinute(it.time).1], it.goal)
  {
    hide SplitPlanRange, Wrap, Slot;
  }

  /** Every valid slot is carried over by that map. */
  lemma SlotMoves(items: seq<Item>, d: Draw, a: nat)
    requires Fits(Nodes(items), d) && a < |items| && SlotRangeMinute(items[a].time).0 >= 0
    ensures var (f, (s, e)) := (OffsetMap(Nodes(items), d, |Nodes(items)|), SlotRangeMinute(items[a].time));
            s in Nodes(items) && e in Nodes(items) && s in f && e in f
            && JitterItem(items[a], f) == Slot(f[s], f[e], items[a].goal)
            && JitterItem(items[a], f).Start() == f[s] % DAY && JitterItem(items[a], f).End() == f[e] % DAY
  {
    hide SlotRangeMinute, JitterItem, Nodes, Slot, OffsetMap, Fits, Item.Start, Item.End;
    NodesHold(items, a);
    var (s, e) := SlotRangeMinute(items[a].time);
    OneIncreasingMap(Nodes(items), d, s, e);
    OneIncreasingMap(Nodes(items), d, e, s);
    var f := OffsetMap(Nodes(items), d, |Nodes(items)|);
    JitterOfValid(items[a], f);
    SlotReads(f[s], f[e], items[a].goal);
  }

  /** So slots that touched still touch, disjoint slots stay disjoint, and no slot gets
      shorter than half an hour. */
  lemma SlotsMoveTogether(items: seq<Item>, d: Draw, a: nat, b: nat)
    requires Fits(Nodes(items), d) && a < |items| && b < |items|
    requires SlotRangeMinute(items[a].time).0 >= 0 && SlotRangeMinute(items[b].time).0 >= 0
    ensures var f := OffsetMap(Nodes(items), d, |Nodes(items)|);
            var (s, e) := SlotRangeMinute(items[a].time);
            var (t, _) := SlotRangeMinute(items[b].time);
            s in f && e in f && t in f
            && (e == t ==> JitterItem(items[a], f).End() == JitterItem(items[b], f).Start())
            && (e <= t ==> f[e] <= f[t]) && (s < e ==> f[e] >= f[s] + MIN_GAP)
  {
    hide SlotRangeMinute, JitterItem, Nodes, Slot, OffsetMap, Fits, Item.Start, Item.End;
    SlotMoves(items, d, a);
    SlotMoves(items, d, b);
    var (s, e) := SlotRangeMinute(items[a].time);
    var (t, _) := SlotRangeMinute(items[b].time);
    OneIncreasingMap(Nodes(items), d, s, e);
    OneIncreasingMap(Nodes(items), d, e, t);
  }

  // ----- slots that cross midnight -----

  /** The draw that sends every boundary as far back as it may go, and the one that does so
      up to the i-th and sends the later ones ahead. */
  function Back(n: nat, maxJitter: int, minStart: int): Draw {
    Draw(seq(n, _ => 0), maxJitter, minStart)
  }

  function Split(n: nat, i: nat, maxJitter: int, minStart: int): Draw {
    Draw(seq(n, k => if k <= i then 0 else 2 * maxJitter), maxJitter, minStart)
  }

  lemma {:induction false} MovedGrows(nodes: seq<int>, d: Draw, e: Draw, k: nat)
    requires Fits(nodes, d) && Fits(nodes, e) && k < |nodes|
    requires d.maxJitter == e.maxJitter && d.minStart == e.minStart
    requires forall i :: 0 <= i <= k ==> d.rand[i] <= e.rand[i]
    ensures Moved(nodes, d, k) <= Moved(nodes, e, k)
  {
    if k > 0 {
      MovedGrows(nodes, d, e, k - 1);
    }
  }

  lemma BetweenBackAndAhead(nodes: seq<int>, d: Draw, k: nat)
    requires Fits(nodes, d) && k < |nodes|
    ensures var n := |nodes|;
            Fits(nodes, Back(n, d.maxJitter, d.minStart)) && Fits(nodes, Ahead(n, d.maxJitter, d.minStart))
            && Moved(nodes, Back(n, d.maxJitter, d.minStart), k) <= Moved(nodes, d, k)
            && Moved(nodes, d, k) <= Moved(nodes, Ahead(n, d.maxJitter, d.minStart), k)
  {
    hide Moved;
    MovedGrows(nodes, Back(|nodes|, d.maxJitter, d.minStart), d, k);
    MovedGrows(nodes, d, Ahead(|nodes|, d.maxJitter, d.minStart), k);
  }

  /** No draw makes the stretch from the i-th to the j-th boundary longer than Split does. */
  lemma {:induction false} SplitIsLongest(nodes: seq<int>, d: Draw, i: nat, j: nat)
    requires Fits(nodes, d) && i <= j < |nodes|
    ensures var e := Split(|nodes|, i, d.maxJitter, d.minStart);
            Fits(nodes, e) && Moved(nodes, d, j) - Moved(nodes, d, i) <= Moved(nodes, e, j) - Moved(nodes, e, i)
  {
    var e := Split(|nodes|, i, d.maxJitter, d.minStart);
    if i < j {
      SplitIsLongest(nodes, d, i, j - 1);
      MovedGrows(nodes, e, d, i);
      assert Wish(nodes, d, j) <= Wish(nodes, e, j);
    }
  }

  /** A printed slot reads back as the stretch it was printed from, ending on the next day,
      exactly when that starts today, ends tomorrow and is shorter than a day. */
  lemma PrintedCrossing(js: int, je: int, goal: string)
    requires js < je
    ensures SlotRangeMinute(Slot(js, je, goal).time) == (js, je) && je >= DAY <==>
            0 <= js < DAY <= je && je - js < DAY
  {
    SplitOfSlotText(js, je);
    hide SplitPlanRange, SlotText;
    var (a, b) := (js % DAY, je % DAY);
    assert RangeOf(a, b) == if b > a then (a, b) else if b == a then (-1, -1) else (a, b + DAY);
    if 0 <= js < DAY <= je && je - js < DAY {
      assert a == js && b == je - DAY;
    }
  }

  lemma MovedSlot(items: seq<Item>, d: Draw, a: nat, i: nat, j: nat)
    requires var nodes := Nodes(items);
             Fits(nodes, d) && a < |items| && i < |nodes| && j < |nodes|
             && SlotRangeMinute(items[a].time) == (nodes[i], nodes[j]) && nodes[i] >= 0
    ensures var nodes := Nodes(items);
            JitterItem(items[a], OffsetMap(nodes, d, |nodes|)) == Slot(Moved(nodes, d, i), Moved(nodes, d, j), items[a].goal)
  {
    hide SlotRangeMinute, JitterItem, Nodes, Slot, OffsetMap, Fits, Moved;
    var nodes := Nodes(items);
    OffsetMapHolds(nodes, d, |nodes|);
    JitterOfValid(items[a], OffsetMap(nodes, d, |nodes|));
  }

  /** The printed slot still is the stretch between its moved boundaries, over midnight. */
  predicate StillCrosses(items: seq<Item>, d: Draw, a: nat, i: nat, j: nat)
    requires Fits(Nodes(items), d) && a < |items| && i < |Nodes(items)| && j < |Nodes(items)|
  {
    var nodes := Nodes(items);
    SlotRangeMinute(JitterItem(items[a], OffsetMap(nodes, d, |nodes|)).time) == (Moved(nodes, d, i), Moved(nodes, d, j))
    && Moved(nodes, d, j) >= DAY
  }

  lemma StillCrossesExactly(items: seq<Item>, d: Draw, a: nat, i: nat, j: nat)
    requires Fits(Nodes(items), d) && a < |items| && i < j < |Nodes(items)|
    requires SlotRangeMinute(items[a].time) == (Nodes(items)[i], Nodes(items)[j]) && Nodes(items)[i] >= 0
    ensures var (js, je) := (Moved(Nodes(items), d, i), Moved(Nodes(items), d, j));
            StillCrosses(items, d, a, i, j) <==> 0 <= js < DAY <= je && je - js < DAY
  {
    hide SlotRangeMinute, JitterItem, Nodes, Slot, OffsetMap, Fits, Moved;
    var nodes := Nodes(items);
    MovedSlot(items, d, a, i, j);
    MovedApart(nodes, d, i, j);
    PrintedCrossing(Moved(nodes, d, i), Moved(nodes, d, j), items[a].goal);
  }

  /** What the boundaries, maxJitter and minStart have to satisfy. */
  predicate KeepsClear(nodes: seq<int>, maxJitter: int, minStart: int, i: nat, j: nat)
    requires maxJitter > 0 && i < j < |nodes|
  {
    var n := |nodes|;
    var (back, ahead, split) := (Back(n, maxJitter, minStart), Ahead(n, maxJitter, minStart), Split(n, i, maxJitter, minStart));
    && 0 <= Moved(nodes, back, i) && Moved(nodes, ahead, i) < DAY && DAY <= Moved(nodes, back, j)
    && Moved(nodes, split, j) - Moved(nodes, split, i) < DAY
  }

  /** The documented promise that a slot over midnight stays one holds for all draws exactly
      when its start cannot be drawn past midnight, its end not back before it, and its
      length not up to a day. */
  lemma CrossingSurvives(items: seq<Item>, a: nat, i: nat, j: nat, maxJitter: int, minStart: int)
    requires maxJitter > 0 && a < |items| && i < j < |Nodes(items)|
    requires SlotRangeMinute(items[a].time) == (Nodes(items)[i], Nodes(items)[j]) && Nodes(items)[i] >= 0
    ensures (forall d: Draw :: d.maxJitter == maxJitter && d.minStart == minStart && Fits(Nodes(items), d)
                               ==> StillCrosses(items, d, a, i, j))
            <==> KeepsClear(Nodes(items), maxJitter, minStart, i, j)
  {
    hide SlotRangeMinute, Nodes, StillCrosses, Moved, Item.Start, Item.End;
    var nodes := Nodes(items);
    var n := |nodes|;
    var (back, ahead, split) := (Back(n, maxJitter, minStart), Ahead(n, maxJitter, minStart), Split(n, i, maxJitter, minStart));
    assert Fits(nodes, back) && Fits(nodes, ahead) && Fits(nodes, split);
    StillCrossesExactly(items, back, a, i, j);
    StillCrossesExactly(items, ahead, a, i, j);
    StillCrossesExactly(items, split, a, i, j);
    if KeepsClear(nodes, maxJitter, minStart, i, j) {
      forall d: Draw | d.maxJitter == maxJitter && d.minStart == minStart && Fits(nodes, d)
        ensures StillCrosses(items, d, a, i, j)
      {
        BetweenBackAndAhead(nodes, d, i);
        BetweenBackAndAhead(nodes, d, j);
        SplitIsLongest(nodes, d, i, j);
        StillCrossesExactly(items, d, a, i, j);
      }
    }
  }

  /** A plan of one slot. */
  lemma OneSlotMoved(it: Item, d: Draw, s: int, e: int)
    requires SlotRangeMinute(it.time) == (s, e) && 0 <= s < e && Fits([s, e], d)
    ensures Nodes([it]) == [s, e]
    ensures JitterItem(it, OffsetMap([s, e], d, 2)) == Slot(Moved([s, e], d, 0), Moved([s, e], d, 1), it.goal)
  {
    hide SlotRangeMinute, JitterItem, Nodes, Slot, OffsetMap, Fits, Moved;
    OneSlotNodes(it, s, e);
    MovedSlot([it], d, 0, 0, 1);
    assert |[s, e]| == 2;
  }

  /** A slot over midnight that is lost: 23:50-06:00 is moved to 00:05-05:50. */
  lemma CrossingIsLost(goal: string)
    ensures var (it, nodes, d) := (Slot(23 * 60 + 50, 6 * 60, goal), [1430, 1800], Draw([30, 5], 15, 6 * 60));
            Nodes([it]) == nodes && Fits(nodes, d)
            && JitterItem(it, OffsetMap(nodes, d, 2)) == Slot(1445, 1790, goal)
    ensures Slot(1445, 1790, goal).Start() == 5 && Slot(1445, 1790, goal).End() == 5 * 60 + 50
  {
    hide SlotRangeMinute, JitterItem, Nodes, Slot, OffsetMap, Moved, Fits, Item.Start, Item.End;
    var it := Slot(1430, 360, goal);
    LateSlotRange(goal);
    TwoMoved(Draw([30, 5], 15, 360));
    SlotReads(1430, 360, goal);
    OneSlotMoved(it, Draw([30, 5], 15, 360), 1430, 1800);
    SlotReads(1445, 1790, goal);
  }

  lemma LateSlotRange(goal: string)
    ensures SlotRangeMinute(Slot(1430, 360, goal).time) == (1430, 1800)
  {
    SplitOfSlotText(1430, 360);
    hide SplitPlanRange, SlotText;
  }

  lemma TwoMoved(d: Draw)
    requires d == Draw([30, 5], 15, 360)
    ensures Fits([1430, 1800], d)
    ensures Moved([1430, 1800], d, 0) == 1445 && Moved([1430, 1800], d, 1) == 1790
  {
  }

  lemma OneSlotNodes(it: Item, s: int, e: int)
    requires SlotRangeMinute(it.time) == (s, e) && 0 <= s < e
    ensures Nodes([it]) == [s, e]
  {
    hide SlotRangeMinute;
    assert [it][..0] == [] && Nodes([]) == [];
    assert InsertNode([], s) == [s] && [s][1..] == [] && InsertNode([s], e) == [s] + [e];
  }

  // ----- slots that come one after the other -----

  predicate CoverBoth(a: Item, b: Item, c: int) {
    Covers(a, c) && Covers(b, c)
  }

  /** Some minute of the day lies in both slots. */
  ghost predicate Share(a: Item, b: Item) {
    exists c :: 0 <= c < DAY && CoverBoth(a, b, c)
  }

  /** The stretch js-je, then kt-ku: the later one wraps around into the earlier one. */
  predicate WrapsInto(js: int, je: int, kt: int, ku: int) {
    ku - js > DAY && (if kt < DAY then js < DAY_START else kt - je < DAY)
  }

  lemma InForceBoth(js: int, je: int, kt: int, ku: int, c: int)
    requires 0 <= js < je <= kt < ku < 2 * DAY && je - js <= DAY && ku - kt <= DAY && 0 <= c < DAY
    ensures InForce(js % DAY, je % DAY, c) && InForce(kt % DAY, ku % DAY, c) ==> WrapsInto(js, je, kt, ku)
    ensures WrapsInto(js, je, kt, ku) && c == (if kt < DAY || js > kt - DAY then js else kt - DAY) ==>
              InForce(js % DAY, je % DAY, c) && InForce(kt % DAY, ku % DAY, c)
  {
    Residue(js);
    Residue(je);
    Residue(kt);
    Residue(ku);
  }

  lemma Residue(j: int)
    requires 0 <= j < 2 * DAY
    ensures j % DAY == if j < DAY then j else j - DAY
  {
  }

  lemma CoverBothIs(js: int, je: int, kt: int, ku: int, goal: string, later: string, c: int)
    ensures CoverBoth(Slot(js, je, goal), Slot(kt, ku, later), c) <==>
            InForce(js % DAY, je % DAY, c) && InForce(kt % DAY, ku % DAY, c)
  {
    SlotReads(js, je, goal);
    SlotReads(kt, ku, later);
    hide Slot, Item.Start, Item.End, Item.Range, InForce;
  }

  /** As printed, two stretches that follow each other share a minute exactly when the later
      one wraps into the earlier one. */
  lemma ShareExactly(js: int, je: int, kt: int, ku: int, goal: string, later: string)
    requires 0 <= js < je <= kt < ku < 2 * DAY && je - js <= DAY && ku - kt <= DAY
    ensures Share(Slot(js, je, goal), Slot(kt, ku, later)) <==> WrapsInto(js, je, kt, ku)
  {
    hide Slot, CoverBoth, InForce;
    var (a, b) := (Slot(js, je, goal), Slot(kt, ku, later));
    forall c | 0 <= c < DAY
      ensures CoverBoth(a, b, c) ==> WrapsInto(js, je, kt, ku)
    {
      CoverBothIs(js, je, kt, ku, goal, later, c);
      InForceBoth(js, je, kt, ku, c);
    }
    if WrapsInto(js, je, kt, ku) {
      var c := if kt < DAY || js > kt - DAY then js else kt - DAY;
      CoverBothIs(js, je, kt, ku, goal, later, c);
      InForceBoth(js, je, kt, ku, c);
    }
  }

  /** Slots a and b lie between the boundaries i, j and k, l, one after the other. */
  predicate Follow(items: seq<Item>, a: nat, b: nat, i: nat, j: nat, k: nat, l: nat) {
    var nodes := Nodes(items);
    && a < |items| && b < |items| && i < j <= k < l < |nodes| && nodes[i] >= 0
    && SlotRangeMinute(items[a].time) == (nodes[i], nodes[j])
    && SlotRangeMinute(items[b].time) == (nodes[k], nodes[l])
  }

  ghost predicate ShareJittered(items: seq<Item>, d: Draw, a: nat, b: nat)
    requires Fits(Nodes(items), d) && a < |items| && b < |items|
  {
    var f := OffsetMap(Nodes(items), d, |Nodes(items)|);
    Share(JitterItem(items[a], f), JitterItem(items[b], f))
  }

  /** For every draw that keeps either slot within a day: slots that did not overlap share a
      printed minute if and only if the later one was moved around into the earlier one. */
  lemma JitteredShareExactly(items: seq<Item>, d: Draw, a: nat, b: nat, i: nat, j: nat, k: nat, l: nat)
    requires Fits(Nodes(items), d) && Follow(items, a, b, i, j, k, l)
    requires var nodes := Nodes(items);
             && 0 <= Moved(nodes, d, i) && Moved(nodes, d, l) < 2 * DAY
             && Moved(nodes, d, j) - Moved(nodes, d, i) <= DAY && Moved(nodes, d, l) - Moved(nodes, d, k) <= DAY
    ensures var nodes := Nodes(items);
            ShareJittered(items, d, a, b) <==>
            WrapsInto(Moved(nodes, d, i), Moved(nodes, d, j), Moved(nodes, d, k), Moved(nodes, d, l))
  {
    hide SlotRangeMinute, JitterItem, Nodes, Slot, OffsetMap, Fits, Moved, Share, WrapsInto;
    var nodes := Nodes(items);
    MovedSlot(items, d, a, i, j);
    MovedSlot(items, d, b, k, l);
    MovedApart(nodes, d, i, j);
    if j < k {
      MovedApart(nodes, d, j, k);
    }
    MovedApart(nodes, d, k, l);
    ShareExactly(Moved(nodes, d, i), Moved(nodes, d, j), Moved(nodes, d, k), Moved(nodes, d, l), items[a].goal, items[b].goal);
  }

  /** No draw moves the i-th boundary before midnight, the k-th past the next one, or makes the
      stretch from there to the l-th longer than a day. */
  predicate StartsToday(nodes: seq<int>, maxJitter: int, minStart: int, i: nat, k: nat, l: nat)
    requires maxJitter > 0 && i < k < l < |nodes|
  {
    var n := |nodes|;
    var (back, ahead, split) := (Back(n, maxJitter, minStart), Ahead(n, maxJitter, minStart), Split(n, k, maxJitter, minStart));
    0 <= Moved(nodes, back, i) && Moved(nodes, ahead, k) < DAY && Moved(nodes, split, l) - Moved(nodes, split, k) <= DAY
  }

  lemma ShareOfDraw(items: seq<Item>, d: Draw, a: nat, b: nat, i: nat, j: nat, k: nat, l: nat)
    requires Fits(Nodes(items), d) && Follow(items, a, b, i, j, k, l)
    requires StartsToday(Nodes(items), d.maxJitter, d.minStart, i, k, l)
    ensures var (js, ku) := (Moved(Nodes(items), d, i), Moved(Nodes(items), d, l));
            ShareJittered(items, d, a, b) <==> ku - js > DAY && js < DAY_START
  {
    hide SlotRangeMinute, JitterItem, Nodes, OffsetMap, Fits, Moved, ShareJittered;
    var nodes := Nodes(items);
    BetweenBackAndAhead(nodes, d, i);
    BetweenBackAndAhead(nodes, d, k);
    SplitIsLongest(nodes, d, k, l);
    MovedApart(nodes, d, i, j);
    if j < k {
      MovedApart(nodes, d, j, k);
    }
    JitteredShareExactly(items, d, a, b, i, j, k, l);
  }

  /** The documented promise that slots do not overlap holds of the printed plan for all draws
      exactly when the two slots together cannot be drawn longer than a day, or the earlier one
      cannot be drawn to before 07:00. */
  lemma SlotsStayDisjoint(items: seq<Item>, a: nat, b: nat, i: nat, j: nat, k: nat, l: nat, maxJitter: int, minStart: int)
    requires maxJitter > 0 && Follow(items, a, b, i, j, k, l)
    requires StartsToday(Nodes(items), maxJitter, minStart, i, k, l)
    ensures var (nodes, split) := (Nodes(items), Split(|Nodes(items)|, i, maxJitter, minStart));
            Fits(nodes, split)
            && ((forall d: Draw :: d.maxJitter == maxJitter && d.minStart == minStart && Fits(nodes, d)
                                   ==> !ShareJittered(items, d, a, b))
                <==> Moved(nodes, split, l) - Moved(nodes, split, i) <= DAY || Moved(nodes, split, i) >= DAY_START)
  {
    hide SlotRangeMinute, Nodes, Moved, ShareJittered, StartsToday;
    var nodes := Nodes(items);
    var split := Split(|nodes|, i, maxJitter, minStart);
    assert Fits(nodes, split);
    ShareOfDraw(items, split, a, b, i, j, k, l);
    if Moved(nodes, split, l) - Moved(nodes, split, i) <= DAY || Moved(nodes, split, i) >= DAY_START {
      forall d: Draw | d.maxJitter == maxJitter && d.minStart == minStart && Fits(nodes, d)
        ensures !ShareJittered(items, d, a, b)
      {
        SplitIsLongest(nodes, d, i, l);
        MovedGrows(nodes, split, d, i);
        ShareOfDraw(items, d, a, b, i, j, k, l);
      }
    }
  }

  /** A plan of two slots that touch. */
  lemma TwoSlotsMoved(a: Item, b: Item, d: Draw, s: int, m: int, e: int)
    requires SlotRangeMinute(a.time) == (s, m) && SlotRangeMinute(b.time) == (m, e) && 0 <= s < m < e
    requires Fits([s, m, e], d)
    ensures var nodes := [s, m, e];
            Nodes([a, b]) == nodes
            && JitterItem(a, OffsetMap(nodes, d, 3)) == Slot(Moved(nodes, d, 0), Moved(nodes, d, 1), a.goal)
            && JitterItem(b, OffsetMap(nodes, d, 3)) == Slot(Moved(nodes, d, 1), Moved(nodes, d, 2), b.goal)
  {
    hide SlotRangeMinute, JitterItem, Nodes, Slot, OffsetMap, Fits, Moved;
    TwoSlotNodes(a, b, s, m, e);
    MovedSlot([a, b], d, 0, 0, 1);
    MovedSlot([a, b], d, 1, 1, 2);
    assert |[s, m, e]| == 3;
  }

  /** Two slots that overlap: 06:40-22:00 and 22:00-06:40 are moved to 06:40-22:00 and
      22:00-06:55, and both cover 06:45. */
  lemma SlotsOverlap(goal: string, later: string)
    ensures var (a, b, nodes, d) :=
              (Slot(400, 1320, goal), Slot(1320, 400, later), [400, 1320, 1840], Draw([15, 15, 30], 15, 400));
            Nodes([a, b]) == nodes && Fits(nodes, d)
            && JitterItem(a, OffsetMap(nodes, d, 3)) == Slot(400, 1320, goal)
            && JitterItem(b, OffsetMap(nodes, d, 3)) == Slot(1320, 1855, later)
    ensures CoverBoth(Slot(400, 1320, goal), Slot(1320, 1855, later), 6 * 60 + 45)
  {
    hide SlotRangeMinute, JitterItem, Nodes, Slot, OffsetMap, Moved, Fits, CoverBoth;
    var (a, b, d) := (Slot(400, 1320, goal), Slot(1320, 400, later), Draw([15, 15, 30], 15, 400));
    assert a.goal == goal && b.goal == later by {
      SlotReads(400, 1320, goal);
      SlotReads(1320, 400, later);
    }
    RangesOverlap(goal, later);
    ThreeMoved(d);
    TwoSlotsMoved(a, b, d, 400, 1320, 1840);
    BothCover(goal, later);
  }

  lemma BothCover(goal: string, later: string)
    ensures CoverBoth(Slot(400, 1320, goal), Slot(1320, 1855, later), 405)
  {
    hide Slot, CoverBoth;
    CoverBothIs(400, 1320, 1320, 1855, goal, later, 405);
  }

  lemma RangesOverlap(goal: string, later: string)
    ensures SlotRangeMinute(Slot(400, 1320, goal).time) == (400, 1320)
    ensures SlotRangeMinute(Slot(1320, 400, later).time) == (1320, 1840)
  {
    SplitOfSlotText(400, 1320);
    SplitOfSlotText(1320, 400);
    hide SplitPlanRange, SlotText;
  }

  lemma TwoSlotNodes(a: Item, b: Item, s: int, m: int, e: int)
    requires SlotRangeMinute(a.time) == (s, m) && SlotRangeMinute(b.time) == (m, e) && 0 <= s < m < e
    ensures Nodes([a, b]) == [s, m, e]
  {
    hide SlotRangeMinute;
    OneSlotNodes(a, s, m);
    assert [a, b][..1] == [a];
    InsertLast([s, m], m, e);
  }

  lemma InsertLast(nodes: seq<int>, m: int, e: int)
    requires |nodes| == 2 && nodes[0] < nodes[1] == m < e
    ensures InsertNode(nodes, m) == nodes && InsertNode(nodes, e) == nodes + [e]
  {
    assert nodes == [nodes[0], m] && nodes[1..] == [m] && [m][1..] == [];
    assert InsertNode([m], m) == [m] && InsertNode([], e) == [e] && InsertNode([m], e) == [m] + [e];
  }

  lemma ThreeMoved(d: Draw)
    requires d == Draw([15, 15, 30], 15, 400)
    ensures var nodes := [400, 1320, 1840];
            Fits(nodes, d) && Moved(nodes, d, 0) == 400 && Moved(nodes, d, 1) == 1320 && Moved(nodes, d, 2) == 1855
  {
  }

  // ----- nothing else moves -----

  /** The boundaries are those of the slots of the plan, and no others. */
  lemma {:induction false} NodesExactly(items: seq<Item>, x: int)
    ensures x in Nodes(items) <==>
            exists i :: 0 <= i < |items| && Bounds(items[i], x)
  {
    hide SlotRangeMinute, Ascending, InsertNode;
    if items != [] {
      var (init, last) := (items[..|items| - 1], items[|items| - 1]);
      NodesExactly(init, x);
      assert x in Nodes(items) <==> x in Nodes(init) || Bounds(last, x);
      if i :| 0 <= i < |init| && Bounds(init[i], x) {
        assert Bounds(items[i], x);
      }
      if Bounds(last, x) {
        assert Bounds(items[|items| - 1], x);
      }
    }
  }

  predicate Bounds(it: Item, x: int) {
    SlotRangeMinute(it.time).0 >= 0 && (x == SlotRangeMinute(it.time).0 || x == SlotRangeMinute(it.time).1)
  }

  /** A text that is no slot stays as it is, and so does a slot of zero length, unless both its
      start and the same minute of the next day are boundaries of others. */
  lemma InvalidStays(items: seq<Item>, d: Draw, a: nat)
    requires Fits(Nodes(items), d) && a < |items|
    requires items[a].Range().None? || (items[a].Start() == items[a].End() < DAY)
    ensures var (it, nodes) := (items[a], Nodes(items));
            if it.Range().Some? && it.Start() in nodes && it.Start() + DAY in nodes
            then
              var f := OffsetMap(nodes, d, |nodes|);
              it.Start() in f && it.Start() + DAY in f
              && JitterItem(it, f) == Slot(f[it.Start()], f[it.Start() + DAY], it.goal)
            else JitterItem(it, OffsetMap(nodes, d, |nodes|)) == it
  {
    hide SplitPlanRange, Slot, Moved, Fits, Nodes;
    var (it, nodes) := (items[a], Nodes(items));
    OffsetMapHolds(nodes, d, |nodes|);
    var f := OffsetMap(nodes, d, |nodes|);
    hide OffsetMap;
    WrapSmall(it.End());
  }

  lemma WrapSmall(x: int)
    ensures 0 <= x < DAY ==> Wrap(x + DAY) == x + DAY
  {
  }
}
