/** normalizeDailyPlan: validating, sorting, merging, gap filling and night extension of
    the parsed plan (agenttown-mcp/cmd/agenttown-mcp/strategic.go). */
module DailyPlan {
  import opened Text
  import opened SlotUtil
  import opened PlanItems

  // ----- the steps, as functions of the plan before each -----

  predicate Usable(it: Item) {
    it.Range().Some? && it.Start() != it.End()
  }

  /** Step 1: unparsable and zero-length slots go. */
  function Keep(items: seq<Item>): (r: seq<Item>)
    ensures forall k :: 0 <= k < |r| ==> Usable(r[k])
  {
    if items == [] then []
    else Keep(items[..|items| - 1]) + (if Usable(Last(items)) then [Last(items)] else [])
  }

  predicate SortedByStart(v: seq<Item>) {
    forall i, j :: 0 <= i < j < |v| ==> v[i].Start() <= v[j].Start()
  }

  function MergeInto(merged: seq<Item>, it: Item): seq<Item> {
    if merged != [] && Last(merged).goal == it.goal
    then merged[..|merged| - 1] + [Slot(Last(merged).Start(), it.End(), it.goal)]
    else merged + [it]
  }

  /** Step 2.5: neighbours with the same goal become one slot. */
  function Merge(v: seq<Item>): seq<Item> {
    if v == [] then [] else MergeInto(Merge(v[..|v| - 1]), Last(v))
  }

  /** Step 3: the first slot reaches back to the planning time. */
  function StartFrom(v: seq<Item>, startMinute: int): (r: seq<Item>)
    requires v != []
    ensures |r| == |v|
  {
    if v[0].Range().Some? && v[0].Start() > startMinute
    then v[0 := Slot(startMinute, v[0].End(), v[0].goal)] else v
  }

  function FillOne(a: Item, next: Item): Item {
    if 0 < a.End() < next.Start() then Slot(a.Start(), next.Start(), a.goal) else a
  }

  /** Step 4: a slot that ends before the next one starts is stretched up to it. */
  function FillGaps(v: seq<Item>): (r: seq<Item>)
    ensures |r| == |v|
  {
    seq(|v|, i requires 0 <= i < |v| => if i + 1 < |v| then FillOne(v[i], v[i + 1]) else v[i])
  }

  function ExtendItem(last: Item): Item {
    if last.Range().Some? && last.End() > last.Start() then
      if last.End() < NIGHT_START then Slot(last.Start(), NIGHT_START, last.goal)
      else if last.End() < DAY_END then Slot(last.Start(), DAY_END, last.goal)
      else last
    else last
  }

  function ClampItem(last: Item): Item {
    if last.Range().None? || last.End() > last.Start() || last.End() >= MORNING then last
    else Slot(last.Start(), MORNING, last.goal)
  }

  /** Step 5: a daytime last slot runs to 22:00, a later one to 06:00. */
  function ExtendLast(v: seq<Item>): (r: seq<Item>)
    requires v != []
    ensures |r| == |v|
  {
    v[|v| - 1 := ExtendItem(Last(v))]
  }

  /** clampNightEnd. */
  function ClampNightEnd(v: seq<Item>): (r: seq<Item>)
    ensures |r| == |v|
  {
    if v == [] then v else v[|v| - 1 := ClampItem(Last(v))]
  }

  /** Merging and reaching back, the part that decides every start. */
  function Laid(sorted: seq<Item>, startMinute: int): seq<Item>
    requires Merge(sorted) != []
  {
    StartFrom(Merge(sorted), startMinute)
  }

  lemma {:induction false} MergeNonempty(v: seq<Item>)
    ensures Merge(v) == [] <==> v == []
  {
    hide Slot;
    if v != [] {
      MergeNonempty(v[..|v| - 1]);
    }
  }

  /** normalizeDailyPlan on the sorted usable slots. */
  function Normalized(sorted: seq<Item>, startMinute: int): (r: seq<Item>)
    requires sorted != []
    ensures r != []
  {
    MergeNonempty(sorted);
    ClampNightEnd(ExtendLast(FillGaps(Laid(sorted, startMinute))))
  }

  // ----- the loops -----

  lemma InsertCounts<T>(r: seq<T>, j: nat, x: T)
    requires j <= |r|
    ensures multiset(r[..j] + [x] + r[j..]) == multiset(r) + multiset{x}
  {
    assert r == r[..j] + r[j..];
  }

  lemma InsertAt(r: seq<Item>, j: nat, it: Item)
    requires SortedByStart(r) && j <= |r|
    requires j > 0 ==> r[j - 1].Start() <= it.Start()
    requires j < |r| ==> it.Start() <= r[j].Start()
    ensures SortedByStart(r[..j] + [it] + r[j..])
  {
    hide Item.Start;
    var t := r[..j] + [it] + r[j..];
    forall a, b | 0 <= a < b < |t| ensures t[a].Start() <= t[b].Start() {
      if a < j {
        assert t[a] == r[a] && r[a].Start() <= r[j - 1].Start();
      }
      if b > j {
        assert t[b] == r[b - 1] && r[j].Start() <= r[b - 1].Start();
      }
      if a < j && b < j {
        assert t[b] == r[b];
      }
      if a > j {
        assert t[a] == r[a - 1];
      }
    }
  }

  method PlaceFor(r: seq<Item>, it: Item) returns (j: nat)
    ensures j <= |r|
    ensures j > 0 ==> r[j - 1].Start() <= it.Start()
    ensures j < |r| ==> it.Start() <= r[j].Start()
  {
    hide SplitPlanRange, Item.Start;
    j := |r|;
    while j > 0 && r[j - 1].Start() > it.Start()
      invariant j <= |r|
      invariant j < |r| ==> it.Start() <= r[j].Start()
    {
      j := j - 1;
    }
  }

  /** Stands for sort.Slice: some permutation, ascending by start. */
  method SortByStart(v: seq<Item>) returns (r: seq<Item>)
    ensures SortedByStart(r) && multiset(r) == multiset(v)
  {
    hide SortedByStart, Item.Start;
    r := [];
    NothingToSort();
    for k := 0 to |v|
      invariant SortedByStart(r)
      invariant multiset(r) == multiset(v[..k])
    {
      var j := PlaceFor(r, v[k]);
      InsertAt(r, j, v[k]);
      InsertCounts(r, j, v[k]);
      assert v[..k + 1] == v[..k] + [v[k]];
      r := r[..j] + [v[k]] + r[j..];
    }
    assert v[..|v|] == v;
  }

  lemma NothingToSort()
    ensures SortedByStart([])
  {
  }

  method KeepUsable(items: seq<Item>) returns (valid: seq<Item>)
    ensures valid == Keep(items)
  {
    hide SplitPlanRange;
    valid := [];
    for k := 0 to |items|
      invariant valid == Keep(items[..k])
    {
      assert items[..k + 1][..k] == items[..k];
      if items[k].Range().None? || items[k].Start() == items[k].End() {
        continue;
      }
      valid := valid + [items[k]];
    }
    assert items[..|items|] == items;
  }

  method MergeNeighbours(sorted: seq<Item>) returns (merged: seq<Item>)
    ensures merged == Merge(sorted)
  {
    hide SplitPlanRange, Slot;
    merged := [];
    for k := 0 to |sorted|
      invariant merged == Merge(sorted[..k])
    {
      assert sorted[..k + 1][..k] == sorted[..k];
      var it := sorted[k];
      var n := |merged|;
      if n > 0 && merged[n - 1].goal == it.goal {
        merged := merged[n - 1 := Slot(merged[n - 1].Start(), it.End(), merged[n - 1].goal)];
        continue;
      }
      merged := merged + [it];
    }
    assert sorted[..|sorted|] == sorted;
  }

  method StretchOverGaps(laid: seq<Item>) returns (v: seq<Item>)
    requires laid != []
    ensures v == FillGaps(laid)
  {
    hide SplitPlanRange, Slot;
    v := laid;
    for i := 0 to |v| - 1
      invariant |v| == |laid|
      invariant forall k :: 0 <= k < i ==> v[k] == FillOne(laid[k], laid[k + 1])
      invariant forall k :: i <= k < |v| ==> v[k] == laid[k]
    {
      if v[i].End() > 0 && v[i].End() < v[i + 1].Start() {
        v := v[i := Slot(v[i].Start(), v[i + 1].Start(), v[i].goal)];
      }
    }
  }

  /** normalizeDailyPlan. */
  method NormalizeDailyPlan(items: seq<Item>, startMinute: int) returns (r: seq<Item>)
    ensures Keep(items) == [] ==> r == []
    ensures Keep(items) != [] ==>
              exists sorted :: SortedByStart(sorted) && multiset(sorted) == multiset(Keep(items))
                               && sorted != [] && r == Normalized(sorted, startMinute)
  {
    hide SplitPlanRange, Slot, Keep, Merge, FillGaps, ClampItem;
    var valid := KeepUsable(items);
    if |valid| == 0 {
      return [];
    }
    var sorted := SortByStart(valid);
    assert sorted != [] by {
      assert valid[0] in multiset(sorted);
    }
    var v := MergeNeighbours(sorted);
    MergeNonempty(sorted);
    if v[0].Range().Some? && v[0].Start() > startMinute {
      v := v[0 := Slot(startMinute, v[0].End(), v[0].goal)];
    }
    v := StretchOverGaps(v);
    var n := |v| - 1;
    if v[n].Range().Some? && v[n].End() > v[n].Start() {
      if v[n].End() < NIGHT_START {
        v := v[n := Slot(v[n].Start(), NIGHT_START, v[n].goal)];
      } else if v[n].End() < DAY_END {
        v := v[n := Slot(v[n].Start(), DAY_END, v[n].goal)];
      }
    }
    r := ClampNightEnd(v);
    assert r == Normalized(sorted, startMinute);
  }

  // ----- which items survive -----

  lemma {:induction false} KeepCounts(items: seq<Item>, it: Item)
    ensures multiset(Keep(items))[it] == if it.Range().Some? && it.Start() != it.End() then multiset(items)[it] else 0
  {
    hide SplitPlanRange, Item.Start, Item.End, Item.Range;
    if items != [] {
      var (init, last) := (items[..|items| - 1], items[|items| - 1]);
      KeepCounts(init, it);
      assert items == init + [last];
      assert Keep(items) == Keep(init) + (if Usable(last) then [last] else []);
    }
  }

  /** Whatever arrangement the sorting returns, every item that parses and has a length is in
      it as often as in the plan, and no other item is. */
  lemma SortedHoldsUsable(items: seq<Item>, sorted: seq<Item>, it: Item)
    requires multiset(sorted) == multiset(Keep(items))
    ensures multiset(sorted)[it] == if it.Range().Some? && it.Start() != it.End() then multiset(items)[it] else 0
  {
    KeepCounts(items, it);
  }
}
