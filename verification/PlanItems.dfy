/** Daily-plan items and the lookup of the slot in force
    (agenttown-mcp/cmd/agenttown-mcp/strategic.go). */
module PlanItems {
  import opened Text
  import opened SlotUtil

  const DAY_START: int := 7 * 60
  const DAY_END: int := 30 * 60
  const NIGHT_START: int := 22 * 60
  const MORNING: int := DAY_END - DAY

  /** One planned activity; `time` is "HH:MM-HH:MM". */
  datatype Item = Item(time: string, goal: string) {
    function Range(): (r: Option<(int, int)>)
      ensures r.Some? ==> time != "" && r.value.0 >= 0 && r.value.1 >= 0
    {
      SplitPlanRange(time)
    }

    // A range that fails to parse reads as 0, 0, as SplitPlanRange's results do in Go.
    function Start(): (s: int) ensures s >= 0 { if Range().Some? then Range().value.0 else 0 }
    function End(): (e: int) ensures e >= 0 { if Range().Some? then Range().value.1 else 0 }
  }

  function Slot(start: int, end: int, goal: string): Item {
    Item(SlotText(start, end), goal)
  }

  lemma SlotReads(start: int, end: int, goal: string)
    ensures Slot(start, end, goal).Range() == Some((start % DAY, end % DAY))
    ensures Slot(start, end, goal).goal == goal
    ensures Slot(start, end, goal).Start() == start % DAY && Slot(start, end, goal).End() == end % DAY
  {
    SplitOfSlotText(start, end);
    hide SplitPlanRange, SlotText;
  }

  /** Whether the slot start-end is in force at minute `cur`: a slot that crosses midnight
      counts before 07:00 only. */
  predicate InForce(start: int, end: int, cur: int) {
    if end <= start then cur >= start || (cur < end && cur < DAY_START)
    else start <= cur < end
  }

  predicate Covers(it: Item, cur: int) {
    it.Range().Some? && InForce(it.Start(), it.End(), cur)
  }

  predicate Covered(items: seq<Item>, cur: int) {
    exists i :: 0 <= i < |items| && Covers(items[i], cur)
  }

  function MatchAt(items: seq<Item>, cur: int): string {
    if items == [] then ""
    else if Covers(items[0], cur) then items[0].time
    else MatchAt(items[1..], cur)
  }

  /** matchPlanSlot. */
  function MatchPlanSlot(items: seq<Item>, timeOfDay: string): string {
    if timeOfDay == "" then ""
    else
      var cur := ParsePlanMinute(timeOfDay);
      if cur < 0 then "" else MatchAt(items, cur)
  }

  lemma {:induction false} MatchAtFindsFirst(items: seq<Item>, cur: int)
    ensures MatchAt(items, cur) != "" <==> Covered(items, cur)
    ensures MatchAt(items, cur) != "" ==>
              exists i :: 0 <= i < |items| && Covers(items[i], cur) && MatchAt(items, cur) == items[i].time
                          && forall k :: 0 <= k < i ==> !Covers(items[k], cur)
  {
    hide SplitPlanRange, InForce;
    if items != [] {
      var rest := items[1..];
      MatchAtFindsFirst(rest, cur);
      if Covers(items[0], cur) {
        assert Covered(items, cur);
      } else {
        if Covered(rest, cur) {
          var i :| 0 <= i < |rest| && Covers(rest[i], cur) && MatchAt(rest, cur) == rest[i].time
                   && forall k :: 0 <= k < i ==> !Covers(rest[k], cur);
          assert items[i + 1] == rest[i];
          assert forall k :: 0 < k < i + 1 ==> items[k] == rest[k - 1];
        }
        if Covered(items, cur) {
          var i :| 0 <= i < |items| && Covers(items[i], cur);
          assert rest[i - 1] == items[i];
        }
      }
    }
  }
}
