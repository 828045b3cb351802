/** The plan as text: formatDailyPlan and parseFormattedPlan
    (agenttown-mcp/cmd/agenttown-mcp/strategic.go). */
module PlanText {
  import opened Text
  import opened SlotUtil
  import opened PlanItems

  // ----- printing and parsing -----

  function Line(it: Item): string {
    it.time + ": " + it.goal
  }

  function FormatLines(items: seq<Item>): (r: seq<string>)
    ensures |r| == |items| && forall k :: 0 <= k < |r| ==> r[k] == Line(items[k])
  {
    seq(|items|, i requires 0 <= i < |items| => Line(items[i]))
  }

  /** formatDailyPlan. */
  function FormatDailyPlan(items: seq<Item>): string {
    JoinLines(FormatLines(items))
  }

  /** One line of parseFormattedPlan. */
  function ParseLine(line: string): Option<Item> {
    var l := TrimSpace(line);
    var colon := IndexColonSpace(l);
    if l == "" || colon < 0 then None
    else
      var it := Item(l[..colon], l[colon + 2..]);
      if it.Range().None? then None else Some(it)
  }

  function ParseLines(lines: seq<string>): seq<Item> {
    if lines == [] then []
    else
      var head := ParseLine(Last(lines));
      ParseLines(lines[..|lines| - 1]) + (if head.Some? then [head.value] else [])
  }

  /** parseFormattedPlan. */
  function Parsed(s: string): seq<Item> {
    ParseLines(Lines(s))
  }

  method ParseFormattedPlan(s: string) returns (items: seq<Item>)
    ensures items == Parsed(s)
  {
    hide ParseLine;
    var lines := Lines(s);
    items := [];
    for k := 0 to |lines|
      invariant items == ParseLines(lines[..k])
    {
      assert lines[..k + 1][..k] == lines[..k];
      var it := ParseLine(lines[k]);
      if it.None? {
        continue;
      }
      items := items + [it.value];
    }
    assert lines[..|lines|] == lines;
  }

  /** An item whose printed line reads back as itself. */
  predicate Printable(it: Item) {
    && '\n' !in it.time && '\n' !in it.goal
    && Trimmed(Line(it))
    && IndexColonSpace(Line(it)) == |it.time|
    && it.Range().Some?
  }

  predicate AllPrintable(items: seq<Item>) {
    forall k :: 0 <= k < |items| ==> Printable(items[k])
  }

  lemma PrintableLine(it: Item)
    requires Printable(it)
    ensures ParseLine(Line(it)) == Some(it) && '\n' !in Line(it)
  {
    hide SplitPlanRange, IsSpace, IndexColonSpace;
    TrimmedIsFixed(Line(it));
    var l := Line(it);
    assert l[..|it.time|] == it.time && l[|it.time| + 2..] == it.goal;
  }

  lemma CutAtColon(l: string, c: int)
    requires ColonSpaceAt(l, c) && '\n' !in l
    ensures Line(Item(l[..c], l[c + 2..])) == l && '\n' !in l[..c] && '\n' !in l[c + 2..]
  {
    assert l == l[..c] + [l[c], l[c + 1]] + l[c + 2..];
  }

  lemma ParsedLineIsPrintable(line: string)
    requires '\n' !in line && ParseLine(line).Some?
    ensures Printable(ParseLine(line).value)
  {
    hide SplitPlanRange, IsSpace, IndexColonSpace, TrimSpace, Line;
    TrimDrops(line);
    CutAtColon(TrimSpace(line), IndexColonSpace(TrimSpace(line)));
  }

  lemma TrimDrops(s: string)
    requires '\n' !in s
    ensures '\n' !in TrimSpace(s)
  {
    hide IsSpace, TrimSpace;
    assert '\n' !in TrimLeft(s);
    assert TrimSpace(s) <= TrimLeft(s) by { TrimIsPrefix(s); }
  }

  lemma TrimIsPrefix(s: string)
    ensures TrimSpace(s) <= TrimLeft(s)
  {
    hide IsSpace;
  }

  lemma {:induction false} ParseConcat(a: seq<string>, b: seq<string>)
    ensures ParseLines(a + b) == ParseLines(a) + ParseLines(b)
  {
    hide ParseLine;
    if b == [] {
      assert a + b == a;
    } else {
      ParseConcat(a, b[..|b| - 1]);
      assert (a + b)[..|a + b| - 1] == a + b[..|b| - 1];
    }
  }

  lemma {:induction false} ParseOfLines(items: seq<Item>)
    requires AllPrintable(items)
    ensures ParseLines(FormatLines(items)) == items
  {
    hide ParseLine, Printable, Line;
    if items != [] {
      var init := items[..|items| - 1];
      ParseOfLines(init);
      assert FormatLines(items)[..|items| - 1] == FormatLines(init);
      PrintableLine(Last(items));
    }
  }

  lemma {:induction false} ParsedArePrintable(lines: seq<string>)
    requires forall k :: 0 <= k < |lines| ==> '\n' !in lines[k]
    ensures AllPrintable(ParseLines(lines))
  {
    hide ParseLine, Printable;
    if lines != [] {
      ParsedArePrintable(lines[..|lines| - 1]);
      if ParseLine(Last(lines)).Some? {
        ParsedLineIsPrintable(Last(lines));
      }
    }
  }

  lemma ParseOfFormat(items: seq<Item>)
    requires AllPrintable(items)
    ensures Parsed(FormatDailyPlan(items)) == items
  {
    hide ParseLine, Printable, Line;
    var lines := FormatLines(items);
    if items == [] {
      assert lines == [];
      EmptyLineIsNone();
      assert Lines("") == [""] && ParseLines([]) == [];
    } else {
      forall k | 0 <= k < |lines| ensures '\n' !in lines[k] {
        PrintableLine(items[k]);
      }
      LinesOfJoin(lines);
      ParseOfLines(items);
    }
  }

  lemma EmptyLineIsNone()
    ensures ParseLine("") == None
  {
  }

  /** Printing a plan and parsing it back gives the plan exactly when every item of it is
      printable. */
  lemma RoundTrip(items: seq<Item>)
    ensures Parsed(FormatDailyPlan(items)) == items <==> AllPrintable(items)
  {
    hide ParseLines, Printable, FormatDailyPlan;
    if AllPrintable(items) {
      ParseOfFormat(items);
    }
    ParsedArePrintable(Lines(FormatDailyPlan(items)));
  }

  /** What any text parses to survives printing and parsing. */
  lemma ReparseIsStable(s: string)
    ensures Parsed(FormatDailyPlan(Parsed(s))) == Parsed(s)
  {
    hide ParseLines, Printable, FormatDailyPlan;
    ParsedArePrintable(Lines(s));
    ParseOfFormat(Parsed(s));
  }

  /** Which goals print: for a slot written by the pipeline, the single-line, nonempty ones
      that do not end in white space. */
  lemma PrintableSlot(start: int, end: int, goal: string)
    ensures Printable(Slot(start, end, goal)) <==> goal != "" && '\n' !in goal && !IsSpace(Last(goal))
  {
    var it := Slot(start, end, goal);
    SlotReads(start, end, goal);
    SlotTextShape(start, end);
    hide SplitPlanRange, FmtMinute, SlotText, IsSpace;
    assert !IsSpace(it.time[0]) by { DigitIsNoSpace(it.time[0]); }
    assert |it.time| == 11;
    ColonSpaceFirst(it.time, it.goal);
    var l := Line(it);
    assert l[0] == it.time[0];
    if goal == "" {
      assert Last(l) == ' ' && IsSpace(' ') by { BlankIsSpace(); }
    } else {
      assert Last(l) == Last(goal);
    }
  }

  lemma BlankIsSpace()
    ensures IsSpace(' ')
  {
  }

  lemma SlotTextShape(start: int, end: int)
    ensures var s := SlotText(start, end);
            |s| == 11 && '\n' !in s && ' ' !in s && IsDigit(s[0]) && s[10] != ':'
  {
    FmtShape(start);
    FmtShape(end);
  }

  lemma FmtShape(m: int)
    ensures var s := FmtMinute(m);
            |s| == 5 && IsDigit(s[0]) && IsDigit(s[1]) && s[2] == ':' && IsDigit(s[3]) && IsDigit(s[4])
  {
    var n := MinuteOfDay(m);
    hide MinuteOfDay;
  }

  lemma ColonSpaceFirst(time: string, goal: string)
    requires ' ' !in time
    requires time != "" && Last(time) != ':'
    ensures IndexColonSpace(time + ": " + goal) == |time|
  {
    var l := time + ": " + goal;
    assert ColonSpaceAt(l, |time|);
    forall j | 0 <= j < |time| ensures !ColonSpaceAt(l, j) {
      if j + 1 < |time| {
        assert l[j + 1] == time[j + 1];
      } else {
        assert l[j] == Last(time);
      }
    }
  }

  // ----- which lines parse, and to what -----

  /** A line parses to an item exactly when, white space around it aside, it is the item's
      printed line, split at the first colon and space, with a slot in front. */
  lemma ParseLineExactly(line: string, it: Item)
    ensures ParseLine(line) == Some(it) <==>
            TrimSpace(line) == Line(it) && IndexColonSpace(Line(it)) == |it.time| && it.Range().Some?
  {
    hide SplitPlanRange, IsSpace, IndexColonSpace, TrimSpace;
    var l := TrimSpace(line);
    var colon := IndexColonSpace(l);
    if colon >= 0 {
      assert l == l[..colon] + ": " + l[colon + 2..];
    }
    if l == Line(it) {
      assert l[..|it.time|] == it.time && l[|it.time| + 2..] == it.goal;
    }
  }

  lemma PaddedLineParses(left: string, it: Item, right: string)
    requires Printable(it) && Pads(left, right)
    ensures ParseLine(left + Line(it) + right) == Some(it)
  {
    hide SplitPlanRange, IsSpace, IndexColonSpace, TrimSpace, ParseLine;
    TrimOfPadded(left, Line(it), right);
    ParseLineExactly(left + Line(it) + right, it);
  }

  /** The printed plan is one line per item and nothing else. */
  lemma FormatIsLines(items: seq<Item>)
    requires items != [] && forall k :: 0 <= k < |items| ==> '\n' !in items[k].time && '\n' !in items[k].goal
    ensures Lines(FormatDailyPlan(items)) == FormatLines(items)
    ensures |Lines(FormatDailyPlan(items))| == |items|
    ensures forall k :: 0 <= k < |items| ==> Lines(FormatDailyPlan(items))[k] == items[k].time + ": " + items[k].goal
  {
    LinesOfJoin(FormatLines(items));
  }
}
