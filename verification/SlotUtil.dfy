/** Clock times and "HH:MM-HH:MM" slots (agenttown-mcp/pkg/prompt/slotutil.go). */
module SlotUtil {
  import opened Text

  const DAY: int := 1440

  // ----- Go's 64-bit integers -----

  const TWO_64: int := 0x1_0000_0000_0000_0000
  const TWO_63: int := 0x8000_0000_0000_0000

  /** The int64 that `x` wraps around to. */
  function Wrap(x: int): (r: int)
    ensures -TWO_63 <= r < TWO_63
    ensures -TWO_63 <= x < TWO_63 ==> r == x
    decreases if x < 0 then -2 * x else 2 * x + 1
  {
    if x < -TWO_63 then Wrap(x + TWO_64)
    else if x >= TWO_63 then Wrap(x - TWO_64)
    else x
  }

  lemma {:induction false} WrapShift(x: int) returns (k: int)
    ensures Wrap(x) == x + k * TWO_64
    decreases if x < 0 then -2 * x else 2 * x + 1
  {
    if x < -TWO_63 {
      k := WrapShift(x + TWO_64);
      k := k + 1;
    } else if x >= TWO_63 {
      k := WrapShift(x - TWO_64);
      k := k - 1;
    } else {
      k := 0;
    }
  }

  /** Two integers that agree modulo 2^64 wrap to the same int64. */
  lemma WrapPeriod(x: int, k: int)
    ensures Wrap(x + k * TWO_64) == Wrap(x)
  {
    var i := WrapShift(x);
    var j := WrapShift(x + k * TWO_64);
    assert Wrap(x + k * TWO_64) - Wrap(x) == (j + k - i) * TWO_64;
  }

  lemma WrapStep(n: int, d: int)
    ensures Wrap(Wrap(n) * 10 + d) == Wrap(n * 10 + d)
  {
    var k := WrapShift(n);
    WrapPeriod(n * 10 + d, 10 * k);
  }

  /** Go's `%`: the remainder has the sign of the dividend. */
  function GoRem(a: int, b: int): (r: int)
    requires b > 0
    ensures -b < r < b
  {
    if a >= 0 then a % b else -((-a) % b)
  }

  // ----- numbers -----

  predicate IsDigit(c: char) { '0' <= c <= '9' }

  predicate AllDigits(s: string) { forall k :: 0 <= k < |s| ==> IsDigit(s[k]) }

  function DigitValue(c: char): (d: int)
    requires IsDigit(c)
  {
    c as int - '0' as int
  }

  /** The number a digit string denotes. */
  function Decimal(s: string): (n: nat)
    requires AllDigits(s)
  {
    if s == [] then 0 else 10 * Decimal(s[..|s| - 1]) + DigitValue(Last(s))
  }

  /** What atoi returns: -1 on an empty or non-numeric text, else the number, wrapped. */
  function AtoiValue(s: string): int {
    var t := TrimSpace(s);
    if t == "" || !AllDigits(t) then -1 else Wrap(Decimal(t))
  }

  lemma AppendDigit(t: string, k: nat)
    requires k < |t| && AllDigits(t[..k]) && IsDigit(t[k])
    ensures AllDigits(t[..k + 1])
    ensures Wrap(Decimal(t[..k + 1])) == Wrap(Wrap(Decimal(t[..k])) * 10 + DigitValue(t[k]))
  {
    var u := t[..k + 1];
    assert u[..|u| - 1] == t[..k] && Last(u) == t[k];
    WrapStep(Decimal(t[..k]), DigitValue(t[k]));
  }

  lemma AtoiOfText(s: string, t: string)
    requires t == TrimSpace(s)
    ensures AtoiValue(s) == if t == "" || !AllDigits(t) then -1 else Wrap(Decimal(t))
  {
  }

  /** atoi: the loop wraps at every step and still returns the wrapped number. */
  method Atoi(s: string) returns (n: int)
    ensures n == AtoiValue(s)
  {
    hide AtoiValue, Wrap, TrimSpace, DigitValue;
    var t := TrimSpace(s);
    AtoiOfText(s, t);
    assert t[..0] == [];
    if t == "" {
      return -1;
    }
    n := 0;
    for k := 0 to |t|
      invariant AllDigits(t[..k])
      invariant n == Wrap(Decimal(t[..k]))
    {
      if !IsDigit(t[k]) {
        assert !AllDigits(t);
        return -1;
      }
      AppendDigit(t, k);
      n := Wrap(n * 10 + DigitValue(t[k]));
    }
    assert t[..|t|] == t;
  }

  // ----- times of day -----

  /** ParsePlanMinute: minutes from midnight, negative on failure. Hours and minutes are
      not range-checked ("25:70" is accepted). */
  function ParsePlanMinute(s: string): int {
    var t := TrimSpace(s);
    var c := IndexOf(t, ':');
    if c < 0 then -1
    else
      var h := AtoiValue(t[..c]);
      var m := AtoiValue(t[c + 1..]);
      if h < 0 || m < 0 then -1 else Wrap(h * 60 + m)
  }

  function Digit(d: int): (c: char)
    requires 0 <= d < 10
    ensures IsDigit(c) && DigitValue(c) == d
  {
    ('0' as int + d) as char
  }

  /** fmt.Sprintf("%02d", n). */
  function TwoDigits(n: int): (s: string)
    requires 0 <= n < 100
    ensures |s| == 2 && AllDigits(s)
  {
    [Digit(n / 10), Digit(n % 10)]
  }

  function MinuteOfDay(m: int): (r: int)
    ensures r == m % DAY
  {
    var r := GoRem(m, DAY);
    if r < 0 then r + DAY else r
  }

  /** FmtMinute. */
  function FmtMinute(m: int): (s: string)
    ensures |s| == 5 && '-' !in s && '\n' !in s
  {
    var n := MinuteOfDay(m);
    TwoDigits(n / 60) + ":" + TwoDigits(n % 60)
  }

  lemma AtoiOfDigits(s: string)
    requires s != "" && AllDigits(s)
    ensures AtoiValue(s) == Wrap(Decimal(s))
  {
    TrimmedIsFixed(s);
  }

  lemma DecimalOfTwo(a: char, b: char)
    requires IsDigit(a) && IsDigit(b)
    ensures Decimal([a, b]) == 10 * DigitValue(a) + DigitValue(b)
  {
    assert [a, b][..|[a, b]| - 1] == [a] && [a][..|[a]| - 1] == [];
    assert Decimal([a]) == DigitValue(a);
  }

  lemma DecimalOfTwoDigits(n: int)
    requires 0 <= n < 100
    ensures Decimal(TwoDigits(n)) == n
  {
    DecimalOfTwo(Digit(n / 10), Digit(n % 10));
  }

  lemma TwoDigitsValue(n: int)
    requires 0 <= n < 100
    ensures AtoiValue(TwoDigits(n)) == n
  {
    AtoiOfDigits(TwoDigits(n));
    DecimalOfTwoDigits(n);
  }

  lemma DigitIsNoSpace(c: char)
    requires IsDigit(c)
    ensures !IsSpace(c)
  {
  }

  lemma MinuteOfParts(s: string, c: nat)
    requires TrimSpace(s) == s && IndexOf(s, ':') == c
    ensures ParsePlanMinute(s) ==
            var h, m := AtoiValue(s[..c]), AtoiValue(s[c + 1..]);
            if h < 0 || m < 0 then -1 else Wrap(h * 60 + m)
  {
    hide AtoiValue, Wrap, TrimSpace, IndexOf;
  }

  lemma ClockText(h: string, m: string)
    requires |h| == 2 && |m| == 2 && AllDigits(h) && AllDigits(m)
    ensures ParsePlanMinute(h + ":" + m) ==
            if AtoiValue(h) < 0 || AtoiValue(m) < 0 then -1 else Wrap(AtoiValue(h) * 60 + AtoiValue(m))
  {
    hide AtoiValue, Wrap, ParsePlanMinute, IsSpace, TrimSpace;
    var s := h + ":" + m;
    assert s[0] == h[0] && s[1] == h[1] && Last(s) == m[1] && IsDigit(h[0]) && IsDigit(h[1]) && IsDigit(m[1]);
    DigitIsNoSpace(s[0]);
    DigitIsNoSpace(Last(s));
    TrimmedIsFixed(s);
    IndexOfFirst(s, ':', 2);
    MinuteOfParts(s, 2);
    assert s[..2] == h && s[2 + 1..] == m;
  }

  /** Printing a minute and parsing it back reduces it to the day, for every int. */
  lemma ParseOfFmt(m: int)
    ensures ParsePlanMinute(FmtMinute(m)) == m % DAY
  {
    var n := MinuteOfDay(m);
    ClockText(TwoDigits(n / 60), TwoDigits(n % 60));
    TwoDigitsValue(n / 60);
    TwoDigitsValue(n % 60);
  }

  // ----- slots -----

  /** SplitPlanRange; None is `ok == false`. */
  function SplitPlanRange(s: string): (r: Option<(int, int)>)
    ensures r.Some? ==> s != "" && r.value.0 >= 0 && r.value.1 >= 0
  {
    var d := IndexOf(s, '-');
    if d < 0 then None
    else
      var start := ParsePlanMinute(s[..d]);
      var end := ParsePlanMinute(s[d + 1..]);
      if start < 0 || end < 0 then None else Some((start, end))
  }

  function RangeOf(start: int, end: int): (int, int) {
    if end > start then (start, end)
    else if end == start then (-1, -1)
    else (start, Wrap(end + DAY))
  }

  /** SlotRangeMinute: the slot on a line where a slot that crosses midnight ends on the
      next day; (-1, -1) on failure. */
  function SlotRangeMinute(slot: string): (int, int) {
    match SplitPlanRange(slot)
    case None => (-1, -1)
    case Some((start, end)) => RangeOf(start, end)
  }

  /** The text of a slot, as every rewriting step builds it. */
  function SlotText(start: int, end: int): string {
    FmtMinute(start) + "-" + FmtMinute(end)
  }

  lemma SplitOfSlotText(start: int, end: int)
    ensures SplitPlanRange(SlotText(start, end)) == Some((start % DAY, end % DAY))
  {
    var s := SlotText(start, end);
    var a := FmtMinute(start);
    assert s[..5] == a && s[6..] == FmtMinute(end) && s[5] == '-';
    IndexOfFirst(s, '-', 5);
    ParseOfFmt(start);
    ParseOfFmt(end);
  }

  /** NormalizeTodToSlot. */
  function NormalizeTodToSlot(curMin: int, start: int, end: int): int {
    if curMin < 0 || start < 0 || end < 0 then curMin
    else if end > DAY then
      var gapStart := end - DAY;
      if curMin >= start then curMin
      else if curMin < gapStart then Wrap(curMin + DAY)
      else if curMin < Wrap(gapStart + start) / 2 then end
      else curMin
    else curMin
  }

  predicate PastEnd(range: (int, int), curMin: int) {
    range.1 > 0 && curMin >= 0 && NormalizeTodToSlot(curMin, range.0, range.1) >= range.1
  }

  /** SlotExpired. */
  predicate SlotExpired(currentSlot: string, tod: string) {
    currentSlot != "" && tod != "" && PastEnd(SlotRangeMinute(currentSlot), ParsePlanMinute(tod))
  }

  lemma PastEndWindow(start: int, end: int, cur: int)
    requires 0 <= start < DAY && 0 <= end < DAY && 0 <= cur < DAY && start != end
    ensures PastEnd(RangeOf(start, end), cur) <==>
            if start < end then end <= cur else end > 0 && end <= cur < (end + start) / 2
  {
  }

  lemma EmptyIsNoTime(tod: string)
    requires ParsePlanMinute(tod) >= 0
    ensures tod != ""
  {
  }

  /** When a slot reads as expired, over all clock times: from its end to midnight for a
      slot within the day; for one that crosses midnight only in the first half of the gap
      before its next start; never for a slot that ends at 00:00. */
  lemma ExpiryWindow(slot: string, tod: string, start: int, end: int, cur: int)
    requires SplitPlanRange(slot) == Some((start, end)) && start < DAY && end < DAY && start != end
    requires ParsePlanMinute(tod) == cur && 0 <= cur < DAY
    ensures SlotExpired(slot, tod) <==>
            if start < end then end <= cur
            else end > 0 && end <= cur < (end + start) / 2
  {
    EmptyIsNoTime(tod);
    PastEndWindow(start, end, cur);
    hide ParsePlanMinute, SplitPlanRange, PastEnd;
  }

  // ----- what is a time, and what is a slot -----

  /** A number as atoi reads it. */
  predicate IsNumber(s: string) {
    TrimSpace(s) != "" && AllDigits(TrimSpace(s))
  }

  lemma AtoiRejects(s: string)
    ensures !IsNumber(s) ==> AtoiValue(s) == -1
    ensures IsNumber(s) && Decimal(TrimSpace(s)) < TWO_63 ==> AtoiValue(s) == Decimal(TrimSpace(s))
  {
    hide TrimSpace;
  }

  /** A time is two numbers around the first colon; anything else is no time. Hours and
      minutes may be of any size. */
  lemma TimeExactly(h: string, m: string)
    requires ':' !in h && Trimmed(h + ":" + m)
    requires IsNumber(h) ==> Decimal(TrimSpace(h)) < 1000000
    requires IsNumber(m) ==> Decimal(TrimSpace(m)) < 1000000
    ensures IsNumber(h) && IsNumber(m) ==>
              ParsePlanMinute(h + ":" + m) == 60 * Decimal(TrimSpace(h)) + Decimal(TrimSpace(m))
    ensures !IsNumber(h) || !IsNumber(m) ==> ParsePlanMinute(h + ":" + m) < 0
  {
    hide TrimSpace, AtoiValue, Decimal, IndexOf, ParsePlanMinute;
    var s := h + ":" + m;
    TrimmedIsFixed(s);
    IndexOfFirst(s, ':', |h|);
    MinuteOfParts(s, |h|);
    assert s[..|h|] == h && s[|h| + 1..] == m;
    AtoiRejects(h);
    AtoiRejects(m);
  }

  lemma NoColonNoTime(s: string)
    requires ':' !in s
    ensures ParsePlanMinute(s) < 0
  {
    hide TrimSpace, AtoiValue, IndexOf;
    var left, right := TrimDropsSpace(s);
    IndexOfAbsent(TrimSpace(s), ':');
  }

  /** A slot is two times around the first dash. */
  lemma SlotExactly(a: string, b: string)
    requires '-' !in a
    ensures SplitPlanRange(a + "-" + b) ==
            if ParsePlanMinute(a) < 0 || ParsePlanMinute(b) < 0 then None else Some((ParsePlanMinute(a), ParsePlanMinute(b)))
  {
    hide ParsePlanMinute, IndexOf;
    var s := a + "-" + b;
    IndexOfFirst(s, '-', |a|);
    assert s[..|a|] == a && s[|a| + 1..] == b;
  }

  lemma NoDashNoSlot(s: string)
    requires '-' !in s
    ensures SplitPlanRange(s) == None
  {
    IndexOfAbsent(s, '-');
  }
}
