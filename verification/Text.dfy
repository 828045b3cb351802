/** Options, and the few string operations of Go's standard library that the
    plan text relies on: TrimSpace, Split by a separator, Index. */
module Text {

  datatype Option<+T> = None | Some(value: T)

  function Last<T>(s: seq<T>): T
    requires s != []
  {
    s[|s| - 1]
  }

  /** unicode.IsSpace. */
  predicate IsSpace(c: char) {
    || '\t' <= c <= '\r' || c == ' '
    || c == '\U{0085}' || c == '\U{00A0}' || c == '\U{1680}'
    || '\U{2000}' <= c <= '\U{200A}'
    || c == '\U{2028}' || c == '\U{2029}' || c == '\U{202F}' || c == '\U{205F}' || c == '\U{3000}'
  }

  function TrimLeft(s: string): (r: string)
    ensures |r| <= |s| && r == s[|s| - |r|..]
    ensures r == [] || !IsSpace(r[0])
  {
    if s != [] && IsSpace(s[0]) then TrimLeft(s[1..]) else s
  }

  function TrimRight(s: string): (r: string)
    ensures r <= s
    ensures r == [] || !IsSpace(Last(r))
  {
    if s != [] && IsSpace(Last(s)) then TrimRight(s[..|s| - 1]) else s
  }

  /** strings.TrimSpace. */
  function TrimSpace(s: string): (r: string)
    ensures Trimmed(r)
  {
    TrimRight(TrimLeft(s))
  }

  predicate Trimmed(s: string) {
    s == [] || (!IsSpace(s[0]) && !IsSpace(Last(s)))
  }

  lemma TrimmedIsFixed(s: string)
    ensures TrimSpace(s) == s <==> Trimmed(s)
  {
  }

  predicate AllSpace(s: string) {
    forall k :: 0 <= k < |s| ==> IsSpace(s[k])
  }

  lemma {:induction false} TrimLeftDrops(s: string)
    ensures AllSpace(s[..|s| - |TrimLeft(s)|])
  {
    hide IsSpace;
    if s != [] && IsSpace(s[0]) {
      TrimLeftDrops(s[1..]);
      var n := |s| - |TrimLeft(s)|;
      assert TrimLeft(s) == TrimLeft(s[1..]);
      hide TrimLeft;
      forall k | 0 <= k < n ensures IsSpace(s[..n][k]) {
        assert k > 0 ==> s[k] == s[1..][..n - 1][k - 1];
      }
    }
  }

  lemma {:induction false} TrimRightDrops(s: string)
    ensures AllSpace(s[|TrimRight(s)|..])
  {
    hide IsSpace;
    if s != [] && IsSpace(Last(s)) {
      var init := s[..|s| - 1];
      TrimRightDrops(init);
      assert s[|TrimRight(s)|..] == init[|TrimRight(s)|..] + [Last(s)];
    }
  }

  predicate Pads(left: string, right: string) {
    AllSpace(left) && AllSpace(right)
  }

  /** Nothing but white space is trimmed. */
  lemma TrimDropsSpace(s: string) returns (left: string, right: string)
    ensures Pads(left, right) && s == left + TrimSpace(s) + right
  {
    TrimLeftDrops(s);
    TrimRightDrops(TrimLeft(s));
    hide IsSpace, TrimLeft, TrimRight, AllSpace;
    left := s[..|s| - |TrimLeft(s)|];
    right := TrimLeft(s)[|TrimSpace(s)|..];
  }

  /** Padding a trimmed text changes nothing about what is left of it. */
  lemma {:induction false} TrimOfPadded(left: string, s: string, right: string)
    requires Pads(left, right) && Trimmed(s) && s != []
    ensures TrimSpace(left + s + right) == s
    decreases |left| + |right|
  {
    hide IsSpace, TrimRight;
    if left != [] {
      assert (left + s + right)[1..] == left[1..] + s + right;
      TrimOfPadded(left[1..], s, right);
    } else {
      assert left + s + right == s + right;
      TrimRightOfPadded(s, right);
    }
  }

  lemma {:induction false} TrimRightOfPadded(s: string, right: string)
    requires AllSpace(right) && Trimmed(s) && s != []
    ensures TrimRight(s + right) == s
  {
    hide IsSpace;
    if right == [] {
      assert s + right == s;
    } else {
      var init := right[..|right| - 1];
      assert Last(s + right) == Last(right) && (s + right)[..|s + right| - 1] == s + init;
      TrimRightOfPadded(s, init);
    }
  }

  /** strings.IndexByte: the first index of `c`, or -1. */
  function IndexOf(s: string, c: char): (i: int)
    ensures -1 <= i < |s|
  {
    if s == [] then -1
    else if s[0] == c then 0
    else
      var i := IndexOf(s[1..], c);
      if i < 0 then -1 else i + 1
  }

  lemma {:induction false} IndexOfFirst(s: string, c: char, i: nat)
    requires i < |s| && s[i] == c
    requires forall k :: 0 <= k < i ==> s[k] != c
    ensures IndexOf(s, c) == i
  {
    if i > 0 {
      IndexOfFirst(s[1..], c, i - 1);
    }
  }

  lemma {:induction false} IndexOfAbsent(s: string, c: char)
    ensures IndexOf(s, c) < 0 <==> c !in s
  {
    if s != [] {
      IndexOfAbsent(s[1..], c);
      assert s == [s[0]] + s[1..];
    }
  }

  predicate ColonSpaceAt(s: string, i: int) {
    0 <= i < |s| - 1 && s[i] == ':' && s[i + 1] == ' '
  }

  /** strings.Index(s, ": "): the first index of a colon followed by a space, or -1. */
  function IndexColonSpace(s: string): (i: int)
    ensures i == -1 || ColonSpaceAt(s, i)
    ensures forall j :: ColonSpaceAt(s, j) ==> 0 <= i <= j
  {
    if |s| < 2 then -1
    else if ColonSpaceAt(s, 0) then 0
    else
      var i := IndexColonSpace(s[1..]);
      assert forall j :: ColonSpaceAt(s, j) ==> ColonSpaceAt(s[1..], j - 1);
      if i < 0 then -1 else i + 1
  }

  /** strings.Split(s, "\n"). */
  function Lines(s: string): (r: seq<string>)
    ensures |r| >= 1
    ensures forall k :: 0 <= k < |r| ==> '\n' !in r[k]
  {
    if s == [] then [""]
    else
      var rest := Lines(s[1..]);
      if s[0] == '\n' then [""] + rest else [[s[0]] + rest[0]] + rest[1..]
  }

  lemma {:induction false} LinesOfOneLine(s: string)
    requires '\n' !in s
    ensures Lines(s) == [s]
  {
    if s != [] {
      LinesOfOneLine(s[1..]);
      assert s == [s[0]] + s[1..];
    }
  }

  /** A newline between two texts splits them into the lines of either. */
  lemma {:induction false} LinesOfConcat(a: string, b: string)
    ensures Lines(a + "\n" + b) == Lines(a) + Lines(b)
  {
    if a == [] {
      assert (a + "\n" + b)[1..] == b;
    } else {
      assert (a + "\n" + b)[1..] == a[1..] + "\n" + b;
      LinesOfConcat(a[1..], b);
    }
  }

  /** strings.Join(lines, "\n"). */
  function JoinLines(lines: seq<string>): string {
    if lines == [] then ""
    else if |lines| == 1 then lines[0]
    else lines[0] + "\n" + JoinLines(lines[1..])
  }

  lemma {:induction false} LinesOfJoin(lines: seq<string>)
    requires lines != []
    requires forall k :: 0 <= k < |lines| ==> '\n' !in lines[k]
    ensures Lines(JoinLines(lines)) == lines
  {
    LinesOfOneLine(lines[0]);
    if |lines| > 1 {
      LinesOfConcat(lines[0], JoinLines(lines[1..]));
      LinesOfJoin(lines[1..]);
      assert lines == [lines[0]] + lines[1..];
    }
  }
}
