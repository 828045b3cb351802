/** Reassembling streamed tool calls (parseStream in agenttown-mcp/pkg/venus/client.go).
    Line framing is the reduced form of section 9.2.6 of the WHATWG HTML Living Standard
    that the client reads: comments, "data:" with one optional space, and "[DONE]". */
module StreamAssembly {
  import opened Text

  datatype ToolCall = ToolCall(id: string, typ: string, name: string, arguments: string)

  /** One fragment of a tool call. */
  datatype Delta = Delta(index: int, id: string, typ: string, name: string, arguments: string)

  /** A decoded chunk: text, and the fragments of its first choice. */
  datatype Chunk = Chunk(content: string, deltas: seq<Delta>)

  const NO_CALL: ToolCall := ToolCall("", "", "", "")

  // ----- the meaning of a fragment sequence -----

  function Absorb(tc: ToolCall, d: Delta): ToolCall {
    ToolCall(if d.id != "" then d.id else tc.id,
             if d.typ != "" then d.typ else tc.typ,
             if d.name != "" then d.name else tc.name,
             tc.arguments + d.arguments)
  }

  /** The call a run of fragments spells. */
  function Spelled(frags: seq<Delta>): ToolCall {
    if frags == [] then NO_CALL else Absorb(Spelled(frags[..|frags| - 1]), Last(frags))
  }

  predicate OneIndex(run: seq<Delta>) {
    forall i, j :: 0 <= i < j < |run| ==> run[i].index == run[j].index
  }

  /** Nonempty runs of one index each, neighbours differing. */
  predicate Separate(runs: seq<seq<Delta>>) {
    && (forall k :: 0 <= k < |runs| ==> runs[k] != [] && OneIndex(runs[k]))
    && (forall k :: 0 < k < |runs| ==> runs[k - 1][0].index != runs[k][0].index)
  }

  function Push(runs: seq<seq<Delta>>, d: Delta): seq<seq<Delta>> {
    if runs != [] && Last(runs) != [] && Last(runs)[0].index == d.index
    then runs[..|runs| - 1] + [Last(runs) + [d]]
    else runs + [[d]]
  }

  /** The runs of equal index of a fragment sequence. */
  function RunsOf(ds: seq<Delta>): seq<seq<Delta>> {
    if ds == [] then [] else Push(RunsOf(ds[..|ds| - 1]), Last(ds))
  }

  function SpelledAll(runs: seq<seq<Delta>>): (calls: seq<ToolCall>)
    ensures |calls| == |runs| && forall k :: 0 <= k < |runs| ==> calls[k] == Spelled(runs[k])
  {
    seq(|runs|, k requires 0 <= k < |runs| => Spelled(runs[k]))
  }

  function Flatten<T>(ss: seq<seq<T>>): seq<T> {
    if ss == [] then [] else Flatten(ss[..|ss| - 1]) + Last(ss)
  }

  lemma PushKeeps(runs: seq<seq<Delta>>, d: Delta)
    requires Separate(runs)
    ensures Separate(Push(runs, d)) && Flatten(Push(runs, d)) == Flatten(runs) + [d]
  {
    var r := Push(runs, d);
    if |r| == |runs| {
      assert r[..|r| - 1] == runs[..|runs| - 1];
    } else {
      assert r[..|r| - 1] == runs;
    }
  }

  /** The runs are exactly the fragments, cut wherever the index changes and nowhere else. */
  lemma {:induction false} RunsAreMaximal(ds: seq<Delta>)
    ensures Separate(RunsOf(ds)) && Flatten(RunsOf(ds)) == ds
  {
    hide Separate, Push;
    if ds == [] {
      NoRuns();
    } else {
      RunsAreMaximal(ds[..|ds| - 1]);
      PushKeeps(RunsOf(ds[..|ds| - 1]), Last(ds));
    }
  }

  lemma NoRuns()
    ensures Separate([])
  {
  }

  /** Two neighbouring runs. */
  predicate Apart(before: seq<Delta>, run: seq<Delta>) {
    run != [] && OneIndex(run) && before != [] && before[0].index != run[0].index
  }

  lemma SeparateInit(runs: seq<seq<Delta>>)
    requires Separate(runs) && runs != []
    ensures Separate(runs[..|runs| - 1]) && runs[|runs| - 1] != [] && OneIndex(runs[|runs| - 1])
    ensures |runs| > 1 ==> Apart(runs[|runs| - 2], runs[|runs| - 1])
  {
    hide OneIndex;
    var init := runs[..|runs| - 1];
    assert forall k :: 0 <= k < |init| ==> init[k] == runs[k];
  }

  /** Cutting at index changes is the only such cut. */
  lemma {:induction false} RunsAreUnique(runs: seq<seq<Delta>>)
    requires Separate(runs)
    ensures RunsOf(Flatten(runs)) == runs
  {
    hide Separate, Push, OneIndex, Apart;
    if runs != [] {
      var init, run := runs[..|runs| - 1], runs[|runs| - 1];
      SeparateInit(runs);
      RunsAreUnique(init);
      assert Flatten(runs) == Flatten(init) + run;
      assert runs == init + [run] && (init != [] ==> Last(init) == runs[|runs| - 2]);
      hide RunsOf, Flatten;
      RunGrows(init, Flatten(init), run);
    }
  }

  lemma OneIndexInit(run: seq<Delta>)
    requires |run| > 1 && OneIndex(run)
    ensures OneIndex(run[..|run| - 1]) && run[0].index == run[|run| - 1].index
  {
  }

  lemma {:induction false} RunGrows(runs: seq<seq<Delta>>, ds: seq<Delta>, run: seq<Delta>)
    requires RunsOf(ds) == runs && run != [] && OneIndex(run)
    requires runs != [] ==> Apart(Last(runs), run)
    ensures RunsOf(ds + run) == runs + [run]
  {
    hide RunsOf, Push, OneIndex;
    var init, d := run[..|run| - 1], run[|run| - 1];
    assert ds + run == (ds + init) + [d] && run == init + [d];
    RunsGrow(ds + init, d);
    if init == [] {
      assert ds + init == ds;
      PushApart(runs, d);
    } else {
      OneIndexInit(run);
      RunGrows(runs, ds, init);
      PushOnto(runs, init, d);
    }
  }

  lemma RunsGrow(ds: seq<Delta>, d: Delta)
    ensures RunsOf(ds + [d]) == Push(RunsOf(ds), d)
  {
    hide Push;
    assert (ds + [d])[..|ds|] == ds;
  }

  lemma PushApart(runs: seq<seq<Delta>>, d: Delta)
    requires runs != [] ==> Apart(Last(runs), [d])
    ensures Push(runs, d) == runs + [[d]]
  {
    hide OneIndex;
  }

  lemma PushOnto(runs: seq<seq<Delta>>, init: seq<Delta>, d: Delta)
    ensures init != [] && init[0].index == d.index ==> Push(runs + [init], d) == runs + [init + [d]]
  {
    assert (runs + [init])[..|runs|] == runs;
  }

  // ----- fragmentation -----

  function Arguments(frags: seq<Delta>): string {
    if frags == [] then "" else Arguments(frags[..|frags| - 1]) + Last(frags).arguments
  }

  /** A field of a fragmented call arrives whole, in some fragments and not in others. */
  predicate Carries(value: string, parts: seq<string>) {
    (forall k :: 0 <= k < |parts| ==> parts[k] == "" || parts[k] == value)
    && (value == "" || exists k :: 0 <= k < |parts| && parts[k] == value)
  }

  function Ids(frags: seq<Delta>): seq<string> { seq(|frags|, k requires 0 <= k < |frags| => frags[k].id) }
  function Types(frags: seq<Delta>): seq<string> { seq(|frags|, k requires 0 <= k < |frags| => frags[k].typ) }
  function Names(frags: seq<Delta>): seq<string> { seq(|frags|, k requires 0 <= k < |frags| => frags[k].name) }

  /** `frags` is a way of sending `call` in pieces. */
  predicate Fragments(frags: seq<Delta>, call: ToolCall) {
    frags != [] && OneIndex(frags)
    && Carries(call.id, Ids(frags)) && Carries(call.typ, Types(frags)) && Carries(call.name, Names(frags))
    && Arguments(frags) == call.arguments
  }

  /** The last nonempty part. */
  function Latest(parts: seq<string>): string {
    if parts == [] then "" else if Last(parts) != "" then Last(parts) else Latest(parts[..|parts| - 1])
  }

  lemma {:induction false} CarriedIsLatest(value: string, parts: seq<string>)
    requires Carries(value, parts)
    ensures Latest(parts) == value
  {
    if parts != [] && Last(parts) == "" {
      var init := parts[..|parts| - 1];
      if value != "" {
        var k :| 0 <= k < |parts| && parts[k] == value;
        assert init[k] == value;
      }
      CarriedIsLatest(value, init);
    }
  }

  lemma {:induction false} SpelledFields(frags: seq<Delta>)
    ensures Spelled(frags) == ToolCall(Latest(Ids(frags)), Latest(Types(frags)), Latest(Names(frags)), Arguments(frags))
  {
    if frags != [] {
      var init := frags[..|frags| - 1];
      SpelledFields(init);
      assert Ids(frags)[..|init|] == Ids(init) && Types(frags)[..|init|] == Types(init) && Names(frags)[..|init|] == Names(init);
    }
  }

  lemma FragmentsSpell(frags: seq<Delta>, call: ToolCall)
    requires Fragments(frags, call)
    ensures Spelled(frags) == call
  {
    hide Carries;
    SpelledFields(frags);
    CarriedIsLatest(call.id, Ids(frags));
    CarriedIsLatest(call.typ, Types(frags));
    CarriedIsLatest(call.name, Names(frags));
  }

  predicate AllFragments(pieces: seq<seq<Delta>>, calls: seq<ToolCall>) {
    |pieces| == |calls| && forall k :: 0 <= k < |calls| ==> Fragments(pieces[k], calls[k])
  }

  /** Any fragmentation of a list of calls, with differing indices on neighbours, reassembles
      to the list. */
  lemma AnyFragmentationReassembles(calls: seq<ToolCall>, pieces: seq<seq<Delta>>)
    requires AllFragments(pieces, calls) && Separate(pieces)
    ensures SpelledAll(RunsOf(Flatten(pieces))) == calls
  {
    hide Fragments, Separate;
    RunsAreUnique(pieces);
    forall k | 0 <= k < |calls| ensures Spelled(pieces[k]) == calls[k] {
      FragmentsSpell(pieces[k], calls[k]);
    }
  }

  // ----- which calls are announced while streaming -----

  /** The calls handed to onToolCall: each run when the next one starts, unless its index is
      the sentinel -1, and the last one at the end. */
  function Announced(runs: seq<seq<Delta>>): seq<ToolCall> {
    if runs == [] then []
    else AnnouncedEarly(runs[..|runs| - 1]) + [Spelled(Last(runs))]
  }

  function AnnouncedEarly(runs: seq<seq<Delta>>): (r: seq<ToolCall>)
    ensures |r| <= |runs|
  {
    if runs == [] then []
    else
      AnnouncedEarly(runs[..|runs| - 1])
      + (if Last(runs) != [] && Last(runs)[0].index != -1 then [Spelled(Last(runs))] else [])
  }

  predicate NoSentinel(runs: seq<seq<Delta>>) {
    forall k :: 0 <= k < |runs| ==> runs[k] != [] ==> runs[k][0].index != -1
  }

  lemma {:induction false} EarlyIsAll(runs: seq<seq<Delta>>)
    requires NoneEmpty(runs)
    ensures |AnnouncedEarly(runs)| == |runs| <==> NoSentinel(runs)
    ensures NoSentinel(runs) ==> AnnouncedEarly(runs) == SpelledAll(runs)
  {
    hide Spelled;
    if runs != [] {
      var init := runs[..|runs| - 1];
      EarlyIsAll(init);
      assert NoSentinel(runs) <==> NoSentinel(init) && Last(runs)[0].index != -1;
      assert SpelledAll(runs) == SpelledAll(init) + [Spelled(Last(runs))];
    }
  }

  /** The announcements are the final calls, each exactly once, precisely when no run but the
      last carries the index -1. */
  lemma AnnouncedOnce(ds: seq<Delta>)
    ensures var runs := RunsOf(ds);
            Separate(runs)
            && (Announced(runs) == SpelledAll(runs) <==> runs == [] || NoSentinel(runs[..|runs| - 1]))
  {
    hide RunsOf, Separate, SpelledAll, NoSentinel, AnnouncedEarly;
    RunsAreMaximal(ds);
    var runs := RunsOf(ds);
    if runs == [] {
      SpelledNone();
    } else {
      SeparateNoneEmpty(runs);
      AnnouncedRuns(runs[..|runs| - 1], runs[|runs| - 1]);
      assert runs == runs[..|runs| - 1] + [runs[|runs| - 1]];
    }
  }

  lemma SpelledNone()
    ensures SpelledAll([]) == []
  {
  }

  predicate NoneEmpty(runs: seq<seq<Delta>>) {
    forall k :: 0 <= k < |runs| ==> runs[k] != []
  }

  lemma SeparateNoneEmpty(runs: seq<seq<Delta>>)
    requires Separate(runs) && runs != []
    ensures NoneEmpty(runs[..|runs| - 1])
  {
    hide OneIndex;
  }

  lemma SpelledAppend(runs: seq<seq<Delta>>, run: seq<Delta>)
    ensures SpelledAll(runs + [run]) == SpelledAll(runs) + [Spelled(run)]
  {
    hide Spelled;
  }

  lemma AnnouncedRuns(init: seq<seq<Delta>>, run: seq<Delta>)
    requires NoneEmpty(init)
    ensures Announced(init + [run]) == SpelledAll(init + [run]) <==> NoSentinel(init)
  {
    hide Spelled, SpelledAll, NoSentinel, AnnouncedEarly;
    assert (init + [run])[..|init + [run]| - 1] == init;
    SpelledAppend(init, run);
    EarlyIsAll(init);
    var (early, all, last) := (AnnouncedEarly(init), SpelledAll(init), [Spelled(run)]);
    assert |early + last| == |early| + 1 && |all + last| == |init| + 1;
  }

  /** A call that is never announced: the middle one of three. */
  lemma SilencedCall(a: Delta, b: Delta, c: Delta)
    requires a.index != -1 && b.index == -1 && c.index != -1
    ensures var runs := RunsOf([a, b, c]);
            SpelledAll(runs) == [Spelled([a]), Spelled([b]), Spelled([c])] && Announced(runs) == [Spelled([a]), Spelled([c])]
  {
    ThreeRuns(a, b, c);
    hide Spelled, RunsOf;
    var (one, two, runs) := ([[a]], [[a], [b]], [[a], [b], [c]]);
    assert runs[..|runs| - 1] == two && two[..|two| - 1] == one && one[..|one| - 1] == [];
    assert AnnouncedEarly(one) == [] + [Spelled([a])] && AnnouncedEarly(two) == AnnouncedEarly(one) + [];
  }

  lemma ThreeRuns(a: Delta, b: Delta, c: Delta)
    requires a.index != b.index && b.index != c.index
    ensures RunsOf([a, b, c]) == [[a], [b], [c]]
  {
    NoRunsOf();
    hide RunsOf, Push, OneIndex;
    assert [] + [a] == [a] && [a] + [b] == [a, b] && [a, b] + [c] == [a, b, c];
    assert [] + [[a]] == [[a]] && [[a]] + [[b]] == [[a], [b]] && [[a], [b]] + [[c]] == [[a], [b], [c]];
    RunsGrow([], a);
    PushApart([], a);
    RunsGrow([a], b);
    Singles(a, b);
    PushApart([[a]], b);
    RunsGrow([a, b], c);
    Singles(b, c);
    PushApart([[a], [b]], c);
  }

  lemma NoRunsOf()
    ensures RunsOf([]) == []
  {
  }

  lemma Singles(a: Delta, b: Delta)
    requires a.index != b.index
    ensures Apart([a], [b])
  {
  }

  // ----- lines -----

  /** The payload of a data line; None for blank lines, comments and other fields. */
  function Payload(line: string): Option<string> {
    if line == "" || line[0] == ':' || !("data:" <= line) then None
    else
      var data := line[5..];
      Some(if data != "" && data[0] == ' ' then data[1..] else data)
  }

  predicate IsDone(line: string) { Payload(line) == Some("[DONE]") }

  /** The chunks of a stream up to its terminal marker, and whether that was seen; `decode`
      stands for the JSON decoder, and lines it rejects are skipped. */
  function Chunks(lines: seq<string>, decode: string -> Option<Chunk>): (seq<Chunk>, bool) {
    if lines == [] then ([], false)
    else if IsDone(lines[0]) then ([], true)
    else
      var (rest, done) := Chunks(lines[1..], decode);
      (ChunkOf(lines[0], decode) + rest, done)
  }

  function ChunkOf(line: string, decode: string -> Option<Chunk>): seq<Chunk> {
    match Payload(line)
    case None => []
    case Some(data) => if decode(data).Some? then [decode(data).value] else []
  }

  /** Nothing after the marker is read, and a line that is no chunk changes nothing
      wherever it stands. */
  lemma {:induction false} FramingIsRobust(before: seq<string>, line: string, later: seq<string>, decode: string -> Option<Chunk>)
    ensures IsDone(line) ==> Chunks(before + [line] + later, decode) == Chunks(before + [line], decode)
    ensures !IsDone(line) && ChunkOf(line, decode) == [] ==> Chunks(before + [line] + later, decode) == Chunks(before + later, decode)
  {
    hide Payload, ChunkOf;
    if before == [] {
      assert [line] + later == before + [line] + later && ([line] + later)[1..] == later && before + later == later;
      assert before + [line] == [line] && [line][1..] == [];
      assert [] + Chunks(later, decode).0 == Chunks(later, decode).0;
    } else {
      assert (before + [line] + later)[1..] == before[1..] + [line] + later;
      assert (before + later)[1..] == before[1..] + later && (before + [line])[1..] == before[1..] + [line];
      FramingIsRobust(before[1..], line, later, decode);
    }
  }

  function TextOf(chunks: seq<Chunk>): string {
    if chunks == [] then "" else TextOf(chunks[..|chunks| - 1]) + Last(chunks).content
  }

  function DeltasOf(chunks: seq<Chunk>): seq<Delta> {
    if chunks == [] then [] else DeltasOf(chunks[..|chunks| - 1]) + Last(chunks).deltas
  }

  datatype Outcome = Response(text: string, toolCalls: seq<ToolCall>) | UnexpectedEOF | EmptyCompletion | Panicked

  /** A first fragment with index -1 has no call to extend. */
  function Verdict(text: string, ds: seq<Delta>, gotDone: bool): Outcome {
    if ds != [] && ds[0].index == -1 then Panicked
    else if text == "" && ds == [] then if gotDone then EmptyCompletion else UnexpectedEOF
    else Response(text, SpelledAll(RunsOf(ds)))
  }

  /** What a stream means. */
  function Meaning(chunks: seq<Chunk>, gotDone: bool): Outcome {
    Verdict(TextOf(chunks), DeltasOf(chunks), gotDone)
  }

  // ----- a whole stream -----

  function Contents(chunks: seq<Chunk>): (r: seq<string>)
    ensures |r| == |chunks| && forall k :: 0 <= k < |r| ==> r[k] == chunks[k].content
  {
    seq(|chunks|, k requires 0 <= k < |chunks| => chunks[k].content)
  }

  function DeltaLists(chunks: seq<Chunk>): (r: seq<seq<Delta>>)
    ensures |r| == |chunks| && forall k :: 0 <= k < |r| ==> r[k] == chunks[k].deltas
  {
    seq(|chunks|, k requires 0 <= k < |chunks| => chunks[k].deltas)
  }

  lemma {:induction false} ChunksAreFlat(chunks: seq<Chunk>)
    ensures TextOf(chunks) == Flatten(Contents(chunks)) && DeltasOf(chunks) == Flatten(DeltaLists(chunks))
  {
    if chunks != [] {
      var init := chunks[..|chunks| - 1];
      ChunksAreFlat(init);
      assert Contents(chunks)[..|chunks| - 1] == Contents(init) && DeltaLists(chunks)[..|chunks| - 1] == DeltaLists(init);
    }
  }

  /** What a caller gets for chunks whose contents make up `text` and whose fragments make up
      `ds`: the text unchanged and a call per run, an error of its own for an empty stream with
      the marker and for one without, and a failure when the first fragment has index -1. */
  predicate Answers(text: string, ds: seq<Delta>, gotDone: bool, r: Outcome) {
    && (r.Panicked? <==> ds != [] && ds[0].index == -1)
    && (r.EmptyCompletion? <==> text == "" && ds == [] && gotDone)
    && (r.UnexpectedEOF? <==> text == "" && ds == [] && !gotDone)
    && (r.Response? ==> r.text == text && |r.toolCalls| == |RunsOf(ds)|
                        && forall k :: 0 <= k < |r.toolCalls| ==> r.toolCalls[k] == Spelled(RunsOf(ds)[k]))
  }

  lemma MeaningAnswers(chunks: seq<Chunk>, gotDone: bool)
    ensures Answers(Flatten(Contents(chunks)), Flatten(DeltaLists(chunks)), gotDone, Meaning(chunks, gotDone))
  {
    hide Spelled, RunsOf;
    ChunksAreFlat(chunks);
  }

  /** What the data prefix leaves: the rest of the line, less one space. */
  lemma PayloadExactly(rest: string)
    ensures (rest == "" || rest[0] != ' ') ==> Payload("data:" + rest) == Some(rest)
    ensures Payload("data: " + rest) == Some(rest)
    ensures Payload("") == None && Payload(":" + rest) == None
    ensures forall line :: Payload(line).Some? <==> "data:" <= line
  {
    assert ("data:" + rest)[5..] == rest;
    assert "data: " + rest == "data:" + (" " + rest) && ("data:" + (" " + rest))[5..] == " " + rest;
  }

  /** The lines that send chunks, `encode` standing for the service's JSON encoder. */
  function Sent(chunks: seq<Chunk>, encode: Chunk -> string): (lines: seq<string>)
    ensures |lines| == |chunks| && forall k :: 0 <= k < |lines| ==> lines[k] == "data: " + encode(chunks[k])
  {
    seq(|chunks|, k requires 0 <= k < |chunks| => "data: " + encode(chunks[k]))
  }

  ghost predicate Inverse(encode: Chunk -> string, decode: string -> Option<Chunk>) {
    forall c :: decode(encode(c)) == Some(c) && encode(c) != "[DONE]"
  }

  lemma ChunksFromFirst(lines: seq<string>, decode: string -> Option<Chunk>)
    requires lines != [] && !IsDone(lines[0])
    ensures Chunks(lines, decode) == (ChunkOf(lines[0], decode) + Chunks(lines[1..], decode).0, Chunks(lines[1..], decode).1)
  {
    hide ChunkOf, IsDone;
  }

  lemma SentLine(chunk: Chunk, encode: Chunk -> string, decode: string -> Option<Chunk>)
    requires Inverse(encode, decode)
    ensures !IsDone("data: " + encode(chunk)) && ChunkOf("data: " + encode(chunk), decode) == [chunk]
  {
    PayloadExactly(encode(chunk));
    hide Payload;
  }

  lemma {:induction false} SentIsRead(chunks: seq<Chunk>, later: seq<string>, encode: Chunk -> string, decode: string -> Option<Chunk>)
    requires Inverse(encode, decode)
    ensures Chunks(Sent(chunks, encode) + later, decode) == (chunks + Chunks(later, decode).0, Chunks(later, decode).1)
  {
    hide Chunks, ChunkOf, IsDone, Inverse;
    var lines := Sent(chunks, encode) + later;
    if chunks == [] {
      assert lines == later && [] + Chunks(later, decode).0 == Chunks(later, decode).0;
    } else {
      SentIsRead(chunks[1..], later, encode, decode);
      SentLine(chunks[0], encode, decode);
      assert lines[0] == "data: " + encode(chunks[0]) && lines[1..] == Sent(chunks[1..], encode) + later;
      hide Sent;
      ChunksFromFirst(lines, decode);
      assert [chunks[0]] + (chunks[1..] + Chunks(later, decode).0) == chunks + Chunks(later, decode).0;
    }
  }

  lemma DoneIsRead(later: seq<string>, decode: string -> Option<Chunk>)
    ensures Chunks(["data: [DONE]"] + later, decode) == ([], true)
  {
    PayloadExactly("[DONE]");
    hide Payload;
    assert "data: " + "[DONE]" == "data: [DONE]";
  }

  /** Any text and any list of calls come back from any stream that sends them: however the
      text is cut into chunks, the calls into fragments and the fragments into chunks, as long
      as neighbouring calls have different indices and the first has not -1. */
  lemma StreamComesBack(text: string, calls: seq<ToolCall>, pieces: seq<seq<Delta>>, chunks: seq<Chunk>,
                        later: seq<string>, encode: Chunk -> string, decode: string -> Option<Chunk>)
    requires Inverse(encode, decode)
    requires AllFragments(pieces, calls) && Separate(pieces) && (pieces != [] ==> pieces[0] != [] && pieces[0][0].index != -1)
    requires Flatten(Contents(chunks)) == text && Flatten(DeltaLists(chunks)) == Flatten(pieces)
    requires text != "" || calls != []
    ensures var (read, done) := Chunks(Sent(chunks, encode) + ["data: [DONE]"] + later, decode);
            done && Meaning(read, done) == Response(text, calls)
  {
    hide Payload, Chunks, Sent, Spelled, RunsOf, Fragments, Meaning, Separate, Inverse;
    SentIsRead(chunks, ["data: [DONE]"] + later, encode, decode);
    DoneIsRead(later, decode);
    assert Sent(chunks, encode) + ["data: [DONE]"] + later == Sent(chunks, encode) + (["data: [DONE]"] + later);
    assert chunks + [] == chunks;
    MeaningAnswers(chunks, true);
    AnyFragmentationReassembles(calls, pieces);
    RunsAreUnique(pieces);
    FirstOfFlat(pieces);
    var r := Meaning(chunks, true);
    assert r.Response? && r.toolCalls == calls;
  }

  lemma {:induction false} FirstOfFlat(pieces: seq<seq<Delta>>)
    requires Separate(pieces)
    ensures pieces == [] ==> Flatten(pieces) == []
    ensures pieces != [] ==> pieces[0] != [] && Flatten(pieces) != [] && Flatten(pieces)[0] == pieces[0][0]
  {
    hide OneIndex;
    if |pieces| > 1 {
      SeparateInit(pieces);
      FirstOfFlat(pieces[..|pieces| - 1]);
    } else if |pieces| == 1 {
      assert pieces[..0] == [];
    }
  }

  predicate Extends(runs: seq<seq<Delta>>, d: Delta) {
    runs != [] && Last(runs) != [] && Last(runs)[0].index == d.index
  }

  lemma PushSpells(runs: seq<seq<Delta>>, d: Delta)
    ensures SpelledAll(Push(runs, d)) ==
            if Extends(runs, d) then SpelledAll(runs)[|runs| - 1 := Absorb(Spelled(Last(runs)), d)]
            else SpelledAll(runs) + [Absorb(NO_CALL, d)]
  {
    hide Absorb;
    assert [d][..0] == [] && Spelled([]) == NO_CALL;
    if Extends(runs, d) {
      assert (Last(runs) + [d])[..|Last(runs)|] == Last(runs);
    }
  }

  /** The loop's variables, against the runs read so far. */
  ghost predicate Tracks(runs: seq<seq<Delta>>, toolCalls: seq<ToolCall>, pendingIdx: int, announced: seq<ToolCall>) {
    && toolCalls == SpelledAll(runs)
    && (runs == [] ==> pendingIdx == -1 && announced == [])
    && (runs != [] ==> Last(runs) != [] && pendingIdx == Last(runs)[0].index
                       && announced == AnnouncedEarly(runs[..|runs| - 1]))
  }

  /** ... and against the fragments, none of which was refused. */
  ghost predicate Assembled(ds: seq<Delta>, toolCalls: seq<ToolCall>, pendingIdx: int, announced: seq<ToolCall>) {
    Tracks(RunsOf(ds), toolCalls, pendingIdx, announced) && (ds != [] ==> ds[0].index != -1)
  }

  lemma EarlyGrows(runs: seq<seq<Delta>>)
    requires runs != [] && Last(runs) != []
    ensures AnnouncedEarly(runs) ==
            AnnouncedEarly(runs[..|runs| - 1]) + (if Last(runs)[0].index != -1 then [Spelled(Last(runs))] else [])
  {
    hide Spelled;
  }

  lemma TracksExtended(runs: seq<seq<Delta>>, d: Delta, calls: seq<ToolCall>, pending: int, said: seq<ToolCall>)
    requires Tracks(runs, calls, pending, said) && Extends(runs, d)
    ensures calls != [] && Tracks(Push(runs, d), calls[|calls| - 1 := Absorb(Last(calls), d)], pending, said)
  {
    hide Spelled, Absorb, AnnouncedEarly;
    PushSpells(runs, d);
    var grown := Push(runs, d);
    assert grown[..|grown| - 1] == runs[..|runs| - 1];
  }

  lemma TracksOpened(runs: seq<seq<Delta>>, d: Delta, calls: seq<ToolCall>, pending: int, said: seq<ToolCall>)
    requires Tracks(runs, calls, pending, said) && !Extends(runs, d)
    ensures Tracks(Push(runs, d), calls + [Absorb(NO_CALL, d)], d.index,
                   if pending != -1 && calls != [] then said + [Last(calls)] else said)
  {
    hide Spelled, Absorb, AnnouncedEarly;
    PushSpells(runs, d);
    var grown := Push(runs, d);
    assert grown == runs + [[d]] && grown[..|grown| - 1] == runs;
    if runs == [] {
      NothingEarly();
    } else {
      EarlyGrows(runs);
      assert said + [] == said;
    }
  }

  lemma NothingEarly()
    ensures AnnouncedEarly([]) == []
  {
  }

  lemma TracksShape(ds: seq<Delta>, d: Delta, calls: seq<ToolCall>, pending: int, said: seq<ToolCall>)
    requires Assembled(ds, calls, pending, said)
    ensures ds == [] <==> calls == []
    ensures calls == [] ==> pending == -1
    ensures calls != [] && d.index == pending <==> Extends(RunsOf(ds), d)
  {
    RunsAreMaximal(ds);
    hide RunsOf, Spelled, AnnouncedEarly, Separate;
  }

  lemma AssembledNext(ds: seq<Delta>, d: Delta, calls: seq<ToolCall>, pending: int, said: seq<ToolCall>)
    requires Assembled(ds, calls, pending, said) && (ds != [] || d.index != -1)
    ensures ds == [] <==> calls == []
    ensures calls == [] ==> pending == -1
    ensures if calls != [] && d.index == pending
            then Assembled(ds + [d], calls[|calls| - 1 := Absorb(Last(calls), d)], pending, said)
            else Assembled(ds + [d], calls + [Absorb(NO_CALL, d)], d.index,
                           if pending != -1 && calls != [] then said + [Last(calls)] else said)
  {
    hide RunsOf, Tracks, Absorb, Extends, Push;
    TracksShape(ds, d, calls, pending, said);
    RunsGrow(ds, d);
    if Extends(RunsOf(ds), d) {
      TracksExtended(RunsOf(ds), d, calls, pending, said);
    } else {
      TracksOpened(RunsOf(ds), d, calls, pending, said);
    }
  }

  /** One fragment: false stands for the index panic. */
  method Feed(ghost ds: seq<Delta>, d: Delta, toolCalls: seq<ToolCall>, pendingIdx: int, announced: seq<ToolCall>)
    returns (ok: bool, calls: seq<ToolCall>, pending: int, said: seq<ToolCall>)
    requires Assembled(ds, toolCalls, pendingIdx, announced)
    ensures !ok <==> ds == [] && d.index == -1
    ensures ok ==> Assembled(ds + [d], calls, pending, said)
  {
    hide Assembled, Absorb, RunsOf, Extends;
    TracksShape(ds, d, toolCalls, pendingIdx, announced);
    if ds != [] || d.index != -1 {
      AssembledNext(ds, d, toolCalls, pendingIdx, announced);
    }
    ok, calls, pending, said := true, toolCalls, pendingIdx, announced;
    if d.index != pending {
      if pending != -1 && |calls| > 0 {
        said := said + [calls[|calls| - 1]];
      }
      pending := d.index;
      calls := calls + [NO_CALL];
    }
    if |calls| == 0 {
      return false, calls, pending, said;
    }
    var n := |calls| - 1;
    calls := calls[n := Absorb(calls[n], d)];
    assert d.index != pendingIdx ==> calls == toolCalls + [Absorb(NO_CALL, d)];
  }

  lemma ChunkAppended(chunks: seq<Chunk>, chunk: Chunk)
    ensures DeltasOf(chunks + [chunk]) == DeltasOf(chunks) + chunk.deltas
    ensures TextOf(chunks + [chunk]) == TextOf(chunks) + chunk.content
  {
    assert (chunks + [chunk])[..|chunks|] == chunks;
  }

  lemma {:induction false} DeltasConcat(a: seq<Chunk>, b: seq<Chunk>)
    ensures DeltasOf(a + b) == DeltasOf(a) + DeltasOf(b)
  {
    if b == [] {
      assert a + b == a;
    } else {
      var init, c := b[..|b| - 1], b[|b| - 1];
      assert a + b == (a + init) + [c] && b == init + [c];
      hide DeltasOf;
      ChunkAppended(a + init, c);
      ChunkAppended(init, c);
      DeltasConcat(a, init);
    }
  }

  lemma AssembledStart()
    ensures Assembled([], [], -1, [])
  {
  }

  method FeedAll(ghost ds: seq<Delta>, more: seq<Delta>, toolCalls: seq<ToolCall>, pendingIdx: int, announced: seq<ToolCall>)
    returns (ok: bool, calls: seq<ToolCall>, pending: int, said: seq<ToolCall>)
    requires Assembled(ds, toolCalls, pendingIdx, announced)
    ensures !ok <==> ds == [] && more != [] && more[0].index == -1
    ensures ok ==> Assembled(ds + more, calls, pending, said)
  {
    hide Assembled;
    ok, calls, pending, said := true, toolCalls, pendingIdx, announced;
    assert ds + more[..0] == ds;
    for k := 0 to |more|
      invariant Assembled(ds + more[..k], calls, pending, said)
      invariant ok && (k > 0 ==> ds != [] || more[0].index != -1)
    {
      assert ds + more[..k + 1] == ds + more[..k] + [more[k]];
      ok, calls, pending, said := Feed(ds + more[..k], more[k], calls, pending, said);
      if !ok {
        assert k == 0;
        return;
      }
    }
    assert more[..|more|] == more;
  }

  lemma PanicIsMeant(chunks: seq<Chunk>, chunk: Chunk, rest: seq<Chunk>, done: bool)
    requires DeltasOf(chunks) == [] && chunk.deltas != [] && chunk.deltas[0].index == -1
    ensures Meaning(chunks + ([chunk] + rest), done) == Panicked
  {
    DeltasConcat(chunks, [chunk] + rest);
    DeltasConcat([chunk], rest);
    DeltasConcat([], [chunk]);
    assert [chunk][..0] == [] && DeltasOf([chunk]) == chunk.deltas;
  }

  /** How the next line moves the reading position. */
  lemma NextLine(chunks: seq<Chunk>, lines: seq<string>, k: nat, decode: string -> Option<Chunk>)
    requires k < |lines| && !IsDone(lines[k])
    ensures var (rest, done) := Chunks(lines[k..], decode);
            chunks + rest == chunks + ChunkOf(lines[k], decode) + Chunks(lines[k + 1..], decode).0
            && done == Chunks(lines[k + 1..], decode).1
  {
    hide ChunkOf, IsDone;
    assert lines[k..][1..] == lines[k + 1..];
  }

  /** parseStream: the response, and the calls announced on the way. */
  method ParseStream(lines: seq<string>, decode: string -> Option<Chunk>) returns (r: Outcome, announced: seq<ToolCall>)
    ensures var (chunks, gotDone) := Chunks(lines, decode);
            r == Meaning(chunks, gotDone)
            && Answers(Flatten(Contents(chunks)), Flatten(DeltaLists(chunks)), gotDone, r)
            && (r.Response? ==> announced == Announced(RunsOf(DeltasOf(chunks))))
  {
    hide RunsOf, SpelledAll, Assembled, Chunks, Payload, Answers, Flatten, Contents, DeltaLists;
    var text, toolCalls, pendingIdx, gotDone := "", [], -1, false;
    announced := [];
    ghost var chunks: seq<Chunk> := [];
    AssembledStart();
    assert lines[0..] == lines;
    assert [] + Chunks(lines, decode).0 == Chunks(lines, decode).0;
    var k := 0;
    while k < |lines| && !gotDone
      invariant 0 <= k <= |lines|
      invariant text == TextOf(chunks) && Assembled(DeltasOf(chunks), toolCalls, pendingIdx, announced)
      invariant Chunks(lines, decode) ==
                if gotDone then (chunks, true) else (chunks + Chunks(lines[k..], decode).0, Chunks(lines[k..], decode).1)
      decreases |lines| - k, !gotDone
    {
      if IsDone(lines[k]) {
        DoneLine(lines, k, decode);
        assert chunks + [] == chunks;
        gotDone := true;
      } else {
        NextLine(chunks, lines, k, decode);
        var data := Payload(lines[k]);
        if data.None? || decode(data.value).None? {
          assert chunks + ChunkOf(lines[k], decode) == chunks;
        } else {
          var chunk := decode(data.value).value;
          assert ChunkOf(lines[k], decode) == [chunk];
          text := text + chunk.content;
          var ok;
          ok, toolCalls, pendingIdx, announced := FeedAll(DeltasOf(chunks), chunk.deltas, toolCalls, pendingIdx, announced);
          if !ok {
            PanicIsMeant(chunks, chunk, Chunks(lines[k + 1..], decode).0, Chunks(lines[k + 1..], decode).1);
            assert chunks + [chunk] + Chunks(lines[k + 1..], decode).0 == chunks + ([chunk] + Chunks(lines[k + 1..], decode).0);
            MeaningAnswers(Chunks(lines, decode).0, Chunks(lines, decode).1);
            return Panicked, [];
          }
          ChunkAppended(chunks, chunk);
          chunks := chunks + [chunk];
        }
        k := k + 1;
      }
    }
    if !gotDone {
      NoLines(decode);
      assert lines[k..] == [] && chunks + [] == chunks;
    }
    r, announced := Conclude(DeltasOf(chunks), text, gotDone, toolCalls, pendingIdx, announced);
    MeaningAnswers(chunks, gotDone);
  }

  lemma DoneLine(lines: seq<string>, k: nat, decode: string -> Option<Chunk>)
    requires k < |lines| && IsDone(lines[k])
    ensures Chunks(lines[k..], decode) == ([], true)
  {
  }

  lemma NoLines(decode: string -> Option<Chunk>)
    ensures Chunks([], decode) == ([], false)
  {
  }

  method Conclude(ghost ds: seq<Delta>, text: string, gotDone: bool,
                  toolCalls: seq<ToolCall>, pendingIdx: int, announced: seq<ToolCall>) returns (r: Outcome, said: seq<ToolCall>)
    requires Assembled(ds, toolCalls, pendingIdx, announced)
    ensures r == Verdict(text, ds, gotDone)
    ensures r.Response? ==> said == Announced(RunsOf(ds))
  {
    said := announced;
    RunsAreMaximal(ds);
    hide RunsOf, Spelled, AnnouncedEarly;
    assert RunsOf(ds) == [] <==> ds == [];
    if !gotDone && text == "" && |toolCalls| == 0 {
      return UnexpectedEOF, said;
    }
    if text == "" && |toolCalls| == 0 {
      return EmptyCompletion, said;
    }
    if |toolCalls| > 0 {
      said := said + [toolCalls[|toolCalls| - 1]];
    }
    r := Response(text, toolCalls);
  }
}
