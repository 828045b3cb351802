/** The shared conversation history of an agent: a successful turn (agentic_loop.go), result
    and rejection injections (main.go), compaction (compaction.go) and the stored messages
    (agent_state.go). */
module Conversation {
  import opened Text

  datatype ToolCall = ToolCall(id: string, name: string, arguments: string)

  datatype Message =
    | User(content: string)
    | Assistant(content: string, toolCalls: seq<ToolCall>)
    | ToolResult(content: string, toolCallId: string)

  const PENDING: string := "result=pending"

  // ----- pairing -----

  function Placeholder(tc: ToolCall): Message {
    ToolResult(PENDING, tc.id)
  }

  function Placeholders(calls: seq<ToolCall>): (r: seq<Message>)
    ensures |r| == |calls| && forall k :: 0 <= k < |r| ==> r[k] == Placeholder(calls[k])
  {
    seq(|calls|, k requires 0 <= k < |calls| => Placeholder(calls[k]))
  }

  /** Read from the front: a user message, or an assistant message with its placeholders. */
  predicate Paired(h: seq<Message>)
    decreases |h|
  {
    if h == [] then true
    else
      match h[0]
      case User(_) => Paired(h[1..])
      case ToolResult(_, _) => false
      case Assistant(_, calls) =>
        |calls| < |h| && h[1..|calls| + 1] == Placeholders(calls) && Paired(h[|calls| + 1..])
  }

  /** Whether message `j` answers the assistant message `i`. */
  predicate Answers(h: seq<Message>, i: int, j: int) {
    0 <= i < j < |h| && h[i].Assistant? && j <= i + |h[i].toolCalls|
  }

  /** The assistant message at `i` is directly followed by its placeholders. */
  predicate Followed(h: seq<Message>, i: nat)
    requires i < |h| && h[i].Assistant?
  {
    var n := |h[i].toolCalls|;
    i + n < |h| && h[i + 1..i + 1 + n] == Placeholders(h[i].toolCalls)
  }

  /** The protocol rule as the model service states it: every assistant message is directly
      followed by exactly the placeholders of its calls, and no tool message stands
      anywhere else. */
  ghost predicate Protocol(h: seq<Message>) {
    && (forall i :: 0 <= i < |h| && h[i].Assistant? ==> Followed(h, i))
    && (forall j :: 0 <= j < |h| && h[j].ToolResult? ==> exists i :: Answers(h, i, j))
  }

  lemma ProtocolDrop(h: seq<Message>, n: nat)
    requires Protocol(h) && 0 < n <= |h|
    requires forall i, j :: 0 <= i < n <= j < |h| ==> !Answers(h, i, j)
    ensures Protocol(h[n..])
  {
    var t := h[n..];
    forall i | 0 <= i < |t| && t[i].Assistant? ensures Followed(t, i) {
      assert Followed(h, n + i);
      var c := |t[i].toolCalls|;
      assert t[i + 1..i + 1 + c] == h[n + i + 1..n + i + 1 + c];
    }
    forall j | 0 <= j < |t| && t[j].ToolResult? ensures exists i :: Answers(t, i, j) {
      var i :| Answers(h, i, n + j);
      assert Answers(t, i - n, j);
    }
  }

  lemma FollowedAdd(front: seq<Message>, h: seq<Message>, t: seq<Message>, i: nat)
    requires i < |h| && h[i].Assistant? && Followed(h, i)
    ensures Followed(front + h + t, |front| + i)
  {
    hide Placeholders;
    var (n, c) := (|front|, |h[i].toolCalls|);
    assert (front + h + t)[n + i + 1..n + i + 1 + c] == h[i + 1..i + 1 + c];
  }

  lemma AnswersAdd(front: seq<Message>, h: seq<Message>, t: seq<Message>, i: int, j: int)
    requires Answers(h, i, j)
    ensures Answers(front + h + t, |front| + i, |front| + j)
  {
  }

  lemma ProtocolAdd(front: seq<Message>, t: seq<Message>)
    requires Protocol(front) && Protocol(t)
    ensures Protocol(front + t)
  {
    hide Followed, Answers;
    var h, n := front + t, |front|;
    assert [] + front + t == h && front + t + [] == h;
    forall i | 0 <= i < |h| && h[i].Assistant? ensures Followed(h, i) {
      if i < n {
        FollowedAdd([], front, t, i);
      } else {
        FollowedAdd(front, t, [], i - n);
      }
    }
    forall j | 0 <= j < |h| && h[j].ToolResult? ensures exists i :: Answers(h, i, j) {
      if j < n {
        var i :| Answers(front, i, j);
        AnswersAdd([], front, t, i, j);
      } else {
        var i :| Answers(t, i, j - n);
        AnswersAdd(front, t, [], i, j - n);
      }
    }
  }

  lemma ProtocolOfTurn(a: Message)
    requires a.Assistant?
    ensures Protocol([a] + Placeholders(a.toolCalls))
  {
    var h := [a] + Placeholders(a.toolCalls);
    assert h[1..1 + |a.toolCalls|] == Placeholders(a.toolCalls);
    forall j | 0 <= j < |h| && h[j].ToolResult? ensures exists i :: Answers(h, i, j) {
      assert Answers(h, 0, j);
    }
  }

  lemma ProtocolAfterUser(h: seq<Message>)
    requires h != [] && h[0].User?
    ensures Protocol(h) <==> Protocol(h[1..])
  {
    if Protocol(h) {
      ProtocolDrop(h, 1);
    }
    if Protocol(h[1..]) {
      assert Protocol([h[0]]);
      ProtocolAdd([h[0]], h[1..]);
      assert h == [h[0]] + h[1..];
    }
  }

  lemma NothingAnswersAcross(h: seq<Message>)
    requires h != [] && h[0].Assistant? && Followed(h, 0)
    ensures var n := |h[0].toolCalls| + 1;
            forall i, j :: 0 <= i < n <= j < |h| ==> !Answers(h, i, j)
  {
    var n := |h[0].toolCalls| + 1;
    forall i | 0 < i < n ensures h[i].ToolResult? {
      assert h[1..n][i - 1] == h[i];
    }
  }

  lemma ProtocolAfterAssistant(h: seq<Message>)
    requires h != [] && h[0].Assistant?
    ensures Protocol(h) <==> Followed(h, 0) && Protocol(h[|h[0].toolCalls| + 1..])
  {
    hide Placeholders, Answers;
    var n := |h[0].toolCalls| + 1;
    if Protocol(h) {
      assert Followed(h, 0);
      NothingAnswersAcross(h);
      ProtocolDrop(h, n);
    }
    if Followed(h, 0) && Protocol(h[n..]) {
      hide Protocol;
      ProtocolOfTurn(h[0]);
      ProtocolAdd([h[0]] + Placeholders(h[0].toolCalls), h[n..]);
      assert h == [h[0]] + h[1..n] + h[n..];
    }
  }

  lemma NoProtocolAtTool(h: seq<Message>)
    requires h != [] && h[0].ToolResult?
    ensures !Protocol(h)
  {
    assert forall i :: !Answers(h, i, 0);
  }

  /** Reading the history from the front decides exactly the protocol rule. */
  lemma {:induction false} PairedIsProtocol(h: seq<Message>)
    ensures Paired(h) <==> Protocol(h)
    decreases |h|
  {
    hide Protocol, Placeholders;
    if h == [] {
      EmptyProtocol();
    } else {
      match h[0]
      case User(_) => {
        PairedIsProtocol(h[1..]);
        ProtocolAfterUser(h);
      }
      case ToolResult(_, _) => NoProtocolAtTool(h);
      case Assistant(_, calls) => {
        ProtocolAfterAssistant(h);
        if |calls| < |h| {
          PairedIsProtocol(h[|calls| + 1..]);
        }
      }
    }
  }

  lemma EmptyProtocol()
    ensures Protocol([])
  {
  }

  // ----- what happens to a paired history -----

  lemma {:induction false} PairedConcat(a: seq<Message>, b: seq<Message>)
    requires Paired(a)
    ensures Paired(a + b) <==> Paired(b)
    decreases |a|
  {
    if a == [] {
      assert a + b == b;
    } else {
      var n := if a[0].Assistant? then |a[0].toolCalls| + 1 else 1;
      PairedConcat(a[n..], b);
      assert (a + b)[n..] == a[n..] + b;
      assert (a + b)[1..n] == a[1..n];
    }
  }

  function Block(h: seq<Message>): nat
    requires h != []
  {
    if h[0].Assistant? then |h[0].toolCalls| + 1 else 1
  }

  lemma WholeBlock(a: Message)
    requires a.Assistant?
    ensures Paired([a] + Placeholders(a.toolCalls))
  {
    hide Placeholders;
    var h, n := [a] + Placeholders(a.toolCalls), |a.toolCalls|;
    assert h[1..n + 1] == Placeholders(a.toolCalls) && h[n + 1..] == [];
  }

  lemma FirstBlock(h: seq<Message>)
    requires Paired(h) && h != []
    ensures Block(h) <= |h| && Paired(h[..Block(h)]) && Paired(h[Block(h)..])
    ensures forall k :: 0 < k < Block(h) ==> h[k].ToolResult?
  {
    hide Placeholders;
    var n := Block(h);
    if h[0].Assistant? {
      WholeBlock(h[0]);
      hide Paired;
      assert h[..n] == [h[0]] + h[1..n];
      forall k | 0 < k < n ensures h[k].ToolResult? {
        assert h[k] == h[1..n][k - 1];
      }
    } else {
      assert h[..1][1..] == [];
    }
  }

  lemma Resplit<T>(h: seq<T>, n: nat, i: nat)
    requires n <= i <= |h|
    ensures h[..i] == h[..n] + h[n..][..i - n] && h[i..] == h[n..][i - n..]
  {
  }

  /** A paired history that is cut in front of an assistant message is paired on both sides. */
  lemma {:induction false} CutAtAssistant(h: seq<Message>, i: nat)
    requires Paired(h) && i < |h| && h[i].Assistant?
    ensures Paired(h[..i]) && Paired(h[i..])
    decreases |h|
  {
    if i == 0 {
      assert h[..0] == [] && h[0..] == h;
    } else {
      BlockIsPositive(h);
      hide Paired, Block;
      var n := Block(h);
      FirstBlock(h);
      assert n <= i;
      Resplit(h, n, i);
      CutAtAssistant(h[n..], i - n);
      PairedConcat(h[..n], h[n..][..i - n]);
    }
  }

  lemma BlockIsPositive(h: seq<Message>)
    requires h != []
    ensures Block(h) > 0
  {
  }

  // ----- splitTailRounds -----

  function Rounds(h: seq<Message>): nat {
    if h == [] then 0 else (if h[0].Assistant? then 1 else 0) + Rounds(h[1..])
  }

  /** A round is an assistant message, whatever it says. */
  lemma RoundsOfOne(m: Message)
    ensures Rounds([m]) == if m.Assistant? then 1 else 0
    ensures Rounds([]) == 0
  {
    assert [m][1..] == [];
  }

  lemma {:induction false} RoundsConcat(a: seq<Message>, b: seq<Message>)
    ensures Rounds(a + b) == Rounds(a) + Rounds(b)
  {
    if a == [] {
      assert a + b == b;
    } else {
      assert (a + b)[1..] == a[1..] + b;
      RoundsConcat(a[1..], b);
    }
  }

  /** splitTailRounds: everything stays when there are fewer rounds than asked for;
      otherwise the tail begins at an assistant message and holds exactly `rounds` of them. */
  method SplitTailRounds(history: seq<Message>, rounds: int) returns (evict: seq<Message>, tail: seq<Message>)
    ensures evict + tail == history
    ensures rounds <= 0 || |history| <= 1 || Rounds(history) < rounds ==> evict == []
    ensures rounds > 0 && |history| > 1 && Rounds(history) >= rounds ==>
              tail != [] && tail[0].Assistant? && Rounds(tail) == rounds
  {
    if rounds <= 0 || |history| <= 1 {
      return [], history;
    }
    var count := 0;
    var i := |history|;
    while i > 0
      invariant 0 <= i <= |history|
      invariant count == Rounds(history[i..]) && count < rounds
    {
      i := i - 1;
      assert history[i..][1..] == history[i + 1..];
      if !history[i].Assistant? {
        continue;
      }
      count := count + 1;
      if count == rounds {
        RoundsConcat(history[..i], history[i..]);
        assert history == history[..i] + history[i..];
        return history[..i], history[i..];
      }
    }
    assert history[0..] == history;
    return [], history;
  }

  /** What compaction keeps: the last four rounds, or everything when there are fewer. */
  function TailOf(h: seq<Message>): seq<Message> {
    if Rounds(h) < TAIL_ROUNDS || |h| <= 1 then h else LastRounds(h, TAIL_ROUNDS)
  }

  /** From the assistant message on that has `n - 1` behind it. */
  function LastRounds(h: seq<Message>, n: nat): (r: seq<Message>)
    requires 0 < n <= Rounds(h)
    ensures r != [] && r[0].Assistant? && Rounds(r) == n
  {
    if h[0].Assistant? && Rounds(h) == n then h else LastRounds(h[1..], n)
  }

  /** Four rounds stay, from the first of their assistant messages to the end. */
  lemma FourRoundsStay(h: seq<Message>)
    requires |h| > 1 && Rounds(h) >= 4
    ensures Rounds(TailOf(h)) == 4 && TailOf(h) != [] && TailOf(h)[0].Assistant?
    ensures |TailOf(h)| <= |h| && TailOf(h) == h[|h| - |TailOf(h)|..]
  {
    LastRoundsAtEnd(h, 4);
    hide Rounds;
  }

  lemma {:induction false} LastRoundsAtEnd(h: seq<Message>, n: nat)
    requires 0 < n <= Rounds(h)
    ensures |LastRounds(h, n)| <= |h| && LastRounds(h, n) == h[|h| - |LastRounds(h, n)|..]
  {
    if !(h[0].Assistant? && Rounds(h) == n) {
      LastRoundsAtEnd(h[1..], n);
    }
  }

  lemma {:induction false} LastRoundsIs(front: seq<Message>, tail: seq<Message>)
    requires tail != [] && tail[0].Assistant?
    ensures Rounds(front + tail) >= Rounds(tail) > 0
    ensures LastRounds(front + tail, Rounds(tail)) == tail
  {
    RoundsConcat(front, tail);
    if front == [] {
      assert front + tail == tail;
    } else {
      assert (front + tail)[1..] == front[1..] + tail;
      RoundsConcat(front[1..], tail);
      LastRoundsIs(front[1..], tail);
    }
  }

  lemma TailIs(h: seq<Message>, evict: seq<Message>, tail: seq<Message>)
    requires evict + tail == h
    requires |h| <= 1 || Rounds(h) < TAIL_ROUNDS ==> evict == []
    requires |h| > 1 && Rounds(h) >= TAIL_ROUNDS ==> tail != [] && tail[0].Assistant? && Rounds(tail) == TAIL_ROUNDS
    ensures TailOf(h) == tail && (TailOf(h) == h <==> evict == [])
  {
    hide Rounds, LastRounds;
    if |h| > 1 && Rounds(h) >= TAIL_ROUNDS {
      LastRoundsIs(evict, tail);
    }
    assert |h| == |evict| + |tail|;
    assert evict == [] ==> h == tail;
  }

  // ----- sanitizeToolCallsForHistory -----

  /** Entries the model service would accept later; `isJson` stands for json.Valid. */
  predicate Clean(tc: ToolCall, isJson: string -> bool) {
    tc.name != "" && tc.id != "" && isJson(tc.arguments)
  }

  function Sanitized(tcs: seq<ToolCall>, isJson: string -> bool): (r: seq<ToolCall>)
    ensures forall k :: 0 <= k < |r| ==> Clean(r[k], isJson)
  {
    if tcs == [] then []
    else Sanitized(tcs[..|tcs| - 1], isJson) + (if Clean(Last(tcs), isJson) then [Last(tcs)] else [])
  }

  method SanitizeToolCallsForHistory(tcs: seq<ToolCall>, isJson: string -> bool) returns (clean: seq<ToolCall>)
    ensures clean == Sanitized(tcs, isJson)
  {
    clean := [];
    for k := 0 to |tcs|
      invariant clean == Sanitized(tcs[..k], isJson)
    {
      assert tcs[..k + 1][..k] == tcs[..k];
      if !Clean(tcs[k], isJson) {
        continue;
      }
      clean := clean + [tcs[k]];
    }
    assert tcs[..|tcs|] == tcs;
  }

  lemma {:induction false} SanitizedConcat(a: seq<ToolCall>, b: seq<ToolCall>, isJson: string -> bool)
    ensures Sanitized(a + b, isJson) == Sanitized(a, isJson) + Sanitized(b, isJson)
  {
    if b == [] {
      assert a + b == a;
    } else {
      SanitizedConcat(a, b[..|b| - 1], isJson);
      assert (a + b)[..|a + b| - 1] == a + b[..|b| - 1];
    }
  }

  lemma CleanExactly(tc: ToolCall, isJson: string -> bool)
    ensures Clean(tc, isJson) <==> tc.name != "" && tc.id != "" && isJson(tc.arguments)
  {
  }

  /** Wherever a call stands among the others, it is kept in its place exactly when it has a
      name, an id and valid arguments. */
  lemma CleanAreKept(a: seq<ToolCall>, tc: ToolCall, b: seq<ToolCall>, isJson: string -> bool)
    ensures Sanitized(a + [tc] + b, isJson)
         == Sanitized(a, isJson)
            + (if tc.name != "" && tc.id != "" && isJson(tc.arguments) then [tc] else [])
            + Sanitized(b, isJson)
    ensures Sanitized([], isJson) == []
  {
    CleanExactly(tc, isJson);
    hide Clean;
    SanitizedConcat(a + [tc], b, isJson);
    SanitizedConcat(a, [tc], isJson);
    assert [tc][..0] == [] && Sanitized([tc], isJson) == [] + (if Clean(tc, isJson) then [tc] else []);
  }

  predicate AllClean(h: seq<Message>, isJson: string -> bool) {
    forall i, k :: 0 <= i < |h| && h[i].Assistant? && 0 <= k < |h[i].toolCalls| ==> Clean(h[i].toolCalls[k], isJson)
  }

  // ----- the stored conversation -----

  const TAIL_ROUNDS: nat := 4

  function Turn(userContent: string, text: string, calls: seq<ToolCall>): seq<Message> {
    [User(userContent), Assistant(text, calls)] + Placeholders(calls)
  }

  lemma TurnIs(userContent: string, text: string, calls: seq<ToolCall>)
    ensures var t := Turn(userContent, text, calls);
            |t| == 2 + |calls| && t[0] == User(userContent) && t[1] == Assistant(text, calls)
            && forall k :: 2 <= k < |t| ==> t[k] == ToolResult(PENDING, calls[k - 2].id)
  {
  }

  lemma TurnKeeps(h: seq<Message>, userContent: string, text: string, calls: seq<ToolCall>, isJson: string -> bool)
    requires Paired(h) && AllClean(h, isJson) && forall k :: 0 <= k < |calls| ==> Clean(calls[k], isJson)
    ensures Paired(h + Turn(userContent, text, calls)) && AllClean(h + Turn(userContent, text, calls), isJson)
  {
    var t := Turn(userContent, text, calls);
    WholeTurn(userContent, text, calls);
    PairedConcat(h, t);
    hide Paired;
    forall i, k | 0 <= i < |h + t| && (h + t)[i].Assistant? && 0 <= k < |(h + t)[i].toolCalls|
      ensures Clean((h + t)[i].toolCalls[k], isJson)
    {
      if i >= |h| {
        assert (h + t)[i] == t[i - |h|];
      }
    }
  }

  /** An injection that lands among the messages of a turn keeps the pairing exactly when it
      does not fall between the assistant message and the last of its placeholders. */
  lemma InjectionInsideTurn(h: seq<Message>, userContent: string, text: string, calls: seq<ToolCall>, note: string, at: nat)
    requires Paired(h) && at <= 2 + |calls|
    ensures var t := Turn(userContent, text, calls);
            Paired(h + t[..at] + [User(note)] + t[at..]) <==> at <= 1 || at == 2 + |calls|
  {
    var t := Turn(userContent, text, calls);
    var mixed := t[..at] + [User(note)] + t[at..];
    assert h + t[..at] + [User(note)] + t[at..] == h + mixed;
    PairedConcat(h, mixed);
    InjectionAlone(userContent, text, calls, note, at);
  }

  /** A turn whose pairing is broken by an injection. */
  lemma BrokenTurn(call: ToolCall, note: string)
    ensures var t := Turn("", "", [call]);
            Paired(t) && !Paired(t[..2] + [User(note)] + t[2..])
  {
    var t := Turn("", "", [call]);
    WholeTurn("", "", [call]);
    InjectionAlone("", "", [call], note, 2);
  }

  lemma InjectionAlone(userContent: string, text: string, calls: seq<ToolCall>, note: string, at: nat)
    requires at <= 2 + |calls|
    ensures var t := Turn(userContent, text, calls);
            Paired(t[..at] + [User(note)] + t[at..]) <==> at <= 1 || at == 2 + |calls|
  {
    var t, n := Turn(userContent, text, calls), |calls|;
    var mixed := t[..at] + [User(note)] + t[at..];
    WholeTurn(userContent, text, calls);
    if at == 0 {
      assert mixed[1..] == t;
    } else if at == 1 {
      assert mixed[1..][1..] == t[1..];
    } else if at == 2 + n {
      assert mixed == t + [User(note)];
      PairedConcat(t, [User(note)]);
    } else {
      var u := mixed[1..];
      assert mixed[0] == t[0] && mixed[at] == User(note);
      assert u[0] == Assistant(text, calls) && u[at - 1] == User(note);
      assert u[1..n + 1][at - 2] == u[at - 1] && Placeholders(calls)[at - 2].ToolResult?;
      assert !Paired(u);
    }
  }

  lemma WholeTurn(userContent: string, text: string, calls: seq<ToolCall>)
    ensures var t := Turn(userContent, text, calls); Paired(t) && Paired(t[1..])
  {
    var t := Turn(userContent, text, calls);
    assert t[1..][1..|calls| + 1] == Placeholders(calls) && t[1..][|calls| + 1..] == [];
  }

  class Conversation {
    var messages: seq<Message>
    var summary: string
    var tacticalHeaderPlan: string
    const isJson: string -> bool

    /** What every operation keeps. */
    ghost predicate Valid()
      reads this
    {
      Protocol(messages) && AllClean(messages, isJson)
    }

    constructor (isJson: string -> bool)
      ensures Valid() && messages == [] && this.isJson == isJson
    {
      messages, summary, tacticalHeaderPlan := [], "", "";
      this.isJson := isJson;
    }

    method AppendConversationMessage(m: Message)
      modifies this`messages
      ensures messages == old(messages) + [m]
    {
      messages := messages + [m];
    }

    /** The success tail of agenticTurn: user, assistant, and a placeholder per clean call. */
    method RecordTurn(userContent: string, text: string, toolCalls: seq<ToolCall>)
      requires Valid()
      modifies this
      ensures Valid()
      ensures messages == old(messages) + Turn(userContent, text, Sanitized(toolCalls, isJson))
      ensures summary == old(summary) && tacticalHeaderPlan == old(tacticalHeaderPlan)
    {
      hide Protocol, AllClean, Sanitized, Paired, Placeholders, Turn;
      PairedIsProtocol(messages);
      var historyCalls := SanitizeToolCallsForHistory(toolCalls, isJson);
      TurnKeeps(messages, userContent, text, historyCalls, isJson);
      ghost var turn := Turn(userContent, text, historyCalls);
      PairedIsProtocol(messages + turn);
      TurnIs(userContent, text, historyCalls);
      AppendConversationMessage(User(userContent));
      AppendConversationMessage(Assistant(text, historyCalls));
      assert turn[..2] == [turn[0], turn[1]];
      for k := 0 to |historyCalls|
        invariant messages == old(messages) + turn[..2 + k]
        invariant summary == old(summary) && tacticalHeaderPlan == old(tacticalHeaderPlan)
      {
        AppendConversationMessage(ToolResult(PENDING, historyCalls[k].id));
        assert turn[..2 + k + 1] == turn[..2 + k] + [turn[2 + k]];
      }
      assert turn[..2 + |historyCalls|] == turn;
    }

    /** An execution result or a rejection, told to the model as a user message. */
    method Inject(note: string)
      requires Valid()
      modifies this
      ensures Valid() && messages == old(messages) + [User(note)]
      ensures summary == old(summary) && tacticalHeaderPlan == old(tacticalHeaderPlan)
    {
      assert Protocol([User(note)]);
      ProtocolAdd(messages, [User(note)]);
      AppendConversationMessage(User(note));
    }

    /** maybeCompactConversation, once the estimate exceeds the budget; `newSummary` is what
        the summarizing call returned, if it succeeded, and `meanwhile` what other threads
        appended during that call. The tail of the snapshot replaces everything, so a
        successful compaction loses exactly `meanwhile`. */
    method Compact(newSummary: Option<string>, meanwhile: seq<Message>) returns (compacted: bool)
      requires Valid() && Protocol(meanwhile) && AllClean(meanwhile, isJson)
      modifies this
      ensures Valid()
      ensures compacted <==> newSummary.Some? && TailOf(old(messages)) != old(messages)
      ensures messages == if compacted then TailOf(old(messages)) else old(messages) + meanwhile
      ensures summary == (if compacted then newSummary.value else old(summary))
      ensures tacticalHeaderPlan == if compacted then "" else old(tacticalHeaderPlan)
    {
      hide Protocol, AllClean, Rounds, TailOf;
      var history := messages;
      var evict, tail := SplitTailRounds(history, TAIL_ROUNDS);
      TailIs(history, evict, tail);
      ProtocolAdd(messages, meanwhile);
      BothClean(messages, meanwhile, isJson);
      messages := messages + meanwhile;
      if |evict| == 0 || newSummary.None? {
        assert |evict| == 0 ==> evict + tail == tail;
        return false;
      }
      PairedIsProtocol(history);
      assert history[|evict|..] == tail && history[|evict|] == tail[0];
      CutAtAssistant(history, |evict|);
      PairedIsProtocol(tail);
      TailIsClean(history, |evict|, isJson);
      summary := newSummary.value;
      messages := tail;
      tacticalHeaderPlan := "";
      return true;
    }

    method ClearConversation()
      modifies this
      ensures Valid() && messages == [] && summary == "" && tacticalHeaderPlan == ""
    {
      messages, summary, tacticalHeaderPlan := [], "", "";
    }
  }

  lemma BothClean(a: seq<Message>, b: seq<Message>, isJson: string -> bool)
    requires AllClean(a, isJson) && AllClean(b, isJson)
    ensures AllClean(a + b, isJson)
  {
    assert forall i :: 0 <= i < |a + b| ==> (a + b)[i] == if i < |a| then a[i] else b[i - |a|];
  }

  lemma TailIsClean(h: seq<Message>, n: nat, isJson: string -> bool)
    requires AllClean(h, isJson) && n <= |h|
    ensures AllClean(h[n..], isJson)
  {
    assert forall i :: 0 <= i < |h| - n ==> h[n..][i] == h[n + i];
  }

  // ----- what a history says -----

  /** What was said to the model, and what it answered with which calls, in order. */
  function Said(h: seq<Message>): seq<string> {
    if h == [] then [] else (if h[0].User? then [h[0].content] else []) + Said(h[1..])
  }

  function Answered(h: seq<Message>): seq<(string, seq<ToolCall>)> {
    if h == [] then [] else (if h[0].Assistant? then [(h[0].content, h[0].toolCalls)] else []) + Answered(h[1..])
  }

  lemma ReadsConcat(a: seq<Message>, b: seq<Message>)
    ensures Said(a + b) == Said(a) + Said(b) && Answered(a + b) == Answered(a) + Answered(b)
  {
    SaidConcat(a, b);
    AnsweredConcat(a, b);
  }

  lemma {:induction false} SaidConcat(a: seq<Message>, b: seq<Message>)
    ensures Said(a + b) == Said(a) + Said(b)
  {
    if a == [] {
      assert a + b == b;
    } else {
      assert (a + b)[1..] == a[1..] + b && (a + b)[0] == a[0];
      SaidConcat(a[1..], b);
    }
  }

  lemma {:induction false} AnsweredConcat(a: seq<Message>, b: seq<Message>)
    ensures Answered(a + b) == Answered(a) + Answered(b)
  {
    if a == [] {
      assert a + b == b;
    } else {
      assert (a + b)[1..] == a[1..] + b && (a + b)[0] == a[0];
      AnsweredConcat(a[1..], b);
    }
  }

  lemma {:induction false} PlaceholdersAreSilent(h: seq<Message>)
    requires forall k :: 0 <= k < |h| ==> h[k].ToolResult?
    ensures Said(h) == [] && Answered(h) == []
  {
    if h != [] {
      PlaceholdersAreSilent(h[1..]);
    }
  }

  lemma TurnSays(userContent: string, text: string, calls: seq<ToolCall>)
    ensures Said(Turn(userContent, text, calls)) == [userContent]
    ensures Answered(Turn(userContent, text, calls)) == [(text, calls)]
  {
    hide Turn, Placeholders;
    var t := Turn(userContent, text, calls);
    TurnIs(userContent, text, calls);
    var rest := t[2..];
    PlaceholdersAreSilent(rest);
    assert t[1..][1..] == rest;
    assert Said(t[1..]) == [] + Said(rest) && Answered(t[1..]) == [(text, calls)] + Answered(rest);
  }

  /** A turn adds what was asked to what was said, and the answer with its calls to what was
      answered; the answer stands directly behind the question, before its placeholders. */
  lemma TurnReadsBack(h: seq<Message>, userContent: string, text: string, calls: seq<ToolCall>)
    ensures var after := h + Turn(userContent, text, calls);
            && Said(after) == Said(h) + [userContent] && Answered(after) == Answered(h) + [(text, calls)]
            && |after| == |h| + 2 + |calls| && after[|h|].User? && after[|h| + 1].Assistant?
            && forall k :: |h| + 2 <= k < |after| ==> after[k] == ToolResult("result=pending", calls[k - |h| - 2].id)
  {
    hide Turn, Placeholders, Said, Answered;
    TurnIs(userContent, text, calls);
    TurnSays(userContent, text, calls);
    ReadsConcat(h, Turn(userContent, text, calls));
  }
}
