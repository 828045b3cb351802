/** The rolling buffer of outbound messages kept for replay after a reconnect
    (agenttown-mcp/wsserver/server.go). Sending is one step; clock readings are inputs. */
module SendBuffer {
  import opened Text

  const MAX_LEN: int := 200
  const MAX_AGE: int := 60_000_000_000 // nanoseconds

  type Frame = seq<bv8>
  datatype BufferedMsg = BufferedMsg(seqNo: nat, frame: Frame, at: int)
  datatype EventLost = EventLost(fromSeq: int, toSeq: int, count: int)

  // ----- which messages are retained: a function of everything sent, and the time -----

  /** How many leading messages are older than the cutoff. */
  function Stale(h: seq<BufferedMsg>, cutoff: int): (i: nat)
    ensures i <= |h|
    ensures forall k :: 0 <= k < i ==> h[k].at < cutoff
    ensures i < |h| ==> h[i].at >= cutoff
  {
    if h != [] && h[0].at < cutoff then 1 + Stale(h[1..], cutoff) else 0
  }

  lemma StaleIs(h: seq<BufferedMsg>, cutoff: int, i: nat)
    requires i <= |h| && (forall k :: 0 <= k < i ==> h[k].at < cutoff) && (i < |h| ==> h[i].at >= cutoff)
    ensures Stale(h, cutoff) == i
  {
    hide Stale;
  }

  function Dropped(h: seq<BufferedMsg>, now: int): (i: nat)
    ensures i <= |h|
  {
    var stale := Stale(h, now - MAX_AGE);
    if |h| - stale > MAX_LEN then |h| - MAX_LEN else stale
  }

  /** The messages of a history that are retained at a time. */
  function Retained(h: seq<BufferedMsg>, now: int): seq<BufferedMsg> {
    h[Dropped(h, now)..]
  }

  predicate InOrder(h: seq<BufferedMsg>) {
    forall i, j :: 0 <= i < j < |h| ==> h[i].seqNo < h[j].seqNo && h[i].at <= h[j].at
  }

  /** A message is retained exactly when it is among the newest 200 and at most 60s old. */
  lemma RetainedExactly(h: seq<BufferedMsg>, now: int, k: nat)
    requires InOrder(h) && k < |h|
    ensures Dropped(h, now) <= k <==> k >= |h| - 200 && h[k].at >= now - 60_000_000_000
  {
    var i := Stale(h, now - MAX_AGE);
    if i <= k {
      assert h[i].at <= h[k].at;
    }
  }

  lemma InOrderParts(h: seq<BufferedMsg>, extra: seq<BufferedMsg>, d: nat)
    requires InOrder(h + extra) && d <= |h|
    ensures InOrder(h) && InOrder(h[d..] + extra) && h[d..] + extra == (h + extra)[d..]
  {
    var all, kept := h + extra, h[d..] + extra;
    assert forall i :: 0 <= i < |h| ==> all[i] == h[i];
    assert forall i :: 0 <= i < |kept| ==> all[d + i] == kept[i];
  }

  /** Dropping from what was retained before loses nothing that should be kept. */
  lemma RetainedAgain(h: seq<BufferedMsg>, before: int, extra: seq<BufferedMsg>, now: int)
    requires InOrder(h + extra) && before <= now
    ensures Retained(Retained(h, before) + extra, now) == Retained(h + extra, now)
  {
    hide Dropped, InOrder;
    var d := Dropped(h, before);
    var all := h + extra;
    InOrderParts(h, extra, d);
    if d > 0 {
      RetainedExactly(h, before, d - 1);
      RetainedExactly(all, now, d - 1);
      assert all[d - 1] == h[d - 1];
    }
    DropsAgree(all, d, now);
    assert all[d..][Dropped(all, now) - d..] == all[Dropped(all, now)..];
  }

  lemma DropsAgree(all: seq<BufferedMsg>, d: nat, now: int)
    requires InOrder(all) && d <= Dropped(all, now)
    ensures Dropped(all[d..], now) == Dropped(all, now) - d
  {
    var rest := all[d..];
    assert InOrder(rest) && forall k :: 0 <= k < |rest| ==> rest[k] == all[d + k];
    var i, j := Dropped(rest, now), Dropped(all, now) - d;
    if i < j {
      RetainedExactly(rest, now, i);
      RetainedExactly(all, now, d + i);
    } else if j < i {
      RetainedExactly(rest, now, j);
      RetainedExactly(all, now, d + j);
    }
  }

  // ----- replay -----

  function Beyond(buf: seq<BufferedMsg>, peerLastSeq: int): seq<BufferedMsg> {
    if buf == [] then []
    else Beyond(buf[..|buf| - 1], peerLastSeq) + (if Last(buf).seqNo > peerLastSeq then [Last(buf)] else [])
  }

  lemma {:induction false} BeyondAreBeyond(buf: seq<BufferedMsg>, p: int)
    ensures forall m :: m in Beyond(buf, p) ==> m in buf && m.seqNo > p
  {
    if buf != [] {
      BeyondAreBeyond(buf[..|buf| - 1], p);
    }
  }

  function Notice(buf: seq<BufferedMsg>, peerLastSeq: int): Option<EventLost> {
    if buf != [] && buf[0].seqNo > 0 && buf[0].seqNo > peerLastSeq + 1
    then Some(EventLost(peerLastSeq + 1, buf[0].seqNo, buf[0].seqNo - (peerLastSeq + 1)))
    else None
  }

  lemma {:induction false} BeyondConcat(a: seq<BufferedMsg>, b: seq<BufferedMsg>, p: int)
    ensures Beyond(a + b, p) == Beyond(a, p) + Beyond(b, p)
  {
    if b == [] {
      assert a + b == a;
    } else {
      BeyondConcat(a, b[..|b| - 1], p);
      assert (a + b)[..|a + b| - 1] == a + b[..|b| - 1];
    }
  }

  lemma {:induction false} NothingBeyond(h: seq<BufferedMsg>, p: int)
    ensures Beyond(h, p) == [] <==> forall m :: m in h ==> m.seqNo <= p
  {
    if h != [] {
      var init := h[..|h| - 1];
      NothingBeyond(init, p);
      assert h == init + [Last(h)];
      assert Last(h) in h;
    }
  }

  /** What a replay sends is exactly the tail of everything sent beyond the resume point;
      what is missing from it had been dropped. */
  lemma ReplayIsTheTail(h: seq<BufferedMsg>, now: int, p: int)
    ensures Beyond(h, p) == Beyond(h[..Dropped(h, now)], p) + Beyond(Retained(h, now), p)
  {
    hide Beyond, Dropped;
    BeyondConcat(h[..Dropped(h, now)], Retained(h, now), p);
    assert h == h[..Dropped(h, now)] + Retained(h, now);
  }

  predicate Reported(m: BufferedMsg, lost: Option<EventLost>) {
    lost.Some? && lost.value.fromSeq <= m.seqNo < lost.value.toSeq
  }

  predicate AllReported(missing: seq<BufferedMsg>, lost: Option<EventLost>) {
    forall m :: m in missing ==> Reported(m, lost)
  }

  lemma DroppedAreReported(h: seq<BufferedMsg>, d: nat, p: int)
    requires InOrder(h) && (forall m :: m in h ==> m.seqNo > 0) && d < |h|
    ensures AllReported(Beyond(h[..d], p), Notice(h[d..], p))
  {
    hide Beyond;
    BeyondAreBeyond(h[..d], p);
    assert h[d..][0] == h[d] && h[d] in h;
    forall m | m in Beyond(h[..d], p) ensures Reported(m, Notice(h[d..], p)) {
      var k :| 0 <= k < d && h[k] == m;
    }
  }

  /** Every message a replay misses lies in the reported range, exactly unless the buffer
      is empty while something was sent beyond the resume point. */
  lemma LossIsReported(h: seq<BufferedMsg>, now: int, p: int)
    requires InOrder(h) && forall m :: m in h ==> m.seqNo > 0
    ensures var buf, missing := Retained(h, now), Beyond(h[..Dropped(h, now)], p);
            AllReported(missing, Notice(buf, p)) <==> (buf != [] || Beyond(h, p) == [])
  {
    var buf, gone := Retained(h, now), h[..Dropped(h, now)];
    var missing := Beyond(gone, p);
    if buf != [] {
      DroppedAreReported(h, Dropped(h, now), p);
    } else {
      hide Dropped, Beyond, InOrder;
      assert gone == h;
      if missing != [] {
        assert missing[0] in missing && !Reported(missing[0], Notice(buf, p));
      }
    }
  }

  lemma {:induction false} BeyondCount(h: seq<BufferedMsg>, p: int, top: int)
    requires InOrder(h) && forall m :: m in h ==> m.seqNo < top
    ensures |Beyond(h, p)| <= if top - (p + 1) < 0 then 0 else top - (p + 1)
  {
    if h != [] {
      var init := h[..|h| - 1];
      forall m | m in init ensures m.seqNo < Last(h).seqNo {
        var k :| 0 <= k < |init| && init[k] == m;
      }
      BeyondCount(init, p, Last(h).seqNo);
    }
  }

  /** Whenever something is missed and something is left, there is a notice, and its count is
      no less than the number of messages missed. */
  lemma LossIsNotUndercounted(h: seq<BufferedMsg>, d: nat, p: int)
    requires InOrder(h) && (forall m :: m in h ==> m.seqNo > 0) && d < |h| && Beyond(h[..d], p) != []
    ensures Notice(h[d..], p).Some? && |Beyond(h[..d], p)| <= Notice(h[d..], p).value.count
  {
    hide Beyond;
    DroppedAreReported(h, d, p);
    assert Reported(Beyond(h[..d], p)[0], Notice(h[d..], p));
    BeyondCount(h[..d], p, h[d].seqNo);
  }

  // ----- the notice and the replay, exactly -----

  /** Which messages are selected: those beyond the resume point, each in its place. */
  lemma BeyondExactly(a: seq<BufferedMsg>, m: BufferedMsg, b: seq<BufferedMsg>, p: int)
    ensures Beyond(a + [m] + b, p) == Beyond(a, p) + (if m.seqNo > p then [m] else []) + Beyond(b, p)
    ensures Beyond([], p) == []
  {
    BeyondConcat(a + [m], b, p);
    BeyondConcat(a, [m], p);
    assert [m][..0] == [] && Beyond([m], p) == [] + (if m.seqNo > p then [m] else []);
  }

  /** All numbers lie beyond the one after the resume point. */
  predicate LeavesGap(buf: seq<BufferedMsg>, p: int) {
    buf != [] && forall m :: m in buf ==> m.seqNo > p + 1
  }

  lemma OldestIsLeast(buf: seq<BufferedMsg>)
    requires InOrder(buf) && buf != []
    ensures forall m :: m in buf ==> buf[0].seqNo <= m.seqNo
  {
    forall m | m in buf ensures buf[0].seqNo <= m.seqNo {
      var k :| 0 <= k < |buf| && buf[k] == m;
    }
  }

  lemma {:induction false} AllBeyond(buf: seq<BufferedMsg>, p: int)
    requires forall m :: m in buf ==> m.seqNo > p
    ensures Beyond(buf, p) == buf
  {
    if buf != [] {
      assert Last(buf) in buf;
      AllBeyond(buf[..|buf| - 1], p);
    }
  }

  /** A notice is given exactly when the buffer leaves a gap behind the resume point. It then
      names exactly the numbers of that gap: from the one after the resume point up to, and
      without, the first message that is replayed, and as many as they are. */
  lemma NoticeIsTheGap(buf: seq<BufferedMsg>, p: int)
    requires InOrder(buf) && forall m :: m in buf ==> m.seqNo > 0
    ensures var (lost, replayed) := (Notice(buf, p), Beyond(buf, p));
            && (lost.Some? <==> LeavesGap(buf, p))
            && (lost.Some? ==>
                  && replayed == buf
                  && lost.value.fromSeq == p + 1 && lost.value.toSeq == replayed[0].seqNo
                  && lost.value.count == replayed[0].seqNo - p - 1 > 0)
            && (forall m :: m in replayed ==> !Reported(m, lost))
  {
    hide Beyond;
    BeyondAreBeyond(buf, p);
    if buf != [] {
      OldestIsLeast(buf);
      assert buf[0] in buf;
      if LeavesGap(buf, p) {
        AllBeyond(buf, p);
      }
    }
  }

  // ----- the server -----

  method SelectBeyond(buf: seq<BufferedMsg>, peerLastSeq: int) returns (toReplay: seq<BufferedMsg>, oldestSeq: int)
    ensures toReplay == Beyond(buf, peerLastSeq)
    ensures oldestSeq == if buf == [] then -1 else buf[0].seqNo
  {
    toReplay := [];
    oldestSeq := -1;
    for k := 0 to |buf|
      invariant toReplay == Beyond(buf[..k], peerLastSeq)
      invariant oldestSeq == if k == 0 then -1 else buf[0].seqNo
    {
      var m := buf[k];
      assert buf[..k + 1][..k] == buf[..k];
      if oldestSeq == -1 {
        oldestSeq := m.seqNo;
      }
      if m.seqNo > peerLastSeq {
        toReplay := toReplay + [m];
      }
    }
    assert buf[..|buf|] == buf;
  }

  /** Everything buffered so far, `clock` being the time of the last eviction. */
  ghost predicate Consistent(seqNo: nat, sendBuf: seq<BufferedMsg>, history: seq<BufferedMsg>, clock: int) {
    && InOrder(history)
    && (forall m :: m in history ==> 0 < m.seqNo <= seqNo && m.at <= clock)
    && sendBuf == Retained(history, clock)
  }

  lemma KeepsConsistent(seqNo: nat, buf: seq<BufferedMsg>, h: seq<BufferedMsg>, clock: int, m: BufferedMsg, now: int)
    requires Consistent(seqNo, buf, h, clock) && m.seqNo == seqNo + 1 && clock <= m.at <= now
    ensures Consistent(seqNo + 1, Retained(buf + [m], now), h + [m], now)
  {
    hide Retained;
    RetainedAgain(h, clock, [m], now);
  }

  lemma AgesConsistently(seqNo: nat, buf: seq<BufferedMsg>, h: seq<BufferedMsg>, clock: int, now: int)
    requires Consistent(seqNo, buf, h, clock) && clock <= now
    ensures Consistent(seqNo, Retained(buf, now), h, now) && Consistent(seqNo + 1, Retained(buf, now), h, now)
  {
    hide Retained;
    RetainedAgain(h, clock, [], now);
    assert h + [] == h && buf + [] == buf;
  }

  lemma RetainedInOrder(h: seq<BufferedMsg>, now: int)
    requires InOrder(h) && forall m :: m in h ==> m.seqNo > 0
    ensures InOrder(Retained(h, now)) && forall m :: m in Retained(h, now) ==> m.seqNo > 0
  {
    hide Dropped;
    var d := Dropped(h, now);
    assert forall i :: 0 <= i < |h| - d ==> h[d..][i] == h[d + i];
  }

  /** Server: the outbound counter and the buffer. `history` is every discrete message sent. */
  class Server {
    var seqNo: nat
    var sendBuf: seq<BufferedMsg>
    ghost var history: seq<BufferedMsg>
    ghost var clock: int

    ghost predicate Valid()
      reads this
    {
      Consistent(seqNo, sendBuf, history, clock)
    }

    constructor (now: int)
      ensures Valid() && history == [] && clock == now && seqNo == 0
    {
      seqNo, sendBuf, history, clock := 0, [], [], now;
    }

    /** evictLocked. */
    method Evict(now: int)
      modifies this`sendBuf
      ensures sendBuf == Retained(old(sendBuf), now)
    {
      var cutoff := now - MAX_AGE;
      var i := 0;
      while i < |sendBuf| && sendBuf[i].at < cutoff
        invariant i <= |sendBuf| && sendBuf == old(sendBuf)
        invariant forall k :: 0 <= k < i ==> sendBuf[k].at < cutoff
      {
        i := i + 1;
      }
      StaleIs(sendBuf, cutoff, i);
      var overflow := |sendBuf| - i - MAX_LEN;
      if overflow > 0 {
        i := i + overflow;
      }
      if i > 0 {
        sendBuf := sendBuf[i..];
      }
    }

    /** SendEnvelope: every message takes a number, discrete ones are buffered. */
    method SendEnvelope(discrete: bool, frame: Frame, at: int, now: int)
      requires Valid() && clock <= at <= now
      modifies this
      ensures Valid() && seqNo == old(seqNo) + 1
      ensures discrete ==> history == old(history) + [BufferedMsg(seqNo, frame, at)] && clock == now
      ensures !discrete ==> history == old(history) && clock == old(clock) && sendBuf == old(sendBuf)
    {
      hide Retained, InOrder;
      ghost var (n, buf) := (seqNo, sendBuf);
      seqNo := seqNo + 1;
      if discrete {
        var m := BufferedMsg(seqNo, frame, at);
        sendBuf := sendBuf + [m];
        Evict(now);
        KeepsConsistent(n, buf, history, clock, m, now);
        history := history + [m];
        clock := now;
      }
    }

    /** replayFrom: what is sent again, and the gap notice, which takes a number too. */
    method ReplayFrom(peerLastSeq: int, now: int) returns (toReplay: seq<BufferedMsg>, lost: Option<EventLost>)
      requires Valid() && clock <= now
      modifies this
      ensures Valid() && history == old(history) && clock == now
      ensures toReplay == Beyond(Retained(history, now), peerLastSeq) && lost == Notice(Retained(history, now), peerLastSeq)
      ensures lost.Some? <==> LeavesGap(Retained(history, now), peerLastSeq)
      ensures lost.Some? ==>
                && toReplay != [] && lost.value.fromSeq == peerLastSeq + 1 && lost.value.toSeq == toReplay[0].seqNo
                && lost.value.count == toReplay[0].seqNo - peerLastSeq - 1
      ensures seqNo == if lost.Some? then old(seqNo) + 1 else old(seqNo)
    {
      hide Retained, InOrder, Beyond, LeavesGap;
      RetainedInOrder(history, now);
      AgesConsistently(seqNo, sendBuf, history, clock, now);
      Evict(now);
      clock := now;
      var oldestSeq;
      NoticeIsTheGap(sendBuf, peerLastSeq);
      toReplay, oldestSeq := SelectBeyond(sendBuf, peerLastSeq);
      lost := None;
      if oldestSeq > 0 && oldestSeq > peerLastSeq + 1 {
        lost := Some(EventLost(peerLastSeq + 1, oldestSeq, oldestSeq - (peerLastSeq + 1)));
        seqNo := seqNo + 1;
      }
    }
  }

  lemma LoneMessage(m: BufferedMsg)
    requires m.seqNo == 1 && m.at == 0
    ensures Retained([m], MAX_AGE + 1) == [] && |Beyond([m], 0)| == 1
    ensures Beyond([], 0) == [] && Notice([], 0) == None
  {
    assert [m][1..] == [] && [m][..0] == [];
    assert Stale([m], 1) == 1 + Stale([], 1);
    assert Beyond([m], 0) == Beyond([], 0) + [m];
  }

  /** A run in which a message is lost and no notice is given. */
  method UnreportedLoss(frame: Frame) returns (toReplay: seq<BufferedMsg>, lost: Option<EventLost>, ghost history: seq<BufferedMsg>)
    ensures |Beyond(history, 0)| == 1 && toReplay == [] && lost == None
  {
    hide Retained, Beyond, Notice, Consistent;
    var server := new Server(0);
    server.SendEnvelope(true, frame, 0, 0);
    assert server.history == [BufferedMsg(1, frame, 0)];
    LoneMessage(BufferedMsg(1, frame, 0));
    toReplay, lost := server.ReplayFrom(0, MAX_AGE + 1);
    history := server.history;
  }
}
