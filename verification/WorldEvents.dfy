/** The per-agent queue of pending world events with its window of remembered ids
    (agenttown-mcp/pkg/agentstate/world_event_queue.go, active_situations.go). */
module WorldEvents {
  import opened Text

  const QUEUE_CAP: nat := 64
  const SEEN_CAP: nat := 256

  datatype Event = Event(id: string, body: string)
  datatype EnqueueResult = EnqueueOK | EnqueueDuplicate | EnqueueEvictedOldest

  // ----- the window of remembered ids, against the log of all accepted ones -----

  /** The newest SEEN_CAP entries of the log of accepted ids. */
  function Window(log: seq<string>): (w: seq<string>)
    ensures |w| == if |log| <= SEEN_CAP then |log| else SEEN_CAP
  {
    if |log| <= SEEN_CAP then log else log[|log| - SEEN_CAP..]
  }

  /** No id is accepted while the window still holds it. */
  predicate Admissible(log: seq<string>) {
    forall k :: 0 <= k < |log| ==> log[k] !in Window(log[..k])
  }

  predicate Distinct(s: seq<string>) {
    forall i, j :: 0 <= i < j < |s| ==> s[i] != s[j]
  }

  lemma InWindow(log: seq<string>, i: nat)
    requires |log| - SEEN_CAP <= i < |log|
    ensures log[i] in Window(log)
  {
    var w := Window(log);
    assert log[i] == w[i - (|log| - |w|)];
  }

  lemma ApartInLog(log: seq<string>, i: nat, j: nat)
    requires Admissible(log) && i < j < |log| && j - i <= SEEN_CAP
    ensures log[i] != log[j]
  {
    assert log[..j][i] == log[i];
    InWindow(log[..j], i);
  }

  lemma WindowAt(log: seq<string>, i: nat)
    requires i < |Window(log)|
    ensures |log| >= |Window(log)| && Window(log)[i] == log[|log| - |Window(log)| + i]
  {
  }

  lemma WindowIsDistinct(log: seq<string>)
    requires Admissible(log)
    ensures Distinct(Window(log))
  {
    hide Window, Admissible;
    var w := Window(log);
    forall i, j | 0 <= i < j < |w| ensures w[i] != w[j] {
      WindowAt(log, i);
      WindowAt(log, j);
      ApartInLog(log, |log| - |w| + i, |log| - |w| + j);
    }
  }

  /** An accepted id is remembered until exactly 256 further ids have been accepted. */
  lemma RememberedFor256(log: seq<string>, id: string, more: seq<string>)
    requires Admissible(log + [id] + more) && |more| <= 256
    ensures id in Window(log + [id] + more) <==> |more| < 256
  {
    var all, p := log + [id] + more, |log|;
    assert all[p] == id;
    if |more| < SEEN_CAP {
      InWindow(all, p);
    } else {
      var w := Window(all);
      forall i | 0 <= i < |w| ensures w[i] != id {
        assert w[i] == all[p + 1 + i];
        ApartInLog(all, p, p + 1 + i);
      }
    }
  }

  lemma GrownWindow(log: seq<string>, id: string)
    ensures Window(log + [id]) == if |log| < SEEN_CAP then Window(log) + [id] else Window(log)[1..] + [id]
  {
    assert |log| > SEEN_CAP ==> (log + [id])[|log| + 1 - SEEN_CAP..] == log[|log| - SEEN_CAP..][1..] + [id];
  }

  lemma AcceptedGrows(log: seq<string>, id: string)
    requires Admissible(log) && id !in Window(log)
    ensures Admissible(log + [id])
    ensures Window(log + [id]) == if |log| < SEEN_CAP then Window(log) + [id] else Window(log)[1..] + [id]
  {
    var l := log + [id];
    GrownWindow(log, id);
    hide Window;
    forall k | 0 <= k < |l| ensures l[k] !in Window(l[..k]) {
      assert l[..k] == log[..k];
      assert log[..|log|] == log;
    }
  }

  lemma Slide(fifo: seq<string>, id: string, seen: set<string>)
    requires Distinct(fifo) && fifo != [] && id !in fifo && forall x :: x in seen <==> x in fifo
    ensures forall x :: x in seen + {id} - {fifo[0]} <==> x in fifo[1..] + [id]
  {
    assert fifo == [fifo[0]] + fifo[1..];
    assert fifo[0] !in fifo[1..];
  }

  /** The remembered ids and their eviction order, against the log. */
  ghost predicate Remembers(seen: set<string>, fifo: seq<string>, log: seq<string>) {
    fifo == Window(log) && Admissible(log) && "" !in log && forall id :: id in seen <==> id in fifo
  }

  lemma RemembersNext(seen: set<string>, fifo: seq<string>, log: seq<string>, id: string)
    requires Remembers(seen, fifo, log) && id != "" && id !in seen
    ensures |fifo| <= SEEN_CAP
    ensures |fifo| < SEEN_CAP ==> Remembers(seen + {id}, fifo + [id], log + [id])
    ensures |fifo| == SEEN_CAP ==> Remembers(seen + {id} - {fifo[0]}, fifo[1..] + [id], log + [id])
  {
    AcceptedGrows(log, id);
    WindowIsDistinct(log);
    hide Window, Admissible, Distinct;
    if |fifo| == SEEN_CAP {
      Slide(fifo, id, seen);
    }
  }

  // ----- what became of every arrival -----

  datatype Fate = Pending | Evicted | Removed | Cleared | HandedOver

  /** The arrivals still pending, in arrival order. */
  function PendingOf(arrivals: seq<Event>, fate: seq<Fate>): seq<Event>
    requires |fate| == |arrivals|
  {
    if arrivals == [] then []
    else if fate[0].Pending? then [arrivals[0]] + PendingOf(arrivals[1..], fate[1..])
    else PendingOf(arrivals[1..], fate[1..])
  }

  /** The arrival at position k of the queue. */
  function Tag(arrivals: seq<Event>, fate: seq<Fate>, k: nat): (t: nat)
    requires |fate| == |arrivals| && k < |PendingOf(arrivals, fate)|
    ensures t < |fate| && fate[t].Pending? && arrivals[t] == PendingOf(arrivals, fate)[k]
  {
    if fate[0].Pending? then
      if k == 0 then 0 else 1 + Tag(arrivals[1..], fate[1..], k - 1)
    else 1 + Tag(arrivals[1..], fate[1..], k)
  }

  function Without<T>(s: seq<T>, k: nat): seq<T>
    requires k < |s|
  {
    s[..k] + s[k + 1..]
  }

  lemma WithoutFirst<T>(x: T, rest: seq<T>)
    ensures Without([x] + rest, 0) == [] + rest
  {
  }

  lemma WithoutLater<T>(x: T, rest: seq<T>, k: nat)
    requires 0 < k <= |rest|
    ensures Without([x] + rest, k) == [x] + Without(rest, k - 1)
  {
  }

  lemma TagStep(arrivals: seq<Event>, fate: seq<Fate>, k: nat)
    requires |fate| == |arrivals| && k < |PendingOf(arrivals, fate)|
    ensures arrivals != []
    ensures var (rest, here) := (PendingOf(arrivals[1..], fate[1..]), fate[0].Pending?);
            && PendingOf(arrivals, fate) == (if here then [arrivals[0]] else []) + rest
            && (here && k == 0 ==> Tag(arrivals, fate, k) == 0)
            && (here && k > 0 ==> k - 1 < |rest| && Tag(arrivals, fate, k) == 1 + Tag(arrivals[1..], fate[1..], k - 1))
            && (!here ==> k < |rest| && Tag(arrivals, fate, k) == 1 + Tag(arrivals[1..], fate[1..], k))
  {
  }

  lemma PendingStep(arrivals: seq<Event>, fate: seq<Fate>)
    requires |fate| == |arrivals| && arrivals != []
    ensures PendingOf(arrivals, fate) == (if fate[0].Pending? then [arrivals[0]] else []) + PendingOf(arrivals[1..], fate[1..])
  {
  }

  lemma {:induction false} SettleOne(arrivals: seq<Event>, fate: seq<Fate>, k: nat, f: Fate)
    requires |fate| == |arrivals| && k < |PendingOf(arrivals, fate)| && !f.Pending?
    ensures PendingOf(arrivals, fate[Tag(arrivals, fate, k) := f]) == Without(PendingOf(arrivals, fate), k)
  {
    hide PendingOf, Tag, Without;
    TagStep(arrivals, fate, k);
    var t := Tag(arrivals, fate, k);
    var after := fate[t := f];
    var rest := PendingOf(arrivals[1..], fate[1..]);
    PendingStep(arrivals, after);
    if t == 0 {
      assert after[1..] == fate[1..];
      WithoutFirst(arrivals[0], rest);
    } else {
      assert after[1..] == fate[1..][t - 1 := f];
      if fate[0].Pending? {
        SettleOne(arrivals[1..], fate[1..], k - 1, f);
        WithoutLater(arrivals[0], rest, k);
      } else {
        SettleOne(arrivals[1..], fate[1..], k, f);
        assert [] + rest == rest;
      }
    }
  }

  function SettleAll(fate: seq<Fate>, f: Fate): (r: seq<Fate>)
    ensures |r| == |fate|
  {
    seq(|fate|, i requires 0 <= i < |fate| => if fate[i].Pending? then f else fate[i])
  }

  lemma {:induction false} NonePending(arrivals: seq<Event>, fate: seq<Fate>)
    requires |fate| == |arrivals| && forall i :: 0 <= i < |fate| ==> !fate[i].Pending?
    ensures PendingOf(arrivals, fate) == []
  {
    if arrivals != [] {
      NonePending(arrivals[1..], fate[1..]);
    }
  }

  lemma {:induction false} PendingConcat(a: seq<Event>, f: seq<Fate>, b: seq<Event>, g: seq<Fate>)
    requires |f| == |a| && |g| == |b|
    ensures PendingOf(a + b, f + g) == PendingOf(a, f) + PendingOf(b, g)
  {
    if a == [] {
      assert a + b == b && f + g == g;
    } else {
      assert (a + b)[1..] == a[1..] + b && (f + g)[1..] == f[1..] + g;
      PendingConcat(a[1..], f[1..], b, g);
    }
  }

  lemma PendingOne(arrivals: seq<Event>, fate: seq<Fate>, ev: Event)
    requires |fate| == |arrivals|
    ensures PendingOf(arrivals + [ev], fate + [Pending]) == PendingOf(arrivals, fate) + [ev]
  {
    PendingConcat(arrivals, fate, [ev], [Pending]);
    assert [ev][1..] == [] && PendingOf([ev], [Pending]) == [ev] + [];
  }

  lemma {:induction false} TagCounts(arrivals: seq<Event>, fate: seq<Fate>, k: nat)
    requires |fate| == |arrivals| && k < |PendingOf(arrivals, fate)|
    ensures var t := Tag(arrivals, fate, k);
            |PendingOf(arrivals[..t], fate[..t])| == k
  {
    hide PendingOf, Tag;
    TagStep(arrivals, fate, k);
    NonePending([], []);
    var t := Tag(arrivals, fate, k);
    if t > 0 {
      TagCounts(arrivals[1..], fate[1..], if fate[0].Pending? then k - 1 else k);
      assert arrivals[..t][1..] == arrivals[1..][..t - 1] && fate[..t][1..] == fate[1..][..t - 1];
      PendingStep(arrivals[..t], fate[..t]);
    } else {
      assert arrivals[..t] == [] && fate[..t] == [];
    }
  }

  /** The k-th pending event is among the first `n` arrivals exactly when it is among their
      pending ones. */
  lemma TagWhere(arrivals: seq<Event>, fate: seq<Fate>, k: nat, n: nat)
    requires |fate| == |arrivals| && k < |PendingOf(arrivals, fate)| && n <= |arrivals|
    ensures Tag(arrivals, fate, k) < n <==> k < |PendingOf(arrivals[..n], fate[..n])|
  {
    hide PendingOf, Tag;
    var t := Tag(arrivals, fate, k);
    TagCounts(arrivals, fate, k);
    if t < n {
      PendingUpTo(arrivals, fate, t, n);
      PendingStep(arrivals[t..n], fate[t..n]);
    } else {
      PendingUpTo(arrivals, fate, n, t);
    }
  }

  lemma PendingUpTo(arrivals: seq<Event>, fate: seq<Fate>, lo: nat, hi: nat)
    requires |fate| == |arrivals| && lo <= hi <= |arrivals|
    ensures PendingOf(arrivals[..hi], fate[..hi]) == PendingOf(arrivals[..lo], fate[..lo]) + PendingOf(arrivals[lo..hi], fate[lo..hi])
  {
    hide PendingOf;
    PendingConcat(arrivals[..lo], fate[..lo], arrivals[lo..hi], fate[lo..hi]);
    assert arrivals[..hi] == arrivals[..lo] + arrivals[lo..hi] && fate[..hi] == fate[..lo] + fate[lo..hi];
  }

  function FindId(queue: seq<Event>, id: string): (i: int)
    ensures -1 <= i < |queue|
    ensures 0 <= i ==> queue[i].id == id
    ensures forall k :: 0 <= k < (if i < 0 then |queue| else i) ==> queue[k].id != id
  {
    if queue == [] then -1
    else if queue[0].id == id then 0
    else
      var i := FindId(queue[1..], id);
      if i < 0 then -1 else i + 1
  }

  // ----- what each operation does to the arrivals and the log -----

  /** Every event that arrived, what became of it, and the accepted ids. */
  datatype History = History(arrivals: seq<Event>, fate: seq<Fate>, log: seq<string>)

  predicate Whole(h: History) {
    |h.fate| == |h.arrivals|
  }

  function Queue(h: History): seq<Event>
    requires Whole(h)
  {
    PendingOf(h.arrivals, h.fate)
  }

  function Settled(h: History, k: nat, f: Fate): (r: History)
    requires Whole(h) && k < |Queue(h)|
    ensures Whole(r)
  {
    h.(fate := h.fate[Tag(h.arrivals, h.fate, k) := f])
  }

  /** At capacity the oldest pending event goes. */
  function RoomMade(h: History): (r: History)
    requires Whole(h)
    ensures Whole(r)
  {
    if |Queue(h)| >= QUEUE_CAP then Settled(h, 0, Evicted) else h
  }

  function Arrived(h: History, ev: Event): (r: History)
    requires Whole(h)
    ensures Whole(r)
  {
    h.(arrivals := h.arrivals + [ev], fate := h.fate + [Pending])
  }

  function Marked(h: History, id: string): History {
    if id == "" then h else h.(log := h.log + [id])
  }

  predicate Refused(log: seq<string>, id: string) {
    id != "" && id in Window(log)
  }

  datatype Op = Enqueue(event: Event) | Echo(event: Event) | Remove(id: string) | MarkSeen(id: string)

  function Step(h: History, op: Op): (r: History)
    requires Whole(h)
    ensures Whole(r)
  {
    match op
    case Enqueue(ev) => if Refused(h.log, ev.id) then h else Marked(Arrived(RoomMade(h), ev), ev.id)
    case Echo(ev) => Arrived(RoomMade(h), ev)
    case Remove(id) =>
      var k := FindId(Queue(h), id);
      if id == "" || k < 0 then h else Settled(h, k, Removed)
    case MarkSeen(id) => if Refused(h.log, id) then h else Marked(h, id)
  }

  function Run(h: History, ops: seq<Op>): (r: History)
    requires Whole(h)
    ensures Whole(r)
  {
    if ops == [] then h else Step(Run(h, ops[..|ops| - 1]), Last(ops))
  }

  // ----- a snapshot, further operations, and a clear -----

  /** The pending events among the first `n` arrivals, and among the later ones. */
  datatype Parts = Parts(early: seq<Event>, late: seq<Event>)

  function PartsOf(h: History, n: nat): Parts
    requires Whole(h) && n <= |h.arrivals|
  {
    Parts(PendingOf(h.arrivals[..n], h.fate[..n]), PendingOf(h.arrivals[n..], h.fate[n..]))
  }

  lemma PartsAreAll(h: History, n: nat)
    requires Whole(h) && n <= |h.arrivals|
    ensures Queue(h) == PartsOf(h, n).early + PartsOf(h, n).late
  {
    PendingConcat(h.arrivals[..n], h.fate[..n], h.arrivals[n..], h.fate[n..]);
    assert h.arrivals == h.arrivals[..n] + h.arrivals[n..] && h.fate == h.fate[..n] + h.fate[n..];
  }

  function Taken(p: Parts, k: nat): Parts
    requires k < |p.early| + |p.late|
  {
    if k < |p.early| then Parts(Without(p.early, k), p.late) else Parts(p.early, Without(p.late, k - |p.early|))
  }

  function Arriving(p: Parts, ev: Event): Parts {
    var room := if |p.early| + |p.late| >= QUEUE_CAP then Taken(p, 0) else p;
    Parts(room.early, room.late + [ev])
  }

  /** What an operation does to either part. */
  function NextParts(p: Parts, log: seq<string>, op: Op): Parts {
    match op
    case Enqueue(ev) => if Refused(log, ev.id) then p else Arriving(p, ev)
    case Echo(ev) => Arriving(p, ev)
    case Remove(id) =>
      var k := FindId(p.early + p.late, id);
      if id == "" || k < 0 then p else Taken(p, k)
    case MarkSeen(_) => p
  }

  lemma SettledParts(h: History, n: nat, k: nat, f: Fate)
    requires Whole(h) && n <= |h.arrivals| && k < |Queue(h)| && !f.Pending?
    ensures k < |PartsOf(h, n).early| + |PartsOf(h, n).late|
    ensures PartsOf(Settled(h, k, f), n) == Taken(PartsOf(h, n), k)
  {
    hide PendingOf, Tag, Taken;
    var (p, r, t) := (PartsOf(h, n), Settled(h, k, f), Tag(h.arrivals, h.fate, k));
    PartsAreAll(h, n);
    PartsAreAll(r, n);
    SettleOne(h.arrivals, h.fate, k, f);
    TagWhere(h.arrivals, h.fate, k, n);
    TakenIsWithout(p, k);
    if t < n {
      assert r.fate[n..] == h.fate[n..];
      SameTail(PartsOf(r, n).early, Taken(p, k).early, p.late);
    } else {
      assert r.fate[..n] == h.fate[..n];
      SameFront(p.early, PartsOf(r, n).late, Taken(p, k).late);
    }
  }

  lemma TakenIsWithout(p: Parts, k: nat)
    requires k < |p.early| + |p.late|
    ensures Taken(p, k).early + Taken(p, k).late == Without(p.early + p.late, k)
    ensures if k < |p.early| then Taken(p, k).late == p.late else Taken(p, k).early == p.early
  {
  }

  lemma SameTail<T>(a: seq<T>, b: seq<T>, tail: seq<T>)
    requires a + tail == b + tail
    ensures a == b
  {
    assert a == (a + tail)[..|a|] && b == (b + tail)[..|b|];
  }

  lemma SameFront<T>(front: seq<T>, a: seq<T>, b: seq<T>)
    requires front + a == front + b
    ensures a == b
  {
    assert a == (front + a)[|front|..] && b == (front + b)[|front|..];
  }

  lemma ArrivedParts(h: History, n: nat, ev: Event)
    requires Whole(h) && n <= |h.arrivals|
    ensures PartsOf(Arrived(h, ev), n) == Parts(PartsOf(h, n).early, PartsOf(h, n).late + [ev])
  {
    var r := Arrived(h, ev);
    assert r.arrivals[..n] == h.arrivals[..n] && r.fate[..n] == h.fate[..n];
    assert r.arrivals[n..] == h.arrivals[n..] + [ev] && r.fate[n..] == h.fate[n..] + [Pending];
    PendingOne(h.arrivals[n..], h.fate[n..], ev);
  }

  lemma ArrivingParts(h: History, n: nat, ev: Event)
    requires Whole(h) && n <= |h.arrivals|
    ensures PartsOf(Arrived(RoomMade(h), ev), n) == Arriving(PartsOf(h, n), ev)
  {
    hide PendingOf, Tag, PartsOf, Taken, Arrived;
    PartsAreAll(h, n);
    if |Queue(h)| >= QUEUE_CAP {
      SettledParts(h, n, 0, Evicted);
    }
    ArrivedParts(RoomMade(h), n, ev);
  }

  lemma StepParts(h: History, n: nat, op: Op)
    requires Whole(h) && n <= |h.arrivals|
    ensures |h.arrivals| <= |Step(h, op).arrivals|
    ensures PartsOf(Step(h, op), n) == NextParts(PartsOf(h, n), h.log, op)
  {
    hide PendingOf, Tag, Taken, Arriving, Refused;
    match op
    case Enqueue(ev) => ArrivingParts(h, n, ev);
    case Echo(ev) => ArrivingParts(h, n, ev);
    case Remove(id) => {
      PartsAreAll(h, n);
      var k := FindId(Queue(h), id);
      if id != "" && k >= 0 {
        SettledParts(h, n, k, Removed);
      }
    }
    case MarkSeen(_) =>
  }

  /** Arrivals only grow, and what was settled stays settled. */
  predicate Continues(h: History, r: History)
    requires Whole(h) && Whole(r)
  {
    h.arrivals <= r.arrivals && forall t :: 0 <= t < |h.fate| && !h.fate[t].Pending? ==> r.fate[t] == h.fate[t]
  }

  lemma StepContinues(h: History, op: Op)
    requires Whole(h)
    ensures Continues(h, Step(h, op))
  {
    hide PendingOf, Tag, Refused;
  }

  lemma {:induction false} RunContinues(h: History, ops: seq<Op>)
    requires Whole(h)
    ensures Continues(h, Run(h, ops))
  {
    hide Step;
    if ops != [] {
      RunContinues(h, ops[..|ops| - 1]);
      StepContinues(Run(h, ops[..|ops| - 1]), Last(ops));
    }
  }

  /** Whatever is enqueued, echoed, removed or marked between the snapshot for the prompt and
      the clearing of the queue: the clearing takes what is left of the snapshot, and behind
      it, unseen, exactly the later arrivals that are still pending. */
  lemma ClearedBeyondSnapshot(h: History, ops: seq<Op>)
    requires Whole(h)
    ensures var (r, n) := (Run(h, ops), |h.arrivals|);
            && n <= |r.arrivals| && r.arrivals[..n] == h.arrivals
            && Queue(r) == PartsOf(r, n).early + PartsOf(r, n).late
            && (forall t :: 0 <= t < |r.fate| ==>
                  var cleared := SettleAll(r.fate, Cleared)[t].Cleared? && !r.fate[t].Cleared?;
                  (cleared && t < n ==> h.fate[t].Pending?) && (cleared && n <= t <==> n <= t && r.fate[t].Pending?))
  {
    hide Run, PendingOf;
    RunContinues(h, ops);
    PartsAreAll(Run(h, ops), |h.arrivals|);
  }

  /** An empty id names no event: removing it changes nothing, and it is neither refused nor
      remembered. An echoed event is not remembered either. */
  lemma EmptyIdIsNoId(h: History, body: string)
    requires Whole(h)
    ensures Step(h, Remove("")) == h && Step(h, MarkSeen("")) == h
    ensures Step(h, Enqueue(Event("", body))) == Step(h, Echo(Event("", body)))
    ensures forall ev: Event :: Step(h, Echo(ev)).log == h.log
  {
    hide PendingOf, Tag, Window;
  }

  // ----- when nothing unseen is cleared -----

  predicate Arrives(log: seq<string>, op: Op) {
    op.Echo? || (op.Enqueue? && !Refused(log, op.event.id))
  }

  /** The events the operations add to the queue. */
  function Accepted(h: History, ops: seq<Op>): seq<Event>
    requires Whole(h)
  {
    if ops == [] then []
    else
      var init := ops[..|ops| - 1];
      Accepted(h, init) + (if Arrives(Run(h, init).log, Last(ops)) then [Last(ops).event] else [])
  }

  function Removals(ops: seq<Op>): nat {
    if ops == [] then 0 else Removals(ops[..|ops| - 1]) + (if Last(ops).Remove? then 1 else 0)
  }

  function Newest(s: seq<Event>): seq<Event> {
    if |s| <= QUEUE_CAP then s else s[|s| - QUEUE_CAP..]
  }

  lemma StepLate(p: Parts, log: seq<string>, op: Op)
    requires |p.early| + |p.late| <= QUEUE_CAP
    ensures var (q, arrives) := (NextParts(p, log, op), Arrives(log, op));
            && |q.early| + |q.late| <= QUEUE_CAP
            && (op.Remove? ==> |q.late| >= |p.late| - 1)
            && (arrives ==> |q.late| >= if |p.late| < QUEUE_CAP then |p.late| + 1 else QUEUE_CAP)
            && (!op.Remove? && !arrives ==> q == p)
  {
    hide Refused, FindId;
  }

  /** As many later events are cleared unseen as were accepted, up to 64, unless removals took
      them out. */
  lemma {:induction false} AcceptedAreCleared(h: History, ops: seq<Op>)
    requires Whole(h) && |Queue(h)| <= QUEUE_CAP
    ensures |h.arrivals| <= |Run(h, ops).arrivals|
    ensures var (p, n) := (PartsOf(Run(h, ops), |h.arrivals|), |Accepted(h, ops)|);
            && |p.early| + |p.late| <= 64
            && |p.late| >= (if n < 64 then n else 64) - Removals(ops)
  {
    var n := |h.arrivals|;
    if ops == [] {
      PartsAreAll(h, n);
    } else {
      var init := ops[..|ops| - 1];
      AcceptedAreCleared(h, init);
      StepParts(Run(h, init), n, Last(ops));
      StepLate(PartsOf(Run(h, init), n), Run(h, init).log, Last(ops));
      hide PartsOf, Step, NextParts, Arrives;
    }
  }

  lemma NewestGrows(s: seq<Event>, ev: Event)
    ensures Newest(s + [ev]) == (if |s| < QUEUE_CAP then s else Newest(s)[1..]) + [ev]
  {
  }

  predicate CutToNewest(p: Parts, snapshot: seq<Event>, accepted: seq<Event>) {
    p.early + p.late == Newest(snapshot + accepted) && p.late == Newest(accepted)
  }

  /** Without removals: the queue at the clearing is the newest 64 of the snapshot and the
      accepted events, and the newest 64 of those are cleared unseen. */
  lemma NewestAreCleared(h: History, ops: seq<Op>)
    requires Whole(h) && |Queue(h)| <= QUEUE_CAP && Removals(ops) == 0
    ensures |h.arrivals| <= |Run(h, ops).arrivals|
    ensures Queue(Run(h, ops)) == Newest(Queue(h) + Accepted(h, ops))
    ensures PartsOf(Run(h, ops), |h.arrivals|).late == Newest(Accepted(h, ops))
  {
    hide Run, Queue, PartsOf, Accepted, Newest;
    NewestParts(h, ops);
    PartsAreAll(Run(h, ops), |h.arrivals|);
  }

  lemma {:induction false} NewestParts(h: History, ops: seq<Op>)
    requires Whole(h) && |Queue(h)| <= QUEUE_CAP && Removals(ops) == 0
    ensures |h.arrivals| <= |Run(h, ops).arrivals|
    ensures CutToNewest(PartsOf(Run(h, ops), |h.arrivals|), Queue(h), Accepted(h, ops))
  {
    hide PartsOf, Step, Queue, CutToNewest, Arrives, NextParts;
    var n := |h.arrivals|;
    if ops == [] {
      AllEarly(h);
    } else {
      var (init, op) := (ops[..|ops| - 1], Last(ops));
      NewestParts(h, init);
      StepParts(Run(h, init), n, op);
      NextNewest(PartsOf(Run(h, init), n), Run(h, init).log, op, Queue(h), Accepted(h, init));
    }
  }

  lemma AllEarly(h: History)
    requires Whole(h) && |Queue(h)| <= QUEUE_CAP
    ensures CutToNewest(PartsOf(h, |h.arrivals|), Queue(h), [])
  {
    hide PendingOf;
    PartsAreAll(h, |h.arrivals|);
    NonePending([], []);
    assert h.arrivals[|h.arrivals|..] == [] && h.fate[|h.arrivals|..] == [];
    assert Queue(h) + [] == Queue(h);
  }

  lemma NextNewest(p: Parts, log: seq<string>, op: Op, snapshot: seq<Event>, accepted: seq<Event>)
    requires CutToNewest(p, snapshot, accepted) && !op.Remove?
    ensures CutToNewest(NextParts(p, log, op), snapshot, accepted + (if Arrives(log, op) then [op.event] else []))
  {
    hide Newest, Arriving;
    if Arrives(log, op) {
      NextArriving(p, log, op);
      ArrivingNewest(p, snapshot, accepted, op.event);
    } else {
      NextStaying(p, log, op);
      assert accepted + [] == accepted;
    }
  }

  lemma NextArriving(p: Parts, log: seq<string>, op: Op)
    requires Arrives(log, op)
    ensures NextParts(p, log, op) == Arriving(p, op.event)
  {
  }

  lemma NextStaying(p: Parts, log: seq<string>, op: Op)
    requires !Arrives(log, op) && !op.Remove?
    ensures NextParts(p, log, op) == p
  {
  }

  lemma ArrivingNewest(p: Parts, snapshot: seq<Event>, accepted: seq<Event>, ev: Event)
    requires p.early + p.late == Newest(snapshot + accepted) && p.late == Newest(accepted)
    ensures Arriving(p, ev).early + Arriving(p, ev).late == Newest(snapshot + (accepted + [ev]))
    ensures Arriving(p, ev).late == Newest(accepted + [ev])
  {
    NewestGrows(snapshot + accepted, ev);
    NewestGrows(accepted, ev);
    assert snapshot + (accepted + [ev]) == snapshot + accepted + [ev];
    assert |p.early| + |p.late| == |p.early + p.late|;
    if |p.early| + |p.late| >= QUEUE_CAP {
      FirstTaken(p);
      assert Arriving(p, ev).early + Arriving(p, ev).late == (p.early + p.late)[1..] + [ev];
    } else {
      assert p.early + (p.late + [ev]) == (p.early + p.late) + [ev];
    }
  }

  lemma FirstTaken(p: Parts)
    requires |p.early| + |p.late| > 0
    ensures Taken(p, 0) == if p.early != [] then Parts(p.early[1..], p.late) else Parts([], p.late[1..])
    ensures Taken(p, 0).early + Taken(p, 0).late == (p.early + p.late)[1..]
  {
    hide Without;
    if p.early != [] {
      WithoutHead(p.early);
      assert (p.early + p.late)[1..] == p.early[1..] + p.late;
    } else {
      WithoutHead(p.late);
      assert p.early + p.late == p.late && [] + p.late[1..] == p.late[1..];
    }
  }

  lemma WithoutHead<T>(s: seq<T>)
    requires s != []
    ensures Without(s, 0) == s[1..]
  {
    assert s[..0] == [];
  }

  /** So, without removals, nothing unseen is cleared exactly when no operation in between
      echoes an event or enqueues one whose id is not remembered. */
  lemma NothingUnseenIsCleared(h: History, ops: seq<Op>)
    requires Whole(h) && |Queue(h)| <= QUEUE_CAP && Removals(ops) == 0
    ensures |h.arrivals| <= |Run(h, ops).arrivals|
    ensures PartsOf(Run(h, ops), |h.arrivals|).late == [] <==>
            forall k :: 0 <= k < |ops| ==> !Arrives(Run(h, ops[..k]).log, ops[k])
  {
    NewestAreCleared(h, ops);
    NothingAccepted(h, ops);
  }

  lemma {:induction false} NothingAccepted(h: History, ops: seq<Op>)
    requires Whole(h)
    ensures Accepted(h, ops) == [] <==> forall k :: 0 <= k < |ops| ==> !Arrives(Run(h, ops[..k]).log, ops[k])
  {
    hide Run, Arrives;
    if ops != [] {
      var init := ops[..|ops| - 1];
      NothingAccepted(h, init);
      assert forall k :: 0 <= k < |init| ==> init[..k] == ops[..k] && init[k] == ops[k];
    }
  }

  /** The operation takes a later arrival out: a removal that finds its id nowhere in front, or
      an arrival that evicts it. */
  predicate TakesLate(p: Parts, log: seq<string>, op: Op) {
    if op.Remove? then op.id != "" && FindId(p.early + p.late, op.id) >= |p.early|
    else Arrives(log, op) && p.early == [] && |p.late| >= QUEUE_CAP
  }

  function LateTaken(h: History, ops: seq<Op>): nat
    requires Whole(h)
  {
    if ops == [] then 0
    else
      var (init, n) := (ops[..|ops| - 1], |h.arrivals|);
      var r := Run(h, init);
      RunContinues(h, init);
      LateTaken(h, init) + (if TakesLate(PartsOf(r, n), r.log, Last(ops)) then 1 else 0)
  }

  lemma LateStep(p: Parts, log: seq<string>, op: Op)
    ensures |NextParts(p, log, op).late| + (if TakesLate(p, log, op) then 1 else 0)
         == |p.late| + (if Arrives(log, op) then 1 else 0)
  {
    hide Refused;
  }

  /** Over every run, with removals or without: each accepted event is taken out again or
      cleared unseen, so nothing unseen is cleared if and only if as many later arrivals were
      taken out as were accepted. */
  lemma {:induction false} AcceptedAreAccounted(h: History, ops: seq<Op>)
    requires Whole(h)
    ensures |h.arrivals| <= |Run(h, ops).arrivals|
    ensures var late := PartsOf(Run(h, ops), |h.arrivals|).late;
            |late| + LateTaken(h, ops) == |Accepted(h, ops)| && (late == [] <==> LateTaken(h, ops) == |Accepted(h, ops)|)
  {
    var n := |h.arrivals|;
    RunContinues(h, ops);
    if ops == [] {
      NonePending([], []);
      assert h.arrivals[n..] == [] && h.fate[n..] == [];
    } else {
      var (init, op) := (ops[..|ops| - 1], ops[|ops| - 1]);
      AcceptedAreAccounted(h, init);
      StepParts(Run(h, init), n, op);
      LateStep(PartsOf(Run(h, init), n), Run(h, init).log, op);
      hide PartsOf, Step, NextParts, Arrives, TakesLate;
    }
  }

  /** An event that is cleared without having been in the snapshot. */
  lemma UnseenIsCleared(seen: Event, unseen: Event)
    requires seen.id != unseen.id
    ensures var h := History([seen], [Pending], [seen.id]);
            Queue(h) == [seen] && Queue(Run(h, [Enqueue(unseen)])) == [seen, unseen]
            && PartsOf(Run(h, [Enqueue(unseen)]), 1) == Parts([seen], [unseen])
  {
    var h := History([seen], [Pending], [seen.id]);
    var ops := [Enqueue(unseen)];
    assert ops[..0] == [] && Run(h, ops) == Step(h, ops[0]);
    assert h.arrivals[..1] == [seen] && h.fate[..1] == [Pending] && h.arrivals[1..] == [] && h.fate[1..] == [];
    assert PendingOf([seen], [Pending]) == [seen] && PendingOf([], []) == [];
    assert PartsOf(h, 1) == Parts([seen], []);
    hide PendingOf, PartsOf;
    PartsAreAll(h, 1);
    StepParts(h, 1, ops[0]);
    PartsAreAll(Run(h, ops), 1);
  }

  // ----- the queue -----

  class WorldEventQueue {
    var queue: seq<Event>
    var seen: set<string>
    var seenFIFO: seq<string>
    ghost var log: seq<string>        // ids accepted since the last Stop
    ghost var arrivals: seq<Event>    // every event enqueued or echoed
    ghost var fate: seq<Fate>         // and what became of it

    ghost predicate Valid()
      reads this
    {
      && Remembers(seen, seenFIFO, log)
      && |fate| == |arrivals| && queue == PendingOf(arrivals, fate) && |queue| <= QUEUE_CAP
    }

    ghost function Past(): History
      reads this
    {
      History(arrivals, fate, log)
    }

    /** Arrivals and fates only grow, and a settled fate is final. */
    twostate predicate Accounted()
      reads this
    {
      && |old(fate)| <= |fate| && old(arrivals) <= arrivals && |old(fate)| == |old(arrivals)|
      && forall t :: 0 <= t < |old(fate)| && !old(fate)[t].Pending? ==> fate[t] == old(fate)[t]
    }

    constructor ()
      ensures Valid() && queue == [] && log == [] && arrivals == []
    {
      queue, seen, seenFIFO, log, arrivals, fate := [], {}, [], [], [], [];
    }

    /** markWorldEventSeenLocked. */
    method MarkSeen(id: string) returns (isNew: bool)
      requires Valid()
      modifies this`seen, this`seenFIFO, this`log
      ensures Valid()
      ensures isNew <==> id == "" || id !in Window(old(log))
      ensures Past() == Step(old(Past()), Op.MarkSeen(id))
    {
      hide PendingOf, Window, Admissible;
      if id == "" {
        return true;
      }
      if id in seen {
        return false;
      }
      RemembersNext(seen, seenFIFO, log, id);
      assert id !in Window(log);
      hide Remembers;
      seen := seen + {id};
      seenFIFO := seenFIFO + [id];
      if |seenFIFO| > SEEN_CAP {
        var evict := seenFIFO[0];
        seenFIFO := seenFIFO[1..];
        seen := seen - {evict};
        assert seenFIFO == old(seenFIFO)[1..] + [id];
      }
      log := log + [id];
      return true;
    }

    ghost method Settle(k: nat, f: Fate)
      requires |fate| == |arrivals| && k < |PendingOf(arrivals, fate)| && !f.Pending?
      modifies this`fate
      ensures Accounted() && |fate| == |arrivals|
      ensures fate == old(fate)[Tag(arrivals, old(fate), k) := f]
      ensures PendingOf(arrivals, fate) == Without(old(PendingOf(arrivals, fate)), k)
    {
      SettleOne(arrivals, fate, k, f);
      fate := fate[Tag(arrivals, fate, k) := f];
    }

    /** EchoWorldEvent: append without consulting the window, dropping the oldest at capacity. */
    method Echo(ev: Event)
      requires Valid()
      modifies this`queue, this`arrivals, this`fate
      ensures Valid() && Accounted()
      ensures Past() == Step(old(Past()), Op.Echo(ev))
      ensures queue == (if |old(queue)| < QUEUE_CAP then old(queue) else old(queue)[1..]) + [ev]
    {
      hide Remembers, PendingOf, Tag;
      if |queue| >= QUEUE_CAP {
        Settle(0, Evicted);
        queue := queue[1..];
      }
      PendingOne(arrivals, fate, ev);
      queue := queue + [ev];
      arrivals, fate := arrivals + [ev], fate + [Pending];
    }

    /** EnqueueWorldEvent: refused exactly when the id is in the window. */
    method Enqueue(ev: Event) returns (r: EnqueueResult)
      requires Valid()
      modifies this
      ensures Valid() && Accounted()
      ensures Past() == Step(old(Past()), Op.Enqueue(ev))
      ensures r.EnqueueDuplicate? <==> ev.id != "" && ev.id in Window(old(log))
      ensures r.EnqueueDuplicate? ==> queue == old(queue)
      ensures r.EnqueueOK? ==> queue == old(queue) + [ev]
      ensures r.EnqueueEvictedOldest? ==> |old(queue)| == QUEUE_CAP && queue == old(queue)[1..] + [ev]
    {
      hide PendingOf, Window;
      var isNew := MarkSeen(ev.id);
      if !isNew {
        return EnqueueDuplicate;
      }
      var full := |queue| >= QUEUE_CAP;
      Echo(ev);
      return if full then EnqueueEvictedOldest else EnqueueOK;
    }

    ghost method SettleRest(f: Fate)
      requires |fate| == |arrivals| && !f.Pending?
      modifies this`fate
      ensures Accounted() && |fate| == |arrivals| && PendingOf(arrivals, fate) == [] && fate == SettleAll(old(fate), f)
    {
      fate := SettleAll(fate, f);
      NonePending(arrivals, fate);
    }

    /** DrainWorldEvents: everything pending, in arrival order. */
    method Drain() returns (events: seq<Event>)
      requires Valid()
      modifies this`queue, this`fate
      ensures Valid() && Accounted() && events == old(queue) && queue == []
      ensures fate == SettleAll(old(fate), HandedOver) && arrivals == old(arrivals)
    {
      hide PendingOf, Window;
      events := queue;
      queue := [];
      SettleRest(HandedOver);
    }

    /** ClearWorldEvents. */
    method Clear()
      requires Valid()
      modifies this`queue, this`fate
      ensures Valid() && Accounted() && queue == []
      ensures fate == SettleAll(old(fate), Cleared) && arrivals == old(arrivals)
    {
      hide PendingOf, Window;
      queue := [];
      SettleRest(Cleared);
    }

    /** RemoveQueuedWorldEvent: the first pending event with the id; the window is untouched. */
    method Remove(id: string) returns (found: bool)
      requires Valid()
      modifies this`queue, this`fate
      ensures Valid() && Accounted()
      ensures Past() == Step(old(Past()), Op.Remove(id))
      ensures found <==> id != "" && FindId(old(queue), id) >= 0
      ensures !found ==> queue == old(queue)
      ensures found ==> queue == Without(old(queue), FindId(old(queue), id))
    {
      hide PendingOf, Window;
      if id == "" {
        return false;
      }
      for i := 0 to |queue|
        invariant queue == old(queue) && fate == old(fate) && Valid() && arrivals == old(arrivals)
        invariant forall k :: 0 <= k < i ==> queue[k].id != id
      {
        if queue[i].id == id {
          assert FindId(queue, id) == i;
          Settle(i, Removed);
          queue := queue[..i] + queue[i + 1..];
          return true;
        }
      }
      return false;
    }

    /** Stop: the agent went offline; queue and window start over. */
    method Stop()
      requires Valid()
      modifies this
      ensures Valid() && Accounted() && queue == [] && log == []
      ensures fate == SettleAll(old(fate), Cleared) && arrivals == old(arrivals)
    {
      Clear();
      seen, seenFIFO, log := {}, [], [];
    }
  }
}
