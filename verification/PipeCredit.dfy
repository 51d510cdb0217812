/** Flow control: the high watermark bounds the unread messages, and a writer it
    stopped is always going to be started again. */
module PipeCredit {
  import opened Basics
  import opened Fifo
  import opened PipeEndpoint
  import opened PipePair
  import opened PipeFlow

  /** How many messages counted by the watermarks a sequence of items finishes. */
  function CountedIn(items: seq<Item>): nat {
    if items == [] then 0 else (if items[0].Counted() then 1 else 0) + CountedIn(items[1..])
  }

  predicate NoCredentials(items: seq<Item>) {
    forall i :: 0 <= i < |items| && items[i].Msg? ==> !items[i].credential
  }

  lemma {:induction false} CountedAppend(a: seq<Item>, b: seq<Item>)
    ensures CountedIn(a + b) == CountedIn(a) + CountedIn(b)
  {
    if a == [] {
      assert a + b == b;
    } else {
      assert (a + b)[1..] == a[1..] + b && (a + b)[0] == a[0];
      CountedAppend(a[1..], b);
    }
  }

  lemma {:induction false} UncountedTail(items: seq<Item>, n: nat)
    requires n <= |items| && forall i :: n <= i < |items| ==> !items[i].Counted()
    ensures CountedIn(items[..n]) == CountedIn(items)
    decreases |items|
  {
    if |items| == n {
      assert items[..n] == items;
    } else {
      var init := items[..|items| - 1];
      assert items == init + [items[|items| - 1]];
      assert items[..n] == init[..n];
      UncountedTail(init, n);
      CountedAppend(init, [items[|items| - 1]]);
    }
  }

  /** The newest read count the writer knows of or is about to learn. */
  function LastCredit(known: int, cs: seq<Command>): int
    decreases |cs|
  {
    if cs == [] then known
    else LastCredit(if cs[0].ActivateWrite? then cs[0].msgsRead else known, cs[1..])
  }

  /** Credit messages never go backwards. */
  predicate Rising(known: int, cs: seq<Command>)
    decreases |cs|
  {
    cs == [] ||
    if cs[0].ActivateWrite? then known <= cs[0].msgsRead && Rising(cs[0].msgsRead, cs[1..])
    else Rising(known, cs[1..])
  }

  lemma {:induction false} CreditAppend(known: int, cs: seq<Command>, c: Command)
    ensures LastCredit(known, cs + [c]) == if c.ActivateWrite? then c.msgsRead else LastCredit(known, cs)
    ensures Rising(known, cs) && (c.ActivateWrite? ==> LastCredit(known, cs) <= c.msgsRead) ==> Rising(known, cs + [c])
    decreases |cs|
  {
    if cs == [] {
      assert (cs + [c])[1..] == [];
    } else {
      assert (cs + [c])[1..] == cs[1..] + [c];
      CreditAppend(if cs[0].ActivateWrite? then cs[0].msgsRead else known, cs[1..], c);
    }
  }

  lemma {:induction false} RisingBelowLast(known: int, cs: seq<Command>)
    requires Rising(known, cs)
    ensures known <= LastCredit(known, cs)
    ensures LastCredit(known, cs) > known ==> exists c :: c in cs && c.ActivateWrite? && c.msgsRead > known
    decreases |cs|
  {
    if cs == [] {
    } else {
      var k := if cs[0].ActivateWrite? then cs[0].msgsRead else known;
      RisingBelowLast(k, cs[1..]);
      if LastCredit(known, cs) > known {
        if k > known {
          assert cs[0] in cs;
        } else {
          var c :| c in cs[1..] && c.ActivateWrite? && c.msgsRead > k;
          assert c in cs;
        }
      }
    }
  }

  function RoundDown(m: int, lwm: int): int
    requires lwm > 0
  {
    m - m % lwm
  }

  lemma RoundDownStep(m: int, lwm: int)
    requires lwm > 0
    ensures (m + 1) % lwm == 0 ==> RoundDown(m + 1, lwm) == m + 1
    ensures (m + 1) % lwm != 0 ==> RoundDown(m + 1, lwm) == RoundDown(m, lwm)
    ensures m - lwm < RoundDown(m, lwm) <= m
  {
    var k, d := m % lwm, m / lwm;
    assert m == d * lwm + k;
    if k + 1 < lwm {
      DivModUnique(m + 1, lwm, d, k + 1);
    } else {
      assert m + 1 == (d + 1) * lwm;
      DivModUnique(m + 1, lwm, d + 1, 0);
    }
  }

  lemma MulAtLeast(a: int, n: int)
    requires a >= 1 && n > 0
    ensures a * n >= n
  {
    assert (a - 1) * n >= 0;
  }

  lemma DivModUnique(m: int, n: int, d: int, k: int)
    requires n > 0 && m == d * n + k && 0 <= k < n
    ensures m % n == k
  {
    var d', k' := m / n, m % n;
    assert m == d' * n + k' && 0 <= k' < n;
    var e := d - d';
    assert e * n == d * n - d' * n;
    if e >= 1 {
      MulAtLeast(e, n);
    } else if e <= -1 {
      MulAtLeast(-e, n);
    } else {
      assert d == d';
    }
  }

  /** The invariant of one direction: writer `w`, reader `r`, the queue between them, and the commands
      in flight back to the writer.  The counts differ by the messages in the queue and by `drift`. */
  ghost predicate DriftOk(w: Endpoint, r: Endpoint, q: Queue<Item>, toW: seq<Command>, drift: int) {
    && w.hwm > 0 && r.lwm == ComputeLwm(w.hwm)
    && w.msgsWritten == r.msgsRead + CountedIn(q.items) + drift
    && Rising(w.peersMsgsRead, toW)
    && LastCredit(w.peersMsgsRead, toW) == RoundDown(r.msgsRead, r.lwm)
    && w.msgsWritten - w.peersMsgsRead <= w.hwm
    && (w.state.Active? && !w.outActive ==> !CheckHwm(w))
  }

  /** Without credentials and hiccups there is no drift. */
  ghost predicate CreditOk(w: Endpoint, r: Endpoint, q: Queue<Item>, toW: seq<Command>) {
    NoCredentials(q.items) && DriftOk(w, r, q, toW, 0)
  }

  /** The writer is never behind what it knows to be read. */
  lemma NeverBehind(w: Endpoint, r: Endpoint, q: Queue<Item>, toW: seq<Command>)
    requires CreditOk(w, r, q, toW)
    ensures w.peersMsgsRead <= LastCredit(w.peersMsgsRead, toW) <= r.msgsRead <= w.msgsWritten
    ensures toW != [] && toW[0].ActivateWrite? ==> toW[0].msgsRead <= w.msgsWritten
  {
    RisingBelowLast(w.peersMsgsRead, toW);
    if toW != [] && toW[0].ActivateWrite? {
      RisingBelowLast(toW[0].msgsRead, toW[1..]);
    }
    RoundDownStep(r.msgsRead, r.lwm);
  }

  /** The bound: never more unread messages than the high watermark allows. */
  lemma UnreadWithinWatermark(w: Endpoint, r: Endpoint, q: Queue<Item>, toW: seq<Command>)
    requires CreditOk(w, r, q, toW)
    ensures CountedIn(q.items) <= w.hwm
  {
    RisingBelowLast(w.peersMsgsRead, toW);
    RoundDownStep(r.msgsRead, r.lwm);
  }

  /** A newer read count than the one the writer knows is on its way. */
  ghost predicate NewsComing(w: Endpoint, toW: seq<Command>) {
    exists c :: c in toW && c.ActivateWrite? && c.msgsRead > w.peersMsgsRead
  }

  /** The reader reports as soon as it has read half of the watermark, rounded up: it is never that far
      beyond its last report, and what it has read beyond the count that the writer knows is then
      on its way. */
  lemma ReportsEveryHalf(w: Endpoint, r: Endpoint, q: Queue<Item>, toW: seq<Command>, d: int)
    requires DriftOk(w, r, q, toW, d)
    ensures 0 <= r.msgsRead - LastCredit(w.peersMsgsRead, toW) < (w.hwm + 1) / 2
    ensures r.msgsRead - w.peersMsgsRead >= (w.hwm + 1) / 2 ==> NewsComing(w, toW)
  {
    RisingBelowLast(w.peersMsgsRead, toW);
    RoundDownStep(r.msgsRead, r.lwm);
  }

  /** A writer stopped by the watermark has more than half of it unread ahead, or a newer read count is
      on its way to it. */
  lemma StoppedWriterIsNotStranded(w: Endpoint, r: Endpoint, q: Queue<Item>, toW: seq<Command>)
    requires CreditOk(w, r, q, toW) && w.state.Active? && !w.outActive
    ensures CountedIn(q.items) > w.hwm / 2 || NewsComing(w, toW)
  {
    NeverBehind(w, r, q, toW);
    ReportsEveryHalf(w, r, q, toW, 0);
  }

  // -------------------------------------------------------------- the writer

  lemma WriteCredit(l: Local, x: Item, r: Endpoint, toW: seq<Command>, d: int)
    requires Ready(l) && l.outQ.Some? && DriftOk(l.e, r, l.outQ.value, toW, d) && x.Msg?
    ensures DriftOk(PipeEndpoint.Write(l, x).0.e, r, PipeEndpoint.Write(l, x).0.outQ.value, toW, d)
  {
    CountedAppend(l.outQ.value.items, [x]);
  }

  lemma RollbackCredit(w: Endpoint, w': Endpoint, q: Queue<Item>, r: Endpoint, toW: seq<Command>, d: int)
    requires q.Valid() && Unfinished(q) && DriftOk(w, r, q, toW, d)
    requires SameCounts(w, w')
    ensures DriftOk(w', r, Fifo.Rollback(q), toW, d)
  {
    UncountedTail(q.items, q.complete);
  }

  /** Neither counters nor watermarks changed, and the outbound flow was not
      stopped while the endpoint is active. */
  predicate SameCounts(e: Endpoint, e': Endpoint) {
    && e'.hwm == e.hwm && e'.lwm == e.lwm
    && e'.msgsRead == e.msgsRead && e'.msgsWritten == e.msgsWritten && e'.peersMsgsRead == e.peersMsgsRead
    && (e'.state.Active? ==> e.state.Active? && e'.outActive == e.outActive)
  }

  lemma CloseCredit(l: Local, e: Endpoint, r: Endpoint, toW: seq<Command>, d: int)
    requires l.outQ.Some? && l.Valid() && Unfinished(l.outQ.value) && DriftOk(e, r, l.outQ.value, toW, d)
    requires SameCounts(e, l.e) && !l.e.state.Active? && !l.e.state.TermAckSent?
    ensures CloseOutbound(l).outQ.Some? && DriftOk(CloseOutbound(l).e, r, CloseOutbound(l).outQ.value, toW, d)
    ensures CloseOutbound(l).outQ.value.items == Fifo.Rollback(l.outQ.value).items + [Delimiter]
  {
    var q := l.outQ.value;
    CloseShape(l);
    RollbackCredit(e, l.e, q, r, toW, d);
    CountedAppend(Fifo.Rollback(q).items, [Delimiter]);
    assert ClosedQueue(q).0.items == Fifo.Rollback(q).items + [Delimiter];
  }

  lemma TerminateCredit(l: Local, delay: bool, r: Endpoint, toW: seq<Command>, q: Queue<Item>, d: int)
    requires Ready(l) && (l.outQ.Some? ==> q == l.outQ.value) && DriftOk(l.e, r, q, toW, d)
    ensures DriftOk(Terminate(l, delay).e, r, OutQueue(Terminate(l, delay), q), toW, d)
    ensures NoCredentials(q.items) ==> NoCredentials(OutQueue(Terminate(l, delay), q).items)
  {
    var l1 := l.(e := l.e.(delay := delay));
    match l.e.state
    case TermReqSent1 =>
    case TermReqSent2 =>
    case TermAckSent =>
    case WaitingForDelimiter => if delay { CloseCredit(l1, l.e, r, toW, d); }
    case _ => CloseCredit(PipeEndpoint.Send(l1.(e := l1.e.(state := TermReqSent1)), PipeTerm), l.e, r, toW, d);
  }

  /** Calls whose writes carry no credentials. */
  predicate PlainCall(a: Action) {
    !a.DoHiccup? && !a.Deliver? && (a.DoWrite? ==> a.x.Msg? && !a.x.credential)
  }

  lemma WriterCredit(l: Local, a: Action, r: Endpoint, toW: seq<Command>, q: Queue<Item>, d: int)
    requires Ready(l) && (l.outQ.Some? ==> q == l.outQ.value) && DriftOk(l.e, r, q, toW, d)
    requires !a.DoHiccup? && !a.Deliver? && (a.DoWrite? ==> a.x.Msg?)
    ensures DriftOk(Call(l, a).e, r, OutQueue(Call(l, a), q), toW, d)
    ensures NoCredentials(q.items) && PlainCall(a) ==> NoCredentials(OutQueue(Call(l, a), q).items)
  {
    match a
    case DoCheckRead => CheckReadCounts(l);
    case DoRead => if Reading(l.e) { ReadMessageCounts(l); }
    case DoCheckWrite =>
    case DoWrite(x) => WriteCall(l, x, r, toW, q, d);
    case DoRollback => if l.outQ.Some? { RollbackCredit(l.e, Call(l, a).e, q, r, toW, d); }
    case DoFlush =>
    case DoTerminate(delay) => TerminateCredit(l, delay, r, toW, q, d);
    case DoSetNoDelay =>
  }

  lemma WriteCall(l: Local, x: Item, r: Endpoint, toW: seq<Command>, q: Queue<Item>, d: int)
    requires Ready(l) && (l.outQ.Some? ==> q == l.outQ.value) && DriftOk(l.e, r, q, toW, d) && x.Msg?
    ensures var l' := PipeEndpoint.Write(l, x).0;
            && DriftOk(l'.e, r, OutQueue(l', q), toW, d)
            && (NoCredentials(q.items) && !x.credential ==> NoCredentials(OutQueue(l', q).items))
  {
    if l.outQ.Some? {
      WriteCredit(l, x, r, toW, d);
    }
  }

  /** What reading leaves alone on the outbound side. */
  ghost predicate WriteCountsKept(l: Local, l': Local) {
    && l'.e.hwm == l.e.hwm && l'.e.msgsWritten == l.e.msgsWritten && l'.e.peersMsgsRead == l.e.peersMsgsRead
    && (l'.e.state.Active? ==> l.e.state.Active? && l'.e.outActive == l.e.outActive)
    && (l'.outQ == l.outQ || l'.outQ == None)
  }

  lemma CheckReadCounts(l: Local)
    requires Ready(l)
    ensures WriteCountsKept(l, PipeEndpoint.CheckRead(l).0)
  {
  }

  lemma {:induction false} ReadMessageCounts(l: Local)
    requires l.Valid() && Open(l.e)
    ensures WriteCountsKept(l, ReadMessage(l).0)
    decreases |l.inQ.items|
  {
    var (l1, x) := Fetch(l);
    if x.Some? && x.value.Msg? && x.value.credential {
      ReadMessageCounts(l1);
    } else {
      TakenCounts(l1, x);
    }
  }

  lemma TakenCounts(l: Local, x: Option<Item>)
    requires Open(l.e)
    ensures WriteCountsKept(l, Taken(l, x).0)
  {
  }

  // -------------------------------------------------------------- the reader

  lemma UncreditedSend(w: Endpoint, r: Endpoint, r': Endpoint, q: Queue<Item>, q': Queue<Item>, toW: seq<Command>,
                       sent: seq<Command>, d: int)
    requires DriftOk(w, r, q, toW, d) && r'.msgsRead == r.msgsRead && r'.lwm == r.lwm
    requires CountedIn(q'.items) == CountedIn(q.items)
    requires forall i :: 0 <= i < |sent| ==> !sent[i].ActivateWrite?
    ensures DriftOk(w, r', q', toW + sent, d)
    decreases |sent|
  {
    if sent == [] {
      assert toW + sent == toW;
    } else {
      var init := sent[..|sent| - 1];
      UncreditedSend(w, r, r', q, q', toW, init, d);
      assert toW + sent == (toW + init) + [sent[|sent| - 1]];
      CreditAppend(w.peersMsgsRead, toW + init, sent[|sent| - 1]);
    }
  }

  lemma CheckReadCredit(w: Endpoint, l: Local, toW: seq<Command>, d: int)
    requires Ready(l) && DriftOk(w, l.e, l.inQ, toW, d)
    ensures var l' := PipeEndpoint.CheckRead(l).0;
            DriftOk(w, l'.e, l'.inQ, toW + l'.sent, d) && (NoCredentials(l.inQ.items) ==> NoCredentials(l'.inQ.items))
  {
    var l' := PipeEndpoint.CheckRead(l).0;
    UncreditedSend(w, l.e, l'.e, l.inQ, l'.inQ, toW, l'.sent, d);
  }

  lemma CountReadCredit(w: Endpoint, l: Local, x: Item, toW: seq<Command>)
    requires l.sent == [] && l.e.lwm > 0
    requires Rising(w.peersMsgsRead, toW) && LastCredit(w.peersMsgsRead, toW) == RoundDown(l.e.msgsRead, l.e.lwm)
    ensures var l' := CountRead(l, x);
      && Rising(w.peersMsgsRead, toW + l'.sent)
      && LastCredit(w.peersMsgsRead, toW + l'.sent) == RoundDown(l'.e.msgsRead, l'.e.lwm)
      && l'.e.msgsRead == l.e.msgsRead + (if x.Counted() then 1 else 0)
      && l'.e.lwm == l.e.lwm && l'.inQ == l.inQ
  {
    var l' := CountRead(l, x);
    var m := l'.e.msgsRead;
    RoundDownStep(l.e.msgsRead, l.e.lwm);
    assert toW + [] == toW;
    assert [] + [ActivateWrite(m)] == [ActivateWrite(m)];
    CreditAppend(w.peersMsgsRead, toW, ActivateWrite(m));
  }

  /** The credentials that a read skips, and that the writer counted. */
  function Skipped(q: Queue<Item>): nat
    requires q.Valid()
    decreases |q.items|
  {
    if q.published == 0 || !q.items[0].Msg? || !q.items[0].credential then 0
    else (if q.items[0].Counted() then 1 else 0) + Skipped(Fifo.Read(q).0)
  }

  lemma {:induction false} ReadCredit(w: Endpoint, l: Local, toW: seq<Command>, d: int)
    requires l.Valid() && l.sent == [] && Open(l.e) && DriftOk(w, l.e, l.inQ, toW, d)
    ensures var l' := ReadMessage(l).0;
            DriftOk(w, l'.e, l'.inQ, toW + l'.sent, d + Skipped(l.inQ))
    decreases |l.inQ.items|
  {
    var (l1, x) := Fetch(l);
    if x.Some? && x.value.Msg? && x.value.credential {
      ReadCredit(w, l1, toW, d + if x.value.Counted() then 1 else 0);
    } else if x.Some? && x.value.Msg? {
      CountReadCredit(w, l1, x.value, toW);
    } else {
      var l' := Taken(l1, x).0;
      UncreditedSend(w, l.e, l'.e, l.inQ, l'.inQ, toW, l'.sent, d);
    }
  }

  lemma PlainRead(l: Local)
    requires l.Valid() && NoCredentials(l.inQ.items)
    ensures Skipped(l.inQ) == 0 && NoCredentials(ReadMessage(l).0.inQ.items)
  {}

  /** The operation reads nothing and gives no credit. */
  ghost predicate GivesNoCredit(l: Local, l': Local) {
    && l'.e.msgsRead == l.e.msgsRead && l'.e.lwm == l.e.lwm && l'.inQ == l.inQ
    && (forall i :: 0 <= i < |l'.sent| ==> !l'.sent[i].ActivateWrite?)
  }

  lemma FlushGivesNoCredit(l: Local)
    requires forall i :: 0 <= i < |l.sent| ==> !l.sent[i].ActivateWrite?
    ensures GivesNoCredit(l, PipeEndpoint.Flush(l))
  {
  }

  lemma CloseGivesNoCredit(l: Local)
    requires l.Valid() && forall i :: 0 <= i < |l.sent| ==> !l.sent[i].ActivateWrite?
    ensures GivesNoCredit(l, CloseOutbound(l))
  {
    var l1 := l.(e := l.e.(outActive := false));
    if l1.outQ.Some? {
      FlushGivesNoCredit(Put(PipeEndpoint.Rollback(l1), Delimiter, false));
    }
  }

  lemma TerminateGivesNoCredit(l: Local, delay: bool)
    requires Ready(l)
    ensures GivesNoCredit(l, Terminate(l, delay))
  {
    var l1 := l.(e := l.e.(delay := delay));
    match l.e.state
    case TermReqSent1 =>
    case TermReqSent2 =>
    case TermAckSent =>
    case WaitingForDelimiter => CloseGivesNoCredit(if !delay then Acknowledge(l1, TermAckSent) else l1);
    case _ => CloseGivesNoCredit(PipeEndpoint.Send(l1.(e := l1.e.(state := TermReqSent1)), PipeTerm));
  }

  lemma OtherCallsGiveNoCredit(l: Local, a: Action)
    requires Ready(l) && !a.DoRead? && !a.DoCheckRead? && !a.DoHiccup? && !a.Deliver? && (a.DoWrite? ==> a.x.Msg?)
    ensures GivesNoCredit(l, Call(l, a))
  {
    if a.DoTerminate? {
      TerminateGivesNoCredit(l, a.delay);
    } else if a.DoFlush? {
      FlushGivesNoCredit(l);
    }
  }

  /** What a call adds to the drift. */
  function SkippedBy(l: Local, a: Action): nat
    requires l.Valid()
  {
    if a.DoRead? && Reading(l.e) then Skipped(l.inQ) else 0
  }

  lemma ReaderCredit(w: Endpoint, l: Local, a: Action, toW: seq<Command>, d: int)
    requires Ready(l) && DriftOk(w, l.e, l.inQ, toW, d)
    requires !a.DoHiccup? && !a.Deliver? && (a.DoWrite? ==> a.x.Msg?)
    ensures DriftOk(w, Call(l, a).e, Call(l, a).inQ, toW + Call(l, a).sent, d + SkippedBy(l, a))
    ensures NoCredentials(l.inQ.items) ==> SkippedBy(l, a) == 0 && NoCredentials(Call(l, a).inQ.items)
  {
    if a.DoRead? {
      if Reading(l.e) {
        ReadCredit(w, l, toW, d);
        if NoCredentials(l.inQ.items) {
          PlainRead(l);
        }
      } else {
        assert toW + [] == toW;
      }
    } else if a.DoCheckRead? {
      CheckReadCredit(w, l, toW, d);
    } else {
      var l' := Call(l, a);
      OtherCallsGiveNoCredit(l, a);
      UncreditedSend(w, l.e, l'.e, l.inQ, l'.inQ, toW, l'.sent, d);
    }
  }

  // -------------------------------------------------------------- the system

  /** The credit invariant of a direction with a finite watermark. */
  ghost predicate Credited(w: Endpoint, r: Endpoint, store: map<nat, Queue<Item>>, toW: seq<Command>) {
    r.alive && w.hwm > 0 ==> r.inQueue in store && CreditOk(w, r, store[r.inQueue], toW)
  }

  ghost predicate CreditInv(s: Sys) {
    && FlowInv(s) && NoHiccups(s.toMe) && NoHiccups(s.toYou)
    && Credited(s.me, s.you, s.store, s.toMe)
    && Credited(s.you, s.me, s.store, s.toYou)
  }

  /** Without hiccups there is one queue in each direction. */
  lemma OneQueueEachWay(s: Sys)
    requires Inv(s) && NoHiccups(s.toMe)
    ensures s.me.outQueue.Some? ==> s.me.outQueue.value == s.you.inQueue && s.you.alive
    ensures s.me.alive && s.you.alive ==> s.me.inQueue != s.you.inQueue
    ensures s.you.alive ==> s.you.inQueue in s.store
  {
    OneQueue(s);
    QueuesDiffer(s);
    YourQueueIsStored(s);
  }

  lemma CreditInit(hwm0: int, hwm1: int)
    ensures CreditInv(Init(hwm0, hwm1))
  {
    FlowInit(hwm0, hwm1);
  }

  lemma CallStaysCalm(s: Sys, a: Action)
    requires FlowInv(s) && NoHiccups(s.toMe) && NoHiccups(s.toYou) && Enabled(s, a) && PlainCall(a)
    ensures Step(s, a).Next? && FlowInv(Step(s, a).s)
    ensures Attached(s) && Step(s, a) == Commit(s, Call(View(s), a)) && NoHiccups(s.toYou + Call(View(s), a).sent)
  {
    ViewReady(s);
    CallKeeps(s, a);
    CalmStep(s, a);
    CallFlow(s, a);
  }

  lemma CallCredit(s: Sys, a: Action)
    requires CreditInv(s) && Enabled(s, a) && PlainCall(a)
    ensures Step(s, a).Next? && CreditInv(Step(s, a).s)
    ensures Step(s, a).s.me.hwm == s.me.hwm
  {
    CallStaysCalm(s, a);
    ViewReady(s);
    CallEffect(View(s), a);
    OneQueueEachWay(s);
    var l := View(s);
    CallKeepsHwm(l, a);
    CallCredits(s, l, a);
    assert s.(toMe := s.toMe) == s;
    CommitCredit(s, s.toMe, Call(l, a));
  }

  lemma CallCredits(s: Sys, l: Local, a: Action)
    requires Ready(l) && l.e == s.me && PlainCall(a)
    requires s.you.hwm > 0 ==> CreditOk(s.you, s.me, l.inQ, s.toYou)
    requires s.you.alive && s.me.hwm > 0 ==>
               && s.you.inQueue in s.store && CreditOk(s.me, s.you, s.store[s.you.inQueue], s.toMe)
               && (l.outQ.Some? ==> s.store[s.you.inQueue] == l.outQ.value)
    ensures s.you.hwm > 0 ==> CreditOk(s.you, Call(l, a).e, Call(l, a).inQ, s.toYou + Call(l, a).sent)
    ensures s.you.alive && s.me.hwm > 0 ==>
              CreditOk(Call(l, a).e, s.you, OutQueue(Call(l, a), s.store[s.you.inQueue]), s.toMe)
  {
    if s.you.hwm > 0 {
      ReaderCredit(s.you, l, a, s.toYou, 0);
    }
    if s.you.alive && s.me.hwm > 0 {
      WriterCredit(l, a, s.you, s.toMe, s.store[s.you.inQueue], 0);
    }
  }

  lemma {:induction false} ReadKeepsHwm(l: Local)
    requires l.Valid()
    ensures ReadMessage(l).0.e.hwm == l.e.hwm
    decreases |l.inQ.items|
  {
    var (l1, x) := Fetch(l);
    if x.None? || !x.value.Msg? || !x.value.credential {
    } else {
      ReadKeepsHwm(l1);
    }
  }

  lemma CallKeepsHwm(l: Local, a: Action)
    requires Ready(l) && PlainCall(a)
    ensures Call(l, a).e.hwm == l.e.hwm
  {
    if a.DoRead? {
      ReadKeepsHwm(l);
    } else if a.DoTerminate? {
      TerminateKeepsReader(l, a.delay);
    }
  }

  /** Storing the result of an operation stores its credit facts. */
  lemma CommitCredit(s: Sys, rest: seq<Command>, l: Local)
    requires s.me.alive && Attached(s) && Commit(s.(toMe := rest), l).Next? && l.Valid()
    requires FlowInv(Commit(s.(toMe := rest), l).s) && NoHiccups(rest) && NoHiccups(s.toYou + l.sent)
    requires l.e.hwm == s.me.hwm && l.e.inQueue == s.me.inQueue
    requires s.me.outQueue.Some? ==> s.me.outQueue.value == s.you.inQueue
    requires l.e.outQueue == s.me.outQueue || l.e.outQueue == None
    requires s.you.alive ==> s.me.inQueue != s.you.inQueue && s.you.inQueue in s.store
    requires s.you.hwm > 0 ==> CreditOk(s.you, l.e, l.inQ, s.toYou + l.sent)
    requires s.you.alive && s.me.hwm > 0 ==> CreditOk(l.e, s.you, OutQueue(l, s.store[s.you.inQueue]), rest)
    requires s.me.outQueue.Some? ==> s.you.alive
    ensures CreditInv(Commit(s.(toMe := rest), l).s)
  {
    var t := Commit(s.(toMe := rest), l).s;
    assert t.store[s.me.inQueue] == l.inQ;
    assert s.you.alive ==> t.store[s.you.inQueue] == OutQueue(l, s.store[s.you.inQueue]);
  }

  lemma HandleCredit(l: Local, c: Command, you: Endpoint, toMe: seq<Command>, toYou: seq<Command>, q: Queue<Item>)
    requires Ready(l) && !c.Hiccup? && !c.PipeTermAck? && toMe != [] && toMe[0] == c
    requires you.hwm > 0 ==> CreditOk(you, l.e, l.inQ, toYou)
    requires you.alive && l.e.hwm > 0 ==> CreditOk(l.e, you, q, toMe)
    ensures Handle(l, c).e.hwm == l.e.hwm
    ensures you.hwm > 0 ==> CreditOk(you, Handle(l, c).e, Handle(l, c).inQ, toYou + Handle(l, c).sent)
    ensures you.alive && l.e.hwm > 0 ==> CreditOk(Handle(l, c).e, you, q, toMe[1..])
  {
    var l' := Handle(l, c);
    if you.hwm > 0 {
      UncreditedSend(you, l.e, l'.e, l.inQ, l'.inQ, toYou, l'.sent, 0);
    }
  }

  lemma HandleLocalShape(l: Local, c: Command, you: Endpoint, toMe: seq<Command>)
    requires Ready(l) && !c.Hiccup? && !c.PipeTermAck? && toMe != [] && toMe[0] == c && CommandsOk(you, l.e, toMe)
    ensures var l' := Handle(l, c);
      && l'.Valid() && l'.e.inQueue == l.e.inQueue && l'.e.hwm == l.e.hwm
      && ((l'.e.outQueue == l.e.outQueue && l'.outQ == l.outQ) || (l'.e.outQueue == None && l'.outQ == None))
  {
    CommandEffect(l, c, toMe, you);
  }

  lemma DeliverCredit(s: Sys)
    requires CreditInv(s) && s.toMe != [] && !s.toMe[0].PipeTermAck?
    ensures Step(s, Deliver).Next? && CreditInv(Step(s, Deliver).s)
    ensures Step(s, Deliver).s.me.hwm == s.me.hwm
  {
    assert s.toMe[0] in s.toMe;
    HandleFlow(s);
    CalmStep(s, Deliver);
    ReceiverIsAlive(s);
    ViewReady(s);
    OneQueueEachWay(s);
    var c, l := s.toMe[0], View(s);
    DeliverIsHandle(s);
    HandleLocalShape(l, c, s.you, s.toMe);
    var l' := Handle(l, c);
    var q := if s.you.alive then s.store[s.you.inQueue] else Empty();
    HandleCredit(l, c, s.you, s.toMe, s.toYou, q);
    assert s.you.alive ==> OutQueue(l', q) == q;
    CommitCredit(s, s.toMe[1..], l');
  }

  lemma AckCredit(s: Sys)
    requires CreditInv(s) && s.toMe != [] && s.toMe[0].PipeTermAck?
    ensures Step(s, Deliver).Next? && CreditInv(Step(s, Deliver).s)
    ensures Step(s, Deliver).s.me.hwm == s.me.hwm
  {
    AckFlow(s);
    CalmStep(s, Deliver);
    ReceiverIsAlive(s);
    ViewReady(s);
    OneQueueEachWay(s);
    AckArrives(s.me, s.you, s.toMe, s.toYou);
    var l := ProcessPipeTermAck(View(s));
    var t := Step(s, Deliver).s;
    assert t.me == l.e && t.you == s.you && t.toMe == [];
    assert s.you.alive ==> t.store[s.you.inQueue] == s.store[s.you.inQueue];
    assert LastCredit(s.me.peersMsgsRead, s.toMe) == LastCredit(s.me.peersMsgsRead, []) by {
      assert s.toMe[1..] == [];
    }
  }

  predicate PlainAction(a: Action) {
    a.Deliver? || PlainCall(a)
  }

  lemma StepCredit(s: Sys, a: Action)
    requires CreditInv(s) && Enabled(s, a) && PlainAction(a)
    ensures Step(s, a).Next? && CreditInv(Step(s, a).s)
    ensures Step(s, a).s.me.hwm == s.me.hwm
  {
    if !a.Deliver? {
      CallCredit(s, a);
    } else if s.toMe[0].PipeTermAck? {
      AckCredit(s);
    } else {
      DeliverCredit(s);
    }
  }

  lemma CreditSwap(s: Sys)
    requires CreditInv(s)
    ensures CreditInv(Swap(s))
  {
    FlowSwap(s);
  }

  lemma MoveCredit(s: Sys, mine: bool, a: Action)
    requires CreditInv(s) && (PlainAction(a) || !Enabled(if mine then s else Swap(s), a))
    ensures Move(s, mine, a).Next? && CreditInv(Move(s, mine, a).s)
  {
    if mine {
      if Enabled(s, a) {
        StepCredit(s, a);
      }
    } else {
      CreditSwap(s);
      if Enabled(Swap(s), a) {
        StepCredit(Swap(s), a);
        CreditSwap(Step(Swap(s), a).s);
      }
    }
  }

  /** Runs without hiccups in which no written message carries a credential. */
  predicate Plain(trace: seq<(bool, Action)>) {
    forall i :: 0 <= i < |trace| ==> !trace[i].1.DoHiccup? && (trace[i].1.DoWrite? ==> trace[i].1.x.Msg? ==> !trace[i].1.x.credential)
  }

  lemma {:induction false} EveryPlainRunIsCredited(hwm0: int, hwm1: int, trace: seq<(bool, Action)>)
    requires Plain(trace)
    ensures Run(Init(hwm0, hwm1), trace).Next? && CreditInv(Run(Init(hwm0, hwm1), trace).s)
    decreases |trace|
  {
    if trace == [] {
      CreditInit(hwm0, hwm1);
    } else {
      EveryPlainRunIsCredited(hwm0, hwm1, trace[..|trace| - 1]);
      var (mine, a) := Last(trace);
      assert trace[|trace| - 1] == (mine, a);
      MoveCredit(Run(Init(hwm0, hwm1), trace[..|trace| - 1]).s, mine, a);
    }
  }

  /** Flow control in one direction: at most `hwm` messages to a peer that still exists are ever
      unread; a writer stopped by the watermark has more than half of it unread ahead or newer
      credit on its way; and a reader reports every time it has read half of it. */
  ghost predicate WithinWatermark(s: Sys, hwm: int) {
    s.you.alive ==>
      && s.you.inQueue in s.store
      && CountedIn(s.store[s.you.inQueue].items) <= hwm
      && (s.me.state.Active? && !s.me.outActive ==>
            CountedIn(s.store[s.you.inQueue].items) > hwm / 2 || NewsComing(s.me, s.toMe))
      && (s.you.msgsRead - s.me.peersMsgsRead >= (hwm + 1) / 2 ==> NewsComing(s.me, s.toMe))
  }

  /** In every such run flow control holds in each direction that has a watermark. */
  lemma {:induction false} WatermarksHold(hwm0: int, hwm1: int, trace: seq<(bool, Action)>)
    requires Plain(trace)
    ensures Run(Init(hwm0, hwm1), trace).Next?
    ensures hwm0 > 0 ==> WithinWatermark(Run(Init(hwm0, hwm1), trace).s, hwm0)
    ensures hwm1 > 0 ==> WithinWatermark(Swap(Run(Init(hwm0, hwm1), trace).s), hwm1)
  {
    EveryPlainRunIsCredited(hwm0, hwm1, trace);
    HwmIsConstant(hwm0, hwm1, trace);
    var s := Run(Init(hwm0, hwm1), trace).s;
    CreditSwap(s);
    CreditedMeansWithin(s);
    CreditedMeansWithin(Swap(s));
  }

  lemma CreditedMeansWithin(s: Sys)
    requires CreditInv(s)
    ensures s.me.hwm > 0 ==> WithinWatermark(s, s.me.hwm)
  {
    if s.you.alive && s.me.hwm > 0 {
      var q := s.store[s.you.inQueue];
      UnreadWithinWatermark(s.me, s.you, q, s.toMe);
      ReportsEveryHalf(s.me, s.you, q, s.toMe, 0);
      if s.me.state.Active? && !s.me.outActive {
        StoppedWriterIsNotStranded(s.me, s.you, q, s.toMe);
      }
    }
  }

  lemma {:induction false} HwmIsConstant(hwm0: int, hwm1: int, trace: seq<(bool, Action)>)
    requires Plain(trace)
    ensures Run(Init(hwm0, hwm1), trace).Next?
    ensures Run(Init(hwm0, hwm1), trace).s.me.hwm == hwm0 && Run(Init(hwm0, hwm1), trace).s.you.hwm == hwm1
    decreases |trace|
  {
    if trace == [] {
    } else {
      var prefix := trace[..|trace| - 1];
      EveryPlainRunIsCredited(hwm0, hwm1, prefix);
      EveryPlainRunIsCredited(hwm0, hwm1, trace);
      HwmIsConstant(hwm0, hwm1, prefix);
      var (mine, a) := Last(trace);
      assert trace[|trace| - 1] == (mine, a);
      MoveKeepsHwms(Run(Init(hwm0, hwm1), prefix).s, mine, a);
    }
  }

  lemma MoveKeepsHwms(s: Sys, mine: bool, a: Action)
    requires CreditInv(s) && Move(s, mine, a).Next? && (PlainAction(a) || !Enabled(if mine then s else Swap(s), a))
    ensures Move(s, mine, a).s.me.hwm == s.me.hwm && Move(s, mine, a).s.you.hwm == s.you.hwm
  {
    CreditSwap(s);
    var t := if mine then s else Swap(s);
    if Enabled(t, a) {
      StepCredit(t, a);
      StepOnlyAppends(t, a);
    }
  }

  // ------------------------------------------------ the parts of one message

  /** The next write is taken. */
  predicate HasRoom(e: Endpoint) {
    e.state.Active? && e.outActive && CheckHwm(e)
  }

  lemma WriteNeedsRoom(l: Local, x: Item)
    requires Ready(l) && x.Msg?
    ensures PipeEndpoint.Write(l, x).1 <==> HasRoom(l.e)
  {
  }

  lemma CallKeepsRoom(l: Local, a: Action)
    requires Ready(l) && PlainCall(a) && (a.DoWrite? ==> !a.x.Counted()) && (l.e.state.Active? ==> HasRoom(l.e))
    ensures Call(l, a).e.state.Active? ==> HasRoom(Call(l, a).e)
  {
    if a.DoRead? {
      if Reading(l.e) {
        ReadMessageCounts(l);
      }
    } else if a.DoCheckRead? {
      CheckReadCounts(l);
    } else if a.DoTerminate? {
      TerminateKeepsReader(l, a.delay);
      TerminateLeaves(l, a.delay);
    }
  }

  lemma TerminateLeaves(l: Local, delay: bool)
    requires Ready(l)
    ensures !Terminate(l, delay).e.state.Active?
  {
  }

  lemma HandleKeepsRoom(l: Local, c: Command)
    requires !c.Hiccup? && !c.PipeTermAck?
    requires l.e.state.Active? ==>
               HasRoom(l.e) && (c.ActivateWrite? && l.e.hwm > 0 ==> l.e.peersMsgsRead <= c.msgsRead <= l.e.msgsWritten)
    ensures Handle(l, c).e.state.Active? ==> HasRoom(Handle(l, c).e)
  {
  }

  lemma DeliveryKeepsRoom(s: Sys)
    requires CreditInv(s) && s.toMe != [] && (s.me.state.Active? ==> HasRoom(s.me))
    ensures Step(s, Deliver).Next? && (Step(s, Deliver).s.me.state.Active? ==> HasRoom(Step(s, Deliver).s.me))
  {
    assert s.toMe[0] in s.toMe;
    DeliverKeeps(s);
    ReceiverIsAlive(s);
    ViewReady(s);
    if s.toMe[0].PipeTermAck? {
      AckArrives(s.me, s.you, s.toMe, s.toYou);
      AckKeepsState(s);
    } else {
      HandlingKeepsRoom(s);
    }
  }

  lemma HandlingKeepsRoom(s: Sys)
    requires s.me.alive && Attached(s) && s.toMe != [] && !s.toMe[0].PipeTermAck? && !s.toMe[0].Hiccup?
    requires QueuesOk(s.me, s.you, s.toMe) && Credited(s.me, s.you, s.store, s.toMe)
    requires (s.me.outQueue.Some? <==> AcksSent(s.me) == 0) && (s.me.state.Active? ==> HasRoom(s.me)) && Step(s, Deliver).Next?
    ensures Step(s, Deliver).s.me.state.Active? ==> HasRoom(Step(s, Deliver).s.me)
  {
    DeliverIsHandle(s);
    if s.me.state.Active? && s.me.hwm > 0 {
      NeverBehind(s.me, s.you, s.store[s.you.inQueue], s.toMe);
    }
    HandleKeepsRoom(View(s), s.toMe[0]);
  }

  lemma MoveKeepsRoom(s: Sys, mine: bool, a: Action)
    requires CreditInv(s) && Move(s, mine, a).Next? && (PlainAction(a) || !Enabled(if mine then s else Swap(s), a))
    requires mine && a.DoWrite? ==> !a.x.Counted()
    requires s.me.state.Active? ==> HasRoom(s.me)
    ensures Move(s, mine, a).s.me.state.Active? ==> HasRoom(Move(s, mine, a).s.me)
  {
    if !mine {
      MoveShape(s, mine, a);
    } else if Enabled(s, a) {
      if a.Deliver? {
        DeliveryKeepsRoom(s);
      } else {
        ViewReady(s);
        CallingKeepsRoom(s, a);
      }
    }
  }

  lemma CallingKeepsRoom(s: Sys, a: Action)
    requires Enabled(s, a) && s.me.alive && Attached(s) && Ready(View(s)) && PlainCall(a) && Step(s, a).Next?
    requires (a.DoWrite? ==> !a.x.Counted()) && (s.me.state.Active? ==> HasRoom(s.me))
    ensures Step(s, a).s.me.state.Active? ==> HasRoom(Step(s, a).s.me)
  {
    CallKeepsRoom(View(s), a);
  }

  /** An endpoint that took a part of a message takes all the later ones as well, as long as it
      is active: nothing but finishing a message uses up room. */
  lemma {:induction false} LaterPartsAreTaken(s: Sys, trace: seq<(bool, Action)>)
    requires CreditInv(s) && HasRoom(s.me) && Plain(trace)
    requires forall i :: 0 <= i < |trace| && trace[i].0 && trace[i].1.DoWrite? ==> !trace[i].1.x.Counted()
    ensures Run(s, trace).Next? && CreditInv(Run(s, trace).s)
    ensures Run(s, trace).s.me.state.Active? ==> HasRoom(Run(s, trace).s.me)
    decreases |trace|
  {
    if trace == [] {
    } else {
      var prefix := trace[..|trace| - 1];
      LaterPartsAreTaken(s, prefix);
      var t := Run(s, prefix).s;
      var (mine, a) := Last(trace);
      assert trace[|trace| - 1] == (mine, a);
      PlainMoveKeepsRoom(t, mine, a);
    }
  }

  lemma PlainMoveKeepsRoom(s: Sys, mine: bool, a: Action)
    requires CreditInv(s) && (s.me.state.Active? ==> HasRoom(s.me))
    requires !a.DoHiccup? && (a.DoWrite? ==> a.x.Msg? ==> !a.x.credential) && (mine && a.DoWrite? ==> !a.x.Counted())
    ensures Move(s, mine, a).Next? && CreditInv(Move(s, mine, a).s)
    ensures Move(s, mine, a).s.me.state.Active? ==> HasRoom(Move(s, mine, a).s.me)
  {
    MoveCredit(s, mine, a);
    MoveKeepsRoom(s, mine, a);
  }
}
