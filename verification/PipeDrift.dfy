/** Flow control in every run, with hiccups and credentials: how far the counts of the two ends drift
    apart, and what that does to the writer. */
module PipeDrift {
  import opened Basics
  import opened Fifo
  import opened PipeEndpoint
  import opened PipePair
  import opened PipeFlow
  import opened PipeStranding
  import opened PipeCredit

  /** Ends of messages that are taken back when a queue is drained, though they were never counted:
      identities, and the delimiter. */
  function Uncounted(items: seq<Item>): nat {
    if items == [] then 0
    else (if !(items[0].Msg? && items[0].more) && !items[0].Counted() then 1 else 0) + Uncounted(items[1..])
  }

  lemma {:induction false} FinishedCounts(items: seq<Item>)
    ensures Finished(items) == CountedIn(items) + Uncounted(items)
  {
    if items == [] {
    } else {
      FinishedCounts(items[1..]);
    }
  }

  /** The delivery of a hiccup drains the queue of this end. */
  function DrainedBy(s: Sys, a: Action): int {
    if a.Deliver? && s.toMe != [] && s.toMe[0].Hiccup? && s.me.outQueue.Some? && Usable(s.store, s.me.outQueue.value) then
      var q := s.store[s.me.outQueue.value];
      Uncounted(q.items[..q.complete])
    else 0
  }

  /** A read of this end skips credentials. */
  function SkippedIn(s: Sys, a: Action): int {
    if s.me.alive && Attached(s) then SkippedBy(View(s), a) else 0
  }

  /** How a step changes the drift from this end to the other. */
  function StepDrift(s: Sys, mine: bool, a: Action): int {
    if mine then -DrainedBy(s, a) else SkippedIn(Swap(s), a)
  }

  /** The credentials the other end skipped so far, less the identities that this end took back. */
  function Drift(s: Sys, trace: seq<(bool, Action)>): int {
    if trace == [] then 0 else
    var prefix := trace[..|trace| - 1];
    Drift(s, prefix) + match Run(s, prefix) case Next(t) => StepDrift(t, Last(trace).0, Last(trace).1) case Failed(_) => 0
  }

  /** And in the other direction. */
  function DriftBack(s: Sys, trace: seq<(bool, Action)>): int {
    if trace == [] then 0 else
    var prefix := trace[..|trace| - 1];
    DriftBack(s, prefix)
    + match Run(s, prefix) case Next(t) => StepDrift(Swap(t), !Last(trace).0, Last(trace).1) case Failed(_) => 0
  }

  /** As long as this end writes, the counts differ by the messages in its queue and the drift. */
  ghost predicate Accounted(s: Sys, d: int) {
    s.me.outQueue.Some? && s.me.hwm > 0 ==>
      s.me.outQueue.value in s.store && DriftOk(s.me, s.you, s.store[s.me.outQueue.value], s.toMe, d)
  }

  // ---------------------------------------------------------- steps of the writer

  lemma WriterCalls(s: Sys, a: Action, d: int)
    requires Inv(s) && Accounted(s, d) && Enabled(s, a) && !a.DoHiccup? && !a.Deliver?
    ensures Step(s, a).Next? && Accounted(Step(s, a).s, d)
  {
    CallKeeps(s, a);
    ViewReady(s);
    QueuesDiffer(s);
    CallEffect(View(s), a);
    CallKeepsWatermarks(View(s), a);
    if s.me.outQueue.Some? && s.me.hwm > 0 {
      WriterCredit(View(s), a, s.you, s.toMe, s.store[s.me.outQueue.value], d);
    }
    WriterCommits(s, s.toMe, Call(View(s), a), d);
    assert s.(toMe := s.toMe) == s;
  }

  lemma CallKeepsWatermarks(l: Local, a: Action)
    requires Ready(l) && !a.DoHiccup? && !a.Deliver? && (a.DoWrite? ==> a.x.Msg?)
    ensures Call(l, a).e.hwm == l.e.hwm && Call(l, a).e.lwm == l.e.lwm
  {
    if a.DoRead? {
      ReadKeepsWatermarks(l);
    } else if a.DoTerminate? {
      TerminateKeepsReader(l, a.delay);
      TerminateKeepsLwm(l, a.delay);
    }
  }

  lemma TerminateKeepsLwm(l: Local, delay: bool)
    requires l.Valid()
    ensures Terminate(l, delay).e.lwm == l.e.lwm && Terminate(l, delay).e.hwm == l.e.hwm
  {
    var l1 := l.(e := l.e.(delay := delay));
    match l.e.state
    case TermReqSent1 =>
    case TermReqSent2 =>
    case TermAckSent =>
    case WaitingForDelimiter => ClosingKeepsWatermarks(if !delay then Acknowledge(l1, TermAckSent) else l1);
    case _ => ClosingKeepsWatermarks(PipeEndpoint.Send(l1.(e := l1.e.(state := TermReqSent1)), PipeTerm));
  }

  lemma ClosingKeepsWatermarks(l: Local)
    requires l.Valid()
    ensures CloseOutbound(l).e.hwm == l.e.hwm && CloseOutbound(l).e.lwm == l.e.lwm
  {}

  lemma {:induction false} ReadKeepsWatermarks(l: Local)
    requires l.Valid()
    ensures ReadMessage(l).0.e.hwm == l.e.hwm && ReadMessage(l).0.e.lwm == l.e.lwm
    decreases |l.inQ.items|
  {
    var (l1, x) := Fetch(l);
    if x.Some? && x.value.Msg? && x.value.credential {
      ReadKeepsWatermarks(l1);
    } else {
      TakenKeepsWatermarks(l1, x);
    }
  }

  lemma TakenKeepsWatermarks(l: Local, x: Option<Item>)
    ensures Taken(l, x).0.e.hwm == l.e.hwm && Taken(l, x).0.e.lwm == l.e.lwm
  {}

  /** Storing what an operation of the writer did. */
  lemma WriterCommits(s: Sys, rest: seq<Command>, l: Local, d: int)
    requires Attached(s) && Commit(s.(toMe := rest), l).Next? && l.e.inQueue == s.me.inQueue && l.Valid()
    requires l.e.outQueue == s.me.outQueue || l.e.outQueue == None
    requires s.me.outQueue.Some? ==> s.me.outQueue.value != s.me.inQueue
    requires l.e.hwm == s.me.hwm
    requires s.me.outQueue.Some? && s.me.hwm > 0 && l.outQ.Some? ==> DriftOk(l.e, s.you, l.outQ.value, rest, d)
    ensures Accounted(Commit(s.(toMe := rest), l).s, d)
  {}

  lemma WriterRenews(s: Sys, d: int)
    requires Inv(s) && Accounted(s, d) && s.me.alive
    ensures Step(s, DoHiccup).Next? && Accounted(Step(s, DoHiccup).s, d)
  {
    ViewReady(s);
    MyQueuesAreStored(s);
    if s.me.state.Active? {
      ActiveHiccupKeeps(s);
      NewQueueIsFresh(s);
      RenewedAccounted(s, Step(s, DoHiccup).s, d);
    } else {
      IdleHiccupShape(s);
    }
  }

  lemma NewQueueIsFresh(s: Sys)
    requires Inv(s)
    ensures s.nextId !in s.store
  {}

  lemma RenewedAccounted(s: Sys, t: Sys, d: int)
    requires Accounted(s, d) && s.nextId !in s.store && t.me == Hiccuped(s) && t.you == s.you && t.toMe == s.toMe
    requires t.store == s.store[s.nextId := Empty()]
    ensures Accounted(t, d)
  {}

  lemma WriterReceives(s: Sys, d: int)
    requires Inv(s) && Announced(s) && Accounted(s, d) && s.toMe != []
    ensures Step(s, Deliver).Next? && Accounted(Step(s, Deliver).s, d - DrainedBy(s, Deliver))
  {
    DeliverKeeps(s);
    ReceiverIsAlive(s);
    ViewReady(s);
    QueuesDiffer(s);
    if s.toMe[0].PipeTermAck? {
      AckArrives(s.me, s.you, s.toMe, s.toYou);
      WriterEnds(s);
    } else if s.toMe[0].Hiccup? {
      WriterReplugs(s, d);
    } else {
      CommandEffect(View(s), s.toMe[0], s.toMe, s.you);
      DeliverIsHandle(s);
      HandleCounts(View(s), s.toMe[0], s.you, s.toMe, d);
      WriterCommits(s, s.toMe[1..], Handle(View(s), s.toMe[0]), d);
    }
  }

  lemma HandleCounts(l: Local, c: Command, r: Endpoint, toW: seq<Command>, d: int)
    requires Ready(l) && !c.Hiccup? && !c.PipeTermAck? && toW != [] && toW[0] == c
    ensures Handle(l, c).e.hwm == l.e.hwm && Handle(l, c).e.inQueue == l.e.inQueue
    ensures l.outQ.Some? && l.e.hwm > 0 && Handle(l, c).outQ.Some? && DriftOk(l.e, r, l.outQ.value, toW, d)
            ==> DriftOk(Handle(l, c).e, r, Handle(l, c).outQ.value, toW[1..], d)
  {}

  lemma WriterEnds(s: Sys)
    requires s.me.alive && s.toMe != [] && s.toMe[0].PipeTermAck? && Attached(s) && Step(s, Deliver).Next?
    requires s.me.outQueue.Some? <==> s.me.state.TermReqSent1?
    ensures Step(s, Deliver).s.me.outQueue == None
  {}

  lemma WriterReplugs(s: Sys, d: int)
    requires Inv(s) && Announced(s) && Accounted(s, d) && s.toMe != [] && s.toMe[0].Hiccup? && s.me.alive
    ensures Step(s, Deliver).Next? && Accounted(Step(s, Deliver).s, d - DrainedBy(s, Deliver))
  {
    ViewReady(s);
    NewQueueIsStored(s);
    assert s.toMe[0] in s.toMe;
    HiccupDelivered(s);
    assert Hiccups(s.toMe)[0] == s.toMe[0].queue;
    assert s.toMe[0].queue in Hiccups(s.toMe);
    if s.me.hwm > 0 {
      ReplugDrift(View(s), s.toMe[0].queue, s.store[s.toMe[0].queue], s.you, s.toMe, d);
    }
  }

  /** What the old queue held is no longer counted as written, and neither are identities in it. */
  lemma ReplugDrift(l: Local, queue: nat, next: Queue<Item>, r: Endpoint, toW: seq<Command>, d: int)
    requires Ready(l) && l.outQ.Some? && DriftOk(l.e, r, l.outQ.value, toW, d) && next.Valid() && next.items == []
    requires toW != [] && toW[0].Hiccup?
    ensures DriftOk(ProcessHiccup(l, queue, next).e, r, next, toW[1..],
                    d - Uncounted(l.outQ.value.items[..l.outQ.value.complete]))
  {
    var q := l.outQ.value;
    var flushed := Fifo.Flush(q).0;
    assert flushed.items[..flushed.published] == q.items[..q.complete];
    FinishedCounts(q.items[..q.complete]);
    UncountedTail(q.items, q.complete);
  }

  lemma WriterSteps(s: Sys, a: Action, d: int)
    requires Inv(s) && Announced(s) && Accounted(s, d) && Enabled(s, a)
    ensures Step(s, a).Next? && Accounted(Step(s, a).s, d - DrainedBy(s, a))
  {
    if a.Deliver? {
      WriterReceives(s, d);
    } else {
      assert DrainedBy(s, a) == 0;
      if a.DoHiccup? {
        WriterRenews(s, d);
      } else {
        WriterCalls(s, a, d);
      }
    }
  }

  // ---------------------------------------------------------- steps of the reader

  /** The other end writes the queue that this one reads, or one that this one has left. */
  lemma OneOrNone(s: Sys)
    requires Inv(s) && Announced(s) && s.me.alive && s.you.outQueue.Some?
    ensures s.me.inQueue in s.store && s.you.outQueue.value in s.store
    ensures s.you.outQueue.value == s.me.inQueue || s.store[s.me.inQueue].items == []
    ensures s.me.outQueue.Some? ==> s.me.outQueue.value != s.you.outQueue.value
  {
    MyQueuesAreStored(s);
    InvSwap(s);
    MyQueuesAreStored(Swap(s));
    QueuesDiffer(s);
    if s.me.outQueue.Some? {
      OutQueuesDiffer(s);
    }
    if s.you.outQueue.value != s.me.inQueue {
      assert Last(Chain(s.you, s.me, s.toYou)) == s.me.inQueue;
      assert s.me.inQueue in Hiccups(s.toYou);
    }
  }

  lemma OutQueuesDiffer(s: Sys)
    requires Inv(s) && s.me.outQueue.Some? && s.you.outQueue.Some?
    ensures s.me.outQueue.value != s.you.outQueue.value
  {
    var a, b := Chain(s.me, s.you, s.toMe), Chain(s.you, s.me, s.toYou);
    assert a[0] in multiset(a) && b[0] in multiset(b);
    InOne(multiset(a), multiset(b), s.store.Keys, a[0]);
  }

  lemma InOne(a: multiset<nat>, b: multiset<nat>, keys: set<nat>, q: nat)
    requires a + b == multiset(keys) && q in a
    ensures q !in b
  {
    assert (a + b)[q] <= 1;
  }

  lemma ReaderCalls(s: Sys, a: Action, d: int)
    requires Inv(s) && Announced(s) && Accounted(Swap(s), d) && Enabled(s, a) && !a.DoHiccup? && !a.Deliver?
    ensures Step(s, a).Next? && Accounted(Swap(Step(s, a).s), d + SkippedIn(s, a))
  {
    CallKeeps(s, a);
    ViewReady(s);
    StepOnlyAppends(s, a);
    if s.you.outQueue.Some? && s.you.hwm > 0 {
      OneOrNone(s);
      QueuesDiffer(s);
      CallEffect(View(s), a);
      CallKeepsWatermarks(View(s), a);
      ReaderReads(View(s), a, s.you, s.store[s.you.outQueue.value], s.you.outQueue.value == s.me.inQueue, s.toYou, d);
      ReaderCommits(s, a, d);
    }
  }

  /** What a call of the reader does to the count: it reads the queue being written, or nothing. */
  lemma ReaderReads(l: Local, a: Action, w: Endpoint, q: Queue<Item>, same: bool, toW: seq<Command>, d: int)
    requires Ready(l) && !a.DoHiccup? && !a.Deliver? && (a.DoWrite? ==> a.x.Msg?)
    requires DriftOk(w, l.e, q, toW, d) && if same then q == l.inQ else l.inQ.items == []
    ensures DriftOk(w, Call(l, a).e, if same then Call(l, a).inQ else q, toW + Call(l, a).sent, d + SkippedBy(l, a))
  {
    if same {
      ReaderCredit(w, l, a, toW, d);
    } else {
      ReadsNothing(l, a);
      UncreditedSend(w, l.e, Call(l, a).e, q, q, toW, Call(l, a).sent, d);
    }
  }

  lemma ReadsNothing(l: Local, a: Action)
    requires Ready(l) && l.inQ.items == [] && !a.DoHiccup? && !a.Deliver? && (a.DoWrite? ==> a.x.Msg?)
    ensures SkippedBy(l, a) == 0 && Call(l, a).e.msgsRead == l.e.msgsRead && Call(l, a).e.lwm == l.e.lwm
    ensures forall i :: 0 <= i < |Call(l, a).sent| ==> !Call(l, a).sent[i].ActivateWrite?
  {
    if !a.DoRead? && !a.DoCheckRead? {
      OtherCallsGiveNoCredit(l, a);
    }
  }

  lemma ReaderCommits(s: Sys, a: Action, d: int)
    requires s.me.alive && Attached(s) && Enabled(s, a) && !a.DoHiccup? && !a.Deliver? && Step(s, a).Next?
    requires s.you.outQueue.Some? && s.you.hwm > 0 && s.you.outQueue.value in s.store
    requires s.me.outQueue.Some? ==> s.me.outQueue.value != s.you.outQueue.value && s.me.outQueue.value != s.me.inQueue
    requires var l := Call(View(s), a);
      && l.e.inQueue == s.me.inQueue && (l.e.outQueue == s.me.outQueue || l.e.outQueue == None)
      && var same := s.you.outQueue.value == s.me.inQueue;
         DriftOk(s.you, l.e, if same then l.inQ else s.store[s.you.outQueue.value], s.toYou + l.sent, d + SkippedBy(View(s), a))
    ensures Accounted(Swap(Step(s, a).s), d + SkippedIn(s, a))
  {}

  lemma ReaderRenews(s: Sys, d: int)
    requires Inv(s) && Accounted(Swap(s), d) && s.me.alive
    ensures Step(s, DoHiccup).Next? && Accounted(Swap(Step(s, DoHiccup).s), d)
  {
    ViewReady(s);
    if s.me.state.Active? {
      ActiveHiccupKeeps(s);
      NewQueueIsFresh(s);
      RenewedReader(s, Step(s, DoHiccup).s, d);
    } else {
      IdleHiccupShape(s);
    }
  }

  lemma RenewedReader(s: Sys, t: Sys, d: int)
    requires Accounted(Swap(s), d) && s.nextId !in s.store && t.me == Hiccuped(s) && t.you == s.you
    requires t.toYou == s.toYou + [Hiccup(s.nextId)] && t.store == s.store[s.nextId := Empty()]
    ensures Accounted(Swap(t), d)
  {
    CreditAppend(s.you.peersMsgsRead, s.toYou, Hiccup(s.nextId));
  }

  lemma ReaderReceives(s: Sys, d: int)
    requires Inv(s) && Announced(s) && Accounted(Swap(s), d) && s.toMe != []
    ensures Step(s, Deliver).Next? && Accounted(Swap(Step(s, Deliver).s), d)
  {
    DeliverKeeps(s);
    ReceiverIsAlive(s);
    ViewReady(s);
    StepOnlyAppends(s, Deliver);
    if s.you.outQueue.Some? && s.you.hwm > 0 {
      if s.toMe[0].PipeTermAck? {
        AckArrives(s.me, s.you, s.toMe, s.toYou);
      } else if s.toMe[0].Hiccup? {
        OneOrNone(s);
        ReaderReplugs(s, d);
      } else {
        OneOrNone(s);
        DeliverIsHandle(s);
        CommandEffect(View(s), s.toMe[0], s.toMe, s.you);
        ReaderHandles(View(s), s.toMe[0], s.you, s.store[s.you.outQueue.value], s.toYou, d);
        HandlingAccounted(s, d);
      }
    }
  }

  lemma ReaderHandles(l: Local, c: Command, w: Endpoint, q: Queue<Item>, toW: seq<Command>, d: int)
    requires Ready(l) && !c.Hiccup? && !c.PipeTermAck? && DriftOk(w, l.e, q, toW, d)
    ensures DriftOk(w, Handle(l, c).e, q, toW + Handle(l, c).sent, d)
    ensures Handle(l, c).inQ == l.inQ && (Handle(l, c).outQ == l.outQ || Handle(l, c).outQ == None)
    ensures Handle(l, c).e.inQueue == l.e.inQueue
  {
    UncreditedSend(w, l.e, Handle(l, c).e, q, q, toW, Handle(l, c).sent, d);
  }

  lemma HandlingAccounted(s: Sys, d: int)
    requires s.me.alive && Attached(s) && s.toMe != [] && !s.toMe[0].PipeTermAck? && !s.toMe[0].Hiccup?
    requires Step(s, Deliver).Next? && s.you.outQueue.Some? && s.you.outQueue.value in s.store
    requires s.me.outQueue.Some? ==> s.me.outQueue.value != s.you.outQueue.value
    requires var l := Handle(View(s), s.toMe[0]);
      && l.inQ == View(s).inQ && (l.outQ == View(s).outQ || l.outQ == None) && l.e.inQueue == s.me.inQueue
      && (l.e.outQueue == s.me.outQueue || l.e.outQueue == None)
      && DriftOk(s.you, l.e, s.store[s.you.outQueue.value], s.toYou + l.sent, d)
    ensures Accounted(Swap(Step(s, Deliver).s), d)
  {
    DeliverIsHandle(s);
  }

  lemma ReaderReplugs(s: Sys, d: int)
    requires Inv(s) && Accounted(Swap(s), d) && s.toMe != [] && s.toMe[0].Hiccup? && s.me.alive
    requires s.you.outQueue.Some? && s.you.hwm > 0 && s.you.outQueue.value in s.store
    requires s.me.outQueue.Some? ==> s.me.outQueue.value != s.you.outQueue.value
    ensures Step(s, Deliver).Next? && Accounted(Swap(Step(s, Deliver).s), d)
  {
    ViewReady(s);
    NewQueueIsStored(s);
    assert s.toMe[0] in s.toMe;
    ReplugKeepsOther(s, s.you.outQueue.value);
  }

  lemma ReplugKeepsOther(s: Sys, q: nat)
    requires s.me.alive && s.toMe != [] && s.toMe[0].Hiccup? && Attached(s) && s.me.outQueue.Some?
    requires Usable(s.store, s.toMe[0].queue) && q in s.store && q != s.me.outQueue.value
    ensures Step(s, Deliver).Next?
    ensures var t := Step(s, Deliver).s;
            && q in t.store && t.store[q] == s.store[q] && t.you == s.you && t.toYou == s.toYou
            && t.me.msgsRead == s.me.msgsRead && t.me.lwm == s.me.lwm
  {
    HiccupDelivered(s);
  }

  lemma ReaderSteps(s: Sys, a: Action, d: int)
    requires Inv(s) && Announced(s) && Accounted(Swap(s), d) && Enabled(s, a)
    ensures Step(s, a).Next? && Accounted(Swap(Step(s, a).s), d + SkippedIn(s, a))
  {
    if a.Deliver? {
      ReaderReceives(s, d);
    } else if a.DoHiccup? {
      ReaderRenews(s, d);
    } else {
      ReaderCalls(s, a, d);
    }
  }

  // --------------------------------------------------------------- every run

  lemma MyMoveDrifts(s: Sys, a: Action, d: int)
    requires Inv(s) && Announced(s) && Accounted(s, d)
    ensures Move(s, true, a).Next? && Accounted(Move(s, true, a).s, d - DrainedBy(s, a))
  {
    if Enabled(s, a) {
      WriterSteps(s, a, d);
      assert Move(s, true, a) == Step(s, a);
    } else {
      NothingDrained(s, a);
    }
  }

  lemma NothingDrained(s: Sys, a: Action)
    requires !Enabled(s, a)
    ensures DrainedBy(s, a) == 0
  {}

  lemma YourMoveDrifts(s: Sys, a: Action, d: int)
    requires Inv(s) && Announced(s) && Accounted(Swap(s), d)
    ensures Move(s, true, a).Next? && Accounted(Swap(Move(s, true, a).s), d + SkippedIn(s, a))
  {
    if Enabled(s, a) {
      ReaderSteps(s, a, d);
    } else {
      NothingSkipped(s, a);
    }
  }

  lemma NothingSkipped(s: Sys, a: Action)
    requires !Enabled(s, a)
    ensures SkippedIn(s, a) == 0
  {}

  lemma SwapTwice(s: Sys)
    ensures Swap(Swap(s)) == s
  {}

  lemma BothSwap(s: Sys)
    requires Inv(s) && Announced(s)
    ensures Inv(Swap(s)) && Announced(Swap(s))
  {
    InvSwap(s);
  }

  lemma Mirror(s: Sys, a: Action)
    requires Move(Swap(s), true, a).Next?
    ensures Move(s, false, a) == Next(Swap(Move(Swap(s), true, a).s))
    ensures Swap(Move(s, false, a).s) == Move(Swap(s), true, a).s
  {}

  /** In every run the counts of both ends differ by what is in the queue being written and the drift. */
  lemma {:induction false} EveryRunIsAccounted(hwm0: int, hwm1: int, trace: seq<(bool, Action)>)
    ensures Run(Init(hwm0, hwm1), trace).Next?
    ensures Accounted(Run(Init(hwm0, hwm1), trace).s, Drift(Init(hwm0, hwm1), trace))
    ensures Accounted(Swap(Run(Init(hwm0, hwm1), trace).s), DriftBack(Init(hwm0, hwm1), trace))
    decreases |trace|
  {
    if trace == [] {
      StartsAccounted(hwm0, hwm1);
    } else {
      var prefix := trace[..|trace| - 1];
      EveryRunIsAccounted(hwm0, hwm1, prefix);
      EveryRunIsAnnounced(hwm0, hwm1, prefix);
      EveryRunIsSafe(hwm0, hwm1, prefix);
      var s := Run(Init(hwm0, hwm1), prefix).s;
      MoveDrifts(s, Last(trace).0, Last(trace).1, Drift(Init(hwm0, hwm1), prefix));
      MoveDriftsBack(s, Last(trace).0, Last(trace).1, DriftBack(Init(hwm0, hwm1), prefix));
    }
  }

  lemma StartsAccounted(hwm0: int, hwm1: int)
    ensures Accounted(Init(hwm0, hwm1), 0) && Accounted(Swap(Init(hwm0, hwm1)), 0)
  {}

  lemma YourStepDrifts(s: Sys, a: Action, d: int)
    requires Inv(s) && Announced(s) && Accounted(s, d)
    ensures Move(s, false, a).Next? && Accounted(Move(s, false, a).s, d + SkippedIn(Swap(s), a))
  {
    BothSwap(s);
    SwapTwice(s);
    YourMoveDrifts(Swap(s), a, d);
    Mirror(s, a);
  }

  lemma MoveDrifts(s: Sys, mine: bool, a: Action, d: int)
    requires Inv(s) && Announced(s) && Accounted(s, d)
    ensures Move(s, mine, a).Next? && Accounted(Move(s, mine, a).s, d + StepDrift(s, mine, a))
  {
    if mine {
      MyMoveDrifts(s, a, d);
    } else {
      YourStepDrifts(s, a, d);
    }
  }

  lemma MoveDriftsBack(s: Sys, mine: bool, a: Action, d: int)
    requires Inv(s) && Announced(s) && Accounted(Swap(s), d)
    ensures Move(s, mine, a).Next? && Accounted(Swap(Move(s, mine, a).s), d + StepDrift(Swap(s), !mine, a))
  {
    if mine {
      YourMoveDrifts(s, a, d);
      SwapTwice(s);
    } else {
      BothSwap(s);
      MyMoveDrifts(Swap(s), a, d);
      Mirror(s, a);
    }
  }

  /** The bound on the unread messages moves by the drift. */
  lemma UnreadWithinDrift(w: Endpoint, r: Endpoint, q: Queue<Item>, toW: seq<Command>, d: int)
    requires DriftOk(w, r, q, toW, d)
    ensures CountedIn(q.items) <= w.hwm - d
  {
    RisingBelowLast(w.peersMsgsRead, toW);
    RoundDownStep(r.msgsRead, r.lwm);
  }

  lemma {:induction false} NoNewCredit(known: int, cs: seq<Command>)
    requires forall i :: 0 <= i < |cs| ==> !cs[i].ActivateWrite?
    ensures LastCredit(known, cs) == known
    decreases |cs|
  {
    if cs == [] {
    } else {
      NoNewCredit(known, cs[1..]);
    }
  }

  /** When all was read and no credit is on its way, a writer is refused exactly if the drift has left
      the room that the rounding of the read count needs: too many credentials were read, or an
      identity was taken back that was not counted. */
  lemma RefusedExactly(w: Endpoint, r: Endpoint, q: Queue<Item>, toW: seq<Command>, d: int)
    requires DriftOk(w, r, q, toW, d) && CountedIn(q.items) == 0
    requires forall i :: 0 <= i < |toW| ==> !toW[i].ActivateWrite?
    ensures CheckHwm(w) <==> 0 <= d + r.msgsRead % r.lwm < w.hwm
  {
    NoNewCredit(w.peersMsgsRead, toW);
  }

  /** The bound, the reports and the refusals, in every run and for both ends. */
  ghost predicate DriftsWithin(s: Sys, hwm: int, d: int) {
    s.me.outQueue.Some? ==>
      && s.me.outQueue.value in s.store && s.you.lwm > 0
      && var q := s.store[s.me.outQueue.value];
         && CountedIn(q.items) <= hwm - d
         && (s.you.msgsRead - s.me.peersMsgsRead >= (hwm + 1) / 2 ==> NewsComing(s.me, s.toMe))
         && (CountedIn(q.items) == 0 && (forall i :: 0 <= i < |s.toMe| ==> !s.toMe[i].ActivateWrite?) ==>
               (CheckHwm(s.me) <==> 0 <= d + s.you.msgsRead % s.you.lwm < hwm))
  }

  lemma AccountedMeansWithin(s: Sys, d: int)
    requires Accounted(s, d) && s.me.hwm > 0
    ensures DriftsWithin(s, s.me.hwm, d)
  {
    if s.me.outQueue.Some? {
      var q := s.store[s.me.outQueue.value];
      UnreadWithinDrift(s.me, s.you, q, s.toMe, d);
      ReportsEveryHalf(s.me, s.you, q, s.toMe, d);
      if CountedIn(q.items) == 0 && forall i :: 0 <= i < |s.toMe| ==> !s.toMe[i].ActivateWrite? {
        RefusedExactly(s.me, s.you, q, s.toMe, d);
      }
    }
  }

  lemma StepKeepsHwm(s: Sys, a: Action)
    requires Inv(s) && Enabled(s, a)
    ensures Step(s, a).Next? && Step(s, a).s.me.hwm == s.me.hwm && Step(s, a).s.you == s.you
  {
    MoveKeeps(s, true, a);
    StepOnlyAppends(s, a);
    ViewReadyIfAlive(s);
    if a.Deliver? {
      ReceiverIsAlive(s);
      DeliveryKeepsHwm(s);
    } else if a.DoHiccup? {
      RenewalKeepsHwm(s);
    } else {
      CallingKeepsHwm(s, a);
    }
  }

  lemma CallingKeepsHwm(s: Sys, a: Action)
    requires s.me.alive && Attached(s) && Ready(View(s)) && Enabled(s, a) && !a.DoHiccup? && !a.Deliver? && Step(s, a).Next?
    ensures Step(s, a).s.me.hwm == s.me.hwm
  {
    CallKeepsWatermarks(View(s), a);
  }

  lemma DeliveryKeepsHwm(s: Sys)
    requires Inv(s) && s.me.alive && Attached(s) && s.toMe != [] && Step(s, Deliver).Next?
    ensures Step(s, Deliver).s.me.hwm == s.me.hwm
  {
    if s.toMe[0].Hiccup? {
      HiccupKeepsReaders(s);
    } else if s.toMe[0].PipeTermAck? {
      AckKeepsReader(s);
    } else {
      HandlingKeepsHwm(s);
    }
  }

  lemma HandlingKeepsHwm(s: Sys)
    requires s.me.alive && Attached(s) && s.toMe != [] && !s.toMe[0].Hiccup? && !s.toMe[0].PipeTermAck? && Step(s, Deliver).Next?
    ensures Step(s, Deliver).s.me.hwm == s.me.hwm
  {
    DeliverIsHandle(s);
  }

  lemma RenewalKeepsHwm(s: Sys)
    requires Inv(s) && s.me.alive && Attached(s)
    ensures Step(s, DoHiccup).Next? && Step(s, DoHiccup).s.me.hwm == s.me.hwm
  {
    if s.me.state.Active? {
      ActiveHiccupKeeps(s);
    } else {
      IdleHiccupShape(s);
    }
  }

  lemma {:induction false} WatermarksStay(hwm0: int, hwm1: int, trace: seq<(bool, Action)>)
    ensures Run(Init(hwm0, hwm1), trace).Next?
    ensures Run(Init(hwm0, hwm1), trace).s.me.hwm == hwm0 && Run(Init(hwm0, hwm1), trace).s.you.hwm == hwm1
    decreases |trace|
  {
    if trace == [] {
    } else {
      var prefix := trace[..|trace| - 1];
      WatermarksStay(hwm0, hwm1, prefix);
      EveryRunIsSafe(hwm0, hwm1, prefix);
      var s := Run(Init(hwm0, hwm1), prefix).s;
      var (mine, a) := Last(trace);
      assert trace[|trace| - 1] == (mine, a);
      InvSwap(s);
      var t := if mine then s else Swap(s);
      if Enabled(t, a) {
        StepKeepsHwm(t, a);
      }
    }
  }

  /** Flow control in every run, hiccups and credentials included, in each direction that has a
      watermark. */
  lemma {:induction false} WatermarksDrift(hwm0: int, hwm1: int, trace: seq<(bool, Action)>)
    ensures Run(Init(hwm0, hwm1), trace).Next?
    ensures hwm0 > 0 ==> DriftsWithin(Run(Init(hwm0, hwm1), trace).s, hwm0, Drift(Init(hwm0, hwm1), trace))
    ensures hwm1 > 0 ==> DriftsWithin(Swap(Run(Init(hwm0, hwm1), trace).s), hwm1, DriftBack(Init(hwm0, hwm1), trace))
  {
    EveryRunIsAccounted(hwm0, hwm1, trace);
    WatermarksStay(hwm0, hwm1, trace);
    var s := Run(Init(hwm0, hwm1), trace).s;
    if hwm0 > 0 {
      AccountedMeansWithin(s, Drift(Init(hwm0, hwm1), trace));
    }
    if hwm1 > 0 {
      AccountedMeansWithin(Swap(s), DriftBack(Init(hwm0, hwm1), trace));
    }
  }
  // ------------------------------------------------------------- an example

  // Three states of a run in which an identity is taken back.

  function Identity(): Item {
    Msg(false, true, false, 0)
  }

  function Identified(hwm0: int, hwm1: int): Sys {
    var s := Init(hwm0, hwm1);
    s.(me := s.me.(put := [Identity()]), store := s.store[1 := Queue([Identity()], 1, 0, false)])
  }

  function Renewed1(hwm0: int, hwm1: int): Sys {
    var s := Identified(hwm0, hwm1);
    s.(you := s.you.(inQueue := 2), toMe := [Hiccup(2)], store := s.store[2 := Empty()], nextId := 3)
  }

  function TakenBack(hwm0: int, hwm1: int): Sys {
    var s := Renewed1(hwm0, hwm1);
    s.(me := s.me.(outQueue := Some(2), msgsWritten := -1, put := []), toMe := [], store := s.store - {1})
  }

  lemma ToIdentified(hwm0: int, hwm1: int)
    requires hwm0 > 0
    ensures Move(Init(hwm0, hwm1), true, DoWrite(Identity())) == Next(Identified(hwm0, hwm1))
  {
    var s := Init(hwm0, hwm1);
    assert [] + [Identity()] == [Identity()];
    var l := PipeEndpoint.Write(View(s), Identity()).0;
    assert l.outQ == Some(Queue([Identity()], 1, 0, false));
    assert s.store[0 := Empty()] == s.store && s.toYou + [] == s.toYou;
  }

  lemma ToRenewed1(hwm0: int, hwm1: int)
    ensures Move(Identified(hwm0, hwm1), false, DoHiccup) == Next(Renewed1(hwm0, hwm1))
  {
    var s := Swap(Identified(hwm0, hwm1));
    assert [] + [Hiccup(2)] == [Hiccup(2)];
    var l := PipeEndpoint.DoHiccup(View(s), 2);
    assert l.sent == [Hiccup(2)];
    assert s.store[2 := Empty()][0 := Empty()] == s.store[2 := Empty()];
  }

  lemma ToTakenBack(hwm0: int, hwm1: int)
    ensures Move(Renewed1(hwm0, hwm1), true, Deliver) == Next(TakenBack(hwm0, hwm1))
  {
    var s := Renewed1(hwm0, hwm1);
    var q := Queue([Identity()], 1, 1, false);
    assert q.items[..1] == [Identity()];
    assert Finished([Identity()]) == 1 by { assert [Identity()][1..] == []; }
    var l := ProcessHiccup(View(s), 2, Empty());
    assert l.e.msgsWritten == -1;
    assert (s.store - {1})[0 := Empty()][2 := Empty()] == s.store - {1};
    assert s.toMe[1..] == [] && s.toYou + [] == s.toYou;
  }

  /** An identity that was written and not read is taken back with the queue: with both ends active,
      nothing unread and no command in flight, every write is refused. */
  lemma IdentityStopsTheWriter(hwm0: int, hwm1: int)
    requires hwm0 > 0
    ensures var trace := [(true, DoWrite(Identity())), (false, DoHiccup), (true, Deliver)];
      && Run(Init(hwm0, hwm1), trace).Next?
      && var s := Run(Init(hwm0, hwm1), trace).s;
      && s.me.state.Active? && s.you.state.Active? && s.toMe == [] && s.toYou == []
      && (forall q :: q in s.store ==> s.store[q].items == []) && !CheckHwm(s.me)
  {
    var w, h, d := (true, DoWrite(Identity())), (false, DoHiccup), (true, Deliver);
    var s0 := Init(hwm0, hwm1);
    assert Run(s0, []) == Next(s0) && [] + [w] == [w];
    ToIdentified(hwm0, hwm1);
    RunStep(s0, [], w, s0);
    ToRenewed1(hwm0, hwm1);
    RunStep(s0, [w], h, Identified(hwm0, hwm1));
    assert [w] + [h] == [w, h];
    ToTakenBack(hwm0, hwm1);
    RunStep(s0, [w, h], d, Renewed1(hwm0, hwm1));
    assert [w, h] + [d] == [w, h, d];
  }
}
