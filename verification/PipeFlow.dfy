/** Runs in which no hiccup crosses a request to terminate: no wake-up is lost, everything
    written before the delimiter is delivered, and a termination that has begun always goes
    on. */
module PipeFlow {
  import opened Basics
  import opened Fifo
  import opened PipeEndpoint
  import opened PipePair

  /** The states in which an endpoint may still read. */
  predicate Open(r: Endpoint) {
    r.state.Active? || r.state.WaitingForDelimiter?
  }

  predicate Messages(items: seq<Item>) {
    forall i :: 0 <= i < |items| ==> items[i].Msg?
  }

  /** A closed stream: messages, and then the delimiter, all of it published. */
  ghost predicate Closed(q: Queue<Item>) {
    && q.items != []
    && Last(q.items).Delimiter?
    && Messages(q.items[..|q.items| - 1])
    && q.published == |q.items|
  }

  /** The invariant of one direction: writer `w`, reader `r`, the queue between
      them, and the commands in flight from the writer to the reader. */
  ghost predicate FlowOk(w: Endpoint, r: Endpoint, q: Queue<Item>, toR: seq<Command>) {
    && w.put == r.got + q.items
    && (Open(r) && !r.inActive ==> q.asleep || ActivateRead in toR)
    && (Open(r) && TermsSent(w) == 1 ==> Closed(q))
    && (Open(r) && TermsSent(w) == 0 ==> Messages(q.items))
    && (r.state.DelimiterReceived? ==> TermsSent(w) == 1 && q.items == [] && r.got != [] && Last(r.got).Delimiter?)
  }

  // -------------------------------------------------------------- the writer

  lemma WriterUntouched(w: Endpoint, w': Endpoint, r: Endpoint, q: Queue<Item>, toR: seq<Command>, sent: seq<Command>)
    requires FlowOk(w, r, q, toR) && w'.put == w.put && TermsSent(w') == TermsSent(w)
    ensures FlowOk(w', r, q, toR + sent)
  {
  }

  lemma FlushFlow(l: Local, r: Endpoint, toR: seq<Command>)
    requires l.outQ.Some? && l.Valid() && FlowOk(l.e, r, l.outQ.value, toR + l.sent)
    ensures var l' := PipeEndpoint.Flush(l);
      FlowOk(l'.e, r, l'.outQ.value, toR + l'.sent)
  {
    var l' := PipeEndpoint.Flush(l);
    assert l'.sent == l.sent || toR + l'.sent == (toR + l.sent) + [ActivateRead];
    assert ActivateRead in toR + l.sent ==> ActivateRead in toR + l'.sent;
  }

  lemma RollbackFlow(l: Local, r: Endpoint, toR: seq<Command>)
    requires l.outQ.Some? && l.Valid() && FlowOk(l.e, r, l.outQ.value, toR)
    ensures var l' := PipeEndpoint.Rollback(l);
      FlowOk(l'.e, r, l'.outQ.value, toR) && l'.outQ.value.complete == |l'.outQ.value.items|
  {
    var q := l.outQ.value;
    assert l.e.put[..|l.e.put| - (|q.items| - q.complete)] == r.got + q.items[..q.complete];
  }

  lemma PutFlow(l: Local, r: Endpoint, toR: seq<Command>, x: Item, incomplete: bool)
    requires l.outQ.Some? && l.Valid() && FlowOk(l.e, r, l.outQ.value, toR)
    requires x.Msg? && TermsSent(l.e) == 0
    ensures FlowOk(Put(l, x, incomplete).e, r, Put(l, x, incomplete).outQ.value, toR)
  {
    assert l.e.put + [x] == r.got + (l.outQ.value.items + [x]);
  }

  lemma WriteFlow(l: Local, r: Endpoint, toR: seq<Command>, x: Item)
    requires Ready(l) && l.outQ.Some? && FlowOk(l.e, r, l.outQ.value, toR) && x.Msg?
    ensures var l' := PipeEndpoint.Write(l, x).0;
      l'.sent == [] && FlowOk(l'.e, r, l'.outQ.value, toR)
  {
    if CheckWrite(l).1 {
      PutFlow(l, r, toR, x, x.more);
    }
  }

  /** Appending the delimiter to a finished stream and flushing it closes it. */
  lemma DelimiterFlow(w: Endpoint, w': Endpoint, r: Endpoint, q: Queue<Item>, toR: seq<Command>, toR': seq<Command>)
    requires FlowOk(w, r, q, toR) && q.Valid() && q.complete == |q.items| && w'.put == w.put + [Delimiter]
    requires (TermsSent(w') == 1 && TermsSent(w) == 0) || (!Open(r) && !r.state.DelimiterReceived?)
    requires ActivateRead in toR || !Fifo.Flush(Fifo.Write(q, Delimiter, false)).1 ==> ActivateRead in toR'
    ensures FlowOk(w', r, Fifo.Flush(Fifo.Write(q, Delimiter, false)).0, toR')
  {
    assert w'.put == r.got + (q.items + [Delimiter]);
    assert (q.items + [Delimiter])[..|q.items|] == q.items;
  }

  /** The queue that closing the outbound flow leaves, and whether its reader is awake. */
  function ClosedQueue(q: Queue<Item>): (Queue<Item>, bool)
    requires q.Valid()
  {
    Fifo.Flush(Fifo.Write(Fifo.Rollback(q), Delimiter, false))
  }

  function Kept(l: Local): seq<Item>
    requires l.outQ.Some? && l.Valid()
  {
    var dropped := |l.outQ.value.items| - l.outQ.value.complete;
    if dropped <= |l.e.put| then l.e.put[..|l.e.put| - dropped] else l.e.put
  }

  lemma CloseShape(l: Local)
    requires l.outQ.Some? && l.Valid() && !l.e.state.TermAckSent?
    ensures var l' := CloseOutbound(l);
      && l'.outQ == Some(ClosedQueue(l.outQ.value).0)
      && l'.e.put == Kept(l) + [Delimiter]
      && l'.e.state == l.e.state && l'.e.alive == l.e.alive
      && l'.sent == if ClosedQueue(l.outQ.value).1 then l.sent else l.sent + [ActivateRead]
  {
  }

  /** Closing the outbound flow, when the reader is being told that it is closed or
      no longer reads.  `e` is the endpoint before the operation began. */
  lemma CloseFlow(l: Local, e: Endpoint, r: Endpoint, toR: seq<Command>)
    requires l.outQ.Some? && l.Valid() && FlowOk(e, r, l.outQ.value, toR) && l.e.put == e.put
    requires !l.e.state.TermAckSent?
    requires (TermsSent(l.e) == 1 && TermsSent(e) == 0) || (!Open(r) && !r.state.DelimiterReceived?)
    ensures var l' := CloseOutbound(l);
      l'.outQ.Some? && FlowOk(l'.e, r, l'.outQ.value, toR + l'.sent)
  {
    CloseShape(l);
    var q := l.outQ.value;
    var w := e.(put := Kept(l));
    assert e.put == r.got + q.items;
    assert Kept(l) == r.got + q.items[..q.complete];
    assert FlowOk(w, r, Fifo.Rollback(q), toR);
    var l' := CloseOutbound(l);
    DelimiterFlow(w, l'.e, r, Fifo.Rollback(q), toR, toR + l'.sent);
  }

  /** The queue towards the peer, as an operation leaves it. */
  function OutQueue(l: Local, q: Queue<Item>): Queue<Item> {
    if l.outQ.Some? then l.outQ.value else q
  }

  lemma ReceivedMeansPeerTerminates(e: Endpoint, you: Endpoint, toMe: seq<Command>)
    requires CommandsOk(you, e, toMe) && TermsReceived(e) == 1
    ensures TermsSent(you) == 1 && !Open(you) && !you.state.DelimiterReceived?
  {
  }

  lemma TerminateWriterFlow(l: Local, delay: bool, you: Endpoint, toMe: seq<Command>, toYou: seq<Command>, q: Queue<Item>)
    requires Ready(l) && (l.outQ.Some? ==> q == l.outQ.value) && FlowOk(l.e, you, q, toYou)
    requires CommandsOk(you, l.e, toMe)
    ensures var l' := Terminate(l, delay);
      FlowOk(l'.e, you, OutQueue(l', q), toYou + l'.sent)
  {
    var l1 := l.(e := l.e.(delay := delay));
    match l.e.state
    case TermReqSent1 => assert toYou + [] == toYou;
    case TermReqSent2 => assert toYou + [] == toYou;
    case TermAckSent => assert toYou + [] == toYou;
    case WaitingForDelimiter =>
      ReceivedMeansPeerTerminates(l.e, you, toMe);
      if delay {
        CloseFlow(l1, l.e, you, toYou);
      }
    case _ =>
      CloseFlow(PipeEndpoint.Send(l1.(e := l1.e.(state := TermReqSent1)), PipeTerm), l.e, you, toYou);
  }

  lemma WriterFlow(l: Local, a: Action, you: Endpoint, toMe: seq<Command>, toYou: seq<Command>, q: Queue<Item>)
    requires Ready(l) && (l.outQ.Some? ==> q == l.outQ.value) && FlowOk(l.e, you, q, toYou)
    requires CommandsOk(you, l.e, toMe)
    requires !a.DoHiccup? && !a.Deliver? && (a.DoWrite? ==> a.x.Msg?)
    ensures var l' := Call(l, a);
      FlowOk(l'.e, you, OutQueue(l', q), toYou + l'.sent)
  {
    assert toYou + [] == toYou;
    match a
    case DoCheckRead => CheckReadShape(l); WriterUntouched(l.e, Call(l, a).e, you, q, toYou, Call(l, a).sent);
    case DoRead => ReadShape(l); WriterUntouched(l.e, Call(l, a).e, you, q, toYou, Call(l, a).sent);
    case DoCheckWrite =>
    case DoWrite(x) => if l.outQ.Some? { WriteFlow(l, you, toYou, x); }
    case DoRollback => if l.outQ.Some? { RollbackFlow(l, you, toYou); }
    case DoFlush => if l.outQ.Some? { FlushFlow(l, you, toYou); }
    case DoTerminate(delay) => TerminateWriterFlow(l, delay, you, toMe, toYou, q);
    case DoSetNoDelay =>
  }

  /** Reading leaves the outbound side alone, except that it may let go of it. */
  ghost predicate ReadOnly(l: Local, l': Local) {
    && l'.e.put == l.e.put
    && TermsSent(l'.e) == TermsSent(l.e)
    && (l'.outQ == l.outQ || l'.outQ == None)
  }

  lemma CheckReadShape(l: Local)
    requires Ready(l)
    ensures ReadOnly(l, PipeEndpoint.CheckRead(l).0)
  {
  }

  lemma {:induction false} ReadMessageShape(l: Local)
    requires l.Valid() && Open(l.e)
    ensures ReadOnly(l, ReadMessage(l).0)
    decreases |l.inQ.items|
  {
    var (l1, x) := Fetch(l);
    if x.Some? && x.value.Msg? && x.value.credential {
      ReadMessageShape(l1);
    } else {
      TakenShape(l1, x);
    }
  }

  lemma TakenShape(l: Local, x: Option<Item>)
    requires Open(l.e)
    ensures ReadOnly(l, Taken(l, x).0)
  {
  }

  lemma ReadShape(l: Local)
    requires Ready(l)
    ensures ReadOnly(l, PipeEndpoint.Read(l).0)
  {
    if Reading(l.e) {
      ReadMessageShape(l);
    }
  }

  // -------------------------------------------------------------- the reader

  lemma ReaderUntouched(w: Endpoint, r: Endpoint, r': Endpoint, q: Queue<Item>, toR: seq<Command>)
    requires FlowOk(w, r, q, toR) && r'.got == r.got && r'.inActive == r.inActive
    requires r'.state == r.state || (Open(r) && Open(r')) || (!Open(r') && !r'.state.DelimiterReceived?)
    ensures FlowOk(w, r', q, toR)
  {
  }

  lemma FetchFlow(w: Endpoint, l: Local, toR: seq<Command>)
    requires l.Valid() && Open(l.e) && FlowOk(w, l.e, l.inQ, toR) && TermsSent(w) <= 1
    ensures var (l', x) := Fetch(l);
      && w.put == l'.e.got + l'.inQ.items
      && (x.None? || x.value.Msg? ==> FlowOk(w, l'.e, l'.inQ, toR))
      && (x == Some(Delimiter) ==> TermsSent(w) == 1 && l'.inQ.items == [] && l'.e.got != [] && Last(l'.e.got).Delimiter?)
  {
    var q := l.inQ;
    if q.published > 0 {
      assert q.items == [q.items[0]] + q.items[1..];
      assert l.e.got + q.items == (l.e.got + [q.items[0]]) + q.items[1..];
      if TermsSent(w) == 1 {
        if |q.items| > 1 {
          assert q.items[..|q.items| - 1][0] == q.items[0];
          assert q.items[1..][..|q.items| - 2] == q.items[..|q.items| - 1][1..];
        }
      }
    }
  }

  lemma {:induction false} ReadMessageFlow(w: Endpoint, l: Local, toR: seq<Command>)
    requires l.Valid() && Open(l.e) && FlowOk(w, l.e, l.inQ, toR) && TermsSent(w) <= 1
    ensures FlowOk(w, ReadMessage(l).0.e, ReadMessage(l).0.inQ, toR)
    decreases |l.inQ.items|
  {
    FetchFlow(w, l, toR);
    var (l1, x) := Fetch(l);
    if x.Some? && x.value.Msg? && x.value.credential {
      assert ReadMessage(l) == ReadMessage(l1);
      ReadMessageFlow(w, l1, toR);
    } else {
      TakenFlow(w, l1, x, toR);
    }
  }

  lemma TakenFlow(w: Endpoint, l: Local, x: Option<Item>, toR: seq<Command>)
    requires x != Some(Delimiter) ==> FlowOk(w, l.e, l.inQ, toR)
    requires x == Some(Delimiter) ==>
      && Open(l.e) && w.put == l.e.got + l.inQ.items && TermsSent(w) == 1
      && l.inQ.items == [] && l.e.got != [] && Last(l.e.got).Delimiter?
    ensures FlowOk(w, Taken(l, x).0.e, Taken(l, x).0.inQ, toR)
  {
    if x == Some(Delimiter) {
      DelimiterReadFlow(w, l, toR);
    } else {
      ReaderUntouched(w, l.e, Taken(l, x).0.e, l.inQ, toR);
    }
  }

  lemma DelimiterReadFlow(w: Endpoint, l: Local, toR: seq<Command>)
    requires Open(l.e) && w.put == l.e.got + l.inQ.items && TermsSent(w) == 1
    requires l.inQ.items == [] && l.e.got != [] && Last(l.e.got).Delimiter?
    ensures FlowOk(w, ProcessDelimiter(l).e, ProcessDelimiter(l).inQ, toR)
  {
  }

  lemma CheckReadFlow(w: Endpoint, l: Local, toR: seq<Command>)
    requires Ready(l) && FlowOk(w, l.e, l.inQ, toR) && TermsSent(w) <= 1
    ensures FlowOk(w, PipeEndpoint.CheckRead(l).0.e, PipeEndpoint.CheckRead(l).0.inQ, toR)
  {
    if Reading(l.e) {
      FetchFlow(w, l, toR);
    }
  }

  lemma TerminateKeepsReader(l: Local, delay: bool)
    requires Ready(l)
    ensures var l' := Terminate(l, delay);
            && l'.inQ == l.inQ && l'.e.got == l.e.got && l'.e.inActive == l.e.inActive && l'.e.hwm == l.e.hwm
            && (l'.e.state == l.e.state || (!Open(l'.e) && !l'.e.state.DelimiterReceived?))
            && (l'.e.state.TermAckSent? ==> l.e.state.TermAckSent? || !delay)
  {
    var l1 := l.(e := l.e.(delay := delay));
    match l.e.state
    case TermReqSent1 =>
    case TermReqSent2 =>
    case TermAckSent =>
    case WaitingForDelimiter => CloseKeepsReader(if !delay then Acknowledge(l1, TermAckSent) else l1);
    case _ => CloseKeepsReader(PipeEndpoint.Send(l1.(e := l1.e.(state := TermReqSent1)), PipeTerm));
  }

  lemma CloseKeepsReader(l: Local)
    requires l.Valid()
    ensures var l' := CloseOutbound(l);
            l'.inQ == l.inQ && l'.e == l.e.(outActive := false, put := l'.e.put)
  {
  }

  lemma TerminateReaderFlow(w: Endpoint, l: Local, delay: bool, toR: seq<Command>)
    requires Ready(l) && FlowOk(w, l.e, l.inQ, toR)
    ensures FlowOk(w, Terminate(l, delay).e, Terminate(l, delay).inQ, toR)
  {
    TerminateKeepsReader(l, delay);
    ReaderUntouched(w, l.e, Terminate(l, delay).e, l.inQ, toR);
  }

  lemma ReaderFlow(w: Endpoint, l: Local, a: Action, toR: seq<Command>)
    requires Ready(l) && FlowOk(w, l.e, l.inQ, toR)
    requires !a.DoHiccup? && !a.Deliver? && (a.DoWrite? ==> a.x.Msg?)
    ensures FlowOk(w, Call(l, a).e, Call(l, a).inQ, toR)
  {
    if a.DoCheckRead? {
      CheckReadFlow(w, l, toR);
    } else if a.DoRead? {
      if Reading(l.e) { ReadMessageFlow(w, l, toR); }
    } else if a.DoTerminate? {
      TerminateReaderFlow(w, l, a.delay, toR);
    } else {
      OthersKeepReader(l, a);
      ReaderUntouched(w, l.e, Call(l, a).e, l.inQ, toR);
    }
  }

  // -------------------------------------------------------------- the system

  /** The reader replaced its queue, and the writer does not know yet: the new queue is as it
      was created, and the writer has not asked to terminate. */
  ghost predicate Renewed(w: Endpoint, r: Endpoint, q: Queue<Item>) {
    && TermsSent(w) == 0 && q.items == [] && r.got == []
    && !r.state.DelimiterReceived? && (Open(r) && !r.inActive ==> q.asleep)
  }

  /** One direction, with the commands in flight to the reader and to the writer. */
  ghost predicate Direction(w: Endpoint, r: Endpoint, store: map<nat, Queue<Item>>, toR: seq<Command>, toW: seq<Command>) {
    r.alive ==>
      && r.inQueue in store
      && if NoHiccups(toW) then FlowOk(w, r, store[r.inQueue], toR) else Renewed(w, r, store[r.inQueue])
  }

  ghost predicate FlowInv(s: Sys) {
    && Inv(s)
    && Direction(s.me, s.you, s.store, s.toYou, s.toMe)
    && Direction(s.you, s.me, s.store, s.toMe, s.toYou)
  }

  /** No hiccup is on its way to an end that has asked to terminate: it would take the
      delimiter away. */
  predicate Uncrossed(s: Sys) {
    && (TermsSent(s.me) == 1 ==> NoHiccups(s.toMe))
    && (TermsSent(s.you) == 1 ==> NoHiccups(s.toYou))
  }

  lemma FlowIsUncrossed(s: Sys)
    requires FlowInv(s)
    ensures Uncrossed(s)
  {
  }

  lemma FlowInit(hwm0: int, hwm1: int)
    ensures FlowInv(Init(hwm0, hwm1))
  {
    InitInv(hwm0, hwm1);
  }

  /** Unless a hiccup is on its way, the queue being written is the one being read. */
  lemma OneQueue(s: Sys)
    requires Inv(s) && NoHiccups(s.toMe)
    ensures s.me.outQueue.Some? ==> s.me.outQueue.value == s.you.inQueue && s.you.alive
  {
    NoHiccupsMeansNone(s.toMe);
  }

  /** The two ends never share a queue that they read, nor does an end write what it reads;
      with a hiccup on its way, neither does it write what the other end reads. */
  lemma QueuesDiffer(s: Sys)
    requires Inv(s)
    ensures s.me.alive && s.you.alive ==> s.me.inQueue != s.you.inQueue
    ensures s.me.alive && s.me.outQueue.Some? ==> s.me.outQueue.value != s.me.inQueue
    ensures s.me.outQueue.Some? && !NoHiccups(s.toMe) ==> s.me.outQueue.value != s.you.inQueue
  {
    var mine, yours := Chain(s.me, s.you, s.toMe), Chain(s.you, s.me, s.toYou);
    OnOneChain(s, s.me.inQueue);
    if s.me.alive {
      assert Last(yours) == s.me.inQueue;
    }
    if s.you.alive {
      assert Last(mine) == s.you.inQueue;
    }
    if s.me.outQueue.Some? {
      OnOneChain(s, s.me.outQueue.value);
      NoHiccupsMeansNone(s.toMe);
      if !NoHiccups(s.toMe) {
        Twice(mine);
      }
    }
  }

  lemma OnOneChain(s: Sys, q: nat)
    requires StoreOk(s)
    ensures multiset(Chain(s.me, s.you, s.toMe))[q] + multiset(Chain(s.you, s.me, s.toYou))[q] <= 1
    ensures q in Chain(s.me, s.you, s.toMe) ==> q !in Chain(s.you, s.me, s.toYou)
  {
    var mine, yours := multiset(Chain(s.me, s.you, s.toMe)), multiset(Chain(s.you, s.me, s.toYou));
    assert (mine + yours)[q] == multiset(s.store.Keys)[q];
    assert q in Chain(s.me, s.you, s.toMe) ==> q in mine;
    assert q in Chain(s.you, s.me, s.toYou) ==> q in yours;
  }

  lemma Twice(qs: seq<nat>)
    requires |qs| > 1 && multiset(qs)[qs[0]] <= 1
    ensures qs[0] != Last(qs)
  {
    assert qs == [qs[0]] + qs[1..];
    assert Last(qs) in qs[1..];
  }

  lemma YourQueueIsStored(s: Sys)
    requires Inv(s)
    ensures s.you.alive ==> s.you.inQueue in s.store
  {
    InvSwap(s);
    MyQueuesAreStored(Swap(s));
  }

  /** What a step must leave of each direction. */
  ghost predicate FlowsOn(s: Sys, rest: seq<Command>, l: Local) {
    && (l.outQ.None? ==> s.me.outQueue.None? || l.e.outQueue.None?)
    && (s.you.alive ==> s.you.inQueue in s.store)
    && (s.you.alive && NoHiccups(rest) ==> FlowOk(l.e, s.you, OutQueue(l, s.store[s.you.inQueue]), s.toYou + l.sent))
    && (s.you.alive && !NoHiccups(rest) ==> TermsSent(l.e) == 0)
    && if NoHiccups(s.toYou) then FlowOk(s.you, l.e, l.inQ, rest) else Renewed(s.you, l.e, l.inQ)
  }

  lemma CommitFlow(s: Sys, popped: seq<Command>, rest: seq<Command>, l: Local)
    requires FlowInv(s) && s.me.alive && s.toMe == popped + rest && |popped| <= 1 && NoHiccups(popped)
    requires Effect(s.me, popped, l) && Attached(s) && FlowsOn(s, rest, l)
    ensures Commit(s.(toMe := rest), l).Next? && FlowInv(Commit(s.(toMe := rest), l).s)
  {
    EffectKeeps(s, popped, rest, l);
    PoppedKeepsHiccups(popped, rest);
    SentKeepsHiccups(s.toYou, l.sent);
    QueuesDiffer(s);
    if s.you.alive && NoHiccups(rest) {
      OneQueue(s);
    }
    CommitShape(s, rest, l);
    assert Direction(s.you, l.e, Commit(s.(toMe := rest), l).s.store, rest, s.toYou + l.sent);
  }

  /** What a step leaves in the two queues that are read. */
  lemma CommitShape(s: Sys, rest: seq<Command>, l: Local)
    requires Attached(s) && l.e.inQueue == s.me.inQueue && (l.e.outQueue == s.me.outQueue || l.e.outQueue == None)
    requires Commit(s.(toMe := rest), l).Next? && s.me.alive
    requires l.outQ.Some? <==> l.e.outQueue.Some?
    requires s.me.outQueue.Some? ==> s.me.outQueue.value != s.me.inQueue
    requires s.you.alive ==> s.me.inQueue != s.you.inQueue && s.you.inQueue in s.store
    requires s.you.alive && s.me.outQueue.Some? && NoHiccups(rest) ==> s.me.outQueue.value == s.you.inQueue
    requires s.you.alive && s.me.outQueue.Some? && !NoHiccups(rest) ==> s.me.outQueue.value != s.you.inQueue
    ensures var t := Commit(s.(toMe := rest), l).s;
            && t.me == l.e && t.you == s.you && t.toMe == rest && t.toYou == s.toYou + l.sent
            && s.me.inQueue in t.store && t.store[s.me.inQueue] == l.inQ
            && (s.you.alive ==> s.you.inQueue in t.store)
            && (s.you.alive && NoHiccups(rest) ==> t.store[s.you.inQueue] == OutQueue(l, s.store[s.you.inQueue]))
            && (s.you.alive && !NoHiccups(rest) ==> t.store[s.you.inQueue] == s.store[s.you.inQueue])
  {
  }

  lemma SentKeepsHiccups(toYou: seq<Command>, sent: seq<Command>)
    requires NoHiccups(sent)
    ensures NoHiccups(toYou + sent) <==> NoHiccups(toYou)
  {
    assert forall c :: c in toYou ==> c in toYou + sent;
  }

  lemma CallFlow(s: Sys, a: Action)
    requires FlowInv(s) && Enabled(s, a) && !a.DoHiccup? && !a.Deliver?
    requires Step(s, a).Next? ==> Uncrossed(Step(s, a).s)
    ensures Step(s, a).Next? && FlowInv(Step(s, a).s)
  {
    ViewReady(s);
    CallUncrossed(s, a);
    CallParts(s, a);
    assert s.toMe == [] + s.toMe && s.(toMe := s.toMe) == s;
    CommitFlow(s, [], s.toMe, Call(View(s), a));
  }

  lemma CallUncrossed(s: Sys, a: Action)
    requires Inv(s) && Enabled(s, a) && !a.DoHiccup? && !a.Deliver? && s.me.alive && Attached(s)
    requires Step(s, a).Next? ==> Uncrossed(Step(s, a).s)
    ensures !NoHiccups(s.toMe) ==> TermsSent(Call(View(s), a).e) == 0
  {
    CallKeeps(s, a);
  }

  lemma CallParts(s: Sys, a: Action)
    requires FlowInv(s) && Enabled(s, a) && !a.DoHiccup? && !a.Deliver? && s.me.alive && Attached(s)
    requires !NoHiccups(s.toMe) ==> TermsSent(Call(View(s), a).e) == 0
    ensures Step(s, a) == Commit(s, Call(View(s), a))
    ensures Effect(s.me, [], Call(View(s), a)) && FlowsOn(s, s.toMe, Call(View(s), a))
  {
    ViewReady(s);
    var l := View(s);
    CallEffect(l, a);
    if NoHiccups(s.toYou) {
      ReaderFlow(s.you, l, a, s.toMe);
    } else {
      ReaderRenewed(s.you, l, a);
    }
    if s.you.alive && NoHiccups(s.toMe) {
      OneQueue(s);
      WriterFlow(l, a, s.you, s.toMe, s.toYou, s.store[s.you.inQueue]);
    }
  }

  /** There is nothing to read in a new queue. */
  lemma ReaderRenewed(w: Endpoint, l: Local, a: Action)
    requires Ready(l) && Renewed(w, l.e, l.inQ)
    requires !a.DoHiccup? && !a.Deliver? && (a.DoWrite? ==> a.x.Msg?)
    ensures Renewed(w, Call(l, a).e, Call(l, a).inQ)
  {
    if a.DoTerminate? {
      TerminateKeepsReader(l, a.delay);
    } else if a.DoRead? {
      NothingToRead(l);
    } else if a.DoCheckRead? {
      NothingToRead(l);
    } else {
      OthersKeepReader(l, a);
    }
  }

  lemma NothingToRead(l: Local)
    requires Ready(l) && l.inQ.items == []
    ensures forall r :: r == PipeEndpoint.Read(l).0 || r == PipeEndpoint.CheckRead(l).0 ==>
              && r.inQ.items == [] && r.e.got == l.e.got && r.e.state == l.e.state
              && ((r.inQ == l.inQ && r.e.inActive == l.e.inActive) || r.inQ.asleep)
  {
    assert l.inQ.published == 0;
  }

  lemma OthersKeepReader(l: Local, a: Action)
    requires Ready(l) && !a.DoRead? && !a.DoCheckRead? && !a.DoTerminate?
    requires !a.DoHiccup? && !a.Deliver? && (a.DoWrite? ==> a.x.Msg?)
    ensures Call(l, a).inQ == l.inQ && Call(l, a).e.got == l.e.got && Call(l, a).e.inActive == l.e.inActive
    ensures Call(l, a).e.state == l.e.state
  {
  }

  /** Delivering a command other than an acknowledgement. */
  function Handle(l: Local, c: Command): Local
    requires !c.Hiccup? && !c.PipeTermAck?
  {
    match c
    case ActivateRead => ProcessActivateRead(l)
    case ActivateWrite(n) => ProcessActivateWrite(l, n)
    case PipeTerm => ProcessPipeTerm(l)
  }

  lemma HandleReaderFlow(w: Endpoint, l: Local, c: Command, toR: seq<Command>)
    requires !c.Hiccup? && !c.PipeTermAck? && toR != [] && toR[0] == c
    requires FlowOk(w, l.e, l.inQ, toR)
    ensures FlowOk(w, Handle(l, c).e, Handle(l, c).inQ, toR[1..])
  {
    assert toR == [c] + toR[1..];
  }

  lemma DeliverIsHandle(s: Sys)
    requires s.toMe != [] && !s.toMe[0].PipeTermAck? && !s.toMe[0].Hiccup? && s.me.alive && Attached(s)
    ensures Step(s, Deliver) == Commit(s.(toMe := s.toMe[1..]), Handle(View(s), s.toMe[0]))
  {
  }

  lemma HandleFlow(s: Sys)
    requires FlowInv(s) && s.toMe != [] && !s.toMe[0].PipeTermAck? && !s.toMe[0].Hiccup?
    ensures Step(s, Deliver).Next? && FlowInv(Step(s, Deliver).s)
  {
    HandleParts(s);
    DeliverIsHandle(s);
    HandledFlow(s, s.toMe[0], s.toMe[1..], Handle(View(s), s.toMe[0]));
  }

  lemma HandledFlow(s: Sys, c: Command, rest: seq<Command>, l: Local)
    requires FlowInv(s) && s.me.alive && s.toMe != [] && c == s.toMe[0] && rest == s.toMe[1..] && !c.Hiccup?
    requires Attached(s) && Effect(s.me, [c], l) && FlowsOn(s, rest, l)
    ensures Commit(s.(toMe := rest), l).Next? && FlowInv(Commit(s.(toMe := rest), l).s)
  {
    assert s.toMe == [c] + rest;
    CommitFlow(s, [c], rest, l);
  }

  lemma HandleParts(s: Sys)
    requires FlowInv(s) && s.toMe != [] && !s.toMe[0].PipeTermAck? && !s.toMe[0].Hiccup?
    ensures s.me.alive && Attached(s)
    ensures Effect(s.me, [s.toMe[0]], Handle(View(s), s.toMe[0])) && FlowsOn(s, s.toMe[1..], Handle(View(s), s.toMe[0]))
  {
    ReceiverIsAlive(s);
    ViewReady(s);
    var c, l := s.toMe[0], View(s);
    CommandEffect(l, c, s.toMe, s.you);
    if NoHiccups(s.toYou) {
      HandleReaderFlow(s.you, l, c, s.toMe);
    }
    HandleTerms(l, c);
    assert s.toMe == [c] + s.toMe[1..];
    PoppedKeepsHiccups([c], s.toMe[1..]);
    if s.you.alive && NoHiccups(s.toMe) {
      OneQueue(s);
      HandleWriterFlow(l, c, s.you, s.store[s.you.inQueue], s.toYou);
    }
  }

  lemma HandleTerms(l: Local, c: Command)
    requires !c.Hiccup? && !c.PipeTermAck?
    ensures TermsSent(Handle(l, c).e) == TermsSent(l.e)
    ensures Handle(l, c).inQ == l.inQ && Handle(l, c).e.got == l.e.got
    ensures Handle(l, c).e.state.DelimiterReceived? ==> l.e.state.DelimiterReceived?
    ensures Open(Handle(l, c).e) ==> Open(l.e) && (l.e.inActive ==> Handle(l, c).e.inActive)
  {
  }

  lemma HandleWriterFlow(l: Local, c: Command, you: Endpoint, q: Queue<Item>, toYou: seq<Command>)
    requires Ready(l) && !c.Hiccup? && !c.PipeTermAck?
    requires (l.outQ.Some? ==> q == l.outQ.value) && FlowOk(l.e, you, q, toYou)
    ensures FlowOk(Handle(l, c).e, you, OutQueue(Handle(l, c), q), toYou + Handle(l, c).sent)
  {
    WriterUntouched(l.e, Handle(l, c).e, you, q, toYou, Handle(l, c).sent);
  }

  /** The endpoint that is deallocated answers a request that is still open, and leaves the queue
      that the other end reads alone. */
  lemma AckKeepsReader(s: Sys)
    requires Inv(s) && s.toMe != [] && s.toMe[0].PipeTermAck? && Step(s, Deliver).Next?
    ensures s.me.alive && NoHiccups(s.toYou) && s.toMe == [PipeTermAck] && (s.you.alive ==> s.you.inQueue in s.store)
    ensures var t := Step(s, Deliver).s;
            && t.me == s.me.(alive := false, outQueue := t.me.outQueue) && t.you == s.you && t.toMe == []
            && t.toYou == s.toYou + (if s.me.state.TermReqSent1? then [PipeTermAck] else [])
            && (s.you.alive ==> s.you.inQueue in t.store && t.store[s.you.inQueue] == s.store[s.you.inQueue])
  {
    ReceiverIsAlive(s);
    ViewReady(s);
    AckArrives(s.me, s.you, s.toMe, s.toYou);
    QueuesDiffer(s);
    YourQueueIsStored(s);
    assert [] + [PipeTermAck] == [PipeTermAck];
  }

  lemma AckFlow(s: Sys)
    requires FlowInv(s) && s.toMe != [] && s.toMe[0].PipeTermAck?
    ensures Step(s, Deliver).Next? && FlowInv(Step(s, Deliver).s)
  {
    ReceiverIsAlive(s);
    AckKeeps(s);
    AckKeepsReader(s);
    var t := Step(s, Deliver).s;
    if s.you.alive {
      WriterUntouched(s.me, t.me, s.you, s.store[s.you.inQueue], s.toYou, t.toYou[|s.toYou|..]);
      assert s.toYou + t.toYou[|s.toYou|..] == t.toYou;
    }
  }

  /** The delivery of a hiccup leaves the queues that are read alone. */
  lemma HiccupKeepsReaders(s: Sys)
    requires Inv(s) && s.toMe != [] && s.toMe[0].Hiccup?
    ensures Step(s, Deliver).Next? && Inv(Step(s, Deliver).s) && !NoHiccups(s.toMe) && s.me.alive && s.you.alive
    ensures s.me.inQueue in s.store && s.you.inQueue in s.store
    ensures var t := Step(s, Deliver).s;
            && t.you == s.you && t.toYou == s.toYou && t.toMe == s.toMe[1..]
            && t.me == s.me.(msgsWritten := t.me.msgsWritten, outQueue := t.me.outQueue, outActive := true, put := [])
            && s.me.inQueue in t.store && t.store[s.me.inQueue] == s.store[s.me.inQueue]
            && s.you.inQueue in t.store && t.store[s.you.inQueue] == s.store[s.you.inQueue]
  {
    ReceiverIsAlive(s);
    assert s.toMe[0] in s.toMe;
    ProcessHiccupKeeps(s);
    ViewReady(s);
    NewQueueIsStored(s);
    YourQueueIsStored(s);
    QueuesDiffer(s);
    HiccupShown(s);
  }

  lemma HiccupShown(s: Sys)
    requires s.me.alive && s.toMe != [] && s.toMe[0].Hiccup? && Attached(s) && s.me.outQueue.Some?
    requires Usable(s.store, s.toMe[0].queue) && s.you.inQueue in s.store
    requires s.me.outQueue.value != s.me.inQueue && s.me.outQueue.value != s.you.inQueue
    ensures Step(s, Deliver).Next?
    ensures var t := Step(s, Deliver).s;
            && t.you == s.you && t.toYou == s.toYou && t.toMe == s.toMe[1..]
            && t.me == s.me.(msgsWritten := t.me.msgsWritten, outQueue := t.me.outQueue, outActive := true, put := [])
            && s.me.inQueue in t.store && t.store[s.me.inQueue] == s.store[s.me.inQueue]
            && s.you.inQueue in t.store && t.store[s.you.inQueue] == s.store[s.you.inQueue]
  {
    HiccupDelivered(s);
  }

  /** The writer plugs the new queue in: if no newer one was announced, it is the one being read. */
  lemma HiccupFlow(s: Sys)
    requires FlowInv(s) && s.toMe != [] && s.toMe[0].Hiccup?
    ensures Step(s, Deliver).Next? && FlowInv(Step(s, Deliver).s)
  {
    HiccupKeepsReaders(s);
    PluggedFlow(s.me, Step(s, Deliver).s.me, s.you, s.store[s.you.inQueue], s.toYou);
    if NoHiccups(s.toYou) {
      PoppedReaderFlow(s.you, s.me, Step(s, Deliver).s.me, s.store[s.me.inQueue], s.toMe);
    }
  }

  lemma PluggedFlow(w: Endpoint, w': Endpoint, r: Endpoint, q: Queue<Item>, toR: seq<Command>)
    requires Renewed(w, r, q) && TermsSent(w') == TermsSent(w) && w'.put == []
    ensures Renewed(w', r, q) && FlowOk(w', r, q, toR)
  {
    assert [] + q.items == q.items;
  }

  lemma PoppedReaderFlow(w: Endpoint, r: Endpoint, r': Endpoint, q: Queue<Item>, toR: seq<Command>)
    requires FlowOk(w, r, q, toR) && toR != [] && toR[0].Hiccup?
    requires r'.state == r.state && r'.got == r.got && r'.inActive == r.inActive
    ensures FlowOk(w, r', q, toR[1..])
  {
    assert toR == [toR[0]] + toR[1..];
  }

  /** The reader replaces its queue by a new one, if the writer has not asked to terminate. */
  lemma RenewFlow(s: Sys)
    requires FlowInv(s) && s.me.alive && s.me.state.Active? && TermsSent(s.you) == 0
    ensures Step(s, DoHiccup).Next? && FlowInv(Step(s, DoHiccup).s)
  {
    ActiveHiccupKeeps(s);
    var t, c := Step(s, DoHiccup).s, Hiccup(s.nextId);
    assert c in t.toYou && !NoHiccups(t.toYou);
    if NoHiccups(s.toMe) && s.you.alive {
      WriterUntouched(s.me, t.me, s.you, s.store[s.you.inQueue], s.toYou, [c]);
    }
    assert s.you.alive ==> t.store[s.you.inQueue] == s.store[s.you.inQueue];
  }

  lemma IdleHiccupFlow(s: Sys)
    requires FlowInv(s) && s.me.alive && !s.me.state.Active?
    ensures Step(s, DoHiccup).Next? && FlowInv(Step(s, DoHiccup).s)
  {
    HiccupKeeps(s);
    ViewReady(s);
    IdleHiccupShape(s);
  }

  lemma IdleHiccupShape(s: Sys)
    requires s.me.alive && Attached(s) && !s.me.state.Active?
    ensures Step(s, DoHiccup) == Next(s.(nextId := s.nextId + 1))
  {
    var l := PipeEndpoint.DoHiccup(View(s), s.nextId);
    assert l == View(s) && s.toYou + [] == s.toYou;
    assert s.store[s.me.inQueue := s.store[s.me.inQueue]] == s.store;
    if s.me.outQueue.Some? {
      assert s.store[s.me.outQueue.value := s.store[s.me.outQueue.value]] == s.store;
    }
  }

  lemma StepFlow(s: Sys, a: Action)
    requires FlowInv(s) && Enabled(s, a)
    requires Step(s, a).Next? ==> Uncrossed(Step(s, a).s)
    ensures Step(s, a).Next? && FlowInv(Step(s, a).s)
  {
    if a.DoHiccup? {
      if s.me.state.Active? {
        ActiveHiccupKeeps(s);
        var t := Step(s, a).s;
        assert Hiccup(s.nextId) in t.toYou;
        RenewFlow(s);
      } else {
        IdleHiccupFlow(s);
      }
    } else if !a.Deliver? {
      CallFlow(s, a);
    } else {
      DeliverFlow(s);
    }
  }

  lemma DeliverFlow(s: Sys)
    requires FlowInv(s) && s.toMe != []
    ensures Step(s, Deliver).Next? && FlowInv(Step(s, Deliver).s)
  {
    if s.toMe[0].PipeTermAck? {
      AckFlow(s);
    } else if s.toMe[0].Hiccup? {
      HiccupFlow(s);
    } else {
      HandleFlow(s);
    }
  }

  lemma FlowSwap(s: Sys)
    requires FlowInv(s)
    ensures FlowInv(Swap(s))
  {
  }

  lemma MoveFlow(s: Sys, mine: bool, a: Action)
    requires FlowInv(s)
    requires Move(s, mine, a).Next? ==> Uncrossed(Move(s, mine, a).s)
    ensures Move(s, mine, a).Next? && FlowInv(Move(s, mine, a).s)
  {
    if mine {
      if Enabled(s, a) {
        StepFlow(s, a);
      }
    } else {
      FlowSwap(s);
      if Enabled(Swap(s), a) {
        StepFlow(Swap(s), a);
        FlowSwap(Step(Swap(s), a).s);
      }
    }
  }

  /** No hiccup crosses a request to terminate in the whole run. */
  predicate UncrossedRun(s: Sys, trace: seq<(bool, Action)>) {
    && (Run(s, trace).Next? ==> Uncrossed(Run(s, trace).s))
    && (trace != [] ==> UncrossedRun(s, trace[..|trace| - 1]))
  }

  /** In every such run a sleeping reader with published messages has a wake-up in flight, no
      item is lost, reordered or invented between two hiccups, and a delimiter is the last
      thing a reader gets. */
  lemma {:induction false} EveryUncrossedRunFlows(hwm0: int, hwm1: int, trace: seq<(bool, Action)>)
    requires UncrossedRun(Init(hwm0, hwm1), trace)
    ensures Run(Init(hwm0, hwm1), trace).Next? && FlowInv(Run(Init(hwm0, hwm1), trace).s)
    decreases |trace|
  {
    if trace == [] {
      FlowInit(hwm0, hwm1);
    } else {
      EveryUncrossedRunFlows(hwm0, hwm1, trace[..|trace| - 1]);
      var (mine, a) := Last(trace);
      assert trace[|trace| - 1] == (mine, a);
      MoveFlow(Run(Init(hwm0, hwm1), trace[..|trace| - 1]).s, mine, a);
    }
  }

  predicate Calm(trace: seq<(bool, Action)>) {
    forall i :: 0 <= i < |trace| ==> !trace[i].1.DoHiccup?
  }

  /** In particular in every run without hiccups. */
  lemma {:induction false} CalmRunsAreUncrossed(hwm0: int, hwm1: int, trace: seq<(bool, Action)>)
    requires Calm(trace)
    ensures UncrossedRun(Init(hwm0, hwm1), trace) && Run(Init(hwm0, hwm1), trace).Next?
    ensures NoHiccups(Run(Init(hwm0, hwm1), trace).s.toMe) && NoHiccups(Run(Init(hwm0, hwm1), trace).s.toYou)
    decreases |trace|
  {
    if trace == [] {
    } else {
      var prefix := trace[..|trace| - 1];
      CalmRunsAreUncrossed(hwm0, hwm1, prefix);
      EveryRunIsSafe(hwm0, hwm1, prefix);
      var (mine, a) := Last(trace);
      assert trace[|trace| - 1] == (mine, a);
      CalmMove(Run(Init(hwm0, hwm1), prefix).s, mine, a);
    }
  }

  lemma CalmMove(s: Sys, mine: bool, a: Action)
    requires Inv(s) && NoHiccups(s.toMe) && NoHiccups(s.toYou) && !a.DoHiccup?
    ensures Move(s, mine, a).Next?
    ensures NoHiccups(Move(s, mine, a).s.toMe) && NoHiccups(Move(s, mine, a).s.toYou)
  {
    MoveKeeps(s, mine, a);
    var t := if mine then s else Swap(s);
    InvSwap(s);
    if Enabled(t, a) {
      CalmStep(t, a);
    }
  }

  lemma CalmStep(s: Sys, a: Action)
    requires Inv(s) && NoHiccups(s.toMe) && NoHiccups(s.toYou) && !a.DoHiccup? && Enabled(s, a) && Step(s, a).Next?
    ensures NoHiccups(Step(s, a).s.toMe) && NoHiccups(Step(s, a).s.toYou)
  {
    if a.Deliver? {
      ReceiverIsAlive(s);
      ViewReady(s);
      var c, rest := s.toMe[0], s.toMe[1..];
      assert c in s.toMe;
      assert forall d :: d in rest ==> d in s.toMe;
      if c.PipeTermAck? {
        SentKeepsHiccups(s.toYou, ProcessPipeTermAck(View(s)).sent);
      } else {
        CommandEffect(View(s), c, s.toMe, s.you);
        DeliverIsHandle(s);
        SentKeepsHiccups(s.toYou, Handle(View(s), c).sent);
      }
    } else {
      ViewReady(s);
      CallEffect(View(s), a);
      SentKeepsHiccups(s.toYou, Call(View(s), a).sent);
    }
  }

  // ---------------------------------------------------------------- delivery

  /** An endpoint that acknowledges after reading the delimiter, or after having
      read it earlier, has read everything its peer ever wrote and kept. */
  ghost predicate ReadEverything(reader: Endpoint, writer: Endpoint) {
    reader.got == writer.put && reader.got != [] && Last(reader.got).Delimiter?
  }

  lemma {:induction false} DelimiterReadIsLast(w: Endpoint, l: Local, toR: seq<Command>)
    requires l.Valid() && Open(l.e) && FlowOk(w, l.e, l.inQ, toR) && TermsSent(w) <= 1
    requires ReadMessage(l).0.e.state.TermAckSent?
    ensures ReadEverything(ReadMessage(l).0.e, w)
    decreases |l.inQ.items|
  {
    FetchFlow(w, l, toR);
    var (l1, x) := Fetch(l);
    if x.Some? && x.value.Msg? && x.value.credential {
      assert ReadMessage(l) == ReadMessage(l1);
      DelimiterReadIsLast(w, l1, toR);
    } else {
      TakenIsLast(w, l1, x);
    }
  }

  lemma TakenIsLast(w: Endpoint, l: Local, x: Option<Item>)
    requires Open(l.e) && Taken(l, x).0.e.state.TermAckSent?
    requires w.put == l.e.got + l.inQ.items
    requires x == Some(Delimiter) ==> l.inQ.items == [] && l.e.got != [] && Last(l.e.got).Delimiter?
    ensures ReadEverything(Taken(l, x).0.e, w)
  {
    assert l.e.got + [] == l.e.got;
  }

  lemma CallAcknowledges(w: Endpoint, l: Local, a: Action, toR: seq<Command>)
    requires Ready(l) && FlowOk(w, l.e, l.inQ, toR) && !l.e.state.TermAckSent? && TermsSent(w) <= 1
    requires !a.DoHiccup? && !a.Deliver? && (a.DoWrite? ==> a.x.Msg?)
    requires Call(l, a).e.state.TermAckSent?
    ensures (a.DoTerminate? && !a.delay) || ReadEverything(Call(l, a).e, w)
  {
    if a.DoRead? {
      DelimiterReadIsLast(w, l, toR);
    } else if a.DoCheckRead? {
      CheckReadAcknowledges(w, l, toR);
    } else {
      OthersDoNotAcknowledge(l, a);
    }
  }

  lemma CheckReadAcknowledges(w: Endpoint, l: Local, toR: seq<Command>)
    requires Ready(l) && FlowOk(w, l.e, l.inQ, toR) && !l.e.state.TermAckSent? && TermsSent(w) <= 1
    requires PipeEndpoint.CheckRead(l).0.e.state.TermAckSent?
    ensures ReadEverything(PipeEndpoint.CheckRead(l).0.e, w)
  {
    FetchFlow(w, l, toR);
    var l1 := Fetch(l).0;
    assert l1.e.got + [] == l1.e.got;
  }

  lemma OthersDoNotAcknowledge(l: Local, a: Action)
    requires Ready(l) && !l.e.state.TermAckSent? && !a.DoRead? && !a.DoCheckRead?
    requires !a.DoHiccup? && !a.Deliver? && (a.DoWrite? ==> a.x.Msg?)
    ensures Call(l, a).e.state.TermAckSent? ==> a.DoTerminate? && !a.delay
  {
    if a.DoTerminate? {
      TerminateKeepsReader(l, a.delay);
    } else {
      OthersKeepReader(l, a);
    }
  }

  /** Delivery: unless the endpoint was told to drop pending messages, by the flag
      set before the request arrived or by `terminate(false)`, everything its peer
      wrote into the queue and did not roll back has been read, in order, before a
      peer's request makes the endpoint acknowledge it and end in TermAckSent. */
  lemma AcknowledgesAfterReadingEverything(s: Sys, a: Action)
    requires FlowInv(s) && Enabled(s, a) && !a.DoHiccup?
    requires !s.me.state.TermAckSent?
    requires Step(s, a).Next? && Step(s, a).s.me.state.TermAckSent?
    ensures || (a.DoTerminate? && !a.delay)
            || (a.Deliver? && s.me.state.Active? && !s.me.delay)
            || ReadEverything(Step(s, a).s.me, s.you)
  {
    if !a.Deliver? {
      ViewReady(s);
      if NoHiccups(s.toYou) {
        CallAcknowledges(s.you, View(s), a, s.toMe);
      } else {
        RenewedDoesNotAcknowledge(s.you, View(s), a);
      }
    } else {
      DeliveryAcknowledges(s);
    }
  }

  lemma RenewedDoesNotAcknowledge(w: Endpoint, l: Local, a: Action)
    requires Ready(l) && Renewed(w, l.e, l.inQ) && !l.e.state.TermAckSent?
    requires !a.DoHiccup? && !a.Deliver? && (a.DoWrite? ==> a.x.Msg?)
    ensures Call(l, a).e.state.TermAckSent? ==> a.DoTerminate? && !a.delay
  {
    if !a.DoRead? && !a.DoCheckRead? {
      OthersDoNotAcknowledge(l, a);
    }
  }

  lemma DeliveryAcknowledges(s: Sys)
    requires FlowInv(s) && s.toMe != [] && !s.me.state.TermAckSent?
    requires Step(s, Deliver).Next? && Step(s, Deliver).s.me.state.TermAckSent?
    ensures (s.me.state.Active? && !s.me.delay) || ReadEverything(Step(s, Deliver).s.me, s.you)
  {
    ReceiverIsAlive(s);
    MyQueuesAreStored(s);
    if s.toMe[0].PipeTerm? {
      TermArrives(s);
      HandlingAcknowledges(s);
    } else {
      OtherCommandsKeepState(s);
    }
  }

  lemma OtherCommandsKeepState(s: Sys)
    requires Inv(s) && s.toMe != [] && !s.toMe[0].PipeTerm? && Step(s, Deliver).Next?
    ensures Step(s, Deliver).s.me.state == s.me.state
  {
    ReceiverIsAlive(s);
    MyQueuesAreStored(s);
    if s.toMe[0].PipeTermAck? {
      AckKeepsState(s);
    } else if s.toMe[0].Hiccup? {
      HiccupKeepsReaders(s);
    } else {
      ActivationKeepsState(s);
    }
  }

  lemma ActivationKeepsState(s: Sys)
    requires s.me.alive && Attached(s) && s.toMe != [] && Step(s, Deliver).Next?
    requires s.toMe[0].ActivateRead? || s.toMe[0].ActivateWrite?
    ensures Step(s, Deliver).s.me.state == s.me.state
  {
  }

  /** A request to terminate arrives where nothing crossed it. */
  lemma TermArrives(s: Sys)
    requires FlowInv(s) && s.toMe != [] && s.toMe[0].PipeTerm?
    ensures NoHiccups(s.toYou) && TermsSent(s.you) == 1
  {
    assert s.toMe[0] in multiset(s.toMe);
    FlowIsUncrossed(s);
  }

  lemma HandlingAcknowledges(s: Sys)
    requires s.toMe != [] && !s.toMe[0].PipeTermAck? && !s.toMe[0].Hiccup? && s.me.alive && Attached(s)
    requires !s.me.state.TermAckSent? && FlowOk(s.you, s.me, s.store[s.me.inQueue], s.toMe)
    requires Step(s, Deliver).Next? && Step(s, Deliver).s.me.state.TermAckSent?
    ensures (s.me.state.Active? && !s.me.delay) || ReadEverything(Step(s, Deliver).s.me, s.you)
  {
    DeliverIsHandle(s);
    HandleAcknowledges(s.you, View(s), s.toMe[0], s.toMe);
    assert Step(s, Deliver).s.me == Handle(View(s), s.toMe[0]).e;
  }

  lemma AckKeepsState(s: Sys)
    requires s.me.alive && Attached(s) && s.toMe != [] && s.toMe[0].PipeTermAck? && Step(s, Deliver).Next?
    ensures Step(s, Deliver).s.me.state == s.me.state
  {
  }

  lemma HandleAcknowledges(w: Endpoint, l: Local, c: Command, toR: seq<Command>)
    requires !c.Hiccup? && !c.PipeTermAck? && FlowOk(w, l.e, l.inQ, toR) && !l.e.state.TermAckSent?
    requires Handle(l, c).e.state.TermAckSent?
    ensures (l.e.state.Active? && !l.e.delay) || ReadEverything(Handle(l, c).e, w)
  {
    assert l.e.got + [] == l.e.got;
  }

  // ---------------------------------------------------------------- progress

  /** A reader that waits for the delimiter and has something to read. */
  predicate CanTake(e: Endpoint, store: map<nat, Queue<Item>>) {
    && e.alive && e.state.WaitingForDelimiter? && e.inActive
    && e.inQueue in store && store[e.inQueue].published > 0
  }

  predicate Terminating(s: Sys) {
    TermsSent(s.me) + TermsSent(s.you) > 0
  }

  /** A step that termination itself calls for: delivering a command, or reading
      what was published before the delimiter. */
  predicate Due(s: Sys, mine: bool, a: Action) {
    var t := if mine then s else Swap(s);
    (a.Deliver? && t.toMe != []) || (a.DoRead? && CanTake(t.me, t.store))
  }

  lemma WaitingReaderCanTake(s: Sys)
    requires FlowInv(s) && s.me.alive && s.me.state.WaitingForDelimiter? && s.toMe == []
    ensures CanTake(s.me, s.store)
  {
    FlowIsUncrossed(s);
    ReceivedMeansPeerTerminates(s.me, s.you, s.toMe);
    MyQueuesAreStored(s);
  }

  /** What being stuck means, whatever hiccups there were: once either end has asked to
      terminate, no step is due exactly when no command is in flight and an end waits for
      a delimiter that it cannot read. */
  lemma StuckExactly(s: Sys)
    requires Inv(s) && Terminating(s) && (s.me.alive || s.you.alive)
    ensures (forall mine, a :: !Due(s, mine, a)) <==>
              && s.toMe == [] && s.toYou == []
              && !CanTake(s.me, s.store) && !CanTake(s.you, s.store)
              && ((s.me.alive && s.me.state.WaitingForDelimiter?) || (s.you.alive && s.you.state.WaitingForDelimiter?))
  {
    if forall mine, a :: !Due(s, mine, a) {
      assert !Due(s, true, Deliver) && !Due(s, false, Deliver) && !Due(s, true, DoRead) && !Due(s, false, DoRead);
    }
  }

  /** Once either end has asked to terminate, and until both ends are gone, there
      is always a step that is due. */
  lemma NeverStuck(s: Sys)
    requires FlowInv(s) && Terminating(s) && (s.me.alive || s.you.alive)
    ensures exists mine, a :: Due(s, mine, a)
  {
    if forall mine, a :: !Due(s, mine, a) {
      StuckExactly(s);
      if s.me.alive && s.me.state.WaitingForDelimiter? {
        WaitingReaderCanTake(s);
      } else {
        FlowSwap(s);
        WaitingReaderCanTake(Swap(s));
      }
    }
  }

  function Unread(e: Endpoint, store: map<nat, Queue<Item>>): nat {
    if e.alive && e.inQueue in store then |store[e.inQueue].items| else 0
  }

  /** What is left to do: commands, unread items, and acknowledgements to send. */
  function Remaining(s: Sys): nat {
    |s.toMe| + |s.toYou| + 2 * Unread(s.me, s.store) + 2 * Unread(s.you, s.store)
    + (1 - AcksSent(s.me)) + (1 - AcksSent(s.you))
  }

  lemma {:induction false} ReadMessageCost(l: Local)
    requires l.Valid() && Open(l.e)
    ensures var l' := ReadMessage(l).0;
      && |l'.sent| + 2 * |l'.inQ.items| - AcksSent(l'.e) <= |l.sent| + 2 * |l.inQ.items|
      && (l.inQ.published > 0 ==> |l'.sent| + 2 * |l'.inQ.items| - AcksSent(l'.e) < |l.sent| + 2 * |l.inQ.items|)
      && (l'.outQ == l.outQ || l'.outQ == None)
      && l'.e.alive == l.e.alive && l'.e.inQueue == l.e.inQueue
    decreases |l.inQ.items|
  {
    var (l1, x) := Fetch(l);
    if x.None? || !x.value.Msg? || !x.value.credential {
    } else {
      ReadMessageCost(l1);
    }
  }

  lemma CommitRemaining(s: Sys, rest: seq<Command>, l: Local)
    requires Attached(s) && s.me.alive && l.e.alive && l.e.inQueue == s.me.inQueue
    requires l.outQ == View(s).outQ || l.outQ == None
    requires l.e.outQueue.Some? ==> l.e.outQueue == s.me.outQueue && l.e.outQueue.value != s.me.inQueue
    requires s.you.alive ==> s.me.inQueue != s.you.inQueue && s.you.inQueue in s.store
    requires Commit(s.(toMe := rest), l).Next?
    ensures Remaining(Commit(s.(toMe := rest), l).s) ==
      |rest| + |s.toYou| + |l.sent| + 2 * |l.inQ.items| + 2 * Unread(s.you, s.store) + (1 - AcksSent(l.e)) + (1 - AcksSent(s.you))
  {
    var t := Commit(s.(toMe := rest), l).s;
    assert t.store[s.me.inQueue] == l.inQ;
    assert s.you.alive ==> t.store[s.you.inQueue] == s.store[s.you.inQueue];
  }

  lemma ReadIsProgress(s: Sys)
    requires Inv(s) && CanTake(s.me, s.store)
    ensures Step(s, DoRead).Next? && Remaining(Step(s, DoRead).s) < Remaining(s)
  {
    CallKeeps(s, DoRead);
    QueuesDiffer(s);
    YourQueueIsStored(s);
    ViewReady(s);
    ReadMessageCost(View(s));
    var l := ReadMessage(View(s)).0;
    CallEffect(View(s), DoRead);
    assert Step(s, DoRead) == Commit(s, l);
    assert s.(toMe := s.toMe) == s;
    CommitRemaining(s, s.toMe, l);
  }

  lemma HandleCost(l: Local, c: Command)
    requires !c.Hiccup? && !c.PipeTermAck? && l.ok && l.sent == [] && l.e.alive && AcksSent(l.e) == 0 && Handle(l, c).ok
    ensures |Handle(l, c).sent| == AcksSent(Handle(l, c).e)
    ensures Handle(l, c).inQ == l.inQ && Handle(l, c).e.inQueue == l.e.inQueue && Handle(l, c).e.alive
    ensures Handle(l, c).outQ == l.outQ || Handle(l, c).outQ == None
  {
  }

  lemma HandleCostAcked(l: Local, c: Command)
    requires !c.Hiccup? && !c.PipeTermAck? && l.ok && l.sent == [] && l.e.alive && AcksSent(l.e) == 1 && Handle(l, c).ok
    ensures Handle(l, c).sent == [] && AcksSent(Handle(l, c).e) == 1
    ensures Handle(l, c).inQ == l.inQ && Handle(l, c).e.inQueue == l.e.inQueue && Handle(l, c).e.alive
    ensures Handle(l, c).outQ == l.outQ
  {
  }

  lemma HandleIsProgress(s: Sys)
    requires Inv(s) && s.toMe != [] && !s.toMe[0].PipeTermAck? && !s.toMe[0].Hiccup?
    ensures Step(s, Deliver).Next? && Remaining(Step(s, Deliver).s) < Remaining(s)
  {
    DeliverKeeps(s);
    QueuesDiffer(s);
    YourQueueIsStored(s);
    ReceiverIsAlive(s);
    ViewReady(s);
    var l, c := View(s), s.toMe[0];
    DeliverIsHandle(s);
    CommandEffect(l, c, s.toMe, s.you);
    if AcksSent(s.me) == 0 { HandleCost(l, c); } else { HandleCostAcked(l, c); }
    CommitRemaining(s, s.toMe[1..], Handle(l, c));
  }

  lemma AckIsProgress(s: Sys)
    requires Inv(s) && s.toMe != [] && s.toMe[0].PipeTermAck?
    ensures Step(s, Deliver).Next? && Remaining(Step(s, Deliver).s) < Remaining(s)
  {
    DeliverKeeps(s);
    AckKeepsReader(s);
    AckArrives(s.me, s.you, s.toMe, s.toYou);
  }

  lemma HiccupIsProgress(s: Sys)
    requires Inv(s) && s.toMe != [] && s.toMe[0].Hiccup?
    ensures Step(s, Deliver).Next? && Remaining(Step(s, Deliver).s) < Remaining(s)
  {
    HiccupKeepsReaders(s);
  }

  lemma DeliverIsProgress(s: Sys)
    requires Inv(s) && s.toMe != []
    ensures Step(s, Deliver).Next? && Remaining(Step(s, Deliver).s) < Remaining(s)
  {
    if s.toMe[0].PipeTermAck? {
      AckIsProgress(s);
    } else if s.toMe[0].Hiccup? {
      HiccupIsProgress(s);
    } else {
      HandleIsProgress(s);
    }
  }

  /** A due step of this end brings termination nearer, whatever hiccups there were. */
  lemma DueStep(s: Sys, a: Action)
    requires Inv(s) && Due(s, true, a)
    ensures Enabled(s, a) && Step(s, a).Next? && Remaining(Step(s, a).s) < Remaining(s)
  {
    if a.Deliver? {
      DeliverIsProgress(s);
    } else {
      ReadIsProgress(s);
    }
  }

  lemma RemainingSwap(s: Sys)
    ensures Remaining(Swap(s)) == Remaining(s)
  {
  }

  /** Every due step brings the end nearer. */
  lemma DueIsProgress(s: Sys, mine: bool, a: Action)
    requires Inv(s) && Due(s, mine, a)
    ensures Move(s, mine, a).Next? && Remaining(Move(s, mine, a).s) < Remaining(s)
  {
    if mine {
      DueStep(s, a);
    } else {
      InvSwap(s);
      DueStep(Swap(s), a);
      RemainingSwap(s);
      RemainingSwap(Step(Swap(s), a).s);
    }
  }

  lemma DueStepFlow(s: Sys, a: Action)
    requires FlowInv(s) && Due(s, true, a)
    ensures Enabled(s, a) && Step(s, a).Next? && FlowInv(Step(s, a).s)
  {
    if a.Deliver? {
      DeliverFlow(s);
    } else {
      CallKeeps(s, a);
      ViewReady(s);
      ReadShape(View(s));
      CallEffect(View(s), a);
      FlowIsUncrossed(s);
      SentKeepsHiccups(s.toYou, Call(View(s), a).sent);
      CallFlow(s, a);
    }
  }

  /** A due step makes no hiccup cross a request. */
  lemma DueFlow(s: Sys, mine: bool, a: Action)
    requires FlowInv(s) && Due(s, mine, a)
    ensures Move(s, mine, a).Next? && FlowInv(Move(s, mine, a).s)
  {
    if mine {
      DueStepFlow(s, a);
    } else {
      FlowSwap(s);
      DueStepFlow(Swap(s), a);
      FlowSwap(Step(Swap(s), a).s);
    }
  }

  /** A sequence of due steps. */
  ghost predicate Drains(s: Sys, trace: seq<(bool, Action)>)
    decreases |trace|
  {
    trace != [] ==>
      && Due(s, trace[0].0, trace[0].1)
      && Move(s, trace[0].0, trace[0].1).Next?
      && Drains(Move(s, trace[0].0, trace[0].1).s, trace[1..])
  }

  /** Where a sequence of due steps leads. */
  ghost function Drained(s: Sys, trace: seq<(bool, Action)>): Sys
    requires Drains(s, trace)
    decreases |trace|
  {
    if trace == [] then s else Drained(Move(s, trace[0].0, trace[0].1).s, trace[1..])
  }

  lemma TerminatingLasts(s: Sys, mine: bool, a: Action)
    requires Inv(s) && Terminating(s)
    ensures Move(s, mine, a).Next? && Terminating(Move(s, mine, a).s)
  {
    MoveKeeps(s, mine, a);
    LastStep(s, Move(s, mine, a).s, mine, a);
  }

  /** Due steps always come to an end, whatever hiccups there were. */
  lemma {:induction false} DueStepsEnd(s: Sys, trace: seq<(bool, Action)>)
    requires Inv(s) && Drains(s, trace)
    ensures |trace| <= Remaining(s)
    decreases |trace|
  {
    if trace == [] {
    } else {
      var (mine, a) := trace[0];
      DueIsProgress(s, mine, a);
      MoveKeeps(s, mine, a);
      DueStepsEnd(Move(s, mine, a).s, trace[1..]);
    }
  }
}
