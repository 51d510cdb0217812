/** What one end of a pipe wrote is what the other end reads, message by message, in every run:
    hiccups, rollbacks and crossing terminations included. */
module PipeStream {
  import opened Basics
  import opened Fifo
  import opened PipeEndpoint
  import opened PipePair
  import opened PipeFlow
  import opened PipeStranding
  import PipeDrift
  import opened PipeReading

  predicate Part(x: Item) {
    x.Msg? && x.more
  }

  /** The items do not end in the middle of a message. */
  predicate Whole(items: seq<Item>) {
    items == [] || !Part(Last(items))
  }

  /** Neither do the items taken so far and the first `n` of the queue. */
  predicate WholeAt(taken: seq<Item>, items: seq<Item>, n: nat)
    requires n <= |items|
  {
    if n == 0 then Whole(taken) else !Part(items[n - 1])
  }

  /** A queue whose first items are already taken: what is finished, what is published, and what
      comes before a delimiter are whole messages. */
  ghost predicate Framed(taken: seq<Item>, q: Queue<Item>) {
    && q.Valid()
    && WholeAt(taken, q.items, q.complete)
    && WholeAt(taken, q.items, q.published)
    && forall i :: 0 <= i < |q.items| && q.items[i].Delimiter? ==> WholeAt(taken, q.items, i)
  }

  /** The queue holds the newest items of the writer's history. */
  ghost predicate Logged(put: seq<Item>, q: Queue<Item>) {
    && |q.items| <= |put|
    && put == put[..|put| - |q.items|] + q.items
    && Framed(put[..|put| - |q.items|], q)
  }

  lemma LoggedBy(taken: seq<Item>, put: seq<Item>, q: Queue<Item>)
    requires put == taken + q.items
    ensures Framed(taken, q) <==> Logged(put, q)
  {
    assert put[..|put| - |q.items|] == taken;
  }

  /** The queue an end writes, in every run. */
  ghost predicate Writes(s: Sys) {
    s.me.outQueue.Some? ==> s.me.outQueue.value in s.store && Logged(s.me.put, s.store[s.me.outQueue.value])
  }

  /** One direction: the reader took what the writer put in and is no longer in the queue, or it has
      a new queue that the writer does not know of yet.  A reader stops at the end of a message. */
  ghost predicate Joined(w: Endpoint, r: Endpoint, store: map<nat, Queue<Item>>, toW: seq<Command>) {
    r.alive ==>
      && r.inQueue in store
      && (if NoHiccups(toW) then w.put == r.got + store[r.inQueue].items
          else r.got == [] && store[r.inQueue].items == [])
      && (Open(r) && !r.inActive ==> Whole(r.got))
  }

  // -------------------------------------------------------------- the writer's calls

  lemma AppendFramed(taken: seq<Item>, q: Queue<Item>, x: Item, incomplete: bool)
    requires Framed(taken, q) && x.Msg? && incomplete == x.more
    ensures Framed(taken, Fifo.Write(q, x, incomplete))
  {
    var q' := Fifo.Write(q, x, incomplete);
    forall i | 0 <= i < |q'.items| && q'.items[i].Delimiter? ensures WholeAt(taken, q'.items, i) {
      if i < |q.items| {
        assert q.items[i].Delimiter?;
      }
    }
  }

  lemma RollbackFramed(taken: seq<Item>, q: Queue<Item>)
    requires Framed(taken, q)
    ensures Framed(taken, q.(items := q.items[..q.complete]))
  {
    var q' := q.(items := q.items[..q.complete]);
    forall i | 0 <= i < |q'.items| && q'.items[i].Delimiter? ensures WholeAt(taken, q'.items, i) {
      assert q.items[i].Delimiter?;
    }
  }

  lemma FlushFramed(taken: seq<Item>, q: Queue<Item>)
    requires Framed(taken, q)
    ensures Framed(taken, Fifo.Flush(q).0)
  {}

  lemma RollbackLogs(l: Local, taken: seq<Item>)
    requires Ready(l) && l.outQ.Some? && Framed(taken, l.outQ.value) && l.e.put == taken + l.outQ.value.items
    ensures var l' := PipeEndpoint.Rollback(l);
      && l'.outQ.Some? && Framed(taken, l'.outQ.value) && l'.e.put == taken + l'.outQ.value.items
      && l'.outQ.value.items == l.outQ.value.items[..l.outQ.value.complete]
  {
    RollbackTakesBack(l);
    RollbackFramed(taken, l.outQ.value);
    var n := |l.e.put| - (|l.outQ.value.items| - l.outQ.value.complete);
    assert l.e.put[..n] == taken + l.outQ.value.items[..l.outQ.value.complete];
  }

  lemma WriteLogs(l: Local, x: Item, taken: seq<Item>)
    requires Ready(l) && l.outQ.Some? && Framed(taken, l.outQ.value) && l.e.put == taken + l.outQ.value.items && x.Msg?
    ensures var l' := PipeEndpoint.Write(l, x).0;
      && l'.outQ.Some? && Framed(taken, l'.outQ.value) && l'.e.put == taken + l'.outQ.value.items
  {
    WriteAppends(l, x);
    AppendFramed(taken, l.outQ.value, x, x.more);
    assert (taken + l.outQ.value.items) + [x] == taken + (l.outQ.value.items + [x]);
  }

  lemma TerminateLogs(l: Local, delay: bool, taken: seq<Item>)
    requires Ready(l) && l.outQ.Some? && Framed(taken, l.outQ.value) && l.e.put == taken + l.outQ.value.items
    requires Closes(l.e, delay)
    ensures var l' := Terminate(l, delay);
      && l'.outQ.Some? && Framed(taken, l'.outQ.value) && l'.e.put == taken + l'.outQ.value.items
  {
    TerminateCloses(l, delay);
    var q := l.outQ.value;
    ClosedFramed(taken, q, Terminate(l, delay).outQ.value);
    var n := |l.e.put| - (|q.items| - q.complete);
    assert l.e.put[..n] == taken + q.items[..q.complete];
    assert l.e.put[..n] + [Delimiter] == taken + (q.items[..q.complete] + [Delimiter]);
  }

  lemma ClosedFramed(taken: seq<Item>, q: Queue<Item>, q': Queue<Item>)
    requires Framed(taken, q) && q'.Valid() && q'.items == q.items[..q.complete] + [Delimiter]
    requires q'.complete == q'.published == q.complete + 1
    ensures Framed(taken, q')
  {
    forall i | 0 <= i < |q'.items| && q'.items[i].Delimiter? ensures WholeAt(taken, q'.items, i) {
      if i < q.complete {
        assert q.items[i].Delimiter?;
      }
    }
  }

  /** A call of the writer leaves the queue and the history alone, or changes both alike. */
  lemma CallLogs(l: Local, a: Action, taken: seq<Item>)
    requires Ready(l) && !a.DoHiccup? && !a.Deliver? && (a.DoWrite? ==> a.x.Msg?)
    requires l.outQ.Some? ==> Framed(taken, l.outQ.value) && l.e.put == taken + l.outQ.value.items
    ensures var l' := Call(l, a);
      && (l'.outQ.None? ==> l'.e.put == l.e.put)
      && (l'.outQ.Some? ==> l.outQ.Some? && Framed(taken, l'.outQ.value) && l'.e.put == taken + l'.outQ.value.items)
  {
    if l.outQ.None? {
      ClosedCall(l, a);
    } else if a.DoRead? {
      ReadShape(l);
    } else if a.DoCheckRead? {
      CheckReadShape(l);
    } else if a.DoWrite? {
      WriteLogs(l, a.x, taken);
    } else if a.DoRollback? {
      RollbackLogs(l, taken);
    } else if a.DoTerminate? {
      TerminateEnds(l, a.delay);
      if Closes(l.e, a.delay) { TerminateLogs(l, a.delay, taken); } else { DroppingKeepsPut(l, a.delay); }
    } else if a.DoFlush? {
      FlushFramed(taken, l.outQ.value);
    }
  }

  lemma DroppingKeepsPut(l: Local, delay: bool)
    requires Ready(l) && !Closes(l.e, delay)
    ensures Terminate(l, delay).e.put == l.e.put
  {}

  lemma ClosedCall(l: Local, a: Action)
    requires Ready(l) && !a.DoHiccup? && !a.Deliver? && (a.DoWrite? ==> a.x.Msg?) && l.outQ.None?
    ensures Call(l, a).outQ.None? && Call(l, a).e.put == l.e.put
  {
    if a.DoRead? {
      ReadShape(l);
    } else if a.DoCheckRead? {
      CheckReadShape(l);
    } else if a.DoTerminate? {
      TerminateEnds(l, a.delay);
      DroppingKeepsPut(l, a.delay);
    } else if a.DoWrite? {
      WriteAppends(l, a.x);
    }
  }

  // -------------------------------------------------------------- the reader's calls

  /** What taking from the front of a queue leaves. */
  lemma TookFramed(taken: seq<Item>, q: Queue<Item>, q': Queue<Item>, n: nat)
    requires Framed(taken, q) && Took(q, q', n)
    ensures Framed(taken + q.items[..n], q')
    ensures n == q.published ==> Whole(taken + q.items[..n])
  {
    var taken' := taken + q.items[..n];
    WholeTook(taken, q.items, n, q.complete);
    WholeTook(taken, q.items, n, q.published);
    forall i | 0 <= i < |q'.items| && q'.items[i].Delimiter? ensures WholeAt(taken', q'.items, i) {
      assert q.items[n + i].Delimiter?;
      WholeTook(taken, q.items, n, n + i);
    }
  }

  lemma WholeTook(taken: seq<Item>, items: seq<Item>, n: nat, k: nat)
    requires n <= k <= |items| && WholeAt(taken, items, k)
    ensures WholeAt(taken + items[..n], items[n..], k - n)
  {
    if n == 0 {
      assert taken + items[..0] == taken && items[0..] == items;
    }
  }

  /** Every call takes some published items from the front of the inbound queue.  An endpoint that stops
      reading has taken them all. */
  lemma CallTook(l: Local, a: Action) returns (n: nat)
    requires Ready(l) && !a.DoHiccup? && !a.Deliver? && (a.DoWrite? ==> a.x.Msg?)
    ensures var l' := Call(l, a);
      && Took(l.inQ, l'.inQ, n) && l'.e.got == l.e.got + l.inQ.items[..n]
      && (Open(l'.e) && !l'.e.inActive ==> Open(l.e) && (n == l.inQ.published || (!l.e.inActive && n == 0)))
  {
    if a.DoRead? {
      n := ReadTook(l);
    } else if a.DoCheckRead? {
      n := CheckReadTook(l);
    } else {
      n := 0;
      if a.DoTerminate? {
        TerminateKeepsReader(l, a.delay);
      } else {
        OthersKeepReader(l, a);
      }
      NothingTaken(l, Call(l, a));
    }
  }

  lemma NothingTaken(l: Local, l': Local)
    requires l.Valid() && l'.e.got == l.e.got
    requires l'.inQ == l.inQ || (l.inQ.published == 0 && l'.inQ == l.inQ.(asleep := true))
    ensures Took(l.inQ, l'.inQ, 0) && l'.e.got == l.e.got + l.inQ.items[..0]
  {
    assert l.inQ.items[0..] == l.inQ.items && l.e.got + l.inQ.items[..0] == l.e.got;
  }

  lemma ReadTook(l: Local) returns (n: nat)
    requires Ready(l)
    ensures var l' := PipeEndpoint.Read(l).0;
      && Took(l.inQ, l'.inQ, n) && l'.e.got == l.e.got + l.inQ.items[..n]
      && (Open(l'.e) && !l'.e.inActive ==> Open(l.e) && (n == l.inQ.published || (!l.e.inActive && n == 0)))
  {
    if !Awake(l.e) {
      n := 0;
      AsleepReadsNothing(l);
      NothingTaken(l, l);
    } else {
      FirstOrNone(l.inQ, 0);
      if i: nat :| First(l.inQ, i) {
        n := i + 1;
        if l.inQ.items[i].Msg? { ReadHandsOut(l, i); } else { ReadEnds(l, i); }
      } else {
        n := l.inQ.published;
        ReadFindsNothing(l);
      }
    }
  }

  lemma CheckReadTook(l: Local) returns (n: nat)
    requires Ready(l)
    ensures var l' := PipeEndpoint.CheckRead(l).0;
      && Took(l.inQ, l'.inQ, n) && l'.e.got == l.e.got + l.inQ.items[..n]
      && (Open(l'.e) && !l'.e.inActive ==> Open(l.e) && (n == l.inQ.published || (!l.e.inActive && n == 0)))
  {
    CheckTells(l);
    if Awake(l.e) && l.inQ.published > 0 && l.inQ.items[0].Delimiter? {
      n := 1;
      CheckEnds(l);
      assert l.inQ.items[..1] == [Delimiter];
    } else {
      n := 0;
      if !Awake(l.e) { AsleepReadsNothing(l); }
      NothingTaken(l, PipeEndpoint.CheckRead(l).0);
    }
  }

  // ------------------------------------------------------ steps: what this end writes

  lemma WriterCommits(s: Sys, rest: seq<Command>, l: Local)
    requires Attached(s) && Commit(s.(toMe := rest), l).Next? && l.e.inQueue == s.me.inQueue && l.Valid()
    requires l.e.outQueue == s.me.outQueue || l.e.outQueue == None
    requires s.me.outQueue.Some? ==> s.me.outQueue.value != s.me.inQueue
    requires l.outQ.Some? ==> Logged(l.e.put, l.outQ.value)
    ensures Writes(Commit(s.(toMe := rest), l).s)
  {}

  lemma WriterCalls(s: Sys, a: Action)
    requires Inv(s) && Writes(s) && Enabled(s, a) && !a.DoHiccup? && !a.Deliver?
    ensures Step(s, a).Next? && Writes(Step(s, a).s)
  {
    CallKeeps(s, a);
    ViewReady(s);
    QueuesDiffer(s);
    CallEffect(View(s), a);
    CallKeepsLog(View(s), a);
    assert s.(toMe := s.toMe) == s;
    WriterCommits(s, s.toMe, Call(View(s), a));
  }

  lemma CallKeepsLog(l: Local, a: Action)
    requires Ready(l) && !a.DoHiccup? && !a.Deliver? && (a.DoWrite? ==> a.x.Msg?)
    requires l.outQ.Some? ==> Logged(l.e.put, l.outQ.value)
    ensures Call(l, a).outQ.Some? ==> Logged(Call(l, a).e.put, Call(l, a).outQ.value)
  {
    var taken := if l.outQ.Some? then l.e.put[..|l.e.put| - |l.outQ.value.items|] else [];
    CallLogs(l, a, taken);
    if Call(l, a).outQ.Some? {
      LoggedBy(taken, Call(l, a).e.put, Call(l, a).outQ.value);
    }
  }

  lemma WriterRenews(s: Sys)
    requires Inv(s) && Writes(s) && s.me.alive
    ensures Step(s, DoHiccup).Next? && Writes(Step(s, DoHiccup).s)
  {
    ViewReady(s);
    if s.me.state.Active? {
      ActiveHiccupKeeps(s);
      PipeDrift.NewQueueIsFresh(s);
    } else {
      IdleHiccupShape(s);
    }
  }

  lemma HandleKeepsOut(l: Local, c: Command)
    requires !c.Hiccup? && !c.PipeTermAck?
    ensures var l' := Handle(l, c);
      && l'.e.put == l.e.put && l'.inQ == l.inQ && l'.e.got == l.e.got && (l'.outQ == l.outQ || l'.outQ == None)
  {}

  lemma WriterReceives(s: Sys)
    requires Inv(s) && Announced(s) && Writes(s) && s.toMe != []
    ensures Step(s, Deliver).Next? && Writes(Step(s, Deliver).s)
  {
    DeliverKeeps(s);
    ReceiverIsAlive(s);
    ViewReady(s);
    QueuesDiffer(s);
    if s.toMe[0].PipeTermAck? {
      AckArrives(s.me, s.you, s.toMe, s.toYou);
      PipeDrift.WriterEnds(s);
    } else if s.toMe[0].Hiccup? {
      WriterReplugs(s);
    } else {
      CommandEffect(View(s), s.toMe[0], s.toMe, s.you);
      DeliverIsHandle(s);
      HandleKeepsOut(View(s), s.toMe[0]);
      WriterCommits(s, s.toMe[1..], Handle(View(s), s.toMe[0]));
    }
  }

  lemma WriterReplugs(s: Sys)
    requires Inv(s) && Announced(s) && s.toMe != [] && s.toMe[0].Hiccup? && s.me.alive
    ensures Step(s, Deliver).Next? && Writes(Step(s, Deliver).s)
  {
    ViewReady(s);
    NewQueueIsStored(s);
    assert s.toMe[0] in s.toMe;
    assert Hiccups(s.toMe)[0] == s.toMe[0].queue;
    assert s.toMe[0].queue in Hiccups(s.toMe);
    NewQueueLogged(s.store[s.toMe[0].queue]);
    PluggedWrites(s);
  }

  lemma NewQueueLogged(q: Queue<Item>)
    requires q.Valid() && q.items == []
    ensures Logged([], q)
  {}

  lemma PluggedWrites(s: Sys)
    requires s.me.alive && s.toMe != [] && s.toMe[0].Hiccup? && Attached(s) && s.me.outQueue.Some?
    requires Usable(s.store, s.toMe[0].queue) && Logged([], s.store[s.toMe[0].queue])
    ensures Step(s, Deliver).Next? && Writes(Step(s, Deliver).s)
  {
    HiccupDelivered(s);
  }

  lemma WriterSteps(s: Sys, a: Action)
    requires Inv(s) && Announced(s) && Writes(s) && Enabled(s, a)
    ensures Step(s, a).Next? && Writes(Step(s, a).s)
  {
    if a.Deliver? {
      WriterReceives(s);
    } else if a.DoHiccup? {
      WriterRenews(s);
    } else {
      WriterCalls(s, a);
    }
  }

  // ----------------------------------------------- steps: what the other end writes

  lemma TookLogged(put: seq<Item>, q: Queue<Item>, q': Queue<Item>, n: nat)
    requires Logged(put, q) && Took(q, q', n)
    ensures Logged(put, q')
  {
    var taken := put[..|put| - |q.items|];
    TookFramed(taken, q, q', n);
    assert put == (taken + q.items[..n]) + q'.items;
    LoggedBy(taken + q.items[..n], put, q');
  }

  lemma ReaderCalls(s: Sys, a: Action)
    requires Inv(s) && Announced(s) && Writes(Swap(s)) && Enabled(s, a) && !a.DoHiccup? && !a.Deliver?
    ensures Step(s, a).Next? && Writes(Swap(Step(s, a).s))
  {
    CallKeeps(s, a);
    ViewReady(s);
    StepOnlyAppends(s, a);
    if s.you.outQueue.Some? {
      PipeDrift.OneOrNone(s);
      QueuesDiffer(s);
      CallEffect(View(s), a);
      var q := s.you.outQueue.value;
      if q == s.me.inQueue {
        var n := CallTook(View(s), a);
        TookLogged(s.you.put, s.store[q], Call(View(s), a).inQ, n);
      }
      ReaderCommits(s, a);
    }
  }

  lemma ReaderCommits(s: Sys, a: Action)
    requires s.me.alive && Attached(s) && Enabled(s, a) && !a.DoHiccup? && !a.Deliver? && Step(s, a).Next?
    requires s.you.outQueue.Some? && s.you.outQueue.value in s.store
    requires s.me.outQueue.Some? ==> s.me.outQueue.value != s.you.outQueue.value && s.me.outQueue.value != s.me.inQueue
    requires var l := Call(View(s), a);
      && l.e.inQueue == s.me.inQueue && (l.e.outQueue == s.me.outQueue || l.e.outQueue == None)
      && Logged(s.you.put, if s.you.outQueue.value == s.me.inQueue then l.inQ else s.store[s.you.outQueue.value])
    ensures Writes(Swap(Step(s, a).s))
  {}

  lemma ReaderRenews(s: Sys)
    requires Inv(s) && Writes(Swap(s)) && s.me.alive
    ensures Step(s, DoHiccup).Next? && Writes(Swap(Step(s, DoHiccup).s))
  {
    ViewReady(s);
    if s.me.state.Active? {
      ActiveHiccupKeeps(s);
      PipeDrift.NewQueueIsFresh(s);
    } else {
      IdleHiccupShape(s);
    }
  }

  lemma ReaderReceives(s: Sys)
    requires Inv(s) && Announced(s) && Writes(Swap(s)) && s.toMe != []
    ensures Step(s, Deliver).Next? && Writes(Swap(Step(s, Deliver).s))
  {
    DeliverKeeps(s);
    ReceiverIsAlive(s);
    ViewReady(s);
    StepOnlyAppends(s, Deliver);
    if s.you.outQueue.Some? {
      if s.toMe[0].PipeTermAck? {
        AckArrives(s.me, s.you, s.toMe, s.toYou);
      } else {
        PipeDrift.OneOrNone(s);
        if s.toMe[0].Hiccup? {
          assert s.toMe[0] in s.toMe;
          NewQueueIsStored(s);
          PipeDrift.ReplugKeepsOther(s, s.you.outQueue.value);
        } else {
          HandlingKeepsQueue(s, s.you.outQueue.value);
        }
      }
    }
  }

  lemma HandlingKeepsQueue(s: Sys, q: nat)
    requires s.me.alive && Attached(s) && s.toMe != [] && !s.toMe[0].PipeTermAck? && !s.toMe[0].Hiccup?
    requires Step(s, Deliver).Next? && q in s.store
    requires s.me.outQueue.Some? ==> s.me.outQueue.value != q
    ensures q in Step(s, Deliver).s.store && Step(s, Deliver).s.store[q] == s.store[q]
  {
    DeliverIsHandle(s);
    HandleKeepsOut(View(s), s.toMe[0]);
    HandleKeepsPlaces(View(s), s.toMe[0]);
  }

  lemma HandleKeepsPlaces(l: Local, c: Command)
    requires !c.Hiccup? && !c.PipeTermAck?
    ensures Handle(l, c).e.inQueue == l.e.inQueue
    ensures Handle(l, c).e.outQueue == l.e.outQueue || Handle(l, c).e.outQueue == None
  {}

  lemma ReaderSteps(s: Sys, a: Action)
    requires Inv(s) && Announced(s) && Writes(Swap(s)) && Enabled(s, a)
    ensures Step(s, a).Next? && Writes(Swap(Step(s, a).s))
  {
    if a.Deliver? {
      ReaderReceives(s);
    } else if a.DoHiccup? {
      ReaderRenews(s);
    } else {
      ReaderCalls(s, a);
    }
  }

  // ------------------------------------------ steps of the writer: the two ends stay joined

  lemma JoinedCalls(s: Sys, a: Action)
    requires Inv(s) && Writes(s) && Joined(s.me, s.you, s.store, s.toMe)
    requires Enabled(s, a) && !a.DoHiccup? && !a.Deliver?
    ensures Step(s, a).Next?
    ensures var t := Step(s, a).s; Joined(t.me, t.you, t.store, t.toMe)
  {
    CallKeeps(s, a);
    ViewReady(s);
    QueuesDiffer(s);
    YourQueueIsStored(s);
    var l := View(s);
    CallEffect(l, a);
    if s.you.alive && NoHiccups(s.toMe) {
      OneQueue(s);
      if l.outQ.Some? {
        LoggedBy(s.you.got, s.me.put, l.outQ.value);
      }
      CallLogs(l, a, s.you.got);
    }
    assert s.(toMe := s.toMe) == s;
    CommitShape(s, s.toMe, Call(l, a));
  }

  lemma JoinedRenews(s: Sys)
    requires Inv(s) && Joined(s.me, s.you, s.store, s.toMe) && s.me.alive
    ensures Step(s, DoHiccup).Next?
    ensures var t := Step(s, DoHiccup).s; Joined(t.me, t.you, t.store, t.toMe)
  {
    ViewReady(s);
    if s.me.state.Active? {
      ActiveHiccupKeeps(s);
      PipeDrift.NewQueueIsFresh(s);
    } else {
      IdleHiccupShape(s);
    }
  }

  lemma JoinedReceives(s: Sys)
    requires Inv(s) && Joined(s.me, s.you, s.store, s.toMe) && s.toMe != []
    ensures Step(s, Deliver).Next?
    ensures var t := Step(s, Deliver).s; Joined(t.me, t.you, t.store, t.toMe)
  {
    DeliverKeeps(s);
    ReceiverIsAlive(s);
    ViewReady(s);
    if s.toMe[0].PipeTermAck? {
      AckKeepsReader(s);
      var t := Step(s, Deliver).s;
      JoinedStays(s.me, t.me, s.you, s.store, t.store, s.toMe, t.toMe);
    } else if s.toMe[0].Hiccup? {
      HiccupKeepsReaders(s);
      var t := Step(s, Deliver).s;
      JoinedPlugged(s.me, t.me, s.you, s.store, t.store, s.toMe, t.toMe);
    } else {
      JoinedHandles(s);
    }
  }

  lemma JoinedStays(w: Endpoint, w': Endpoint, r: Endpoint, store: map<nat, Queue<Item>>, store': map<nat, Queue<Item>>,
                    toW: seq<Command>, toW': seq<Command>)
    requires Joined(w, r, store, toW) && w'.put == w.put && (NoHiccups(toW') <==> NoHiccups(toW))
    requires r.alive ==> r.inQueue in store' && store'[r.inQueue] == store[r.inQueue]
    ensures Joined(w', r, store', toW')
  {}

  /** The writer has plugged in a queue: the one being read, if no newer one was announced. */
  lemma JoinedPlugged(w: Endpoint, w': Endpoint, r: Endpoint, store: map<nat, Queue<Item>>, store': map<nat, Queue<Item>>,
                      toW: seq<Command>, toW': seq<Command>)
    requires Joined(w, r, store, toW) && w'.put == [] && !NoHiccups(toW)
    requires r.alive ==> r.inQueue in store' && store'[r.inQueue] == store[r.inQueue]
    ensures Joined(w', r, store', toW')
  {}

  lemma JoinedHandles(s: Sys)
    requires Inv(s) && Joined(s.me, s.you, s.store, s.toMe) && s.me.alive && Attached(s)
    requires s.toMe != [] && !s.toMe[0].PipeTermAck? && !s.toMe[0].Hiccup? && Step(s, Deliver).Next?
    ensures var t := Step(s, Deliver).s; Joined(t.me, t.you, t.store, t.toMe)
  {
    var c, rest := s.toMe[0], s.toMe[1..];
    assert s.toMe == [c] + rest;
    PoppedKeepsHiccups([c], rest);
    QueuesDiffer(s);
    YourQueueIsStored(s);
    HandleKeepsOut(View(s), c);
    HandleKeepsPlaces(View(s), c);
    DeliverIsHandle(s);
    HandleCommits(s, rest, Handle(View(s), c));
    var t := Step(s, Deliver).s;
    JoinedStays(s.me, t.me, s.you, s.store, t.store, s.toMe, t.toMe);
  }

  lemma HandleCommits(s: Sys, rest: seq<Command>, l: Local)
    requires Attached(s) && s.me.alive && Commit(s.(toMe := rest), l).Next?
    requires l.inQ == View(s).inQ && (l.outQ == View(s).outQ || l.outQ == None)
    requires l.e.inQueue == s.me.inQueue && (l.e.outQueue == s.me.outQueue || l.e.outQueue == None)
    ensures var t := Commit(s.(toMe := rest), l).s;
      && t.me == l.e && t.you == s.you && t.toMe == rest && t.toYou == s.toYou + l.sent
      && forall q :: q in s.store ==> q in t.store && t.store[q] == s.store[q]
  {}

  lemma JoinedWriterSteps(s: Sys, a: Action)
    requires Inv(s) && Writes(s) && Joined(s.me, s.you, s.store, s.toMe) && Enabled(s, a)
    ensures Step(s, a).Next?
    ensures var t := Step(s, a).s; Joined(t.me, t.you, t.store, t.toMe)
  {
    if a.Deliver? {
      JoinedReceives(s);
    } else if a.DoHiccup? {
      JoinedRenews(s);
    } else {
      JoinedCalls(s, a);
    }
  }

  // ------------------------------------------ steps of the reader: the two ends stay joined

  /** The queue that an end reads from is the one that the other end still writes. */
  lemma ReadsWhatIsWritten(s: Sys)
    requires Inv(s) && s.me.alive && Open(s.me) && NoHiccups(s.toYou)
    ensures s.you.outQueue == Some(s.me.inQueue) && s.me.inQueue in s.store
  {
    ActiveMeansPeerWrites(s.me, s.you, s.toMe, s.toYou);
    InvSwap(s);
    OneQueue(Swap(s));
    MyQueuesAreStored(s);
  }

  lemma JoinedReads(s: Sys, a: Action)
    requires Inv(s) && Writes(Swap(s)) && Joined(s.you, s.me, s.store, s.toYou)
    requires Enabled(s, a) && !a.DoHiccup? && !a.Deliver?
    ensures Step(s, a).Next?
    ensures var t := Step(s, a).s; Joined(t.you, t.me, t.store, t.toYou)
  {
    CallKeeps(s, a);
    ViewReady(s);
    QueuesDiffer(s);
    YourQueueIsStored(s);
    var l := View(s);
    CallEffect(l, a);
    var n := CallTook(l, a);
    if Open(s.me) && NoHiccups(s.toYou) {
      ReadsWhatIsWritten(s);
      LoggedBy(s.me.got, s.you.put, l.inQ);
      TookFramed(s.me.got, l.inQ, Call(l, a).inQ, n);
    }
    JoinedCommits(s, a, n);
  }

  lemma JoinedCommits(s: Sys, a: Action, n: nat)
    requires s.me.alive && Attached(s) && Enabled(s, a) && !a.DoHiccup? && !a.Deliver? && Step(s, a).Next?
    requires Joined(s.you, s.me, s.store, s.toYou)
    requires s.me.outQueue.Some? ==> s.me.outQueue.value != s.me.inQueue
    requires var l, l' := View(s), Call(View(s), a);
      && l'.e.inQueue == s.me.inQueue && (l'.e.outQueue == s.me.outQueue || l'.e.outQueue == None)
      && NoHiccups(l'.sent) && Took(l.inQ, l'.inQ, n) && l'.e.got == l.e.got + l.inQ.items[..n]
      && (Open(l'.e) && !l'.e.inActive ==> Open(l.e) && (n == l.inQ.published || (!l.e.inActive && n == 0)))
      && (Open(l.e) && NoHiccups(s.toYou) && n == l.inQ.published ==> Whole(l'.e.got))
    ensures var t := Step(s, a).s; Joined(t.you, t.me, t.store, t.toYou)
  {
    var l', t := Call(View(s), a), Step(s, a).s;
    SentKeepsHiccups(s.toYou, l'.sent);
    ReaderStored(s, a);
    JoinedTook(s.you, s.me, l'.e, s.store, t.store, s.toYou, t.toYou, n);
  }

  lemma JoinedTook(w: Endpoint, r: Endpoint, r': Endpoint, store: map<nat, Queue<Item>>, store': map<nat, Queue<Item>>,
                   toW: seq<Command>, toW': seq<Command>, n: nat)
    requires Joined(w, r, store, toW) && r.alive && r'.inQueue == r.inQueue && r.inQueue in store'
    requires Took(store[r.inQueue], store'[r.inQueue], n) && r'.got == r.got + store[r.inQueue].items[..n]
    requires NoHiccups(toW') <==> NoHiccups(toW)
    requires Open(r') && !r'.inActive ==> Open(r) && (n == store[r.inQueue].published || (!r.inActive && n == 0))
    requires Open(r) && NoHiccups(toW) && n == store[r.inQueue].published ==> Whole(r'.got)
    ensures Joined(w, r', store', toW')
  {
    var items := store[r.inQueue].items;
    assert r.got + items == (r.got + items[..n]) + items[n..];
    assert n == 0 ==> r'.got == r.got;
  }

  lemma ReaderStored(s: Sys, a: Action)
    requires s.me.alive && Attached(s) && Enabled(s, a) && !a.DoHiccup? && !a.Deliver? && Step(s, a).Next?
    requires s.me.outQueue.Some? ==> s.me.outQueue.value != s.me.inQueue
    requires var l' := Call(View(s), a);
      l'.e.inQueue == s.me.inQueue && (l'.e.outQueue == s.me.outQueue || l'.e.outQueue == None)
    ensures var t, l' := Step(s, a).s, Call(View(s), a);
      && t.me == l'.e && t.you == s.you && t.toYou == s.toYou + l'.sent
      && s.me.inQueue in t.store && t.store[s.me.inQueue] == l'.inQ
  {}

  lemma JoinedRenewed(s: Sys)
    requires Inv(s) && Joined(s.you, s.me, s.store, s.toYou) && s.me.alive
    ensures Step(s, DoHiccup).Next?
    ensures var t := Step(s, DoHiccup).s; Joined(t.you, t.me, t.store, t.toYou)
  {
    ViewReady(s);
    if s.me.state.Active? {
      ActiveHiccupKeeps(s);
      assert Hiccup(s.nextId) in Step(s, DoHiccup).s.toYou;
    } else {
      IdleHiccupShape(s);
    }
  }

  lemma JoinedReceived(s: Sys)
    requires Inv(s) && Joined(s.you, s.me, s.store, s.toYou) && s.toMe != []
    ensures Step(s, Deliver).Next?
    ensures var t := Step(s, Deliver).s; Joined(t.you, t.me, t.store, t.toYou)
  {
    DeliverKeeps(s);
    ReceiverIsAlive(s);
    ViewReady(s);
    if s.toMe[0].PipeTermAck? {
      AckKeepsReader(s);
    } else if s.toMe[0].Hiccup? {
      HiccupKeepsReaders(s);
      var t := Step(s, Deliver).s;
      JoinedResumes(s.you, s.me, t.me, s.store, t.store, s.toYou, t.toYou);
    } else {
      JoinedHandled(s);
    }
  }

  lemma JoinedResumes(w: Endpoint, r: Endpoint, r': Endpoint, store: map<nat, Queue<Item>>, store': map<nat, Queue<Item>>,
                      toW: seq<Command>, toW': seq<Command>)
    requires Joined(w, r, store, toW) && r.alive && (NoHiccups(toW') <==> NoHiccups(toW))
    requires r'.inQueue == r.inQueue && r'.got == r.got && r.inQueue in store' && store'[r.inQueue] == store[r.inQueue]
    requires Open(r') ==> Open(r) && (r.inActive ==> r'.inActive)
    ensures Joined(w, r', store', toW')
  {}

  lemma JoinedHandled(s: Sys)
    requires Inv(s) && Joined(s.you, s.me, s.store, s.toYou) && s.me.alive && Attached(s) && Ready(View(s))
    requires s.toMe != [] && !s.toMe[0].PipeTermAck? && !s.toMe[0].Hiccup? && Step(s, Deliver).Next?
    ensures var t := Step(s, Deliver).s; Joined(t.you, t.me, t.store, t.toYou)
  {
    var c, l := s.toMe[0], View(s);
    CommandEffect(l, c, s.toMe, s.you);
    SentKeepsHiccups(s.toYou, Handle(l, c).sent);
    HandleKeepsOut(l, c);
    HandleKeepsPlaces(l, c);
    HandleTerms(l, c);
    DeliverIsHandle(s);
    HandleCommits(s, s.toMe[1..], Handle(l, c));
    var t := Step(s, Deliver).s;
    JoinedResumes(s.you, s.me, t.me, s.store, t.store, s.toYou, t.toYou);
  }

  lemma JoinedReaderSteps(s: Sys, a: Action)
    requires Inv(s) && Writes(Swap(s)) && Joined(s.you, s.me, s.store, s.toYou) && Enabled(s, a)
    ensures Step(s, a).Next?
    ensures var t := Step(s, a).s; Joined(t.you, t.me, t.store, t.toYou)
  {
    if a.Deliver? {
      JoinedReceived(s);
    } else if a.DoHiccup? {
      JoinedRenewed(s);
    } else {
      JoinedReads(s, a);
    }
  }

  // --------------------------------------------------------------- every run

  /** Both directions. */
  ghost predicate StreamInv(s: Sys) {
    && Writes(s) && Writes(Swap(s))
    && Joined(s.me, s.you, s.store, s.toMe)
    && Joined(s.you, s.me, s.store, s.toYou)
  }

  lemma StartsJoined(hwm0: int, hwm1: int)
    ensures StreamInv(Init(hwm0, hwm1))
  {
    NewQueueLogged(Empty());
  }

  lemma StepJoins(s: Sys, a: Action)
    requires Inv(s) && Announced(s) && StreamInv(s) && Enabled(s, a)
    ensures Step(s, a).Next? && StreamInv(Step(s, a).s)
  {
    WriterSteps(s, a);
    ReaderSteps(s, a);
    JoinedWriterSteps(s, a);
    JoinedReaderSteps(s, a);
  }

  lemma StreamSwap(s: Sys)
    requires StreamInv(s)
    ensures StreamInv(Swap(s))
  {
    PipeDrift.SwapTwice(s);
  }

  lemma MoveJoins(s: Sys, mine: bool, a: Action)
    requires Inv(s) && Announced(s) && StreamInv(s)
    ensures Move(s, mine, a).Next? && StreamInv(Move(s, mine, a).s)
  {
    if mine {
      if Enabled(s, a) {
        StepJoins(s, a);
      }
    } else {
      PipeDrift.BothSwap(s);
      StreamSwap(s);
      if Enabled(Swap(s), a) {
        StepJoins(Swap(s), a);
        StreamSwap(Step(Swap(s), a).s);
      }
    }
  }

  /** In every run, whatever crosses: each reader has taken exactly what its peer put in and is no longer
      queued, and what is finished, published or taken before a delimiter is whole messages. */
  lemma {:induction false} EveryRunIsJoined(hwm0: int, hwm1: int, trace: seq<(bool, Action)>)
    ensures Run(Init(hwm0, hwm1), trace).Next? && StreamInv(Run(Init(hwm0, hwm1), trace).s)
    decreases |trace|
  {
    if trace == [] {
      StartsJoined(hwm0, hwm1);
    } else {
      var prefix := trace[..|trace| - 1];
      EveryRunIsJoined(hwm0, hwm1, prefix);
      EveryRunIsAnnounced(hwm0, hwm1, prefix);
      EveryRunIsSafe(hwm0, hwm1, prefix);
      MoveJoins(Run(Init(hwm0, hwm1), prefix).s, Last(trace).0, Last(trace).1);
    }
  }

  /** A reader in the middle of a message can go on: the rest of it is there already. */
  lemma RestIsThere(s: Sys)
    requires Inv(s) && StreamInv(s) && s.me.alive && Open(s.me) && s.me.got != [] && Part(Last(s.me.got))
    ensures Attached(s) && PipeEndpoint.CheckRead(View(s)).1
  {
    ViewReady(s);
    ReadsWhatIsWritten(s);
    var q := s.store[s.me.inQueue];
    LoggedBy(s.me.got, s.you.put, q);
    CheckTells(View(s));
  }

  // ---------------------------------------------- what all writes and rollbacks left

  /** Without the parts after the last finished message. */
  function WithoutTail(items: seq<Item>): seq<Item> {
    if items != [] && Part(Last(items)) then WithoutTail(items[..|items| - 1]) else items
  }

  /** What this endpoint's user has written and kept since the last hiccup of the peer arrived, after one
      more step. */
  function WroteBy(s: Sys, a: Action, wrote: seq<Item>): seq<Item> {
    if !Enabled(s, a) || !s.me.alive || !Attached(s) then wrote else
    match a
    case DoWrite(x) => if PipeEndpoint.Write(View(s), x).1 then wrote + [x] else wrote
    case DoRollback => if s.me.outQueue.Some? then WithoutTail(wrote) else wrote
    case DoTerminate(delay) => if Closes(s.me, delay) then WithoutTail(wrote) + [Delimiter] else wrote
    case Deliver => if s.toMe[0].Hiccup? then [] else wrote
    case _ => wrote
  }

  /** The results of all writes of this endpoint in a run, less what was taken back. */
  function Wrote(s: Sys, trace: seq<(bool, Action)>): seq<Item> {
    if trace == [] then [] else
    var prefix := trace[..|trace| - 1];
    match Run(s, prefix)
    case Next(t) => if Last(trace).0 then WroteBy(t, Last(trace).1, Wrote(s, prefix)) else Wrote(s, prefix)
    case Failed(_) => Wrote(s, prefix)
  }

  /** And of the other one. */
  function WrotePeer(s: Sys, trace: seq<(bool, Action)>): seq<Item> {
    if trace == [] then [] else
    var prefix := trace[..|trace| - 1];
    match Run(s, prefix)
    case Next(t) => if Last(trace).0 then WrotePeer(s, prefix) else WroteBy(Swap(t), Last(trace).1, WrotePeer(s, prefix))
    case Failed(_) => WrotePeer(s, prefix)
  }

  lemma {:induction false} TailDropped(items: seq<Item>, n: nat)
    requires n <= |items| && Whole(items[..n]) && forall i :: n <= i < |items| ==> Part(items[i])
    ensures WithoutTail(items) == items[..n]
    decreases |items|
  {
    if n == |items| {
      assert items[..n] == items;
    } else {
      assert items[..|items| - 1][..n] == items[..n];
      TailDropped(items[..|items| - 1], n);
    }
  }

  lemma FinishedTail(taken: seq<Item>, q: Queue<Item>)
    requires Framed(taken, q) && Unfinished(q)
    ensures WithoutTail(taken + q.items) == taken + q.items[..q.complete]
  {
    var put, n := taken + q.items, |taken| + q.complete;
    assert put[..n] == taken + q.items[..q.complete];
    WholeJoins(taken, q.items, q.complete);
    forall i | n <= i < |put| ensures Part(put[i]) {
      assert put[i] == q.items[i - |taken|];
    }
    TailDropped(put, n);
  }

  lemma WholeJoins(taken: seq<Item>, items: seq<Item>, n: nat)
    requires n <= |items| && WholeAt(taken, items, n)
    ensures Whole(taken + items[..n])
  {
    if n == 0 {
      assert taken + items[..0] == taken;
    }
  }

  /** A rollback leaves exactly the finished messages. */
  lemma FinishedAreKept(put: seq<Item>, q: Queue<Item>)
    requires Logged(put, q) && Unfinished(q)
    ensures |q.items| - q.complete <= |put|
    ensures WithoutTail(put) == put[..|put| - (|q.items| - q.complete)]
  {
    var taken := put[..|put| - |q.items|];
    FinishedTail(taken, q);
    assert put[..|put| - (|q.items| - q.complete)] == taken + q.items[..q.complete];
  }

  lemma CallWrote(s: Sys, a: Action)
    requires Enabled(s, a) && Attached(s) && Ready(View(s)) && Writes(s) && !a.DoHiccup? && !a.Deliver?
    ensures Call(View(s), a).e.put == WroteBy(s, a, s.me.put)
  {
    var l := View(s);
    match a
    case DoRead => ReadShape(l);
    case DoCheckRead => CheckReadShape(l);
    case DoWrite(x) => WriteAppends(l, x);
    case DoRollback => RollbackWrote(s);
    case DoTerminate(delay) => TerminateWrote(s, delay);
    case _ => OthersKeepPut(l, a);
  }

  lemma OthersKeepPut(l: Local, a: Action)
    requires Ready(l) && (a.DoCheckWrite? || a.DoFlush? || a.DoSetNoDelay?)
    ensures Call(l, a).e.put == l.e.put
  {}

  lemma RollbackWrote(s: Sys)
    requires s.me.alive && Attached(s) && Ready(View(s)) && Writes(s)
    ensures PipeEndpoint.Rollback(View(s)).e.put == if s.me.outQueue.Some? then WithoutTail(s.me.put) else s.me.put
  {
    var l := View(s);
    if l.outQ.Some? {
      FinishedAreKept(s.me.put, l.outQ.value);
      RollbackTakesBack(l);
    }
  }

  lemma TerminateWrote(s: Sys, delay: bool)
    requires s.me.alive && Attached(s) && Ready(View(s)) && Writes(s)
    ensures Terminate(View(s), delay).e.put == if Closes(s.me, delay) then WithoutTail(s.me.put) + [Delimiter] else s.me.put
  {
    var l := View(s);
    if Closes(s.me, delay) {
      FinishedAreKept(s.me.put, l.outQ.value);
      TerminateCloses(l, delay);
    } else {
      DroppingKeepsPut(l, delay);
    }
  }

  lemma DeliveryWrote(s: Sys)
    requires Inv(s) && s.toMe != []
    ensures Step(s, Deliver).Next? && Step(s, Deliver).s.me.put == if s.toMe[0].Hiccup? then [] else s.me.put
  {
    DeliverKeeps(s);
    ReceiverIsAlive(s);
    ViewReady(s);
    if s.toMe[0].Hiccup? {
      HiccupKeepsReaders(s);
    } else if s.toMe[0].PipeTermAck? {
      AckKeepsReader(s);
    } else {
      DeliverIsHandle(s);
      HandleKeepsOut(View(s), s.toMe[0]);
      CommittedEndpoint(s, s.toMe[1..], Handle(View(s), s.toMe[0]));
    }
  }

  lemma StepWrote(s: Sys, a: Action)
    requires Inv(s) && Writes(s) && Enabled(s, a)
    ensures Step(s, a).Next? && Step(s, a).s.me.put == WroteBy(s, a, s.me.put)
  {
    MoveKeeps(s, true, a);
    ViewReadyIfAlive(s);
    if a.Deliver? {
      DeliveryWrote(s);
      ReceiverIsAlive(s);
    } else if a.DoHiccup? {
      if s.me.state.Active? { ActiveHiccupKeeps(s); } else { IdleHiccupShape(s); }
    } else {
      CallWrote(s, a);
      assert s.(toMe := s.toMe) == s;
      CommittedEndpoint(s, s.toMe, Call(View(s), a));
    }
  }

  lemma MoveWrote(s: Sys, mine: bool, a: Action)
    requires Inv(s) && Writes(s)
    ensures Move(s, mine, a).Next?
    ensures Move(s, mine, a).s.me.put == if mine then WroteBy(s, a, s.me.put) else s.me.put
  {
    MoveKeeps(s, mine, a);
    MoveShape(s, mine, a);
    if mine && Enabled(s, a) {
      StepWrote(s, a);
    }
  }

  lemma MoveWrotePeer(s: Sys, mine: bool, a: Action)
    requires Inv(s) && Writes(Swap(s))
    ensures Move(s, mine, a).Next?
    ensures Move(s, mine, a).s.you.put == if mine then s.you.put else WroteBy(Swap(s), a, s.you.put)
  {
    MoveKeeps(s, mine, a);
    MoveShape(s, mine, a);
    InvSwap(s);
    if !mine && Enabled(Swap(s), a) {
      StepWrote(Swap(s), a);
    }
  }

  /** In every run the history of an end is the list of its accepted writes, without the unfinished ones
      that were rolled back. */
  lemma {:induction false} WritesAreKept(hwm0: int, hwm1: int, trace: seq<(bool, Action)>)
    ensures Run(Init(hwm0, hwm1), trace).Next?
    ensures Wrote(Init(hwm0, hwm1), trace) == Run(Init(hwm0, hwm1), trace).s.me.put
    ensures WrotePeer(Init(hwm0, hwm1), trace) == Run(Init(hwm0, hwm1), trace).s.you.put
    decreases |trace|
  {
    if trace == [] {
    } else {
      var prefix := trace[..|trace| - 1];
      WritesAreKept(hwm0, hwm1, prefix);
      EveryRunIsSafe(hwm0, hwm1, prefix);
      EveryRunIsJoined(hwm0, hwm1, prefix);
      var s := Run(Init(hwm0, hwm1), prefix).s;
      MoveWrote(s, Last(trace).0, Last(trace).1);
      MoveWrotePeer(s, Last(trace).0, Last(trace).1);
    }
  }

  /** From user to user, in every run and until the reader is deallocated: what its reads handed out and
      the messages still queued are together what the peer's writes were accepted and kept, credentials
      aside.  After a hiccup that the peer has not seen yet, nothing was handed out. */
  lemma {:induction false} ReadsFollowWrites(hwm0: int, hwm1: int, trace: seq<(bool, Action)>)
    ensures Run(Init(hwm0, hwm1), trace).Next?
    ensures var s0, s := Init(hwm0, hwm1), Run(Init(hwm0, hwm1), trace).s;
      s.you.alive ==>
        && s.you.inQueue in s.store
        && (NoHiccups(s.toMe) ==> Given(Wrote(s0, trace)) == ToldPeer(s0, trace) + Given(s.store[s.you.inQueue].items))
        && (!NoHiccups(s.toMe) ==> ToldPeer(s0, trace) == [])
    ensures var s0, s := Init(hwm0, hwm1), Run(Init(hwm0, hwm1), trace).s;
      s.me.alive ==>
        && s.me.inQueue in s.store
        && (NoHiccups(s.toYou) ==> Given(WrotePeer(s0, trace)) == Told(s0, trace) + Given(s.store[s.me.inQueue].items))
        && (!NoHiccups(s.toYou) ==> Told(s0, trace) == [])
  {
    WritesAreKept(hwm0, hwm1, trace);
    ReadsHandOutTheStream(hwm0, hwm1, trace);
    EveryRunIsJoined(hwm0, hwm1, trace);
    var s := Run(Init(hwm0, hwm1), trace).s;
    if s.you.alive {
      GivenAppend(s.you.got, s.store[s.you.inQueue].items);
    }
    if s.me.alive {
      GivenAppend(s.me.got, s.store[s.me.inQueue].items);
    }
  }
}
