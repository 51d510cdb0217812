/** A hiccup that crosses a request to terminate takes the delimiter away: an end that waits
    for the delimiter waits for ever. */
module PipeStranding {
  import opened Basics
  import opened Fifo
  import opened PipeEndpoint
  import opened PipePair
  import opened PipeFlow

  /** The queues hold nothing. */
  ghost predicate Clean(store: map<nat, Queue<Item>>, qs: seq<nat>) {
    forall q :: q in qs && q in store ==> store[q].items == []
  }

  /** Nobody has written into the queues that hiccups in flight announce. */
  ghost predicate Announced(s: Sys) {
    Clean(s.store, Hiccups(s.toMe)) && Clean(s.store, Hiccups(s.toYou))
  }

  /** A step does not add the item to the queue. */
  ghost predicate NotAdded(s: Sys, t: Sys, q: nat, x: Item) {
    q in t.store && x in t.store[q].items ==> q in s.store && x in s.store[q].items
  }

  // --------------------------------------------------------- who adds what where

  lemma {:induction false} ReadMessageTakes(l: Local, x: Item)
    requires l.Valid()
    ensures x in ReadMessage(l).0.inQ.items ==> x in l.inQ.items
    decreases |l.inQ.items|
  {
    var (l1, y) := Fetch(l);
    if y.None? || !y.value.Msg? || !y.value.credential {
    } else {
      ReadMessageTakes(l1, x);
    }
  }

  lemma CallTakes(l: Local, a: Action, x: Item)
    requires Ready(l) && !a.DoHiccup? && !a.Deliver? && (a.DoWrite? ==> a.x.Msg?)
    ensures x in Call(l, a).inQ.items ==> x in l.inQ.items
  {
    if a.DoRead? {
      ReadMessageTakes(l, x);
    } else if a.DoTerminate? {
      TerminateKeepsReader(l, a.delay);
    } else if !a.DoCheckRead? {
      OthersKeepReader(l, a);
    }
  }

  lemma CommitTakes(s: Sys, rest: seq<Command>, l: Local, q: nat, x: Item)
    requires Attached(s) && Commit(s.(toMe := rest), l).Next? && l.e.inQueue == s.me.inQueue
    requires l.e.outQueue == s.me.outQueue || l.e.outQueue == None
    requires x in l.inQ.items ==> x in s.store[s.me.inQueue].items
    requires s.me.outQueue != Some(q)
    ensures NotAdded(s, Commit(s.(toMe := rest), l).s, q, x)
  {
  }

  /** An end adds to no queue but the one it writes. */
  lemma OnlyOutGrows(s: Sys, a: Action, q: nat, x: Item)
    requires Inv(s) && Enabled(s, a) && s.me.outQueue != Some(q)
    ensures Step(s, a).Next? && NotAdded(s, Step(s, a).s, q, x)
  {
    if a.Deliver? {
      DeliveryTakes(s, q, x);
    } else if a.DoHiccup? {
      RenewalTakes(s, q, x);
    } else {
      CallKeeps(s, a);
      ViewReady(s);
      CallEffect(View(s), a);
      CallingTakes(s, a, q, x);
    }
  }

  lemma RenewalTakes(s: Sys, q: nat, x: Item)
    requires Inv(s) && s.me.alive
    ensures Step(s, DoHiccup).Next? && NotAdded(s, Step(s, DoHiccup).s, q, x)
  {
    MyQueuesAreStored(s);
    if s.me.state.Active? {
      ActiveHiccupKeeps(s);
    } else {
      IdleHiccupShape(s);
    }
  }

  lemma CallingTakes(s: Sys, a: Action, q: nat, x: Item)
    requires Enabled(s, a) && !a.DoHiccup? && !a.Deliver? && s.me.alive && Attached(s) && Ready(View(s))
    requires Step(s, a).Next? && Effect(s.me, [], Call(View(s), a)) && s.me.outQueue != Some(q)
    ensures NotAdded(s, Step(s, a).s, q, x)
  {
    CallTakes(View(s), a, x);
    assert s.(toMe := s.toMe) == s;
    CommitTakes(s, s.toMe, Call(View(s), a), q, x);
  }

  lemma DeliveryTakes(s: Sys, q: nat, x: Item)
    requires Inv(s) && s.toMe != [] && s.me.outQueue != Some(q)
    ensures Step(s, Deliver).Next? && NotAdded(s, Step(s, Deliver).s, q, x)
  {
    DeliverKeeps(s);
    ReceiverIsAlive(s);
    ViewReady(s);
    if s.toMe[0].Hiccup? {
      HiccupKeepsReaders(s);
      NewQueueIsStored(s);
      PluggingTakes(s, q, x);
    } else if s.toMe[0].PipeTermAck? {
      DeletionTakes(s, q, x);
    } else {
      CommandEffect(View(s), s.toMe[0], s.toMe, s.you);
      HandlingTakes(s, q, x);
    }
  }

  lemma PluggingTakes(s: Sys, q: nat, x: Item)
    requires s.me.alive && s.toMe != [] && s.toMe[0].Hiccup? && Attached(s) && s.me.outQueue.Some?
    requires Usable(s.store, s.toMe[0].queue)
    ensures Step(s, Deliver).Next? && NotAdded(s, Step(s, Deliver).s, q, x)
  {
    HiccupDelivered(s);
  }

  lemma DeletionTakes(s: Sys, q: nat, x: Item)
    requires s.me.alive && s.toMe != [] && s.toMe[0].PipeTermAck? && Attached(s) && Step(s, Deliver).Next?
    ensures NotAdded(s, Step(s, Deliver).s, q, x)
  {
  }

  lemma HandlingTakes(s: Sys, q: nat, x: Item)
    requires s.me.alive && s.toMe != [] && !s.toMe[0].PipeTermAck? && !s.toMe[0].Hiccup? && Attached(s)
    requires Step(s, Deliver).Next? && Effect(s.me, [s.toMe[0]], Handle(View(s), s.toMe[0])) && s.me.outQueue != Some(q)
    ensures NotAdded(s, Step(s, Deliver).s, q, x)
  {
    DeliverIsHandle(s);
    HandleTerms(View(s), s.toMe[0]);
    CommitTakes(s, s.toMe[1..], Handle(View(s), s.toMe[0]), q, x);
  }

  // ------------------------------------------------- announced queues are clean

  /** A queue that is announced is not written. */
  lemma AnnouncedIsNotWritten(s: Sys, q: nat)
    requires Inv(s) && (q in Hiccups(s.toMe) || q in Hiccups(s.toYou))
    ensures s.me.outQueue != Some(q)
  {
    NoHiccupsMeansNone(s.toMe);
    NoHiccupsMeansNone(s.toYou);
    OnOneChain(s, q);
    if q in Hiccups(s.toMe) && s.me.outQueue == Some(q) {
      Repeated(Hiccups(s.toMe), q);
    }
  }

  lemma Repeated(qs: seq<nat>, q: nat)
    requires q in qs
    ensures multiset([q] + qs)[q] > 1
  {
    assert q in multiset(qs);
  }

  /** Where the announced queues of the next state come from. */
  ghost predicate AnnouncedFrom(s: Sys, t: Sys) {
    && (forall q :: q in Hiccups(t.toMe) ==> q in Hiccups(s.toMe))
    && (forall q :: q in Hiccups(t.toYou) ==> q in Hiccups(s.toYou) || (q in t.store && t.store[q].items == []))
  }

  lemma StepAnnounces(s: Sys, a: Action)
    requires Inv(s) && Enabled(s, a) && Step(s, a).Next?
    ensures AnnouncedFrom(s, Step(s, a).s)
  {
    if a.DoHiccup? {
      MyQueuesAreStored(s);
      if s.me.state.Active? {
        ActiveHiccupKeeps(s);
        HiccupsAppend(s.toYou, [Hiccup(s.nextId)]);
        assert Hiccups([Hiccup(s.nextId)]) == [s.nextId];
      } else {
        IdleHiccupShape(s);
      }
    } else {
      OthersAnnounceNothing(s, a);
    }
  }

  lemma OthersAnnounceNothing(s: Sys, a: Action)
    requires Inv(s) && Enabled(s, a) && !a.DoHiccup? && Step(s, a).Next?
    ensures AnnouncedFrom(s, Step(s, a).s)
  {
    if a.Deliver? {
      DeliveryAnnouncesNothing(s);
    } else {
      ViewReadyIfAlive(s);
      CallEffect(View(s), a);
      NothingAnnounced(s.toYou, Call(View(s), a).sent);
    }
  }

  lemma DeliveryAnnouncesNothing(s: Sys)
    requires Inv(s) && s.toMe != [] && Step(s, Deliver).Next?
    ensures AnnouncedFrom(s, Step(s, Deliver).s)
  {
    ReceiverIsAlive(s);
    ViewReady(s);
    var t := Step(s, Deliver).s;
    assert Hiccups(s.toMe) == (if s.toMe[0].Hiccup? then [s.toMe[0].queue] else []) + Hiccups(s.toMe[1..]);
    if s.toMe[0].Hiccup? {
      HiccupKeepsReaders(s);
    } else if s.toMe[0].PipeTermAck? {
      AckKeepsReader(s);
      NothingAnnounced(s.toYou, t.toYou[|s.toYou|..]);
      assert s.toYou + t.toYou[|s.toYou|..] == t.toYou;
    } else {
      CommandEffect(View(s), s.toMe[0], s.toMe, s.you);
      HandlingAnnouncesNothing(s);
    }
  }

  lemma HandlingAnnouncesNothing(s: Sys)
    requires s.toMe != [] && !s.toMe[0].PipeTermAck? && !s.toMe[0].Hiccup? && s.me.alive && Attached(s)
    requires Step(s, Deliver).Next? && NoHiccups(Handle(View(s), s.toMe[0]).sent)
    ensures AnnouncedFrom(s, Step(s, Deliver).s)
  {
    DeliverIsHandle(s);
    NothingAnnounced(s.toYou, Handle(View(s), s.toMe[0]).sent);
  }

  lemma ViewReadyIfAlive(s: Sys)
    requires Inv(s)
    ensures s.me.alive ==> Attached(s) && Ready(View(s)) && View(s).e == s.me
  {
    if s.me.alive {
      ViewReady(s);
    }
  }

  lemma NothingAnnounced(toYou: seq<Command>, sent: seq<Command>)
    requires NoHiccups(sent)
    ensures Hiccups(toYou + sent) == Hiccups(toYou)
  {
    HiccupsAppend(toYou, sent);
    NoHiccupsMeansNone(sent);
  }

  lemma StepKeepsAnnounced(s: Sys, a: Action)
    requires Inv(s) && Announced(s) && Enabled(s, a)
    ensures Step(s, a).Next? && Announced(Step(s, a).s)
  {
    MoveKeeps(s, true, a);
    StepAnnounces(s, a);
    var t := Step(s, a).s;
    forall q | (q in Hiccups(t.toMe) || q in Hiccups(t.toYou)) && q in t.store ensures t.store[q].items == [] {
      if (q in Hiccups(s.toMe) || q in Hiccups(s.toYou)) && t.store[q].items != [] {
        AnnouncedIsNotWritten(s, q);
        OnlyOutGrows(s, a, q, t.store[q].items[0]);
      }
    }
  }

  lemma MoveKeepsAnnounced(s: Sys, mine: bool, a: Action)
    requires Inv(s) && Announced(s)
    ensures Move(s, mine, a).Next? && Announced(Move(s, mine, a).s)
  {
    InvSwap(s);
    var t := if mine then s else Swap(s);
    if Enabled(t, a) {
      StepKeepsAnnounced(t, a);
    }
  }

  lemma {:induction false} EveryRunIsAnnounced(hwm0: int, hwm1: int, trace: seq<(bool, Action)>)
    ensures Run(Init(hwm0, hwm1), trace).Next? && Announced(Run(Init(hwm0, hwm1), trace).s)
    decreases |trace|
  {
    if trace == [] {
    } else {
      EveryRunIsAnnounced(hwm0, hwm1, trace[..|trace| - 1]);
      EveryRunIsSafe(hwm0, hwm1, trace[..|trace| - 1]);
      var (mine, a) := Last(trace);
      MoveKeepsAnnounced(Run(Init(hwm0, hwm1), trace[..|trace| - 1]).s, mine, a);
    }
  }

  // ----------------------------------------------------------------- stranded

  /** The end would acknowledge a request only after reading the delimiter. */
  predicate Waits(e: Endpoint) {
    e.alive && (e.state.WaitingForDelimiter? || (e.state.Active? && e.delay))
  }

  /** This end has asked to terminate, and there is no delimiter where the other end reads. */
  ghost predicate Stranded(s: Sys) {
    && Inv(s) && Announced(s)
    && s.me.alive && s.me.state.TermReqSent1? && Waits(s.you)
    && s.you.inQueue in s.store && Delimiter !in s.store[s.you.inQueue].items
  }

  /** With this call the user of a waiting end no longer insists on the delimiter. */
  predicate GivesUp(e: Endpoint, a: Action) {
    if e.state.WaitingForDelimiter? then a == DoTerminate(false) else a.DoTerminate? || a.DoSetNoDelay?
  }

  /** A hiccup is on its way to this end, which has asked to terminate, from one that waits for
      the delimiter. */
  predicate Crossed(s: Sys) {
    TermsSent(s.me) == 1 && !NoHiccups(s.toMe) && Waits(s.you)
  }

  /** It strands both. */
  lemma CrossedIsStranded(s: Sys)
    requires Inv(s) && Announced(s) && Crossed(s)
    ensures Stranded(s)
  {
    NoHiccupsMeansNone(s.toMe);
    YourQueueIsStored(s);
    assert Last(Chain(s.me, s.you, s.toMe)) == s.you.inQueue;
    assert Last(Hiccups(s.toMe)) == s.you.inQueue;
  }

  /** An end that has asked to terminate writes nothing more. */
  lemma SilentCall(l: Local, a: Action)
    requires Ready(l) && l.e.state.TermReqSent1? && l.outQ.Some?
    requires !a.DoHiccup? && !a.Deliver? && (a.DoWrite? ==> a.x.Msg?)
    ensures var l' := Call(l, a);
            && l'.e.alive && l'.e.state.TermReqSent1? && l'.outQ.Some?
            && (Delimiter in l'.outQ.value.items ==> Delimiter in l.outQ.value.items)
  {
    var q := l.outQ.value;
    assert forall x :: x in q.items[..q.complete] ==> x in q.items;
  }

  /** Nothing but an acknowledgement or a request could end the wait of the end that asked. */
  lemma NoEndArrives(me: Endpoint, you: Endpoint, toMe: seq<Command>)
    requires CommandsOk(you, me, toMe) && me.alive && toMe != []
    requires TermsSent(you) == 0 && AcksSent(you) == 0
    ensures !toMe[0].PipeTerm? && !toMe[0].PipeTermAck?
  {
    assert toMe[0] in multiset(toMe);
  }

  lemma WriterStaysState(s: Sys, a: Action)
    requires Stranded(s) && Enabled(s, a)
    ensures Step(s, a).Next? && Step(s, a).s.me.alive && Step(s, a).s.me.state.TermReqSent1?
    ensures NotAdded(s, Step(s, a).s, s.you.inQueue, Delimiter)
  {
    MoveKeeps(s, true, a);
    ViewReady(s);
    var q := s.you.inQueue;
    if s.me.outQueue != Some(q) {
      OnlyOutGrows(s, a, q, Delimiter);
    }
    if a.Deliver? {
      NoEndArrives(s.me, s.you, s.toMe);
      if s.toMe[0].Hiccup? {
        HiccupKeepsReaders(s);
      } else {
        ActivationKeepsQueues(s);
      }
    } else if a.DoHiccup? {
      IdleHiccupShape(s);
    } else {
      SilentCall(View(s), a);
      CallEffect(View(s), a);
      SilentCommit(s, a, q);
    }
  }

  lemma SilentCommit(s: Sys, a: Action, q: nat)
    requires Enabled(s, a) && s.me.alive && Attached(s) && Step(s, a).Next? && !a.DoHiccup? && !a.Deliver?
    requires Effect(s.me, [], Call(View(s), a)) && s.me.outQueue.Some? && Call(View(s), a).outQ.Some?
    requires Delimiter in Call(View(s), a).outQ.value.items ==> Delimiter in s.store[s.me.outQueue.value].items
    ensures Step(s, a).s.me == Call(View(s), a).e
    ensures s.me.outQueue == Some(q) ==> NotAdded(s, Step(s, a).s, q, Delimiter)
  {
  }

  lemma ActivationKeepsQueues(s: Sys)
    requires s.me.alive && Attached(s) && s.toMe != [] && Step(s, Deliver).Next?
    requires s.toMe[0].ActivateRead? || s.toMe[0].ActivateWrite?
    ensures Step(s, Deliver).s.store == s.store
    ensures Step(s, Deliver).s.me.state == s.me.state && Step(s, Deliver).s.me.alive
  {
  }

  lemma WriterStaysStranded(s: Sys, a: Action)
    requires Stranded(s) && Enabled(s, a)
    ensures Step(s, a).Next? && Stranded(Step(s, a).s)
  {
    MoveKeeps(s, true, a);
    StepKeepsAnnounced(s, a);
    StepOnlyAppends(s, a);
    WriterStaysState(s, a);
    YourQueueIsStored(Step(s, a).s);
  }

  lemma {:induction false} ReadMessageWaits(l: Local)
    requires l.Valid() && Delimiter !in l.inQ.items
    ensures var l' := ReadMessage(l).0;
            l'.e.state == l.e.state && l'.e.delay == l.e.delay && l'.e.alive == l.e.alive
    decreases |l.inQ.items|
  {
    var (l1, x) := Fetch(l);
    if x.None? {
    } else {
      assert x.value in l.inQ.items;
      if !x.value.credential {
      } else {
        ReadMessageWaits(l1);
      }
    }
  }

  lemma CallWaits(l: Local, a: Action)
    requires Ready(l) && Delimiter !in l.inQ.items && Waits(l.e) && !GivesUp(l.e, a)
    requires !a.DoHiccup? && !a.Deliver? && (a.DoWrite? ==> a.x.Msg?)
    ensures Waits(Call(l, a).e)
  {
    if a.DoRead? {
      if Reading(l.e) {
        ReadMessageWaits(l);
      }
    } else if a.DoCheckRead? {
      assert l.inQ.published > 0 ==> l.inQ.items[0] in l.inQ.items;
    }
  }

  /** The request is the one thing that changes the state of the waiting end. */
  lemma HandleWaits(l: Local, c: Command)
    requires Waits(l.e) && !c.Hiccup? && !c.PipeTermAck? && (c.PipeTerm? ==> l.e.state.Active?)
    ensures Waits(Handle(l, c).e)
  {
  }

  lemma ReaderWaits(s: Sys, a: Action)
    requires Stranded(Swap(s)) && Enabled(s, a) && !GivesUp(s.me, a)
    ensures Step(s, a).Next? && Waits(Step(s, a).s.me)
    ensures Step(s, a).s.me.inQueue == s.me.inQueue || (a.DoHiccup? && Step(s, a).s.me.inQueue == s.nextId)
  {
    InvSwap(Swap(s));
    MoveKeeps(s, true, a);
    ViewReady(s);
    if a.Deliver? {
      DeliveryWaits(s);
    } else if a.DoHiccup? {
      if s.me.state.Active? {
        ActiveHiccupKeeps(s);
      } else {
        IdleHiccupShape(s);
      }
    } else {
      CallWaits(View(s), a);
      CallEffect(View(s), a);
    }
  }

  lemma DeliveryWaits(s: Sys)
    requires Stranded(Swap(s)) && s.toMe != [] && Step(s, Deliver).Next? && Attached(s)
    ensures Waits(Step(s, Deliver).s.me) && Step(s, Deliver).s.me.inQueue == s.me.inQueue
  {
    InvSwap(Swap(s));
    assert s.toMe[0] in multiset(s.toMe);
    if s.toMe[0].Hiccup? {
      HiccupKeepsReaders(s);
    } else {
      DeliverIsHandle(s);
      HandleWaits(View(s), s.toMe[0]);
      HandleKeepsInQueue(View(s), s.toMe[0]);
    }
  }

  lemma HandleKeepsInQueue(l: Local, c: Command)
    requires !c.Hiccup? && !c.PipeTermAck?
    ensures Handle(l, c).e.inQueue == l.e.inQueue
  {
  }

  lemma ReaderStaysStranded(s: Sys, a: Action)
    requires Stranded(Swap(s)) && Enabled(s, a) && !GivesUp(s.me, a)
    ensures Step(s, a).Next? && Stranded(Swap(Step(s, a).s))
  {
    InvSwap(Swap(s));
    MoveKeeps(s, true, a);
    StepKeepsAnnounced(s, a);
    StepOnlyAppends(s, a);
    ReaderWaits(s, a);
    var t := Step(s, a).s;
    InvSwap(t);
    MyQueuesAreStored(t);
    QueuesDiffer(s);
    if t.me.inQueue == s.me.inQueue {
      OnlyOutGrows(s, a, s.me.inQueue, Delimiter);
    } else {
      ActiveHiccupKeepsIfMoved(s);
    }
  }

  lemma ActiveHiccupKeepsIfMoved(s: Sys)
    requires Inv(s) && s.me.alive && Step(s, DoHiccup).Next? && Step(s, DoHiccup).s.me.inQueue != s.me.inQueue
    ensures s.nextId in Step(s, DoHiccup).s.store && Step(s, DoHiccup).s.store[s.nextId].items == []
  {
    ViewReady(s);
    if s.me.state.Active? {
      ActiveHiccupKeeps(s);
    } else {
      IdleHiccupShape(s);
    }
  }

  /** The user of the other end never gives up. */
  predicate NobodyGivesUp(s: Sys, trace: seq<(bool, Action)>) {
    trace != [] ==>
      var prefix, (mine, a) := trace[..|trace| - 1], Last(trace);
      && NobodyGivesUp(s, prefix)
      && (!mine && Run(s, prefix).Next? ==> !GivesUp(Run(s, prefix).s.you, a))
  }

  lemma MoveStaysStranded(s: Sys, mine: bool, a: Action)
    requires Stranded(s) && (mine || !GivesUp(s.you, a))
    ensures Move(s, mine, a).Next? && Stranded(Move(s, mine, a).s)
  {
    if mine {
      if Enabled(s, a) {
        WriterStaysStranded(s, a);
      }
    } else if Enabled(Swap(s), a) {
      ReaderStaysStranded(Swap(s), a);
    }
  }

  /** As long as the user of the waiting end does not give up, neither end is ever deallocated. */
  lemma {:induction false} StrandedForEver(s: Sys, trace: seq<(bool, Action)>)
    requires Stranded(s) && NobodyGivesUp(s, trace)
    ensures Run(s, trace).Next? && Stranded(Run(s, trace).s)
    decreases |trace|
  {
    if trace == [] {
    } else {
      StrandedForEver(s, trace[..|trace| - 1]);
      MoveStaysStranded(Run(s, trace[..|trace| - 1]).s, Last(trace).0, Last(trace).1);
    }
  }

  /** When a hiccup does cross a request, in whatever run and from whichever end, and the end that
      made it waits for the delimiter, the termination never completes, however the run goes on,
      unless the user of that end gives up. */
  lemma {:induction false} CrossingStrands(hwm0: int, hwm1: int, trace: seq<(bool, Action)>, mine: bool, rest: seq<(bool, Action)>)
    requires var r := Run(Init(hwm0, hwm1), trace);
      r.Next? ==> var s := if mine then r.s else Swap(r.s); Crossed(s) && NobodyGivesUp(s, rest)
    ensures Run(Init(hwm0, hwm1), trace).Next?
    ensures var s := if mine then Run(Init(hwm0, hwm1), trace).s else Swap(Run(Init(hwm0, hwm1), trace).s);
            && Run(s, rest).Next?
            && Run(s, rest).s.me.alive && Run(s, rest).s.me.state.TermReqSent1? && Waits(Run(s, rest).s.you)
  {
    EveryRunIsSafe(hwm0, hwm1, trace);
    EveryRunIsAnnounced(hwm0, hwm1, trace);
    var r := Run(Init(hwm0, hwm1), trace).s;
    InvSwap(r);
    var s := if mine then r else Swap(r);
    CrossedIsStranded(s);
    StrandedForEver(s, rest);
  }

  // ------------------------------------------------------------- an example

  // Four states of a run in which a hiccup crosses a termination request.

  function Renewed0(hwm0: int, hwm1: int): Sys {
    var s := Init(hwm0, hwm1);
    s.(me := s.me.(inQueue := 2, got := []), toYou := [Hiccup(2)], store := s.store[2 := Empty()], nextId := 3)
  }

  function Crossed0(hwm0: int, hwm1: int): Sys {
    var s := Renewed0(hwm0, hwm1);
    s.(you := s.you.(state := TermReqSent1, outActive := false, put := [Delimiter]),
       toMe := [PipeTerm],
       store := s.store[0 := Queue([Delimiter], 1, 1, false)])
  }

  function Drained0(hwm0: int, hwm1: int): Sys {
    var s := Crossed0(hwm0, hwm1);
    s.(you := s.you.(outQueue := Some(2), outActive := true, msgsWritten := -1, put := []),
       toYou := [],
       store := s.store - {0})
  }

  function Ended0(hwm0: int, hwm1: int): Sys {
    var s := Drained0(hwm0, hwm1);
    s.(me := s.me.(state := WaitingForDelimiter), toMe := [])
  }

  lemma ToRenewed0(hwm0: int, hwm1: int)
    ensures Move(Init(hwm0, hwm1), true, DoHiccup) == Next(Renewed0(hwm0, hwm1))
  {
    var s := Init(hwm0, hwm1);
    assert [] + [Hiccup(2)] == [Hiccup(2)];
    var l := PipeEndpoint.DoHiccup(View(s), 2);
    assert l.sent == [Hiccup(2)];
    assert s.store[2 := Empty()][1 := Empty()] == s.store[2 := Empty()];
  }

  lemma ToCrossed0(hwm0: int, hwm1: int)
    ensures Move(Renewed0(hwm0, hwm1), false, DoTerminate(true)) == Next(Crossed0(hwm0, hwm1))
  {
    var s := Swap(Renewed0(hwm0, hwm1));
    var l := View(s);
    assert l.outQ == Some(Empty());
    var l1 := PipeEndpoint.Send(l.(e := l.e.(delay := true, state := TermReqSent1)), PipeTerm);
    assert l1.sent == [PipeTerm];
    CloseShape(l1);
    assert Fifo.Rollback(Empty<Item>()) == Empty();
    assert [] + [Delimiter] == [Delimiter];
    assert Fifo.Write(Empty<Item>(), Delimiter, false) == Queue([Delimiter], 1, 0, false);
    assert ClosedQueue(Empty()) == (Queue([Delimiter], 1, 1, false), true);
    assert Kept(l1) == [];
    var l2 := CloseOutbound(l1);
    assert l2.e.put == [Delimiter];
    assert l2 == Terminate(l, true);
    assert s.store[1 := Empty()][0 := l2.outQ.value] == s.store[0 := l2.outQ.value];
    assert s.toYou + [PipeTerm] == [PipeTerm];
  }

  lemma ToDrained0(hwm0: int, hwm1: int)
    ensures Move(Crossed0(hwm0, hwm1), false, Deliver) == Next(Drained0(hwm0, hwm1))
  {
    var s := Swap(Crossed0(hwm0, hwm1));
    var q := s.store[0];
    assert q == Queue([Delimiter], 1, 1, false);
    assert q.items[..1] == [Delimiter];
    assert Finished([Delimiter]) == 1 by { assert [Delimiter][1..] == []; }
    var l := ProcessHiccup(View(s), 2, Empty());
    assert l.e.msgsWritten == -1;
    assert (s.store - {0})[1 := Empty()][2 := Empty()] == s.store - {0};
    assert s.toMe[1..] == [] && s.toYou + [] == s.toYou;
  }

  lemma ToEnded0(hwm0: int, hwm1: int)
    ensures Move(Drained0(hwm0, hwm1), true, Deliver) == Next(Ended0(hwm0, hwm1))
  {
    var s := Drained0(hwm0, hwm1);
    assert s.store[2 := Empty()][1 := Empty()] == s.store;
    assert s.toMe[1..] == [] && s.toYou + [] == s.toYou;
  }

  lemma RunToEnded0(hwm0: int, hwm1: int)
    ensures Run(Init(hwm0, hwm1), [(true, DoHiccup), (false, DoTerminate(true)), (false, Deliver), (true, Deliver)])
            == Next(Ended0(hwm0, hwm1))
  {
    var h, t, d, d2 := (true, DoHiccup), (false, DoTerminate(true)), (false, Deliver), (true, Deliver);
    var s0 := Init(hwm0, hwm1);
    assert Run(s0, []) == Next(s0) && [] + [h] == [h];
    ToRenewed0(hwm0, hwm1);
    RunStep(s0, [], h, s0);
    ToCrossed0(hwm0, hwm1);
    RunStep(s0, [h], t, Renewed0(hwm0, hwm1));
    assert [h] + [t] == [h, t];
    ToDrained0(hwm0, hwm1);
    RunStep(s0, [h, t], d, Crossed0(hwm0, hwm1));
    assert [h, t] + [d] == [h, t, d];
    ToEnded0(hwm0, hwm1);
    RunStep(s0, [h, t, d], d2, Drained0(hwm0, hwm1));
    assert [h, t, d] + [d2] == [h, t, d, d2];
  }

  lemma NothingIsDue(s: Sys)
    requires s.toMe == [] && s.toYou == [] && !s.you.state.WaitingForDelimiter?
    requires s.me.inQueue in s.store && s.store[s.me.inQueue] == Empty()
    ensures forall mine, a :: !Due(s, mine, a)
  {
  }

  /** A hiccup that crosses a termination request takes the delimiter with it: the
      reader asked to wait for the delimiter has nothing to read, no command is in
      flight, and neither end is deallocated. */
  lemma HiccupCanStrandTermination(hwm0: int, hwm1: int)
    ensures var trace := [(true, DoHiccup), (false, DoTerminate(true)), (false, Deliver), (true, Deliver)];
      && Run(Init(hwm0, hwm1), trace).Next?
      && var s := Run(Init(hwm0, hwm1), trace).s;
      && Terminating(s) && s.me.alive && s.you.alive
      && s.me.state.WaitingForDelimiter?
      && forall mine, a :: !Due(s, mine, a)
  {
    RunToEnded0(hwm0, hwm1);
    NothingIsDue(Ended0(hwm0, hwm1));
  }

  lemma RunStep(s: Sys, trace: seq<(bool, Action)>, m: (bool, Action), t: Sys)
    requires Run(s, trace) == Next(t)
    ensures Run(s, trace + [m]) == Move(t, m.0, m.1)
  {
    assert (trace + [m])[..|trace|] == trace;
  }
}
