/** A pair of connected endpoints in two threads, with the commands in flight
    between them and every queue that exists, and the safety of every run. */
module PipePair {
  import opened Basics
  import opened Fifo
  import opened PipeEndpoint

  /** The system seen from one endpoint.  `store` holds the queues that are
      allocated; addresses are never reused. */
  datatype Sys = Sys(
    me: Endpoint,
    you: Endpoint,
    toMe: seq<Command>,
    toYou: seq<Command>,
    store: map<nat, Queue<Item>>,
    nextId: nat)

  function Swap(s: Sys): Sys {
    Sys(s.you, s.me, s.toYou, s.toMe, s.store, s.nextId)
  }

  /** The pair as `pipepair` creates it: the outbound high watermark of one end is
      the inbound one of the other. */
  function Init(hwm0: int, hwm1: int): Sys {
    Sys(NewEndpoint(0, 1, hwm1, hwm0), NewEndpoint(1, 0, hwm0, hwm1), [], [],
        map[0 := Empty(), 1 := Empty()], 2)
  }

  datatype Action =
    | DoCheckRead
    | DoRead
    | DoCheckWrite
    | DoWrite(x: Item)
    | DoRollback
    | DoFlush
    | DoTerminate(delay: bool)
    | DoSetNoDelay
    | DoHiccup
    | Deliver

  datatype Fault = AssertionFailed | PeerDeallocated | ReceiverDeallocated | QueueDeallocated

  datatype Outcome = Next(s: Sys) | Failed(fault: Fault)

  predicate Enabled(s: Sys, a: Action) {
    match a
    case Deliver => s.toMe != []
    case DoWrite(x) => s.me.alive && x.Msg?
    case _ => s.me.alive
  }

  predicate Usable(store: map<nat, Queue<Item>>, q: nat) {
    q in store && store[q].Valid()
  }

  predicate Attached(s: Sys) {
    && Usable(s.store, s.me.inQueue)
    && (s.me.outQueue.Some? ==> Usable(s.store, s.me.outQueue.value))
  }

  function View(s: Sys): (l: Local)
    requires Attached(s)
    ensures l.Valid()
  {
    Local(s.me, s.store[s.me.inQueue],
          if s.me.outQueue.Some? then Some(s.store[s.me.outQueue.value]) else None, [], true)
  }

  /** Stores what an operation changed and sends its commands.  Sending looks the
      receiving thread up in the peer, so the peer must still exist. */
  function Commit(s: Sys, l: Local): Outcome {
    if !l.ok then Failed(AssertionFailed)
    else if l.sent != [] && !s.you.alive then Failed(PeerDeallocated)
    else
      var store := s.store[l.e.inQueue := l.inQ];
      Next(s.(me := l.e,
              toYou := s.toYou + l.sent,
              store := if l.e.outQueue.Some? && l.outQ.Some? then store[l.e.outQueue.value := l.outQ.value] else store))
  }

  function Delete(s: Sys, q: nat): Outcome {
    if q !in s.store then Failed(QueueDeallocated) else Next(s.(store := s.store - {q}))
  }

  /** Delivers the oldest command to this endpoint. */
  function DoDeliver(s: Sys): Outcome
    requires s.toMe != [] && s.me.alive && Attached(s)
  {
    var l := View(s);
    var s1 := s.(toMe := s.toMe[1..]);
    match s.toMe[0]
    case ActivateRead => Commit(s1, ProcessActivateRead(l))
    case ActivateWrite(n) => Commit(s1, ProcessActivateWrite(l, n))
    case PipeTerm => Commit(s1, ProcessPipeTerm(l))
    case PipeTermAck =>
      (match Commit(s1, ProcessPipeTermAck(l))
       case Failed(f) => Failed(f)
       case Next(s2) => Delete(s2, s.me.inQueue))
    case Hiccup(q) =>
      if s.me.outQueue.None? then Failed(AssertionFailed)
      else if !Usable(s.store, q) then Failed(QueueDeallocated)
      else
        match Delete(s1, s.me.outQueue.value)
        case Failed(f) => Failed(f)
        case Next(s2) => Commit(s2, ProcessHiccup(l, q, s.store[q]))
  }

  /** What a call of the endpoint's user does, other than a hiccup. */
  function Call(l: Local, a: Action): Local
    requires l.Valid() && !a.DoHiccup? && !a.Deliver? && (a.DoWrite? ==> a.x.Msg?)
  {
    match a
    case DoCheckRead => PipeEndpoint.CheckRead(l).0
    case DoRead => PipeEndpoint.Read(l).0
    case DoCheckWrite => CheckWrite(l).0
    case DoWrite(x) => PipeEndpoint.Write(l, x).0
    case DoRollback => PipeEndpoint.Rollback(l)
    case DoFlush => PipeEndpoint.Flush(l)
    case DoTerminate(delay) => Terminate(l, delay)
    case DoSetNoDelay => SetNoDelay(l)
  }

  /** One step of this endpoint. */
  function Step(s: Sys, a: Action): Outcome
    requires Enabled(s, a)
  {
    if !s.me.alive then Failed(ReceiverDeallocated)
    else if !Attached(s) then Failed(QueueDeallocated)
    else if a.Deliver? then DoDeliver(s)
    else if a.DoHiccup? then Commit(s.(nextId := s.nextId + 1), PipeEndpoint.DoHiccup(View(s), s.nextId))
    else Commit(s, Call(View(s), a))
  }

  /** One step of either endpoint; `mine` says whose.  A step that cannot be taken
      leaves the system as it is. */
  function Move(s: Sys, mine: bool, a: Action): Outcome {
    if mine then
      if Enabled(s, a) then Step(s, a) else Next(s)
    else if Enabled(Swap(s), a) then
      match Step(Swap(s), a)
      case Next(t) => Next(Swap(t))
      case Failed(f) => Failed(f)
    else Next(s)
  }

  /** A whole run. */
  function Run(s: Sys, trace: seq<(bool, Action)>): Outcome {
    if trace == [] then Next(s) else
    match Run(s, trace[..|trace| - 1])
    case Failed(f) => Failed(f)
    case Next(t) => var (mine, a) := trace[|trace| - 1]; Move(t, mine, a)
  }

  // ---------------------------------------------------------------- invariant

  predicate IsControl(c: Command) {
    c.PipeTerm? || c.PipeTermAck?
  }

  /** How many copies of a command are in flight. */
  function InFlight(cs: seq<Command>, c: Command): nat {
    multiset(cs)[c]
  }

  function Hiccups(cs: seq<Command>): seq<nat> {
    if cs == [] then []
    else (if cs[0].Hiccup? then [cs[0].queue] else []) + Hiccups(cs[1..])
  }

  // The termination commands an endpoint has sent and received so far, by its state.

  function TermsSent(e: Endpoint): nat {
    if e.state.TermReqSent1? || e.state.TermReqSent2? then 1 else 0
  }

  function AcksSent(e: Endpoint): nat {
    match e.state
    case TermAckSent => 1
    case TermReqSent2 => 1
    case TermReqSent1 => if e.alive then 0 else 1
    case _ => 0
  }

  function TermsReceived(e: Endpoint): nat {
    if e.state.WaitingForDelimiter? || e.state.TermAckSent? || e.state.TermReqSent2? then 1 else 0
  }

  function AcksReceived(e: Endpoint): nat {
    if e.alive then 0 else 1
  }

  /** The queues from one endpoint to another: the one it writes, then the ones the
      other end has announced by a hiccup.  The last one is the one being read. */
  function Chain(me: Endpoint, you: Endpoint, toMe: seq<Command>): seq<nat> {
    if me.outQueue.Some? then [me.outQueue.value] + Hiccups(toMe)
    else if you.alive then [you.inQueue]
    else []
  }

  predicate Ordered(cs: seq<Command>) {
    && (forall i :: 0 <= i < |cs| - 1 ==> !cs[i].PipeTermAck?)
    && (forall i, j :: 0 <= i < j < |cs| && IsControl(cs[i]) ==> !cs[j].Hiccup?)
  }

  predicate NoHiccups(cs: seq<Command>) {
    forall c :: c in cs ==> !c.Hiccup?
  }

  /** Termination commands are received in the order sent, an acknowledgement is
      the last command of all, and hiccups come before any termination command. */
  ghost predicate CommandsOk(me: Endpoint, you: Endpoint, toYou: seq<Command>) {
    && TermsSent(me) == TermsReceived(you) + InFlight(toYou, PipeTerm)
    && AcksSent(me) == AcksReceived(you) + InFlight(toYou, PipeTermAck)
    && Ordered(toYou)
    && (!you.alive ==> toYou == [])
    && (TermsReceived(you) + AcksReceived(you) > 0 ==> NoHiccups(toYou))
  }

  /** The outbound queue is open until the acknowledgement is sent, and leads to
      the queue that the other end reads. */
  ghost predicate QueuesOk(me: Endpoint, you: Endpoint, toMe: seq<Command>) {
    && (me.outQueue.Some? <==> AcksSent(me) == 0)
    && (me.outQueue.Some? ==> you.alive && Last(Chain(me, you, toMe)) == you.inQueue)
    && (me.outQueue.None? ==> NoHiccups(toMe))
    && (!me.alive ==> !me.state.Active? && !me.state.DelimiterReceived? && !me.state.WaitingForDelimiter?)
  }

  function Last<T>(xs: seq<T>): T
    requires xs != []
  {
    xs[|xs| - 1]
  }

  ghost predicate ContentsOk(store: map<nat, Queue<Item>>, nextId: nat) {
    forall q <- store.Keys :: q < nextId && store[q].Valid() && Unfinished(store[q])
  }

  /** The allocated queues are exactly those on the two chains, each once. */
  ghost predicate StoreOk(s: Sys) {
    && multiset(Chain(s.me, s.you, s.toMe)) + multiset(Chain(s.you, s.me, s.toYou)) == multiset(s.store.Keys)
    && ContentsOk(s.store, s.nextId)
  }

  ghost predicate Inv(s: Sys) {
    && CommandsOk(s.me, s.you, s.toYou)
    && CommandsOk(s.you, s.me, s.toMe)
    && QueuesOk(s.me, s.you, s.toMe)
    && QueuesOk(s.you, s.me, s.toYou)
    && StoreOk(s)
  }

  lemma InvSwap(s: Sys)
    requires Inv(s)
    ensures Inv(Swap(s))
  {
  }

  lemma InitInv(hwm0: int, hwm1: int)
    ensures Inv(Init(hwm0, hwm1))
  {
    var s := Init(hwm0, hwm1);
    assert s.store.Keys == {0, 1};
    assert multiset(s.store.Keys) == multiset{0, 1};
  }

  lemma {:induction false} HiccupsAppend(a: seq<Command>, b: seq<Command>)
    ensures Hiccups(a + b) == Hiccups(a) + Hiccups(b)
  {
    if a == [] {
      assert a + b == b;
    } else {
      HiccupsAppend(a[1..], b);
      assert (a + b)[1..] == a[1..] + b && (a + b)[0] == a[0];
    }
  }

  lemma {:induction false} NoHiccupsMeansNone(cs: seq<Command>)
    ensures NoHiccups(cs) <==> Hiccups(cs) == []
  {
    if cs == [] {
    } else {
      NoHiccupsMeansNone(cs[1..]);
      assert forall c :: c in cs <==> c == cs[0] || c in cs[1..];
    }
  }

  // ------------------------------------------------- steps that keep the queues

  /** What an operation does that neither replaces nor deletes a queue: it consumes
      `popped`, sends `l.sent`, and may let go of the outbound queue. */
  ghost predicate Effect(me: Endpoint, popped: seq<Command>, l: Local) {
    && l.ok && l.Valid() && l.e.alive
    && l.e.inQueue == me.inQueue
    && TermsSent(l.e) == TermsSent(me) + InFlight(l.sent, PipeTerm)
    && AcksSent(l.e) == AcksSent(me) + InFlight(l.sent, PipeTermAck)
    && TermsReceived(l.e) == TermsReceived(me) + InFlight(popped, PipeTerm)
    && InFlight(popped, PipeTermAck) == 0
    && (l.e.outQueue == me.outQueue || l.e.outQueue == None)
    && (l.e.outQueue.Some? <==> AcksSent(l.e) == 0)
    && (l.e.outQueue != me.outQueue ==> TermsReceived(l.e) > 0)
    && NoHiccups(l.sent) && Ordered(l.sent)
    && (l.sent != [] ==> me.outQueue.Some?)
    && Unfinished(l.inQ) && (l.outQ.Some? ==> Unfinished(l.outQ.value))
  }

  /** While the outbound queue is open no acknowledgement is in flight to the peer. */
  lemma OutboundOpenMeansNoAck(me: Endpoint, you: Endpoint, toYou: seq<Command>)
    requires CommandsOk(me, you, toYou) && AcksSent(me) == 0
    ensures PipeTermAck !in toYou && you.alive
  {
    assert PipeTermAck in toYou <==> PipeTermAck in multiset(toYou);
  }

  lemma SendingKeepsCommands(me: Endpoint, you: Endpoint, toYou: seq<Command>, e: Endpoint, sent: seq<Command>)
    requires CommandsOk(me, you, toYou)
    requires NoHiccups(sent) && Ordered(sent) && (sent != [] ==> AcksSent(me) == 0)
    requires TermsSent(e) == TermsSent(me) + InFlight(sent, PipeTerm)
    requires AcksSent(e) == AcksSent(me) + InFlight(sent, PipeTermAck)
    ensures CommandsOk(e, you, toYou + sent)
  {
    if sent == [] {
      assert toYou + sent == toYou;
    } else {
      OutboundOpenMeansNoAck(me, you, toYou);
    }
  }

  /** Once a termination command has been received no hiccup is left to process. */
  lemma TermMeansNoHiccupsLeft(me: Endpoint, you: Endpoint, popped: seq<Command>, rest: seq<Command>)
    requires CommandsOk(you, me, popped + rest) && |popped| <= 1
    requires TermsReceived(me) + InFlight(popped, PipeTerm) > 0
    ensures NoHiccups(rest)
  {
    var toMe := popped + rest;
    if popped == [] {
      assert toMe == rest;
    } else {
      assert popped == [toMe[0]] && rest == toMe[1..];
    }
  }

  lemma ReceivingKeepsCommands(me: Endpoint, you: Endpoint, popped: seq<Command>, rest: seq<Command>, e: Endpoint)
    requires CommandsOk(you, me, popped + rest) && me.alive && e.alive && |popped| <= 1
    requires TermsReceived(e) == TermsReceived(me) + InFlight(popped, PipeTerm)
    requires InFlight(popped, PipeTermAck) == 0
    ensures CommandsOk(you, e, rest)
  {
    var toMe := popped + rest;
    assert popped != [] ==> rest == toMe[1..];
    assert popped == [] ==> rest == toMe;
    if TermsReceived(e) > 0 {
      TermMeansNoHiccupsLeft(me, you, popped, rest);
    }
  }

  lemma PoppedKeepsHiccups(popped: seq<Command>, rest: seq<Command>)
    requires NoHiccups(popped)
    ensures Hiccups(popped + rest) == Hiccups(rest)
    ensures NoHiccups(popped + rest) <==> NoHiccups(rest)
  {
    HiccupsAppend(popped, rest);
    NoHiccupsMeansNone(popped);
    NoHiccupsMeansNone(rest);
    NoHiccupsMeansNone(popped + rest);
  }

  lemma MyQueuesKept(me: Endpoint, you: Endpoint, popped: seq<Command>, rest: seq<Command>, e: Endpoint)
    requires QueuesOk(me, you, popped + rest) && me.alive && e.alive && NoHiccups(popped)
    requires e.outQueue == me.outQueue || (e.outQueue == None && NoHiccups(rest))
    requires e.outQueue.Some? <==> AcksSent(e) == 0
    ensures QueuesOk(e, you, rest)
    ensures Chain(e, you, rest) == Chain(me, you, popped + rest)
  {
    PoppedKeepsHiccups(popped, rest);
    NoHiccupsMeansNone(rest);
  }

  lemma YourQueuesKept(me: Endpoint, you: Endpoint, toYou: seq<Command>, e: Endpoint, sent: seq<Command>)
    requires QueuesOk(you, me, toYou) && me.alive && e.alive && e.inQueue == me.inQueue && NoHiccups(sent)
    ensures QueuesOk(you, e, toYou + sent)
    ensures Chain(you, e, toYou + sent) == Chain(you, me, toYou)
  {
    HiccupsAppend(toYou, sent);
    NoHiccupsMeansNone(sent);
    assert forall c :: c in toYou + sent ==> c in toYou || c in sent;
  }

  lemma UpdateKeepsContents(store: map<nat, Queue<Item>>, nextId: nat, k: nat, q: Queue<Item>)
    requires ContentsOk(store, nextId) && k in store && q.Valid() && Unfinished(q)
    ensures ContentsOk(store[k := q], nextId)
    ensures store[k := q].Keys == store.Keys
  {
  }

  /** An endpoint only ever holds the addresses of allocated queues. */
  lemma MyQueuesAreStored(s: Sys)
    requires Inv(s)
    ensures s.me.outQueue.Some? ==> s.me.outQueue.value in s.store
    ensures s.me.alive ==> s.me.inQueue in s.store
    ensures s.me.alive ==> Attached(s)
  {
    var mine, yours := Chain(s.me, s.you, s.toMe), Chain(s.you, s.me, s.toYou);
    var all := multiset(mine) + multiset(yours);
    assert s.me.outQueue.Some? ==> mine[0] in all;
    if s.me.alive {
      assert Last(yours) == s.me.inQueue;
      assert s.me.inQueue in all;
    }
    assert forall q :: q in all <==> q in s.store;
  }

  lemma EffectKeeps(s: Sys, popped: seq<Command>, rest: seq<Command>, l: Local)
    requires Inv(s) && s.me.alive && s.toMe == popped + rest && NoHiccups(popped) && |popped| <= 1
    requires Effect(s.me, popped, l)
    ensures Commit(s.(toMe := rest), l).Next?
    ensures Inv(Commit(s.(toMe := rest), l).s)
  {
    SendingKeepsCommands(s.me, s.you, s.toYou, l.e, l.sent);
    ReceivingKeepsCommands(s.me, s.you, popped, rest, l.e);
    if l.e.outQueue != s.me.outQueue {
      TermMeansNoHiccupsLeft(s.me, s.you, popped, rest);
    }
    MyQueuesKept(s.me, s.you, popped, rest, l.e);
    YourQueuesKept(s.me, s.you, s.toYou, l.e, l.sent);
    MyQueuesAreStored(s);
    UpdateKeepsContents(s.store, s.nextId, l.e.inQueue, l.inQ);
    if l.e.outQueue.Some? {
      UpdateKeepsContents(s.store[l.e.inQueue := l.inQ], s.nextId, l.e.outQueue.value, l.outQ.value);
    }
    if l.sent != [] {
      OutboundOpenMeansNoAck(s.me, s.you, s.toYou);
    }
  }

  // ------------------------------------------------------- the single operations

  /** What the invariant says about the operation's own view. */
  ghost predicate Ready(l: Local) {
    && l.Valid() && l.ok && l.e.alive && l.sent == []
    && Unfinished(l.inQ) && (l.outQ.Some? ==> Unfinished(l.outQ.value))
    && (l.e.outQueue.Some? <==> AcksSent(l.e) == 0)
  }

  lemma ViewReady(s: Sys)
    requires Inv(s) && s.me.alive
    ensures Attached(s) && Ready(View(s)) && View(s).e == s.me
  {
    MyQueuesAreStored(s);
  }

  lemma FetchEffect(me: Endpoint, l: Local)
    requires Effect(me, [], l)
    ensures Effect(me, [], Fetch(l).0)
    ensures Fetch(l).0.e.state == l.e.state && Fetch(l).0.sent == l.sent
  {
    var q := Fifo.Read(l.inQ).0;
    assert q.items == l.inQ.items || q.items == l.inQ.items[1..];
  }

  lemma DelimiterEffect(me: Endpoint, l: Local)
    requires Effect(me, [], l) && l.sent == [] && (l.e.state.Active? || l.e.state.WaitingForDelimiter?)
    ensures Effect(me, [], ProcessDelimiter(l))
  {
  }

  lemma CountEffect(me: Endpoint, l: Local, x: Item)
    requires Effect(me, [], l) && l.sent == [] && AcksSent(me) == 0 && me.outQueue.Some?
    ensures Effect(me, [], CountRead(l, x))
  {
  }

  lemma {:induction false} ReadMessageEffect(me: Endpoint, l: Local)
    requires Effect(me, [], l) && l.sent == [] && me.outQueue.Some?
    requires l.e.state.Active? || l.e.state.WaitingForDelimiter?
    ensures Effect(me, [], ReadMessage(l).0)
    decreases |l.inQ.items|
  {
    FetchEffect(me, l);
    var (l1, x) := Fetch(l);
    if x.None? {
    } else if x.value.Delimiter? {
      DelimiterEffect(me, l1);
    } else if x.value.credential {
      ReadMessageEffect(me, l1);
    } else {
      CountEffect(me, l1, x.value);
    }
  }

  lemma CheckReadEffect(l: Local)
    requires Ready(l)
    ensures Effect(l.e, [], PipeEndpoint.CheckRead(l).0)
  {
    var q := Fifo.CheckRead(l.inQ).0;
    var l1 := l.(inQ := q);
    if Reading(l.e) && q.published > 0 && q.items[0].Delimiter? {
      FetchEffect(l.e, l1);
      DelimiterEffect(l.e, Fetch(l1).0);
    }
  }

  lemma FlushEffect(me: Endpoint, popped: seq<Command>, l: Local)
    requires Effect(me, popped, l) && PipeTermAck !in l.sent && AcksSent(me) == 0
    ensures Effect(me, popped, PipeEndpoint.Flush(l))
  {
  }

  lemma CloseOutboundEffect(me: Endpoint, l: Local)
    requires Effect(me, [], l) && AcksSent(me) == 0
    requires l.outQ.Some? ==> PipeTermAck !in l.sent
    ensures Effect(me, [], CloseOutbound(l))
  {
    var l1 := l.(e := l.e.(outActive := false));
    if l1.outQ.Some? {
      var l2 := Put(PipeEndpoint.Rollback(l1), Delimiter, false);
      FlushEffect(me, [], l2);
    }
  }

  lemma TerminateEffect(l: Local, delay: bool)
    requires Ready(l)
    ensures Effect(l.e, [], Terminate(l, delay))
  {
    var l1 := l.(e := l.e.(delay := delay));
    match l.e.state
    case TermReqSent1 =>
    case TermReqSent2 =>
    case TermAckSent =>
    case WaitingForDelimiter =>
      CloseOutboundEffect(l.e, if !delay then Acknowledge(l1, TermAckSent) else l1);
    case _ =>
      CloseOutboundEffect(l.e, PipeEndpoint.Send(l1.(e := l1.e.(state := TermReqSent1)), PipeTerm));
  }

  lemma WriteEffect(l: Local, x: Item)
    requires Ready(l) && x.Msg?
    ensures Effect(l.e, [], PipeEndpoint.Write(l, x).0)
  {
  }

  lemma CallEffect(l: Local, a: Action)
    requires Ready(l) && !a.DoHiccup? && !a.Deliver? && (a.DoWrite? ==> a.x.Msg?)
    ensures Effect(l.e, [], Call(l, a))
  {
    match a {
      case DoCheckRead => CheckReadEffect(l);
      case DoRead => if Reading(l.e) { ReadMessageEffect(l.e, l); }
      case DoCheckWrite =>
      case DoWrite(x) => WriteEffect(l, x);
      case DoRollback =>
      case DoFlush => if AcksSent(l.e) == 0 { FlushEffect(l.e, [], l); }
      case DoTerminate(delay) => TerminateEffect(l, delay);
      case DoSetNoDelay =>
    }
  }

  lemma CallKeeps(s: Sys, a: Action)
    requires Inv(s) && Enabled(s, a) && !a.DoHiccup? && !a.Deliver?
    ensures Step(s, a).Next? && Inv(Step(s, a).s)
  {
    ViewReady(s);
    CallEffect(View(s), a);
    assert s.toMe == [] + s.toMe && s.(toMe := s.toMe) == s;
    EffectKeeps(s, [], s.toMe, Call(View(s), a));
  }

  // ------------------------------------------------------------------- hiccups

  /** With no acknowledgement received nor in flight, a peer still writes. */
  lemma ActiveMeansPeerWrites(me: Endpoint, you: Endpoint, toMe: seq<Command>, toYou: seq<Command>)
    requires CommandsOk(me, you, toYou) && CommandsOk(you, me, toMe) && QueuesOk(you, me, toYou)
    requires me.alive && TermsSent(me) == 0 && AcksSent(me) == 0
    ensures you.outQueue.Some? && you.alive
  {
  }

  lemma HiccupKeepsChain(me: Endpoint, you: Endpoint, toYou: seq<Command>, e: Endpoint, q: nat)
    requires QueuesOk(you, me, toYou) && you.outQueue.Some? && me.alive && e.alive && e.inQueue == q
    ensures QueuesOk(you, e, toYou + [Hiccup(q)])
    ensures Chain(you, e, toYou + [Hiccup(q)]) == Chain(you, me, toYou) + [q]
  {
    HiccupsAppend(toYou, [Hiccup(q)]);
    assert Hiccups([Hiccup(q)]) == [q];
  }

  lemma HiccupKeepsCommands(me: Endpoint, you: Endpoint, toYou: seq<Command>, e: Endpoint, q: nat)
    requires CommandsOk(me, you, toYou) && you.alive
    requires TermsSent(me) == 0 && AcksSent(me) == 0 && TermsSent(e) == 0 && AcksSent(e) == 0
    ensures CommandsOk(e, you, toYou + [Hiccup(q)])
  {
    assert forall c :: c in toYou <==> c in multiset(toYou);
    assert forall i :: 0 <= i < |toYou| ==> toYou[i] in toYou;
  }

  lemma AddKey(keys: set<nat>, q: nat)
    requires q !in keys
    ensures multiset(keys + {q}) == multiset(keys) + multiset{q}
  {
  }

  lemma RemoveKey(keys: set<nat>, q: nat)
    requires q in keys
    ensures multiset(keys) == multiset(keys - {q}) + multiset{q}
  {
    assert keys == (keys - {q}) + {q};
    AddKey(keys - {q}, q);
  }

  lemma Cancel(a: multiset<nat>, b: multiset<nat>, c: multiset<nat>)
    requires a + c == b + c
    ensures a == b
  {
    forall x ensures a[x] == b[x] {
      assert (a + c)[x] == (b + c)[x];
    }
  }

  lemma HiccupKeepsStore(s: Sys, t: Sys)
    requires StoreOk(s) && t.store == s.store[s.nextId := Empty()] && t.nextId == s.nextId + 1
    requires Chain(t.me, t.you, t.toMe) == Chain(s.me, s.you, s.toMe)
    requires Chain(t.you, t.me, t.toYou) == Chain(s.you, s.me, s.toYou) + [s.nextId]
    ensures StoreOk(t)
  {
    assert s.nextId !in s.store;
    assert t.store.Keys == s.store.Keys + {s.nextId};
    AddKey(s.store.Keys, s.nextId);
  }

  lemma IdleHiccupKeeps(s: Sys, l: Local)
    requires Inv(s) && s.me.alive && Effect(s.me, [], l)
    ensures Commit(s.(nextId := s.nextId + 1), l).Next? && Inv(Commit(s.(nextId := s.nextId + 1), l).s)
  {
    assert ContentsOk(s.store, s.nextId + 1);
    var s1 := s.(nextId := s.nextId + 1);
    assert Inv(s1);
    assert s1.toMe == [] + s1.toMe && s1.(toMe := s1.toMe) == s1;
    EffectKeeps(s1, [], s1.toMe, l);
  }

  lemma HiccupKeeps(s: Sys)
    requires Inv(s) && s.me.alive
    ensures Step(s, DoHiccup).Next? && Inv(Step(s, DoHiccup).s)
  {
    ViewReady(s);
    if s.me.state.Active? {
      ActiveHiccupKeeps(s);
    } else {
      ReadyEffect(View(s));
      IdleHiccupKeeps(s, View(s));
    }
  }

  /** The endpoint after a hiccup. */
  function Hiccuped(s: Sys): Endpoint {
    s.me.(inQueue := s.nextId, inActive := true, got := [])
  }

  lemma HiccupShape(s: Sys)
    requires s.me.alive && Attached(s) && s.me.state.Active? && s.me.outQueue.Some? && s.you.alive
    ensures Step(s, DoHiccup) ==
            Next(Sys(Hiccuped(s), s.you, s.toMe, s.toYou + [Hiccup(s.nextId)],
                     s.store[s.nextId := Empty()][s.me.outQueue.value := s.store[s.me.outQueue.value]], s.nextId + 1))
  {
    assert [] + [Hiccup(s.nextId)] == [Hiccup(s.nextId)];
    assert PipeEndpoint.DoHiccup(View(s), s.nextId) ==
           Local(Hiccuped(s), Empty(), Some(s.store[s.me.outQueue.value]), [Hiccup(s.nextId)], true);
  }

  lemma ReadyEffect(l: Local)
    requires Ready(l)
    ensures Effect(l.e, [], l)
  {
  }

  lemma ActiveHiccupKeeps(s: Sys)
    requires Inv(s) && s.me.alive && s.me.state.Active?
    ensures s.me.outQueue.Some? && s.you.alive
    ensures Step(s, DoHiccup) ==
            Next(Sys(Hiccuped(s), s.you, s.toMe, s.toYou + [Hiccup(s.nextId)], s.store[s.nextId := Empty()], s.nextId + 1))
    ensures Inv(Step(s, DoHiccup).s)
  {
    var e, q := Hiccuped(s), s.nextId;
    MyQueuesAreStored(s);
    ActiveMeansPeerWrites(s.me, s.you, s.toMe, s.toYou);
    HiccupShape(s);
    var t := Sys(e, s.you, s.toMe, s.toYou + [Hiccup(q)], s.store[q := Empty()], q + 1);
    assert s.store[q := Empty()][s.me.outQueue.value := s.store[s.me.outQueue.value]] == s.store[q := Empty()];
    assert CommandsOk(t.me, t.you, t.toYou) by { HiccupKeepsCommands(s.me, s.you, s.toYou, e, q); }
    assert [] + s.toMe == s.toMe;
    assert CommandsOk(t.you, t.me, t.toMe) by { ReceivingKeepsCommands(s.me, s.you, [], s.toMe, e); }
    MyQueuesKept(s.me, s.you, [], s.toMe, e);
    HiccupKeepsChain(s.me, s.you, s.toYou, e, q);
    HiccupKeepsStore(s, t);
  }

  /** Replacing the outbound queue moves one link along the chain. */
  lemma ProcessHiccupKeepsChain(me: Endpoint, you: Endpoint, q: nat, rest: seq<Command>, e: Endpoint)
    requires QueuesOk(me, you, [Hiccup(q)] + rest) && me.alive && e.alive
    requires e.outQueue == Some(q) && AcksSent(e) == AcksSent(me)
    ensures me.outQueue.Some?
    ensures QueuesOk(e, you, rest)
    ensures Chain(me, you, [Hiccup(q)] + rest) == [me.outQueue.value] + Chain(e, you, rest)
  {
    var toMe := [Hiccup(q)] + rest;
    assert Hiccup(q) in toMe;
    assert toMe[1..] == rest;
    assert Hiccups(toMe) == [q] + Hiccups(rest);
  }

  /** The endpoint after it replaced its outbound queue. */
  function Replugged(s: Sys): Endpoint
    requires s.toMe != [] && s.toMe[0].Hiccup? && Attached(s) && Usable(s.store, s.toMe[0].queue)
  {
    PipeEndpoint.ProcessHiccup(View(s), s.toMe[0].queue, s.store[s.toMe[0].queue]).e
  }

  lemma HiccupDelivered(s: Sys)
    requires s.me.alive && s.toMe != [] && s.toMe[0].Hiccup? && Attached(s) && s.me.outQueue.Some?
    requires Usable(s.store, s.toMe[0].queue) && s.me.outQueue.value in s.store
    ensures Replugged(s) == s.me.(msgsWritten := Replugged(s).msgsWritten, outQueue := Some(s.toMe[0].queue),
                                  outActive := true, put := [])
    ensures Step(s, Deliver) == Next(s.(me := Replugged(s), toMe := s.toMe[1..],
      store := (s.store - {s.me.outQueue.value})[s.me.inQueue := s.store[s.me.inQueue]][s.toMe[0].queue := s.store[s.toMe[0].queue]]))
  {
    assert s.toYou + [] == s.toYou;
  }

  lemma ProcessHiccupKeeps(s: Sys)
    requires Inv(s) && s.me.alive && s.toMe != [] && s.toMe[0].Hiccup?
    ensures Step(s, Deliver).Next? && Inv(Step(s, Deliver).s)
  {
    ViewReady(s);
    NewQueueIsStored(s);
    HiccupDelivered(s);
    var q, rest := s.toMe[0].queue, s.toMe[1..];
    var e := Replugged(s);
    assert s.toMe == [Hiccup(q)] + rest;
    ProcessHiccupKeepsChain(s.me, s.you, q, rest, e);
    ProcessHiccupKeepsYours(s.me, s.you, s.toYou, q, rest, e);
    NewQueueIsReached(s, q, rest, e);
    ProcessHiccupKeepsStore(s, q, rest, e);
  }

  lemma NewQueueIsReached(s: Sys, q: nat, rest: seq<Command>, e: Endpoint)
    requires QueuesOk(s.you, s.me, s.toYou) && s.me.alive && e.outQueue == Some(q)
    ensures s.me.inQueue in Chain(s.you, s.me, s.toYou) && q in Chain(e, s.you, rest)
  {
    assert Last(Chain(s.you, s.me, s.toYou)) == s.me.inQueue;
    assert Chain(e, s.you, rest)[0] == q;
  }

  lemma ProcessHiccupKeepsYours(me: Endpoint, you: Endpoint, toYou: seq<Command>, q: nat, rest: seq<Command>, e: Endpoint)
    requires CommandsOk(you, me, [Hiccup(q)] + rest) && CommandsOk(me, you, toYou) && QueuesOk(you, me, toYou)
    requires me.alive && e.alive && e.inQueue == me.inQueue && e.state == me.state
    requires TermsSent(e) == TermsSent(me) && AcksSent(e) == AcksSent(me) && TermsReceived(e) == TermsReceived(me)
    ensures CommandsOk(you, e, rest) && CommandsOk(e, you, toYou) && QueuesOk(you, e, toYou)
    ensures Chain(you, e, toYou) == Chain(you, me, toYou)
  {
    ReceivingKeepsCommands(me, you, [Hiccup(q)], rest, e);
    assert toYou + [] == toYou;
    SendingKeepsCommands(me, you, toYou, e, []);
    YourQueuesKept(me, you, toYou, e, []);
  }

  lemma NewQueueIsStored(s: Sys)
    requires Inv(s) && s.me.alive && s.toMe != [] && s.toMe[0].Hiccup?
    ensures s.toMe[0].queue in s.store
  {
    var q, rest := s.toMe[0].queue, s.toMe[1..];
    assert s.toMe == [Hiccup(q)] + rest;
    ProcessHiccupKeepsChain(s.me, s.you, q, rest, s.me.(outQueue := Some(q)));
    ChainIsStored(s, q);
  }

  lemma ChainIsStored(s: Sys, q: nat)
    requires StoreOk(s) && q in Chain(s.me, s.you, s.toMe)
    ensures q in s.store
  {
    assert q in multiset(Chain(s.me, s.you, s.toMe));
    assert q in multiset(s.store.Keys);
  }

  lemma ProcessHiccupKeepsStore(s: Sys, q: nat, rest: seq<Command>, e: Endpoint)
    requires StoreOk(s) && s.me.outQueue.Some? && s.me.inQueue in s.store && q in s.store
    requires Chain(s.me, s.you, s.toMe) == [s.me.outQueue.value] + Chain(e, s.you, rest)
    requires Chain(s.you, e, s.toYou) == Chain(s.you, s.me, s.toYou)
    requires s.me.inQueue in Chain(s.you, s.me, s.toYou) && q in Chain(e, s.you, rest)
    ensures StoreOk(s.(me := e, toMe := rest,
      store := (s.store - {s.me.outQueue.value})[s.me.inQueue := s.store[s.me.inQueue]][q := s.store[q]]))
  {
    var gone := s.me.outQueue.value;
    var chains := multiset(Chain(e, s.you, rest)) + multiset(Chain(s.you, s.me, s.toYou));
    assert multiset(s.store.Keys) == multiset{gone} + chains;
    assert gone in multiset(s.store.Keys);
    RemoveKey(s.store.Keys, gone);
    Cancel(multiset(s.store.Keys - {gone}), chains, multiset{gone});
    assert s.me.inQueue in chains && q in chains;
    assert s.me.inQueue in s.store.Keys - {gone} && q in s.store.Keys - {gone};
    assert (s.store - {gone}).Keys == s.store.Keys - {gone};
  }

  // ------------------------------------------------------------ deallocation

  /** When an acknowledgement arrives it is the only command left, the peer has
      let go of the queue about to be deleted, and this end is in a state that
      expects it. */
  lemma AckArrives(me: Endpoint, you: Endpoint, toMe: seq<Command>, toYou: seq<Command>)
    requires CommandsOk(me, you, toYou) && CommandsOk(you, me, toMe)
    requires QueuesOk(you, me, toYou) && QueuesOk(me, you, toMe)
    requires me.alive && toMe != [] && toMe[0].PipeTermAck?
    ensures toMe == [PipeTermAck]
    ensures me.state.TermReqSent1? || me.state.TermReqSent2? || me.state.TermAckSent?
    ensures you.outQueue == None && Chain(you, me, toYou) == [me.inQueue] && NoHiccups(toYou)
    ensures me.outQueue.Some? ==> you.alive && me.outQueue.value == you.inQueue && Chain(me, you, toMe) == [you.inQueue]
    ensures me.outQueue.Some? <==> me.state.TermReqSent1?
  {
    assert multiset(toMe)[PipeTermAck] > 0 by { assert PipeTermAck in toMe; }
    assert Hiccups(toMe) == [] by { if |toMe| == 1 { assert toMe[1..] == []; } }
  }

  lemma DeadKeepsCommands(me: Endpoint, you: Endpoint, toMe: seq<Command>, toYou: seq<Command>, l: Local)
    requires CommandsOk(me, you, toYou) && CommandsOk(you, me, toMe)
    requires me.alive && toMe == [PipeTermAck] && !l.e.alive && l.e.state == me.state
    requires me.state.TermReqSent1? || me.state.TermReqSent2? || me.state.TermAckSent?
    requires l.sent == if me.state.TermReqSent1? then [PipeTermAck] else []
    ensures CommandsOk(l.e, you, toYou + l.sent) && CommandsOk(you, l.e, [])
  {
    SendingKeepsCommands(me, you, toYou, l.e, l.sent);
    assert multiset(toMe) == multiset{PipeTermAck};
  }

  lemma DeadKeepsQueues(me: Endpoint, you: Endpoint, toMe: seq<Command>, toYou: seq<Command>, l: Local)
    requires QueuesOk(you, me, toYou) && QueuesOk(me, you, toMe)
    requires !l.e.alive && l.e.state == me.state && l.e.outQueue == None
    requires me.state.TermReqSent1? || me.state.TermReqSent2? || me.state.TermAckSent?
    requires you.outQueue == None && NoHiccups(toYou) && NoHiccups(l.sent)
    requires me.alive && toMe == [PipeTermAck]
    requires me.outQueue.Some? ==> you.alive && Chain(me, you, toMe) == [you.inQueue]
    ensures QueuesOk(l.e, you, []) && QueuesOk(you, l.e, toYou + l.sent)
    ensures Chain(l.e, you, []) == Chain(me, you, toMe)
    ensures Chain(you, l.e, toYou + l.sent) == []
  {
    assert forall c :: c in toYou + l.sent ==> c in toYou || c in l.sent;
  }

  lemma DeleteKeepsStore(s: Sys, t: Sys, q: nat)
    requires StoreOk(s) && q in s.store && t.nextId == s.nextId
    requires Chain(t.me, t.you, t.toMe) == Chain(s.me, s.you, s.toMe)
    requires Chain(s.you, s.me, s.toYou) == [q] && Chain(t.you, t.me, t.toYou) == []
    requires t.store.Keys == s.store.Keys - {q} && forall k <- t.store.Keys :: t.store[k] == s.store[k]
    ensures StoreOk(t)
  {
    RemoveKey(s.store.Keys, q);
    var mine := multiset(Chain(t.me, t.you, t.toMe));
    assert multiset([q]) == multiset{q};
    Cancel(multiset(t.store.Keys), mine, multiset{q});
    assert mine + multiset(Chain(t.you, t.me, t.toYou)) == mine;
  }

  lemma AckKeeps(s: Sys)
    requires Inv(s) && s.me.alive && s.toMe != [] && s.toMe[0].PipeTermAck?
    ensures Step(s, Deliver).Next? && Inv(Step(s, Deliver).s)
  {
    ViewReady(s);
    AckArrives(s.me, s.you, s.toMe, s.toYou);
    var l := ProcessPipeTermAck(View(s));
    assert [] + [PipeTermAck] == [PipeTermAck];
    assert s.toMe[1..] == [];
    DeadKeepsCommands(s.me, s.you, s.toMe, s.toYou, l);
    DeadKeepsQueues(s.me, s.you, s.toMe, s.toYou, l);
    var q := s.me.inQueue;
    var store := s.store[q := s.store[q]] - {q};
    DeleteKeepsStore(s, Sys(l.e, s.you, [], s.toYou + l.sent, store, s.nextId), q);
  }

  // ------------------------------------------------------------- the theorems

  lemma CommandEffect(l: Local, c: Command, toMe: seq<Command>, you: Endpoint)
    requires Ready(l) && !c.Hiccup? && !c.PipeTermAck?
    requires toMe != [] && toMe[0] == c && CommandsOk(you, l.e, toMe)
    ensures c.ActivateRead? ==> Effect(l.e, [c], ProcessActivateRead(l))
    ensures c.ActivateWrite? ==> Effect(l.e, [c], ProcessActivateWrite(l, c.msgsRead))
    ensures c.PipeTerm? ==> Effect(l.e, [c], ProcessPipeTerm(l))
  {
    assert multiset([c]) == multiset{c};
    assert c in multiset(toMe);
  }

  /** No command reaches a deallocated endpoint. */
  lemma ReceiverIsAlive(s: Sys)
    requires Inv(s) && s.toMe != []
    ensures s.me.alive
  {
  }

  lemma DeliverKeeps(s: Sys)
    requires Inv(s) && s.toMe != []
    ensures Step(s, Deliver).Next? && Inv(Step(s, Deliver).s)
  {
    ReceiverIsAlive(s);
    var c := s.toMe[0];
    if c.Hiccup? {
      ProcessHiccupKeeps(s);
    } else if c.PipeTermAck? {
      AckKeeps(s);
    } else {
      ViewReady(s);
      CommandEffect(View(s), c, s.toMe, s.you);
      assert s.toMe == [c] + s.toMe[1..];
      var l := match c case ActivateRead => ProcessActivateRead(View(s)) case ActivateWrite(n) => ProcessActivateWrite(View(s), n) case _ => ProcessPipeTerm(View(s));
      EffectKeeps(s, [c], s.toMe[1..], l);
    }
  }

  /** Every step of either endpoint succeeds and keeps the invariant. */
  lemma MoveKeeps(s: Sys, mine: bool, a: Action)
    requires Inv(s)
    ensures Move(s, mine, a).Next? && Inv(Move(s, mine, a).s)
  {
    var t := if mine then s else Swap(s);
    InvSwap(s);
    if Enabled(t, a) {
      if a.Deliver? {
        DeliverKeeps(t);
      } else if a.DoHiccup? {
        HiccupKeeps(t);
      } else {
        CallKeeps(t, a);
      }
      InvSwap(Step(t, a).s);
    }
  }

  /** Safety: in no interleaving of calls and deliveries, hiccups included, does an
      assertion fail, a command or a call reach a deallocated endpoint, or a queue
      get used or deleted after its deletion. */
  lemma {:induction false} EveryRunIsSafe(hwm0: int, hwm1: int, trace: seq<(bool, Action)>)
    ensures Run(Init(hwm0, hwm1), trace).Next? && Inv(Run(Init(hwm0, hwm1), trace).s)
    decreases |trace|
  {
    if trace == [] {
      InitInv(hwm0, hwm1);
    } else {
      EveryRunIsSafe(hwm0, hwm1, trace[..|trace| - 1]);
      var (mine, a) := Last(trace);
      MoveKeeps(Run(Init(hwm0, hwm1), trace[..|trace| - 1]).s, mine, a);
    }
  }

  // ------------------------------------------------ what a run sends and leaves

  /** What this endpoint sent in a step from `s` to `t`, if it took the step. */
  function Emitted(s: Sys, t: Sys, mine: bool): seq<Command> {
    if mine && |t.toYou| >= |s.toYou| then t.toYou[|s.toYou|..] else []
  }

  /** What this endpoint sends during a whole run from `s`. */
  function SentInRun(s: Sys, trace: seq<(bool, Action)>): seq<Command> {
    if trace == [] then [] else
    var prefix := trace[..|trace| - 1];
    SentInRun(s, prefix) +
    match (Run(s, prefix), Run(s, trace))
    case (Next(t), Next(u)) => Emitted(t, u, Last(trace).0)
    case _ => []
  }

  lemma StepOnlyAppends(s: Sys, a: Action)
    requires Enabled(s, a) && Step(s, a).Next?
    ensures Step(s, a).s.you == s.you
    ensures s.toYou <= Step(s, a).s.toYou
  {
  }

  lemma MoveShape(s: Sys, mine: bool, a: Action)
    requires Move(s, mine, a).Next?
    ensures mine ==> Move(s, mine, a).s.you == s.you && s.toYou <= Move(s, mine, a).s.toYou
    ensures !mine ==> Move(s, mine, a).s.me == s.me && s.toMe <= Move(s, mine, a).s.toMe
  {
    if mine && Enabled(s, a) {
      StepOnlyAppends(s, a);
    } else if !mine && Enabled(Swap(s), a) {
      StepOnlyAppends(Swap(s), a);
    }
  }

  lemma EmittedCounts(s: Sys, t: Sys, mine: bool)
    requires CommandsOk(s.me, s.you, s.toYou) && CommandsOk(t.me, t.you, t.toYou)
    requires mine ==> t.you == s.you && s.toYou <= t.toYou
    requires !mine ==> t.me == s.me
    ensures InFlight(Emitted(s, t, mine), PipeTerm) == TermsSent(t.me) - TermsSent(s.me)
    ensures InFlight(Emitted(s, t, mine), PipeTermAck) == AcksSent(t.me) - AcksSent(s.me)
  {
    if mine {
      assert t.toYou == s.toYou + Emitted(s, t, mine);
    }
  }

  /** What the other endpoint sends during a whole run from `s`. */
  function SentBack(s: Sys, trace: seq<(bool, Action)>): seq<Command> {
    if trace == [] then [] else
    var prefix := trace[..|trace| - 1];
    SentBack(s, prefix) +
    match (Run(s, prefix), Run(s, trace))
    case (Next(t), Next(u)) => Emitted(Swap(t), Swap(u), !Last(trace).0)
    case _ => []
  }

  lemma LastStep(s: Sys, t: Sys, mine: bool, a: Action)
    requires Inv(s) && Inv(t) && Move(s, mine, a) == Next(t)
    ensures InFlight(Emitted(s, t, mine), PipeTerm) == TermsSent(t.me) - TermsSent(s.me)
    ensures InFlight(Emitted(s, t, mine), PipeTermAck) == AcksSent(t.me) - AcksSent(s.me)
    ensures InFlight(Emitted(Swap(s), Swap(t), !mine), PipeTerm) == TermsSent(t.you) - TermsSent(s.you)
    ensures InFlight(Emitted(Swap(s), Swap(t), !mine), PipeTermAck) == AcksSent(t.you) - AcksSent(s.you)
  {
    MoveShape(s, mine, a);
    EmittedCounts(s, t, mine);
    EmittedCounts(Swap(s), Swap(t), !mine);
  }

  lemma {:induction false} SentInRunCounts(hwm0: int, hwm1: int, trace: seq<(bool, Action)>)
    ensures Run(Init(hwm0, hwm1), trace).Next?
    ensures InFlight(SentInRun(Init(hwm0, hwm1), trace), PipeTerm) == TermsSent(Run(Init(hwm0, hwm1), trace).s.me)
    ensures InFlight(SentInRun(Init(hwm0, hwm1), trace), PipeTermAck) == AcksSent(Run(Init(hwm0, hwm1), trace).s.me)
    decreases |trace|
  {
    EveryRunIsSafe(hwm0, hwm1, trace);
    if trace == [] {
    } else {
      var prefix := trace[..|trace| - 1];
      var (mine, a) := Last(trace);
      SentInRunCounts(hwm0, hwm1, prefix);
      EveryRunIsSafe(hwm0, hwm1, prefix);
      LastStep(Run(Init(hwm0, hwm1), prefix).s, Run(Init(hwm0, hwm1), trace).s, mine, a);
    }
  }

  lemma {:induction false} SentBackCounts(hwm0: int, hwm1: int, trace: seq<(bool, Action)>)
    ensures Run(Init(hwm0, hwm1), trace).Next?
    ensures InFlight(SentBack(Init(hwm0, hwm1), trace), PipeTerm) == TermsSent(Run(Init(hwm0, hwm1), trace).s.you)
    ensures InFlight(SentBack(Init(hwm0, hwm1), trace), PipeTermAck) == AcksSent(Run(Init(hwm0, hwm1), trace).s.you)
    decreases |trace|
  {
    EveryRunIsSafe(hwm0, hwm1, trace);
    if trace == [] {
    } else {
      var prefix := trace[..|trace| - 1];
      var (mine, a) := Last(trace);
      SentBackCounts(hwm0, hwm1, prefix);
      EveryRunIsSafe(hwm0, hwm1, prefix);
      LastStep(Run(Init(hwm0, hwm1), prefix).s, Run(Init(hwm0, hwm1), trace).s, mine, a);
    }
  }

  /** Each endpoint sends at most one termination request and at most one
      acknowledgement in a whole run. */
  lemma {:induction false} AtMostOneTermAndOneAck(hwm0: int, hwm1: int, trace: seq<(bool, Action)>)
    ensures InFlight(SentInRun(Init(hwm0, hwm1), trace), PipeTerm) <= 1
    ensures InFlight(SentInRun(Init(hwm0, hwm1), trace), PipeTermAck) <= 1
    ensures InFlight(SentBack(Init(hwm0, hwm1), trace), PipeTerm) <= 1
    ensures InFlight(SentBack(Init(hwm0, hwm1), trace), PipeTermAck) <= 1
  {
    SentInRunCounts(hwm0, hwm1, trace);
    SentBackCounts(hwm0, hwm1, trace);
  }

  /** When both endpoints are gone, so are all queues and all commands: each queue
      that was ever allocated has been deleted, and by safety only once. */
  lemma NothingIsLeaked(s: Sys)
    requires Inv(s) && !s.me.alive && !s.you.alive
    ensures s.store == map[] && s.toMe == [] && s.toYou == []
  {
    assert forall q :: q in s.store ==> q in multiset(s.store.Keys);
    assert s.store.Keys == {};
  }
}
