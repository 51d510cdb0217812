/** What the users of a pipe are told and what their calls do to the queues, by the fields
    and the items alone. */
module PipeReading {
  import opened Basics
  import opened Fifo
  import opened PipeEndpoint
  import opened PipePair
  import opened PipeFlow

  predicate IsCredential(x: Item) {
    x.Msg? && x.credential
  }

  /** The endpoint was not told that there is nothing to read, and still reads. */
  predicate Awake(e: Endpoint) {
    e.inActive && (e.state == Active || e.state == WaitingForDelimiter)
  }

  /** The first published item that is not a credential. */
  predicate First(q: Queue<Item>, i: nat) {
    && i < q.published <= |q.items|
    && !IsCredential(q.items[i])
    && forall j :: 0 <= j < i ==> IsCredential(q.items[j])
  }

  /** The queue after its first `n` items were taken. */
  ghost predicate Took(q: Queue<Item>, q': Queue<Item>, n: nat) {
    && n <= q.published && q.Valid() && q'.Valid()
    && q'.items == q.items[n..] && q'.complete == q.complete - n && q'.published == q.published - n
  }

  // ------------------------------------------------------------------ reading

  lemma AsleepReadsNothing(l: Local)
    requires l.Valid() && !Awake(l.e)
    ensures PipeEndpoint.Read(l) == (l, None) && PipeEndpoint.CheckRead(l) == (l, false)
  {
    assert !Reading(l.e);
  }

  lemma FirstAfterOne(q: Queue<Item>, i: nat)
    requires q.Valid() && First(q, i) && i > 0
    ensures First(Fifo.Read(q).0, i - 1) && Fifo.Read(q).0.items[i - 1] == q.items[i]
  {
    var q' := Fifo.Read(q).0;
    forall j | 0 <= j < i - 1 ensures IsCredential(q'.items[j]) {
      assert q'.items[j] == q.items[j + 1];
    }
  }

  /** The endpoint after taking the first `n` items. */
  function Advanced(l: Local, n: nat): Local
    requires l.Valid() && n <= l.inQ.published
  {
    var q := l.inQ;
    l.(inQ := Queue(q.items[n..], q.complete - n, q.published - n, false), e := l.e.(got := l.e.got + q.items[..n]))
  }

  lemma OneAdvanced(l: Local, n: nat)
    requires l.Valid() && 0 < n <= l.inQ.published
    ensures Advanced(Fetch(l).0, n - 1) == Advanced(l, n)
  {
    var q := l.inQ;
    assert q.items[1..][n - 1..] == q.items[n..];
    assert (l.e.got + [q.items[0]]) + q.items[1..][..n - 1] == l.e.got + q.items[..n];
  }

  /** The search skips credentials: the first other item is handed on, whatever it is. */
  lemma {:induction false} SkipsTo(l: Local, i: nat)
    requires l.Valid() && First(l.inQ, i)
    ensures ReadMessage(l) == Taken(Advanced(l, i + 1), Some(l.inQ.items[i]))
    decreases i
  {
    OneAdvanced(l, i + 1);
    if i == 0 {
      FirstIsNext(l);
    } else {
      assert IsCredential(l.inQ.items[0]);
      FirstAfterOne(l.inQ, i);
      SkipsTo(Fetch(l).0, i - 1);
    }
  }

  lemma FirstIsNext(l: Local)
    requires l.Valid() && First(l.inQ, 0)
    ensures ReadMessage(l) == Taken(Advanced(l, 1), Some(l.inQ.items[0]))
  {
    TakesFront(l);
    assert !IsCredential(l.inQ.items[0]);
  }

  lemma TakesFront(l: Local)
    requires l.Valid() && l.inQ.published > 0
    ensures Fetch(l) == (Advanced(l, 1), Some(l.inQ.items[0]))
  {
    assert l.inQ.items[..1] == [l.inQ.items[0]];
    var e := l.e.(got := l.e.got + [l.inQ.items[0]]);
    assert Advanced(l, 1).e == e;
  }

  /** A read hands out exactly the first published item that is not a credential, unchanged,
      and it is the last one of what has been taken. */
  lemma ReadHandsOut(l: Local, i: nat)
    requires l.Valid() && Awake(l.e) && First(l.inQ, i) && l.inQ.items[i].Msg?
    ensures var m, (l', x) := l.inQ.items[i], PipeEndpoint.Read(l);
      && x == Some(m)
      && Took(l.inQ, l'.inQ, i + 1) && !l'.inQ.asleep && l'.outQ == l.outQ && l'.ok == l.ok
      && l'.e == l.e.(got := l.e.got + l.inQ.items[..i + 1],
                      msgsRead := l.e.msgsRead + if m.more || m.identity then 0 else 1)
      && l'.e.got[|l'.e.got| - 1] == m
      && l'.sent == l.sent + if l.e.lwm > 0 && l'.e.msgsRead % l.e.lwm == 0 then [ActivateWrite(l'.e.msgsRead)] else []
  {
    SkipsTo(l, i);
    assert Reading(l.e);
  }

  /** The delimiter is taken and not handed out: it ends the reading. */
  lemma ReadEnds(l: Local, i: nat)
    requires l.Valid() && Awake(l.e) && First(l.inQ, i) && l.inQ.items[i].Delimiter?
    ensures var (l', x) := PipeEndpoint.Read(l);
      && x == None && l'.ok == l.ok
      && Took(l.inQ, l'.inQ, i + 1) && !l'.inQ.asleep
      && l'.e.got == l.e.got + l.inQ.items[..i + 1]
      && (l.e.state == Active ==>
            l'.e.state == DelimiterReceived && l'.sent == l.sent && l'.outQ == l.outQ)
      && (l.e.state == WaitingForDelimiter ==>
            l'.e.state == TermAckSent && l'.sent == l.sent + [PipeTermAck] && l'.outQ == None)
  {
    SkipsTo(l, i);
    assert Reading(l.e);
  }

  /** The endpoint after a search that found nothing. */
  function Exhausted(l: Local): Local
    requires l.Valid()
  {
    var q := l.inQ;
    l.(inQ := Queue(q.items[q.published..], q.complete - q.published, 0, true),
       e := l.e.(got := l.e.got + q.items[..q.published], inActive := false))
  }

  lemma NothingLeft(l: Local)
    requires l.Valid() && l.inQ.published == 0
    ensures ReadMessage(l) == (Exhausted(l), None)
  {
    var q := l.inQ;
    assert q.items[0..] == q.items && l.e.got + q.items[..0] == l.e.got;
  }

  lemma OneSkipped(l: Local)
    requires l.Valid() && l.inQ.published > 0
    ensures Exhausted(Fetch(l).0) == Exhausted(l)
  {
    var q := l.inQ;
    assert q.items[1..][q.published - 1..] == q.items[q.published..];
    assert (l.e.got + [q.items[0]]) + q.items[1..][..q.published - 1] == l.e.got + q.items[..q.published];
  }

  lemma {:induction false} SkipsAll(l: Local)
    requires l.Valid() && forall i :: 0 <= i < l.inQ.published ==> IsCredential(l.inQ.items[i])
    ensures ReadMessage(l) == (Exhausted(l), None)
    decreases |l.inQ.items|
  {
    var q := l.inQ;
    if q.published == 0 {
      NothingLeft(l);
    } else {
      var l1 := Fetch(l).0;
      assert IsCredential(q.items[0]);
      forall i | 0 <= i < l1.inQ.published ensures IsCredential(l1.inQ.items[i]) {
        assert l1.inQ.items[i] == q.items[i + 1];
      }
      SkipsAll(l1);
      OneSkipped(l);
    }
  }

  /** With nothing but credentials published, the read takes them all, finds nothing, and the
      endpoint waits for a wake-up. */
  lemma ReadFindsNothing(l: Local)
    requires l.Valid() && Awake(l.e) && forall i :: 0 <= i < l.inQ.published ==> IsCredential(l.inQ.items[i])
    ensures var (l', x) := PipeEndpoint.Read(l);
      && x == None && l'.ok == l.ok && l'.outQ == l.outQ && l'.sent == l.sent
      && Took(l.inQ, l'.inQ, l.inQ.published) && l'.inQ.asleep
      && l'.e == l.e.(got := l.e.got + l.inQ.items[..l.inQ.published], inActive := false)
  {
    SkipsAll(l);
    assert Reading(l.e);
  }

  /** One of the three applies. */
  lemma {:induction false} FirstOrNone(q: Queue<Item>, n: nat)
    requires q.Valid() && n <= q.published && forall i :: 0 <= i < n ==> IsCredential(q.items[i])
    ensures (exists i: nat :: First(q, i)) <==> !forall i :: 0 <= i < q.published ==> IsCredential(q.items[i])
    decreases q.published - n
  {
    if n == q.published {
    } else if IsCredential(q.items[n]) {
      FirstOrNone(q, n + 1);
    } else {
      assert First(q, n);
    }
  }

  /** A check is true exactly when an awake endpoint has a published item in front that is not the
      delimiter, and then it changes nothing. */
  lemma CheckTells(l: Local)
    requires l.Valid()
    ensures var q, (l', any) := l.inQ, PipeEndpoint.CheckRead(l);
      && (any <==> Awake(l.e) && q.published > 0 && !q.items[0].Delimiter?)
      && (any ==> l' == l)
      && (Awake(l.e) && q.published == 0 ==> l' == l.(inQ := q.(asleep := true), e := l.e.(inActive := false)))
  {
    assert Reading(l.e) <==> Awake(l.e);
  }

  /** A delimiter in front is taken at once. */
  lemma CheckEnds(l: Local)
    requires l.Valid() && Awake(l.e) && l.inQ.published > 0 && l.inQ.items[0].Delimiter?
    ensures var l' := PipeEndpoint.CheckRead(l).0;
      && Took(l.inQ, l'.inQ, 1) && !l'.inQ.asleep && l'.e.got == l.e.got + [Delimiter] && l'.ok == l.ok
      && (l.e.state == Active ==>
            l'.e.state == DelimiterReceived && l'.sent == l.sent && l'.outQ == l.outQ)
      && (l.e.state == WaitingForDelimiter ==>
            l'.e.state == TermAckSent && l'.sent == l.sent + [PipeTermAck] && l'.outQ == None)
  {
    assert Reading(l.e);
  }

  /** After a check that was true, a read gives a message exactly if one that is no credential was
      published before any delimiter. */
  lemma CheckThenRead(l: Local)
    requires l.Valid() && PipeEndpoint.CheckRead(l).1
    ensures PipeEndpoint.Read(PipeEndpoint.CheckRead(l).0).1.Some? <==>
            exists i: nat :: First(l.inQ, i) && l.inQ.items[i].Msg?
  {
    CheckTells(l);
    FirstOrNone(l.inQ, 0);
    if i: nat :| First(l.inQ, i) {
      if l.inQ.items[i].Msg? {
        ReadHandsOut(l, i);
      } else {
        ReadEnds(l, i);
        forall j: nat | First(l.inQ, j) ensures j == i {
          FirstIsUnique(l.inQ, i, j);
        }
      }
    } else {
      ReadFindsNothing(l);
    }
  }

  lemma FirstIsUnique(q: Queue<Item>, i: nat, j: nat)
    requires First(q, i) && First(q, j)
    ensures i == j
  {}

  // ------------------------------------------------------------------ writing

  /** A write is taken exactly if the endpoint is active and within its watermark; then this very item
      is the last one of the queue, and it finishes a message unless it is marked `more`. */
  lemma WriteAppends(l: Local, x: Item)
    requires Ready(l) && x.Msg?
    ensures var (l', taken) := PipeEndpoint.Write(l, x);
      && (taken <==> l.e.outActive && l.e.state == Active
                     && (l.e.hwm <= 0 || 0 <= l.e.msgsWritten - l.e.peersMsgsRead < l.e.hwm))
      && (taken ==>
            && l.outQ.Some? && l'.inQ == l.inQ && l'.sent == l.sent && l'.ok
            && l'.outQ == Some(l.outQ.value.(items := l.outQ.value.items + [x],
                                             complete := if x.more then l.outQ.value.complete else |l.outQ.value.items| + 1))
            && l'.e == l.e.(put := l.e.put + [x],
                            msgsWritten := l.e.msgsWritten + if x.more || x.identity then 0 else 1))
      && (!taken ==> l' == l.(e := l.e.(outActive := l'.e.outActive)) && (l'.e.outActive ==> l.e.state != Active))
  {}

  /** A check of the room says what the next write will find, and a full endpoint waits for credit. */
  lemma CheckWriteTells(l: Local)
    requires Ready(l)
    ensures var (l', room) := CheckWrite(l);
      && (room <==> l.e.outActive && l.e.state == Active
                    && (l.e.hwm <= 0 || 0 <= l.e.msgsWritten - l.e.peersMsgsRead < l.e.hwm))
      && l' == l.(e := l.e.(outActive := l.e.outActive && (room || l.e.state != Active)))
  {}

  /** A rollback takes back exactly the items after the last finished message. */
  lemma RollbackTakesBack(l: Local)
    requires Ready(l) && l.outQ.Some? && |l.outQ.value.items| - l.outQ.value.complete <= |l.e.put|
    ensures var q := l.outQ.value;
      PipeEndpoint.Rollback(l) == l.(outQ := Some(q.(items := q.items[..q.complete])),
                                     e := l.e.(put := l.e.put[..|l.e.put| - (|q.items| - q.complete)]))
  {}

  /** A flush publishes every finished message, and wakes the reader exactly if it sleeps. */
  lemma FlushPublishes(l: Local)
    requires Ready(l) && l.outQ.Some? && l.e.state != TermAckSent
    ensures var q, l' := l.outQ.value, PipeEndpoint.Flush(l);
      && l'.e == l.e && l'.inQ == l.inQ && l'.ok
      && l'.outQ.Some? && l'.outQ.value.items == q.items && l'.outQ.value.complete == q.complete
      && l'.outQ.value.published == q.complete
      && (l'.sent == if q.asleep && q.published < q.complete then [ActivateRead] else [])
      && (l'.outQ.value.asleep <==> q.asleep && q.published == q.complete)
  {}

  /** Terminating: who asks the peer, who answers it, and where the endpoint goes. */
  lemma TerminateEnds(l: Local, delay: bool)
    requires Ready(l)
    ensures var l' := Terminate(l, delay);
      && l'.e.delay == delay
      && (l.e.state == Active || l.e.state == DelimiterReceived ==>
            l'.e.state == TermReqSent1 && l'.sent != [] && l'.sent[0] == PipeTerm)
      && (l.e.state == WaitingForDelimiter && !delay ==>
            l'.e.state == TermAckSent && l'.sent == [PipeTermAck] && l'.outQ == None)
      && (l.e.state == WaitingForDelimiter && delay ==> l'.e.state == WaitingForDelimiter)
      && (l.e.state == TermReqSent1 || l.e.state == TermReqSent2 || l.e.state == TermAckSent ==>
            l' == l.(e := l.e.(delay := delay)))
  {
    var l1 := l.(e := l.e.(delay := delay));
    if l.e.state == Active || l.e.state == DelimiterReceived {
      CloseShape(PipeEndpoint.Send(l1.(e := l1.e.(state := TermReqSent1)), PipeTerm));
    } else if l.e.state == WaitingForDelimiter && delay {
      CloseShape(l1);
    }
  }

  /** The outbound stream is closed by every call that does not find it closed or let go of it. */
  predicate Closes(e: Endpoint, delay: bool) {
    e.state == Active || e.state == DelimiterReceived || (e.state == WaitingForDelimiter && delay)
  }

  lemma TerminateCloses(l: Local, delay: bool)
    requires Ready(l) && Closes(l.e, delay) && l.outQ.Some? && |l.outQ.value.items| - l.outQ.value.complete <= |l.e.put|
    ensures var q, l' := l.outQ.value, Terminate(l, delay);
      && !l'.e.outActive && l'.outQ.Some?
      && l'.outQ.value.items == q.items[..q.complete] + [Delimiter]
      && l'.outQ.value.complete == l'.outQ.value.published == q.complete + 1
      && l'.e.put == l.e.put[..|l.e.put| - (|q.items| - q.complete)] + [Delimiter]
      && (ActivateRead in l'.sent <==> q.asleep)
  {
    var l1 := l.(e := l.e.(delay := delay));
    if l.e.state == Active || l.e.state == DelimiterReceived {
      CloseShape(PipeEndpoint.Send(l1.(e := l1.e.(state := TermReqSent1)), PipeTerm));
    } else {
      CloseShape(l1);
    }
  }

  // ----------------------------------------------------- what all reads handed out

  /** The messages of a stream that a user gets to see. */
  function Given(items: seq<Item>): seq<Item> {
    if items == [] then []
    else Given(items[..|items| - 1]) + (if Last(items).Msg? && !Last(items).credential then [Last(items)] else [])
  }

  lemma {:induction false} GivenAppend(a: seq<Item>, b: seq<Item>)
    ensures Given(a + b) == Given(a) + Given(b)
    decreases |b|
  {
    if b == [] {
      assert a + b == a;
    } else {
      assert (a + b)[..|a + b| - 1] == a + b[..|b| - 1];
      GivenAppend(a, b[..|b| - 1]);
    }
  }

  lemma {:induction false} NothingGiven(items: seq<Item>)
    requires forall i :: 0 <= i < |items| ==> IsCredential(items[i])
    ensures Given(items) == []
  {
    if items == [] {
    } else {
      NothingGiven(items[..|items| - 1]);
    }
  }

  function Handed(x: Option<Item>): seq<Item> {
    if x.Some? then [x.value] else []
  }

  /** What this endpoint's user has been handed since its last effective hiccup, after one more step. */
  function ToldBy(s: Sys, a: Action, told: seq<Item>): seq<Item> {
    if !Enabled(s, a) || !s.me.alive || !Attached(s) then told
    else if a.DoRead? then told + Handed(PipeEndpoint.Read(View(s)).1)
    else if a.DoHiccup? && s.me.state == Active then []
    else told
  }

  /** The results of all reads of this endpoint in a run. */
  function Told(s: Sys, trace: seq<(bool, Action)>): seq<Item> {
    if trace == [] then [] else
    var prefix := trace[..|trace| - 1];
    match Run(s, prefix)
    case Next(t) => if Last(trace).0 then ToldBy(t, Last(trace).1, Told(s, prefix)) else Told(s, prefix)
    case Failed(_) => Told(s, prefix)
  }

  /** And of the other one. */
  function ToldPeer(s: Sys, trace: seq<(bool, Action)>): seq<Item> {
    if trace == [] then [] else
    var prefix := trace[..|trace| - 1];
    match Run(s, prefix)
    case Next(t) => if Last(trace).0 then ToldPeer(s, prefix) else ToldBy(Swap(t), Last(trace).1, ToldPeer(s, prefix))
    case Failed(_) => ToldPeer(s, prefix)
  }

  lemma ReadTold(l: Local)
    requires l.Valid()
    ensures Given(PipeEndpoint.Read(l).0.e.got) == Given(l.e.got) + Handed(PipeEndpoint.Read(l).1)
  {
    if !Awake(l.e) {
      AsleepReadsNothing(l);
    } else {
      FirstOrNone(l.inQ, 0);
      if i: nat :| First(l.inQ, i) {
        GivenUpTo(l.e.got, l.inQ, i);
        if l.inQ.items[i].Msg? { ReadHandsOut(l, i); } else { ReadEnds(l, i); }
      } else {
        NothingGiven(l.inQ.items[..l.inQ.published]);
        GivenAppend(l.e.got, l.inQ.items[..l.inQ.published]);
        ReadFindsNothing(l);
      }
    }
  }

  lemma GivenUpTo(got: seq<Item>, q: Queue<Item>, i: nat)
    requires First(q, i)
    ensures Given(got + q.items[..i + 1]) == Given(got) + if q.items[i].Msg? then [q.items[i]] else []
  {
    NothingGiven(q.items[..i]);
    assert q.items[..i + 1] == q.items[..i] + [q.items[i]];
    assert q.items[..i + 1][..i] == q.items[..i];
    GivenAppend(got, q.items[..i + 1]);
  }

  lemma CheckReadTold(l: Local)
    requires l.Valid()
    ensures Given(PipeEndpoint.CheckRead(l).0.e.got) == Given(l.e.got)
  {
    CheckTells(l);
    if !Awake(l.e) {
      AsleepReadsNothing(l);
    } else if l.inQ.published > 0 && l.inQ.items[0].Delimiter? {
      CheckEnds(l);
      assert (l.e.got + [Delimiter])[..|l.e.got|] == l.e.got;
    }
  }

  lemma CallTold(l: Local, a: Action)
    requires Ready(l) && !a.DoHiccup? && !a.Deliver? && (a.DoWrite? ==> a.x.Msg?)
    ensures Given(Call(l, a).e.got) == Given(l.e.got) + if a.DoRead? then Handed(PipeEndpoint.Read(l).1) else []
  {
    if a.DoRead? {
      ReadTold(l);
    } else if a.DoCheckRead? {
      CheckReadTold(l);
    } else if a.DoTerminate? {
      TerminateKeepsReader(l, a.delay);
    } else {
      OthersKeepReader(l, a);
    }
  }

  lemma DeliveryTold(s: Sys)
    requires Inv(s) && s.toMe != []
    ensures Step(s, Deliver).Next? && Step(s, Deliver).s.me.got == s.me.got
  {
    DeliverKeeps(s);
    ReceiverIsAlive(s);
    ViewReady(s);
    if s.toMe[0].Hiccup? {
      HiccupKeepsReaders(s);
    } else if s.toMe[0].PipeTermAck? {
      AckKeepsReader(s);
    } else {
      DeliverIsHandle(s);
      HandleTerms(View(s), s.toMe[0]);
      CommittedEndpoint(s, s.toMe[1..], Handle(View(s), s.toMe[0]));
    }
  }

  lemma CommittedEndpoint(s: Sys, rest: seq<Command>, l: Local)
    requires Commit(s.(toMe := rest), l).Next?
    ensures Commit(s.(toMe := rest), l).s.me == l.e
  {}

  lemma StepTold(s: Sys, a: Action)
    requires Inv(s) && Enabled(s, a)
    ensures Step(s, a).Next? && Given(Step(s, a).s.me.got) == ToldBy(s, a, Given(s.me.got))
  {
    MoveKeeps(s, true, a);
    if a.Deliver? {
      DeliveryTold(s);
    } else {
      ViewReady(s);
      if a.DoHiccup? {
        if s.me.state == Active { ActiveHiccupKeeps(s); } else { IdleHiccupShape(s); }
      } else {
        CallTold(View(s), a);
        assert s.(toMe := s.toMe) == s;
        CommittedEndpoint(s, s.toMe, Call(View(s), a));
      }
    }
  }

  lemma MoveTold(s: Sys, mine: bool, a: Action)
    requires Inv(s)
    ensures Move(s, mine, a).Next?
    ensures Given(Move(s, mine, a).s.me.got) == if mine then ToldBy(s, a, Given(s.me.got)) else Given(s.me.got)
  {
    MoveKeeps(s, mine, a);
    MoveShape(s, mine, a);
    if mine && Enabled(s, a) {
      StepTold(s, a);
    }
  }

  lemma MoveToldPeer(s: Sys, mine: bool, a: Action)
    requires Inv(s)
    ensures Move(s, mine, a).Next?
    ensures Given(Move(s, mine, a).s.you.got) == if mine then Given(s.you.got) else ToldBy(Swap(s), a, Given(s.you.got))
  {
    MoveKeeps(s, mine, a);
    MoveShape(s, mine, a);
    InvSwap(s);
    if !mine && Enabled(Swap(s), a) {
      StepTold(Swap(s), a);
    }
  }

  /** In every run, what the reads of either end handed out is what that end has taken from the queue
      since its last hiccup, without credentials and delimiters: nothing else, nothing less, in order. */
  lemma {:induction false} ReadsHandOutTheStream(hwm0: int, hwm1: int, trace: seq<(bool, Action)>)
    ensures Run(Init(hwm0, hwm1), trace).Next?
    ensures Told(Init(hwm0, hwm1), trace) == Given(Run(Init(hwm0, hwm1), trace).s.me.got)
    ensures ToldPeer(Init(hwm0, hwm1), trace) == Given(Run(Init(hwm0, hwm1), trace).s.you.got)
    decreases |trace|
  {
    if trace == [] {
    } else {
      var prefix := trace[..|trace| - 1];
      ReadsHandOutTheStream(hwm0, hwm1, prefix);
      EveryRunIsSafe(hwm0, hwm1, prefix);
      var s := Run(Init(hwm0, hwm1), prefix).s;
      MoveTold(s, Last(trace).0, Last(trace).1);
      MoveToldPeer(s, Last(trace).0, Last(trace).1);
    }
  }
}
