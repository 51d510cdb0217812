/** One endpoint of a pipe: its fields, and each of its operations as a function
    of the endpoint, the two queues it is attached to and the commands it has
    sent to its peer. */
module PipeEndpoint {
  import opened Basics
  import opened Fifo

  datatype State =
    | Active
    | DelimiterReceived
    | WaitingForDelimiter
    | TermAckSent
    | TermReqSent1
    | TermReqSent2

  datatype Item =
    | Msg(more: bool, identity: bool, credential: bool, body: int)
    | Delimiter
  {
    /** Does the item finish a message that the watermarks count? */
    predicate Counted() {
      Msg? && !more && !identity
    }
  }

  datatype Command =
    | ActivateRead
    | ActivateWrite(msgsRead: int)
    | Hiccup(queue: nat)
    | PipeTerm
    | PipeTermAck

  /** `inQueue` and `outQueue` are the addresses of the queues, `got` and `put`
      the history of items taken out of and put into them; a queue that replaces
      another begins a new history. */
  datatype Endpoint = Endpoint(
    state: State,
    inActive: bool,
    outActive: bool,
    hwm: int,
    lwm: int,
    msgsRead: int,
    msgsWritten: int,
    peersMsgsRead: int,
    delay: bool,
    inQueue: nat,
    outQueue: Option<nat>,
    alive: bool,
    got: seq<Item>,
    put: seq<Item>)

  /** What one operation sees and changes.  `ok` turns false when an internal
      assertion of the operation fails. */
  datatype Local = Local(
    e: Endpoint,
    inQ: Queue<Item>,
    outQ: Option<Queue<Item>>,
    sent: seq<Command>,
    ok: bool)
  {
    ghost predicate Valid() {
      && inQ.Valid()
      && (outQ.Some? ==> outQ.value.Valid())
      && (outQ.Some? <==> e.outQueue.Some?)
    }
  }

  /** Division as the source does it, truncating towards zero. */
  function TruncatedHalf(x: int): int {
    if x >= 0 then x / 2 else -((-x) / 2)
  }

  function ComputeLwm(hwm: int): (lwm: int)
    ensures hwm > 0 ==> 0 < lwm <= hwm && hwm <= 2 * lwm <= hwm + 1
    ensures hwm == 0 ==> lwm == 0
  {
    TruncatedHalf(hwm + 1)
  }

  function NewEndpoint(inQueue: nat, outQueue: nat, inHwm: int, outHwm: int): Endpoint {
    Endpoint(Active, true, true, outHwm, ComputeLwm(inHwm), 0, 0, 0, true, inQueue, Some(outQueue), true, [], [])
  }

  function Send(l: Local, c: Command): Local {
    l.(sent := l.sent + [c])
  }

  predicate Reading(e: Endpoint) {
    e.inActive && (e.state.Active? || e.state.WaitingForDelimiter?)
  }

  /** Lets go of the outbound queue and confirms the termination. */
  function Acknowledge(l: Local, next: State): Local {
    Send(l.(e := l.e.(outQueue := None, state := next), outQ := None), PipeTermAck)
  }

  function ProcessDelimiter(l: Local): Local {
    if l.e.state.Active? then l.(e := l.e.(state := DelimiterReceived))
    else if l.e.state.WaitingForDelimiter? then Acknowledge(l, TermAckSent)
    else l.(ok := false)
  }

  /** Takes one item off the inbound queue. */
  function Fetch(l: Local): (r: (Local, Option<Item>))
    requires l.Valid()
    ensures r.0.Valid()
  {
    var (q, x) := Fifo.Read(l.inQ);
    if x.None? then (l.(inQ := q, e := l.e.(inActive := false)), None)
    else (l.(inQ := q, e := l.e.(got := l.e.got + [x.value])), x)
  }

  function CheckRead(l: Local): (r: (Local, bool))
    requires l.Valid()
    ensures r.0.Valid()
  {
    if !Reading(l.e) then (l, false) else
    var (q, any) := Fifo.CheckRead(l.inQ);
    var l1 := l.(inQ := q);
    if !any then (l1.(e := l1.e.(inActive := false)), false)
    else if q.items[0].Delimiter? then (ProcessDelimiter(Fetch(l1).0), false)
    else (l1, true)
  }

  /** The part of a read after the item was fetched: counting, and credit for
      the writer. */
  function CountRead(l: Local, x: Item): Local {
    var l1 := if x.Counted() then l.(e := l.e.(msgsRead := l.e.msgsRead + 1)) else l;
    if l1.e.lwm > 0 && l1.e.msgsRead % l1.e.lwm == 0
    then Send(l1, ActivateWrite(l1.e.msgsRead)) else l1
  }

  /** What a read does with an item that is not a credential, or with none. */
  function Taken(l: Local, x: Option<Item>): (r: (Local, Option<Item>))
    ensures l.Valid() ==> r.0.Valid()
  {
    match x
    case None => (l, None)
    case Some(Delimiter) => (ProcessDelimiter(l), None)
    case Some(m) => (CountRead(l, m), x)
  }

  /** Credentials are skipped. */
  function ReadMessage(l: Local): (r: (Local, Option<Item>))
    requires l.Valid()
    ensures r.0.Valid()
    decreases |l.inQ.items|
  {
    var (l1, x) := Fetch(l);
    if x.Some? && x.value.Msg? && x.value.credential then ReadMessage(l1) else Taken(l1, x)
  }

  function Read(l: Local): (r: (Local, Option<Item>))
    requires l.Valid()
    ensures r.0.Valid()
  {
    if !Reading(l.e) then (l, None) else ReadMessage(l)
  }

  /** The difference is unsigned, so that a negative one counts as too large. */
  predicate CheckHwm(e: Endpoint) {
    var ahead := e.msgsWritten - e.peersMsgsRead;
    !(e.hwm > 0 && (ahead >= e.hwm || ahead < 0))
  }

  function CheckWrite(l: Local): (r: (Local, bool))
    ensures l.Valid() ==> r.0.Valid()
  {
    if !l.e.outActive || !l.e.state.Active? then (l, false)
    else if !CheckHwm(l.e) then (l.(e := l.e.(outActive := false)), false)
    else (l, true)
  }

  /** Puts one item into the outbound queue. */
  function Put(l: Local, x: Item, incomplete: bool): (l': Local)
    requires l.outQ.Some?
    ensures l.Valid() ==> l'.Valid()
  {
    l.(outQ := Some(Fifo.Write(l.outQ.value, x, incomplete)), e := l.e.(put := l.e.put + [x]))
  }

  function Write(l: Local, x: Item): (r: (Local, bool))
    requires x.Msg?
    ensures l.Valid() ==> r.0.Valid()
  {
    var (l1, room) := CheckWrite(l);
    if !room then (l1, false)
    else if l1.outQ.None? then (l1.(ok := false), false)
    else
      var l2 := Put(l1, x, x.more);
      (if x.Counted() then l2.(e := l2.e.(msgsWritten := l2.e.msgsWritten + 1)) else l2, true)
  }

  predicate Unfinished(q: Queue<Item>)
    requires q.Valid()
  {
    forall i :: q.complete <= i < |q.items| ==> q.items[i].Msg? && q.items[i].more
  }

  /** Removes the unfinished message; every part removed must be marked `more`. */
  function Rollback(l: Local): (l': Local)
    requires l.Valid()
    ensures l'.Valid()
  {
    if l.outQ.None? then l else
    var q := l.outQ.value;
    var dropped := |q.items| - q.complete;
    l.(outQ := Some(Fifo.Rollback(q)),
       e := l.e.(put := if dropped <= |l.e.put| then l.e.put[..|l.e.put| - dropped] else l.e.put),
       ok := l.ok && Unfinished(q))
  }

  function Flush(l: Local): (l': Local)
    ensures l.Valid() ==> l'.Valid()
  {
    if l.e.state.TermAckSent? || l.outQ.None? then l else
    var (q, awake) := Fifo.Flush(l.outQ.value);
    var l1 := l.(outQ := Some(q));
    if awake then l1 else Send(l1, ActivateRead)
  }

  /** The second half of `terminate`: stop the outbound flow and say so in band. */
  function CloseOutbound(l: Local): (l': Local)
    requires l.Valid()
    ensures l'.Valid()
  {
    var l1 := l.(e := l.e.(outActive := false));
    if l1.outQ.None? then l1 else Flush(Put(Rollback(l1), Delimiter, false))
  }

  function Terminate(l: Local, delay: bool): (l': Local)
    requires l.Valid()
    ensures l'.Valid()
  {
    var l1 := l.(e := l.e.(delay := delay));
    match l1.e.state
    case TermReqSent1 => l1
    case TermReqSent2 => l1
    case TermAckSent => l1
    case Active => CloseOutbound(Send(l1.(e := l1.e.(state := TermReqSent1)), PipeTerm))
    case WaitingForDelimiter =>
      CloseOutbound(if !delay then Acknowledge(l1, TermAckSent) else l1)
    case DelimiterReceived => CloseOutbound(Send(l1.(e := l1.e.(state := TermReqSent1)), PipeTerm))
  }

  function SetNoDelay(l: Local): Local {
    l.(e := l.e.(delay := false))
  }

  function ProcessActivateRead(l: Local): Local {
    if !l.e.inActive && (l.e.state.Active? || l.e.state.WaitingForDelimiter?)
    then l.(e := l.e.(inActive := true)) else l
  }

  function ProcessActivateWrite(l: Local, msgsRead: int): Local {
    var l1 := l.(e := l.e.(peersMsgsRead := msgsRead));
    if !l1.e.outActive && l1.e.state.Active? then l1.(e := l1.e.(outActive := true)) else l1
  }

  function ProcessPipeTerm(l: Local): Local {
    match l.e.state
    case Active =>
      if l.e.delay then l.(e := l.e.(state := WaitingForDelimiter)) else Acknowledge(l, TermAckSent)
    case DelimiterReceived => Acknowledge(l, TermAckSent)
    case TermReqSent1 => Acknowledge(l, TermReqSent2)
    case _ => l.(ok := false)
  }

  /** The endpoint answers a pending request, then deletes its inbound queue and
      itself. */
  function ProcessPipeTermAck(l: Local): Local {
    var l1 :=
      if l.e.state.TermReqSent1? then Acknowledge(l, TermReqSent1)
      else l.(ok := l.ok && (l.e.state.TermAckSent? || l.e.state.TermReqSent2?));
    l1.(e := l1.e.(alive := false))
  }

  /** How many counted messages the writer takes back when its queue is replaced. */
  function Finished(items: seq<Item>): nat {
    if items == [] then 0
    else (if items[0].Msg? && items[0].more then 0 else 1) + Finished(items[1..])
  }

  /** Replaces the outbound queue by an empty one that the peer created. */
  function ProcessHiccup(l: Local, queue: nat, next: Queue<Item>): (l': Local)
    requires l.Valid() && next.Valid()
    ensures l'.Valid()
  {
    if l.outQ.None? then l.(ok := false) else
    var q := Fifo.Flush(l.outQ.value).0;
    l.(outQ := Some(next),
       e := l.e.(msgsWritten := l.e.msgsWritten - Finished(q.items[..q.published]),
                 outQueue := Some(queue),
                 outActive := true,
                 put := []))
  }

  /** Replaces the inbound queue by a new one and hands its address to the peer. */
  function DoHiccup(l: Local, queue: nat): Local {
    if !l.e.state.Active? then l
    else Send(l.(inQ := Empty(), e := l.e.(inQueue := queue, inActive := true, got := [])), Hiccup(queue))
  }
}
