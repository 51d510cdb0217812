/** The endpoint as an object, working on two lock-free queues.  Every method is
    tied to the function of PipeEndpoint that the theorems are about. */
module PipeObject {
  import opened Basics
  import opened Fifo
  import opened LockFreeQueue
  import opened PipeEndpoint

  class Pipe {
    var inpipe: YPipe<Item>
    var outpipe: YPipe?<Item>
    var inActive: bool
    var outActive: bool
    var hwm: int
    var lwm: int
    var msgsRead: int
    var msgsWritten: int
    var peersMsgsRead: int
    var state: State
    var delay: bool
    var outbox: seq<Command>        // commands handed over for the peer
    var inAddress: nat              // the addresses of the queues
    var outAddress: Option<nat>
    ghost var alive: bool
    ghost var got: seq<Item>
    ghost var put: seq<Item>

    ghost predicate Valid()
      reads this, inpipe, outpipe
    {
      && inpipe.Valid()
      && (outpipe != null ==> outpipe.Valid() && outpipe != inpipe)
      && (outpipe != null <==> outAddress.Some?)
    }

    ghost function View(): (l: Local)
      requires Valid()
      reads this, inpipe, outpipe
      ensures l.Valid() && l.ok
    {
      Local(Endpoint(state, inActive, outActive, hwm, lwm, msgsRead, msgsWritten, peersMsgsRead, delay,
                     inAddress, outAddress, alive, got, put),
            inpipe.Abs(), if outpipe == null then None else Some(outpipe.Abs()), outbox, true)
    }

    constructor (inpipe: YPipe<Item>, outpipe: YPipe<Item>, inhwm: int, outhwm: int, inAddress: nat, outAddress: nat)
      requires inpipe.Valid() && outpipe.Valid() && inpipe != outpipe
      ensures Valid() && this.inpipe == inpipe && this.outpipe == outpipe
      ensures View() == Local(NewEndpoint(inAddress, outAddress, inhwm, outhwm), inpipe.Abs(), Some(outpipe.Abs()), [], true)
    {
      this.inpipe, this.outpipe := inpipe, outpipe;
      inActive, outActive := true, true;
      hwm, lwm := outhwm, ComputeLwm(inhwm);
      msgsRead, msgsWritten, peersMsgsRead := 0, 0, 0;
      state, delay, outbox := Active, true, [];
      this.inAddress, this.outAddress, alive, got, put := inAddress, Some(outAddress), true, [], [];
    }

    method SendCommand(c: Command)
      requires Valid()
      modifies this`outbox
      ensures Valid() && View() == Send(old(View()), c)
    {
      outbox := outbox + [c];
    }

    method ProcessDelimiter()
      requires Valid() && (state.Active? || state.WaitingForDelimiter?)
      modifies this
      ensures Valid() && View() == PipeEndpoint.ProcessDelimiter(old(View()))
      ensures inpipe == old(inpipe)
    {
      if state.Active? {
        state := DelimiterReceived;
      } else {
        Acknowledge(TermAckSent);
      }
    }

    method CheckRead() returns (ok: bool)
      requires Valid()
      modifies this, inpipe
      ensures Valid() && (View(), ok) == PipeEndpoint.CheckRead(old(View()))
    {
      if !inActive {
        return false;
      }
      if !state.Active? && !state.WaitingForDelimiter? {
        return false;
      }
      ok := inpipe.CheckRead();
      if !ok {
        inActive := false;
        return false;
      }
      if inpipe.items[0].Delimiter? {
        var x := inpipe.Read();
        got := got + [x.value];
        ProcessDelimiter();
        return false;
      }
    }

    method Read() returns (x: Option<Item>)
      requires Valid()
      modifies this, inpipe
      ensures Valid() && (View(), x) == PipeEndpoint.Read(old(View()))
    {
      if !inActive {
        return None;
      }
      if !state.Active? && !state.WaitingForDelimiter? {
        return None;
      }
      ghost var start := View();
      ReadByNextItem(start);
      x := NextItem();
      if x.None? {
        return;
      }
      if x.value.Delimiter? {
        ProcessDelimiter();
        return None;
      }
      CountRead(x.value);
    }

    method FetchItem() returns (x: Option<Item>)
      requires Valid()
      modifies this`inActive, this`got, inpipe
      ensures Valid() && (View(), x) == Fetch(old(View()))
    {
      x := inpipe.Read();
      if x.Some? {
        got := got + [x.value];
      } else {
        inActive := false;
      }
    }

    /** The next item that is not a credential. */
    method NextItem() returns (x: Option<Item>)
      requires Valid()
      modifies this`inActive, this`got, inpipe
      ensures Valid() && (View(), x) == FirstNonCredential(old(View()))
    {
      ghost var start := View();
      x := FetchItem();
      while x.Some? && x.value.Msg? && x.value.credential
        invariant Valid()
        invariant FirstNonCredential(start) ==
          if x.Some? && x.value.Msg? && x.value.credential then FirstNonCredential(View()) else (View(), x)
        decreases |inpipe.items|, x.Some?
      {
        x := FetchItem();
      }
    }

    method CountRead(x: Item)
      requires Valid()
      modifies this`msgsRead, this`outbox
      ensures Valid() && View() == PipeEndpoint.CountRead(old(View()), x)
    {
      if x.Msg? && !x.more && !x.identity {
        msgsRead := msgsRead + 1;
      }
      if lwm > 0 && msgsRead % lwm == 0 {
        SendCommand(ActivateWrite(msgsRead));
      }
    }

    method CheckWrite() returns (ok: bool)
      requires Valid()
      modifies this`outActive
      ensures Valid() && (View(), ok) == PipeEndpoint.CheckWrite(old(View()))
    {
      if !outActive || !state.Active? {
        return false;
      }
      var ahead := msgsWritten - peersMsgsRead;
      var full := hwm > 0 && (ahead >= hwm || ahead < 0);
      if full {
        outActive := false;
        return false;
      }
      return true;
    }

    /** An active endpoint has its outbound queue. */
    method Write(x: Item) returns (ok: bool)
      requires Valid() && x.Msg? && (state.Active? ==> outpipe != null)
      modifies this, outpipe
      ensures Valid() && (View(), ok) == PipeEndpoint.Write(old(View()), x)
    {
      ok := CheckWrite();
      if !ok {
        return false;
      }
      PutItem(x, x.more);
      if !x.more && !x.identity {
        msgsWritten := msgsWritten + 1;
      }
    }

    method PutItem(x: Item, incomplete: bool)
      requires Valid() && outpipe != null
      modifies this`put, outpipe
      ensures Valid() && View() == Put(old(View()), x, incomplete)
    {
      outpipe.Write(x, incomplete);
      put := put + [x];
    }

    method Rollback()
      requires Valid() && (outpipe != null ==> Unfinished(outpipe.Abs()))
      modifies this`put, outpipe
      ensures Valid() && View() == PipeEndpoint.Rollback(old(View()))
    {
      if outpipe == null {
        return;
      }
      ghost var q := outpipe.Abs();
      DropUnfinished(outpipe);
      ghost var dropped := |q.items| - q.complete;
      put := if dropped <= |put| then put[..|put| - dropped] else put;
    }

    method Flush()
      requires Valid()
      modifies this`outbox, outpipe
      ensures Valid() && View() == PipeEndpoint.Flush(old(View()))
    {
      if state.TermAckSent? {
        return;
      }
      if outpipe != null {
        var awake := outpipe.Flush();
        if !awake {
          SendCommand(ActivateRead);
        }
      }
    }

    method Terminate(delay': bool)
      requires Valid() && (outpipe != null ==> Unfinished(outpipe.Abs()))
      modifies this, outpipe
      ensures Valid() && View() == PipeEndpoint.Terminate(old(View()), delay')
    {
      delay := delay';
      if state.TermReqSent1? || state.TermReqSent2? {
        return;
      } else if state.TermAckSent? {
        return;
      }
      StopReading();
      CloseOutbound();
    }

    /** The first half of terminating: what the peer is told out of band. */
    method StopReading()
      requires Valid() && (state.Active? || state.WaitingForDelimiter? || state.DelimiterReceived?)
      requires outpipe != null ==> Unfinished(outpipe.Abs())
      modifies this`outbox, this`state, this`outpipe, this`outAddress
      ensures Valid() && (outpipe == old(outpipe) || outpipe == null)
      ensures View() == if old(state).WaitingForDelimiter? then
                          (if delay then old(View()) else PipeEndpoint.Acknowledge(old(View()), TermAckSent))
                        else Send(old(View()).(e := old(View()).e.(state := TermReqSent1)), PipeTerm)
    {
      if state.Active? {
        RequestTermination();
      } else if state.WaitingForDelimiter? && !delay {
        Acknowledge(TermAckSent);
      } else if state.WaitingForDelimiter? {
      } else {
        RequestTermination();
      }
    }

    method RequestTermination()
      requires Valid()
      modifies this`outbox, this`state
      ensures Valid() && View() == Send(old(View()).(e := old(View()).e.(state := TermReqSent1)), PipeTerm)
    {
      SendCommand(PipeTerm);
      state := TermReqSent1;
    }

    method Acknowledge(next: State)
      requires Valid()
      modifies this`outbox, this`state, this`outpipe, this`outAddress
      ensures Valid() && View() == PipeEndpoint.Acknowledge(old(View()), next)
      ensures outpipe == null
    {
      outpipe, outAddress := null, None;
      SendCommand(PipeTermAck);
      state := next;
    }

    method CloseOutbound()
      requires Valid() && (outpipe != null ==> Unfinished(outpipe.Abs()))
      modifies this`outActive, this`put, this`outbox, outpipe
      ensures Valid() && View() == PipeEndpoint.CloseOutbound(old(View()))
    {
      outActive := false;
      if outpipe != null {
        Rollback();
        PutItem(Delimiter, false);
        Flush();
      }
    }

    method ProcessActivateRead()
      requires Valid()
      modifies this`inActive
      ensures Valid() && View() == PipeEndpoint.ProcessActivateRead(old(View()))
    {
      if !inActive && (state.Active? || state.WaitingForDelimiter?) {
        inActive := true;
      }
    }

    method ProcessActivateWrite(n: int)
      requires Valid()
      modifies this`peersMsgsRead, this`outActive
      ensures Valid() && View() == PipeEndpoint.ProcessActivateWrite(old(View()), n)
    {
      peersMsgsRead := n;
      if !outActive && state.Active? {
        outActive := true;
      }
    }

    method ProcessPipeTerm()
      requires Valid() && (state.Active? || state.DelimiterReceived? || state.TermReqSent1?)
      modifies this
      ensures Valid() && View() == PipeEndpoint.ProcessPipeTerm(old(View()))
    {
      if state.Active? {
        if delay {
          state := WaitingForDelimiter;
        } else {
          Acknowledge(TermAckSent);
        }
      } else if state.DelimiterReceived? {
        Acknowledge(TermAckSent);
      } else {
        Acknowledge(TermReqSent2);
      }
    }

    /** The items still in the inbound queue are closed and the queue is deleted;
        `drained` is what was closed. */
    method ProcessPipeTermAck() returns (drained: seq<Item>)
      requires Valid() && (state.TermReqSent1? || state.TermAckSent? || state.TermReqSent2?)
      modifies this, inpipe
      ensures inpipe == old(inpipe) && inpipe.Valid() && inpipe.Abs().published == 0
      ensures Valid() && View().(inQ := old(View()).inQ) == PipeEndpoint.ProcessPipeTermAck(old(View()))
      ensures drained + inpipe.items == old(inpipe.items)
    {
      if state.TermReqSent1? {
        Acknowledge(TermReqSent1);
      }
      drained := Drain(inpipe);
      alive := false;
    }

    /** Closes what is left in the old queue and switches to the new one. */
    method ProcessHiccup(pipe: YPipe<Item>, address: nat)
      requires Valid() && pipe.Valid() && pipe != inpipe && outpipe != null && pipe != outpipe
      modifies this, outpipe
      ensures Valid() && outpipe == pipe
      ensures View() == PipeEndpoint.ProcessHiccup(old(View()), address, pipe.Abs())
    {
      var n := DrainOutbound();
      msgsWritten := msgsWritten - n;
      PlugIn(pipe, address);
    }

    method PlugIn(pipe: YPipe<Item>, address: nat)
      requires Valid() && pipe.Valid() && pipe != inpipe && outpipe != null
      modifies this`outpipe, this`outAddress, this`outActive, this`put
      ensures Valid() && outpipe == pipe
      ensures View() == old(View()).(outQ := Some(pipe.Abs()),
                                     e := old(View().e).(outQueue := Some(address), outActive := true, put := []))
    {
      outpipe, outAddress := pipe, Some(address);
      outActive, put := true, [];
    }

    /** Flushes the outbound queue, closes what was published in it, and counts the messages. */
    method DrainOutbound() returns (n: nat)
      requires Valid() && outpipe != null
      modifies outpipe
      ensures Valid() && inpipe.Abs() == old(inpipe.Abs())
      ensures var q := Fifo.Flush(old(outpipe.Abs())).0; n == Finished(q.items[..q.published])
    {
      var awake := outpipe.Flush();
      var drained := Drain(outpipe);
      n := CountFinished(drained);
    }

    /** Drops the inbound queue, creates a new one and announces it. */
    method Hiccup(address: nat)
      requires Valid()
      modifies this
      ensures Valid() && View() == PipeEndpoint.DoHiccup(old(View()), address)
    {
      if !state.Active? {
        return;
      }
      RenewInbound(address);
      SendCommand(Command.Hiccup(address));
    }

    method RenewInbound(address: nat)
      requires Valid()
      modifies this`inpipe, this`inAddress, this`inActive, this`got
      ensures Valid() && View() == old(View()).(inQ := Empty(), e := old(View().e).(inQueue := address, inActive := true, got := []))
    {
      inpipe := new YPipe<Item>();
      inAddress := address;
      inActive, got := true, [];
    }
  }

  /** Takes back the unfinished items; each of them must be marked `more`. */
  method DropUnfinished(q: YPipe<Item>)
    requires q.Valid() && Unfinished(q.Abs())
    modifies q
    ensures q.Valid() && q.Abs() == Fifo.Rollback(old(q.Abs()))
  {
    var x := q.Unwrite();
    while x.Some?
      invariant q.Valid() && Unfinished(q.Abs())
      invariant x.Some? ==> x.value.Msg? && x.value.more
      invariant Fifo.Rollback(q.Abs()) == Fifo.Rollback(old(q.Abs()))
      invariant x.None? ==> q.Abs().complete == |q.Abs().items|
      decreases |q.items|, x.Some?
    {
      assert x.value.more;
      x := q.Unwrite();
    }
  }

  /** Reads and closes everything that was published. */
  method Drain(q: YPipe<Item>) returns (drained: seq<Item>)
    requires q.Valid()
    modifies q
    ensures q.Valid() && q.Abs().published == 0
    ensures drained == old(q.Abs()).items[..old(q.Abs()).published]
    ensures drained + q.items == old(q.items)
  {
    drained := [];
    var x := q.Read();
    while x.Some?
      invariant q.Valid()
      invariant drained + (if x.Some? then [x.value] else []) + q.items == old(q.items)
      invariant |drained| + (if x.Some? then 1 else 0) + q.Abs().published == old(q.Abs()).published
      invariant x.None? ==> q.Abs().published == 0
      decreases |q.items|, x.Some?
    {
      drained := drained + [x.value];
      x := q.Read();
    }
    assert drained == old(q.items)[..|drained|];
  }

  /** How many of the drained items the writer had counted as whole messages. */
  method CountFinished(items: seq<Item>) returns (n: nat)
    ensures n == Finished(items)
  {
    n := 0;
    assert items[..0] == [];
    for i := 0 to |items|
      invariant n == Finished(items[..i])
    {
      FinishedStep(items, i);
      if !(items[i].Msg? && items[i].more) {
        n := n + 1;
      }
    }
    assert items[..|items|] == items;
  }

  /** The first fetched item that is not a credential. */
  ghost function FirstNonCredential(l: Local): (r: (Local, Option<Item>))
    requires l.Valid()
    ensures r.0.Valid()
    decreases |l.inQ.items|
  {
    var (l1, x) := Fetch(l);
    if x.Some? && x.value.Msg? && x.value.credential then FirstNonCredential(l1) else (l1, x)
  }

  lemma {:induction false} ReadByNextItem(l: Local)
    requires l.Valid()
    ensures var (l1, x) := FirstNonCredential(l);
      ReadMessage(l) == match x
        case None => (l1, None)
        case Some(Delimiter) => (ProcessDelimiter(l1), None)
        case Some(m) => (CountRead(l1, m), x)
    ensures FirstNonCredential(l).0.e.state == l.e.state
    decreases |l.inQ.items|
  {
    var (l1, x) := Fetch(l);
    if x.None? || !x.value.Msg? || !x.value.credential {
    } else {
      ReadByNextItem(l1);
    }
  }

  lemma {:induction false} FinishedStep(items: seq<Item>, n: nat)
    requires n < |items|
    ensures Finished(items[..n + 1]) == Finished(items[..n]) + (if items[n].Msg? && items[n].more then 0 else 1)
    decreases n
  {
    if n == 0 {
      assert items[..1][1..] == [];
    } else {
      FinishedStep(items[1..], n - 1);
      assert items[..n + 1][1..] == items[1..][..n] && items[..n][1..] == items[1..][..n - 1];
    }
  }
}
