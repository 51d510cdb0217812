/** A mailbox: a queue that any number of threads write to under a lock, one thread reads,
    and a signaler that wakes the reader up. */
module Mailboxes {
  import opened Basics
  import opened Fifo
  import L = LockFreeQueue

  type Command = nat   // commands are told apart by a number

  /** The receiver reads while it is active; when passive it waits for a signal; woken up, it
      has taken the signal and is about to read. */
  datatype Mode = Active | Passive | Woken

  /** `owed` counts the senders that have written, must signal and have not done so yet. */
  datatype State = State(queue: Queue<Command>, mode: Mode, signals: nat, owed: nat,
                         sent: seq<Command>, received: seq<Command>)

  datatype Action =
    | Post(c: Command)    // a sender writes and flushes, under the lock
    | Signal              // a sender that found the reader asleep signals
    | TryRead             // the active receiver
    | TakeSignal          // the passive receiver, when there is a signal
    | ReadFirst           // the woken receiver

  predicate Enabled(s: State, a: Action) {
    match a
    case Post(_) => true
    case Signal => s.owed > 0
    case TryRead => s.mode.Active?
    case TakeSignal => s.mode.Passive? && s.signals > 0
    case ReadFirst => s.mode.Woken?
  }

  function Step(s: State, a: Action): State
    requires s.queue.Valid() && Enabled(s, a)
  {
    match a
    case Post(c) =>
      var (q, ok) := Flush(Write(s.queue, c, false));
      s.(queue := q, owed := if ok then s.owed else s.owed + 1, sent := s.sent + [c])
    case Signal => s.(owed := s.owed - 1, signals := s.signals + 1)
    case TryRead =>
      var (q, x) := Read(s.queue);
      if x.Some? then s.(queue := q, received := s.received + [x.value]) else s.(queue := q, mode := Passive)
    case TakeSignal => s.(signals := s.signals - 1, mode := Woken)
    case ReadFirst =>
      var (q, x) := Read(s.queue);
      if x.Some? then s.(queue := q, received := s.received + [x.value], mode := Active) else s.(queue := q, mode := Active)
  }

  function Start(): State {
    State(CheckRead(Empty<Command>()).0, Passive, 0, 0, [], [])
  }

  ghost predicate Inv(s: State) {
    && s.queue.Valid() && s.queue.published == |s.queue.items|
    && s.sent == s.received + s.queue.items
    && (s.queue.asleep ==> s.mode.Passive?)
    && s.signals + s.owed == (if s.mode.Passive? && !s.queue.asleep then 1 else 0)
    && (!s.mode.Active? && !s.queue.asleep ==> s.queue.items != [])
  }

  lemma StepKeeps(s: State, a: Action)
    requires Inv(s) && Enabled(s, a)
    ensures Inv(Step(s, a))
  {
    match a
    case Post(c) =>
      assert s.received + s.queue.items + [c] == s.received + (s.queue.items + [c]);
    case Signal =>
    case TakeSignal =>
    case TryRead => ReadOne(s);
    case ReadFirst => ReadOne(s);
  }

  lemma ReadOne(s: State)
    requires Inv(s)
    ensures s.queue.items != [] ==> s.received + [s.queue.items[0]] + s.queue.items[1..] == s.sent
  {
    if s.queue.items != [] {
      assert s.queue.items == [s.queue.items[0]] + s.queue.items[1..];
    }
  }

  ghost predicate LegalRun(s: State, actions: seq<Action>)
    requires Inv(s)
    decreases |actions|
  {
    actions != [] ==> Enabled(s, actions[0]) && (StepKeeps(s, actions[0]); LegalRun(Step(s, actions[0]), actions[1..]))
  }

  ghost function Run(s: State, actions: seq<Action>): State
    requires Inv(s) && LegalRun(s, actions)
    decreases |actions|
  {
    if actions == [] then s else StepKeeps(s, actions[0]); Run(Step(s, actions[0]), actions[1..])
  }

  lemma StartHolds()
    ensures Inv(Start())
  {}

  lemma {:induction false} RunKeeps(s: State, actions: seq<Action>)
    requires Inv(s) && LegalRun(s, actions)
    ensures Inv(Run(s, actions))
    decreases |actions|
  {
    if actions == [] {
    } else {
      StepKeeps(s, actions[0]);
      RunKeeps(Step(s, actions[0]), actions[1..]);
    }
  }

  /** Every command is received once, in the order of writing, and a signal is never
      outstanding twice, whoever sends when. */
  lemma EveryRunDelivers(start: State, actions: seq<Action>)
    requires start == Start() && Inv(start) && LegalRun(start, actions)
    ensures var s := Run(start, actions);
            s.sent == s.received + s.queue.items && s.signals + s.owed <= 1
  {
    RunKeeps(start, actions);
  }

  /** Taking a signal always leads to a command. */
  lemma WokenFindsACommand(s: State)
    requires Inv(s) && s.mode.Woken?
    ensures Read(s.queue).1.Some? && Step(s, ReadFirst).received == s.received + [s.queue.items[0]]
  {}

  /** A passive receiver with commands waiting has a signal, or one is coming. */
  lemma NoWakeUpIsLost(s: State)
    requires Inv(s) && s.mode.Passive? && s.queue.items != []
    ensures s.signals + s.owed == 1
  {}

  /** What the receiver and the signalling senders do next; posting is up to the senders. */
  function NextAction(s: State): Action {
    match s.mode
    case Active => TryRead
    case Woken => ReadFirst
    case Passive => if s.signals > 0 then TakeSignal else Signal
  }

  ghost function Work(s: State): nat {
    3 * |s.queue.items| + (if s.mode.Passive? then 0 else if s.mode.Woken? then 0 else 1) + 3 * s.owed + 2 * s.signals
  }

  /** While commands are waiting there is a next step, and each one brings the end nearer. */
  lemma CommandsAreDrained(s: State)
    requires Inv(s) && s.queue.items != []
    ensures var a := NextAction(s);
            Enabled(s, a) && Work(Step(s, a)) < Work(s)
  {}

  /** The mailbox itself. */
  class Mailbox {
    const cpipe: L.YPipe<Command>
    var active: bool
    var signals: nat
    ghost var owed: nat
    ghost var woken: bool
    ghost var sent: seq<Command>
    ghost var received: seq<Command>

    ghost function View(): State
      requires cpipe.Valid()
      reads this, cpipe
    {
      State(cpipe.Abs(), if woken then Woken else if active then Active else Passive, signals, owed, sent, received)
    }

    ghost predicate Valid()
      reads this, cpipe
    {
      cpipe.Valid() && Inv(View()) && (woken ==> active)
    }

    constructor ()
      ensures Valid() && View() == Start() && fresh(cpipe)
    {
      cpipe := new L.YPipe();
      active, signals, owed, woken, sent, received := false, 0, 0, false, [], [];
      new;
      var x := cpipe.Read();
      assert x.None?;
    }

    /** The locked part of sending; tells whether the sender must signal. */
    method Post(c: Command) returns (mustSignal: bool)
      requires Valid()
      modifies this`owed, this`sent, cpipe
      ensures Valid() && View() == Step(old(View()), Action.Post(c))
      ensures mustSignal <==> owed > old(owed)
    {
      StepKeeps(View(), Action.Post(c));
      cpipe.Write(c, false);
      var ok := cpipe.Flush();
      sent := sent + [c];
      owed := if ok then owed else owed + 1;
      return !ok;
    }

    method SendSignal()
      requires Valid() && owed > 0
      modifies this`owed, this`signals
      ensures Valid() && View() == Step(old(View()), Signal)
    {
      StepKeeps(View(), Signal);
      signals := signals + 1;
      owed := owed - 1;
    }

    /** Without a command or a signal it gives up; a blocking receiver would go on waiting. */
    method Recv() returns (c: Option<Command>)
      requires Valid() && !woken
      modifies this, cpipe
      ensures Valid() && !woken && sent == old(sent) && owed == old(owed)
      ensures c.Some? ==> received == old(received) + [c.value]
      ensures c.None? ==> received == old(received) && !active && signals == 0
      ensures c.None? <==> old(cpipe.Abs().items) == [] || (!old(active) && old(signals) == 0)
    {
      if active {
        StepKeeps(View(), TryRead);
        c := cpipe.Read();
        if c.Some? {
          received := received + [c.value];
          return;
        }
        active := false;
      }
      if signals == 0 {
        return None;
      }
      StepKeeps(View(), TakeSignal);
      signals := signals - 1;
      active := true;
      woken := true;
      WokenFindsACommand(View());
      StepKeeps(View(), ReadFirst);
      c := cpipe.Read();
      assert c.Some?;
      woken := false;
      received := received + [c.value];
    }
  }
}
