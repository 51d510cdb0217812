/** The handlers of one object of the ownership tree: its fields, and each handler
    as a function of the object that also says what it sends. */
module OwnedObject {
  import opened Basics

  datatype Command =
    | Plug
    | Own(child: nat)
    | Other                  // any further command announced by a sequence number
    | TermReq(child: nat)
    | Term
    | TermAck
  {
    /** Is the command announced to its receiver before it is sent? */
    predicate Announced() {
      Plug? || Own? || Other?
    }
  }

  /** `sent` and `processed` are the sequence numbers, `reserved` the numbers handed
      out for commands that are not enqueued yet, `launching` a child that has been
      plugged but not yet reported, and `events` the termination events registered
      by the object itself. */
  datatype Object = Object(
    owner: Option<nat>,
    terminating: bool,
    sent: nat,
    processed: nat,
    reserved: nat,
    launching: Option<nat>,
    owned: set<nat>,
    termAcks: int,
    events: nat,
    alive: bool)

  /** What a handler sees and does: `terms` are the objects it sends a termination
      command, `ack` says that it confirms to the owner, and `ok` turns false when
      an assertion fails. */
  datatype Local = Local(o: Object, terms: set<nat>, ack: bool, ok: bool)

  function Start(o: Object): Local {
    Local(o, {}, false, true)
  }

  predicate Finished(o: Object) {
    o.terminating && o.processed == o.sent && o.termAcks == 0
  }

  function CheckTermAcks(l: Local): Local {
    if Finished(l.o)
    then l.(ok := l.ok && l.o.owned == {}, ack := l.o.owner.Some?, o := l.o.(alive := false))
    else l
  }

  function ProcessSeqnum(l: Local): Local {
    CheckTermAcks(l.(o := l.o.(processed := l.o.processed + 1)))
  }

  function ProcessOwn(l: Local, c: nat): Local {
    if l.o.terminating then l.(o := l.o.(termAcks := l.o.termAcks + 1), terms := l.terms + {c})
    else l.(o := l.o.(owned := l.o.owned + {c}))
  }

  function ProcessTermReq(l: Local, c: nat): Local {
    if l.o.terminating || c !in l.o.owned then l
    else l.(o := l.o.(owned := l.o.owned - {c}, termAcks := l.o.termAcks + 1), terms := l.terms + {c})
  }

  function ProcessTerm(l: Local): Local {
    if l.o.terminating then l.(ok := false) else
    CheckTermAcks(l.(terms := l.terms + l.o.owned,
                     o := l.o.(owned := {}, termAcks := l.o.termAcks + |l.o.owned|, terminating := true)))
  }

  function UnregisterTermAck(l: Local): Local {
    if l.o.termAcks <= 0 then l.(ok := false)
    else CheckTermAcks(l.(o := l.o.(termAcks := l.o.termAcks - 1)))
  }

  /** The handler first, and then the sequence number. */
  function ProcessCommand(l: Local, c: Command): Local {
    match c
    case Plug => ProcessSeqnum(l)
    case Other => ProcessSeqnum(l)
    case Own(child) => ProcessSeqnum(ProcessOwn(l, child))
    case TermReq(child) => ProcessTermReq(l, child)
    case Term => ProcessTerm(l)
    case TermAck => UnregisterTermAck(l)
  }

  /** One of the events the object had registered has happened. */
  function ProcessEvent(l: Local): Local
    requires l.o.events > 0
  {
    UnregisterTermAck(l.(o := l.o.(events := l.o.events - 1)))
  }
}

/** A whole ownership tree, one queue of commands in front of each object, and
    every interleaving of their handlers. */
module OwnershipTree {
  import opened Basics
  import opened OwnedObject

  /** Objects are numbered in the order of their creation; number 0 is the root. */
  datatype Tree = Tree(objs: seq<Object>, box: seq<seq<Command>>)

  datatype Action =
    | LaunchPlug(p: nat)                // first half of launch_child: plug the new object
    | LaunchOwn(p: nat)                 // second half: report it to its owner
    | Terminate(o: nat)
    | TermChild(p: nat, c: nat)
    | Reserve(o: nat)                   // another thread announces a command
    | Enqueue(o: nat)                   // and enqueues it
    | Register(o: nat, n: nat)
    | Event(o: nat)
    | Deliver(o: nat)

  datatype Fault = AssertionFailed | SentToDestroyed | ReceiverDestroyed

  datatype Outcome = Next(t: Tree) | Failed(fault: Fault)

  function Init(): Tree {
    Tree([Object(None, false, 0, 0, 0, None, {}, 0, 0, true)], [[]])
  }

  predicate Present(t: Tree, o: nat) {
    o < |t.objs| && o < |t.box|
  }

  /** When the object's own thread is in the middle of a launch it does nothing else. */
  predicate Idle(t: Tree, o: nat) {
    Present(t, o) && t.objs[o].launching.None?
  }

  predicate Enabled(t: Tree, a: Action) {
    match a
    case LaunchPlug(p) => Idle(t, p) && t.objs[p].alive
    case LaunchOwn(p) => Present(t, p) && t.objs[p].launching.Some?
    case Terminate(o) => Idle(t, o) && t.objs[o].alive
    case TermChild(p, c) => Idle(t, p) && t.objs[p].alive
    case Reserve(o) => Present(t, o) && t.objs[o].alive
    case Enqueue(o) => Present(t, o) && t.objs[o].reserved > 0
    case Register(o, n) => Idle(t, o) && t.objs[o].alive
    case Event(o) => Idle(t, o) && t.objs[o].events > 0
    case Deliver(o) => Idle(t, o) && t.box[o] != []
  }

  predicate AliveAt(t: Tree, o: nat) {
    Present(t, o) && t.objs[o].alive
  }

  /** Stores the result of a handler of `o` and enqueues what it sent, when `rest` is
      what is left in front of `o`. */
  function Boxes(box: seq<seq<Command>>, o: nat, rest: seq<Command>, terms: set<nat>, ackTo: Option<nat>): seq<seq<Command>>
  {
    seq(|box|, i requires 0 <= i < |box| =>
      (if i == o then rest else box[i])
      + (if i in terms then [Term] else [])
      + (if ackTo == Some(i) then [TermAck] else []))
  }

  function Commit(t: Tree, o: nat, rest: seq<Command>, l: Local): Outcome
    requires Present(t, o)
  {
    if !l.ok then Failed(AssertionFailed)
    else if exists c <- l.terms :: !AliveAt(t, c) then Failed(SentToDestroyed)
    else if l.ack && (l.o.owner.None? || !AliveAt(t, l.o.owner.value)) then Failed(SentToDestroyed)
    else Next(Tree(t.objs[o := l.o], Boxes(t.box, o, rest, l.terms, if l.ack then l.o.owner else None)))
  }

  function Send(t: Tree, o: nat, c: Command): Outcome {
    if !AliveAt(t, o) then Failed(SentToDestroyed)
    else Next(t.(box := t.box[o := t.box[o] + [c]]))
  }

  function SetObject(t: Tree, o: nat, x: Object): Tree
    requires Present(t, o)
  {
    t.(objs := t.objs[o := x])
  }

  function Step(t: Tree, a: Action): Outcome
    requires Enabled(t, a)
  {
    match a
    case LaunchPlug(p) =>
      Next(Tree(t.objs[p := t.objs[p].(launching := Some(|t.objs|))]
                + [Object(Some(p), false, 1, 0, 0, None, {}, 0, 0, true)],
                t.box + [[Plug]]))
    case LaunchOwn(p) =>
      var x := t.objs[p];
      Send(SetObject(t, p, x.(launching := None, sent := x.sent + 1)), p, Own(x.launching.value))
    case Terminate(o) =>
      var x := t.objs[o];
      if x.terminating then Next(t)
      else if x.owner.None? then Commit(t, o, t.box[o], ProcessTerm(Start(x)))
      else Send(t, x.owner.value, TermReq(o))
    case TermChild(p, c) => Commit(t, p, t.box[p], ProcessTermReq(Start(t.objs[p]), c))
    case Reserve(o) =>
      var x := t.objs[o];
      Next(SetObject(t, o, x.(sent := x.sent + 1, reserved := x.reserved + 1)))
    case Enqueue(o) =>
      var x := t.objs[o];
      Send(SetObject(t, o, x.(reserved := x.reserved - 1)), o, Other)
    case Register(o, n) =>
      var x := t.objs[o];
      Next(SetObject(t, o, x.(events := x.events + n, termAcks := x.termAcks + n)))
    case Event(o) =>
      if !t.objs[o].alive then Failed(ReceiverDestroyed)
      else Commit(t, o, t.box[o], ProcessEvent(Start(t.objs[o])))
    case Deliver(o) =>
      if !t.objs[o].alive then Failed(ReceiverDestroyed)
      else Commit(t, o, t.box[o][1..], ProcessCommand(Start(t.objs[o]), t.box[o][0]))
  }

  function Run(t: Tree, trace: seq<Action>): Outcome {
    if trace == [] then Next(t) else
    match Run(t, trace[..|trace| - 1])
    case Failed(f) => Failed(f)
    case Next(u) =>
      var a := trace[|trace| - 1];
      if Enabled(u, a) then Step(u, a) else Next(u)
  }
}
