/** How many termination commands and acknowledgements are sent in a whole run. */
module OwnershipCounts {
  import opened Basics
  import opened OwnedObject
  import opened OwnershipTree
  import opened OwnershipSafety

  /** The object whose handler a step runs, and what the handler does. */
  function Handler(t: Tree, a: Action): Option<(nat, Local)>
    requires Enabled(t, a)
  {
    match a
    case Terminate(o) =>
      if !t.objs[o].terminating && t.objs[o].owner.None? then Some((o, ProcessTerm(Start(t.objs[o])))) else None
    case TermChild(p, c) => Some((p, ProcessTermReq(Start(t.objs[p]), c)))
    case Event(o) => Some((o, ProcessEvent(Start(t.objs[o]))))
    case Deliver(o) => Some((o, ProcessCommand(Start(t.objs[o]), t.box[o][0])))
    case _ => None
  }

  /** The termination commands a step sends to an object. */
  function TermsTo(t: Tree, a: Action, c: nat): nat {
    if !Enabled(t, a) then 0 else
    match Handler(t, a)
    case None => 0
    case Some(h) => Bit(c in h.1.terms)
  }

  /** The acknowledgements an object sends in a step. */
  function AcksBy(t: Tree, a: Action, o: nat): nat {
    if !Enabled(t, a) then 0 else
    match Handler(t, a)
    case None => 0
    case Some(h) => Bit(h.0 == o && h.1.ack)
  }

  function TermsInRun(t: Tree, trace: seq<Action>, c: nat): nat {
    if trace == [] then 0 else
    var prefix := trace[..|trace| - 1];
    TermsInRun(t, prefix, c) + match Run(t, prefix) case Next(u) => TermsTo(u, trace[|trace| - 1], c) case Failed(_) => 0
  }

  function AcksInRun(t: Tree, trace: seq<Action>, o: nat): nat {
    if trace == [] then 0 else
    var prefix := trace[..|trace| - 1];
    AcksInRun(t, prefix, o) + match Run(t, prefix) case Next(u) => AcksBy(u, trace[|trace| - 1], o) case Failed(_) => 0
  }

  /** Was the object asked to terminate? */
  function Asked(t: Tree, c: nat): nat {
    if Present(t, c) then Count(t.box[c], Term) + Bit(t.objs[c].terminating) else 0
  }

  function Destroyed(t: Tree, o: nat): nat {
    if Present(t, o) then Bit(!t.objs[o].alive) else 0
  }

  lemma HandlerCounts(t: Tree, o: nat, popped: seq<Command>, rest: seq<Command>, events: nat, l: Local, c: nat)
    requires Inv(t) && Present(t, o) && t.objs[o].alive && t.box[o] == popped + rest && c != 0
    requires Effect(t.objs[o], popped, rest, events, l)
    ensures Commit(t, o, rest, l).Next?
    ensures Asked(Commit(t, o, rest, l).t, c) == Asked(t, c) + Bit(c in l.terms)
    ensures Destroyed(Commit(t, o, rest, l).t, c) == Destroyed(t, c) + Bit(o == c && l.ack)
  {
    CommitIsAfter(t, o, popped, rest, events, l);
    if c in l.terms {
      assert HoldsChildren(t.objs, t.objs[o], t.box[o], o);
      TermsAreChildren(t.objs, o, t.box[o], popped, rest, events, l, c);
    }
    if c == o {
      CountSplit(popped, rest, Term);
    } else if Present(t, c) {
      AddedCount(t.box[c], t.objs[o], l, c);
    }
  }

  /** A step asks an object to terminate when it sends it the command, and destroys an
      object when that sends its acknowledgement. */
  lemma StepCounts(t: Tree, a: Action, c: nat)
    requires Inv(t) && Enabled(t, a) && c != 0
    ensures Step(t, a).Next?
    ensures Asked(Step(t, a).t, c) == Asked(t, c) + TermsTo(t, a, c)
    ensures Destroyed(Step(t, a).t, c) == Destroyed(t, c) + AcksBy(t, a, c)
  {
    StepKeeps(t, a);
    match a
    case Deliver(o) => DeliverCounts(t, o, c);
    case Event(o) => EventCounts(t, o, c);
    case TermChild(p, d) => TermChildCounts(t, p, d, c);
    case Terminate(o) => TerminateCounts(t, o, c);
    case LaunchPlug(p) => LaunchCounts(t, p, c);
    case _ => QuietCounts(t, a, c);
  }

  lemma DeliverCounts(t: Tree, o: nat, c: nat)
    requires Inv(t) && Enabled(t, Deliver(o)) && c != 0 && Step(t, Deliver(o)).Next?
    ensures Asked(Step(t, Deliver(o)).t, c) == Asked(t, c) + TermsTo(t, Deliver(o), c)
    ensures Destroyed(Step(t, Deliver(o)).t, c) == Destroyed(t, c) + AcksBy(t, Deliver(o), c)
  {
    ReceiverIsAlive(t, o);
    DeliverEffect(t, o);
    var m, rest := t.box[o][0], t.box[o][1..];
    var l := ProcessCommand(Start(t.objs[o]), m);
    assert t.box[o] == [m] + rest;
    HandlerCounts(t, o, [m], rest, 0, l, c);
    DeliverShape(t, o, c, l);
  }

  lemma DeliverShape(t: Tree, o: nat, c: nat, l: Local)
    requires Enabled(t, Deliver(o)) && t.objs[o].alive && l == ProcessCommand(Start(t.objs[o]), t.box[o][0])
    ensures Step(t, Deliver(o)) == Commit(t, o, t.box[o][1..], l)
    ensures TermsTo(t, Deliver(o), c) == Bit(c in l.terms) && AcksBy(t, Deliver(o), c) == Bit(o == c && l.ack)
  {
  }

  lemma LaunchCounts(t: Tree, p: nat, c: nat)
    requires Inv(t) && Enabled(t, LaunchPlug(p)) && Step(t, LaunchPlug(p)).Next?
    ensures Asked(Step(t, LaunchPlug(p)).t, c) == Asked(t, c) && Destroyed(Step(t, LaunchPlug(p)).t, c) == Destroyed(t, c)
  {
    CountOne(Plug, Term);
  }

  lemma EventCounts(t: Tree, o: nat, c: nat)
    requires Inv(t) && Enabled(t, Event(o)) && c != 0 && Step(t, Event(o)).Next?
    ensures Asked(Step(t, Event(o)).t, c) == Asked(t, c) + TermsTo(t, Event(o), c)
    ensures Destroyed(Step(t, Event(o)).t, c) == Destroyed(t, c) + AcksBy(t, Event(o), c)
  {
    ReceiverIsAlive(t, o);
    assert ObjectOk(t, o);
    assert LocalOk(t.objs[o], t.box[o]) && AcksOk(t, o);
    EventEffect(t.objs[o], t.box[o]);
    assert t.box[o] == [] + t.box[o];
    HandlerCounts(t, o, [], t.box[o], 1, ProcessEvent(Start(t.objs[o])), c);
  }

  lemma TermChildCounts(t: Tree, p: nat, d: nat, c: nat)
    requires Inv(t) && Enabled(t, TermChild(p, d)) && c != 0 && Step(t, TermChild(p, d)).Next?
    ensures Asked(Step(t, TermChild(p, d)).t, c) == Asked(t, c) + TermsTo(t, TermChild(p, d), c)
    ensures Destroyed(Step(t, TermChild(p, d)).t, c) == Destroyed(t, c) + AcksBy(t, TermChild(p, d), c)
  {
    assert ObjectOk(t, p);
    assert LocalOk(t.objs[p], t.box[p]);
    assert t.box[p] == [] + t.box[p];
    RequestEffect(t.objs[p], [], d, t.box[p]);
    HandlerCounts(t, p, [], t.box[p], 0, ProcessTermReq(Start(t.objs[p]), d), c);
  }

  lemma TerminateCounts(t: Tree, o: nat, c: nat)
    requires Inv(t) && Enabled(t, Terminate(o)) && c != 0 && Step(t, Terminate(o)).Next?
    ensures Asked(Step(t, Terminate(o)).t, c) == Asked(t, c) + TermsTo(t, Terminate(o), c)
    ensures Destroyed(Step(t, Terminate(o)).t, c) == Destroyed(t, c) + AcksBy(t, Terminate(o), c)
  {
    var x := t.objs[o];
    if !x.terminating && x.owner.None? {
      assert ObjectOk(t, o);
      assert LocalOk(x, t.box[o]);
      assert t.box[o] == [] + t.box[o];
      TermEffect(x, [], t.box[o]);
      HandlerCounts(t, o, [], t.box[o], 0, ProcessTerm(Start(x)), c);
    } else if !x.terminating {
      RequestCounts(t, o, c);
    }
  }

  lemma RequestCounts(t: Tree, o: nat, c: nat)
    requires Enabled(t, Terminate(o)) && !t.objs[o].terminating && t.objs[o].owner.Some? && Step(t, Terminate(o)).Next?
    ensures Asked(Step(t, Terminate(o)).t, c) == Asked(t, c) && Destroyed(Step(t, Terminate(o)).t, c) == Destroyed(t, c)
  {
    var p := t.objs[o].owner.value;
    CountOne(TermReq(o), Term);
    CountSplit(t.box[p], [TermReq(o)], Term);
  }

  lemma QuietCounts(t: Tree, a: Action, c: nat)
    requires Enabled(t, a) && Step(t, a).Next? && (a.LaunchOwn? || a.Reserve? || a.Enqueue? || a.Register?)
    ensures Asked(Step(t, a).t, c) == Asked(t, c) && Destroyed(Step(t, a).t, c) == Destroyed(t, c)
  {
    match a
    case LaunchOwn(p) =>
      CountOne(Own(t.objs[p].launching.value), Term);
      CountSplit(t.box[p], [Own(t.objs[p].launching.value)], Term);
    case Enqueue(o) =>
      CountOne(Other, Term);
      CountSplit(t.box[o], [Other], Term);
    case _ =>
  }

  /** In every run an object with an owner is sent a termination command at most once, exactly if it was asked
      to terminate, and sends an acknowledgement at most once, exactly if it was destroyed. */
  lemma {:induction false} AtMostOneTermAndOneAck(t: Tree, trace: seq<Action>, c: nat)
    requires t == Init() && c != 0
    ensures Run(t, trace).Next?
    ensures TermsInRun(t, trace, c) == Asked(Run(t, trace).t, c) <= 1
    ensures AcksInRun(t, trace, c) == Destroyed(Run(t, trace).t, c) <= 1
    decreases |trace|
  {
    EveryRunIsSafe(trace);
    if trace == [] {
    } else {
      var prefix, a := trace[..|trace| - 1], trace[|trace| - 1];
      EveryRunIsSafe(prefix);
      AtMostOneTermAndOneAck(t, prefix, c);
      if Enabled(Run(t, prefix).t, a) {
        StepCounts(Run(t, prefix).t, a, c);
      }
    }
    AskedOnce(Run(t, trace).t, c);
  }

  lemma AskedOnce(t: Tree, c: nat)
    requires Inv(t) && c != 0
    ensures Asked(t, c) <= 1
  {
    if Present(t, c) {
      assert ObjectOk(t, c);
      assert PlaceOk(t, c);
    }
  }
  // ------------------------------------------------------------- early requests

  /** A request for a child asks it to terminate, or finds it asked already, exactly if the child has
      been reported to its owner.  Otherwise it is ignored and leaves no trace. */
  lemma RequestTakesEffect(t: Tree, p: nat, c: nat)
    requires Inv(t) && Enabled(t, Deliver(p)) && t.box[p][0] == TermReq(c)
    ensures Step(t, Deliver(p)).Next?
    ensures Asked(Step(t, Deliver(p)).t, c) > 0 || Destroyed(Step(t, Deliver(p)).t, c) > 0 <==> Own(c) !in t.box[p]
    ensures Own(c) in t.box[p] ==> Step(t, Deliver(p)).t == t.(box := t.box[p := t.box[p][1..]])
  {
    StepKeeps(t, Deliver(p));
    assert t.box[p][0] in t.box[p];
    assert RefsOk(t) && ObjectOk(t, p);
    assert IsChild(t.objs, p, c) && ObjectOk(t, c);
    RequestDelivered(t, p, c);
  }

  lemma RequestDelivered(t: Tree, p: nat, c: nat)
    requires RefsOk(t) && Enabled(t, Deliver(p)) && t.box[p][0] == TermReq(c) && c < |t.objs| && c != p
    requires t.objs[c].owner == Some(p) && PlaceOk(t, c) && LocalOk(t.objs[p], t.box[p]) && LocalOk(t.objs[c], t.box[c])
    requires Step(t, Deliver(p)).Next?
    ensures Asked(Step(t, Deliver(p)).t, c) > 0 || Destroyed(Step(t, Deliver(p)).t, c) > 0 <==> Own(c) !in t.box[p]
    ensures Own(c) in t.box[p] ==> Step(t, Deliver(p)).t == t.(box := t.box[p := t.box[p][1..]])
  {
    var x := t.objs[p];
    var l := ProcessCommand(Start(x), TermReq(c));
    assert Own(c) in t.box[p] <==> Own(c) in multiset(t.box[p]);
    assert Term in t.box[c] + [Term];
    var u := Step(t, Deliver(p)).t;
    if c in x.owned {
      assert u.box[c] == t.box[c] + [Term];
    } else {
      assert forall xs: seq<Command> {:trigger xs + []} :: xs + [] == xs;
      assert u.box == t.box[p := t.box[p][1..]];
      assert u.objs == t.objs;
    }
  }

  /** An object as it was created by this owner, with some of its fields. */
  function Young(owner: Option<nat>, sent: nat, processed: nat, launching: Option<nat>, owned: set<nat>): Object {
    Object(owner, false, sent, processed, 0, launching, owned, 0, 0, true)
  }

  lemma RunStep(t: Tree, trace: seq<Action>, u: Tree, a: Action)
    requires Run(t, trace) == Next(u) && Enabled(u, a)
    ensures Run(t, trace + [a]) == Step(u, a)
  {
    assert (trace + [a])[..|trace|] == trace;
  }

  lemma ToLaunched(t: Tree)
    requires t == Init()
    ensures Run(t, [LaunchPlug(0), Terminate(1)])
            == Next(Tree([Young(None, 0, 0, Some(1), {}), Young(Some(0), 1, 0, None, {})], [[TermReq(1)], [Plug]]))
  {
    var u := Tree([Young(None, 0, 0, Some(1), {}), Young(Some(0), 1, 0, None, {})], [[], [Plug]]);
    assert Run(t, []) == Next(t) && [] + [LaunchPlug(0)] == [LaunchPlug(0)];
    RunStep(t, [], t, LaunchPlug(0));
    assert Step(t, LaunchPlug(0)) == Next(u);
    RunStep(t, [LaunchPlug(0)], u, Terminate(1));
    assert [LaunchPlug(0)] + [Terminate(1)] == [LaunchPlug(0), Terminate(1)];
    assert [] + [TermReq(1)] == [TermReq(1)];
    assert u.box[0 := [TermReq(1)]] == [[TermReq(1)], [Plug]];
  }

  /** The child asks to be terminated before its owner knows of it, and the request is ignored. */
  lemma EarlyRequestIsLost(t: Tree)
    requires t == Init()
    ensures Run(t, [LaunchPlug(0), Terminate(1), LaunchOwn(0), Deliver(0)])
            == Next(Tree([Young(None, 1, 0, None, {}), Young(Some(0), 1, 0, None, {})], [[Own(1)], [Plug]]))
  {
    var u := Tree([Young(None, 0, 0, Some(1), {}), Young(Some(0), 1, 0, None, {})], [[TermReq(1)], [Plug]]);
    var v := Tree([Young(None, 1, 0, None, {}), Young(Some(0), 1, 0, None, {})], [[TermReq(1), Own(1)], [Plug]]);
    ToLaunched(t);
    var run := [LaunchPlug(0), Terminate(1)];
    RunStep(t, run, u, LaunchOwn(0));
    assert [TermReq(1)] + [Own(1)] == [TermReq(1), Own(1)];
    assert u.box[0 := [TermReq(1), Own(1)]] == v.box && u.objs[0 := v.objs[0]] == v.objs;
    RunStep(t, run + [LaunchOwn(0)], v, Deliver(0));
    assert run + [LaunchOwn(0)] + [Deliver(0)] == [LaunchPlug(0), Terminate(1), LaunchOwn(0), Deliver(0)];
    IgnoredRequest(v);
  }

  lemma IgnoredRequest(v: Tree)
    requires v == Tree([Young(None, 1, 0, None, {}), Young(Some(0), 1, 0, None, {})], [[TermReq(1), Own(1)], [Plug]])
    ensures Step(v, Deliver(0)) == Next(v.(box := [[Own(1)], [Plug]]))
  {
    assert v.box[0][1..] == [Own(1)];
    assert [Own(1)] + [] == [Own(1)] && [Plug] + [] == [Plug];
    assert Boxes(v.box, 0, [Own(1)], {}, None) == [[Own(1)], [Plug]];
    assert v.objs[0 := v.objs[0]] == v.objs;
  }
}
