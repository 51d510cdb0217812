/** A request to terminate leads to the end of the object, once its owner has been told of it. */
module OwnershipRequests {
  import opened Basics
  import opened OwnedObject
  import opened OwnershipTree
  import opened OwnershipSafety
  import opened OwnershipProgress
  import opened OwnershipCounts

  /** The request is at place `i` of the commands in front of the owner, which is told of the object
      before it comes to the request. */
  predicate RequestAt(p: Object, b: seq<Command>, o: nat, i: nat) {
    && i < |b| && b[i] == TermReq(o) && p.launching != Some(o)
    && forall j :: i < j < |b| ==> b[j] != Own(o)
  }

  ghost predicate Requested(p: Object, b: seq<Command>, o: nat) {
    exists i: nat :: RequestAt(p, b, o, i)
  }

  /** The object has been asked, or its owner is going to ask it. */
  ghost predicate Heard(t: Tree, o: nat) {
    && Present(t, o)
    && (Asked(t, o) > 0
        || (t.objs[o].owner.Some? && Present(t, t.objs[o].owner.value)
            && Requested(t.objs[t.objs[o].owner.value], t.box[t.objs[o].owner.value], o)))
  }

  lemma DestroyedWasAsked(t: Tree, o: nat)
    requires Inv(t) && Destroyed(t, o) > 0
    ensures Asked(t, o) > 0
  {
    assert ObjectOk(t, o);
  }

  /** Terminating the root starts at once; any other object asks its owner. */
  lemma TerminateIsHeard(t: Tree, o: nat)
    requires Inv(t) && Enabled(t, Terminate(o))
    requires t.objs[o].owner.Some? ==> t.objs[t.objs[o].owner.value].launching != Some(o)
    ensures Step(t, Terminate(o)).Next? && Inv(Step(t, Terminate(o)).t) && Heard(Step(t, Terminate(o)).t, o)
    ensures |Step(t, Terminate(o)).t.objs| == |t.objs|
  {
    StepKeeps(t, Terminate(o));
    assert RefsOk(t);
    var x := t.objs[o];
    if !x.terminating && x.owner.Some? {
      var p := x.owner.value;
      assert RequestAt(t.objs[p], t.box[p] + [TermReq(o)], o, |t.box[p]|);
    }
  }

  // ------------------------------------------------- due steps do not lose a request

  lemma RequestGrows(x: Object, x': Object, b: seq<Command>, added: seq<Command>, o: nat)
    requires Requested(x, b, o) && x'.launching != Some(o) && Own(o) !in added
    ensures Requested(x', b + added, o)
  {
    var i: nat :| RequestAt(x, b, o, i);
    assert RequestAt(x', b + added, o, i);
  }

  lemma RequestMovesUp(x: Object, x': Object, b: seq<Command>, o: nat)
    requires Requested(x, b, o) && x'.launching == x.launching && b[0] != TermReq(o)
    ensures Requested(x', b[1..], o)
  {
    var i: nat :| RequestAt(x, b, o, i);
    assert RequestAt(x', b[1..], o, i - 1);
  }

  lemma HandlerElsewhere(t: Tree, q: nat, rest: seq<Command>, l: Local, t': Tree, p: nat, o: nat)
    requires After(t, q, rest, l, t') && p < |t.objs| && p != q && Requested(t.objs[p], t.box[p], o)
    ensures Requested(t'.objs[p], t'.box[p], o)
  {
    var i: nat :| RequestAt(t.objs[p], t.box[p], o, i);
    RequestGrows(t.objs[p], t'.objs[p], t.box[p], Added(t.objs[q], l, p), o);
  }

  lemma DeliveryKeepsRequest(t: Tree, q: nat, p: nat, o: nat)
    requires Inv(t) && Enabled(t, Deliver(q)) && Present(t, p) && Requested(t.objs[p], t.box[p], o)
    requires q == p ==> t.box[p][0] != TermReq(o)
    ensures Step(t, Deliver(q)).Next? && Present(Step(t, Deliver(q)).t, p)
    ensures var u := Step(t, Deliver(q)).t; Requested(u.objs[p], u.box[p], o)
  {
    ReceiverIsAlive(t, q);
    DeliverEffect(t, q);
    var m, rest := t.box[q][0], t.box[q][1..];
    var l := ProcessCommand(Start(t.objs[q]), m);
    assert t.box[q] == [m] + rest;
    CommitIsAfter(t, q, [m], rest, 0, l);
    assert Step(t, Deliver(q)) == Commit(t, q, rest, l);
    if q == p {
      RequestMovesUp(t.objs[p], l.o, t.box[p], o);
    } else {
      HandlerElsewhere(t, q, rest, l, Step(t, Deliver(q)).t, p, o);
    }
  }

  lemma EventIsAfter(t: Tree, q: nat)
    requires Inv(t) && Enabled(t, Event(q))
    ensures Step(t, Event(q)).Next? && Present(Step(t, Event(q)).t, q)
    ensures var l := ProcessEvent(Start(t.objs[q]));
      After(t, q, t.box[q], l, Step(t, Event(q)).t) && l.o.launching == t.objs[q].launching
  {
    ReceiverIsAlive(t, q);
    assert ObjectOk(t, q);
    EventEffect(t.objs[q], t.box[q]);
    var l := ProcessEvent(Start(t.objs[q]));
    assert t.box[q] == [] + t.box[q];
    CommitIsAfter(t, q, [], t.box[q], 1, l);
  }

  lemma EventKeepsRequest(t: Tree, q: nat, p: nat, o: nat)
    requires Inv(t) && Enabled(t, Event(q)) && Present(t, p) && Requested(t.objs[p], t.box[p], o)
    ensures Step(t, Event(q)).Next? && Present(Step(t, Event(q)).t, p)
    ensures var u := Step(t, Event(q)).t; Requested(u.objs[p], u.box[p], o)
  {
    EventIsAfter(t, q);
    var l, u := ProcessEvent(Start(t.objs[q])), Step(t, Event(q)).t;
    if q == p {
      var i: nat :| RequestAt(t.objs[p], t.box[p], o, i);
      assert RequestAt(u.objs[p], u.box[p], o, i);
    } else {
      HandlerElsewhere(t, q, t.box[q], l, u, p, o);
    }
  }

  lemma SecondHalfKeepsRequest(t: Tree, a: Action, p: nat, o: nat)
    requires (a.Enqueue? || a.LaunchOwn?) && Enabled(t, a) && Step(t, a).Next?
    requires Present(t, p) && Requested(t.objs[p], t.box[p], o)
    ensures Present(Step(t, a).t, p)
    ensures var u := Step(t, a).t; Requested(u.objs[p], u.box[p], o)
  {
    var i: nat :| RequestAt(t.objs[p], t.box[p], o, i);
    var u := Step(t, a).t;
    match a
    case Enqueue(q) => if q == p { RequestGrows(t.objs[p], u.objs[p], t.box[p], [Other], o); }
    case LaunchOwn(q) => if q == p { RequestGrows(t.objs[p], u.objs[p], t.box[p], [Own(t.objs[p].launching.value)], o); }
  }

  /** Delivering the request asks the object: its owner knows of it by then. */
  lemma RequestIsHeard(t: Tree, p: nat, o: nat)
    requires Inv(t) && Enabled(t, Deliver(p)) && Requested(t.objs[p], t.box[p], o) && t.box[p][0] == TermReq(o)
    requires Present(t, o) && Own(o) !in t.box[p]
    ensures Step(t, Deliver(p)).Next? && Asked(Step(t, Deliver(p)).t, o) > 0
  {
    StepKeeps(t, Deliver(p));
    RequestTakesEffect(t, p, o);
    if Destroyed(Step(t, Deliver(p)).t, o) > 0 {
      DestroyedWasAsked(Step(t, Deliver(p)).t, o);
    }
  }

  lemma AskedStays(t: Tree, a: Action, o: nat)
    requires Inv(t) && Due(t, a) && Asked(t, o) > 0
    ensures Step(t, a).Next? && Asked(Step(t, a).t, o) > 0
  {
    StepKeeps(t, a);
    if o == 0 {
      assert ObjectOk(t, 0) && RefsOk(t);
      DueKeepsTerminating(t, a, 0);
      assert PlaceOk(t, 0);
      assert Count(t.box[0], Term) == 0;
    } else {
      StepCounts(t, a, o);
    }
  }

  lemma DueKeepsHeard(t: Tree, a: Action, o: nat)
    requires Inv(t) && Due(t, a) && Heard(t, o)
    ensures Step(t, a).Next? && Inv(Step(t, a).t) && Heard(Step(t, a).t, o)
  {
    StepKeeps(t, a);
    DueKeepsTerminating(t, a, o);
    if Asked(t, o) > 0 {
      AskedStays(t, a, o);
    } else {
      var p := t.objs[o].owner.value;
      match a
      case Deliver(q) =>
        if q == p && t.box[p][0] == TermReq(o) {
          FirstRequestIsHeard(t, p, o);
        } else {
          DeliveryKeepsRequest(t, q, p, o);
        }
      case Event(q) => EventKeepsRequest(t, q, p, o);
      case _ => SecondHalfKeepsRequest(t, a, p, o);
    }
  }

  /** If the object has been reported only after this request, a later request is still waiting. */
  lemma FirstRequestIsHeard(t: Tree, p: nat, o: nat)
    requires Inv(t) && Enabled(t, Deliver(p)) && Present(t, o) && t.objs[o].owner == Some(p)
    requires Requested(t.objs[p], t.box[p], o) && t.box[p][0] == TermReq(o)
    ensures Step(t, Deliver(p)).Next?
    ensures var u := Step(t, Deliver(p)).t;
      Asked(u, o) > 0 || (Present(u, p) && Requested(u.objs[p], u.box[p], o))
  {
    if Own(o) !in t.box[p] {
      RequestIsHeard(t, p, o);
    } else {
      StepKeeps(t, Deliver(p));
      RequestTakesEffect(t, p, o);
      var i: nat :| RequestAt(t.objs[p], t.box[p], o, i);
      assert i > 0;
      assert RequestAt(t.objs[p], t.box[p][1..], o, i - 1);
    }
  }

  lemma HeardIsDestroyed(t: Tree, o: nat)
    requires Inv(t) && Quiet(t) && Heard(t, o)
    ensures !t.objs[o].alive
  {
    QuietObject(t, o);
    if t.objs[o].owner.Some? && Present(t, t.objs[o].owner.value) {
      QuietObject(t, t.objs[o].owner.value);
    }
    assert t.objs[o].terminating;
    assert Under(t.objs, o, o);
    QuietMeansDestroyed(t, o);
  }

  lemma {:induction false} DrainingKeepsHeard(t: Tree, trace: seq<Action>, o: nat)
    requires Inv(t) && Drains(t, trace) && Heard(t, o)
    ensures Inv(Drained(t, trace)) && Heard(Drained(t, trace), o)
    decreases |trace|
  {
    if trace == [] {
    } else {
      DueKeepsHeard(t, trace[0], o);
      DrainingKeepsHeard(Step(t, trace[0]).t, trace[1..], o);
    }
  }

  /** An object that is told to terminate is destroyed, with all that it owns, once nothing is left to do:
      the root at any time, and any other object from the moment it has been reported to its owner. */
  lemma TerminateCompletes(t: Tree, o: nat, trace: seq<Action>, c: nat)
    requires Inv(t) && Enabled(t, Terminate(o))
    requires t.objs[o].owner.Some? ==> t.objs[o].owner.value < |t.objs| && t.objs[t.objs[o].owner.value].launching != Some(o)
    requires Step(t, Terminate(o)).Next? && Drains(Step(t, Terminate(o)).t, trace)
    ensures var u := Drained(Step(t, Terminate(o)).t, trace);
      Quiet(u) ==> o < |u.objs| && !u.objs[o].alive && (Under(u.objs, o, c) ==> !u.objs[c].alive)
  {
    TerminateIsHeard(t, o);
    DrainingKeepsHeard(Step(t, Terminate(o)).t, trace, o);
    var u := Drained(Step(t, Terminate(o)).t, trace);
    if Quiet(u) {
      HeardIsDestroyed(u, o);
      assert ObjectOk(u, o);
      if Under(u.objs, o, c) {
        TerminatedIsDestroyed(u, o, c);
      }
    }
  }
}
