/** Once an object terminates, the whole tree below it is destroyed, and nothing else. */
module OwnershipProgress {
  import opened Basics
  import opened OwnedObject
  import opened OwnershipTree
  import opened OwnershipSafety

  /** The steps that termination waits for: deliveries, registered events, and the
      second halves of operations already begun. */
  predicate Due(t: Tree, a: Action) {
    (a.Deliver? || a.Event? || a.Enqueue? || a.LaunchOwn?) && Enabled(t, a)
  }

  ghost predicate Quiet(t: Tree) {
    forall a :: !Due(t, a)
  }

  // --------------------------------------------------- nothing due, nothing left

  lemma QuietObject(t: Tree, o: nat)
    requires Inv(t) && Quiet(t) && Present(t, o)
    ensures t.box[o] == [] && t.objs[o].events == 0 && t.objs[o].reserved == 0 && t.objs[o].launching.None?
  {
    assert !Due(t, LaunchOwn(o)) && !Due(t, Enqueue(o)) && !Due(t, Event(o)) && !Due(t, Deliver(o));
  }

  /** The object is the other one, or is owned by it through any number of owners. */
  predicate Under(objs: seq<Object>, r: nat, o: nat)
    decreases o
  {
    o < |objs| && (o == r || (objs[o].owner.Some? && objs[o].owner.value < o && Under(objs, r, objs[o].owner.value)))
  }

  lemma {:induction false} AllUnderRoot(t: Tree, o: nat)
    requires Inv(t) && o < |t.objs|
    ensures Under(t.objs, 0, o)
    decreases o
  {
    assert RefsOk(t);
    if o == 0 {
    } else {
      AllUnderRoot(t, t.objs[o].owner.value);
    }
  }

  /** The request has reached every object below that is still there. */
  lemma {:induction false} LiveMeansTerminating(t: Tree, r: nat, o: nat)
    requires Inv(t) && Quiet(t) && Under(t.objs, r, o) && r < |t.objs| && t.objs[r].terminating && t.objs[o].alive
    ensures t.objs[o].terminating
    decreases o
  {
    if o == r {
    } else {
      assert ObjectOk(t, o) && RefsOk(t);
      var p := t.objs[o].owner.value;
      LiveMeansTerminating(t, r, p);
      assert ObjectOk(t, p);
      QuietObject(t, o);
      QuietObject(t, p);
    }
  }

  /** An object that waits has a child that waits. */
  lemma LiveMeansLiveChild(t: Tree, r: nat, o: nat) returns (c: nat)
    requires Inv(t) && Quiet(t) && Under(t.objs, r, o) && r < |t.objs| && t.objs[r].terminating && t.objs[o].alive
    ensures o < c < |t.objs| && t.objs[c].alive && Under(t.objs, r, c)
  {
    LiveMeansTerminating(t, r, o);
    assert ObjectOk(t, o) && RefsOk(t);
    QuietObject(t, o);
    assert |PendingOf(t, o)| > 0;
    c :| c in PendingOf(t, o);
  }

  lemma {:induction false} TerminatedIsDestroyed(t: Tree, r: nat, o: nat)
    requires Inv(t) && Quiet(t) && Under(t.objs, r, o) && r < |t.objs| && t.objs[r].terminating
    ensures !t.objs[o].alive
    decreases |t.objs| - o
  {
    if !t.objs[o].alive {
    } else {
      var c := LiveMeansLiveChild(t, r, o);
      TerminatedIsDestroyed(t, r, c);
    }
  }

  /** When nothing is due, exactly the objects below a terminating one have been destroyed. */
  lemma QuietMeansDestroyed(t: Tree, o: nat)
    requires Inv(t) && Quiet(t) && o < |t.objs|
    ensures !t.objs[o].alive <==> exists r: nat :: r < |t.objs| && t.objs[r].terminating && Under(t.objs, r, o)
  {
    assert ObjectOk(t, o);
    if !t.objs[o].alive {
      assert Under(t.objs, o, o);
    }
    if r: nat :| r < |t.objs| && t.objs[r].terminating && Under(t.objs, r, o) {
      TerminatedIsDestroyed(t, r, o);
    }
  }

  // --------------------------------------------------------------- the measure

  function Sum(s: seq<nat>): nat {
    if s == [] then 0 else s[0] + Sum(s[1..])
  }

  lemma {:induction false} SumUpdate(s: seq<nat>, i: nat, v: nat)
    requires i < |s|
    ensures Sum(s[i := v]) == Sum(s) - s[i] + v
    decreases |s|
  {
    if i == 0 {
      assert s[0 := v][1..] == s[1..];
    } else {
      assert s[i := v][1..] == s[1..][i - 1 := v] && s[i := v][0] == s[0];
      SumUpdate(s[1..], i - 1, v);
    }
  }

  /** What an object and the commands in front of it still have to do. */
  function Work(x: Object, b: seq<Command>): nat {
    |b| + Bit(x.alive) + Bit(!x.terminating && Term !in b) + x.events + 2 * x.reserved + 2 * Bit(x.launching.Some?)
  }

  function Works(t: Tree): (s: seq<nat>)
    requires |t.objs| == |t.box|
    ensures |s| == |t.objs| && forall i :: 0 <= i < |s| ==> s[i] == Work(t.objs[i], t.box[i])
  {
    seq(|t.objs|, i requires 0 <= i < |t.objs| => Work(t.objs[i], t.box[i]))
  }

  function Remaining(t: Tree): nat
    requires |t.objs| == |t.box|
  {
    Sum(Works(t))
  }

  /** A handler that consumed something does more than it leaves to others. */
  lemma OwnWork(x: Object, b: seq<Command>, popped: seq<Command>, rest: seq<Command>, events: nat, l: Local)
    requires Effect(x, popped, rest, events, l) && x.alive && b == popped + rest
    requires |popped| + events > 0
    requires Count(popped, Term) > 0 ==> l.o.terminating
    requires x.terminating ==> l.o.terminating
    ensures Work(l.o, rest) + Bit(l.ack) < Work(x, b)
  {
    assert !x.terminating && Term !in b ==> Term !in rest;
    if !l.o.terminating && Term !in rest {
      assert Count(popped, Term) == 0;
      assert Term !in popped;
    }
  }

  lemma OthersWork(t: Tree, o: nat, rest: seq<Command>, l: Local, t': Tree, i: nat)
    requires After(t, o, rest, l, t') && i < |t.objs| && i != o
    requires i in l.terms ==> !t.objs[i].terminating && Term !in t.box[i]
    ensures Work(t'.objs[i], t'.box[i]) == Work(t.objs[i], t.box[i]) + Bit(i !in l.terms && l.ack && t.objs[o].owner == Some(i))
  {
    if i !in l.terms && l.ack && t.objs[o].owner == Some(i) {
      assert Term in t.box[i] + [TermAck] <==> Term in t.box[i];
    } else if i !in l.terms {
      assert t.box[i] + [] == t.box[i];
    }
  }

  lemma HandlerWorks(t: Tree, o: nat, popped: seq<Command>, rest: seq<Command>, events: nat, l: Local)
    requires Inv(t) && Present(t, o) && t.objs[o].alive && t.objs[o].launching.None? && t.box[o] == popped + rest
    requires Effect(t.objs[o], popped, rest, events, l) && |popped| + events > 0
    requires Count(popped, Term) > 0 ==> l.o.terminating
    requires t.objs[o].terminating ==> l.o.terminating
    ensures Commit(t, o, rest, l).Next? && |Commit(t, o, rest, l).t.objs| == |Commit(t, o, rest, l).t.box|
    ensures Remaining(Commit(t, o, rest, l).t) < Remaining(t)
  {
    CommitIsAfter(t, o, popped, rest, events, l);
    var t' := Commit(t, o, rest, l).t;
    OwnWork(t.objs[o], t.box[o], popped, rest, events, l);
    forall i | 0 <= i < |t.objs| && i != o
      ensures Works(t')[i] == Works(t)[i] + Bit(l.ack && t.objs[o].owner == Some(i))
    {
      HandlerOthers(t, o, popped, rest, events, l, t', i);
    }
    SumOfTwo(Works(t), Works(t'), o, l.ack, t.objs[o].owner);
  }

  lemma HandlerOthers(t: Tree, o: nat, popped: seq<Command>, rest: seq<Command>, events: nat, l: Local, t': Tree, i: nat)
    requires Inv(t) && After(t, o, rest, l, t') && t.box[o] == popped + rest && i < |t.objs| && i != o
    requires Effect(t.objs[o], popped, rest, events, l)
    ensures Work(t'.objs[i], t'.box[i]) == Work(t.objs[i], t.box[i]) + Bit(l.ack && t.objs[o].owner == Some(i))
  {
    assert RefsOk(t);
    if t.objs[o].owner == Some(i) {
      ParentIsNotTermed(t, o, popped, rest, events, l, i);
    }
    if i in l.terms {
      assert ObjectOk(t, i) && HoldsChildren(t.objs, t.objs[o], t.box[o], o);
      TermsAreChildren(t.objs, o, t.box[o], popped, rest, events, l, i);
      TermsAreAlive(t.objs[o], t.objs[i], t.box[o], t.box[i], popped, rest, events, l, i);
    }
    OthersWork(t, o, rest, l, t', i);
  }

  lemma SumOfTwo(s: seq<nat>, s': seq<nat>, o: nat, ack: bool, owner: Option<nat>)
    requires |s| == |s'| && o < |s| && (owner.Some? ==> owner.value < |s| && owner.value != o) && (ack ==> owner.Some?)
    requires s'[o] + Bit(ack) < s[o]
    requires forall i :: 0 <= i < |s| && i != o ==> s'[i] == s[i] + Bit(ack && owner == Some(i))
    ensures Sum(s') < Sum(s)
  {
    var u := s[o := s'[o]];
    SumUpdate(s, o, s'[o]);
    if ack {
      SumUpdate(u, owner.value, s'[owner.value]);
      assert s' == u[owner.value := s'[owner.value]];
    } else {
      assert s' == u;
    }
  }

  lemma OneWorkLess(t: Tree, o: nat, x: Object, b: seq<Command>)
    requires |t.objs| == |t.box| && o < |t.objs| && Work(x, b) < Work(t.objs[o], t.box[o])
    ensures Remaining(Tree(t.objs[o := x], t.box[o := b])) < Remaining(t)
  {
    var t' := Tree(t.objs[o := x], t.box[o := b]);
    SumUpdate(Works(t), o, Work(x, b));
    assert Works(t') == Works(t)[o := Work(x, b)];
  }

  lemma CommandKeepsTerminating(x: Object, m: Command)
    ensures x.terminating ==> ProcessCommand(Start(x), m).o.terminating
    ensures m.Term? ==> ProcessCommand(Start(x), m).o.terminating
  {
  }

  lemma DeliverIsProgress(t: Tree, o: nat)
    requires Inv(t) && Enabled(t, Deliver(o))
    ensures Step(t, Deliver(o)).Next? && |Step(t, Deliver(o)).t.objs| == |Step(t, Deliver(o)).t.box|
    ensures Remaining(Step(t, Deliver(o)).t) < Remaining(t)
  {
    ReceiverIsAlive(t, o);
    DeliverEffect(t, o);
    var m, rest := t.box[o][0], t.box[o][1..];
    var l := ProcessCommand(Start(t.objs[o]), m);
    assert t.box[o] == [m] + rest;
    CommandKeepsTerminating(t.objs[o], m);
    CountOne(m, Term);
    HandlerWorks(t, o, [m], rest, 0, l);
    assert Step(t, Deliver(o)) == Commit(t, o, rest, l);
  }

  lemma EventIsProgress(t: Tree, o: nat)
    requires Inv(t) && Enabled(t, Event(o))
    ensures Step(t, Event(o)).Next? && |Step(t, Event(o)).t.objs| == |Step(t, Event(o)).t.box|
    ensures Remaining(Step(t, Event(o)).t) < Remaining(t)
  {
    ReceiverIsAlive(t, o);
    assert ObjectOk(t, o);
    EventEffect(t.objs[o], t.box[o]);
    assert t.box[o] == [] + t.box[o];
    HandlerWorks(t, o, [], t.box[o], 1, ProcessEvent(Start(t.objs[o])));
  }

  lemma SecondHalfIsProgress(t: Tree, o: nat)
    requires Inv(t) && Present(t, o)
    ensures Enabled(t, Enqueue(o)) ==> Step(t, Enqueue(o)).Next? && |Step(t, Enqueue(o)).t.objs| == |Step(t, Enqueue(o)).t.box| && Remaining(Step(t, Enqueue(o)).t) < Remaining(t)
    ensures Enabled(t, LaunchOwn(o)) ==> Step(t, LaunchOwn(o)).Next? && |Step(t, LaunchOwn(o)).t.objs| == |Step(t, LaunchOwn(o)).t.box| && Remaining(Step(t, LaunchOwn(o)).t) < Remaining(t)
  {
    var x, b := t.objs[o], t.box[o];
    if Enabled(t, Enqueue(o)) {
      ReceiverIsAlive(t, o);
      assert Term in b + [Other] <==> Term in b;
      OneWorkLess(t, o, x.(reserved := x.reserved - 1), b + [Other]);
    }
    if Enabled(t, LaunchOwn(o)) {
      ReceiverIsAlive(t, o);
      var m := Own(x.launching.value);
      assert Term in b + [m] <==> Term in b;
      OneWorkLess(t, o, x.(launching := None, sent := x.sent + 1), b + [m]);
    }
  }

  /** An object that terminates goes on to, and owners never change. */
  lemma DueKeepsTerminating(t: Tree, a: Action, o: nat)
    requires Inv(t) && Due(t, a) && Step(t, a).Next? && o < |t.objs|
    ensures |Step(t, a).t.objs| == |t.objs| && Step(t, a).t.objs[o].owner == t.objs[o].owner
    ensures t.objs[o].terminating ==> Step(t, a).t.objs[o].terminating
  {
    if a.Deliver? {
      CommandKeepsTerminating(t.objs[a.o], t.box[a.o][0]);
    }
  }

  lemma {:induction false} DueKeepsUnder(t: Tree, a: Action, r: nat, o: nat)
    requires Inv(t) && Due(t, a) && Step(t, a).Next? && o < |t.objs|
    ensures Under(Step(t, a).t.objs, r, o) <==> Under(t.objs, r, o)
    decreases o
  {
    DueKeepsTerminating(t, a, o);
    if o == r || t.objs[o].owner.None? || t.objs[o].owner.value >= o {
    } else {
      DueKeepsUnder(t, a, r, t.objs[o].owner.value);
    }
  }

  /** Every due step keeps the invariant and leaves less to do. */
  lemma DueIsProgress(t: Tree, a: Action)
    requires Inv(t) && Due(t, a)
    ensures Step(t, a).Next? && Inv(Step(t, a).t)
    ensures Remaining(Step(t, a).t) < Remaining(t)
  {
    StepKeeps(t, a);
    match a
    case Deliver(o) => DeliverIsProgress(t, o);
    case Event(o) => EventIsProgress(t, o);
    case Enqueue(o) => SecondHalfIsProgress(t, o);
    case LaunchOwn(p) => SecondHalfIsProgress(t, p);
  }

  /** A sequence of due steps. */
  ghost predicate Drains(t: Tree, trace: seq<Action>)
    decreases |trace|
  {
    trace != [] ==> Due(t, trace[0]) && Step(t, trace[0]).Next? && Drains(Step(t, trace[0]).t, trace[1..])
  }

  ghost function Drained(t: Tree, trace: seq<Action>): Tree
    requires Drains(t, trace)
    decreases |trace|
  {
    if trace == [] then t else Drained(Step(t, trace[0]).t, trace[1..])
  }

  /** Whatever terminates: at most `Remaining` due steps are left, and when none is possible any more
      the tree below every terminating object has been destroyed, and everything else is alive. */
  lemma {:induction false} DueStepsComplete(t: Tree, trace: seq<Action>, o: nat)
    requires Inv(t) && Drains(t, trace) && o < |t.objs|
    ensures |trace| <= Remaining(t) && Inv(Drained(t, trace)) && |Drained(t, trace).objs| == |t.objs|
    ensures (exists r: nat :: r < |t.objs| && t.objs[r].terminating && Under(t.objs, r, o)) && Quiet(Drained(t, trace))
            ==> !Drained(t, trace).objs[o].alive
    ensures Quiet(Drained(t, trace)) ==>
              var objs := Drained(t, trace).objs;
              !objs[o].alive <==> exists r: nat :: r < |objs| && objs[r].terminating && Under(objs, r, o)
    decreases |trace|
  {
    if trace == [] {
      if Quiet(t) {
        QuietMeansDestroyed(t, o);
      }
    } else {
      DueIsProgress(t, trace[0]);
      DueKeepsTerminating(t, trace[0], o);
      DueStepsComplete(Step(t, trace[0]).t, trace[1..], o);
      if r: nat :| r < |t.objs| && t.objs[r].terminating && Under(t.objs, r, o) {
        DueKeepsTerminating(t, trace[0], r);
        DueKeepsUnder(t, trace[0], r, o);
      }
    }
  }

  /** Shutdown completes: once the root is terminating and nothing new is started, at most
      `Remaining` steps are left, and when none is possible any more every object of the tree has
      been destroyed. */
  lemma {:induction false} ShutdownCompletes(t: Tree, trace: seq<Action>)
    requires Inv(t) && t.objs[0].terminating && Drains(t, trace)
    ensures |trace| <= Remaining(t)
    ensures Quiet(Drained(t, trace)) ==> forall o :: 0 <= o < |Drained(t, trace).objs| ==> !Drained(t, trace).objs[o].alive
  {
    DueStepsComplete(t, trace, 0);
    forall o | 0 <= o < |t.objs| && Quiet(Drained(t, trace)) ensures !Drained(t, trace).objs[o].alive {
      AllUnderRoot(t, o);
      DueStepsComplete(t, trace, o);
    }
  }
}
