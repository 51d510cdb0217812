/** The safety of every run of an ownership tree. */
module OwnershipSafety {
  import opened Basics
  import opened OwnedObject
  import opened OwnershipTree

  // --------------------------------------------------------------- invariant

  function Announced(b: seq<Command>): nat {
    if b == [] then 0 else (if b[0].Announced() then 1 else 0) + Announced(b[1..])
  }

  function Count(b: seq<Command>, c: Command): nat {
    multiset(b)[c]
  }

  predicate IsChild(objs: seq<Object>, p: nat, c: nat) {
    c < |objs| && objs[c].owner == Some(p)
  }

  /** Owners are older than what they own, only the root has none, and every
      reference an owner holds is to one of its own children. */
  ghost predicate RefsOk(t: Tree) {
    && |t.objs| == |t.box| > 0
    && (forall o :: 0 <= o < |t.objs| ==> (o == 0 <==> t.objs[o].owner.None?))
    && (forall o :: 0 <= o < |t.objs| && t.objs[o].owner.Some? ==> t.objs[o].owner.value < o)
    && (forall o :: 0 <= o < |t.objs| ==> HoldsChildren(t.objs, t.objs[o], t.box[o], o))
  }

  ghost predicate HoldsChildren(objs: seq<Object>, x: Object, b: seq<Command>, o: nat) {
    && (forall c <- x.owned :: IsChild(objs, o, c))
    && (forall m <- b :: m.Own? || m.TermReq? ==> IsChild(objs, o, m.child))
    && (x.launching.Some? ==> IsChild(objs, o, x.launching.value))
  }

  function Bit(b: bool): nat {
    if b then 1 else 0
  }

  /** How far a child is on its way: being launched, reported to its owner, owned,
      asked to terminate, or terminating.  It is always in exactly one place. */
  function Places(p: Object, pbox: seq<Command>, x: Object, xbox: seq<Command>, c: nat): nat {
    Bit(p.launching == Some(c)) + Count(pbox, Own(c)) + Bit(c in p.owned)
    + Count(xbox, Term) + Bit(x.terminating)
  }

  ghost predicate PlaceOk(t: Tree, c: nat)
    requires c < |t.objs| == |t.box|
  {
    match t.objs[c].owner
    case None => Term !in t.box[c]
    case Some(p) => p < |t.objs| && Places(t.objs[p], t.box[p], t.objs[c], t.box[c], c) == 1
  }

  /** Asked to terminate, and not yet gone. */
  predicate Pending(x: Object, b: seq<Command>) {
    x.alive && (x.terminating || Term in b)
  }

  ghost function PendingOf(t: Tree, p: nat): set<nat>
    requires |t.objs| == |t.box|
  {
    set c | 0 <= c < |t.objs| && t.objs[c].owner == Some(p) && Pending(t.objs[c], t.box[c])
  }

  /** The acknowledgements an object waits for: its own events, the children asked
      to terminate that are still there, and the acknowledgements in flight. */
  ghost predicate AcksOk(t: Tree, o: nat)
    requires o < |t.objs| == |t.box|
  {
    t.objs[o].termAcks == t.objs[o].events + |PendingOf(t, o)| + Count(t.box[o], TermAck)
  }

  ghost predicate LocalOk(x: Object, b: seq<Command>) {
    && (x.alive ==> x.sent == x.processed + Announced(b) + x.reserved)
    && (x.alive ==> !Finished(x))
    && (!x.alive ==> b == [] && x.reserved == 0 && x.launching.None? && x.terminating && x.owned == {} && x.events == 0)
    && (x.terminating ==> x.owned == {})
  }

  ghost predicate OwnerAlive(objs: seq<Object>, c: nat)
    requires c < |objs|
  {
    objs[c].alive && objs[c].owner.Some? ==> objs[c].owner.value < |objs| && objs[objs[c].owner.value].alive
  }

  /** A termination request is followed by its sender's acknowledgement, unless the
      sender is still alive. */
  ghost predicate RequestsOk(objs: seq<Object>, b: seq<Command>) {
    forall i :: 0 <= i < |b| && b[i].TermReq? && b[i].child < |objs| && !objs[b[i].child].alive ==>
      exists j :: i < j < |b| && b[j].TermAck?
  }

  ghost predicate ObjectOk(t: Tree, o: nat)
    requires o < |t.objs| == |t.box|
  {
    PlaceOk(t, o) && AcksOk(t, o) && LocalOk(t.objs[o], t.box[o]) && OwnerAlive(t.objs, o) && RequestsOk(t.objs, t.box[o])
  }

  ghost predicate Inv(t: Tree) {
    RefsOk(t) && forall o: nat :: o < |t.objs| ==> ObjectOk(t, o)
  }

  lemma InitAcks(t: Tree)
    requires t == Init()
    ensures AcksOk(t, 0) && PlaceOk(t, 0) && OwnerAlive(t.objs, 0)
  {
    assert PendingOf(t, 0) == {};
  }

  lemma InitLocal(x: Object)
    requires x == Object(None, false, 0, 0, 0, None, {}, 0, 0, true)
    ensures LocalOk(x, []) && RequestsOk([x], [])
  {
  }

  lemma InitObject(t: Tree)
    requires t == Init()
    ensures |t.objs| == |t.box| == 1 && ObjectOk(t, 0)
  {
    InitAcks(t);
    InitLocal(t.objs[0]);
    assert t.box[0] == [] && t.objs == [t.objs[0]];
  }

  lemma InitRefs(t: Tree)
    requires t == Init()
    ensures RefsOk(t)
  {}

  lemma OneObjectInv(t: Tree)
    requires |t.objs| == |t.box| == 1 && RefsOk(t) && ObjectOk(t, 0)
    ensures Inv(t)
  {
    forall o: nat | o < |t.objs| ensures ObjectOk(t, o) {
      assert o == 0;
    }
  }

  lemma InitParts(t: Tree)
    requires t == Init()
    ensures |t.objs| == |t.box| == 1 && RefsOk(t) && ObjectOk(t, 0)
  {
    InitObject(t);
    InitRefs(t);
  }

  lemma InitInv(t: Tree)
    requires t == Init()
    ensures Inv(t)
  {
    InitParts(t);
    OneObjectInv(t);
  }

  lemma {:induction false} AnnouncedAppend(a: seq<Command>, b: seq<Command>)
    ensures Announced(a + b) == Announced(a) + Announced(b)
  {
    if a == [] {
      assert a + b == b;
    } else {
      assert (a + b)[1..] == a[1..] + b && (a + b)[0] == a[0];
      AnnouncedAppend(a[1..], b);
    }
  }

  lemma {:induction false} AnnouncedZero(b: seq<Command>)
    requires Announced(b) == 0
    ensures forall m <- b :: !m.Announced()
  {
    if b == [] {
    } else {
      AnnouncedZero(b[1..]);
      assert forall m <- b :: m == b[0] || m in b[1..];
    }
  }

  // ------------------------------------------------- what a handler has done

  /** The effect of a handler of `o` that consumed `popped` (at most one command)
      and `events` registered events. */
  ghost predicate Effect(x: Object, popped: seq<Command>, rest: seq<Command>, events: nat, l: Local) {
    && l.ok
    && l.o.owner == x.owner && l.o.launching == x.launching && l.o.reserved == x.reserved && l.o.sent == x.sent
    && l.o.processed == x.processed + Announced(popped)
    && x.events == l.o.events + events
    && l.o.termAcks == x.termAcks + |l.terms| - events - Count(popped, TermAck)
    && (forall c: nat :: Bit(c in l.o.owned) + Bit(c in l.terms) == Bit(c in x.owned) + Count(popped, Own(c)))
    && (x.owner.Some? ==> Bit(l.o.terminating) == Bit(x.terminating) + Count(popped, Term))
    && (l.o.terminating ==> l.o.owned == {})
    && (l.o.alive <==> !Finished(l.o))
    && (l.ack <==> !l.o.alive && x.owner.Some?)
  }

  /** Where each queue ends up. */
  lemma BoxesAt(box: seq<seq<Command>>, o: nat, rest: seq<Command>, terms: set<nat>, ackTo: Option<nat>, i: nat)
    requires i < |box|
    requires o !in terms && ackTo != Some(o) && (ackTo.Some? ==> ackTo.value !in terms)
    ensures var b := Boxes(box, o, rest, terms, ackTo)[i];
      && (i == o ==> b == rest)
      && (i in terms ==> b == box[i] + [Term])
      && (ackTo == Some(i) ==> b == box[i] + [TermAck])
      && (i != o && i !in terms && ackTo != Some(i) ==> b == box[i])
  {
  }

  /** What a handler of `x` enqueues in front of object `i`. */
  function Added(x: Object, l: Local, i: nat): seq<Command> {
    if i in l.terms then [Term] else if l.ack && x.owner == Some(i) then [TermAck] else []
  }

  /** The state after a handler of `o`. */
  ghost predicate After(t: Tree, o: nat, rest: seq<Command>, l: Local, t': Tree) {
    && Present(t, o) && |t.objs| == |t.box| == |t'.objs| == |t'.box|
    && t'.objs == t.objs[o := l.o]
    && t'.box[o] == rest
    && (forall i :: 0 <= i < |t.objs| && i != o ==> t'.box[i] == t.box[i] + Added(t.objs[o], l, i))
  }

  lemma TermsAreChildren(objs: seq<Object>, o: nat, b: seq<Command>, popped: seq<Command>, rest: seq<Command>, events: nat, l: Local, c: nat)
    requires o < |objs| && HoldsChildren(objs, objs[o], b, o) && b == popped + rest
    requires Effect(objs[o], popped, rest, events, l) && (c in l.terms || c in l.o.owned)
    ensures IsChild(objs, o, c)
  {
    assert Bit(c in l.o.owned) + Bit(c in l.terms) == Bit(c in objs[o].owned) + Count(popped, Own(c));
    if c !in objs[o].owned {
      assert Own(c) in popped;
      assert Own(c) in b;
    }
  }

  lemma CountSplit(popped: seq<Command>, rest: seq<Command>, c: Command)
    ensures Count(popped + rest, c) == Count(popped, c) + Count(rest, c)
  {
  }

  /** An object that is sent a termination command is alive, and was never sent one. */
  lemma TermsAreAlive(p: Object, x: Object, b: seq<Command>, xbox: seq<Command>, popped: seq<Command>, rest: seq<Command>, events: nat, l: Local, c: nat)
    requires Effect(p, popped, rest, events, l) && c in l.terms && b == popped + rest
    requires Places(p, b, x, xbox, c) == 1 && LocalOk(x, xbox)
    ensures x.alive && Term !in xbox && !x.terminating
  {
    CountSplit(popped, rest, Own(c));
    assert Bit(c in l.o.owned) + Bit(c in l.terms) == Bit(c in p.owned) + Count(popped, Own(c));
  }

  lemma SentToLive(t: Tree, o: nat, popped: seq<Command>, rest: seq<Command>, events: nat, l: Local, c: nat)
    requires RefsOk(t) && Present(t, o) && t.box[o] == popped + rest
    requires Effect(t.objs[o], popped, rest, events, l) && c in l.terms
    requires c < |t.objs| ==> PlaceOk(t, c) && LocalOk(t.objs[c], t.box[c])
    ensures IsChild(t.objs, o, c) && AliveAt(t, c)
  {
    assert HoldsChildren(t.objs, t.objs[o], t.box[o], o);
    TermsAreChildren(t.objs, o, t.box[o], popped, rest, events, l, c);
    TermsAreAlive(t.objs[o], t.objs[c], t.box[o], t.box[c], popped, rest, events, l, c);
  }

  lemma BoxesAfter(t: Tree, o: nat, rest: seq<Command>, l: Local)
    requires RefsOk(t) && Present(t, o) && l.o.owner == t.objs[o].owner
    requires forall c <- l.terms :: IsChild(t.objs, o, c)
    ensures After(t, o, rest, l, Tree(t.objs[o := l.o], Boxes(t.box, o, rest, l.terms, if l.ack then l.o.owner else None)))
  {
    var ackTo := if l.ack then l.o.owner else None;
    assert forall c <- l.terms :: o < c;
    forall i | 0 <= i < |t.objs|
      ensures Boxes(t.box, o, rest, l.terms, ackTo)[i] == if i == o then rest else t.box[i] + Added(t.objs[o], l, i)
    {
      BoxesAt(t.box, o, rest, l.terms, ackTo, i);
    }
  }

  lemma CommitIsAfter(t: Tree, o: nat, popped: seq<Command>, rest: seq<Command>, events: nat, l: Local)
    requires Inv(t) && Present(t, o) && t.objs[o].alive && t.box[o] == popped + rest
    requires Effect(t.objs[o], popped, rest, events, l)
    ensures Commit(t, o, rest, l).Next? && After(t, o, rest, l, Commit(t, o, rest, l).t)
  {
    assert RefsOk(t);
    forall c <- l.terms ensures IsChild(t.objs, o, c) && AliveAt(t, c) {
      assert c < |t.objs| ==> ObjectOk(t, c);
      SentToLive(t, o, popped, rest, events, l, c);
    }
    OwnerIsThere(t, o);
    CommitShape(t, o, rest, l);
    BoxesAfter(t, o, rest, l);
  }

  lemma OwnerIsThere(t: Tree, o: nat)
    requires Inv(t) && Present(t, o)
    ensures OwnerAlive(t.objs, o)
  {
    assert ObjectOk(t, o);
  }

  lemma CommitShape(t: Tree, o: nat, rest: seq<Command>, l: Local)
    requires RefsOk(t) && Present(t, o) && t.objs[o].alive && OwnerAlive(t.objs, o)
    requires l.ok && l.o.owner == t.objs[o].owner && (l.ack ==> l.o.owner.Some?)
    requires forall c <- l.terms :: IsChild(t.objs, o, c) && AliveAt(t, c)
    ensures Commit(t, o, rest, l) == Next(Tree(t.objs[o := l.o], Boxes(t.box, o, rest, l.terms, if l.ack then l.o.owner else None)))
  {}

  // ------------------------------------------- a handler keeps the invariant

  lemma HoldsKept(t: Tree, o: nat, popped: seq<Command>, rest: seq<Command>, events: nat, l: Local, t': Tree, i: nat)
    requires After(t, o, rest, l, t') && i < |t.objs| && t.box[o] == popped + rest
    requires Effect(t.objs[o], popped, rest, events, l)
    requires HoldsChildren(t.objs, t.objs[i], t.box[i], i)
    ensures HoldsChildren(t'.objs, t'.objs[i], t'.box[i], i)
  {
    if i == o {
      forall c <- l.o.owned ensures IsChild(t'.objs, o, c) {
        TermsAreChildren(t.objs, o, t.box[o], popped, rest, events, l, c);
      }
    }
  }

  lemma AfterRefs(t: Tree, o: nat, popped: seq<Command>, rest: seq<Command>, events: nat, l: Local, t': Tree)
    requires RefsOk(t) && After(t, o, rest, l, t') && t.box[o] == popped + rest
    requires Effect(t.objs[o], popped, rest, events, l)
    ensures RefsOk(t')
  {
    forall i | 0 <= i < |t'.objs|
      ensures HoldsChildren(t'.objs, t'.objs[i], t'.box[i], i)
    {
      HoldsKept(t, o, popped, rest, events, l, t', i);
    }
  }

  lemma AddedCount(b: seq<Command>, x: Object, l: Local, i: nat)
    ensures Count(b + Added(x, l, i), Term) == Count(b, Term) + Bit(i in l.terms)
    ensures Count(b + Added(x, l, i), TermAck) == Count(b, TermAck) + Bit(i !in l.terms && l.ack && x.owner == Some(i))
    ensures forall c :: Count(b + Added(x, l, i), Own(c)) == Count(b, Own(c))
    ensures Announced(b + Added(x, l, i)) == Announced(b)
  {
    AnnouncedAppend(b, Added(x, l, i));
  }

  /** The child of a handler's object moves from one place to the next. */
  lemma ChildPlace(p: Object, x: Object, b: seq<Command>, xbox: seq<Command>, popped: seq<Command>, rest: seq<Command>, events: nat, l: Local, c: nat)
    requires Effect(p, popped, rest, events, l) && b == popped + rest
    ensures Places(l.o, rest, x, xbox + Added(p, l, c), c) == Places(p, b, x, xbox, c)
  {
    CountSplit(popped, rest, Own(c));
    AddedCount(xbox, p, l, c);
    assert Bit(c in l.o.owned) + Bit(c in l.terms) == Bit(c in p.owned) + Count(popped, Own(c));
  }

  /** The handler's object moves from one place of its own owner's to the next. */
  lemma OwnPlace(p: Object, pbox: seq<Command>, x: Object, b: seq<Command>, popped: seq<Command>, rest: seq<Command>, events: nat, l: Local, i: nat, c: nat)
    requires x.owner.Some? && Effect(x, popped, rest, events, l) && b == popped + rest
    ensures Places(p, pbox + Added(x, l, i), l.o, rest, c) == Places(p, pbox, x, b, c)
  {
    CountSplit(popped, rest, Term);
    AddedCount(pbox, x, l, i);
  }

  lemma OtherPlace(p: Object, pbox: seq<Command>, x: Object, xbox: seq<Command>, y: Object, l: Local, i: nat, c: nat)
    requires c !in l.terms
    ensures Places(p, pbox + Added(y, l, i), x, xbox + Added(y, l, c), c) == Places(p, pbox, x, xbox, c)
  {
    AddedCount(pbox, y, l, i);
    AddedCount(xbox, y, l, c);
  }

  lemma AfterPlaces(t: Tree, o: nat, popped: seq<Command>, rest: seq<Command>, events: nat, l: Local, t': Tree, c: nat)
    requires RefsOk(t) && After(t, o, rest, l, t') && t.box[o] == popped + rest && c < |t.objs|
    requires Effect(t.objs[o], popped, rest, events, l) && PlaceOk(t, c)
    ensures PlaceOk(t', c)
  {
    var p := t.objs[c].owner;
    if c in l.terms {
      assert HoldsChildren(t.objs, t.objs[o], t.box[o], o);
      TermsAreChildren(t.objs, o, t.box[o], popped, rest, events, l, c);
    }
    if p.None? {
      assert c !in l.terms;
      TermMembership(t.box[c], t.objs[o], l, c);
    } else if p == Some(o) {
      ChildPlace(t.objs[o], t.objs[c], t.box[o], t.box[c], popped, rest, events, l, c);
    } else if c == o {
      OwnPlace(t.objs[p.value], t.box[p.value], t.objs[o], t.box[o], popped, rest, events, l, p.value, c);
    } else {
      OtherPlace(t.objs[p.value], t.box[p.value], t.objs[c], t.box[c], t.objs[o], l, p.value, c);
    }
  }

  lemma TermMembership(b: seq<Command>, x: Object, l: Local, i: nat)
    requires i !in l.terms
    ensures Term in b + Added(x, l, i) <==> Term in b
  {
  }

  /** The object itself is pending after its handler just if it was before and is
      still alive. */
  lemma OwnPending(x: Object, b: seq<Command>, popped: seq<Command>, rest: seq<Command>, events: nat, l: Local)
    requires x.owner.Some? && Effect(x, popped, rest, events, l) && b == popped + rest && x.alive
    ensures Pending(l.o, rest) <==> l.o.alive && Pending(x, b)
    ensures !l.o.alive ==> Pending(x, b)
  {
    CountSplit(popped, rest, Term);
    assert Term in b <==> Count(b, Term) > 0;
    assert Term in rest <==> Count(rest, Term) > 0;
  }

  /** A child that is sent a termination command becomes pending, and was not. */
  lemma BecomesPending(t: Tree, o: nat, popped: seq<Command>, rest: seq<Command>, events: nat, l: Local, t': Tree, c: nat)
    requires RefsOk(t) && After(t, o, rest, l, t') && t.box[o] == popped + rest
    requires Effect(t.objs[o], popped, rest, events, l) && c in l.terms
    requires c < |t.objs| ==> PlaceOk(t, c) && LocalOk(t.objs[c], t.box[c])
    ensures c in PendingOf(t', o) && c !in PendingOf(t, o)
  {
    assert HoldsChildren(t.objs, t.objs[o], t.box[o], o);
    TermsAreChildren(t.objs, o, t.box[o], popped, rest, events, l, c);
    TermsAreAlive(t.objs[o], t.objs[c], t.box[o], t.box[c], popped, rest, events, l, c);
  }

  lemma PendingOfHandler(t: Tree, o: nat, popped: seq<Command>, rest: seq<Command>, events: nat, l: Local, t': Tree)
    requires Inv(t) && After(t, o, rest, l, t') && t.box[o] == popped + rest
    requires Effect(t.objs[o], popped, rest, events, l)
    ensures |PendingOf(t', o)| == |PendingOf(t, o)| + |l.terms|
  {
    forall c <- l.terms ensures c in PendingOf(t', o) && c !in PendingOf(t, o) {
      assert c < |t.objs| ==> ObjectOk(t, c);
      BecomesPending(t, o, popped, rest, events, l, t', c);
    }
    PendingElsewhere(t, o, rest, l, t');
    DisjointUnion(PendingOf(t', o), PendingOf(t, o), l.terms);
  }

  lemma DisjointUnion(a: set<nat>, b: set<nat>, c: set<nat>)
    requires c <= a && c !! b && a - c == b - c
    ensures |a| == |b| + |c|
  {
    assert b - c == b;
    assert a == b + c;
  }

  lemma PendingElsewhere(t: Tree, o: nat, rest: seq<Command>, l: Local, t': Tree)
    requires RefsOk(t) && After(t, o, rest, l, t') && l.o.owner == t.objs[o].owner
    ensures PendingOf(t', o) - l.terms == PendingOf(t, o) - l.terms
  {
    forall c | 0 <= c < |t.objs| && t.objs[c].owner == Some(o) && c !in l.terms
      ensures c in PendingOf(t', o) <==> c in PendingOf(t, o)
    {
      TermMembership(t.box[c], t.objs[o], l, c);
    }
  }

  lemma PendingOfOther(t: Tree, o: nat, popped: seq<Command>, rest: seq<Command>, events: nat, l: Local, t': Tree, i: nat)
    requires RefsOk(t) && After(t, o, rest, l, t') && t.box[o] == popped + rest && i < |t.objs| && i != o
    requires Effect(t.objs[o], popped, rest, events, l) && t.objs[o].alive
    ensures PendingOf(t', i) == if l.ack && t.objs[o].owner == Some(i) then PendingOf(t, i) - {o} else PendingOf(t, i)
    ensures !l.o.alive && t.objs[o].owner == Some(i) ==> o in PendingOf(t, i)
  {
    if t.objs[o].owner.Some? {
      OwnPending(t.objs[o], t.box[o], popped, rest, events, l);
    }
    forall c | 0 <= c < |t.objs| && t.objs[c].owner == Some(i) && c != o
      ensures c in PendingOf(t', i) <==> c in PendingOf(t, i)
    {
      if c in l.terms {
        assert HoldsChildren(t.objs, t.objs[o], t.box[o], o);
        TermsAreChildren(t.objs, o, t.box[o], popped, rest, events, l, c);
      } else {
        TermMembership(t.box[c], t.objs[o], l, c);
      }
    }
  }

  lemma AfterAcks(t: Tree, o: nat, popped: seq<Command>, rest: seq<Command>, events: nat, l: Local, t': Tree, i: nat)
    requires Inv(t) && After(t, o, rest, l, t') && t.box[o] == popped + rest && i < |t.objs|
    requires Effect(t.objs[o], popped, rest, events, l) && t.objs[o].alive
    ensures AcksOk(t', i)
  {
    assert ObjectOk(t, i);
    assert AcksOk(t, i) && RefsOk(t);
    if i == o {
      PendingOfHandler(t, o, popped, rest, events, l, t');
      CountSplit(popped, rest, TermAck);
    } else {
      PendingOfOther(t, o, popped, rest, events, l, t', i);
      AddedCount(t.box[i], t.objs[o], l, i);
      if i in l.terms {
        assert HoldsChildren(t.objs, t.objs[o], t.box[o], o);
        TermsAreChildren(t.objs, o, t.box[o], popped, rest, events, l, i);
      }
    }
  }

  /** A request that is left comes from a live child, or its acknowledgement is left too. */
  lemma RequestsLeft(objs: seq<Object>, o: nat, b: seq<Command>, popped: seq<Command>, rest: seq<Command>, m: Command)
    requires o < |objs| && HoldsChildren(objs, objs[o], b, o) && RequestsOk(objs, b) && b == popped + rest
    requires m in rest && m.TermReq?
    ensures IsChild(objs, o, m.child) && (objs[m.child].alive || TermAck in rest)
  {
    var i :| 0 <= i < |rest| && rest[i] == m;
    assert b[|popped| + i] == m;
    if !objs[m.child].alive {
      var j :| |popped| + i < j < |b| && b[j].TermAck?;
      assert rest[j - |popped|] == TermAck;
    }
  }

  /** When an object is finished, none of its children is alive and no command is
      left in front of it. */
  lemma FinishedChildrenGone(t: Tree, o: nat, rest: seq<Command>, l: Local, t': Tree, c: nat)
    requires After(t, o, rest, l, t') && IsChild(t.objs, o, c) && c != o
    requires Finished(l.o) && l.o.launching.None? && l.o.owned == {} && Announced(rest) == 0
    requires AcksOk(t', o) && PlaceOk(t', c)
    ensures !t.objs[c].alive
  {
    AnnouncedZero(rest);
    assert Own(c) !in rest;
    assert |PendingOf(t', o)| == 0;
    assert c !in PendingOf(t', o);
    assert Count(t'.box[c], Term) > 0 <==> Term in t'.box[c];
  }

  lemma FinishedMeansChildless(t: Tree, o: nat, popped: seq<Command>, rest: seq<Command>, events: nat, l: Local, t': Tree, c: nat)
    requires Inv(t) && After(t, o, rest, l, t') && t.box[o] == popped + rest && IsChild(t.objs, o, c)
    requires Effect(t.objs[o], popped, rest, events, l) && t.objs[o].alive && t.objs[o].launching.None?
    requires !l.o.alive
    ensures !t.objs[c].alive
  {
    assert ObjectOk(t, c) && ObjectOk(t, o);
    assert LocalOk(t.objs[o], t.box[o]) && RefsOk(t) && PlaceOk(t, c);
    AnnouncedAppend(popped, rest);
    AfterAcks(t, o, popped, rest, events, l, t', o);
    AfterPlaces(t, o, popped, rest, events, l, t', c);
    FinishedChildrenGone(t, o, rest, l, t', c);
  }

  lemma FinishedMeansEmpty(t: Tree, o: nat, popped: seq<Command>, rest: seq<Command>, l: Local, t': Tree)
    requires RefsOk(t) && After(t, o, rest, l, t') && RequestsOk(t.objs, t.box[o]) && t.box[o] == popped + rest
    requires forall c | 0 <= c < |t.objs| && IsChild(t.objs, o, c) :: !t.objs[c].alive
    requires AcksOk(t', o) && l.o.termAcks == 0 && l.o.terminating && PlaceOk(t', o) && Announced(rest) == 0
    ensures rest == [] && l.o.events == 0
  {
    assert Count(rest, TermAck) == 0;
    AnnouncedZero(rest);
    assert Term in rest <==> Count(rest, Term) > 0;
    assert HoldsChildren(t.objs, t.objs[o], t.box[o], o);
    if rest != [] {
      assert rest[0] in rest;
      if rest[0].TermReq? {
        RequestsLeft(t.objs, o, t.box[o], popped, rest, rest[0]);
      }
    }
  }

  lemma FinishedMeansAlone(t: Tree, o: nat, popped: seq<Command>, rest: seq<Command>, events: nat, l: Local, t': Tree)
    requires Inv(t) && After(t, o, rest, l, t') && t.box[o] == popped + rest
    requires Effect(t.objs[o], popped, rest, events, l) && t.objs[o].alive && t.objs[o].launching.None?
    requires !l.o.alive
    ensures forall c | 0 <= c < |t.objs| && IsChild(t.objs, o, c) :: !t.objs[c].alive
    ensures rest == [] && l.o.reserved == 0 && l.o.events == 0
  {
    assert ObjectOk(t, o);
    assert LocalOk(t.objs[o], t.box[o]) && PlaceOk(t, o) && RequestsOk(t.objs, t.box[o]);
    AnnouncedAppend(popped, rest);
    forall c | 0 <= c < |t.objs| && IsChild(t.objs, o, c) ensures !t.objs[c].alive {
      FinishedMeansChildless(t, o, popped, rest, events, l, t', c);
    }
    AfterAcks(t, o, popped, rest, events, l, t', o);
    AfterPlaces(t, o, popped, rest, events, l, t', o);
    FinishedMeansEmpty(t, o, popped, rest, l, t');
  }

  lemma AfterLocal(t: Tree, o: nat, popped: seq<Command>, rest: seq<Command>, events: nat, l: Local, t': Tree, i: nat)
    requires Inv(t) && After(t, o, rest, l, t') && t.box[o] == popped + rest && i < |t.objs|
    requires Effect(t.objs[o], popped, rest, events, l) && t.objs[o].alive && t.objs[o].launching.None?
    ensures LocalOk(t'.objs[i], t'.box[i])
  {
    assert ObjectOk(t, i) && ObjectOk(t, o);
    assert LocalOk(t.objs[i], t.box[i]) && LocalOk(t.objs[o], t.box[o]) && RefsOk(t);
    if i == o {
      AnnouncedAppend(popped, rest);
      if !l.o.alive {
        FinishedMeansAlone(t, o, popped, rest, events, l, t');
      }
    } else {
      AddedCount(t.box[i], t.objs[o], l, i);
      if i in l.terms {
        TermsAreChildren(t.objs, o, t.box[o], popped, rest, events, l, i);
        assert ObjectOk(t, i);
        assert PlaceOk(t, i);
        TermsAreAlive(t.objs[o], t.objs[i], t.box[o], t.box[i], popped, rest, events, l, i);
      } else if l.ack && t.objs[o].owner == Some(i) {
        assert ObjectOk(t, o);
        assert OwnerAlive(t.objs, o);
      } else {
        assert t.box[i] + [] == t.box[i];
      }
    }
  }

  lemma AfterOwnerAlive(t: Tree, o: nat, popped: seq<Command>, rest: seq<Command>, events: nat, l: Local, t': Tree, i: nat)
    requires Inv(t) && After(t, o, rest, l, t') && t.box[o] == popped + rest && i < |t.objs|
    requires Effect(t.objs[o], popped, rest, events, l) && t.objs[o].alive && t.objs[o].launching.None?
    ensures OwnerAlive(t'.objs, i)
  {
    assert ObjectOk(t, i);
    assert OwnerAlive(t.objs, i) && RefsOk(t);
    if !l.o.alive && t.objs[i].owner == Some(o) {
      FinishedMeansAlone(t, o, popped, rest, events, l, t');
      assert IsChild(t.objs, o, i);
    }
  }

  lemma RequestsKept(objs: seq<Object>, objs': seq<Object>, popped: seq<Command>, rest: seq<Command>)
    requires RequestsOk(objs, popped + rest)
    requires |objs'| == |objs| && forall m <- rest :: m.TermReq? && m.child < |objs| ==> objs'[m.child].alive == objs[m.child].alive
    ensures RequestsOk(objs', rest)
  {
    forall i | 0 <= i < |rest| && rest[i].TermReq? && rest[i].child < |objs'| && !objs'[rest[i].child].alive
      ensures exists j :: i < j < |rest| && rest[j].TermAck?
    {
      var b := popped + rest;
      assert b[|popped| + i] == rest[i];
      var j :| |popped| + i < j < |b| && b[j].TermAck?;
      assert rest[j - |popped|].TermAck?;
    }
  }

  lemma RequestsExtended(objs: seq<Object>, objs': seq<Object>, b: seq<Command>, added: seq<Command>, o: nat)
    requires RequestsOk(objs, b) && |objs'| == |objs| && o < |objs|
    requires forall i :: 0 <= i < |objs| && i != o ==> objs'[i].alive == objs[i].alive
    requires objs'[o].alive == objs[o].alive || TermReq(o) !in b || added == [TermAck]
    requires forall m <- added :: m.TermReq? && m.child < |objs| ==> objs'[m.child].alive
    ensures RequestsOk(objs', b + added)
  {
    var b' := b + added;
    forall i | 0 <= i < |b'| && b'[i].TermReq? && b'[i].child < |objs'| && !objs'[b'[i].child].alive
      ensures exists j :: i < j < |b'| && b'[j].TermAck?
    {
      if i < |b| {
        if objs[b[i].child].alive {
          assert b'[|b|] == TermAck;
        } else {
          var j :| i < j < |b| && b[j].TermAck?;
          assert b'[j] == TermAck;
        }
      }
    }
  }

  lemma ParentIsNotTermed(t: Tree, o: nat, popped: seq<Command>, rest: seq<Command>, events: nat, l: Local, i: nat)
    requires RefsOk(t) && Present(t, o) && t.box[o] == popped + rest && Effect(t.objs[o], popped, rest, events, l)
    requires IsChild(t.objs, i, o)
    ensures i !in l.terms
  {
    if i in l.terms {
      assert HoldsChildren(t.objs, t.objs[o], t.box[o], o);
      TermsAreChildren(t.objs, o, t.box[o], popped, rest, events, l, i);
    }
  }

  lemma AfterRequests(t: Tree, o: nat, popped: seq<Command>, rest: seq<Command>, events: nat, l: Local, t': Tree, i: nat)
    requires RefsOk(t) && After(t, o, rest, l, t') && t.box[o] == popped + rest && i < |t.objs|
    requires Effect(t.objs[o], popped, rest, events, l) && t.objs[o].alive && RequestsOk(t.objs, t.box[i])
    ensures RequestsOk(t'.objs, t'.box[i])
  {
    assert HoldsChildren(t.objs, t.objs[i], t.box[i], i);
    if i == o {
      assert forall m <- rest :: m in t.box[o];
      RequestsKept(t.objs, t'.objs, popped, rest);
    } else {
      if TermReq(o) in t.box[i] {
        ParentIsNotTermed(t, o, popped, rest, events, l, i);
      }
      RequestsExtended(t.objs, t'.objs, t.box[i], Added(t.objs[o], l, i), o);
    }
  }

  /** A handler whose effect is as described keeps the invariant. */
  lemma HandlerKeeps(t: Tree, o: nat, popped: seq<Command>, rest: seq<Command>, events: nat, l: Local)
    requires Inv(t) && Present(t, o) && t.objs[o].alive && t.objs[o].launching.None? && t.box[o] == popped + rest
    requires Effect(t.objs[o], popped, rest, events, l)
    ensures Commit(t, o, rest, l).Next? && Inv(Commit(t, o, rest, l).t)
  {
    CommitIsAfter(t, o, popped, rest, events, l);
    var t' := Commit(t, o, rest, l).t;
    AfterRefs(t, o, popped, rest, events, l, t');
    forall i | 0 <= i < |t.objs|
      ensures PlaceOk(t', i) && AcksOk(t', i) && LocalOk(t'.objs[i], t'.box[i]) && OwnerAlive(t'.objs, i) && RequestsOk(t'.objs, t'.box[i])
    {
      assert ObjectOk(t, i);
      assert PlaceOk(t, i) && RequestsOk(t.objs, t.box[i]);
      AfterPlaces(t, o, popped, rest, events, l, t', i);
      AfterAcks(t, o, popped, rest, events, l, t', i);
      AfterLocal(t, o, popped, rest, events, l, t', i);
      AfterOwnerAlive(t, o, popped, rest, events, l, t', i);
      AfterRequests(t, o, popped, rest, events, l, t', i);
    }
  }

  // ------------------------------------------------- the handlers one by one

  lemma CountOne(m: Command, c: Command)
    ensures Count([m], c) == Bit(m == c)
    ensures Announced([m]) == Bit(m.Announced())
  {
  }

  lemma CheckEffect(x: Object, popped: seq<Command>, rest: seq<Command>, events: nat, l: Local)
    requires l.o.alive && Effect(x, popped, rest, events, l.(o := l.o.(alive := !Finished(l.o)), ack := Finished(l.o) && x.owner.Some?))
    ensures Effect(x, popped, rest, events, CheckTermAcks(l.(ack := false)))
  {
  }

  lemma SeqnumEffect(x: Object, m: Command, rest: seq<Command>)
    requires m.Plug? || m.Other?
    requires x.alive && LocalOk(x, [m] + rest)
    ensures Effect(x, [m], rest, 0, ProcessCommand(Start(x), m))
  {
    CountOne(m, TermAck);
    CountOne(m, Term);
    forall c: nat ensures Count([m], Own(c)) == 0 { CountOne(m, Own(c)); }
    CheckEffect(x, [m], rest, 0, Start(x.(processed := x.processed + 1)));
  }

  lemma OwnEffect(x: Object, child: nat, rest: seq<Command>)
    requires x.alive && LocalOk(x, [Own(child)] + rest) && child !in x.owned
    ensures Effect(x, [Own(child)], rest, 0, ProcessCommand(Start(x), Own(child)))
  {
    var m := Own(child);
    CountOne(m, TermAck);
    CountOne(m, Term);
    forall c: nat ensures Count([m], Own(c)) == Bit(c == child) { CountOne(m, Own(c)); }
    var l := ProcessOwn(Start(x), child);
    assert |{child}| == 1 && {} + {child} == {child};
    CheckEffect(x, [m], rest, 0, l.(o := l.o.(processed := l.o.processed + 1)));
  }

  lemma RequestEffect(x: Object, popped: seq<Command>, child: nat, rest: seq<Command>)
    requires popped == [] || popped == [TermReq(child)]
    requires x.alive && LocalOk(x, popped + rest)
    ensures Effect(x, popped, rest, 0, ProcessTermReq(Start(x), child))
  {
    if popped != [] {
      CountOne(popped[0], TermAck);
      CountOne(popped[0], Term);
      forall c: nat ensures Count(popped, Own(c)) == 0 { CountOne(popped[0], Own(c)); }
    }
    assert |{child}| == 1 && {} + {child} == {child};
  }

  lemma TermEffect(x: Object, popped: seq<Command>, rest: seq<Command>)
    requires popped == [Term] || (popped == [] && x.owner.None?)
    requires x.alive && LocalOk(x, popped + rest) && !x.terminating
    ensures Effect(x, popped, rest, 0, ProcessTerm(Start(x)))
  {
    if popped != [] {
      CountOne(Term, TermAck);
      CountOne(Term, Term);
      forall c: nat ensures Count(popped, Own(c)) == 0 { CountOne(Term, Own(c)); }
    }
    assert {} + x.owned == x.owned;
    CheckEffect(x, popped, rest, 0, Local(x.(owned := {}, termAcks := x.termAcks + |x.owned|, terminating := true), x.owned, false, true));
  }

  lemma AckEffect(x: Object, rest: seq<Command>)
    requires x.alive && LocalOk(x, [TermAck] + rest) && x.termAcks > 0
    ensures Effect(x, [TermAck], rest, 0, ProcessCommand(Start(x), TermAck))
  {
    CountOne(TermAck, TermAck);
    CountOne(TermAck, Term);
    forall c: nat ensures Count([TermAck], Own(c)) == 0 { CountOne(TermAck, Own(c)); }
    CheckEffect(x, [TermAck], rest, 0, Start(x.(termAcks := x.termAcks - 1)));
  }

  lemma EventEffect(x: Object, b: seq<Command>)
    requires x.alive && LocalOk(x, b) && x.termAcks > 0 && x.events > 0
    ensures Effect(x, [], b, 1, ProcessEvent(Start(x)))
  {
    CheckEffect(x, [], b, 1, Start(x.(termAcks := x.termAcks - 1, events := x.events - 1)));
  }

  /** Only a live object has commands in front of it. */
  lemma ReceiverIsAlive(t: Tree, o: nat)
    requires Inv(t) && Present(t, o) && (t.box[o] != [] || t.objs[o].events > 0 || t.objs[o].reserved > 0 || t.objs[o].launching.Some?)
    ensures t.objs[o].alive
  {
    assert ObjectOk(t, o);
    assert LocalOk(t.objs[o], t.box[o]);
  }

  lemma DeliverEffect(t: Tree, o: nat)
    requires Inv(t) && Present(t, o) && t.box[o] != []
    ensures Effect(t.objs[o], [t.box[o][0]], t.box[o][1..], 0, ProcessCommand(Start(t.objs[o]), t.box[o][0]))
  {
    ReceiverIsAlive(t, o);
    var x, m, rest := t.objs[o], t.box[o][0], t.box[o][1..];
    assert t.box[o] == [m] + rest;
    assert ObjectOk(t, o);
    assert LocalOk(x, t.box[o]) && PlaceOk(t, o) && AcksOk(t, o) && HoldsChildren(t.objs, x, t.box[o], o);
    assert m in t.box[o];
    match m
    case Plug => SeqnumEffect(x, m, rest);
    case Other => SeqnumEffect(x, m, rest);
    case Own(child) =>
      assert ObjectOk(t, child);
      assert PlaceOk(t, child);
      assert Count(t.box[o], m) > 0;
      OwnEffect(x, child, rest);
    case TermReq(child) => RequestEffect(x, [m], child, rest);
    case Term =>
      assert Count(t.box[o], Term) > 0;
      TermEffect(x, [m], rest);
    case TermAck =>
      assert Count(t.box[o], TermAck) > 0;
      AckEffect(x, rest);
  }

  lemma DeliverKeeps(t: Tree, o: nat)
    requires Inv(t) && Enabled(t, Deliver(o))
    ensures Step(t, Deliver(o)).Next? && Inv(Step(t, Deliver(o)).t)
  {
    ReceiverIsAlive(t, o);
    DeliverEffect(t, o);
    var popped, rest := [t.box[o][0]], t.box[o][1..];
    var l := ProcessCommand(Start(t.objs[o]), t.box[o][0]);
    assert t.box[o] == popped + rest;
    HandlerKeeps(t, o, popped, rest, 0, l);
    assert Step(t, Deliver(o)) == Commit(t, o, rest, l);
  }

  lemma EventKeeps(t: Tree, o: nat)
    requires Inv(t) && Enabled(t, Event(o))
    ensures Step(t, Event(o)).Next? && Inv(Step(t, Event(o)).t)
  {
    ReceiverIsAlive(t, o);
    assert ObjectOk(t, o);
    assert LocalOk(t.objs[o], t.box[o]) && AcksOk(t, o);
    EventEffect(t.objs[o], t.box[o]);
    assert t.box[o] == [] + t.box[o];
    HandlerKeeps(t, o, [], t.box[o], 1, ProcessEvent(Start(t.objs[o])));
  }

  lemma TermChildKeeps(t: Tree, p: nat, c: nat)
    requires Inv(t) && Enabled(t, TermChild(p, c))
    ensures Step(t, TermChild(p, c)).Next? && Inv(Step(t, TermChild(p, c)).t)
  {
    assert ObjectOk(t, p);
    assert LocalOk(t.objs[p], t.box[p]);
    assert t.box[p] == [] + t.box[p];
    RequestEffect(t.objs[p], [], c, t.box[p]);
    HandlerKeeps(t, p, [], t.box[p], 0, ProcessTermReq(Start(t.objs[p]), c));
  }

  // --------------------------------------------------- steps of other threads

  /** Appending a command in front of `o`, and changing nothing but `o` itself. */
  ghost predicate Appends(t: Tree, o: nat, x: Object, added: seq<Command>, t': Tree) {
    && |t.objs| == |t.box| && o < |t.objs|
    && t' == Tree(t.objs[o := x], t.box[o := t.box[o] + added])
    && x.alive == t.objs[o].alive && x.owner == t.objs[o].owner
    && x.terminating == t.objs[o].terminating && x.owned == t.objs[o].owned
    && (forall m <- added :: m.Other? || m.Own? || (m.TermReq? && IsChild(t.objs, o, m.child) && t.objs[m.child].alive))
    && (forall c: nat :: Bit(x.launching == Some(c)) + Count(added, Own(c)) == Bit(t.objs[o].launching == Some(c)))
    && x.termAcks - x.events == t.objs[o].termAcks - t.objs[o].events
  }

  lemma AppendsNoTerm(t: Tree, o: nat, x: Object, added: seq<Command>, t': Tree)
    requires Appends(t, o, x, added, t')
    ensures Term !in added && Count(added, Term) == 0 && Count(added, TermAck) == 0
  {
    assert Count(added, Term) > 0 ==> Term in added;
    assert Count(added, TermAck) > 0 ==> TermAck in added;
  }

  lemma AppendPlace(t: Tree, o: nat, x: Object, added: seq<Command>, t': Tree, c: nat)
    requires Appends(t, o, x, added, t') && c < |t.objs| && PlaceOk(t, c)
    ensures PlaceOk(t', c)
  {
    AppendsNoTerm(t, o, x, added, t');
    CountSplit(t.box[o], added, Term);
    CountSplit(t.box[o], added, Own(c));
    assert Bit(x.launching == Some(c)) + Count(added, Own(c)) == Bit(t.objs[o].launching == Some(c));
  }

  lemma AppendAcks(t: Tree, o: nat, x: Object, added: seq<Command>, t': Tree, i: nat)
    requires Appends(t, o, x, added, t') && i < |t.objs| && AcksOk(t, i)
    ensures AcksOk(t', i)
  {
    AppendsNoTerm(t, o, x, added, t');
    CountSplit(t.box[o], added, TermAck);
    assert Term in t.box[o] + added <==> Term in t.box[o];
    assert PendingOf(t', i) == PendingOf(t, i);
  }

  lemma AppendRequests(t: Tree, o: nat, x: Object, added: seq<Command>, t': Tree, i: nat)
    requires Appends(t, o, x, added, t') && i < |t.objs| && RequestsOk(t.objs, t.box[i])
    ensures RequestsOk(t'.objs, t'.box[i])
  {
    if i == o {
      RequestsExtended(t.objs, t'.objs, t.box[o], added, o);
    }
  }

  lemma AppendHolds(t: Tree, o: nat, x: Object, added: seq<Command>, t': Tree, i: nat)
    requires Appends(t, o, x, added, t') && i < |t.objs| && HoldsChildren(t.objs, t.objs[i], t.box[i], i)
    ensures HoldsChildren(t'.objs, t'.objs[i], t'.box[i], i)
  {
    if i == o {
      forall m <- added ensures m.Own? ==> IsChild(t'.objs, o, m.child) {
        if m.Own? {
          assert Count(added, m) > 0;
          assert Bit(x.launching == Some(m.child)) + Count(added, Own(m.child)) == Bit(t.objs[o].launching == Some(m.child));
        }
      }
      if x.launching.Some? {
        var c := x.launching.value;
        assert Bit(x.launching == Some(c)) + Count(added, Own(c)) == Bit(t.objs[o].launching == Some(c));
      }
    }
  }

  lemma AppendKeeps(t: Tree, o: nat, x: Object, added: seq<Command>, t': Tree)
    requires Inv(t) && Appends(t, o, x, added, t') && LocalOk(x, t.box[o] + added)
    ensures Inv(t')
  {
    AppendKeepsRefs(t, o, x, added, t');
    forall i | 0 <= i < |t.objs| ensures ObjectOk(t', i) {
      assert ObjectOk(t, i);
      AppendKeepsObject(t, o, x, added, t', i);
    }
  }

  lemma AppendKeepsRefs(t: Tree, o: nat, x: Object, added: seq<Command>, t': Tree)
    requires RefsOk(t) && Appends(t, o, x, added, t')
    ensures RefsOk(t')
  {
    forall i | 0 <= i < |t.objs|
      ensures HoldsChildren(t'.objs, t'.objs[i], t'.box[i], i)
    {
      AppendHolds(t, o, x, added, t', i);
    }
  }

  lemma AppendKeepsObject(t: Tree, o: nat, x: Object, added: seq<Command>, t': Tree, i: nat)
    requires RefsOk(t) && Appends(t, o, x, added, t') && LocalOk(x, t.box[o] + added)
    requires i < |t.objs| && ObjectOk(t, i)
    ensures ObjectOk(t', i)
  {
    AppendPlace(t, o, x, added, t', i);
    AppendAcks(t, o, x, added, t', i);
    AppendRequests(t, o, x, added, t', i);
  }

  lemma LocalKeeps(x: Object, b: seq<Command>, x': Object, added: seq<Command>)
    requires LocalOk(x, b) && x.alive && x'.alive && x'.terminating == x.terminating && x'.owned == x.owned
    requires x'.sent - x'.processed - x'.reserved == x.sent - x.processed - x.reserved + Announced(added)
    requires !Finished(x')
    ensures LocalOk(x', b + added)
  {
    AnnouncedAppend(b, added);
  }

  /** Appending `added` to a live object that keeps its place, when its sequence
      numbers stay in step. */
  lemma QuietAppendKeeps(t: Tree, o: nat, x: Object, added: seq<Command>)
    requires Inv(t) && o < |t.objs| && t.objs[o].alive
    requires added == [] || added == [Other] || (t.objs[o].launching.Some? && added == [Own(t.objs[o].launching.value)])
    requires x.launching == if added != [] && added[0].Own? then None else t.objs[o].launching
    requires x == t.objs[o].(launching := x.launching, sent := x.sent, reserved := x.reserved, events := x.events, termAcks := x.termAcks)
    requires x.sent - x.reserved == t.objs[o].sent - t.objs[o].reserved + |added| && x.sent >= t.objs[o].sent
    requires x.termAcks - x.events == t.objs[o].termAcks - t.objs[o].events && x.events >= t.objs[o].events
    ensures Inv(Tree(t.objs[o := x], t.box[o := t.box[o] + added]))
  {
    assert ObjectOk(t, o);
    assert LocalOk(t.objs[o], t.box[o]) && AcksOk(t, o);
    assert Announced(added) == |added|;
    forall c: nat ensures Bit(x.launching == Some(c)) + Count(added, Own(c)) == Bit(t.objs[o].launching == Some(c)) {
      if added != [] { CountOne(added[0], Own(c)); }
    }
    assert !Finished(x);
    LocalKeeps(t.objs[o], t.box[o], x, added);
    AppendKeeps(t, o, x, added, Tree(t.objs[o := x], t.box[o := t.box[o] + added]));
  }

  lemma LaunchOwnKeeps(t: Tree, p: nat)
    requires Inv(t) && Enabled(t, LaunchOwn(p))
    ensures Step(t, LaunchOwn(p)).Next? && Inv(Step(t, LaunchOwn(p)).t)
  {
    ReceiverIsAlive(t, p);
    var x := t.objs[p];
    var x' := x.(launching := None, sent := x.sent + 1);
    QuietAppendKeeps(t, p, x', [Own(x.launching.value)]);
    assert Step(t, LaunchOwn(p)) == Next(Tree(t.objs[p := x'], t.box[p := t.box[p] + [Own(x.launching.value)]]));
  }

  lemma EnqueueKeeps(t: Tree, o: nat)
    requires Inv(t) && Enabled(t, Enqueue(o))
    ensures Step(t, Enqueue(o)).Next? && Inv(Step(t, Enqueue(o)).t)
  {
    ReceiverIsAlive(t, o);
    var x' := t.objs[o].(reserved := t.objs[o].reserved - 1);
    QuietAppendKeeps(t, o, x', [Other]);
    assert Step(t, Enqueue(o)) == Next(Tree(t.objs[o := x'], t.box[o := t.box[o] + [Other]]));
  }

  lemma QuietChangeKeeps(t: Tree, o: nat, x: Object)
    requires Inv(t) && o < |t.objs| && t.objs[o].alive
    requires x == t.objs[o].(sent := x.sent, reserved := x.reserved, events := x.events, termAcks := x.termAcks)
    requires x.sent - x.reserved == t.objs[o].sent - t.objs[o].reserved && x.sent >= t.objs[o].sent
    requires x.termAcks - x.events == t.objs[o].termAcks - t.objs[o].events && x.events >= t.objs[o].events
    ensures Inv(Tree(t.objs[o := x], t.box))
  {
    QuietAppendKeeps(t, o, x, []);
    assert t.box[o] + [] == t.box[o];
    assert t.box[o := t.box[o] + []] == t.box;
  }

  lemma ReserveShape(t: Tree, o: nat)
    requires Enabled(t, Reserve(o))
    ensures Step(t, Reserve(o)) == Next(Tree(t.objs[o := t.objs[o].(sent := t.objs[o].sent + 1, reserved := t.objs[o].reserved + 1)], t.box))
  {
  }

  lemma RegisterShape(t: Tree, o: nat, n: nat)
    requires Enabled(t, Register(o, n))
    ensures Step(t, Register(o, n)) == Next(Tree(t.objs[o := t.objs[o].(events := t.objs[o].events + n, termAcks := t.objs[o].termAcks + n)], t.box))
  {
  }

  lemma ReserveKeeps(t: Tree, o: nat)
    requires Inv(t) && Enabled(t, Reserve(o))
    ensures Step(t, Reserve(o)).Next? && Inv(Step(t, Reserve(o)).t)
  {
    ReserveShape(t, o);
    QuietChangeKeeps(t, o, t.objs[o].(sent := t.objs[o].sent + 1, reserved := t.objs[o].reserved + 1));
  }

  lemma RegisterKeeps(t: Tree, o: nat, n: nat)
    requires Inv(t) && Enabled(t, Register(o, n))
    ensures Step(t, Register(o, n)).Next? && Inv(Step(t, Register(o, n)).t)
  {
    RegisterShape(t, o, n);
    QuietChangeKeeps(t, o, t.objs[o].(events := t.objs[o].events + n, termAcks := t.objs[o].termAcks + n));
  }

  lemma RequestKeeps(t: Tree, o: nat)
    requires Inv(t) && Enabled(t, Terminate(o)) && !t.objs[o].terminating && t.objs[o].owner.Some?
    ensures Step(t, Terminate(o)).Next? && Inv(Step(t, Terminate(o)).t)
  {
    var p := t.objs[o].owner.value;
    assert ObjectOk(t, o);
    assert OwnerAlive(t.objs, o);
    var x := t.objs[p];
    assert ObjectOk(t, p);
    CountOne(TermReq(o), Term);
    LocalKeeps(x, t.box[p], x, [TermReq(o)]);
    forall c: nat ensures Count([TermReq(o)], Own(c)) == 0 { CountOne(TermReq(o), Own(c)); }
    assert t.objs[p := x] == t.objs;
    AppendKeeps(t, p, x, [TermReq(o)], Step(t, Terminate(o)).t);
  }

  /** The root has nobody to terminate it and terminates itself. */
  lemma RootTermKeeps(t: Tree)
    requires Inv(t) && Enabled(t, Terminate(0)) && !t.objs[0].terminating
    ensures Step(t, Terminate(0)).Next? && Inv(Step(t, Terminate(0)).t)
  {
    var x, b := t.objs[0], t.box[0];
    assert ObjectOk(t, 0);
    assert [] + b == b;
    TermEffect(x, [], b);
    HandlerKeeps(t, 0, [], b, 0, ProcessTerm(Start(x)));
  }

  /** The new object joins as a child of its owner, which remembers it until it is
      reported. */
  lemma LaunchPlugKeeps(t: Tree, p: nat)
    requires Inv(t) && Enabled(t, LaunchPlug(p))
    ensures Step(t, LaunchPlug(p)).Next? && Inv(Step(t, LaunchPlug(p)).t)
  {
    var u := Step(t, LaunchPlug(p)).t;
    LaunchKeeps(t, p, u);
  }

  ghost predicate Launched(t: Tree, p: nat, u: Tree) {
    && |t.objs| == |t.box| && p < |t.objs|
    && u == Tree(t.objs[p := t.objs[p].(launching := Some(|t.objs|))] + [Object(Some(p), false, 1, 0, 0, None, {}, 0, 0, true)],
                 t.box + [[Plug]])
  }

  lemma LaunchKeeps(t: Tree, p: nat, u: Tree)
    requires Inv(t) && Launched(t, p, u) && t.objs[p].alive && t.objs[p].launching.None?
    ensures Inv(u)
  {
    LaunchKeepsAllRefs(t, p, u);
    forall i | 0 <= i < |u.objs|
      ensures PlaceOk(u, i) && AcksOk(u, i) && LocalOk(u.objs[i], u.box[i]) && OwnerAlive(u.objs, i) && RequestsOk(u.objs, u.box[i])
    {
      if i < |t.objs| {
        assert ObjectOk(t, i);
        assert PlaceOk(t, i) && AcksOk(t, i) && LocalOk(t.objs[i], t.box[i]) && OwnerAlive(t.objs, i) && RequestsOk(t.objs, t.box[i]);
        LaunchKeepsObject(t, p, u, i);
      } else {
        LaunchedOk(t, p, u);
      }
    }
  }

  lemma LaunchKeepsObject(t: Tree, p: nat, u: Tree, i: nat)
    requires RefsOk(t) && Launched(t, p, u) && t.objs[p].alive && t.objs[p].launching.None? && i < |t.objs|
    requires PlaceOk(t, i) && AcksOk(t, i) && LocalOk(t.objs[i], t.box[i]) && OwnerAlive(t.objs, i) && RequestsOk(t.objs, t.box[i])
    ensures PlaceOk(u, i) && AcksOk(u, i) && LocalOk(u.objs[i], u.box[i]) && OwnerAlive(u.objs, i) && RequestsOk(u.objs, u.box[i])
  {
    assert HoldsChildren(t.objs, t.objs[i], t.box[i], i);
    LaunchKeepsPlace(t, p, u, i);
    LaunchKeepsAcks(t, p, u, i);
    LaunchKeepsLocal(t, p, u, i);
    LaunchKeepsRequests(t, p, u, i);
  }

  lemma LaunchKeepsAllRefs(t: Tree, p: nat, u: Tree)
    requires RefsOk(t) && Launched(t, p, u)
    ensures RefsOk(u)
  {
    forall i | 0 <= i < |u.objs|
      ensures HoldsChildren(u.objs, u.objs[i], u.box[i], i)
    {
      if i < |t.objs| {
        assert HoldsChildren(t.objs, t.objs[i], t.box[i], i);
        LaunchKeepsRefs(t, p, u, i);
      } else {
        assert u.box[i] == [Plug];
      }
    }
  }

  lemma LaunchKeepsPlace(t: Tree, p: nat, u: Tree, i: nat)
    requires Launched(t, p, u) && i < |t.objs| && PlaceOk(t, i) && t.objs[p].launching.None?
    ensures PlaceOk(u, i)
  {
    assert u.box[i] == t.box[i];
    var q := t.objs[i].owner;
    assert q.Some? ==> u.box[q.value] == t.box[q.value];
  }

  lemma LaunchKeepsAcks(t: Tree, p: nat, u: Tree, i: nat)
    requires Launched(t, p, u) && i < |t.objs| && AcksOk(t, i)
    ensures AcksOk(u, i)
  {
    assert PendingOf(u, i) == PendingOf(t, i);
  }

  lemma LaunchKeepsLocal(t: Tree, p: nat, u: Tree, i: nat)
    requires Launched(t, p, u) && i < |t.objs| && LocalOk(t.objs[i], t.box[i]) && OwnerAlive(t.objs, i) && t.objs[p].alive
    ensures LocalOk(u.objs[i], u.box[i]) && OwnerAlive(u.objs, i)
  {
  }

  lemma LaunchKeepsRequests(t: Tree, p: nat, u: Tree, i: nat)
    requires Launched(t, p, u) && i < |t.objs| && RequestsOk(t.objs, t.box[i]) && HoldsChildren(t.objs, t.objs[i], t.box[i], i)
    ensures RequestsOk(u.objs, u.box[i])
  {
    assert u.box[i] == t.box[i];
    forall k | 0 <= k < |u.box[i]| && u.box[i][k].TermReq? && u.box[i][k].child < |u.objs| && !u.objs[u.box[i][k].child].alive
      ensures exists j :: k < j < |u.box[i]| && u.box[i][j].TermAck?
    {
      var c := t.box[i][k].child;
      assert t.box[i][k] in t.box[i];
      assert IsChild(t.objs, i, c);
      assert !t.objs[c].alive;
      var j :| k < j < |t.box[i]| && t.box[i][j].TermAck?;
      assert u.box[i][j].TermAck?;
    }
  }

  lemma LaunchKeepsRefs(t: Tree, p: nat, u: Tree, i: nat)
    requires Launched(t, p, u) && i < |t.objs| && HoldsChildren(t.objs, t.objs[i], t.box[i], i)
    ensures HoldsChildren(u.objs, u.objs[i], u.box[i], i)
  {
  }

  lemma LaunchedOk(t: Tree, p: nat, u: Tree)
    requires Launched(t, p, u) && t.objs[p].alive && RefsOk(t)
    ensures var n := |t.objs|;
      && PlaceOk(u, n) && AcksOk(u, n) && LocalOk(u.objs[n], u.box[n]) && OwnerAlive(u.objs, n) && RequestsOk(u.objs, u.box[n])
      && HoldsChildren(u.objs, u.objs[n], u.box[n], n)
  {
    var n := |t.objs|;
    assert u.box[n] == [Plug];
    assert HoldsChildren(t.objs, t.objs[p], t.box[p], p);
    assert n !in t.objs[p].owned && Own(n) !in t.box[p];
    CountOne(Plug, Term);
    CountOne(Plug, TermAck);
    CountOne(Plug, Plug);
    assert PendingOf(u, n) == {};
  }

  // ------------------------------------------------------------- the theorems

  lemma TerminateKeeps(t: Tree, o: nat)
    requires Inv(t) && Enabled(t, Terminate(o))
    ensures Step(t, Terminate(o)).Next? && Inv(Step(t, Terminate(o)).t)
  {
    if !t.objs[o].terminating {
      if t.objs[o].owner.Some? {
        RequestKeeps(t, o);
      } else {
        assert o == 0;
        RootTermKeeps(t);
      }
    }
  }

  lemma StepKeeps(t: Tree, a: Action)
    requires Inv(t) && Enabled(t, a)
    ensures Step(t, a).Next? && Inv(Step(t, a).t)
  {
    match a
    case LaunchPlug(p) => LaunchPlugKeeps(t, p);
    case LaunchOwn(p) => LaunchOwnKeeps(t, p);
    case Terminate(o) => TerminateKeeps(t, o);
    case TermChild(p, c) => TermChildKeeps(t, p, c);
    case Reserve(o) => ReserveKeeps(t, o);
    case Enqueue(o) => EnqueueKeeps(t, o);
    case Register(o, n) => RegisterKeeps(t, o, n);
    case Event(o) => EventKeeps(t, o);
    case Deliver(o) => DeliverKeeps(t, o);
  }

  /** Safety of every run over a tree of any size: no assertion fails, nothing is
      sent or delivered to a destroyed object, every object is asked to terminate at
      most once, and an object outlives all its children. */
  lemma {:induction false} EveryRunIsSafe(trace: seq<Action>)
    ensures Run(Init(), trace).Next? && Inv(Run(Init(), trace).t)
    decreases |trace|
  {
    if trace == [] {
      InitInv(Init());
    } else {
      EveryRunIsSafe(trace[..|trace| - 1]);
      var t, a := Run(Init(), trace[..|trace| - 1]).t, trace[|trace| - 1];
      if Enabled(t, a) {
        StepKeeps(t, a);
      }
    }
  }
}
