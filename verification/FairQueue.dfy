/** The fair queue: takes messages from its active pipes in turns. */
module FairQueueing {
  import opened Basics
  import opened Parts
  import opened PipeArrays
  import opened RoundRobin

  type Reception = (Pipe, Part)

  /** What a receive gives. */
  datatype Outcome = Nothing | Got(reception: Reception) | Aborted

  /** `inbox` is what each pipe's reader would get. */
  datatype State = State(ring: Ring, more: bool, inbox: map<Pipe, seq<Part>>)

  /** Pipes show their readers whole messages only. */
  ghost predicate Whole(q: seq<Part>) {
    q != [] ==> !q[|q| - 1].more
  }

  /** What holds whatever the pipes do. */
  ghost predicate Sound(s: State) {
    && Good(s.ring)
    && (forall i :: 0 <= i < |s.ring.items| ==> s.ring.items[i] in s.inbox && Whole(s.inbox[s.ring.items[i]]))
  }

  /** In the middle of a message the rest of it can be read. */
  ghost predicate GoodState(s: State) {
    && Sound(s)
    && (s.more ==> s.ring.current < s.ring.active && s.inbox[s.ring.items[s.ring.current]] != [])
  }

  const START := State(Ring([], 0, 0), false, map[])

  /** One part from the pipe whose turn it is. */
  function Take(s: State): (State, Reception)
    requires s.ring.current < s.ring.active <= |s.ring.items|
    requires s.ring.items[s.ring.current] in s.inbox && s.inbox[s.ring.items[s.ring.current]] != []
  {
    var p := s.ring.items[s.ring.current];
    var part := s.inbox[p][0];
    (State(if part.more then s.ring else Advance(s.ring), part.more, s.inbox[p := s.inbox[p][1..]]), (p, part))
  }

  /** The assertion says that in the middle of a message the rest of it is there. */
  ghost function Recv(s: State): (State, Outcome)
    requires Sound(s)
    decreases s.ring.active
  {
    if s.ring.active == 0 then (s, Nothing)
    else if s.inbox[s.ring.items[s.ring.current]] != [] then (Take(s).0, Got(Take(s).1))
    else if s.more then (s, Aborted)
    else DropKeepsSound(s); Recv(s.(ring := Drop(s.ring)))
  }

  ghost function CheckIn(s: State): (State, bool)
    requires Sound(s)
    decreases s.ring.active
  {
    if s.more then (s, true)
    else if s.ring.active == 0 then (s, false)
    else if s.inbox[s.ring.items[s.ring.current]] != [] then (s, true)
    else DropKeepsSound(s); CheckIn(s.(ring := Drop(s.ring)))
  }

  lemma DropKeepsSound(s: State)
    requires Sound(s) && s.ring.active > 0
    ensures Sound(s.(ring := Drop(s.ring)))
  {
    SwapPermutes(s.ring.items, s.ring.current, s.ring.active - 1);
  }

  /** Dropping the current pipe never interrupts a message: the rest of it is always there. */
  lemma DropKeepsGood(s: State)
    requires GoodState(s) && s.ring.active > 0 && s.inbox[s.ring.items[s.ring.current]] == []
    ensures !s.more && GoodState(s.(ring := Drop(s.ring)))
  {
    DropKeepsSound(s);
  }

  lemma TakeKeepsGood(s: State)
    requires Sound(s) && s.ring.active > 0 && s.inbox[s.ring.items[s.ring.current]] != []
    ensures GoodState(Take(s).0)
  {
    NextPlace(s.ring.current, s.ring.active);
  }

  /** An active pipe with a message is not starved by a call: the call delivers something,
      and unless it is from this pipe, the pipe is as near to its turn as before, or one
      nearer when a message was finished. */
  lemma {:induction false} RecvServes(s: State, q: Pipe)
    requires GoodState(s) && IsActive(s.ring, q) && s.inbox[q] != []
    ensures var (t, r) := Recv(s);
            && GoodState(t) && r.Got?
            && (r.reception.0 != q ==>
                  && IsActive(t.ring, q) && t.inbox[q] == s.inbox[q]
                  && Rank(t.ring, q) + (if r.reception.1.more then 0 else 1) <= Rank(s.ring, q))
    decreases s.ring.active
  {
    if s.inbox[s.ring.items[s.ring.current]] != [] {
      TakeKeepsGood(s);
      if s.ring.items[s.ring.current] != q && !Take(s).1.1.more {
        AdvanceRanks(s.ring, q);
      }
    } else {
      DropKeepsGood(s);
      DropRanks(s.ring, q);
      RecvServes(s.(ring := Drop(s.ring)), q);
    }
  }

  lemma {:induction false} HasInKeepsWaiting(s: State, q: Pipe)
    requires GoodState(s) && IsActive(s.ring, q) && s.inbox[q] != []
    ensures var (t, ok) := CheckIn(s);
            && GoodState(t) && ok && t.inbox == s.inbox
            && IsActive(t.ring, q) && Rank(t.ring, q) <= Rank(s.ring, q)
    decreases s.ring.active
  {
    if s.more || s.inbox[s.ring.items[s.ring.current]] != [] {
    } else {
      DropKeepsGood(s);
      DropRanks(s.ring, q);
      HasInKeepsWaiting(s.(ring := Drop(s.ring)), q);
    }
  }

  /** Some active pipe has something to read. */
  ghost predicate Readable(s: State)
    requires GoodState(s)
  {
    exists i :: 0 <= i < s.ring.active && s.inbox[s.ring.items[i]] != []
  }

  lemma DropKeepsReadable(s: State)
    requires GoodState(s) && s.ring.active > 0 && s.inbox[s.ring.items[s.ring.current]] == []
    requires GoodState(s.(ring := Drop(s.ring)))
    ensures Readable(s.(ring := Drop(s.ring))) <==> Readable(s)
  {
    var t, c, last := s.(ring := Drop(s.ring)), s.ring.current, s.ring.active - 1;
    if i :| 0 <= i < s.ring.active && s.inbox[s.ring.items[i]] != [] {
      assert t.ring.items[if i == last then c else i] == s.ring.items[i];
    }
    if i :| 0 <= i < t.ring.active && t.inbox[t.ring.items[i]] != [] {
      assert s.ring.items[if i == c then last else i] == t.ring.items[i];
    }
  }

  /** A call delivers, and a poll reports, something exactly when some active pipe has it. */
  lemma {:induction false} NothingIsOverlooked(s: State)
    requires GoodState(s)
    ensures Recv(s).1.Got? <==> Readable(s)
    ensures Recv(s).1.Nothing? <==> !Readable(s)
    ensures CheckIn(s).1 <==> Readable(s)
    decreases s.ring.active
  {
    if s.ring.active == 0 || s.inbox[s.ring.items[s.ring.current]] != [] {
    } else {
      DropKeepsGood(s);
      DropKeepsReadable(s);
      NothingIsOverlooked(s.(ring := Drop(s.ring)));
    }
  }

  /** What a pipe's leaving does; `more` is not touched. */
  function Terminate(s: State, i: nat): State
    requires i < |s.ring.items| && s.ring.active <= |s.ring.items|
  {
    s.(ring := Leave(s.ring, i), inbox := s.inbox - {s.ring.items[i]})
  }

  lemma TerminateKeepsSound(s: State, i: nat)
    requires Sound(s) && i < |s.ring.items|
    ensures Sound(Terminate(s, i))
    ensures forall k :: 0 <= k < |s.ring.items| - 1 ==>
              var p := Terminate(s, i).ring.items[k];
              p == s.ring.items[Came(s.ring, i, k)] && p != s.ring.items[i] && Terminate(s, i).inbox[p] == s.inbox[p]
  {
    Left(s.ring, i);
    var t := Terminate(s, i);
    forall k | 0 <= k < |t.ring.items|
      ensures t.ring.items[k] in t.inbox && t.ring.items[k] == s.ring.items[Came(s.ring, i, k)] != s.ring.items[i]
    {
      assert Came(s.ring, i, k) != i;
    }
  }

  /** In the middle of a message the pipe it comes from stays, and is not in the last active
      place while a pipe before it, other than the first, leaves. */
  ghost predicate TurnStays(s: State, i: nat) {
    s.more ==> i != s.ring.current && !(0 < i < s.ring.active && s.ring.current == s.ring.active - 1)
  }

  lemma TerminateKeepsGood(s: State, i: nat)
    requires GoodState(s) && i < |s.ring.items| && TurnStays(s, i)
    ensures GoodState(Terminate(s, i)) && Pending(Terminate(s, i)) == Pending(s)
  {
    TerminateKeepsSound(s, i);
    if s.more {
      TurnAfterLeave(s.ring, i);
      assert Terminate(s, i).ring.current < |s.ring.items| - 1;
    }
  }

  /** `Ended` says that nothing more can be read from a pipe, as its user terminates it, though it
      is still there. */
  datatype Event =
    | Receive
    | Poll
    | Arrive(p: Pipe, parts: seq<Part>)
    | Attach(p: Pipe, parts: seq<Part>)
    | Activate(p: Pipe)
    | Terminated(p: Pipe)
    | Ended(p: Pipe)

  /** What can happen. */
  ghost predicate Possible(s: State, e: Event) {
    match e
    case Receive => true
    case Poll => true
    case Arrive(p, parts) => p in s.ring.items && parts != [] && Whole(parts)
    case Attach(p, parts) => p !in s.ring.items && Whole(parts)
    case Activate(p) => p in s.ring.items && !IsActive(s.ring, p)
    case Terminated(p) => p in s.ring.items
    case Ended(p) => p in s.ring.items
  }

  /** The event leaves the message being received alone. */
  ghost predicate Harmless(s: State, e: Event) {
    match e
    case Terminated(p) => p in s.ring.items ==> TurnStays(s, Place(s.ring.items, p))
    case Ended(p) => s.more && s.ring.current < |s.ring.items| ==> p != s.ring.items[s.ring.current]
    case _ => true
  }

  ghost predicate Legal(s: State, e: Event) {
    Possible(s, e) && Harmless(s, e)
  }

  ghost function Step(s: State, e: Event): (State, seq<Reception>)
    requires Sound(s) && Possible(s, e)
  {
    match e
    case Receive => var (t, r) := Recv(s); (t, if r.Got? then [r.reception] else [])
    case Poll => (CheckIn(s).0, [])
    case Arrive(p, parts) => (s.(inbox := s.inbox[p := s.inbox[p] + parts]), [])
    case Attach(p, parts) => (s.(ring := Enter(s.ring, p), inbox := s.inbox[p := parts]), [])
    case Activate(p) => (s.(ring := Join(s.ring, Place(s.ring.items, p))), [])
    case Terminated(p) => (Terminate(s, Place(s.ring.items, p)), [])
    case Ended(p) => (s.(inbox := s.inbox[p := []]), [])
  }

  lemma {:induction false} RecvKeepsGood(s: State)
    requires GoodState(s)
    ensures GoodState(Recv(s).0)
    ensures !Recv(s).1.Aborted?
    ensures Recv(s).1.Got? ==>
              && Recv(s).0.more == Recv(s).1.reception.1.more
              && (Recv(s).0.more ==> Recv(s).0.ring.items[Recv(s).0.ring.current] == Recv(s).1.reception.0)
    ensures s.more ==> Recv(s).1.Got? && Recv(s).1.reception.0 == s.ring.items[s.ring.current]
    ensures Recv(s).1.Nothing? ==> !Recv(s).0.more
    decreases s.ring.active
  {
    if s.ring.active == 0 {
    } else if s.inbox[s.ring.items[s.ring.current]] != [] {
      TakeKeepsGood(s);
    } else {
      DropKeepsGood(s);
      RecvKeepsGood(s.(ring := Drop(s.ring)));
    }
  }

  lemma {:induction false} HasInKeepsGood(s: State)
    requires GoodState(s)
    ensures GoodState(CheckIn(s).0) && CheckIn(s).0.more == s.more && CheckIn(s).0.inbox == s.inbox
    ensures s.more ==> CheckIn(s).0 == s
    decreases s.ring.active
  {
    if s.more || s.ring.active == 0 || s.inbox[s.ring.items[s.ring.current]] != [] {
    } else {
      DropKeepsGood(s);
      HasInKeepsGood(s.(ring := Drop(s.ring)));
    }
  }

  /** A new active pipe changes nothing for the message being received. */
  lemma JoinKeepsGood(s: State, i: nat)
    requires Sound(s) && s.ring.active <= i < |s.ring.items|
    ensures Sound(s.(ring := Join(s.ring, i))) && (GoodState(s) ==> GoodState(s.(ring := Join(s.ring, i))))
    ensures Join(s.ring, i).items[s.ring.current] == if s.ring.active > 0 then s.ring.items[s.ring.current] else s.ring.items[i]
  {
    SwapPermutes(s.ring.items, i, s.ring.active);
  }

  lemma EnterKeepsGood(s: State, p: Pipe, parts: seq<Part>)
    requires Sound(s) && p !in s.ring.items && Whole(parts)
    ensures var t := s.(ring := Enter(s.ring, p), inbox := s.inbox[p := parts]);
            Sound(t) && (GoodState(s) ==> GoodState(t))
    ensures Enter(s.ring, p).items[s.ring.current] == if s.ring.active > 0 then s.ring.items[s.ring.current] else p
  {
    var t := s.(ring := s.ring.(items := s.ring.items + [p]), inbox := s.inbox[p := parts]);
    assert Sound(t) && (GoodState(s) ==> GoodState(t));
    JoinKeepsGood(t, |s.ring.items|);
  }

  lemma PassiveIsBehind(s: State, p: Pipe)
    requires Sound(s) && p in s.ring.items && !IsActive(s.ring, p)
    ensures Place(s.ring.items, p) >= s.ring.active
  {}

  lemma StepKeepsGood(s: State, e: Event)
    requires GoodState(s) && Legal(s, e)
    ensures GoodState(Step(s, e).0)
  {
    match e
    case Receive => RecvKeepsGood(s);
    case Poll => HasInKeepsGood(s);
    case Arrive(p, parts) =>
      assert Whole(s.inbox[p] + parts);
    case Attach(p, parts) => EnterKeepsGood(s, p, parts);
    case Activate(p) => PassiveIsBehind(s, p); JoinKeepsGood(s, Place(s.ring.items, p));
    case Terminated(p) => TerminateKeepsGood(s, Place(s.ring.items, p));
    case Ended(p) =>
  }

  ghost predicate LegalRun(s: State, es: seq<Event>)
    requires GoodState(s)
    decreases |es|
  {
    es != [] ==> Legal(s, es[0]) && (StepKeepsGood(s, es[0]); LegalRun(Step(s, es[0]).0, es[1..]))
  }

  ghost function Run(s: State, es: seq<Event>): (State, seq<Reception>)
    requires GoodState(s) && LegalRun(s, es)
    decreases |es|
  {
    if es == [] then (s, [])
    else
      StepKeepsGood(s, es[0]);
      var (t, l) := Step(s, es[0]);
      var (u, m) := Run(t, es[1..]);
      (u, l + m)
  }

  /** The parts of a message come one after the other, from one pipe. */
  ghost predicate Unbroken(log: seq<Reception>) {
    forall i :: 0 <= i < |log| - 1 && log[i].1.more ==> log[i + 1].0 == log[i].0
  }

  ghost function Pending(s: State): Option<Pipe>
    requires GoodState(s)
  {
    if s.more then Some(s.ring.items[s.ring.current]) else None
  }

  /** Whatever else happens, a message is received whole before the next one begins. */
  lemma {:induction false} MessagesAreUnbroken(s: State, es: seq<Event>)
    requires GoodState(s) && LegalRun(s, es)
    ensures var (t, log) := Run(s, es);
            && Unbroken(log)
            && (Pending(s).Some? && log != [] ==> log[0].0 == Pending(s).value)
    decreases |es|
  {
    if es == [] {
    } else {
      StepKeepsGood(s, es[0]);
      var (t, l) := Step(s, es[0]);
      StepKeepsPending(s, es[0]);
      MessagesAreUnbroken(t, es[1..]);
    }
  }

  lemma StepKeepsPending(s: State, e: Event)
    requires GoodState(s) && Legal(s, e)
    ensures var (t, l) := Step(s, e);
            && GoodState(t) && |l| <= 1
            && (l == [] ==> Pending(t) == Pending(s) || (Pending(s).None? && Pending(t).None?))
            && (l != [] ==> (Pending(s).Some? ==> l[0].0 == Pending(s).value)
                            && Pending(t) == (if l[0].1.more then Some(l[0].0) else None))
  {
    StepKeepsGood(s, e);
    match e
    case Receive => RecvKeepsGood(s);
    case Poll => HasInKeepsGood(s);
    case Arrive(p, parts) =>
    case Attach(p, parts) => EnterKeepsGood(s, p, parts);
    case Activate(p) => PassiveIsBehind(s, p); JoinKeepsGood(s, Place(s.ring.items, p));
    case Terminated(p) => TerminateKeepsGood(s, Place(s.ring.items, p));
    case Ended(p) =>
  }

  /** How much later the turn of a pipe can come: one turn for each pipe that joins, and for each
      that leaves and puts it back, as many turns as were put before it. */
  ghost function Delay(s: State, e: Event, q: Pipe): nat
    requires GoodState(s) && Legal(s, e)
  {
    match e
    case Attach(_, _) => 1
    case Activate(_) => 1
    case Terminated(p) =>
      if PutsBack(s.ring, Place(s.ring.items, p), q) then Place(s.ring.items, p) else 0
    case _ => 0
  }

  ghost function Delays(s: State, es: seq<Event>, q: Pipe): nat
    requires GoodState(s) && LegalRun(s, es)
    decreases |es|
  {
    if es == [] then 0
    else StepKeepsGood(s, es[0]); Delay(s, es[0], q) + Delays(Step(s, es[0]).0, es[1..], q)
  }

  /** Bounded waiting: while a pipe with a message stays and has not been served, the others
      finish no more messages than there were pipes before it and were put before it since. */
  lemma {:induction false} BoundedWaiting(s: State, es: seq<Event>, q: Pipe)
    requires GoodState(s) && LegalRun(s, es) && IsActive(s.ring, q) && s.inbox[q] != []
    requires Terminated(q) !in es && Ended(q) !in es
    requires forall r :: r in Run(s, es).1 ==> r.0 != q
    ensures Finished(Run(s, es).1) <= Rank(s.ring, q) + Delays(s, es, q)
    decreases |es|
  {
    if es == [] {
    } else {
      StepKeepsGood(s, es[0]);
      var (t, l) := Step(s, es[0]);
      var (u, m) := Run(t, es[1..]);
      assert forall r :: r in l ==> r in l + m;
      assert forall r :: r in m ==> r in l + m;
      StepKeepsWaiting(s, es[0], q);
      BoundedWaiting(t, es[1..], q);
      FinishedAppend(l, m);
    }
  }

  /** A pipe that is activated or attached has its turn after those that were active before, whose
      places stay. */
  lemma ComingIn(s: State, e: Event)
    requires Sound(s) && Possible(s, e) && (e.Activate? || e.Attach?)
    ensures var t := Step(s, e).0;
            && Sound(t) && IsActive(t.ring, e.p) && Actives(t.ring) == Actives(s.ring) + {e.p}
            && t.ring.active == s.ring.active + 1 && t.ring.current == s.ring.current
            && t.ring.items[..s.ring.active] == s.ring.items[..s.ring.active] && t.ring.items[s.ring.active] == e.p
  {
    if e.Attach? {
      EnterKeepsGood(s, e.p, e.parts);
      EnterActives(s.ring, e.p);
    } else {
      PassiveIsBehind(s, e.p);
      JoinKeepsGood(s, Place(s.ring.items, e.p));
      JoinActives(s.ring, Place(s.ring.items, e.p));
    }
    ActivesAreActive(Step(s, e).0.ring, e.p);
  }

  /** From then on, if it has a message, it is served after the others finished at most as many as
      there were active pipes, and as were put before it since. */
  lemma ServedAfterComingIn(s: State, e: Event, es: seq<Event>)
    requires GoodState(s) && Legal(s, e) && (e.Activate? || e.Attach?)
    requires GoodState(Step(s, e).0) ==> LegalRun(Step(s, e).0, es)
    requires e.p in Step(s, e).0.inbox && Step(s, e).0.inbox[e.p] != [] && Terminated(e.p) !in es && Ended(e.p) !in es
    requires GoodState(Step(s, e).0) && LegalRun(Step(s, e).0, es) ==> forall r :: r in Run(Step(s, e).0, es).1 ==> r.0 != e.p
    ensures GoodState(Step(s, e).0)
    ensures Finished(Run(Step(s, e).0, es).1) <= s.ring.active + Delays(Step(s, e).0, es, e.p)
  {
    StepKeepsGood(s, e);
    ComingIn(s, e);
    BoundedWaiting(Step(s, e).0, es, e.p);
  }

  lemma StepKeepsWaiting(s: State, e: Event, q: Pipe)
    requires GoodState(s) && Legal(s, e) && IsActive(s.ring, q) && s.inbox[q] != [] && e != Terminated(q) && e != Ended(q)
    requires forall r :: r in Step(s, e).1 ==> r.0 != q
    ensures var (t, l) := Step(s, e);
            && GoodState(t) && IsActive(t.ring, q) && t.inbox[q] != []
            && Rank(t.ring, q) + Finished(l) <= Rank(s.ring, q) + Delay(s, e, q)
  {
    StepKeepsGood(s, e);
    match e
    case Receive =>
      RecvServes(s, q);
      assert Recv(s).1.reception in Step(s, e).1;
      assert Finished([Recv(s).1.reception]) == if Recv(s).1.reception.1.more then 0 else 1 by {
        assert [Recv(s).1.reception][1..] == [];
      }
    case Poll => HasInKeepsWaiting(s, q);
    case Arrive(p, parts) =>
    case Attach(p, parts) => EnterRanks(s.ring, q, p);
    case Activate(p) => PassiveIsBehind(s, p); JoinRanks(s.ring, q, Place(s.ring.items, p));
    case Terminated(p) => LeaveRanks(s.ring, Place(s.ring.items, p), q);
    case Ended(p) =>
  }

  function From(log: seq<Reception>, p: Pipe): seq<Part> {
    if log == [] then [] else (if log[0].0 == p then [log[0].1] else []) + From(log[1..], p)
  }

  lemma {:induction false} FromAppend(a: seq<Reception>, b: seq<Reception>, p: Pipe)
    ensures From(a + b, p) == From(a, p) + From(b, p)
    decreases |a|
  {
    if a == [] {
      assert a + b == b;
    } else {
      assert (a + b)[1..] == a[1..] + b && (a + b)[0] == a[0];
      FromAppend(a[1..], b, p);
      Regroup(if a[0].0 == p then [a[0].1] else [], From(a[1..], p), From(b, p));
    }
  }

  ghost function Arrivals(es: seq<Event>, p: Pipe): seq<Part> {
    if es == [] then []
    else (if (es[0].Arrive? || es[0].Attach?) && es[0].p == p then es[0].parts else []) + Arrivals(es[1..], p)
  }

  /** Nothing is lost, repeated or reordered while a pipe stays: what was received from a pipe and what is
      still there are together what was there and what arrived. */
  lemma {:induction false} NothingIsLost(s: State, es: seq<Event>, p: Pipe)
    requires GoodState(s) && LegalRun(s, es) && p in s.ring.items
    requires Terminated(p) !in es && Ended(p) !in es
    ensures var (t, log) := Run(s, es);
            p in t.inbox && From(log, p) + t.inbox[p] == s.inbox[p] + Arrivals(es, p)
    decreases |es|
  {
    if es == [] {
    } else {
      StepKeepsGood(s, es[0]);
      var (t, l) := Step(s, es[0]);
      var (u, m) := Run(t, es[1..]);
      StepLosesNothing(s, es[0], p);
      NothingIsLost(t, es[1..], p);
      FromAppend(l, m, p);
      var now := if (es[0].Arrive? || es[0].Attach?) && es[0].p == p then es[0].parts else [];
      assert Arrivals([es[0]], p) == now by {
        assert [es[0]][1..] == [];
        assert now + [] == now;
      }
      Regroup(From(l, p), From(m, p), u.inbox[p]);
      Regroup(From(l, p), t.inbox[p], Arrivals(es[1..], p));
      Regroup(s.inbox[p], now, Arrivals(es[1..], p));
    }
  }

  lemma {:induction false} RecvLosesNothing(s: State, p: Pipe)
    requires GoodState(s) && p in s.ring.items
    ensures var (t, r) := Recv(s);
            && p in t.ring.items && p in t.inbox
            && (if r.Got? && r.reception.0 == p then [r.reception.1] else []) + t.inbox[p] == s.inbox[p]
    decreases s.ring.active
  {
    if s.ring.active == 0 || s.inbox[s.ring.items[s.ring.current]] != [] {
    } else {
      DropKeepsGood(s);
      DropKeepsPipes(s.ring, p);
      RecvLosesNothing(s.(ring := Drop(s.ring)), p);
    }
  }

  lemma DropKeepsPipes(r: Ring, p: Pipe)
    requires Good(r) && r.active > 0 && p in r.items
    ensures p in Drop(r).items
  {
    SwapPermutes(r.items, r.current, r.active - 1);
    InAll(r.items, p);
    InAll(Drop(r).items, p);
  }

  lemma {:induction false} HasInKeepsPipes(s: State, p: Pipe)
    requires GoodState(s) && p in s.ring.items
    ensures p in CheckIn(s).0.ring.items
    decreases s.ring.active
  {
    if s.more || s.ring.active == 0 || s.inbox[s.ring.items[s.ring.current]] != [] {
    } else {
      DropKeepsGood(s);
      DropKeepsPipes(s.ring, p);
      HasInKeepsPipes(s.(ring := Drop(s.ring)), p);
    }
  }

  lemma JoinKeepsAll(r: Ring, i: nat)
    requires Good(r) && r.active <= i < |r.items|
    ensures forall q :: q in Join(r, i).items <==> q in r.items
  {
    SwapPermutes(r.items, i, r.active);
    forall q ensures q in Join(r, i).items <==> q in r.items {
      InAll(r.items, q);
      InAll(Join(r, i).items, q);
    }
  }

  lemma EnterKeepsPipes(r: Ring, p: Pipe)
    requires Good(r) && p !in r.items
    ensures forall q :: q in Enter(r, p).items <==> q in r.items || q == p
  {
    var s := r.(items := r.items + [p]);
    assert Good(s);
    JoinKeepsAll(s, |r.items|);
  }

  lemma {:induction false} StepLosesNothing(s: State, e: Event, p: Pipe)
    requires GoodState(s) && Legal(s, e) && p in s.ring.items && e != Terminated(p) && e != Ended(p)
    ensures var (t, l) := Step(s, e);
            && p in t.ring.items && p in t.inbox
            && From(l, p) + t.inbox[p] == s.inbox[p] + Arrivals([e], p)
  {
    match e
    case Receive =>
      RecvLosesNothing(s, p);
      var r := Recv(s).1;
      if r.Got? {
        assert From([r.reception], p) == if r.reception.0 == p then [r.reception.1] else [];
      }
    case Poll => HasInKeepsGood(s); HasInKeepsPipes(s, p);
    case Arrive(_, parts) =>
    case Attach(n, parts) => EnterKeepsPipes(s.ring, n);
    case Activate(n) => PassiveIsBehind(s, n); JoinKeepsAll(s.ring, Place(s.ring.items, n));
    case Terminated(n) => OthersStay(s.ring, Place(s.ring.items, n), p);
    case Ended(_) =>
  }

  // ------------------------------------------- when a message being received breaks off

  /** The pipe the next part would be read from. */
  ghost function Turn(s: State): Option<Pipe>
    requires Sound(s)
  {
    if s.ring.active > 0 then Some(s.ring.items[s.ring.current]) else None
  }

  /** What there is to read from a pipe. */
  ghost function Held(s: State, p: Pipe): seq<Part> {
    if p in s.ring.items && p in s.inbox then s.inbox[p] else []
  }

  /** The message goes on after a pipe left exactly when its turn stays. */
  lemma MessageSurvivesLeaving(s: State, i: nat)
    requires GoodState(s) && s.more && i < |s.ring.items|
    ensures Sound(Terminate(s, i)) && Terminate(s, i).more
    ensures Turn(Terminate(s, i)) == Pending(s) <==> TurnStays(s, i)
  {
    TerminateKeepsSound(s, i);
    var t := Terminate(s, i);
    if i != s.ring.current {
      TurnAfterLeave(s.ring, i);
    } else if t.ring.active > 0 {
      assert t.ring.items[t.ring.current] != s.ring.items[i];
    }
  }

  /** The place the turn moves to when it does not stay: the last active one, if the pipe whose
      turn it is leaves from another, and the first one otherwise. */
  function Heir(s: State, i: nat): nat {
    if i == s.ring.current && i + 1 < s.ring.active then s.ring.active - 1 else 0
  }

  lemma TurnMoves(s: State, i: nat)
    requires GoodState(s) && s.more && i < |s.ring.items| && !TurnStays(s, i)
    ensures Sound(Terminate(s, i)) && Heir(s, i) < |s.ring.items|
    ensures Turn(Terminate(s, i)) == if s.ring.active > 1 then Some(s.ring.items[Heir(s, i)]) else None
    ensures s.ring.active > 1 ==> Heir(s, i) != i
  {
    TerminateKeepsSound(s, i);
    var t := Terminate(s, i);
    if s.ring.active > 1 {
      assert Came(s.ring, i, t.ring.current) == Heir(s, i);
      assert t.ring.current < |s.ring.items| - 1;
    }
  }

  /** An event ends the message being received: what the turn moves to, and what there is to read. */
  ghost function After(s: State, e: Event): Option<Pipe>
    requires e.Terminated? || e.Ended?
  {
    if e.Ended? then Some(e.p)
    else if s.ring.active > 1 && e.p in s.ring.items && Heir(s, Place(s.ring.items, e.p)) < |s.ring.items| then
      Some(s.ring.items[Heir(s, Place(s.ring.items, e.p))])
    else None
  }

  lemma HarmMovesTheTurn(s: State, e: Event)
    requires GoodState(s) && s.more && Possible(s, e) && !Harmless(s, e)
    ensures Sound(Step(s, e).0) && Step(s, e).0.more
    ensures Turn(Step(s, e).0) == After(s, e)
    ensures forall q :: Held(Step(s, e).0, q) == if q == e.p then [] else Held(s, q)
  {
    if e.Terminated? {
      var i := Place(s.ring.items, e.p);
      TurnMoves(s, i);
      HeldAfterLeaving(s, i);
    }
  }

  lemma HeldAfterLeaving(s: State, i: nat)
    requires Sound(s) && i < |s.ring.items|
    ensures forall q :: Held(Terminate(s, i), q) == if q == s.ring.items[i] then [] else Held(s, q)
  {
    TerminateKeepsSound(s, i);
    var t := Terminate(s, i);
    forall q ensures Held(t, q) == if q == s.ring.items[i] then [] else Held(s, q) {
      if q in s.ring.items && q != s.ring.items[i] {
        OthersStay(s.ring, i, q);
      }
    }
  }

  /** Whatever comes between two receives, other than more leaving. */
  predicate Quiet(e: Event) {
    e.Poll? || e.Arrive? || e.Attach? || e.Activate?
  }

  ghost predicate QuietRun(s: State, es: seq<Event>)
    requires Sound(s)
    decreases |es|
  {
    es != [] ==> Quiet(es[0]) && Possible(s, es[0]) && (QuietKeepsSound(s, es[0]); QuietRun(Step(s, es[0]).0, es[1..]))
  }

  ghost function Waited(s: State, es: seq<Event>): State
    requires Sound(s) && QuietRun(s, es)
    decreases |es|
  {
    if es == [] then s else QuietKeepsSound(s, es[0]); Waited(Step(s, es[0]).0, es[1..])
  }

  lemma {:induction false} CheckInKeepsSound(s: State)
    requires Sound(s)
    ensures Sound(CheckIn(s).0)
    decreases s.ring.active
  {
    if s.more || s.ring.active == 0 || s.inbox[s.ring.items[s.ring.current]] != [] {
    } else {
      DropKeepsSound(s);
      CheckInKeepsSound(s.(ring := Drop(s.ring)));
    }
  }

  lemma QuietKeepsSound(s: State, e: Event)
    requires Sound(s) && Quiet(e) && Possible(s, e)
    ensures Sound(Step(s, e).0)
  {
    match e
    case Poll => CheckInKeepsSound(s);
    case Arrive(p, parts) => assert Whole(s.inbox[p] + parts);
    case Attach(p, parts) => EnterKeepsGood(s, p, parts);
    case Activate(p) => PassiveIsBehind(s, p); JoinKeepsGood(s, Place(s.ring.items, p));
  }

  /** The first pipe that comes in. */
  function FirstIn(es: seq<Event>): Option<Pipe> {
    if es == [] then None
    else if es[0].Attach? || es[0].Activate? then Some(es[0].p)
    else FirstIn(es[1..])
  }

  function OrElse<T>(a: Option<T>, b: Option<T>): Option<T> {
    if a.Some? then a else b
  }

  lemma QuietStep(s: State, e: Event)
    requires Sound(s) && s.more && Quiet(e) && Possible(s, e)
    ensures Sound(Step(s, e).0) && Step(s, e).0.more
    ensures Turn(Step(s, e).0) == OrElse(Turn(s), if e.Attach? || e.Activate? then Some(e.p) else None)
    ensures forall q :: Held(Step(s, e).0, q) == Held(s, q) + (if (e.Arrive? || e.Attach?) && e.p == q then e.parts else [])
  {
    QuietKeepsSound(s, e);
    match e
    case Poll =>
    case Arrive(p, parts) =>
    case Attach(p, parts) => AttachStep(s, p, parts);
    case Activate(p) => ActivateStep(s, p);
  }

  lemma AttachStep(s: State, p: Pipe, parts: seq<Part>)
    requires Sound(s) && p !in s.ring.items && Whole(parts)
    ensures var t := s.(ring := Enter(s.ring, p), inbox := s.inbox[p := parts]);
            && Sound(t) && Turn(t) == OrElse(Turn(s), Some(p))
            && forall q :: Held(t, q) == if q == p then parts else Held(s, q)
  {
    EnterKeepsGood(s, p, parts);
    EnterKeepsPipes(s.ring, p);
  }

  lemma ActivateStep(s: State, p: Pipe)
    requires Sound(s) && p in s.ring.items && !IsActive(s.ring, p)
    ensures Place(s.ring.items, p) >= s.ring.active
    ensures var t := s.(ring := Join(s.ring, Place(s.ring.items, p)));
            && Sound(t) && Turn(t) == OrElse(Turn(s), Some(p))
            && forall q :: Held(t, q) == Held(s, q)
  {
    PassiveIsBehind(s, p);
    JoinKeepsGood(s, Place(s.ring.items, p));
    JoinKeepsAll(s.ring, Place(s.ring.items, p));
  }

  lemma {:induction false} WaitingMoves(s: State, es: seq<Event>)
    requires Sound(s) && s.more && QuietRun(s, es)
    ensures Sound(Waited(s, es)) && Waited(s, es).more
    ensures Turn(Waited(s, es)) == OrElse(Turn(s), FirstIn(es))
    ensures forall q :: Held(Waited(s, es), q) == Held(s, q) + Arrivals(es, q)
    decreases |es|
  {
    if es == [] {
    } else {
      var t := Step(s, es[0]).0;
      QuietStep(s, es[0]);
      WaitingMoves(t, es[1..]);
      forall q ensures Held(Waited(s, es), q) == Held(s, q) + Arrivals(es, q) {
        Regroup(Held(s, q), if (es[0].Arrive? || es[0].Attach?) && es[0].p == q then es[0].parts else [], Arrivals(es[1..], q));
      }
    }
  }

  /** The next receive in the middle of a message. */
  lemma ReceiveNow(s: State)
    requires Sound(s) && s.more
    ensures Recv(s).1 == match Turn(s)
                         case None => Nothing
                         case Some(q) => if Held(s, q) == [] then Aborted else Got((q, Held(s, q)[0]))
    ensures Recv(s).1.Got? ==> GoodState(Recv(s).0)
  {
    if s.ring.active > 0 && s.inbox[s.ring.items[s.ring.current]] != [] {
      TakeKeepsGood(s);
    }
  }

  /** What the receive after a harmful event gives, whatever pipes came in and whatever arrived in
      between: the assertion fails exactly when there is nothing from the pipe the turn moved to,
      or, if none was left, from the first one that came in.  Otherwise that pipe's part is taken
      for the rest of the message, and all is well again. */
  lemma ReceiveAfterHarm(s: State, e: Event, es: seq<Event>)
    requires GoodState(s) && s.more && Possible(s, e) && !Harmless(s, e)
    requires Sound(Step(s, e).0) ==> QuietRun(Step(s, e).0, es)
    ensures Sound(Step(s, e).0) && Sound(Waited(Step(s, e).0, es))
    ensures var r := Recv(Waited(Step(s, e).0, es));
            && r.1 == (match OrElse(After(s, e), FirstIn(es))
                       case None => Nothing
                       case Some(q) =>
                         var parts := (if q == e.p then [] else Held(s, q)) + Arrivals(es, q);
                         if parts == [] then Aborted else Got((q, parts[0])))
            && (r.1.Got? ==> GoodState(r.0))
  {
    HarmMovesTheTurn(s, e);
    WaitingMoves(Step(s, e).0, es);
    ReceiveNow(Waited(Step(s, e).0, es));
  }

  /** A receive that comes right after a pipe left aborts exactly when the turn moved to a pipe
      with nothing to read. */
  lemma LeavingCanAbort(s: State, i: nat)
    requires GoodState(s) && s.more && i < |s.ring.items|
    ensures Sound(Terminate(s, i))
    ensures Recv(Terminate(s, i)).1.Aborted?
            <==> !TurnStays(s, i) && s.ring.active > 1 && s.inbox[s.ring.items[Heir(s, i)]] == []
  {
    if TurnStays(s, i) {
      TerminateKeepsGood(s, i);
      RecvKeepsGood(Terminate(s, i));
    } else {
      TurnMoves(s, i);
      HeldAfterLeaving(s, i);
      ReceiveNow(Terminate(s, i));
    }
  }

  /** The queue itself, on the array of pipes. */
  class FairQueue {
    const pipes: PipeArray
    var active: nat
    var current: nat
    var more: bool
    var inbox: map<Pipe, seq<Part>>

    ghost function View(): State
      reads this, pipes
    {
      State(Ring(pipes.items, active, current), more, inbox)
    }

    ghost predicate Valid()
      reads this, pipes
    {
      pipes.Valid() && Sound(View())
    }

    constructor ()
      ensures Valid() && View() == START && fresh(pipes)
    {
      pipes := new PipeArray();
      active, current, more, inbox := 0, 0, false, map[];
    }

    method Attach(p: Pipe, parts: seq<Part>)
      requires Valid() && p !in pipes.items && Whole(parts)
      modifies this, pipes
      ensures Valid() && View() == Step(old(View()), Event.Attach(p, parts)).0
    {
      EnterKeepsGood(View(), p, parts);
      inbox := inbox[p := parts];
      pipes.PushBack(p);
      SwapSymmetric(pipes.items, active, |pipes.items| - 1);
      pipes.Swap(active, |pipes.items| - 1);
      active := active + 1;
    }

    method Activated(p: Pipe)
      requires Valid() && p in pipes.items && !IsActive(View().ring, p)
      modifies this`active, pipes
      ensures Valid() && View() == Step(old(View()), Activate(p)).0
    {
      PassiveIsBehind(View(), p);
      JoinKeepsGood(View(), Place(pipes.items, p));
      pipes.Swap(pipes.Index(p), active);
      active := active + 1;
    }

    method PipeTerminated(p: Pipe)
      requires Valid() && p in pipes.items
      modifies this`active, this`current, this`inbox, pipes
      ensures Valid() && View() == Step(old(View()), Terminated(p)).0
    {
      ghost var s := View();
      TerminateKeepsSound(s, Place(s.ring.items, p));
      var index := pipes.Index(p);
      assert index == Place(s.ring.items, p);
      if index < active {
        active := active - 1;
        SwapPermutes(pipes.items, index, active);
        pipes.Swap(index, active);
        assert pipes.items[active] == p;
        if current == active {
          current := 0;
        }
      }
      pipes.Erase(p);
      inbox := inbox - {p};
    }

    /** What a pipe's other end writes. */
    method Arrive(p: Pipe, parts: seq<Part>)
      requires Valid() && p in pipes.items && parts != [] && Whole(parts)
      modifies this`inbox
      ensures Valid() && View() == Step(old(View()), Event.Arrive(p, parts)).0
    {
      assert Whole(inbox[p] + parts);
      inbox := inbox[p := inbox[p] + parts];
    }

    /** The user of a pipe terminates it: nothing more is read from it. */
    method End(p: Pipe)
      requires Valid() && p in pipes.items
      modifies this`inbox
      ensures Valid() && View() == Step(old(View()), Ended(p)).0
    {
      inbox := inbox[p := []];
    }

    method RecvPipe() returns (r: Outcome)
      requires Valid()
      modifies this, pipes
      ensures Valid() && (View(), r) == Recv(old(View()))
    {
      ghost var s := View();
      while active > 0
        invariant Valid() && Recv(View()) == Recv(s)
        decreases active
      {
        if inbox[pipes.items[current]] != [] {
          TakeKeepsGood(View());
          var taken := TakePart();
          return Got(taken);
        }
        if more {
          return Aborted;
        }
        DropKeepsSound(View());
        DropCurrent();
      }
      return Nothing;
    }

    method TakePart() returns (r: Reception)
      requires pipes.Valid() && current < active <= |pipes.items|
      requires pipes.items[current] in inbox && inbox[pipes.items[current]] != []
      modifies this`more, this`inbox, this`current
      ensures (View(), r) == Take(old(View()))
    {
      var p := pipes.items[current];
      r := (p, inbox[p][0]);
      more := inbox[p][0].more;
      inbox := inbox[p := inbox[p][1..]];
      if !more {
        current := (current + 1) % active;
      }
    }

    method DropCurrent()
      requires pipes.Valid() && 0 < active <= |pipes.items| && current < active
      modifies this`active, this`current, pipes
      ensures pipes.Valid() && View().ring == Drop(old(View().ring))
    {
      active := active - 1;
      pipes.Swap(current, active);
      if current == active {
        current := 0;
      }
    }

    method HasIn() returns (ok: bool)
      requires Valid()
      modifies this`active, this`current, pipes
      ensures Valid() && (View(), ok) == CheckIn(old(View()))
    {
      if more {
        return true;
      }
      ghost var s := View();
      while active > 0
        invariant Valid() && !more && CheckIn(View()) == CheckIn(s)
        decreases active
      {
        if inbox[pipes.items[current]] != [] {
          return true;
        }
        DropKeepsSound(View());
        DropCurrent();
      }
      return false;
    }
  }
  const ONE := Part(0, 0, false)

  const HEAD := Part(7, 0, true)

  const TAIL := Part(7, 1, false)

  /** Pipes 1, 2 and 3 come in and have their turns; the message from pipe 3 has a second part. */
  method MidMessage() returns (f: FairQueue)
    ensures fresh(f) && fresh(f.pipes) && f.Valid() && GoodState(f.View())
    ensures f.View() == State(Ring([1, 2, 3], 3, 2), true, map[1 := [], 2 := [], 3 := [TAIL]])
  {
    f := ThreePipes();
    TakeTurn(f);
    TakeTurn(f);
    var r := f.RecvPipe();
  }

  /** A receive takes a message of one part from the pipe whose turn it is. */
  method TakeTurn(f: FairQueue)
    requires f.Valid() && f.current + 1 < f.active && f.inbox[f.pipes.items[f.current]] == [ONE]
    modifies f, f.pipes
    ensures f.Valid()
    ensures var s := old(f.View());
            f.View() == State(s.ring.(current := s.ring.current + 1), false, s.inbox[s.ring.items[s.ring.current] := []])
  {
    NextPlace(f.current, f.active);
    var r := f.RecvPipe();
  }

  method ThreePipes() returns (f: FairQueue)
    ensures fresh(f) && fresh(f.pipes) && f.Valid()
    ensures f.View() == State(Ring([1, 2, 3], 3, 0), false, map[1 := [ONE], 2 := [ONE], 3 := [HEAD, TAIL]])
  {
    f := new FairQueue();
    f.Attach(1, [ONE]);
    f.Attach(2, [ONE]);
    f.Attach(3, [HEAD, TAIL]);
  }

  /** Pipe 1 has a message again when pipe 2 leaves: the next part comes from pipe 1. */
  method LeavingBreaksAMessage() returns (r: Outcome)
    ensures r == Got((1, ONE))
  {
    var f := MidMessage();
    f.Arrive(1, [ONE]);
    f.PipeTerminated(2);
    assert f.View().ring == Ring([1, 3], 2, 0);
    r := f.RecvPipe();
  }

  /** Otherwise the receive aborts, whether pipe 2 leaves or pipe 3 itself. */
  method LeavingAborts(p: Pipe) returns (r: Outcome)
    requires p == 2 || p == 3
    ensures r == Aborted
  {
    var f := MidMessage();
    f.PipeTerminated(p);
    assert f.View().ring == if p == 2 then Ring([1, 3], 2, 0) else Ring([1, 2], 2, 0);
    r := f.RecvPipe();
  }

  /** It aborts as well when the user of pipe 3 terminates it, before anything leaves. */
  method EndingAborts() returns (r: Outcome)
    ensures r == Aborted
  {
    var f := MidMessage();
    f.End(3);
    r := f.RecvPipe();
  }

  /** After the only pipe left in the middle of a message, a new pipe without a message makes
      the next receive abort. */
  method LateAbort() returns (before: Outcome, r: Outcome)
    ensures before == Nothing && r == Aborted
  {
    var f := new FairQueue();
    f.Attach(1, [HEAD, TAIL]);
    r := f.RecvPipe();
    f.PipeTerminated(1);
    before := f.RecvPipe();
    f.Attach(2, []);
    r := f.RecvPipe();
  }
}
