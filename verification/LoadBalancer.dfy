/** The load balancer: gives whole messages to its active pipes in turns. */
module LoadBalancing {
  import opened Basics
  import opened Parts
  import opened PipeArrays
  import opened RoundRobin

  /** `sent` is what each pipe holds, `flushed` how much of it its reader may see;
      `number` and `position` identify the next part to send. */
  datatype State = State(ring: Ring, more: bool, dropping: bool,
                         sent: map<Pipe, seq<Part>>, flushed: map<Pipe, nat>, number: nat, position: nat)

  datatype Outcome = Sent(pipe: Pipe, part: Part) | Dropped | Again

  /** A message is being sent, to the pipe whose turn it is. */
  predicate Open(s: State) {
    s.more && !s.dropping
  }

  ghost predicate GoodLog(log: seq<Part>, flushed: nat) {
    Orderly(log) && flushed == Complete(log)
  }

  ghost predicate GoodState(s: State) {
    && Good(s.ring)
    && (Open(s) ==> s.ring.current < s.ring.active)
    && (s.more <==> s.position > 0) && (s.dropping ==> s.more)
    && AllGood(s.sent, s.flushed)
    && (forall i :: 0 <= i < |s.ring.items| ==> GoodAt(s, i))
  }

  ghost predicate AllGood(sent: map<Pipe, seq<Part>>, flushed: map<Pipe, nat>) {
    forall p :: p in sent ==> p in flushed && GoodLog(sent[p], flushed[p])
  }

  /** No pipe but the one being sent to holds part of a message only. */
  ghost predicate GoodAt(s: State, i: nat)
    requires i < |s.ring.items|
  {
    var p := s.ring.items[i];
    && p in s.sent && p in s.flushed && s.flushed[p] <= |s.sent[p]|
    && if Open(s) && i == s.ring.current then EndsWith(s.sent[p], s.number, s.position)
       else s.flushed[p] == |s.sent[p]|
  }

  ghost predicate EndsWith(log: seq<Part>, number: nat, position: nat) {
    position > 0 && log != [] && log[|log| - 1] == Part(number, position - 1, true)
  }

  /** The state after the part counted as sent or dropped. */
  function Counted(s: State, m: bool): State {
    s.(more := m, number := if m then s.number else s.number + 1, position := if m then s.position + 1 else 0)
  }

  /** The pipe takes the part; the last part of a message is flushed and ends the turn. */
  function Give(s: State, m: bool): State
    requires s.ring.current < s.ring.active <= |s.ring.items| && s.ring.items[s.ring.current] in s.sent
  {
    var p := s.ring.items[s.ring.current];
    var log := s.sent[p] + [Part(s.number, s.position, m)];
    var t := Counted(s.(sent := s.sent[p := log]), m);
    if m then t else t.(flushed := t.flushed[p := |log|], ring := Advance(s.ring))
  }

  /** The pipe refuses a later part: the earlier ones are taken back. */
  function Rollback(s: State): State
    requires s.ring.current < s.ring.active <= |s.ring.items| && s.ring.items[s.ring.current] in s.sent
    requires s.ring.items[s.ring.current] in s.flushed
    requires s.flushed[s.ring.items[s.ring.current]] <= |s.sent[s.ring.items[s.ring.current]]|
  {
    var p := s.ring.items[s.ring.current];
    s.(sent := s.sent[p := s.sent[p][..s.flushed[p]]], more := false, number := s.number + 1, position := 0)
  }

  /** Sends one part; `full` are the pipes that refuse it. */
  ghost function SendPart(s: State, m: bool, full: set<Pipe>): (State, Outcome)
    requires GoodState(s)
    decreases s.ring.active
  {
    if s.dropping then (Counted(s.(dropping := m), m), Dropped)
    else if s.ring.active == 0 then (s, Again)
    else
      var p := s.ring.items[s.ring.current];
      assert GoodAt(s, s.ring.current);
      if p !in full then (Give(s, m), Sent(p, Part(s.number, s.position, m)))
      else if s.more then (Rollback(s), Again)
      else DropKeepsGood(s); SendPart(s.(ring := Drop(s.ring)), m, full)
  }

  ghost function CheckOut(s: State, full: set<Pipe>): (State, bool)
    requires GoodState(s)
    decreases s.ring.active
  {
    if s.more then (s, true)
    else if s.ring.active == 0 then (s, false)
    else if s.ring.items[s.ring.current] !in full then (s, true)
    else DropKeepsGood(s); CheckOut(s.(ring := Drop(s.ring)), full)
  }

  /** What any pipe's reader sees is whole messages, and all of them; a pipe that is not being
      sent to holds nothing else. */
  lemma WholeBetweenMessages(s: State, p: Pipe)
    requires GoodState(s) && p in s.sent
    ensures p in s.flushed && s.flushed[p] <= |s.sent[p]| && WholeMessages(s.sent[p][..s.flushed[p]])
    ensures forall n :: s.flushed[p] < n <= |s.sent[p]| ==> !WholeMessages(s.sent[p][..n])
    ensures p in s.ring.items && (!Open(s) || p != s.ring.items[s.ring.current]) ==> s.flushed[p] == |s.sent[p]|
  {
    CompleteIsWhole(s.sent[p]);
    forall n | s.flushed[p] < n <= |s.sent[p]| ensures !WholeMessages(s.sent[p][..n]) {
      LongerIsNotWhole(s.sent[p], n);
    }
    if i :| 0 <= i < |s.ring.items| && s.ring.items[i] == p {
      assert GoodAt(s, i);
    }
  }

  lemma DropKeepsGood(s: State)
    requires GoodState(s) && s.ring.active > 0 && !Open(s)
    ensures GoodState(s.(ring := Drop(s.ring)))
  {
    Reordered(s, Drop(s.ring), s.ring.current, s.ring.active - 1);
  }

  /** Swapping whole pipes keeps everything in order. */
  lemma Reordered(s: State, r: Ring, i: nat, j: nat)
    requires GoodState(s) && i < |s.ring.items| && j < |s.ring.items| && r.items == Swapped(s.ring.items, i, j)
    requires r.active <= |r.items| && (r.current < r.active || r.current == 0)
    requires Open(s) ==> r.current == s.ring.current < r.active && i != r.current && j != r.current
    ensures GoodState(s.(ring := r))
  {
    var t := s.(ring := r);
    SwapPermutes(s.ring.items, i, j);
    forall k | 0 <= k < |t.ring.items| ensures GoodAt(t, k) {
      assert GoodAt(s, if k == i then j else if k == j then i else k);
    }
  }

  lemma GiveKeepsGood(s: State, m: bool)
    requires GoodState(s) && s.ring.active > 0 && !s.dropping
    ensures GoodAt(s, s.ring.current) && GoodState(Give(s, m))
  {
    var c := s.ring.current;
    assert GoodAt(s, c);
    var p, t, part := s.ring.items[c], Give(s, m), Part(s.number, s.position, m);
    EndOfWhole(s.sent[p]);
    MorePartsGood(s.sent, s.flushed, p, part);
    NextPlace(c, s.ring.active);
    forall k | 0 <= k < |t.ring.items| ensures GoodAt(t, k) {
      assert GoodAt(s, k);
    }
  }

  lemma MorePartsGood(sent: map<Pipe, seq<Part>>, flushed: map<Pipe, nat>, p: Pipe, part: Part)
    requires AllGood(sent, flushed) && p in sent && Fits(sent[p], part)
    ensures AllGood(sent[p := sent[p] + [part]], if part.more then flushed else flushed[p := |sent[p]| + 1])
  {
    OneMorePart(sent[p], part);
  }

  lemma EndOfWhole(log: seq<Part>)
    ensures Complete(log) == |log| <==> log == [] || !log[|log| - 1].more
  {}

  /** A refused part takes exactly the earlier parts of its message with it. */
  lemma RollbackKeepsGood(s: State)
    requires GoodState(s) && Open(s)
    ensures GoodAt(s, s.ring.current) && GoodState(Rollback(s))
    ensures var p := s.ring.items[s.ring.current];
            && |s.sent[p]| - |Rollback(s).sent[p]| == s.position && Rollback(s).sent[p] == s.sent[p][..|s.sent[p]| - s.position]
            && forall k :: |s.sent[p]| - s.position <= k < |s.sent[p]| ==>
                 s.sent[p][k] == Part(s.number, k - (|s.sent[p]| - s.position), true)
  {
    var c := s.ring.current;
    assert GoodAt(s, c);
    var t, p := Rollback(s), s.ring.items[c];
    CompleteIsWhole(s.sent[p]);
    Unfinished(s.sent[p], s.number, s.position);
    forall k | 0 <= k < |t.ring.items| ensures GoodAt(t, k) {
      assert GoodAt(s, k);
    }
  }

  /** After its whole messages an open log holds just the parts of the message being sent. */
  lemma Unfinished(log: seq<Part>, number: nat, position: nat)
    requires Orderly(log) && EndsWith(log, number, position)
    ensures Complete(log) == |log| - position
    ensures forall k :: |log| - position <= k < |log| ==> log[k] == Part(number, k - (|log| - position), true)
  {
    CompleteBefore(log, number, position);
    forall k | |log| - position <= k < |log| ensures log[k] == Part(number, k - (|log| - position), true) {
      EarlierParts(log, |log| - 1 - k);
    }
  }

  lemma {:induction false} CompleteBefore(log: seq<Part>, number: nat, position: nat)
    requires Orderly(log) && EndsWith(log, number, position)
    ensures Complete(log) == |log| - position
    decreases |log|
  {
    var shorter := log[..|log| - 1];
    assert Fits(shorter, log[|log| - 1]);
    PrefixOrderly(log, |log| - 1);
    if position == 1 {
      EndOfWhole(shorter);
    } else {
      CompleteBefore(shorter, number, position - 1);
    }
  }

  lemma {:induction false} SendKeepsGood(s: State, m: bool, full: set<Pipe>)
    requires GoodState(s)
    ensures GoodState(SendPart(s, m, full).0)
    decreases s.ring.active
  {
    if s.dropping {
      var t := SendPart(s, m, full).0;
      forall k | 0 <= k < |t.ring.items| ensures GoodAt(t, k) {
        assert GoodAt(s, k);
      }
    } else if s.ring.active == 0 {
    } else if s.ring.items[s.ring.current] !in full {
      GiveKeepsGood(s, m);
    } else if s.more {
      RollbackKeepsGood(s);
    } else {
      DropKeepsGood(s);
      SendKeepsGood(s.(ring := Drop(s.ring)), m, full);
    }
  }

  lemma {:induction false} CheckOutKeepsGood(s: State, full: set<Pipe>)
    requires GoodState(s)
    ensures GoodState(CheckOut(s, full).0)
    decreases s.ring.active
  {
    if s.more || s.ring.active == 0 || s.ring.items[s.ring.current] !in full {
    } else {
      DropKeepsGood(s);
      CheckOutKeepsGood(s.(ring := Drop(s.ring)), full);
    }
  }

  /** A pipe leaves; if it was the one being sent to, the rest of the message is dropped. */
  function Terminate(s: State, i: nat): State
    requires i < |s.ring.items| && s.ring.active <= |s.ring.items|
  {
    s.(ring := Leave(s.ring, i), dropping := s.dropping || (i == s.ring.current && s.more))
  }

  /** Leaving harms no message exactly when it does not move the turn away from a pipe
      in the middle of one. */
  ghost predicate TurnStays(s: State, i: nat) {
    Open(s) && i != s.ring.current ==> !(0 < i < s.ring.active && s.ring.current == s.ring.active - 1)
  }

  lemma TerminateIsSafe(s: State, i: nat)
    requires GoodState(s) && i < |s.ring.items|
    ensures GoodState(Terminate(s, i)) <==> TurnStays(s, i)
  {
    var t := Terminate(s, i);
    Left(s.ring, i);
    if TurnStays(s, i) {
      forall k | 0 <= k < |t.ring.items| ensures GoodAt(t, k) {
        assert GoodAt(s, Came(s.ring, i, k));
      }
    } else {
      TurnAfterLeave(s.ring, i);
      var p := t.ring.items[t.ring.current];
      assert GoodAt(s, Came(s.ring, i, t.ring.current));
      assert s.flushed[p] == |s.sent[p]| == Complete(s.sent[p]);
      EndOfWhole(s.sent[p]);
      assert !GoodAt(t, t.ring.current);
    }
  }

  /** Otherwise the rest of the message goes to another pipe, whose reader then sees it
      without the beginning. */
  lemma LeavingBreaksAMessage(s: State, i: nat)
    requires GoodState(s) && i < |s.ring.items| && !TurnStays(s, i)
    ensures var t := Terminate(s, i);
            && 0 <= t.ring.current < t.ring.active <= |t.ring.items|
            && var p := t.ring.items[t.ring.current];
            && p != s.ring.items[s.ring.current] && p in t.sent
            && var u := Give(t, false);
            && p in u.sent && p in u.flushed && u.flushed[p] == |u.sent[p]| && !WholeMessages(u.sent[p])
  {
    Left(s.ring, i);
    TurnAfterLeave(s.ring, i);
    var t := Terminate(s, i);
    var c := t.ring.current;
    assert GoodAt(s, Came(s.ring, i, c));
    var log, part := s.sent[t.ring.items[c]], Part(s.number, s.position, false);
    EndOfWhole(log);
    forall n | 0 <= n <= |log| ensures !IsMessage((log + [part])[n..]) {
      if n < |log| {
        assert (log + [part])[n..][|log| - 1 - n] == log[|log| - 1];
      } else {
        assert (log + [part])[n..][0] == part;
      }
    }
  }

  datatype Event =
    | Send(m: bool, full: set<Pipe>)
    | Check(full: set<Pipe>)
    | Attach(p: Pipe)
    | Activate(p: Pipe)
    | Terminated(p: Pipe)

  ghost predicate Legal(s: State, e: Event) {
    match e
    case Send(_, _) => true
    case Check(_) => true
    case Attach(p) => p !in s.ring.items && p !in s.sent
    case Activate(p) => p in s.ring.items && !IsActive(s.ring, p)
    case Terminated(p) => p in s.ring.items && TurnStays(s, Place(s.ring.items, p))
  }

  ghost function Step(s: State, e: Event): (State, seq<(Pipe, Part)>)
    requires GoodState(s) && Legal(s, e)
  {
    match e
    case Send(m, full) =>
      var (t, o) := SendPart(s, m, full); (t, if o.Sent? then [(o.pipe, o.part)] else [])
    case Check(full) => (CheckOut(s, full).0, [])
    case Attach(p) => (s.(ring := Enter(s.ring, p), sent := s.sent[p := []], flushed := s.flushed[p := 0]), [])
    case Activate(p) => (s.(ring := Join(s.ring, Place(s.ring.items, p))), [])
    case Terminated(p) => (Terminate(s, Place(s.ring.items, p)), [])
  }

  lemma JoinKeepsGood(s: State, i: nat)
    requires GoodState(s) && s.ring.active <= i < |s.ring.items|
    ensures GoodState(s.(ring := Join(s.ring, i)))
  {
    Reordered(s, Join(s.ring, i), i, s.ring.active);
  }

  lemma EnterKeepsGood(s: State, p: Pipe)
    requires GoodState(s) && p !in s.ring.items
    ensures GoodState(s.(ring := Enter(s.ring, p), sent := s.sent[p := []], flushed := s.flushed[p := 0]))
  {
    var t := s.(ring := s.ring.(items := s.ring.items + [p]), sent := s.sent[p := []], flushed := s.flushed[p := 0]);
    forall k | 0 <= k < |t.ring.items| ensures GoodAt(t, k) {
      assert k < |s.ring.items| ==> GoodAt(s, k);
    }
    JoinKeepsGood(t, |s.ring.items|);
  }

  lemma PassiveIsBehind(s: State, p: Pipe)
    requires GoodState(s) && p in s.ring.items && !IsActive(s.ring, p)
    ensures Place(s.ring.items, p) >= s.ring.active
  {}

  lemma StepKeepsGood(s: State, e: Event)
    requires GoodState(s) && Legal(s, e)
    ensures GoodState(Step(s, e).0)
  {
    match e
    case Send(m, full) => SendKeepsGood(s, m, full);
    case Check(full) => CheckOutKeepsGood(s, full);
    case Attach(p) => EnterKeepsGood(s, p);
    case Activate(p) => PassiveIsBehind(s, p); JoinKeepsGood(s, Place(s.ring.items, p));
    case Terminated(p) => TerminateIsSafe(s, Place(s.ring.items, p));
  }

  ghost predicate LegalRun(s: State, es: seq<Event>)
    requires GoodState(s)
    decreases |es|
  {
    es != [] ==> Legal(s, es[0]) && (StepKeepsGood(s, es[0]); LegalRun(Step(s, es[0]).0, es[1..]))
  }

  ghost function Run(s: State, es: seq<Event>): (State, seq<(Pipe, Part)>)
    requires GoodState(s) && LegalRun(s, es)
    decreases |es|
  {
    if es == [] then (s, [])
    else
      StepKeepsGood(s, es[0]);
      var (t, l) := Step(s, es[0]);
      var (u, m) := Run(t, es[1..]);
      (u, l + m)
  }

  /** All the parts of one message are in one pipe. */
  ghost predicate OneHome(sent: map<Pipe, seq<Part>>) {
    forall p, q :: p in sent && q in sent && p != q ==>
      forall i, j :: 0 <= i < |sent[p]| && 0 <= j < |sent[q]| ==> sent[p][i].message != sent[q][j].message
  }

  /** Only the pipe being sent to has parts of the current message, and none is of a later one. */
  ghost predicate NumbersOk(s: State) {
    forall p, i :: p in s.sent && 0 <= i < |s.sent[p]| ==>
      && s.sent[p][i].message <= s.number
      && (s.sent[p][i].message == s.number ==>
            s.more && (s.dropping || (s.ring.current < |s.ring.items| && p == s.ring.items[s.ring.current])))
  }

  ghost predicate Tidy(s: State) {
    GoodState(s) && OneHome(s.sent) && NumbersOk(s)
  }

  lemma GiveKeepsHomes(s: State, m: bool)
    requires Tidy(s) && s.ring.active > 0 && !s.dropping
    ensures GoodAt(s, s.ring.current) && OneHome(Give(s, m).sent) && NumbersOk(Give(s, m))
  {
    assert GoodAt(s, s.ring.current);
    var p, t := s.ring.items[s.ring.current], Give(s, m);
    forall q, i | q in t.sent && 0 <= i < |t.sent[q]|
      ensures t.sent[q][i].message <= s.number && (t.sent[q][i].message == s.number ==> q == p)
    {
      assert q != p || i < |s.sent[p]| ==> t.sent[q][i] == s.sent[q][i];
    }
    forall a, b, i, j | a in t.sent && b in t.sent && 0 <= i < |t.sent[a]| && 0 <= j < |t.sent[b]|
                        && t.sent[a][i].message == t.sent[b][j].message
      ensures a == b
    {
      if t.sent[a][i].message != s.number {
        assert t.sent[a][i] == s.sent[a][i] && t.sent[b][j] == s.sent[b][j];
      }
    }
  }

  lemma RollbackKeepsHomes(s: State)
    requires Tidy(s) && Open(s)
    ensures GoodAt(s, s.ring.current) && OneHome(Rollback(s).sent) && NumbersOk(Rollback(s))
  {
    assert GoodAt(s, s.ring.current);
    var t := Rollback(s);
    forall q, i | q in t.sent && 0 <= i < |t.sent[q]|
      ensures i < |s.sent[q]| && t.sent[q][i] == s.sent[q][i]
    {
    }
  }

  lemma {:induction false} SendKeepsTidy(s: State, m: bool, full: set<Pipe>)
    requires Tidy(s)
    ensures Tidy(SendPart(s, m, full).0)
    decreases s.ring.active
  {
    SendKeepsGood(s, m, full);
    if s.dropping || s.ring.active == 0 {
    } else if s.ring.items[s.ring.current] !in full {
      GiveKeepsHomes(s, m);
    } else if s.more {
      RollbackKeepsHomes(s);
      assert Rollback(s) == SendPart(s, m, full).0;
    } else {
      DropKeepsGood(s);
      SendKeepsTidy(s.(ring := Drop(s.ring)), m, full);
    }
  }

  lemma {:induction false} CheckOutKeepsTidy(s: State, full: set<Pipe>)
    requires Tidy(s)
    ensures Tidy(CheckOut(s, full).0)
    decreases s.ring.active
  {
    if s.more || s.ring.active == 0 || s.ring.items[s.ring.current] !in full {
    } else {
      DropKeepsGood(s);
      CheckOutKeepsTidy(s.(ring := Drop(s.ring)), full);
    }
  }

  lemma StepKeepsTidy(s: State, e: Event)
    requires Tidy(s) && Legal(s, e)
    ensures Tidy(Step(s, e).0)
  {
    StepKeepsGood(s, e);
    match e
    case Send(m, full) => SendKeepsTidy(s, m, full);
    case Check(full) => CheckOutKeepsTidy(s, full);
    case Attach(p) =>
    case Activate(p) => PassiveIsBehind(s, p);
    case Terminated(p) =>
      var i := Place(s.ring.items, p);
      if Open(s) && i != s.ring.current {
        TurnAfterLeave(s.ring, i);
      }
  }

  lemma {:induction false} RunKeepsTidy(s: State, es: seq<Event>)
    requires Tidy(s) && LegalRun(s, es)
    ensures Tidy(Run(s, es).0)
    decreases |es|
  {
    if es == [] {
    } else {
      StepKeepsTidy(s, es[0]);
      RunKeepsTidy(Step(s, es[0]).0, es[1..]);
    }
  }

  const START := State(Ring([], 0, 0), false, false, map[], map[], 0, 0)

  /** In every run each message goes to one pipe, and what a pipe's reader may see is whole
      messages and nothing else, also after the pipe left. */
  lemma {:induction false} MessagesStayWhole(s: State, es: seq<Event>)
    requires s == START && GoodState(s) && LegalRun(s, es)
    ensures var t := Run(s, es).0;
            && OneHome(t.sent)
            && forall p :: p in t.sent ==>
                 && p in t.flushed && t.flushed[p] <= |t.sent[p]|
                 && WholeMessages(t.sent[p][..t.flushed[p]])
                 && forall n :: t.flushed[p] < n <= |t.sent[p]| ==> !WholeMessages(t.sent[p][..n])
  {
    RunKeepsTidy(s, es);
    var t := Run(s, es).0;
    forall p | p in t.sent
      ensures p in t.flushed && t.flushed[p] <= |t.sent[p]| && WholeMessages(t.sent[p][..t.flushed[p]])
      ensures forall n :: t.flushed[p] < n <= |t.sent[p]| ==> !WholeMessages(t.sent[p][..n])
    {
      WholeBetweenMessages(t, p);
    }
  }

  /** How much later the turn of a pipe can come: one turn for each pipe that joins, and for each
      that leaves and puts it back, as many turns as were put before it. */
  ghost function Delay(s: State, e: Event, q: Pipe): nat
    requires GoodState(s) && Legal(s, e)
  {
    match e
    case Attach(_) => 1
    case Activate(_) => 1
    case Terminated(p) =>
      if PutsBack(s.ring, Place(s.ring.items, p), q) then Place(s.ring.items, p) else 0
    case _ => 0
  }

  ghost function Delays(s: State, es: seq<Event>, q: Pipe): nat
    requires GoodState(s) && LegalRun(s, es)
    decreases |es|
  {
    if es == [] then 0
    else StepKeepsGood(s, es[0]); Delay(s, es[0], q) + Delays(Step(s, es[0]).0, es[1..], q)
  }

  /** The pipe never refuses, and does not leave. */
  ghost predicate Writable(es: seq<Event>, q: Pipe) {
    forall e :: e in es ==> e != Terminated(q) && (e.Send? || e.Check? ==> q !in e.full)
  }

  /** A pipe with room gets a message after the others finished at most as many as there were
      pipes before it and were put before it since. */
  lemma {:induction false} BoundedWaiting(s: State, es: seq<Event>, q: Pipe)
    requires GoodState(s) && LegalRun(s, es) && IsActive(s.ring, q) && Writable(es, q)
    requires forall r :: r in Run(s, es).1 ==> r.0 != q
    ensures Finished(Run(s, es).1) <= Rank(s.ring, q) + Delays(s, es, q)
    decreases |es|
  {
    if es == [] {
    } else {
      StepKeepsGood(s, es[0]);
      var (t, l) := Step(s, es[0]);
      var (u, m) := Run(t, es[1..]);
      assert forall r :: r in l ==> r in l + m;
      assert forall r :: r in m ==> r in l + m;
      assert es[0] in es;
      StepKeepsWaiting(s, es[0], q);
      BoundedWaiting(t, es[1..], q);
      FinishedAppend(l, m);
    }
  }

  /** A pipe that is activated or attached has its turn after those that were active before, whose
      places stay. */
  lemma ComingIn(s: State, e: Event)
    requires GoodState(s) && Legal(s, e) && (e.Activate? || e.Attach?)
    ensures var t := Step(s, e).0;
            && GoodState(t) && IsActive(t.ring, e.p) && Actives(t.ring) == Actives(s.ring) + {e.p}
            && t.ring.active == s.ring.active + 1 && t.ring.current == s.ring.current
            && t.ring.items[..s.ring.active] == s.ring.items[..s.ring.active] && t.ring.items[s.ring.active] == e.p
  {
    StepKeepsGood(s, e);
    if e.Attach? {
      EnterActives(s.ring, e.p);
    } else {
      PassiveIsBehind(s, e.p);
      JoinActives(s.ring, Place(s.ring.items, e.p));
    }
    ActivesAreActive(Step(s, e).0.ring, e.p);
  }

  /** From then on, as long as it has room, it gets a message after the others got at most as many as
      there were active pipes, and as were put before it since. */
  lemma ServedAfterComingIn(s: State, e: Event, es: seq<Event>)
    requires GoodState(s) && Legal(s, e) && (e.Activate? || e.Attach?) && Writable(es, e.p)
    requires GoodState(Step(s, e).0) ==> LegalRun(Step(s, e).0, es)
    requires GoodState(Step(s, e).0) && LegalRun(Step(s, e).0, es) ==> forall r :: r in Run(Step(s, e).0, es).1 ==> r.0 != e.p
    ensures GoodState(Step(s, e).0)
    ensures Finished(Run(Step(s, e).0, es).1) <= s.ring.active + Delays(Step(s, e).0, es, e.p)
  {
    ComingIn(s, e);
    BoundedWaiting(Step(s, e).0, es, e.p);
  }

  /** A call serves somebody while some pipe has room and nothing stands in the way. */
  lemma {:induction false} SendServes(s: State, m: bool, full: set<Pipe>, q: Pipe)
    requires GoodState(s) && IsActive(s.ring, q) && q !in full
    ensures var (t, o) := SendPart(s, m, full);
            && GoodState(t)
            && (o.Again? ==> s.more && s.ring.items[s.ring.current] in full)
            && ((o.Sent? && o.pipe == q)
                || (IsActive(t.ring, q) && Rank(t.ring, q) + (if o.Sent? && !m then 1 else 0) <= Rank(s.ring, q)
                    && (o.Sent? ==> o.part.more == m)))
    decreases s.ring.active
  {
    SendKeepsGood(s, m, full);
    assert GoodAt(s, s.ring.current);
    if s.dropping {
    } else if s.ring.items[s.ring.current] !in full {
      if s.ring.items[s.ring.current] != q && !m {
        AdvanceRanks(s.ring, q);
      }
    } else if s.more {
    } else {
      DropKeepsGood(s);
      DropRanks(s.ring, q);
      SendServes(s.(ring := Drop(s.ring)), m, full, q);
    }
  }

  /** Some active pipe has room. */
  ghost predicate Roomy(s: State, full: set<Pipe>)
    requires GoodState(s)
  {
    exists i :: 0 <= i < s.ring.active && s.ring.items[i] !in full
  }

  lemma DropKeepsRoomy(s: State, full: set<Pipe>)
    requires GoodState(s) && s.ring.active > 0 && s.ring.items[s.ring.current] in full
    requires GoodState(s.(ring := Drop(s.ring)))
    ensures Roomy(s.(ring := Drop(s.ring)), full) <==> Roomy(s, full)
  {
    var t, c, last := s.(ring := Drop(s.ring)), s.ring.current, s.ring.active - 1;
    if i :| 0 <= i < s.ring.active && s.ring.items[i] !in full {
      assert t.ring.items[if i == last then c else i] == s.ring.items[i];
    }
    if i :| 0 <= i < t.ring.active && t.ring.items[i] !in full {
      assert s.ring.items[if i == c then last else i] == t.ring.items[i];
    }
  }

  /** Between messages a send succeeds, and a poll reports room, exactly when some active pipe has it. */
  lemma {:induction false} NoRoomIsOverlooked(s: State, m: bool, full: set<Pipe>)
    requires GoodState(s) && !s.more
    ensures SendPart(s, m, full).1.Sent? <==> Roomy(s, full)
    ensures CheckOut(s, full).1 <==> Roomy(s, full)
    decreases s.ring.active
  {
    if s.ring.active == 0 || s.ring.items[s.ring.current] !in full {
    } else {
      DropKeepsGood(s);
      DropKeepsRoomy(s, full);
      NoRoomIsOverlooked(s.(ring := Drop(s.ring)), m, full);
    }
  }

  lemma {:induction false} CheckOutKeepsWaiting(s: State, full: set<Pipe>, q: Pipe)
    requires GoodState(s) && IsActive(s.ring, q) && q !in full
    ensures var (t, ok) := CheckOut(s, full);
            GoodState(t) && ok && IsActive(t.ring, q) && Rank(t.ring, q) <= Rank(s.ring, q)
    decreases s.ring.active
  {
    if s.more || s.ring.items[s.ring.current] !in full {
    } else {
      DropKeepsGood(s);
      DropRanks(s.ring, q);
      CheckOutKeepsWaiting(s.(ring := Drop(s.ring)), full, q);
    }
  }

  lemma StepKeepsWaiting(s: State, e: Event, q: Pipe)
    requires GoodState(s) && Legal(s, e) && IsActive(s.ring, q) && e != Terminated(q)
    requires e.Send? || e.Check? ==> q !in e.full
    requires forall r :: r in Step(s, e).1 ==> r.0 != q
    ensures var (t, l) := Step(s, e);
            && GoodState(t) && IsActive(t.ring, q)
            && Rank(t.ring, q) + Finished(l) <= Rank(s.ring, q) + Delay(s, e, q)
  {
    StepKeepsGood(s, e);
    match e
    case Send(m, full) =>
      SendServes(s, m, full, q);
      var o := SendPart(s, m, full).1;
      if o.Sent? {
        assert (o.pipe, o.part) in Step(s, e).1;
        assert [(o.pipe, o.part)][1..] == [];
      }
    case Check(full) => CheckOutKeepsWaiting(s, full, q);
    case Attach(p) => EnterRanks(s.ring, q, p);
    case Activate(p) => PassiveIsBehind(s, p); JoinRanks(s.ring, q, Place(s.ring.items, p));
    case Terminated(p) => LeaveRanks(s.ring, Place(s.ring.items, p), q);
  }

  /** The balancer itself, on the array of pipes. */
  class LoadBalancer {
    const pipes: PipeArray
    var active: nat
    var current: nat
    var more: bool
    var dropping: bool
    var sent: map<Pipe, seq<Part>>
    var flushed: map<Pipe, nat>
    var number: nat
    var position: nat

    ghost function View(): State
      reads this, pipes
    {
      State(Ring(pipes.items, active, current), more, dropping, sent, flushed, number, position)
    }

    ghost predicate Valid()
      reads this, pipes
    {
      pipes.Valid() && GoodState(View())
    }

    constructor ()
      ensures Valid() && Tidy(View()) && View() == START && fresh(pipes)
    {
      pipes := new PipeArray();
      active, current, more, dropping := 0, 0, false, false;
      sent, flushed, number, position := map[], map[], 0, 0;
    }

    method Attach(p: Pipe)
      requires Valid() && p !in pipes.items && p !in sent
      modifies this, pipes
      ensures Valid() && View() == Step(old(View()), Event.Attach(p)).0
    {
      EnterKeepsGood(View(), p);
      sent, flushed := sent[p := []], flushed[p := 0];
      pipes.PushBack(p);
      pipes.Swap(pipes.Index(p), active);
      active := active + 1;
    }

    method Activated(p: Pipe)
      requires Valid() && p in pipes.items && !IsActive(View().ring, p)
      modifies this`active, pipes
      ensures Valid() && View() == Step(old(View()), Activate(p)).0
    {
      PassiveIsBehind(View(), p);
      JoinKeepsGood(View(), Place(pipes.items, p));
      pipes.Swap(pipes.Index(p), active);
      active := active + 1;
    }

    method PipeTerminated(p: Pipe)
      requires Valid() && p in pipes.items
      modifies this`active, this`current, this`dropping, pipes
      ensures pipes.Valid() && View() == Terminate(old(View()), old(pipes.Index(p)))
    {
      var index := pipes.Index(p);
      dropping := dropping || (index == current && more);
      Remove(p);
    }

    method Remove(p: Pipe)
      requires pipes.Valid() && p in pipes.items && active <= |pipes.items|
      modifies this`active, this`current, pipes
      ensures pipes.Valid() && View().ring == Leave(old(View().ring), old(pipes.Index(p)))
    {
      var index := pipes.Index(p);
      pipes.PlacesAreUnique();
      if index < active {
        active := active - 1;
        SwapPermutes(pipes.items, index, active);
        pipes.Swap(index, active);
        assert pipes.items[active] == p;
        if current == active {
          current := 0;
        }
      }
      pipes.Erase(p);
    }

    method Refused()
      requires pipes.Valid() && 0 < active <= |pipes.items| && current < active
      modifies this`active, this`current, pipes
      ensures pipes.Valid() && View().ring == Drop(old(View().ring))
    {
      active := active - 1;
      if current < active {
        pipes.Swap(current, active);
      } else {
        current := 0;
      }
      assert old(pipes.items) == Swapped(old(pipes.items), active, active);
    }

    method SendPipe(m: bool, full: set<Pipe>) returns (o: Outcome)
      requires Valid()
      modifies this, pipes
      ensures Valid() && (View(), o) == SendPart(old(View()), m, full)
    {
      SendKeepsGood(View(), m, full);
      if dropping {
        more, dropping := m, m;
        number, position := if m then number else number + 1, if m then position + 1 else 0;
        return Dropped;
      }
      o := SendToNext(m, full);
    }

    method SendToNext(m: bool, full: set<Pipe>) returns (o: Outcome)
      requires Valid() && !dropping
      modifies this, pipes
      ensures pipes.Valid() && (View(), o) == SendPart(old(View()), m, full)
    {
      ghost var s := View();
      while active > 0 && pipes.items[current] in full
        invariant Valid() && !dropping && SendPart(View(), m, full) == SendPart(s, m, full)
        decreases active
      {
        if more {
          TakeBack();
          return Again;
        }
        DropKeepsGood(View());
        Refused();
      }
      if active == 0 {
        return Again;
      }
      o := Write(m);
    }

    method TakeBack()
      requires Valid() && Open(View())
      modifies this`sent, this`more, this`number, this`position
      ensures GoodAt(old(View()), old(current)) && View() == Rollback(old(View()))
    {
      assert GoodAt(View(), current);
      var p := pipes.items[current];
      sent := sent[p := sent[p][..flushed[p]]];
      more, number, position := false, number + 1, 0;
    }

    /** The current pipe takes the part. */
    method Write(m: bool) returns (o: Outcome)
      requires Valid() && active > 0 && !dropping
      modifies this
      ensures GoodAt(old(View()), old(current)) && View() == Give(old(View()), m)
      ensures o == Sent(old(pipes.items[current]), Part(old(number), old(position), m))
    {
      assert GoodAt(View(), current);
      NextPlace(current, active);
      var p := pipes.items[current];
      o := Sent(p, Part(number, position, m));
      sent := sent[p := sent[p] + [Part(number, position, m)]];
      number, position := if m then number else number + 1, if m then position + 1 else 0;
      more := m;
      if !more {
        flushed := flushed[p := |sent[p]|];
        current := current + 1;
        if current >= active {
          current := 0;
        }
      }
    }

    method HasOut(full: set<Pipe>) returns (ok: bool)
      requires Valid()
      modifies this`active, this`current, pipes
      ensures Valid() && (View(), ok) == CheckOut(old(View()), full)
    {
      if more {
        return true;
      }
      ghost var s := View();
      while active > 0
        invariant Valid() && !more && CheckOut(View(), full) == CheckOut(s, full)
        decreases active
      {
        if pipes.items[current] !in full {
          return true;
        }
        DropKeepsGood(View());
        Deactivate();
      }
      return false;
    }

    method Deactivate()
      requires pipes.Valid() && 0 < active <= |pipes.items| && current < active
      modifies this`active, this`current, pipes
      ensures pipes.Valid() && View().ring == Drop(old(View().ring))
    {
      active := active - 1;
      pipes.Swap(current, active);
      if current == active {
        current := 0;
      }
    }
  }
}
