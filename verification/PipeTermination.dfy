/** When the termination of a pipe completes: in every run, exactly unless a hiccup has crossed
    the request and the end that made it still waits for the delimiter. */
module PipeTermination {
  import opened Basics
  import opened Fifo
  import opened PipeEndpoint
  import opened PipePair
  import opened PipeFlow
  import opened PipeStranding

  /** Neither end insists on reading up to the delimiter. */
  predicate NoOneWaits(s: Sys) {
    !Waits(s.me) && !Waits(s.you)
  }

  /** Nothing stands in the way of termination. */
  ghost predicate Goes(s: Sys) {
    FlowInv(s) || (Inv(s) && NoOneWaits(s))
  }

  // ------------------------------------------- an end that does not wait never will

  lemma {:induction false} ReadMessageDoesNotWait(l: Local)
    requires l.Valid() && !Waits(l.e)
    ensures !Waits(ReadMessage(l).0.e)
    decreases |l.inQ.items|
  {
    var (l1, x) := Fetch(l);
    if x.None? || !x.value.Msg? || !x.value.credential {
    } else {
      ReadMessageDoesNotWait(l1);
    }
  }

  lemma CallDoesNotWait(l: Local, a: Action)
    requires l.Valid() && !Waits(l.e) && !a.DoHiccup? && !a.Deliver? && (a.DoWrite? ==> a.x.Msg?)
    ensures !Waits(Call(l, a).e)
  {
    if a.DoRead? {
      ReadMessageDoesNotWait(l);
    } else if a.DoTerminate? {
      TerminateDoesNotWait(l, a.delay);
    }
  }

  lemma ClosingKeepsState(l: Local)
    requires l.Valid()
    ensures CloseOutbound(l).e.state == l.e.state && CloseOutbound(l).e.alive == l.e.alive
  {}

  lemma TerminateDoesNotWait(l: Local, delay: bool)
    requires l.Valid() && !Waits(l.e)
    ensures !Waits(Terminate(l, delay).e)
  {
    if l.e.state.Active? || l.e.state.DelimiterReceived? {
      ClosingKeepsState(PipeEndpoint.Send(l.(e := l.e.(delay := delay, state := TermReqSent1)), PipeTerm));
    } else if l.e.state.WaitingForDelimiter? {
      ClosingKeepsState(if !delay then Acknowledge(l.(e := l.e.(delay := delay)), TermAckSent) else l.(e := l.e.(delay := delay)));
    }
  }

  lemma HandleDoesNotWait(l: Local, c: Command)
    requires !Waits(l.e) && !c.Hiccup? && !c.PipeTermAck?
    ensures !Waits(Handle(l, c).e)
  {}

  lemma StepDoesNotWait(s: Sys, a: Action)
    requires Inv(s) && Enabled(s, a) && !Waits(s.me)
    ensures Step(s, a).Next? && !Waits(Step(s, a).s.me)
  {
    MoveKeeps(s, true, a);
    if a.Deliver? {
      DeliveryDoesNotWait(s);
    } else if a.DoHiccup? {
      RenewalDoesNotWait(s);
    } else {
      ViewReady(s);
      CallingDoesNotWait(s, a);
    }
  }

  lemma RenewalDoesNotWait(s: Sys)
    requires Inv(s) && s.me.alive && !Waits(s.me)
    ensures Step(s, DoHiccup).Next? && !Waits(Step(s, DoHiccup).s.me)
  {
    ViewReady(s);
    if s.me.state.Active? {
      ActiveHiccupKeeps(s);
    } else {
      IdleHiccupShape(s);
    }
  }

  lemma CallingDoesNotWait(s: Sys, a: Action)
    requires s.me.alive && Attached(s) && !a.DoHiccup? && !a.Deliver? && Enabled(s, a) && Step(s, a).Next?
    requires !Waits(s.me)
    ensures !Waits(Step(s, a).s.me)
  {
    CallDoesNotWait(View(s), a);
  }

  lemma DeliveryDoesNotWait(s: Sys)
    requires Inv(s) && s.toMe != [] && !Waits(s.me) && Step(s, Deliver).Next?
    ensures !Waits(Step(s, Deliver).s.me)
  {
    ReceiverIsAlive(s);
    ViewReady(s);
    if s.toMe[0].Hiccup? {
      HiccupKeepsReaders(s);
    } else if s.toMe[0].PipeTermAck? {
      AckKeepsReader(s);
    } else {
      DeliverIsHandle(s);
      HandleDoesNotWait(View(s), s.toMe[0]);
    }
  }

  lemma NoOneEverWaits(s: Sys, mine: bool, a: Action)
    requires Inv(s) && NoOneWaits(s)
    ensures Move(s, mine, a).Next? && NoOneWaits(Move(s, mine, a).s)
  {
    InvSwap(s);
    var t := if mine then s else Swap(s);
    if Enabled(t, a) {
      StepDoesNotWait(t, a);
      StepOnlyAppends(t, a);
    }
  }

  // ----------------------------------------------------------- every run, and its end

  /** Either way an end waits for what is not going to come. */
  ghost predicate Stuck(s: Sys) {
    Stranded(s) || Stranded(Swap(s))
  }

  /** The guard: a hiccup crosses a request, in either direction. */
  predicate Crossing(s: Sys) {
    Crossed(s) || Crossed(Swap(s))
  }

  /** Termination is held up only by a crossing hiccup. */
  lemma GoesOn(s: Sys, mine: bool, a: Action)
    requires Goes(s)
    requires Move(s, mine, a).Next? ==> !Crossing(Move(s, mine, a).s)
    ensures Move(s, mine, a).Next? && Goes(Move(s, mine, a).s)
  {
    MoveKeeps(s, mine, a);
    var t := Move(s, mine, a).s;
    if NoOneWaits(s) {
      NoOneEverWaits(s, mine, a);
    } else if Uncrossed(t) {
      MoveFlow(s, mine, a);
    }
  }

  /** A user that gives up sets the termination free again. */
  lemma GivingUpHelps(s: Sys, a: Action)
    requires Stranded(Swap(s)) && Enabled(s, a) && GivesUp(s.me, a)
    ensures Step(s, a).Next? && Inv(Step(s, a).s) && NoOneWaits(Step(s, a).s)
  {
    InvSwap(Swap(s));
    MoveKeeps(s, true, a);
    ViewReady(s);
    StepOnlyAppends(s, a);
    if a.DoTerminate? {
      GivingUp(View(s), a.delay);
    }
  }

  lemma GivingUp(l: Local, delay: bool)
    requires l.Valid() && Waits(l.e) && (l.e.state.WaitingForDelimiter? ==> !delay)
    ensures !Waits(Terminate(l, delay).e)
  {}

  /** What becomes of a stranded pair. */
  lemma StrandedOrFree(s: Sys, mine: bool, a: Action)
    requires Stranded(s)
    ensures Move(s, mine, a).Next?
    ensures if !mine && s.you.alive && GivesUp(s.you, a) then Goes(Move(s, mine, a).s) else Stranded(Move(s, mine, a).s)
  {
    if mine || !GivesUp(s.you, a) {
      MoveStaysStranded(s, mine, a);
    } else {
      InvSwap(s);
      GivingUpHelps(Swap(s), a);
      InvSwap(Step(Swap(s), a).s);
    }
  }

  lemma MoveGoesOrStrands(s: Sys, mine: bool, a: Action)
    requires Announced(s) && (Goes(s) || Stuck(s))
    ensures Move(s, mine, a).Next? && (Goes(Move(s, mine, a).s) || Stuck(Move(s, mine, a).s))
  {
    if Stranded(s) {
      StrandedOrFree(s, mine, a);
    } else if Stranded(Swap(s)) {
      MirrorMoves(s, mine, a);
    } else {
      FreeMoves(s, mine, a);
    }
  }

  lemma MoveSwap(s: Sys, mine: bool, a: Action)
    requires Move(s, mine, a).Next?
    ensures Move(Swap(s), !mine, a) == Next(Swap(Move(s, mine, a).s))
  {}

  lemma MirrorMoves(s: Sys, mine: bool, a: Action)
    requires Stranded(Swap(s))
    ensures Move(s, mine, a).Next?
    ensures Goes(Move(s, mine, a).s) || Stranded(Swap(Move(s, mine, a).s))
  {
    InvSwap(Swap(s));
    MoveKeeps(s, mine, a);
    MoveSwap(s, mine, a);
    StrandedOrFree(Swap(s), !mine, a);
    if Goes(Swap(Move(s, mine, a).s)) {
      GoesSwap(Swap(Move(s, mine, a).s));
    }
  }

  lemma FreeMoves(s: Sys, mine: bool, a: Action)
    requires Announced(s) && Goes(s)
    ensures Move(s, mine, a).Next? && (Goes(Move(s, mine, a).s) || Stuck(Move(s, mine, a).s))
  {
    MoveKeeps(s, mine, a);
    MoveKeepsAnnounced(s, mine, a);
    if Crossing(Move(s, mine, a).s) {
      CrossingIsStuck(Move(s, mine, a).s);
    } else {
      GoesOn(s, mine, a);
    }
  }

  lemma CrossingIsStuck(s: Sys)
    requires Inv(s) && Announced(s) && Crossing(s)
    ensures Stuck(s)
  {
    InvSwap(s);
    if Crossed(s) {
      CrossedIsStranded(s);
    } else {
      CrossedIsStranded(Swap(s));
    }
  }

  lemma GoesSwap(s: Sys)
    requires Goes(s)
    ensures Goes(Swap(s))
  {
    InvSwap(s);
    if FlowInv(s) {
      FlowSwap(s);
    }
  }

  /** Every run, with whatever hiccups, is in one of the two cases. */
  lemma {:induction false} EveryRunGoesOrStrands(hwm0: int, hwm1: int, trace: seq<(bool, Action)>)
    ensures Run(Init(hwm0, hwm1), trace).Next?
    ensures Goes(Run(Init(hwm0, hwm1), trace).s) || Stuck(Run(Init(hwm0, hwm1), trace).s)
    decreases |trace|
  {
    if trace == [] {
      FlowInit(hwm0, hwm1);
    } else {
      var prefix := trace[..|trace| - 1];
      EveryRunGoesOrStrands(hwm0, hwm1, prefix);
      EveryRunIsAnnounced(hwm0, hwm1, prefix);
      MoveGoesOrStrands(Run(Init(hwm0, hwm1), prefix).s, Last(trace).0, Last(trace).1);
    }
  }

  /** No hiccup crosses a request in the whole run while the other end waits. */
  predicate CrossingFree(s: Sys, trace: seq<(bool, Action)>) {
    && (Run(s, trace).Next? ==> !Crossing(Run(s, trace).s))
    && (trace != [] ==> CrossingFree(s, trace[..|trace| - 1]))
  }

  /** A run without such a crossing is in the first case. */
  lemma {:induction false} CrossingFreeRunsGo(hwm0: int, hwm1: int, trace: seq<(bool, Action)>)
    requires CrossingFree(Init(hwm0, hwm1), trace)
    ensures Run(Init(hwm0, hwm1), trace).Next? && Goes(Run(Init(hwm0, hwm1), trace).s)
    decreases |trace|
  {
    if trace == [] {
      FlowInit(hwm0, hwm1);
    } else {
      var prefix := trace[..|trace| - 1];
      CrossingFreeRunsGo(hwm0, hwm1, prefix);
      GoesOn(Run(Init(hwm0, hwm1), prefix).s, Last(trace).0, Last(trace).1);
    }
  }

  /** Once either end has asked to terminate, and until both ends are gone, there is always a
      step that is due. */
  lemma GoesIsNeverStuck(s: Sys)
    requires Goes(s) && Terminating(s) && (s.me.alive || s.you.alive)
    ensures exists mine, a :: Due(s, mine, a)
  {
    if FlowInv(s) {
      NeverStuck(s);
    } else {
      StuckExactly(s);
    }
  }

  lemma DueGoes(s: Sys, mine: bool, a: Action)
    requires Goes(s) && Due(s, mine, a)
    ensures Move(s, mine, a).Next? && Goes(Move(s, mine, a).s)
  {
    MoveKeeps(s, mine, a);
    if FlowInv(s) {
      DueFlow(s, mine, a);
    } else {
      NoOneEverWaits(s, mine, a);
    }
  }

  /** Termination completes: once either end has asked for it, at most `Remaining`
      due steps can be taken, and when none is left both ends are deallocated. */
  lemma {:induction false} TerminationCompletes(s: Sys, trace: seq<(bool, Action)>)
    requires Goes(s) && Terminating(s) && Drains(s, trace)
    ensures |trace| <= Remaining(s)
    ensures (forall mine, a :: !Due(Drained(s, trace), mine, a)) ==> !Drained(s, trace).me.alive && !Drained(s, trace).you.alive
    decreases |trace|
  {
    DueStepsEnd(s, trace);
    if trace == [] {
      if s.me.alive || s.you.alive {
        GoesIsNeverStuck(s);
      }
    } else {
      var (mine, a) := trace[0];
      DueGoes(s, mine, a);
      TerminatingLasts(s, mine, a);
      TerminationCompletes(Move(s, mine, a).s, trace[1..]);
    }
  }

  /** Due steps leave a stranded pair stranded. */
  lemma {:induction false} DueStepsDoNotHelp(s: Sys, trace: seq<(bool, Action)>)
    requires Stranded(s) && Drains(s, trace)
    ensures Stranded(Drained(s, trace))
    decreases |trace|
  {
    if trace == [] {
    } else {
      var (mine, a) := trace[0];
      StrandedOrFree(s, mine, a);
      DueStepsDoNotHelp(Move(s, mine, a).s, trace[1..]);
    }
  }

  lemma {:induction false} DrainsSwap(s: Sys, trace: seq<(bool, Action)>) returns (mirror: seq<(bool, Action)>)
    requires Drains(s, trace)
    ensures Drains(Swap(s), mirror) && Drained(Swap(s), mirror) == Swap(Drained(s, trace))
    decreases |trace|
  {
    if trace == [] {
      mirror := [];
    } else {
      var (mine, a) := trace[0];
      var m := DrainsSwap(Move(s, mine, a).s, trace[1..]);
      assert Move(Swap(s), !mine, a) == Next(Swap(Move(s, mine, a).s));
      mirror := [(!mine, a)] + m;
      assert mirror[1..] == m;
    }
  }

  /** Whatever happened before, hiccups included: when no due step is left after either end asked
      to terminate, both ends are deallocated exactly if the pair was not stranded. */
  lemma {:induction false} TerminationExactly(hwm0: int, hwm1: int, trace: seq<(bool, Action)>, due: seq<(bool, Action)>)
    requires var r := Run(Init(hwm0, hwm1), trace);
      r.Next? ==> Terminating(r.s) && Drains(r.s, due) && forall mine, a :: !Due(Drained(r.s, due), mine, a)
    ensures Run(Init(hwm0, hwm1), trace).Next?
    ensures var s := Run(Init(hwm0, hwm1), trace).s;
            && |due| <= Remaining(s)
            && (!Drained(s, due).me.alive && !Drained(s, due).you.alive <==> !Stuck(s))
  {
    EveryRunGoesOrStrands(hwm0, hwm1, trace);
    EveryRunIsSafe(hwm0, hwm1, trace);
    var s := Run(Init(hwm0, hwm1), trace).s;
    DueStepsEnd(s, due);
    if Stranded(s) {
      DueStepsDoNotHelp(s, due);
    } else if Stranded(Swap(s)) {
      var mirror := DrainsSwap(s, due);
      DueStepsDoNotHelp(Swap(s), mirror);
    } else {
      TerminationCompletes(s, due);
    }
  }
}
