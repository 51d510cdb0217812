/** The publisher: subscriptions in the trie choose which of the distributor's pipes a
    message goes to. */
module Publisher {
  import opened Basics
  import opened PipeArrays
  import opened Distributor
  import opened Parts
  import S = Subscriptions
  import T = Mtrie

  /** The pipes subscribed to some prefix of the data. */
  ghost function Subscribers(subs: set<S.Subscription>, data: seq<Byte>): set<Pipe> {
    set s | s in subs && s.0 <= data :: s.1
  }

  lemma SubscribersHavePrefix(subs: set<S.Subscription>, data: seq<Byte>, q: Pipe)
    ensures q in Subscribers(subs, data) <==> exists k :: 0 <= k <= |data| && (data[..k], q) in subs
  {
    if q in Subscribers(subs, data) {
      var s :| s in subs && s.0 <= data && s.1 == q;
      assert data[..|s.0|] == s.0 && s == (data[..|s.0|], q);
    }
    if k :| 0 <= k <= |data| && (data[..k], q) in subs {
      assert (data[..k], q).0 <= data;
    }
  }

  /** Which pipes a message should go to. */
  ghost function Wanted(eligible: set<Pipe>, subscribers: set<Pipe>, invert: bool): set<Pipe> {
    if invert then eligible - subscribers else eligible * subscribers
  }

  /** Which pipes are chosen when some are already marked. */
  ghost function PipesChosen(marked: set<Pipe>, eligible: set<Pipe>, subscribers: set<Pipe>, invert: bool): set<Pipe> {
    var m := marked + eligible * subscribers;
    if invert then eligible - m else m
  }

  /** The choice is the wanted one exactly when only subscribers were marked before. */
  lemma ChoiceIsExact(marked: set<Pipe>, eligible: set<Pipe>, subscribers: set<Pipe>, invert: bool)
    requires marked <= eligible
    ensures PipesChosen(marked, eligible, subscribers, invert) == Wanted(eligible, subscribers, invert)
            <==> marked <= subscribers
  {
    if p :| p in marked - subscribers {
      assert p in PipesChosen(marked, eligible, subscribers, false) && p !in Wanted(eligible, subscribers, false);
      assert p !in PipesChosen(marked, eligible, subscribers, true) && p in Wanted(eligible, subscribers, true);
    }
  }

  /** What decides where messages go.  `failed` are the sends of a first part that failed since a
      message was last finished, each given by the pipes it was meant for. */
  datatype State = State(subs: set<S.Subscription>, eligible: set<Pipe>, marked: set<Pipe>, more: bool,
                         failed: seq<set<Pipe>>)

  datatype Call =
    | Attach(p: Pipe, subscribeToAll: bool)
    | Subscribe(prefix: seq<Byte>, p: Pipe)
    | Unsubscribe(prefix: seq<Byte>, p: Pipe)
    | WriteActivated(p: Pipe)
    | PipeTerminated(p: Pipe)
    | Send(data: seq<Byte>, msgMore: bool, full: set<Pipe>, room: set<Pipe>)

  datatype Options = Options(lossy: bool, invert: bool)

  const START := State({}, {}, {}, false, [])

  ghost function WantedBy(s: State, data: seq<Byte>, o: Options): set<Pipe> {
    Wanted(s.eligible, Subscribers(s.subs, data), o.invert)
  }

  /** The pipes a part is for: those of its message, or those chosen for its first part. */
  ghost function Targets(s: State, data: seq<Byte>, o: Options): set<Pipe> {
    if s.more then s.marked else PipesChosen(s.marked, s.eligible, Subscribers(s.subs, data), o.invert)
  }

  ghost predicate Accepted(s: State, data: seq<Byte>, room: set<Pipe>, o: Options) {
    o.lossy || Targets(s, data, o) <= room
  }

  ghost function Step(s: State, c: Call, o: Options): State {
    match c
    case Attach(p, subscribeToAll) =>
      s.(eligible := s.eligible + {p}, subs := s.subs + if subscribeToAll then {([], p)} else {})
    case Subscribe(prefix, p) => s.(subs := s.subs + {(prefix, p)})
    case Unsubscribe(prefix, p) => s.(subs := s.subs - {(prefix, p)})
    case WriteActivated(p) => s.(eligible := s.eligible + {p})
    case PipeTerminated(p) =>
      s.(subs := S.Without(s.subs, p), eligible := s.eligible - {p}, marked := s.marked - {p}, failed := Forgotten(s.failed, p))
    case Send(data, msgMore, full, room) =>
      var t := s.(marked := Targets(s, data, o));
      if Accepted(s, data, room, o) then Offered(t, msgMore, full)
      else if s.more then t
      else t.(failed := s.failed + [WantedBy(s, data, o)])
  }

  /** The marked pipes were offered the part; the last part of a message clears the marks. */
  ghost function Offered(s: State, msgMore: bool, full: set<Pipe>): State {
    if msgMore then s.(marked := s.marked - full, eligible := s.eligible - s.marked * full, more := true)
    else State(s.subs, s.eligible - s.marked * full, {}, false, [])
  }

  ghost function Run(s: State, cs: seq<Call>, o: Options): State
    decreases |cs|
  {
    if cs == [] then s else Run(Step(s, cs[0], o), cs[1..], o)
  }

  /** How many of the failed sends, counted back from the last one, were all meant for the pipe. */
  ghost function Streak(failed: seq<set<Pipe>>, p: Pipe): nat {
    if failed == [] || p !in failed[|failed| - 1] then 0 else 1 + Streak(failed[..|failed| - 1], p)
  }

  /** The failed sends have left the pipe marked: without inversion any one meant for it does,
      with inversion each later one takes the mark away or sets it again. */
  ghost predicate Lingers(failed: seq<set<Pipe>>, p: Pipe, invert: bool) {
    if invert then Streak(failed, p) % 2 == 1 else exists i :: 0 <= i < |failed| && p in failed[i]
  }

  ghost function Forgotten(failed: seq<set<Pipe>>, p: Pipe): seq<set<Pipe>> {
    seq(|failed|, i requires 0 <= i < |failed| => failed[i] - {p})
  }

  lemma {:induction false} StreakForgotten(failed: seq<set<Pipe>>, p: Pipe, q: Pipe)
    ensures Streak(Forgotten(failed, p), q) == if q == p then 0 else Streak(failed, q)
  {
    if failed == [] {
    } else {
      var n := |failed| - 1;
      assert Forgotten(failed, p)[..n] == Forgotten(failed[..n], p);
      StreakForgotten(failed[..n], p, q);
    }
  }

  lemma NothingLingers(invert: bool)
    ensures forall p :: !Lingers([], p, invert)
  {}

  lemma LingersForgotten(failed: seq<set<Pipe>>, p: Pipe, invert: bool)
    ensures forall q :: Lingers(Forgotten(failed, p), q, invert) <==> q != p && Lingers(failed, q, invert)
  {
    forall q ensures Lingers(Forgotten(failed, p), q, invert) <==> q != p && Lingers(failed, q, invert) {
      StreakForgotten(failed, p, q);
      if i :| 0 <= i < |failed| && q in failed[i] && q != p {
        assert q in Forgotten(failed, p)[i];
      }
      if i :| 0 <= i < |failed| && q in Forgotten(failed, p)[i] {
        assert q in failed[i];
      }
    }
  }

  lemma LingersNext(failed: seq<set<Pipe>>, w: set<Pipe>, invert: bool)
    ensures forall q :: Lingers(failed + [w], q, invert)
                        <==> if invert then q in w && !Lingers(failed, q, invert) else q in w || Lingers(failed, q, invert)
  {
    var next := failed + [w];
    assert next[..|failed|] == failed && next[|failed|] == w;
    forall q ensures Lingers(next, q, invert)
                     <==> if invert then q in w && !Lingers(failed, q, invert) else q in w || Lingers(failed, q, invert)
    {
      if i :| 0 <= i < |failed| && q in failed[i] {
        assert q in next[i];
      }
    }
  }

  /** Between messages exactly the failed sends have left marks. */
  ghost predicate Marks(s: State, o: Options) {
    && s.marked <= s.eligible && (o.lossy ==> s.failed == [])
    && (!s.more ==> forall p :: p in s.marked <==> Lingers(s.failed, p, o.invert))
  }

  lemma StepKeepsMarks(s: State, c: Call, o: Options)
    requires Marks(s, o)
    ensures Marks(Step(s, c, o), o)
  {
    match c
    case PipeTerminated(p) => LingersForgotten(s.failed, p, o.invert);
    case Send(data, msgMore, full, room) =>
      if Accepted(s, data, room, o) {
        NothingLingers(o.invert);
      } else {
        LingersNext(s.failed, WantedBy(s, data, o), o.invert);
        if !s.more {
          FailureMarks(s.marked, s.eligible, Subscribers(s.subs, data), o.invert);
        }
      }
    case _ =>
  }

  /** A failed send marks the pipes it was meant for, and with inversion those only that were not. */
  lemma FailureMarks(marked: set<Pipe>, eligible: set<Pipe>, subscribers: set<Pipe>, invert: bool)
    requires marked <= eligible
    ensures var w := Wanted(eligible, subscribers, invert);
            PipesChosen(marked, eligible, subscribers, invert) == if invert then w - marked else w + marked
  {}

  lemma StartMarks(o: Options)
    ensures Marks(START, o)
  {
    NothingLingers(o.invert);
  }

  lemma {:induction false} RunKeepsMarks(s: State, cs: seq<Call>, o: Options)
    requires Marks(s, o)
    ensures Marks(Run(s, cs, o), o)
    decreases |cs|
  {
    if cs == [] {
    } else {
      StepKeepsMarks(s, cs[0], o);
      RunKeepsMarks(Step(s, cs[0], o), cs[1..], o);
    }
  }

  /** After any calls, a first part goes exactly where it is wanted if the socket is lossy or no
      first part failed since a message was last finished.  In general it does so exactly when
      every pipe that the failed sends left marked is subscribed: without inversion, every pipe
      that one of them was meant for, and with inversion every one that the last of them in a row,
      odd in number, were meant for. */
  lemma FirstPartsGoWhereWanted(s: State, cs: seq<Call>, data: seq<Byte>, o: Options)
    requires Marks(s, o) && !Run(s, cs, o).more
    ensures var t := Run(s, cs, o);
            && (o.lossy || t.failed == [] ==> Targets(t, data, o) == WantedBy(t, data, o))
            && (Targets(t, data, o) == WantedBy(t, data, o)
                <==> forall p :: Lingers(t.failed, p, o.invert) ==> p in Subscribers(t.subs, data))
  {
    RunKeepsMarks(s, cs, o);
    var t := Run(s, cs, o);
    ChoiceIsExact(t.marked, t.eligible, Subscribers(t.subs, data), o.invert);
  }

  /** A failed send of a first part is tried again: without inversion it goes where it went
      before.  With inversion it goes to nobody, and is reported as sent. */
  lemma RetriedSend(s: State, first: Call, again: Call, o: Options)
    requires Marks(s, o) && !s.more && s.failed == []
    requires first.Send? && !Accepted(s, first.data, first.room, o)
    requires again.Send? && again.data == first.data
    ensures var t := Step(s, first, o);
            && Targets(t, again.data, o) == (if o.invert then {} else WantedBy(s, first.data, o))
            && WantedBy(t, again.data, o) == WantedBy(s, first.data, o) != {}
            && (o.invert ==> Accepted(t, again.data, again.room, o))
  {}

  /** Any later attempt, too, goes where the one before it went; with inversion, to the
      pipes that were marked before both and do not subscribe. */
  lemma RetriedAgain(s: State, first: Call, again: Call, o: Options)
    requires Marks(s, o) && !s.more
    requires first.Send? && !Accepted(s, first.data, first.room, o)
    requires again.Send? && again.data == first.data
    ensures Targets(Step(s, first, o), again.data, o)
            == if o.invert then s.marked - Subscribers(s.subs, first.data) else Targets(s, first.data, o)
  {}

  /** Attempts to send one part, all of which fail. */
  ghost predicate AllFail(s: State, cs: seq<Call>, data: seq<Byte>, o: Options)
    decreases |cs|
  {
    cs != [] ==>
      && cs[0].Send? && cs[0].data == data && !Accepted(s, data, cs[0].room, o)
      && AllFail(Step(s, cs[0], o), cs[1..], data, o)
  }

  lemma {:induction false} AttemptsChangeNothing(s: State, cs: seq<Call>, data: seq<Byte>, o: Options)
    requires Marks(s, o) && !s.more && !o.invert && AllFail(s, cs, data, o)
    ensures var t := Run(s, cs, o);
            !t.more && t.subs == s.subs && t.eligible == s.eligible && Targets(t, data, o) == Targets(s, data, o)
    decreases |cs|
  {
    if cs == [] {
    } else {
      var t := Step(s, cs[0], o);
      StepKeepsMarks(s, cs[0], o);
      RetriedAgain(s, cs[0], cs[0], o);
      AttemptsChangeNothing(t, cs[1..], data, o);
    }
  }

  /** A blocking send tries again until it succeeds.  After any number of failures the part still
      goes where it was wanted at first; with inversion only the first attempt can fail, and the
      second one goes to nobody. */
  lemma {:induction false} BlockingSend(s: State, cs: seq<Call>, data: seq<Byte>, o: Options)
    requires Marks(s, o) && !s.more && s.failed == [] && AllFail(s, cs, data, o)
    ensures o.invert ==> |cs| <= 1
    ensures var t := Run(s, cs, o);
            && !t.more && t.subs == s.subs && t.eligible == s.eligible
            && Targets(t, data, o) == if o.invert && cs != [] then {} else WantedBy(s, data, o)
  {
    if !o.invert {
      AttemptsChangeNothing(s, cs, data, o);
    } else if cs != [] {
      var t := Step(s, cs[0], o);
      RetriedSend(s, cs[0], cs[0], o);
      assert Targets(t, data, o) == {};
      assert cs[1..] == [];
      assert Run(s, cs, o) == Run(t, cs[1..], o);
    }
  }

  /** The later parts of a message go where its first part went, whatever they contain, except to pipes that
      refused a part. */
  lemma LaterPartsFollow(s: State, first: Call, data: seq<Byte>, o: Options)
    requires first.Send? && first.msgMore && Accepted(s, first.data, first.room, o)
    ensures var t := Step(s, first, o); t.more && Targets(t, data, o) == Targets(s, first.data, o) - first.full
  {}

  // -------------------------------------------------- the state from the calls alone

  lemma {:induction false} RunNext(s: State, cs: seq<Call>, c: Call, o: Options)
    ensures Run(s, cs + [c], o) == Step(Run(s, cs, o), c, o)
    decreases |cs|
  {
    if cs == [] {
      assert (cs + [c])[1..] == [];
    } else {
      assert (cs + [c])[0] == cs[0] && (cs + [c])[1..] == cs[1..] + [c];
      RunNext(Step(s, cs[0], o), cs[1..], c, o);
    }
  }

  predicate Begins(c: Call, prefix: seq<Byte>, p: Pipe) {
    c == Subscribe(prefix, p) || (c == Attach(p, true) && prefix == [])
  }

  predicate Ends(c: Call, prefix: seq<Byte>, p: Pipe) {
    c == Unsubscribe(prefix, p) || c == PipeTerminated(p)
  }

  /** Some call subscribed the pipe and no later one ended that. */
  ghost predicate Stands(cs: seq<Call>, prefix: seq<Byte>, p: Pipe) {
    exists i :: 0 <= i < |cs| && Begins(cs[i], prefix, p) && forall j :: i < j < |cs| ==> !Ends(cs[j], prefix, p)
  }

  lemma StandsNext(cs: seq<Call>, c: Call, prefix: seq<Byte>, p: Pipe)
    ensures Stands(cs + [c], prefix, p) <==> Begins(c, prefix, p) || (Stands(cs, prefix, p) && !Ends(c, prefix, p))
  {
    var next := cs + [c];
    if Begins(c, prefix, p) {
      assert Begins(next[|cs|], prefix, p);
    } else if Stands(cs, prefix, p) && !Ends(c, prefix, p) {
      var i :| 0 <= i < |cs| && Begins(cs[i], prefix, p) && forall j :: i < j < |cs| ==> !Ends(cs[j], prefix, p);
      assert Begins(next[i], prefix, p);
    }
    if i :| 0 <= i < |next| && Begins(next[i], prefix, p) && forall j :: i < j < |next| ==> !Ends(next[j], prefix, p) {
      if i < |cs| {
        assert !Ends(next[|cs|], prefix, p);
        assert Begins(cs[i], prefix, p);
        assert forall j :: i < j < |cs| ==> cs[j] == next[j];
      }
    }
  }

  /** A pipe is subscribed to a prefix exactly if it subscribed, or was attached with a subscription to all,
      and has neither unsubscribed nor ended since. */
  lemma {:induction false} SubscribedByCalls(s: State, cs: seq<Call>, o: Options, prefix: seq<Byte>, p: Pipe)
    requires s.subs == {}
    ensures (prefix, p) in Run(s, cs, o).subs <==> Stands(cs, prefix, p)
    decreases |cs|
  {
    if cs == [] {
    } else {
      var init, c := cs[..|cs| - 1], cs[|cs| - 1];
      assert cs == init + [c];
      RunNext(s, init, c, o);
      StandsNext(init, c, prefix, p);
      SubscribedByCalls(s, init, o, prefix, p);
      SubscriptionStep(Run(s, init, o), c, o, prefix, p);
    }
  }

  lemma SubscriptionStep(s: State, c: Call, o: Options, prefix: seq<Byte>, p: Pipe)
    ensures (prefix, p) in Step(s, c, o).subs <==> Begins(c, prefix, p) || ((prefix, p) in s.subs && !Ends(c, prefix, p))
  {}

  /** A part was sent that this pipe refused. */
  ghost predicate Refuses(s: State, c: Call, o: Options, p: Pipe) {
    c.Send? && Accepted(s, c.data, c.room, o) && p in Targets(s, c.data, o) && p in c.full
  }

  /** The call at `i` made the pipe eligible, and since then it has neither ended nor refused a part. */
  ghost predicate ServesSince(s: State, cs: seq<Call>, o: Options, p: Pipe, i: nat) {
    && i < |cs| && Admits(cs[i], p)
    && forall j {:trigger cs[j]} :: i < j < |cs| ==> cs[j] != PipeTerminated(p) && !Refuses(Run(s, cs[..j], o), cs[j], o, p)
  }

  ghost predicate Serves(s: State, cs: seq<Call>, o: Options, p: Pipe) {
    exists i: nat :: ServesSince(s, cs, o, p, i)
  }

  predicate Admits(c: Call, p: Pipe) {
    (c.Attach? || c.WriteActivated?) && c.p == p
  }

  lemma ServesNext(s: State, cs: seq<Call>, c: Call, o: Options, p: Pipe)
    ensures Serves(s, cs + [c], o, p) <==>
            Admits(c, p) || (Serves(s, cs, o, p) && c != PipeTerminated(p) && !Refuses(Run(s, cs, o), c, o, p))
  {
    var next := cs + [c];
    assert next[..|cs|] == cs;
    assert forall j :: 0 <= j < |cs| ==> next[..j] == cs[..j];
    if Admits(c, p) {
      assert ServesSince(s, next, o, p, |cs|);
    } else if Serves(s, cs, o, p) && c != PipeTerminated(p) && !Refuses(Run(s, cs, o), c, o, p) {
      var i: nat :| ServesSince(s, cs, o, p, i);
      assert ServesSince(s, next, o, p, i);
    }
    if i: nat :| ServesSince(s, next, o, p, i) {
      if i < |cs| {
        assert next[|cs|] == c;
        assert forall j :: i < j < |cs| ==> cs[j] == next[j];
        assert ServesSince(s, cs, o, p, i);
      }
    }
  }

  /** A pipe is eligible exactly if it was attached or got room again, and has neither ended nor refused a
      part since. */
  lemma {:induction false} EligibleByCalls(s: State, cs: seq<Call>, o: Options, p: Pipe)
    requires s.eligible == {}
    ensures p in Run(s, cs, o).eligible <==> Serves(s, cs, o, p)
    decreases |cs|
  {
    if cs == [] {
    } else {
      var init, c := cs[..|cs| - 1], cs[|cs| - 1];
      assert cs == init + [c];
      RunNext(s, init, c, o);
      ServesNext(s, init, c, o, p);
      EligibleByCalls(s, init, o, p);
      EligibilityStep(Run(s, init, o), c, o, p);
    }
  }

  lemma EligibilityStep(s: State, c: Call, o: Options, p: Pipe)
    ensures p in Step(s, c, o).eligible <==>
            Admits(c, p) || (p in s.eligible && c != PipeTerminated(p) && !Refuses(s, c, o, p))
  {}

  class XPub {
    const subscriptions: T.Node
    const dist: Dist
    const lossy: bool    // drop for a pipe that is full instead of failing the send
    const invert: bool
    var more: bool
    ghost var failed: seq<set<Pipe>>

    ghost predicate Valid()
      reads this, subscriptions, subscriptions.Repr, dist, dist.pipes
    {
      && subscriptions.Valid() && dist.Valid() && more == dist.more
      && (forall s :: s in subscriptions.Subs ==> s.1 in dist.All())
      && Marks(View(), Settings())
    }

    ghost function View(): State
      requires dist.Valid()
      reads this, subscriptions, dist, dist.pipes
    {
      State(subscriptions.Subs, dist.Eligible(), dist.Matching(), more, failed)
    }

    ghost function Settings(): Options {
      Options(lossy, invert)
    }

    constructor (lossy: bool, invert: bool)
      ensures Valid() && fresh(subscriptions.Repr) && fresh(dist) && fresh(dist.pipes)
      ensures View() == START && this.lossy == lossy && this.invert == invert
      ensures dist.All() == {} && dist.number == 0 && dist.position == 0
    {
      subscriptions := new T.Node();
      dist := new Dist();
      this.lossy, this.invert, more, failed := lossy, invert, false, [];
      new;
      assert View() == START;
      StartMarks(Settings());
    }

    method Attach(p: Pipe, subscribeToAll: bool)
      requires Valid() && p !in dist.All()
      modifies subscriptions.Repr, dist, dist.pipes
      ensures Valid() && fresh(subscriptions.Repr - old(subscriptions.Repr))
      ensures View() == Step(old(View()), Call.Attach(p, subscribeToAll), Settings())
      ensures dist.All() == old(dist.All()) + {p}
      ensures dist.sent == old(dist.sent)[p := []] && dist.number == old(dist.number) && dist.position == old(dist.position)
    {
      dist.Attach(p);
      if subscribeToAll {
        var unique := subscriptions.Add([], p);
      }
    }

    /** A subscription arrives from a pipe; true when it must be passed upstream. */
    method Subscribe(prefix: seq<Byte>, p: Pipe) returns (unique: bool)
      requires Valid() && p in dist.All()
      modifies subscriptions.Repr
      ensures Valid() && fresh(subscriptions.Repr - old(subscriptions.Repr))
      ensures View() == Step(old(View()), Call.Subscribe(prefix, p), Settings())
      ensures unique <==> forall q: Pipe :: (prefix, q) !in old(subscriptions.Subs)
    {
      unique := subscriptions.Add(prefix, p);
    }

    /** A pipe takes back a subscription; true when nobody has it any more.  Nobody checks that the
        pipe has it: the trie's assertion fails when only others have. */
    method Unsubscribe(prefix: seq<Byte>, p: Pipe) returns (last: Option<bool>)
      requires Valid()
      modifies subscriptions.Repr
      ensures Valid() && subscriptions.Repr == old(subscriptions.Repr)
      ensures View() == Step(old(View()), Call.Unsubscribe(prefix, p), Settings())
      ensures last.None? <==> S.Foreign(old(subscriptions.Subs), prefix, p)
      ensures last.Some? ==>
                (last.value <==> (prefix == [] || S.Reaches(old(subscriptions.Subs), prefix))
                                 && forall q: Pipe :: (prefix, q) !in subscriptions.Subs)
    {
      last := subscriptions.Rm(prefix, p);
    }

    /** A pipe has room again. */
    method WriteActivated(p: Pipe)
      requires Valid() && p in dist.All() && p !in dist.Eligible()
      modifies dist, dist.pipes
      ensures Valid() && dist.All() == old(dist.All())
      ensures View() == Step(old(View()), Call.WriteActivated(p), Settings())
    {
      dist.Activated(p);
    }

    /** The pipe is gone: its subscriptions go, and the prefixes nobody else has are passed upstream. */
    method PipeTerminated(p: Pipe, verboseUnsubs: bool) returns (upstream: seq<seq<Byte>>)
      requires Valid() && p in dist.All()
      modifies this`failed, subscriptions.Repr, dist, dist.pipes
      ensures Valid() && subscriptions.Repr == old(subscriptions.Repr)
      ensures View() == Step(old(View()), Call.PipeTerminated(p), Settings())
      ensures dist.All() == old(dist.All()) - {p}
      ensures forall x: seq<Byte> :: x in upstream <==> S.Affected(old(subscriptions.Subs), x, p, !verboseUnsubs)
    {
      upstream := subscriptions.RmAll(p, !verboseUnsubs);
      dist.PipeTerminated(p);
      LingersForgotten(failed, p, invert);
      failed := Forgotten(failed, p);
    }

    /** Marks every pipe the trie calls back for. */
    method MarkMatching(data: seq<Byte>)
      requires Valid() && !more
      modifies dist`matching, dist.pipes
      ensures dist.Valid() && dist.All() == old(dist.All())
      ensures dist.Active() == old(dist.Active()) && dist.Eligible() == old(dist.Eligible())
      ensures dist.Matching() == old(dist.Matching()) + dist.Eligible() * Subscribers(subscriptions.Subs, data)
    {
      var calls := subscriptions.Match(data);
      ghost var old0, eligible, all := dist.Matching(), dist.Eligible(), dist.All();
      CallsAreSubscribers(calls, subscriptions.Subs, data);
      CallsAreThere(calls, subscriptions.Subs, data, all);
      var i := 0;
      while i < |calls|
        invariant i <= |calls| && dist.Valid() && !dist.more && dist.All() == all
        invariant dist.Active() == old(dist.Active()) && dist.Eligible() == eligible
        invariant dist.Matching() == old0 + eligible * Called(calls[..i])
      {
        dist.Match(calls[i]);
        CalledNext(calls, i);
        i := i + 1;
      }
      assert calls[..i] == calls;
    }

    /** Sends one part; the first part of a message chooses the pipes.  `full` are the pipes
        that refuse the part, `room` those below their high watermark. */
    method Send(data: seq<Byte>, msgMore: bool, small: bool, full: set<Pipe>, room: set<Pipe>) returns (ok: bool)
      requires Valid()
      modifies this, dist, dist.pipes
      ensures Valid() && dist.All() == old(dist.All())
      ensures ok <==> Accepted(old(View()), data, room, Settings())
      ensures View() == Step(old(View()), Call.Send(data, msgMore, full, room), Settings())
      ensures ok ==> Delivered(old(dist.sent), old(dist.flushed), dist.sent, dist.flushed,
                               Targets(old(View()), data, Settings()) - full,
                               Part(old(dist.number), old(dist.position), msgMore))
      ensures !ok ==> dist.sent == old(dist.sent) && dist.flushed == old(dist.flushed)
      ensures (dist.number, dist.position) == if !ok then old((dist.number, dist.position))
                                              else if msgMore then (old(dist.number), old(dist.position) + 1)
                                              else (old(dist.number) + 1, 0)
    {
      ghost var s := View();
      StepKeepsMarks(s, Call.Send(data, msgMore, full, room), Settings());
      if !more {
        Choose(data);
      }
      ok := SendMarked(msgMore, small, full, room);
      if !ok && !more {
        failed := failed + [WantedBy(s, data, Settings())];
      }
    }

    /** Sends the part if the socket is lossy or all the marked pipes have room. */
    method SendMarked(msgMore: bool, small: bool, full: set<Pipe>, room: set<Pipe>) returns (ok: bool)
      requires dist.Valid() && more == dist.more
      modifies this, dist, dist.pipes
      ensures dist.Valid() && more == dist.more && dist.All() == old(dist.All())
      ensures ok <==> lossy || old(dist.Matching()) <= room
      ensures View() == if ok then Offered(old(View()), msgMore, full) else old(View())
      ensures ok ==> Delivered(old(dist.sent), old(dist.flushed), dist.sent, dist.flushed, old(dist.Matching()) - full,
                               Part(old(dist.number), old(dist.position), msgMore))
      ensures !ok ==> dist.sent == old(dist.sent) && dist.flushed == old(dist.flushed)
      ensures (dist.number, dist.position) == if !ok then old((dist.number, dist.position))
                                              else if msgMore then (old(dist.number), old(dist.position) + 1)
                                              else (old(dist.number) + 1, 0)
    {
      ok := lossy;
      if !ok {
        ok := dist.CheckHwm(room);
      }
      if ok {
        SendOn(msgMore, small, full);
      }
    }

    /** Marks the pipes for a new message. */
    method Choose(data: seq<Byte>)
      requires Valid() && !more
      modifies dist`matching, dist.pipes
      ensures dist.Valid() && dist.All() == old(dist.All())
      ensures View() == old(View()).(marked := Targets(old(View()), data, Settings()))
    {
      MarkMatching(data);
      if invert {
        dist.ReverseMatch();
      }
    }

    method SendOn(msgMore: bool, small: bool, full: set<Pipe>)
      requires dist.Valid() && more == dist.more
      modifies this, dist, dist.pipes
      ensures dist.Valid() && more == dist.more && dist.All() == old(dist.All())
      ensures View() == Offered(old(View()), msgMore, full)
      ensures (dist.number, dist.position) == if msgMore then (old(dist.number), old(dist.position) + 1)
                                              else (old(dist.number) + 1, 0)
      ensures Delivered(old(dist.sent), old(dist.flushed), dist.sent, dist.flushed, old(dist.Matching()) - full,
                        Part(old(dist.number), old(dist.position), msgMore))
    {
      ghost var tried;
      var refs;
      tried, refs := dist.SendToMatching(msgMore, small, full);
      if !msgMore {
        dist.Unmatch();
        failed := [];
      }
      more := msgMore;
    }
  }

  /** What a blocking send does after a failure: the same part again.  Without inversion it goes
      where it was wanted; with inversion the second attempt succeeds and nobody gets the part. */
  method Retry(x: XPub, data: seq<Byte>, msgMore: bool, small: bool, full: set<Pipe>, room: set<Pipe>,
               fullAgain: set<Pipe>, roomAgain: set<Pipe>) returns (ok: bool, okAgain: bool)
    requires x.Valid() && !x.more && x.failed == []
    modifies x, x.dist, x.dist.pipes
    ensures x.Valid() && (ok ==> okAgain)
    ensures !ok ==> WantedBy(old(x.View()), data, x.Settings()) != {}
    ensures !ok && okAgain ==>
              Delivered(old(x.dist.sent), old(x.dist.flushed), x.dist.sent, x.dist.flushed,
                        (if x.invert then {} else WantedBy(old(x.View()), data, x.Settings())) - fullAgain,
                        Part(old(x.dist.number), old(x.dist.position), msgMore))
    ensures !ok && x.invert ==> okAgain
  {
    ghost var s, o := x.View(), x.Settings();
    ok := x.Send(data, msgMore, small, full, room);
    okAgain := ok;
    if !ok {
      RetriedSend(s, Send(data, msgMore, full, room), Send(data, msgMore, fullAgain, roomAgain), o);
      okAgain := x.Send(data, msgMore, small, fullAgain, roomAgain);
    }
  }

  /** A pipe that subscribes to one topic. */
  method AttachSubscriber(x: XPub, p: Pipe, topic: seq<Byte>)
    requires x.Valid() && p !in x.dist.All()
    modifies x.subscriptions.Repr, x.dist, x.dist.pipes
    ensures x.Valid() && fresh(x.subscriptions.Repr - old(x.subscriptions.Repr)) && x.dist.All() == old(x.dist.All()) + {p}
    ensures x.View() == old(x.View()).(subs := old(x.View().subs) + {(topic, p)}, eligible := old(x.View().eligible) + {p})
    ensures x.dist.sent.Keys == old(x.dist.sent.Keys) + {p}
    ensures x.dist.number == old(x.dist.number) && x.dist.position == old(x.dist.position)
  {
    x.Attach(p, false);
    var unique := x.Subscribe(topic, p);
  }

  /** With pipe 1 subscribed to topic 65 and pipe 2 to topic 66, a message for topic 65 fails, as
      pipe 1 has no room, and is given up; the next one, for topic 66, also goes to pipe 1. */
  method SendAnother(x: XPub)
    requires x.Valid() && x.View() == State({([65], 1), ([66], 2)}, {1, 2}, {}, false, [])
    requires !x.lossy && !x.invert && {1, 2} <= x.dist.sent.Keys
    modifies x, x.dist, x.dist.pipes
    ensures x.Valid() && x.View().subs == old(x.View().subs) && Subscribers(x.View().subs, [66]) == {2}
    ensures {1, 2} <= x.dist.sent.Keys
    ensures forall p :: p in {1, 2} ==> x.dist.sent[p] == old(x.dist.sent[p] + [Part(x.dist.number, x.dist.position, false)])
  {
    Misdirected(x.View(), x.Settings());
    var ok := x.Send([65], false, true, {}, {2});
    ok := x.Send([66], false, true, {}, {1, 2});
  }

  method OneSubscriber(p: Pipe, topic: seq<Byte>) returns (x: XPub)
    ensures fresh(x) && fresh(x.subscriptions.Repr) && fresh(x.dist) && fresh(x.dist.pipes)
    ensures x.Valid() && x.dist.All() == {p} && p in x.dist.sent && !x.lossy && !x.invert
    ensures x.View() == State({(topic, p)}, {p}, {}, false, [])
  {
    x := new XPub(false, false);
    AttachSubscriber(x, p, topic);
  }

  /** Such a socket comes about, for pipes 1 and 2 and topics 65 and 66. */
  method TwoSubscribers(p: Pipe, q: Pipe, a: seq<Byte>, b: seq<Byte>) returns (x: XPub)
    requires p != q
    ensures fresh(x) && fresh(x.dist) && fresh(x.dist.pipes) && x.Valid() && {p, q} <= x.dist.sent.Keys
    ensures x.View() == State({(a, p)} + {(b, q)}, {p} + {q}, {}, false, []) && !x.lossy && !x.invert
  {
    x := OneSubscriber(p, a);
    AttachSubscriber(x, q, b);
  }

  /** A peer that unsubscribes from what only another one has makes the assertion fail. */
  method ForeignUnsubscription(p: Pipe, q: Pipe, topic: seq<Byte>) returns (last: Option<bool>)
    requires p != q
    ensures last == None
  {
    var x := OneSubscriber(p, topic);
    x.Attach(q, false);
    assert (topic, p) in x.View().subs;
    last := x.Unsubscribe(topic, q);
  }

  lemma Misdirected(s: State, o: Options)
    requires s == State({([65], 1), ([66], 2)}, {1, 2}, {}, false, []) && !o.lossy && !o.invert
    ensures !Accepted(s, [65], {2}, o) && Subscribers(s.subs, [66]) == {2}
    ensures Targets(Step(s, Send([65], false, {}, {2}), o), [66], o) == {1, 2}
    ensures !s.more && !Step(s, Send([65], false, {}, {2}), o).more
    ensures Step(s, Send([65], false, {}, {2}), o).subs == s.subs
  {
    TwoTopics(s.subs);
    assert Targets(s, [65], o) == {1};
    assert 1 in Targets(s, [65], o);
  }

  lemma TwoTopics(subs: set<S.Subscription>)
    requires subs == {([65], 1), ([66], 2)}
    ensures Subscribers(subs, [65]) == {1} && Subscribers(subs, [66]) == {2}
  {
    var a: seq<Byte>, b: seq<Byte> := [65], [66];
    assert a[0] != b[0];
    assert !(a <= b) && !(b <= a);
    assert (a, 1 as Pipe) in subs && (b, 2 as Pipe) in subs;
  }

  ghost function Called(calls: seq<Pipe>): set<Pipe> {
    set q | q in calls
  }

  lemma CalledNext(calls: seq<Pipe>, i: nat)
    requires i < |calls|
    ensures Called(calls[..i + 1]) == Called(calls[..i]) + {calls[i]}
  {
    assert calls[..i + 1] == calls[..i] + [calls[i]];
  }

  lemma CallsAreThere(calls: seq<Pipe>, subs: set<S.Subscription>, data: seq<Byte>, all: set<Pipe>)
    requires Called(calls) == Subscribers(subs, data) && forall s :: s in subs ==> s.1 in all
    ensures forall i :: 0 <= i < |calls| ==> calls[i] in all
  {
    forall i | 0 <= i < |calls| ensures calls[i] in all {
      assert calls[i] in Called(calls);
    }
  }

  lemma CallsAreSubscribers(calls: seq<Pipe>, subs: set<S.Subscription>, data: seq<Byte>)
    requires T.Counted(calls, subs, data, |data| + 1)
    ensures Called(calls) == Subscribers(subs, data)
  {
    forall q ensures q in Called(calls) <==> q in Subscribers(subs, data) {
      T.MatchSelects(calls, subs, data, q);
      SubscribersHavePrefix(subs, data, q);
    }
  }
}
