/** What the load balancer's pipes hold is what its sends reported, part by part. */
module BalancerLogs {
  import opened Basics
  import opened Parts
  import opened PipeArrays
  import opened RoundRobin
  import opened LoadBalancing

  /** The pipe whose turn it is. */
  predicate HasTurn(s: State, p: Pipe) {
    s.ring.current < |s.ring.items| && s.ring.items[s.ring.current] == p
  }

  /** The parts of a message have one number and count up; the next message has the next number. */
  predicate Numbered(s: State, t: State, o: Outcome, m: bool) {
    match o
    case Again =>
      !t.more && !t.dropping
      && (t.number, t.position) == if s.more then (s.number + 1, 0) else (s.number, s.position)
    case _ =>
      t.more == m && (t.dropping <==> o.Dropped? && m)
      && (t.number, t.position) == if m then (s.number, s.position + 1) else (s.number + 1, 0)
  }

  /** A send is dropped exactly while the rest of a message is, without touching a pipe.  Otherwise an active
      pipe with room takes this very part, the one in the middle of a message if there is one; or the send
      fails, and the finished messages are left. */
  lemma {:induction false} SendDoes(s: State, m: bool, full: set<Pipe>, q: Pipe)
    requires GoodState(s) && q in s.sent
    ensures var (t, o) := SendPart(s, m, full);
      && Numbered(s, t, o, m) && q in t.sent
      && (o.Dropped? <==> s.dropping)
      && (o.Sent? ==>
            && IsActive(s.ring, o.pipe) && o.pipe !in full && o.part == Part(s.number, s.position, m)
            && (s.more ==> HasTurn(s, o.pipe))
            && t.sent[q] == s.sent[q] + (if q == o.pipe then [o.part] else []))
      && (o.Dropped? ==> t.sent == s.sent && t.flushed == s.flushed && t.ring == s.ring)
      && (o.Again? ==> t.sent[q] == if s.more && HasTurn(s, q) then s.sent[q][..Complete(s.sent[q])] else s.sent[q])
    decreases s.ring.active
  {
    if s.dropping || s.ring.active == 0 {
    } else if s.ring.items[s.ring.current] !in full {
      GiveDoes(s, m, q);
    } else if s.more {
      RollbackDoes(s, q);
    } else {
      DropKeepsGood(s);
      SendDoes(s.(ring := Drop(s.ring)), m, full, q);
      DropKeepsActive(s.ring);
    }
  }

  lemma GiveDoes(s: State, m: bool, q: Pipe)
    requires GoodState(s) && s.ring.active > 0 && !s.dropping && q in s.sent
    ensures GoodAt(s, s.ring.current)
    ensures var t, p, part := Give(s, m), s.ring.items[s.ring.current], Part(s.number, s.position, m);
      && Numbered(s, t, Sent(p, part), m) && IsActive(s.ring, p) && HasTurn(s, p)
      && q in t.sent && t.sent[q] == s.sent[q] + if q == p then [part] else []
  {
    assert GoodAt(s, s.ring.current);
  }

  lemma RollbackDoes(s: State, q: Pipe)
    requires GoodState(s) && Open(s) && q in s.sent
    ensures GoodAt(s, s.ring.current)
    ensures var t := Rollback(s);
      && Numbered(s, t, Again, true) && q in t.sent
      && t.sent[q] == if HasTurn(s, q) then s.sent[q][..Complete(s.sent[q])] else s.sent[q]
  {
    assert GoodAt(s, s.ring.current);
  }

  lemma DropKeepsActive(r: Ring)
    requires Good(r) && r.active > 0
    ensures forall p :: IsActive(Drop(r), p) ==> IsActive(r, p)
  {
    forall p | IsActive(Drop(r), p) ensures IsActive(r, p) {
      var i :| 0 <= i < Drop(r).active && Drop(r).items[i] == p;
      assert r.items[if i == r.current then r.active - 1 else i] == p;
    }
  }

  /** In the middle of a message a poll reports room, whatever the pipes say. */
  lemma OpenMeansRoom(s: State, full: set<Pipe>)
    requires GoodState(s) && s.more
    ensures CheckOut(s, full) == (s, true)
  {}

  // ------------------------------------------------------------------ every run

  /** What a pipe holds after one more step, by what the step reported. */
  ghost function Logged(s: State, e: Event, p: Pipe, log: seq<Part>): seq<Part>
    requires GoodState(s) && Legal(s, e)
  {
    match e
    case Attach(q) => if q == p then [] else log
    case Send(m, full) =>
      (match SendPart(s, m, full).1
       case Sent(q, part) => if q == p then log + [part] else log
       case Dropped => log
       case Again => if s.more && HasTurn(s, p) then log[..Complete(log)] else log)
    case _ => log
  }

  ghost function AllLogged(s: State, es: seq<Event>, p: Pipe, log: seq<Part>): seq<Part>
    requires GoodState(s) && LegalRun(s, es)
    decreases |es|
  {
    if es == [] then log
    else StepKeepsGood(s, es[0]); AllLogged(Step(s, es[0]).0, es[1..], p, Logged(s, es[0], p, log))
  }

  lemma {:induction false} CheckKeepsLogs(s: State, full: set<Pipe>)
    requires GoodState(s)
    ensures CheckOut(s, full).0.sent == s.sent
    decreases s.ring.active
  {
    if s.more || s.ring.active == 0 || s.ring.items[s.ring.current] !in full {
    } else {
      DropKeepsGood(s);
      CheckKeepsLogs(s.(ring := Drop(s.ring)), full);
    }
  }

  lemma StepLogs(s: State, e: Event, p: Pipe)
    requires GoodState(s) && Legal(s, e) && (p in s.sent || e == Attach(p))
    ensures p in Step(s, e).0.sent
    ensures Step(s, e).0.sent[p] == Logged(s, e, p, if p in s.sent then s.sent[p] else [])
  {
    match e
    case Send(m, full) => SendDoes(s, m, full, p);
    case Check(full) => CheckKeepsLogs(s, full);
    case _ =>
  }

  /** Every pipe holds exactly the parts that were reported sent to it, in order, without those of messages
      that were given up. */
  lemma {:induction false} LogsAreReported(s: State, es: seq<Event>, p: Pipe)
    requires GoodState(s) && LegalRun(s, es) && p in s.sent
    ensures p in Run(s, es).0.sent && Run(s, es).0.sent[p] == AllLogged(s, es, p, s.sent[p])
    decreases |es|
  {
    if es == [] {
    } else {
      StepKeepsGood(s, es[0]);
      StepLogs(s, es[0], p);
      LogsAreReported(Step(s, es[0]).0, es[1..], p);
    }
  }
}
