/** An object of the ownership tree as the program has it, updated in place.  Every
    handler is tied to the function of OwnedObject that the theorems are about: the object
    becomes what the function says, what it sends is added to what was sent and not yet
    taken away, and a handler may be called whenever the function's assertions hold. */
module OwnObject {
  import opened Basics
  import opened OwnedObject

  class Own {
    var owner: Option<nat>
    var terminating: bool
    var sentSeqnum: nat
    var processedSeqnum: nat
    var owned: set<nat>
    var termAcks: int
    var alive: bool
    var termed: seq<nat>             // the objects a termination command was sent to
    var acked: bool                  // whether the owner was sent an acknowledgement
    ghost var reserved: nat
    ghost var launching: Option<nat>
    ghost var events: nat

    ghost function Fields(): Object
      reads this
    {
      Object(owner, terminating, sentSeqnum, processedSeqnum, reserved, launching, owned, termAcks, events, alive)
    }

    /** The object and what it sent since, as the function has it; nobody was sent two
        termination commands. */
    ghost predicate Became(l: Local, termedBefore: seq<nat>, ackedBefore: bool)
      reads this
    {
      && Fields() == l.o && acked == (ackedBefore || l.ack)
      && |termedBefore| <= |termed| && termed[..|termedBefore|] == termedBefore
      && EachOnce(termed[|termedBefore|..], l.terms)
    }

    constructor ()
      ensures Fields() == Object(None, false, 0, 0, 0, None, {}, 0, 0, true) && termed == [] && !acked
    {
      owner, terminating, sentSeqnum, processedSeqnum := None, false, 0, 0;
      owned, termAcks, alive, termed, acked := {}, 0, true, [], false;
      reserved, launching, events := 0, None, 0;
    }

    /** Hands over what was sent. */
    method TakeSent() returns (terms: seq<nat>, ack: bool)
      modifies this`termed, this`acked
      ensures terms == old(termed) && ack == old(acked) && termed == [] && !acked
    {
      terms, ack := termed, acked;
      termed, acked := [], false;
    }

    method CheckTermAcks()
      requires OwnedObject.CheckTermAcks(Start(Fields())).ok
      modifies this`acked, this`alive
      ensures Became(OwnedObject.CheckTermAcks(Start(old(Fields()))), old(termed), old(acked))
    {
      if terminating && processedSeqnum == sentSeqnum && termAcks == 0 {
        acked := acked || owner.Some?;
        alive := false;
      }
    }

    method ProcessSeqnum()
      requires OwnedObject.ProcessSeqnum(Start(Fields())).ok
      modifies this`processedSeqnum, this`acked, this`alive
      ensures Became(OwnedObject.ProcessSeqnum(Start(old(Fields()))), old(termed), old(acked))
    {
      processedSeqnum := processedSeqnum + 1;
      CheckTermAcks();
    }

    method SendTerm(c: nat)
      modifies this`termed
      ensures termed == old(termed) + [c]
    {
      termed := termed + [c];
    }

    method ProcessOwn(c: nat)
      modifies this`owned, this`termAcks, this`termed
      ensures Became(OwnedObject.ProcessOwn(Start(old(Fields())), c), old(termed), old(acked))
    {
      if terminating {
        termAcks := termAcks + 1;
        SendTerm(c);
        return;
      }
      owned := owned + {c};
    }

    method ProcessTermReq(c: nat)
      modifies this`owned, this`termAcks, this`termed
      ensures Became(OwnedObject.ProcessTermReq(Start(old(Fields())), c), old(termed), old(acked))
    {
      if terminating {
        return;
      }
      if c !in owned {
        return;
      }
      owned := owned - {c};
      termAcks := termAcks + 1;
      SendTerm(c);
    }

    method ProcessTerm()
      requires OwnedObject.ProcessTerm(Start(Fields())).ok
      modifies this
      ensures Became(OwnedObject.ProcessTerm(Start(old(Fields()))), old(termed), old(acked))
    {
      SendTermToAll();
      termAcks := termAcks + |owned|;
      owned := {};
      terminating := true;
      CheckTermAcks();
    }

    method SendTermToAll()
      modifies this`termed
      ensures Became(Local(old(Fields()), owned, false, true), old(termed), old(acked))
    {
      var rest := owned;
      ghost var sent: seq<nat> := [];
      while rest != {}
        invariant rest <= owned && termed == old(termed) + sent && EachOnce(sent, owned - rest)
        decreases rest
      {
        var c :| c in rest;
        SendTerm(c);
        OneMore(sent, owned - rest, c);
        sent := sent + [c];
        rest := rest - {c};
        assert owned - rest == owned - (rest + {c}) + {c};
      }
      assert termed[|old(termed)|..] == sent;
    }

    method UnregisterTermAck()
      requires OwnedObject.UnregisterTermAck(Start(Fields())).ok
      modifies this`termAcks, this`acked, this`alive
      ensures Became(OwnedObject.UnregisterTermAck(Start(old(Fields()))), old(termed), old(acked))
    {
      termAcks := termAcks - 1;
      CheckTermAcks();
    }

    /** Dispatches one command; the handler comes before the sequence number. */
    method ProcessCommand(cmd: Command)
      requires OwnedObject.ProcessCommand(Start(Fields()), cmd).ok
      modifies this
      ensures Became(OwnedObject.ProcessCommand(Start(old(Fields())), cmd), old(termed), old(acked))
    {
      match cmd {
        case Plug => ProcessSeqnum();
        case Other => ProcessSeqnum();
        case Own(c) =>
          ProcessOwn(c);
          ProcessSeqnum();
        case TermReq(c) => ProcessTermReq(c);
        case Term => ProcessTerm();
        case TermAck => UnregisterTermAck();
      }
    }
  }

  /** The sequence names each of the objects once. */
  ghost predicate EachOnce(s: seq<nat>, objects: set<nat>) {
    && (forall i, j :: 0 <= i < j < |s| ==> s[i] != s[j])
    && (forall c :: c in s <==> c in objects)
  }

  lemma OneMore(s: seq<nat>, objects: set<nat>, c: nat)
    requires EachOnce(s, objects) && c !in objects
    ensures EachOnce(s + [c], objects + {c})
  {}
}
