/** The distributor: an array of pipes kept in three nested groups, the pipes of the message
    being sent, the active ones and the eligible ones. */
module Distributor {
  import opened Basics
  import opened Parts
  import opened PipeArrays

  class Dist {
    const pipes: PipeArray
    var matching: nat
    var active: nat
    var eligible: nat
    var more: bool
    var sent: map<Pipe, seq<Part>>   // what has been written to each pipe
    var flushed: map<Pipe, nat>      // how much of it the pipe's reader may see
    var number: nat                  // identifies the message being sent
    var position: nat                // how many parts of it were sent already
    ghost var cut: set<Pipe>         // pipes that refused a later part of a message and took nothing since
    ghost var torn: set<Pipe>        // pipes that did, and took the beginning of another message
    ghost var spoilt: set<Pipe>      // pipes of these that took a message to its end since

    ghost predicate Layered()
      reads this, pipes
    {
      && pipes.Valid() && Distinct(pipes.items)
      && matching <= active <= eligible <= |pipes.items|
    }

    ghost predicate Valid()
      reads this, pipes
    {
      && Layered()
      && (!more ==> active == eligible && position == 0)
      && (more ==> position > 0)
      && Ledger(sent, flushed, number, position, All(), Matching(), cut, torn, spoilt)
    }

    ghost function Matching(): set<Pipe>
      requires matching <= |pipes.items|
      reads this, pipes
    {
      Upto(pipes.items, matching)
    }

    ghost function Active(): set<Pipe>
      requires active <= |pipes.items|
      reads this, pipes
    {
      Upto(pipes.items, active)
    }

    ghost function Eligible(): set<Pipe>
      requires eligible <= |pipes.items|
      reads this, pipes
    {
      Upto(pipes.items, eligible)
    }

    ghost function All(): set<Pipe>
      reads this, pipes
    {
      Upto(pipes.items, |pipes.items|)
    }

    constructor ()
      ensures Valid() && All() == {} && Matching() == {} && Eligible() == {} && cut == {} && torn == {} && spoilt == {} && !more && number == 0 && position == 0 && fresh(pipes)
    {
      pipes := new PipeArray();
      matching, active, eligible, more := 0, 0, 0, false;
      sent, flushed, number, position, cut, torn, spoilt := map[], map[], 0, 0, {}, {}, {};
    }

    /** A new pipe may take part at once, or, in the middle of a message, from the next one on. */
    method Attach(p: Pipe)
      requires Valid() && p !in All()
      modifies this, pipes
      ensures Valid() && more == old(more) && number == old(number) && position == old(position)
      ensures All() == old(All()) + {p} && Eligible() == old(Eligible()) + {p}
      ensures Active() == old(Active()) + (if more then {} else {p})
      ensures Matching() == old(Matching())
      ensures sent == old(sent)[p := []] && flushed == old(flushed)[p := 0] && cut == old(cut) && torn == old(torn) && spoilt == old(spoilt)
    {
      LedgerGains(sent, flushed, number, position, All(), Matching(), cut, torn, spoilt, p);
      PutIn(p);
      sent, flushed := sent[p := []], flushed[p := 0];
    }

    method PutIn(p: Pipe)
      requires Layered() && p !in All() && (!more ==> active == eligible)
      modifies this`active, this`eligible, pipes
      ensures Layered() && (!more ==> active == eligible)
      ensures All() == old(All()) + {p} && Eligible() == old(Eligible()) + {p}
      ensures Active() == old(Active()) + (if more then {} else {p})
      ensures Matching() == old(Matching())
    {
      InAll(pipes.items, p);
      if more {
        pipes.PushTo(p, eligible);
        eligible := eligible + 1;
      } else {
        pipes.PushTo(p, active);
        active := active + 1;
        eligible := eligible + 1;
      }
    }

    /** Only between messages, when every eligible pipe is active. */
    method Match(p: Pipe)
      requires Valid() && p in All() && !more
      modifies this`matching, pipes
      ensures Valid() && All() == old(All()) && Active() == old(Active()) && Eligible() == old(Eligible())
      ensures Matching() == old(Matching()) + (if p in old(Eligible()) then {p} else {})
    {
      ghost var s := pipes.items;
      var i := pipes.Index(p);
      InUpto(s, i, matching);
      InUpto(s, i, eligible);
      if i < matching {
        return;
      }
      if i >= eligible {
        return;
      }
      SwapIn(s, i, matching);
      pipes.Swap(i, matching);
      matching := matching + 1;
    }

    method Unmatch()
      requires Valid() && !more
      modifies this`matching
      ensures Valid() && matching == 0 && Matching() == {} && Eligible() == old(Eligible()) && All() == old(All())
    {
      matching := 0;
    }

    /** The pipes that do not match become those that do, and the other way round. */
    method ReverseMatch()
      requires Valid() && !more
      modifies this`matching, pipes
      ensures Valid() && All() == old(All()) && Active() == old(Active()) && Eligible() == old(Eligible())
      ensures Matching() == old(Eligible()) - old(Matching())
    {
      Reverse();
      LedgerBetween(sent, flushed, number, All(), old(Matching()), Matching(), cut, torn, spoilt);
    }

    method Reverse()
      requires Layered() && active == eligible
      modifies this`matching, pipes
      ensures Layered() && All() == old(All()) && Active() == old(Active()) && Eligible() == old(Eligible())
      ensures Matching() == old(Eligible()) - old(Matching())
    {
      var prevMatching := matching;
      ghost var s := pipes.items;
      matching := 0;
      var i := prevMatching;
      while i < eligible
        invariant prevMatching <= i <= eligible && matching == i - prevMatching
        invariant Layered() && |pipes.items| == |s|
        invariant Active() == old(Active()) && Eligible() == old(Eligible()) && All() == old(All())
        invariant Matching() == Upto(s, i) - Upto(s, prevMatching)
        invariant pipes.items[i..] == s[i..]
      {
        ghost var t := pipes.items;
        SwapIn(t, i, matching);
        assert t[i] == t[i..][0] == s[i..][0] == s[i];
        UptoNext(s, i);
        UptoMonotone(s, prevMatching, i);
        pipes.Swap(i, matching);
        assert pipes.items[i + 1..] == t[i..][1..] == s[i..][1..];
        matching := matching + 1;
        i := i + 1;
      }
    }

    method PipeTerminated(p: Pipe)
      requires Valid() && p in All()
      modifies this, pipes
      ensures Valid() && more == old(more) && number == old(number) && position == old(position)
      ensures All() == old(All()) - {p} && Eligible() == old(Eligible()) - {p}
      ensures Active() == old(Active()) - {p} && Matching() == old(Matching()) - {p}
      ensures sent == old(sent) && flushed == old(flushed) && cut == old(cut) - {p} && torn == old(torn) - {p} && spoilt == old(spoilt) - {p}
    {
      LedgerLoses(sent, flushed, number, position, All(), Matching(), cut, torn, spoilt, p);
      TakeOut(p);
      cut, torn, spoilt := cut - {p}, torn - {p}, spoilt - {p};
    }

    method TakeOut(p: Pipe)
      requires Layered() && p in All()
      modifies this`matching, this`active, this`eligible, pipes
      ensures Layered() && (old(active) == old(eligible) ==> active == eligible)
      ensures All() == old(All()) - {p} && Eligible() == old(Eligible()) - {p}
      ensures Active() == old(Active()) - {p} && Matching() == old(Matching()) - {p}
    {
      InAll(pipes.items, p);
      LeaveMatching(p);
      LeaveActive(p);
      LeaveEligible(p);
      pipes.EraseBehind(p, eligible);
    }

    method LeaveMatching(p: Pipe)
      requires Layered() && p in pipes.items
      modifies this`matching, pipes
      ensures Layered() && p in pipes.items && pipes.Index(p) >= matching
      ensures Matching() == old(Matching()) - {p} && Active() == old(Active()) && Eligible() == old(Eligible())
      ensures All() == old(All())
    {
      if pipes.Index(p) < matching {
        SwapOut(pipes.items, pipes.Index(p), matching);
        pipes.Swap(pipes.Index(p), matching - 1);
        matching := matching - 1;
      }
    }

    /** Puts a pipe that no longer matches behind the active ones. */
    method LeaveActive(p: Pipe)
      requires Layered() && p in pipes.items && pipes.Index(p) >= matching
      modifies this`active, pipes
      ensures Layered() && p in pipes.items && pipes.Index(p) >= active
      ensures Matching() == old(Matching()) && Active() == old(Active()) - {p} && Eligible() == old(Eligible())
      ensures All() == old(All()) && active == if old(pipes.Index(p)) < old(active) then old(active) - 1 else old(active)
      ensures pipes.Index(p) < eligible <==> old(pipes.Index(p)) < old(eligible)
    {
      if pipes.Index(p) < active {
        SwapOut(pipes.items, pipes.Index(p), active);
        pipes.Swap(pipes.Index(p), active - 1);
        active := active - 1;
      }
    }

    method LeaveEligible(p: Pipe)
      requires Layered() && p in pipes.items && pipes.Index(p) >= active
      modifies this`eligible, pipes
      ensures Layered() && p in pipes.items && pipes.Index(p) >= eligible
      ensures Matching() == old(Matching()) && Active() == old(Active()) && Eligible() == old(Eligible()) - {p}
      ensures All() == old(All()) && eligible == if old(pipes.Index(p)) < old(eligible) then old(eligible) - 1 else old(eligible)
    {
      if pipes.Index(p) < eligible {
        SwapOut(pipes.items, pipes.Index(p), eligible);
        pipes.Swap(pipes.Index(p), eligible - 1);
        eligible := eligible - 1;
      }
    }

    /** A passive pipe can be written to again, from the next message on. */
    method Activated(p: Pipe)
      requires Valid() && p in All() && p !in Eligible()
      modifies this`active, this`eligible, pipes
      ensures Valid() && All() == old(All()) && Eligible() == old(Eligible()) + {p}
      ensures Active() == old(Active()) + (if more then {} else {p})
      ensures Matching() == old(Matching())
    {
      ghost var s := pipes.items;
      var i := pipes.Index(p);
      InUpto(s, i, eligible);
      SwapIn(s, i, eligible);
      if eligible < |pipes.items| {
        pipes.Swap(pipes.Index(p), eligible);
        eligible := eligible + 1;
      }
      LastIsActivated(p);
    }

    /** If no message is being sent, the pipe that just became eligible becomes active too. */
    method LastIsActivated(p: Pipe)
      requires Layered() && active < eligible && pipes.items[eligible - 1] == p && (!more ==> active + 1 == eligible)
      modifies this`active, pipes
      ensures Layered() && All() == old(All()) && Eligible() == old(Eligible()) && Matching() == old(Matching())
      ensures Active() == old(Active()) + (if more then {} else {p}) && (!more ==> active == eligible)
    {
      if !more && active < |pipes.items| {
        SwapIn(pipes.items, eligible - 1, active);
        pipes.Swap(eligible - 1, active);
        active := active + 1;
      }
    }

    /** Offers one part to a pipe; `full` are the pipes that refuse it.  A pipe that refuses
        leaves all three groups. */
    method Write(p: Pipe, part: Part, full: set<Pipe>) returns (ok: bool)
      requires Layered() && p in pipes.items && pipes.Index(p) < matching && p in sent && p in flushed
      modifies this`matching, this`active, this`eligible, this`sent, this`flushed, pipes
      ensures Layered() && All() == old(All()) && |pipes.items| == old(|pipes.items|) && (ok <==> p !in full)
      ensures pipes.items[..old(pipes.Index(p))] == old(pipes.items[..pipes.Index(p)])
      ensures ok ==> pipes.items == old(pipes.items)
      ensures old(matching) - matching == old(active) - active == old(eligible) - eligible == if ok then 0 else 1
      ensures Matching() == old(Matching()) - {p} * full && Active() == old(Active()) - {p} * full
      ensures Eligible() == old(Eligible()) - {p} * full
      ensures Delivered(old(sent), old(flushed), sent, flushed, {p} - full, part)
    {
      if p in full {
        Refused(p);
        return false;
      }
      sent := sent[p := sent[p] + [part]];
      if !part.more {
        flushed := flushed[p := |sent[p]|];
      }
      return true;
    }

    method Refused(p: Pipe)
      requires Layered() && p in pipes.items && pipes.Index(p) < matching
      modifies this`matching, this`active, this`eligible, pipes
      ensures Layered() && All() == old(All()) && |pipes.items| == old(|pipes.items|) && matching == old(matching) - 1
      ensures active == old(active) - 1 && eligible == old(eligible) - 1
      ensures pipes.items[..old(pipes.Index(p))] == old(pipes.items[..pipes.Index(p)])
      ensures Matching() == old(Matching()) - {p} && Active() == old(Active()) - {p}
      ensures Eligible() == old(Eligible()) - {p}
    {
      SwapOut(pipes.items, pipes.Index(p), matching);
      pipes.Swap(pipes.Index(p), matching - 1);
      matching := matching - 1;
      MakePassive(p);
    }

    /** The pipe just behind the matching ones leaves the other two groups. */
    method MakePassive(p: Pipe)
      requires Layered() && matching < active && pipes.items[matching] == p
      modifies this`active, this`eligible, pipes
      ensures Layered() && All() == old(All()) && |pipes.items| == old(|pipes.items|)
      ensures active == old(active) - 1 && eligible == old(eligible) - 1
      ensures pipes.items[..matching] == old(pipes.items[..matching])
      ensures Matching() == old(Matching()) && Active() == old(Active()) - {p} && Eligible() == old(Eligible()) - {p}
    {
      SwapOut(pipes.items, pipes.Index(p), active);
      pipes.Swap(pipes.Index(p), active - 1);
      active := active - 1;
      assert pipes.items[active] == p;
      SwapOut(pipes.items, active, eligible);
      pipes.Swap(active, eligible - 1);
      eligible := eligible - 1;
    }

    /** Offers one part to every matching pipe, each exactly once.  `refs` is how many
        references to a shared message body are left when the sender lets go of its own. */
    method Distribute(part: Part, small: bool, full: set<Pipe>) returns (ghost tried: seq<Pipe>, refs: int)
      requires Layered() && Matching() <= sent.Keys && Matching() <= flushed.Keys
      modifies this`matching, this`active, this`eligible, this`sent, this`flushed, pipes
      ensures Layered() && All() == old(All()) && Distinct(tried)
      ensures Upto(tried, |tried|) == old(Matching())
      ensures Matching() == old(Matching()) - full && Active() == old(Active()) - (old(Matching()) * full)
      ensures Eligible() == old(Eligible()) - (old(Matching()) * full)
      ensures Delivered(old(sent), old(flushed), sent, flushed, old(Matching()) - full, part)
      ensures !small ==> refs == matching
      ensures active - matching == old(active - matching) && eligible - active == old(eligible - active)
    {
      tried, refs := [], 0;
      if matching == 0 {
        return;
      }
      if !small {
        refs := matching;
      }
      var failed;
      tried, failed := OfferAll(part, full);
      if !small && failed > 0 {
        refs := refs - failed;
      }
    }

    method OfferAll(part: Part, full: set<Pipe>) returns (ghost tried: seq<Pipe>, failed: nat)
      requires Layered() && Matching() <= sent.Keys && Matching() <= flushed.Keys
      modifies this`matching, this`active, this`eligible, this`sent, this`flushed, pipes
      ensures Layered() && All() == old(All()) && Distinct(tried)
      ensures Upto(tried, |tried|) == old(Matching())
      ensures Matching() == old(Matching()) - full && Active() == old(Active()) - (old(Matching()) * full)
      ensures Eligible() == old(Eligible()) - (old(Matching()) * full)
      ensures Delivered(old(sent), old(flushed), sent, flushed, old(Matching()) - full, part)
      ensures old(matching) - matching == old(active) - active == old(eligible) - eligible == failed
    {
      tried, failed := [], 0;
      ghost var due, act, el := Matching(), Active(), Eligible();
      ghost var sent0, flushed0 := sent, flushed;
      var i: nat := 0;
      while i < matching
        invariant Offered(due, act, el, tried, full, i) && All() == old(All())
        invariant Delivered(sent0, flushed0, sent, flushed, Done(tried) - full, part)
        invariant old(matching) - matching == old(active) - active == old(eligible) - eligible == failed
        decreases matching - i
      {
        i, failed, tried := Offer(i, failed, tried, part, full, due, act, el, sent0, flushed0);
      }
      Finished(due, act, el, tried, full);
    }

    lemma Finished(due: set<Pipe>, act: set<Pipe>, el: set<Pipe>, tried: seq<Pipe>, full: set<Pipe>)
      requires Offered(due, act, el, tried, full, matching)
      ensures Done(tried) == due
    {
      forall p | p in due ensures p in Done(tried) {
        assert p in Done(tried) * full || p in Matching();
      }
    }

    /** Of the pipes due these were tried; the first `i` of the array are those that took the part. */
    ghost predicate Offered(due: set<Pipe>, act: set<Pipe>, el: set<Pipe>, tried: seq<Pipe>, full: set<Pipe>, i: nat)
      reads this, pipes
    {
      Distinct(tried) && Halfway(due, act, el, Done(tried), full, i)
    }

    ghost predicate Halfway(due: set<Pipe>, act: set<Pipe>, el: set<Pipe>, done: set<Pipe>, full: set<Pipe>, i: nat)
      reads this, pipes
    {
      && Layered() && i <= matching && done <= due <= sent.Keys && due <= flushed.Keys
      && Upto(pipes.items, i) == done - full && Matching() == due - done * full
      && Active() == act - done * full && Eligible() == el - done * full
    }

    /** Tries the next pipe, which was not tried before. */
    method Offer(i: nat, failures: nat, ghost was: seq<Pipe>, part: Part, full: set<Pipe>, ghost due: set<Pipe>,
                 ghost act: set<Pipe>, ghost el: set<Pipe>, ghost sent0: map<Pipe, seq<Part>>,
                 ghost flushed0: map<Pipe, nat>) returns (next: nat, failed: nat, ghost tried: seq<Pipe>)
      requires Offered(due, act, el, was, full, i) && i < matching
      requires Delivered(sent0, flushed0, sent, flushed, Done(was) - full, part)
      modifies this`matching, this`active, this`eligible, this`sent, this`flushed, pipes
      ensures tried == was + [old(pipes.items[i])] && All() == old(All())
      ensures Offered(due, act, el, tried, full, next)
      ensures Delivered(sent0, flushed0, sent, flushed, Done(tried) - full, part)
      ensures old(matching) - matching == old(active) - active == old(eligible) - eligible == failed - failures
      ensures matching - next < old(matching) - i
    {
      ghost var p := pipes.items[i];
      next, failed := WriteNext(i, failures, part, full, due, act, el, Done(was), sent0, flushed0);
      InAll(was, p);
      UptoAppend(was, p);
      tried := was + [p];
    }

    /** After a refusal another pipe has taken the place, so the index stays. */
    method WriteNext(i: nat, failures: nat, part: Part, full: set<Pipe>, ghost due: set<Pipe>, ghost act: set<Pipe>,
                     ghost el: set<Pipe>, ghost done: set<Pipe>, ghost sent0: map<Pipe, seq<Part>>,
                     ghost flushed0: map<Pipe, nat>) returns (next: nat, failed: nat)
      requires Halfway(due, act, el, done, full, i) && i < matching
      requires Delivered(sent0, flushed0, sent, flushed, done - full, part)
      modifies this`matching, this`active, this`eligible, this`sent, this`flushed, pipes
      ensures old(pipes.items[i]) in due - done && All() == old(All())
      ensures Halfway(due, act, el, done + {old(pipes.items[i])}, full, next)
      ensures Delivered(sent0, flushed0, sent, flushed, done + {old(pipes.items[i])} - full, part)
      ensures old(matching) - matching == old(active) - active == old(eligible) - eligible == failed - failures
      ensures matching - next < old(matching) - i
    {
      ghost var p, s := pipes.items[i], pipes.items;
      InUpto(s, i, matching);
      InUpto(s, i, i);
      OneMore(due, done, full, p);
      OneMore(act, done, full, p);
      OneMore(el, done, full, p);
      ghost var sent1, flushed1 := sent, flushed;
      var ok := Write(pipes.items[i], part, full);
      DeliveredMore(sent0, flushed0, sent1, flushed1, sent, flushed, done - full, {p} - full, part);
      Taken(s, pipes.items, i, done, full);
      next, failed := if ok then i + 1 else i, if ok then failures else failures + 1;
    }

    /** A pipe's reader sees whole messages only, and all of them, exactly unless the pipe refused a
        later part of a message, became active again and has taken a message to its end since. */
    lemma ReadersSeeWholeMessages(p: Pipe)
      requires Valid() && p in All()
      ensures p in sent && p in flushed && flushed[p] <= |sent[p]|
      ensures WholeMessages(sent[p][..flushed[p]]) <==> p !in spoilt
      ensures p !in torn ==> forall n :: flushed[p] < n <= |sent[p]| ==> !WholeMessages(sent[p][..n])
      ensures p !in torn + cut + Sending(Matching(), position) ==> flushed[p] == |sent[p]|
    {
      if p in torn {
        TornIsNotWhole(sent[p], flushed[p], p in spoilt);
      } else {
        CompleteIsWhole(sent[p]);
        forall n | flushed[p] < n <= |sent[p]| ensures !WholeMessages(sent[p][..n]) {
          LongerIsNotWhole(sent[p], n);
        }
      }
    }

    /** Is every matching pipe below its high watermark? */
    method CheckHwm(room: set<Pipe>) returns (ok: bool)
      requires Layered()
      ensures ok <==> Matching() <= room
    {
      var i := 0;
      while i < matching
        invariant i <= matching && Upto(pipes.items, i) <= room
      {
        UptoNext(pipes.items, i);
        UptoMonotone(pipes.items, i + 1, matching);
        if pipes.items[i] !in room {
          return false;
        }
        i := i + 1;
      }
      return true;
    }

    /** Sends one part to the matching pipes.  With the last part of a message, every eligible
        pipe becomes active. */
    method SendToMatching(msgMore: bool, small: bool, full: set<Pipe>) returns (ghost tried: seq<Pipe>, refs: int)
      requires Valid()
      modifies this, pipes
      ensures Valid() && All() == old(All()) && more == msgMore
      ensures Delivered(old(sent), old(flushed), sent, flushed, old(Matching()) - full, Part(old(number), old(position), msgMore))
      ensures Distinct(tried) && Upto(tried, |tried|) == old(Matching())
      ensures Matching() == old(Matching()) - full
      ensures Eligible() == old(Eligible()) - (old(Matching()) * full)
      ensures msgMore ==> Active() == old(Active()) - (old(Matching()) * full) && active - matching == old(active - matching)
      ensures !msgMore ==> Active() == Eligible()
      ensures (number, position) == if msgMore then (old(number), old(position) + 1) else (old(number) + 1, 0)
      ensures !small ==> refs == matching
      ensures cut == old(cut) - (old(Matching()) - full) + Cut(old(Matching()), old(position), full, old(torn))
      ensures torn == old(torn) + old(cut) * (old(Matching()) - full)
      ensures spoilt == old(spoilt) + if msgMore then {} else torn * (old(Matching()) - full)
    {
      ghost var due, sent0, flushed0 := Matching(), sent, flushed;
      UptoMonotone(pipes.items, matching, |pipes.items|);
      UptoMonotone(pipes.items, matching, eligible);
      tried, refs := Distribute(Part(number, position, msgMore), small, full);
      if !msgMore {
        active := eligible;
      }
      more := msgMore;
      Record(due, full, sent0, flushed0);
    }

    /** A part was sent to the pipes due, some of which refused it. */
    method Record(ghost due: set<Pipe>, ghost full: set<Pipe>, ghost sent0: map<Pipe, seq<Part>>,
                  ghost flushed0: map<Pipe, nat>)
      requires Layered() && due <= All() && Matching() == due - full
      requires Ledger(sent0, flushed0, number, position, All(), due, cut, torn, spoilt)
      requires Delivered(sent0, flushed0, sent, flushed, due - full, Part(number, position, more))
      modifies this`number, this`position, this`cut, this`torn, this`spoilt
      ensures (number, position) == if more then (old(number), old(position) + 1) else (old(number) + 1, 0)
      ensures cut == old(cut) - (due - full) + Cut(due, old(position), full, old(torn))
      ensures torn == old(torn) + old(cut) * (due - full)
      ensures spoilt == old(spoilt) + if more then {} else torn * (due - full)
      ensures Ledger(sent, flushed, number, position, All(), Matching(), cut, torn, spoilt)
    {
      ghost var part, all, left := Part(number, position, more), All(), Matching();
      ghost var cutNow := cut - (due - full) + Cut(due, position, full, torn);
      ghost var tornNow := torn + cut * (due - full);
      ghost var spoiltNow := spoilt + if more then {} else tornNow * (due - full);
      KeepsOrder(sent0, flushed0, sent, flushed, part, all, due, cut, torn, spoilt, full);
      number, position := if more then number else number + 1, if more then position + 1 else 0;
      assert Ledger(sent, flushed, number, position, all, left, cutNow, tornNow, spoiltNow);
      cut, torn, spoilt := cutNow, tornNow, spoiltNow;
      assert All() == all && Matching() == left;
    }

    /** To all the active pipes.  A message sent this way is sent this way from its first part on. */
    method SendToAll(msgMore: bool, small: bool, full: set<Pipe>) returns (ghost tried: seq<Pipe>, refs: int)
      requires Valid() && (more ==> matching == active)
      modifies this, pipes
      ensures Valid() && All() == old(All()) && more == msgMore && (more ==> matching == active)
      ensures Delivered(old(sent), old(flushed), sent, flushed, old(Active()) - full, Part(old(number), old(position), msgMore))
      ensures Distinct(tried) && Upto(tried, |tried|) == old(Active())
      ensures Eligible() == old(Eligible()) - (old(Active()) * full)
    {
      matching := active;
      tried, refs := SendToMatching(msgMore, small, full);
    }
  }

  /** At `t` a message without its end is followed by another one.  Until one is finished after that
      the reader sees the whole ones before it, and then all that was finished. */
  ghost predicate TornAt(log: seq<Part>, n: nat, spoilt: bool, t: nat) {
    && 0 < t < |log| && log[t - 1].more && log[t].position == 0 && Orderly(log[..t])
    && if spoilt then t < n <= |log| else n == Complete(log[..t])
  }

  ghost predicate Torn(log: seq<Part>, n: nat, spoilt: bool) {
    exists t: nat :: TornAt(log, n, spoilt, t)
  }

  lemma TornIsNotWhole(log: seq<Part>, n: nat, spoilt: bool)
    requires Torn(log, n, spoilt)
    ensures n <= |log| && (WholeMessages(log[..n]) <==> !spoilt)
  {
    var t: nat :| TornAt(log, n, spoilt, t);
    if spoilt {
      GapIsNotWhole(log[..n], t);
    } else {
      CompleteIsWhole(log[..t]);
      assert log[..t][..n] == log[..n];
    }
  }

  /** What a pipe holds, and how much of it the reader sees.  One that is being sent the later parts
      of a message has all the earlier ones; one that was cut off in the middle of a message ends in
      it, and any other one ends with a whole message. */
  ghost predicate Entry(log: seq<Part>, n: nat, sending: bool, number: nat, position: nat, cut: bool, torn: bool, spoilt: bool) {
    && (sending ==> position > 0 && log != [] && log[|log| - 1] == Part(number, position - 1, true))
    && if torn then Torn(log, n, spoilt)
       else
         && Orderly(log) && n == Complete(log)
         && (cut ==> log != [] && log[|log| - 1].more)
         && (!cut && !sending ==> n == |log|)
  }

  /** The pipes that have the earlier parts of the message being sent. */
  ghost function Sending(matching: set<Pipe>, position: nat): set<Pipe> {
    if position > 0 then matching else {}
  }

  /** The pipes that refuse a later part of the message they have the earlier ones of. */
  ghost function Cut(matching: set<Pipe>, position: nat, full: set<Pipe>, torn: set<Pipe>): set<Pipe> {
    Sending(matching, position) * full - torn
  }

  /** What all the pipes hold. */
  ghost predicate Ledger(sent: map<Pipe, seq<Part>>, flushed: map<Pipe, nat>, number: nat, position: nat, all: set<Pipe>,
                         matching: set<Pipe>, cut: set<Pipe>, torn: set<Pipe>, spoilt: set<Pipe>)
  {
    && spoilt <= torn <= all && cut <= all - torn && cut !! Sending(matching, position)
    && forall p :: p in all ==>
         p in sent && p in flushed
         && Entry(sent[p], flushed[p], p in Sending(matching, position), number, position, p in cut, p in torn, p in spoilt)
  }

  lemma LedgerGains(sent: map<Pipe, seq<Part>>, flushed: map<Pipe, nat>, number: nat, position: nat, all: set<Pipe>,
                    matching: set<Pipe>, cut: set<Pipe>, torn: set<Pipe>, spoilt: set<Pipe>, p: Pipe)
    requires Ledger(sent, flushed, number, position, all, matching, cut, torn, spoilt) && p !in all && matching <= all
    ensures Ledger(sent[p := []], flushed[p := 0], number, position, all + {p}, matching, cut, torn, spoilt)
  {}

  /** Between messages it does not matter which pipes are marked. */
  lemma LedgerBetween(sent: map<Pipe, seq<Part>>, flushed: map<Pipe, nat>, number: nat, all: set<Pipe>,
                      before: set<Pipe>, after: set<Pipe>, cut: set<Pipe>, torn: set<Pipe>, spoilt: set<Pipe>)
    requires Ledger(sent, flushed, number, 0, all, before, cut, torn, spoilt)
    ensures Ledger(sent, flushed, number, 0, all, after, cut, torn, spoilt)
  {}

  lemma LedgerLoses(sent: map<Pipe, seq<Part>>, flushed: map<Pipe, nat>, number: nat, position: nat, all: set<Pipe>,
                    matching: set<Pipe>, cut: set<Pipe>, torn: set<Pipe>, spoilt: set<Pipe>, p: Pipe)
    requires Ledger(sent, flushed, number, position, all, matching, cut, torn, spoilt)
    ensures Ledger(sent, flushed, number, position, all - {p}, matching - {p}, cut - {p}, torn - {p}, spoilt - {p})
  {}

  /** One more part for the pipes being sent to; those of them that refuse a later one are left with
      the beginning of a message. */
  lemma KeepsOrder(sent0: map<Pipe, seq<Part>>, flushed0: map<Pipe, nat>, sent: map<Pipe, seq<Part>>,
                   flushed: map<Pipe, nat>, part: Part, all: set<Pipe>, matching: set<Pipe>, cut: set<Pipe>,
                   torn: set<Pipe>, spoilt: set<Pipe>, full: set<Pipe>)
    requires Ledger(sent0, flushed0, part.message, part.position, all, matching, cut, torn, spoilt)
    requires matching <= all && Delivered(sent0, flushed0, sent, flushed, matching - full, part)
    ensures Ledger(sent, flushed, if part.more then part.message else part.message + 1,
                   if part.more then part.position + 1 else 0, all, matching - full,
                   cut - (matching - full) + Cut(matching, part.position, full, torn), torn + cut * (matching - full),
                   spoilt + if part.more then {} else (torn + cut * (matching - full)) * (matching - full))
  {
    forall p | p in all ensures PipeKept(p, sent, flushed, part, matching, cut, torn, spoilt, full) {
      NextEntry(p, sent0, flushed0, sent, flushed, part, matching, cut, torn, spoilt, full);
    }
  }

  /** The entry of one pipe after the part was sent. */
  ghost predicate PipeKept(p: Pipe, sent: map<Pipe, seq<Part>>, flushed: map<Pipe, nat>, part: Part, matching: set<Pipe>,
                           cut: set<Pipe>, torn: set<Pipe>, spoilt: set<Pipe>, full: set<Pipe>)
  {
    && p in sent && p in flushed
    && Entry(sent[p], flushed[p], p in Sending(matching - full, if part.more then part.position + 1 else 0),
             if part.more then part.message else part.message + 1, if part.more then part.position + 1 else 0,
             p in cut - (matching - full) + Cut(matching, part.position, full, torn),
             p in torn + cut * (matching - full),
             p in spoilt + if part.more then {} else (torn + cut * (matching - full)) * (matching - full))
  }

  lemma NextEntry(p: Pipe, sent0: map<Pipe, seq<Part>>, flushed0: map<Pipe, nat>, sent: map<Pipe, seq<Part>>,
                  flushed: map<Pipe, nat>, part: Part, matching: set<Pipe>, cut: set<Pipe>,
                  torn: set<Pipe>, spoilt: set<Pipe>, full: set<Pipe>)
    requires p in sent0 && p in flushed0 && (p in cut ==> p !in torn && p !in Sending(matching, part.position))
    requires Entry(sent0[p], flushed0[p], p in Sending(matching, part.position), part.message, part.position, p in cut, p in torn, p in spoilt)
    requires p in spoilt ==> p in torn
    requires Delivered(sent0, flushed0, sent, flushed, matching - full, part)
    ensures PipeKept(p, sent, flushed, part, matching, cut, torn, spoilt, full)
  {
    Memberships(p, part, matching, cut, torn, spoilt, full);
    if p in matching - full {
      EntryTakes(sent0[p], flushed0[p], part, p in cut, p in torn, p in spoilt);
    } else {
      EntryStays(sent0[p], flushed0[p], part, p in Sending(matching, part.position), p in cut, p in torn, p in spoilt);
    }
  }

  lemma Memberships(p: Pipe, part: Part, matching: set<Pipe>, cut: set<Pipe>, torn: set<Pipe>, spoilt: set<Pipe>, full: set<Pipe>)
    ensures var takes := p in matching - full;
            && (p in Sending(matching - full, if part.more then part.position + 1 else 0) <==> part.more && takes)
            && (p in cut - (matching - full) + Cut(matching, part.position, full, torn)
                <==> !takes && (p in cut || (p in Sending(matching, part.position) && p !in torn)))
            && (p in torn + cut * (matching - full) <==> p in torn || (p in cut && takes))
            && (p in spoilt + (if part.more then {} else (torn + cut * (matching - full)) * (matching - full))
                <==> p in spoilt || (!part.more && takes && (p in torn || p in cut)))
  {}

  lemma EntryStays(log: seq<Part>, n: nat, part: Part, sending: bool, cut: bool, torn: bool, spoilt: bool)
    requires Entry(log, n, sending, part.message, part.position, cut, torn, spoilt)
    ensures Entry(log, n, false, if part.more then part.message else part.message + 1,
                  if part.more then part.position + 1 else 0, cut || (sending && !torn), torn, spoilt)
  {}

  lemma EntryTakes(log: seq<Part>, n: nat, part: Part, cut: bool, torn: bool, spoilt: bool)
    requires Entry(log, n, part.position > 0, part.message, part.position, cut, torn, spoilt)
    requires (cut ==> !torn && part.position == 0) && (spoilt ==> torn)
    ensures Entry(log + [part], if part.more then n else |log| + 1, part.more,
                  if part.more then part.message else part.message + 1, if part.more then part.position + 1 else 0,
                  false, cut || torn, spoilt || (!part.more && (cut || torn)))
  {
    var next := log + [part];
    if torn {
      var t: nat :| TornAt(log, n, spoilt, t);
      assert next[..t] == log[..t];
      assert TornAt(next, if part.more then n else |log| + 1, spoilt || !part.more, t);
    } else if cut {
      assert next[..|log|] == log;
      assert TornAt(next, if part.more then n else |log| + 1, !part.more, |log|);
    } else {
      if part.position == 0 {
        EndOfWhole(log);
      }
      OneMorePart(log, part);
    }
  }

  lemma EndOfWhole(log: seq<Part>)
    requires Complete(log) == |log|
    ensures log == [] || !log[|log| - 1].more
  {}

  ghost function Done(tried: seq<Pipe>): set<Pipe> {
    Upto(tried, |tried|)
  }

  lemma Taken(s: seq<Pipe>, t: seq<Pipe>, i: nat, done: set<Pipe>, full: set<Pipe>)
    requires Distinct(s) && i < |s| == |t| && Upto(s, i) == done - full
    requires t[..i] == s[..i] && (s[i] !in full ==> t == s)
    ensures Upto(t, if s[i] in full then i else i + 1) == done + {s[i]} - full
  {
    UptoNext(s, i);
    UptoPrefix(t, s, i);
  }

  lemma OneMore(all: set<Pipe>, done: set<Pipe>, full: set<Pipe>, p: Pipe)
    ensures all - done * full - {p} * full == all - (done + {p}) * full
    ensures done - full + ({p} - full) == done + {p} - full
  {}

  lemma DeliveredMore(sent0: map<Pipe, seq<Part>>, flushed0: map<Pipe, nat>, sent1: map<Pipe, seq<Part>>,
                      flushed1: map<Pipe, nat>, sent2: map<Pipe, seq<Part>>, flushed2: map<Pipe, nat>,
                      ps: set<Pipe>, more: set<Pipe>, part: Part)
    requires ps !! more
    requires Delivered(sent0, flushed0, sent1, flushed1, ps, part) && Delivered(sent1, flushed1, sent2, flushed2, more, part)
    ensures Delivered(sent0, flushed0, sent2, flushed2, ps + more, part)
  {}

  /** The part was added at these pipes and nowhere else, and shown where it ends a message. */
  ghost predicate Delivered(sent0: map<Pipe, seq<Part>>, flushed0: map<Pipe, nat>,
                            sent: map<Pipe, seq<Part>>, flushed: map<Pipe, nat>, ps: set<Pipe>, part: Part)
  {
    && sent.Keys == sent0.Keys && flushed.Keys == flushed0.Keys
    && (forall p :: p in sent.Keys ==> sent[p] == if p in ps then sent0[p] + [part] else sent0[p])
    && (forall p :: p in flushed.Keys ==>
          flushed[p] == if p in ps && !part.more && p in sent then |sent[p]| else flushed0[p])
  }
  /** Pipe 1 takes the first part of a message. */
  method FirstPart() returns (d: Dist)
    ensures fresh(d) && fresh(d.pipes) && d.Valid() && d.more && d.All() == {1} && d.Eligible() == {1} && d.Matching() == {1}
    ensures d.cut == {} && d.torn == {} && d.number == 0 && d.position == 1
    ensures 1 in d.sent && 1 in d.flushed && d.sent[1] == [Part(0, 0, true)] && d.flushed[1] == 0
  {
    d := new Dist();
    d.Attach(1);
    d.Match(1);
    ghost var tried;
    var refs;
    tried, refs := d.SendToMatching(true, true, {});
  }

  /** It refuses the second one, and becomes active again. */
  method RefusesLater() returns (d: Dist)
    ensures fresh(d) && fresh(d.pipes) && d.Valid() && !d.more && d.All() == {1} && d.Eligible() == {1} && d.Matching() == {}
    ensures d.cut == {1} && d.number == 1 && d.position == 0
    ensures 1 in d.sent && 1 in d.flushed && d.sent[1] == [Part(0, 0, true)]
  {
    d := FirstPart();
    ghost var tried;
    var refs;
    tried, refs := d.SendToMatching(false, true, {1});
    d.Activated(1);
  }

  /** It takes the next message: its reader sees one without its end. */
  method RefusalTears() returns (d: Dist)
    ensures d.Valid() && 1 in d.sent && 1 in d.flushed && 1 in d.spoilt
    ensures d.flushed[1] == 2 && d.sent[1] == [Part(0, 0, true), Part(1, 0, false)] && !WholeMessages(d.sent[1])
  {
    d := RefusesLater();
    d.Match(1);
    ghost var tried;
    var refs;
    tried, refs := d.SendToMatching(false, true, {});
    GapIsNotWhole(d.sent[1], 1);
  }
}
