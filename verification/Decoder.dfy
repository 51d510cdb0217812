/** The decoder: fills in what it is waiting for from the pieces that arrive, and runs its
    state machine whenever that is complete. */
module Decoding {
  import opened Basics
  import opened Framing

  class Decoder {
    const max: int                   // the largest message accepted, if not negative
    var phase: Phase
    var got: seq<Byte>               // what was read for the current step
    var toRead: nat                  // how much more it needs
    var more: bool
    var command: bool
    var failed: bool
    ghost var consumed: seq<Byte>    // all the input so far
    ghost var delivered: seq<Msg>    // all the messages so far

    ghost function View(): Receiver
      reads this
    {
      Receiver(phase, got, toRead, more, command)
    }

    /** The decoder stands where the bytes it was given, taken one by one, lead. */
    ghost predicate Valid()
      reads this
    {
      && (!failed ==> Waiting(View()))
      && FeedAll(START, consumed, max) == Progress(View(), delivered, failed)
    }

    constructor (max: int)
      ensures Valid() && this.max == max && View() == START && consumed == [] && delivered == [] && !failed
    {
      this.max, failed := max, false;
      phase, got, toRead, more, command := FlagsReady, [], 1, false, false;
      consumed, delivered := [], [];
    }

    /** Where to receive to: straight into the message if at least a buffer of it is missing. */
    method GetBuffer(bufsize: nat) returns (direct: bool, size: nat)
      requires Waiting(View()) && bufsize > 0
      ensures size > 0 && (direct ==> size == toRead) && (!direct ==> size == bufsize > toRead)
    {
      direct := toRead >= bufsize;
      size := if direct then toRead else bufsize;
    }

    method Goto(phase: Phase, toRead: nat)
      modifies this`phase, this`got, this`toRead
      ensures this.phase == phase && got == [] && this.toRead == toRead
    {
      this.phase, got, this.toRead := phase, [], toRead;
    }

    method Next() returns (o: Outcome)
      requires toRead == 0 && |got| == Expected(View())
      modifies this`phase, this`got, this`toRead, this`more, this`command
      ensures (View(), o) == NextStep(old(View()), max)
    {
      o := Continue;
      match phase
      case FlagsReady =>
        var b := got[0];
        more, command := b % 2 == 1, b / COMMAND % 2 == 1;
        if b / LARGE % 2 == 1 {
          Goto(EightByteSizeReady, 8);
        } else {
          Goto(OneByteSizeReady, 1);
        }
      case OneByteSizeReady => o := SizeKnown(got[0]);
      case EightByteSizeReady => o := SizeKnown(Get(got));
      case MessageReady =>
        o := Done(Msg(more, command, got));
        Goto(FlagsReady, 1);
    }

    method SizeKnown(size: nat) returns (o: Outcome)
      modifies this`phase, this`got, this`toRead
      ensures (View(), o) == SizeReady(old(View()), size, max)
    {
      if max >= 0 && size > max {
        return Failed;
      }
      Goto(MessageReady, size);
      return Continue;
    }

    method RunSteps() returns (o: Outcome)
      requires |got| + toRead == Expected(View())
      modifies this`phase, this`got, this`toRead, this`more, this`command
      ensures (View(), o) == Settle(old(View()), max)
    {
      o := Continue;
      ghost var r := View();
      while toRead == 0
        invariant o.Continue? && |got| + toRead == Expected(View()) && Settle(View(), max) == Settle(r, max)
        decreases Rank(phase)
      {
        o := Next();
        if !o.Continue? {
          return;
        }
      }
    }

    /** Takes in input up to the end of a message.  `direct` tells that it was received
        straight into the message, which then only has to be counted. */
    method Decode(data: seq<Byte>, direct: bool) returns (o: Outcome, used: nat)
      requires Waiting(View()) && (direct ==> |data| <= toRead)
      modifies this`phase, this`got, this`toRead, this`more, this`command
      ensures used <= |data| && (o.Continue? ==> used == |data|) && (data != [] ==> used > 0)
      ensures !o.Failed? ==> Waiting(View())
      ensures FeedAll(old(View()), data[..used], max) == Progress(View(), if o.Done? then [o.msg] else [], o.Failed?)
    {
      o, used := Continue, 0;
      ghost var r := View();
      while used < |data|
        invariant o.Continue? && used <= |data| && Waiting(View())
        invariant direct && used == 0 ==> |data| <= toRead
        invariant direct && used > 0 ==> used == |data|
        invariant FeedAll(r, data[..used], max) == Progress(View(), [], false)
      {
        var n := if toRead < |data| - used then toRead else |data| - used;
        FeedAppend(r, data[..used], data[used..used + n], max);
        assert data[..used] + data[used..used + n] == data[..used + n];
        ghost var q := FeedAll(View(), data[used..used + n], max);
        assert [] + q.messages == q.messages;
        o := Read(data[used..used + n]);
        used := used + n;
        if !o.Continue? {
          return;
        }
      }
    }

    method Read(piece: seq<Byte>) returns (o: Outcome)
      requires Waiting(View()) && 0 < |piece| <= toRead
      modifies this`phase, this`got, this`toRead, this`more, this`command
      ensures !o.Failed? ==> Waiting(View())
      ensures FeedAll(old(View()), piece, max) == Progress(View(), if o.Done? then [o.msg] else [], o.Failed?)
    {
      ghost var r := View();
      got := got + piece;
      toRead := toRead - |piece|;
      if toRead > 0 {
        FeedCollects(r, piece, max);
        return Continue;
      }
      FeedFills(r, piece, max);
      SettledWaits(View(), max);
      o := RunSteps();
    }

    /** The same, keeping account of the stream. */
    method DecodeNext(data: seq<Byte>, direct: bool) returns (o: Outcome, used: nat)
      requires Valid() && !failed && data != [] && (direct ==> |data| <= toRead)
      modifies this
      ensures Valid() && 0 < used <= |data| && (o.Continue? ==> used == |data|) && failed == o.Failed?
      ensures consumed == old(consumed) + data[..used]
      ensures delivered == old(delivered) + if o.Done? then [o.msg] else []
    {
      o, used := Decode(data, direct);
      FeedAppend(START, consumed, data[..used], max);
      consumed := consumed + data[..used];
      failed := o.Failed?;
      if o.Done? {
        delivered := delivered + [o.msg];
      }
    }
  }

  /** The receiving half of the engine, which hands messages to a session that may have no room. */
  class Engine {
    const decoder: Decoder
    var inpos: seq<Byte>             // what was received and is not decoded yet
    var inputStopped: bool           // the session had no room
    var held: Option<Msg>            // for this message
    ghost var received: seq<Byte>    // all the input so far
    ghost var taken: seq<Msg>        // all the messages the session took

    /** Everything received is decoded or still there, and everything decoded was taken or is held;
        unless the session has no room, nothing is left waiting. */
    ghost predicate Valid()
      reads this, decoder
    {
      && decoder.Valid()
      && received == decoder.consumed + inpos
      && decoder.delivered == taken + Held()
      && (inputStopped <==> held.Some?)
      && (inputStopped ==> !decoder.failed)
      && (!inputStopped && !decoder.failed ==> inpos == [])
    }

    ghost function Held(): seq<Msg>
      reads this
    {
      if held.Some? then [held.value] else []
    }

    constructor (decoder: Decoder)
      requires decoder.Valid() && decoder.consumed == [] && decoder.delivered == [] && !decoder.failed
      ensures Valid() && this.decoder == decoder && received == [] && taken == [] && !inputStopped
    {
      this.decoder := decoder;
      inpos, inputStopped, held, received, taken := [], false, None, [], [];
    }

    /** The messages the session has taken, and the one it had no room for, are those of the stream
        as far as it was decoded; unless the session has no room or the stream is malformed, that
        is all of it. */
    lemma NothingIsLost()
      requires Valid()
      ensures var p := FeedAll(START, received, decoder.max);
              && taken + Held() == FeedAll(START, decoder.consumed, decoder.max).messages <= p.messages
              && (!inputStopped && !decoder.failed ==> !p.failed && taken == p.messages)
              && (decoder.failed ==> p.failed && taken == p.messages)
    {
      FeedAppend(START, decoder.consumed, inpos, decoder.max);
      assert taken + [] == taken;
      assert decoder.consumed + [] == decoder.consumed;
    }

    /** New input; `room` is how many messages the session takes before it has no more room. */
    method InEvent(data: seq<Byte>, direct: bool, room: nat)
      requires Valid() && !inputStopped && !decoder.failed && (direct ==> |data| <= decoder.toRead)
      modifies this, decoder
      ensures Valid() && received == old(received) + data
      ensures old(taken) <= taken && |taken| <= |old(taken)| + room
      ensures inputStopped ==> |taken| == |old(taken)| + room
    {
      inpos, received := data, received + data;
      assert decoder.consumed + data == received;
      DecodeAll(direct, room);
    }

    /** The session has room again: first the message it had no room for, then what is left. */
    method RestartInput(room: nat)
      requires Valid() && inputStopped
      modifies this, decoder
      ensures Valid() && received == old(received)
      ensures old(taken) <= taken && |taken| <= |old(taken)| + room
      ensures inputStopped ==> |taken| == |old(taken)| + room
      ensures room > 0 ==> old(held).value in taken[|old(taken)|..]
    {
      if room == 0 {
        return;
      }
      ghost var was := taken;
      taken, held, inputStopped := taken + [held.value], None, false;
      assert taken + [] == taken;
      DecodeAll(false, room - 1);
      assert taken[|was|..] == [old(held).value] + taken[|was| + 1..];
    }

    /** Decodes what is left, message by message, until the session has no room. */
    method DecodeAll(direct: bool, room: nat)
      requires decoder.Valid() && !decoder.failed && received == decoder.consumed + inpos && decoder.delivered == taken
      requires !inputStopped && held.None? && (direct ==> |inpos| <= decoder.toRead)
      modifies this, decoder
      ensures Valid() && received == old(received)
      ensures old(taken) <= taken && |taken| <= |old(taken)| + room
      ensures inputStopped ==> |taken| == |old(taken)| + room
    {
      var straight, left := direct, room;
      assert taken + [] == taken;
      while |inpos| > 0
        invariant decoder.Valid() && !decoder.failed && received == decoder.consumed + inpos == old(received)
        invariant decoder.delivered == taken && !inputStopped && held.None?
        invariant old(taken) <= taken && |taken| == |old(taken)| + room - left
        invariant straight ==> |inpos| <= decoder.toRead
      {
        var o, used := decoder.DecodeNext(inpos, straight);
        inpos := inpos[used..];
        straight := false;
        if o.Failed? {
          assert taken + [] == taken;
          return;
        }
        if o.Done? {
          if left == 0 {
            held, inputStopped := Some(o.msg), true;
            return;
          }
          taken, left := taken + [o.msg], left - 1;
        }
      }
      assert taken + [] == taken;
    }
  }
}
