/** The encoder: cuts the frames of messages into the pieces that buffers hold. */
module Encoding {
  import opened Basics
  import opened Framing

  datatype Step = MessageReady | SizeReady

  class Encoder {
    const bufsize: nat
    var toWrite: seq<Byte>         // what is left to write before the next step
    var next: Step
    var newMsg: bool               // the message is finished once `toWrite` is written
    var inProgress: Option<Msg>
    ghost var loaded: seq<Msg>     // all the messages so far
    ghost var written: seq<Byte>   // all the output so far

    /** What is still to be written of the current message. */
    ghost function Remaining(): seq<Byte>
      reads this
    {
      if inProgress.None? then [] else toWrite + (if next.SizeReady? then inProgress.value.body else [])
    }

    ghost predicate Valid()
      reads this
    {
      && (next.MessageReady? <==> newMsg)
      && (inProgress.None? ==> toWrite == [] && newMsg)
      && written + Remaining() == Frames(loaded)
    }

    constructor (size: nat)
      ensures Valid() && bufsize == size && inProgress.None? && loaded == [] && written == []
    {
      bufsize, toWrite, next, newMsg, inProgress := size, [], Step.MessageReady, true, None;
      loaded, written := [], [];
    }

    method NextStep(bytes: seq<Byte>, step: Step, newMsg: bool)
      modifies this`toWrite, this`next, this`newMsg
      ensures toWrite == bytes && next == step && this.newMsg == newMsg
    {
      toWrite, next, this.newMsg := bytes, step, newMsg;
    }

    method RunNext()
      requires inProgress.Some?
      modifies this`toWrite, this`next, this`newMsg
      ensures old(next).MessageReady? ==> toWrite == Header(inProgress.value) && next.SizeReady? && !newMsg
      ensures old(next).SizeReady? ==> toWrite == inProgress.value.body && next.MessageReady? && newMsg
    {
      match next
      case MessageReady => NextStep(Header(inProgress.value), Step.SizeReady, false);
      case SizeReady => NextStep(inProgress.value.body, Step.MessageReady, true);
    }

    method LoadMsg(m: Msg)
      requires Valid() && inProgress.None?
      modifies this
      ensures Valid() && inProgress == Some(m) && loaded == old(loaded) + [m] && written == old(written)
      ensures Remaining() == Frame(m)
    {
      inProgress := Some(m);
      RunNext();
      OneMoreFrame(loaded, m);
      assert written + [] == written;
      loaded := loaded + [m];
    }

    /** Writes the next piece, into a supplied buffer of `size` bytes or into the encoder's own;
        without a supplied buffer a long enough piece is passed on without being copied. */
    method Encode(supplied: bool, size: nat) returns (out: seq<Byte>)
      requires Valid()
      modifies this
      ensures Valid() && loaded == old(loaded) && written == old(written) + out
      ensures out + Remaining() == old(Remaining())
      ensures var room := if supplied then size else bufsize;
              && (|out| <= room || !supplied)
              && (|out| < room ==> inProgress.None?)
              && (room > 0 && old(Remaining()) != [] ==> out != [])
    {
      out := [];
      if inProgress.None? {
        return;
      }
      ghost var due := Remaining();
      out := Fill(supplied, if supplied then size else bufsize);
      Regroup(written, out, Remaining());
      written := written + out;
    }

    /** Gathers a batch from the messages there are.  Loading never finds the encoder busy, and
        every loaded message adds to the batch. */
    method OutEvent(queue: seq<Msg>, batch: nat) returns (out: seq<Byte>, taken: nat)
      requires Valid() && 0 < batch == bufsize
      modifies this
      ensures Valid() && taken <= |queue| && loaded == old(loaded) + queue[..taken]
      ensures written == old(written) + out
      ensures out == [] ==> inProgress.None? && queue == []
      ensures |out| < batch ==> inProgress.None? && taken == |queue|
    {
      taken := 0;
      var supplied := inProgress.Some?;
      out := Encode(false, 0);
      while |out| < batch
        invariant Valid() && taken <= |queue| && loaded == old(loaded) + queue[..taken]
        invariant written == old(written) + out
        invariant |out| < batch ==> inProgress.None?
        invariant taken > 0 ==> out != []
        invariant out != [] ==> supplied
        decreases |queue| - taken
      {
        if taken == |queue| {
          break;
        }
        var n := LoadAndEncode(queue[taken], supplied, batch - |out|);
        supplied := true;
        Regroup(old(written), out, n);
        TakeOneMore(old(loaded), queue, taken);
        out := out + n;
        taken := taken + 1;
      }
    }

    method LoadAndEncode(m: Msg, supplied: bool, room: nat) returns (n: seq<Byte>)
      requires Valid() && inProgress.None? && 0 < room <= bufsize && (!supplied ==> room == bufsize)
      modifies this
      ensures Valid() && loaded == old(loaded) + [m] && written == old(written) + n
      ensures |n| > 0 && (|n| < room ==> inProgress.None?)
    {
      LoadMsg(m);
      n := Encode(supplied, room);
    }

    method Fill(supplied: bool, room: nat) returns (out: seq<Byte>)
      requires inProgress.Some? && (next.MessageReady? <==> newMsg)
      modifies this`toWrite, this`next, this`newMsg, this`inProgress
      ensures (next.MessageReady? <==> newMsg) && (inProgress.None? ==> toWrite == [] && newMsg)
      ensures out + Remaining() == old(Remaining())
      ensures |out| <= room || !supplied
      ensures |out| < room ==> inProgress.None?
    {
      out := [];
      ghost var due := Remaining();
      assert [] + due == due;
      while |out| < room
        invariant |out| <= room && inProgress.Some?
        invariant next.MessageReady? <==> newMsg
        invariant out + Remaining() == due
        decreases |Remaining()|, if next.SizeReady? then 1 else 0
      {
        if toWrite == [] && newMsg {
          inProgress := None;
          return;
        }
        var piece := NextPiece(room - |out|, out == [] && !supplied);
        Regroup(out, piece, Remaining());
        out := out + piece;
        if |out| >= room {
          return;
        }
      }
    }

    /** Takes what fits; a large piece may be handed out as it is, without copying. */
    /** Runs the state machine if there is nothing to write, and takes what fits. */
    method NextPiece(room: nat, direct: bool) returns (piece: seq<Byte>)
      requires inProgress.Some? && (next.MessageReady? <==> newMsg) && room > 0 && (toWrite == [] ==> !newMsg)
      modifies this`toWrite, this`next, this`newMsg
      ensures next.MessageReady? <==> newMsg
      ensures piece + Remaining() == old(Remaining()) && (|piece| <= room || direct)
      ensures |piece| > 0 || (old(next).SizeReady? && next.MessageReady?)
    {
      if toWrite == [] {
        RunNext();
      }
      piece := TakeUpTo(room, direct);
    }

    method TakeUpTo(room: nat, direct: bool) returns (piece: seq<Byte>)
      requires inProgress.Some?
      modifies this`toWrite
      ensures piece + Remaining() == old(Remaining()) && |toWrite| == old(|toWrite|) - |piece|
      ensures |piece| == if direct || old(|toWrite|) < room then old(|toWrite|) else room
    {
      var n := if |toWrite| < room then |toWrite| else room;
      if direct && |toWrite| >= room {
        n := |toWrite|;
      }
      piece := Take(n);
    }

    method Take(n: nat) returns (piece: seq<Byte>)
      requires inProgress.Some? && n <= |toWrite|
      modifies this`toWrite
      ensures piece + Remaining() == old(Remaining()) && |piece| == n && |toWrite| == old(|toWrite|) - n
    {
      Regroup(toWrite[..n], toWrite[n..], if next.SizeReady? then inProgress.value.body else []);
      piece := toWrite[..n];
      toWrite := toWrite[n..];
    }
  }

  lemma TakeOneMore<T>(a: seq<T>, b: seq<T>, i: nat)
    requires i < |b|
    ensures a + b[..i] + [b[i]] == a + b[..i + 1]
  {}

  lemma OneMoreFrame(ms: seq<Msg>, m: Msg)
    ensures Frames(ms + [m]) == Frames(ms) + Frame(m)
  {
    FramesAppend(ms, [m]);
    assert [m][1..] == [];
    assert Frame(m) + [] == Frame(m);
  }
}
