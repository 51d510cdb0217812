/** Sending a file in chunks: the sender stops after the first chunk that is not full, and so
    does the receiver. */
module Transfer {
  import opened Basics

  const BUFLEN: nat := 204800

  /** How many chunks a file takes; the last one is empty if the length is a multiple. */
  function ChunkCount(file: seq<Byte>): nat {
    |file| / BUFLEN + 1
  }

  function Min(a: nat, b: nat): nat {
    if a < b then a else b
  }

  /** What is read from the file at a position. */
  function ReadAt(file: seq<Byte>, pos: nat): seq<Byte>
    requires pos <= |file|
  {
    file[pos..Min(pos + BUFLEN, |file|)]
  }

  function Chunks(file: seq<Byte>): seq<seq<Byte>>
    decreases |file|
  {
    if |file| < BUFLEN then [file] else [file[..BUFLEN]] + Chunks(file[BUFLEN..])
  }

  lemma {:induction false} FlattenFront(c: seq<Byte>, chunks: seq<seq<Byte>>)
    ensures Flatten([c] + chunks) == c + Flatten(chunks)
    decreases |chunks|
  {
    if chunks == [] {
      assert [c] + chunks == [c] && [c][..0] == [];
      assert [] + c == c + [];
    } else {
      assert ([c] + chunks)[..|chunks|] == [c] + chunks[..|chunks| - 1];
      FlattenFront(c, chunks[..|chunks| - 1]);
      assert c + Flatten(chunks[..|chunks| - 1]) + chunks[|chunks| - 1] == c + (Flatten(chunks[..|chunks| - 1]) + chunks[|chunks| - 1]);
    }
  }

  /** Every chunk but the last is full, the last is not, and together they are the file. */
  lemma {:induction false} ChunksMakeTheFile(file: seq<Byte>)
    ensures |Chunks(file)| == ChunkCount(file) && Flatten(Chunks(file)) == file
    ensures forall i :: 0 <= i < |Chunks(file)| - 1 ==> |Chunks(file)[i]| == BUFLEN
    ensures |Chunks(file)[|Chunks(file)| - 1]| == |file| % BUFLEN
    decreases |file|
  {
    if |file| < BUFLEN {
      assert [file][..0] == [];
      assert [] + file == file;
    } else {
      ChunksMakeTheFile(file[BUFLEN..]);
      FlattenFront(file[..BUFLEN], Chunks(file[BUFLEN..]));
      assert file[..BUFLEN] + file[BUFLEN..] == file;
    }
  }

  /** The chunks already read, and the rest. */
  lemma {:induction false} ChunkAt(file: seq<Byte>, k: nat)
    requires k < ChunkCount(file)
    ensures k * BUFLEN <= |file| && k < |Chunks(file)| && Chunks(file)[k] == ReadAt(file, k * BUFLEN)
    ensures k + 1 < ChunkCount(file) <==> |ReadAt(file, k * BUFLEN)| == BUFLEN
    decreases k
  {
    ChunksMakeTheFile(file);
    if k == 0 {
    } else {
      ChunkAt(file[BUFLEN..], k - 1);
    }
  }

  /** The sender's loop; before or after each chunk a byte may be received into the same buffer. */
  method SendFile(file: seq<Byte>, buf: array<Byte>, before: bool, after: bool, signal: Byte)
    returns (chunks: seq<seq<Byte>>)
    requires buf.Length == BUFLEN
    modifies buf
    ensures chunks == Chunks(file)
  {
    chunks := [];
    var pos, size := 0, BUFLEN;
    ChunksMakeTheFile(file);
    while size == BUFLEN
      invariant size == BUFLEN ==> |chunks| < ChunkCount(file) == |Chunks(file)| && pos == |chunks| * BUFLEN
      invariant size == BUFLEN ==> chunks == Chunks(file)[..|chunks|]
      invariant size != BUFLEN ==> chunks == Chunks(file)
      decreases if size == BUFLEN then ChunkCount(file) - |chunks| + 1 else 0
    {
      if before {
        buf[0] := signal;
      }
      ChunkAt(file, |chunks|);
      size := Min(BUFLEN, |file| - pos);
      Fread(buf, file[pos..pos + size]);
      pos := pos + size;
      chunks := chunks + [buf[..size]];
      if after {
        buf[0] := signal;
      }
    }
  }

  method Fread(buf: array<Byte>, data: seq<Byte>)
    requires |data| <= buf.Length
    modifies buf
    ensures buf[..|data|] == data
  {
    forall i | 0 <= i < |data| {
      buf[i] := data[i];
    }
  }

  /** The receiver's loop over the chunks that come; false for a chunk that is too long. */
  method RecvFile(incoming: seq<seq<Byte>>, buf: array<Byte>) returns (ok: bool, file: seq<Byte>, used: nat)
    requires buf.Length == BUFLEN && exists k :: 0 <= k < |incoming| && |incoming[k]| != BUFLEN
    modifies buf
    ensures 0 < used <= |incoming| && (forall i :: 0 <= i < used - 1 ==> |incoming[i]| == BUFLEN)
    ensures ok <==> |incoming[used - 1]| < BUFLEN
    ensures ok ==> file == Flatten(incoming[..used])
  {
    file, used, ok := [], 0, true;
    var size := BUFLEN;
    while size == BUFLEN
      invariant used <= |incoming| && ok
      invariant forall i :: 0 <= i < used - 1 ==> |incoming[i]| == BUFLEN
      invariant file == Flatten(incoming[..used])
      invariant if size == BUFLEN then forall i :: 0 <= i < used ==> |incoming[i]| == BUFLEN
                else used > 0 && |incoming[used - 1]| < BUFLEN
      decreases |incoming| - used + (if size == BUFLEN then 1 else 0)
    {
      var c := incoming[used];
      used := used + 1;
      size := Min(|c|, BUFLEN);
      Fread(buf, c[..size]);
      assert incoming[..used][..used - 1] == incoming[..used - 1];
      file := file + buf[..size];
      if size < |c| {
        ok := false;
        return;
      }
      assert c[..size] == c;
    }
  }

  /** What the sender sends is written back as the same file, and nothing after it is touched. */
  lemma FileArrives(file: seq<Byte>, rest: seq<seq<Byte>>, used: nat)
    requires 0 < used <= |Chunks(file) + rest|
    requires forall i :: 0 <= i < used - 1 ==> |(Chunks(file) + rest)[i]| == BUFLEN
    requires |(Chunks(file) + rest)[used - 1]| < BUFLEN
    ensures used == ChunkCount(file) && Flatten((Chunks(file) + rest)[..used]) == file
  {
    ChunksMakeTheFile(file);
    var n := |Chunks(file)|;
    var all := Chunks(file) + rest;
    assert forall i :: 0 <= i < n ==> all[i] == Chunks(file)[i];
    assert |all[n - 1]| < BUFLEN;
    assert (Chunks(file) + rest)[..n] == Chunks(file);
  }

  /** The sender's socket; the receiver's is the matching one. */
  datatype Kind = Req | Rep | OneWay

  /** A socket that must reply to each request, or wait for each reply, is in one of two phases. */
  datatype Phase = Rest | Owing

  datatype SenderAt = AwaitAsk | SendChunk | AwaitAck | SenderDone

  datatype ReceiverAt = Ask | TakeChunk | Ack | ReceiverDone

  /** Both programs with the size of their last chunk, their sockets, and what is on its way.
      `broken` says that a socket operation was called in the wrong phase. */
  datatype State = State(sender: SenderAt, sent: nat, sSize: nat, sSocket: Phase,
                         receiver: ReceiverAt, received: nat, rSize: nat, rSocket: Phase,
                         out: seq<Byte>, data: seq<seq<Byte>>, signals: nat, broken: bool)

  datatype Action = SenderActs | ReceiverActs

  function Start(k: Kind): State {
    State(if k.Rep? then AwaitAsk else SendChunk, 0, 0, Rest, if k.Rep? then Ask else TakeChunk, 0, 0, Rest, [], [], 0, false)
  }

  /** A receive blocks until something is there. */
  predicate Enabled(s: State, a: Action) {
    match a
    case SenderActs => s.sender.SendChunk? || (!s.sender.SenderDone? && s.signals > 0)
    case ReceiverActs => s.receiver.Ask? || s.receiver.Ack? || (s.receiver.TakeChunk? && s.data != [])
  }

  /** A requesting socket sends when at rest, a replying one when it owes a reply. */
  predicate MaySend(requests: bool, p: Phase) {
    if requests then p.Rest? else p.Owing?
  }

  predicate MayRecv(requests: bool, p: Phase) {
    if requests then p.Owing? else p.Rest?
  }

  /** The loop goes on after a full chunk. */
  function SenderAgain(k: Kind, size: nat): SenderAt {
    if size != BUFLEN then SenderDone else if k.Rep? then AwaitAsk else SendChunk
  }

  function ReceiverAgain(k: Kind, size: nat): ReceiverAt {
    if size != BUFLEN then ReceiverDone else if k.Rep? then Ask else TakeChunk
  }

  function SenderStep(s: State, k: Kind, file: seq<Byte>): State
    requires Enabled(s, SenderActs) && (s.sender.SendChunk? ==> s.sent * BUFLEN <= |file|)
  {
    match s.sender
    case AwaitAsk =>
      s.(sender := SendChunk, signals := s.signals - 1, sSocket := Owing, broken := s.broken || !MayRecv(false, s.sSocket))
    case SendChunk =>
      var c := ReadAt(file, s.sent * BUFLEN);
      var t := s.(sent := s.sent + 1, sSize := |c|, data := s.data + [c]);
      if k.Req? then t.(sender := AwaitAck, sSocket := Owing, broken := s.broken || !MaySend(true, s.sSocket))
      else if k.Rep? then
        t.(sender := SenderAgain(k, |c|), sSocket := Rest, broken := s.broken || !MaySend(false, s.sSocket))
      else t.(sender := SenderAgain(k, |c|))
    case AwaitAck =>
      s.(sender := SenderAgain(k, s.sSize), signals := s.signals - 1, sSocket := Rest,
         broken := s.broken || !MayRecv(true, s.sSocket))
  }

  function ReceiverStep(s: State, k: Kind): State
    requires Enabled(s, ReceiverActs)
  {
    match s.receiver
    case Ask =>
      s.(receiver := TakeChunk, signals := s.signals + 1, rSocket := Owing, broken := s.broken || !MaySend(true, s.rSocket))
    case TakeChunk =>
      var c := s.data[0];
      var t := s.(received := s.received + 1, rSize := |c|, out := s.out + c, data := s.data[1..]);
      if k.Req? then t.(receiver := Ack, rSocket := Owing, broken := s.broken || !MayRecv(false, s.rSocket))
      else if k.Rep? then
        t.(receiver := ReceiverAgain(k, |c|), rSocket := Rest, broken := s.broken || !MayRecv(true, s.rSocket))
      else t.(receiver := ReceiverAgain(k, |c|))
    case Ack =>
      s.(receiver := ReceiverAgain(k, s.rSize), signals := s.signals + 1, rSocket := Rest,
         broken := s.broken || !MaySend(false, s.rSocket))
  }

  function Upto(file: seq<Byte>, k: nat): seq<Byte> {
    file[..Min(k * BUFLEN, |file|)]
  }

  /** What is on its way are the chunks between those received and those sent. */
  ghost predicate StreamOk(s: State, file: seq<Byte>) {
    && s.received <= s.sent <= ChunkCount(file) && |s.data| == s.sent - s.received
    && (forall i :: 0 <= i < |s.data| ==> (s.received + i) * BUFLEN <= |file| && s.data[i] == ReadAt(file, (s.received + i) * BUFLEN))
    && s.out == Upto(file, s.received)
  }

  /** Each program is in its loop as long as there are chunks for it. */
  ghost predicate LoopsOk(s: State, file: seq<Byte>) {
    var n := ChunkCount(file);
    && (s.sender.SenderDone? ==> s.sent == n)
    && (s.sender.SendChunk? || s.sender.AwaitAsk? ==> s.sent < n)
    && (s.sender.AwaitAck? ==> s.sent > 0 && (s.sSize == BUFLEN <==> s.sent < n))
    && (s.receiver.ReceiverDone? ==> s.received == n)
    && (s.receiver.TakeChunk? || s.receiver.Ask? ==> s.received < n)
    && (s.receiver.Ack? ==> s.received > 0 && (s.rSize == BUFLEN <==> s.received < n))
  }

  function One(b: bool): nat {
    if b then 1 else 0
  }

  /** With request and reply sockets there is one thing to do at a time. */
  ghost predicate InStep(s: State, k: Kind) {
    match k
    case Req =>
      && !s.sender.AwaitAsk? && !s.receiver.Ask?
      && (s.sSocket.Owing? <==> s.sender.AwaitAck?) && (s.rSocket.Owing? <==> s.receiver.Ack?)
      && |s.data| + One(s.receiver.Ack?) + s.signals == One(s.sender.AwaitAck?)
    case Rep =>
      && !s.sender.AwaitAck? && !s.receiver.Ack?
      && (s.sSocket.Owing? <==> s.sender.SendChunk?) && (s.rSocket.Owing? <==> s.receiver.TakeChunk?)
      && s.signals + One(s.sender.SendChunk?) + |s.data| == One(s.receiver.TakeChunk?)
    case OneWay =>
      && (s.sender.SendChunk? || s.sender.SenderDone?) && (s.receiver.TakeChunk? || s.receiver.ReceiverDone?)
      && s.sSocket.Rest? && s.rSocket.Rest? && s.signals == 0
  }

  ghost predicate Inv(s: State, k: Kind, file: seq<Byte>) {
    !s.broken && StreamOk(s, file) && LoopsOk(s, file) && InStep(s, k)
  }

  lemma StartHolds(k: Kind, file: seq<Byte>)
    ensures Inv(Start(k), k, file)
  {}

  lemma SenderKeeps(s: State, k: Kind, file: seq<Byte>)
    requires Inv(s, k, file) && Enabled(s, SenderActs)
    ensures s.sender.SendChunk? ==> s.sent * BUFLEN <= |file|
    ensures Inv(SenderStep(s, k, file), k, file)
  {
    if s.sender.SendChunk? {
      ChunkAt(file, s.sent);
    }
  }

  lemma ReceiverKeeps(s: State, k: Kind, file: seq<Byte>)
    requires Inv(s, k, file) && Enabled(s, ReceiverActs)
    ensures Inv(ReceiverStep(s, k), k, file)
  {
    if s.receiver.TakeChunk? {
      ChunkAt(file, s.received);
      assert s.data[0] == ReadAt(file, (s.received + 0) * BUFLEN);
      assert (s.received + 1) * BUFLEN == s.received * BUFLEN + BUFLEN;
      assert Upto(file, s.received) + s.data[0] == Upto(file, s.received + 1);
      var t := ReceiverStep(s, k);
      forall i | 0 <= i < |t.data|
        ensures (t.received + i) * BUFLEN <= |file| && t.data[i] == ReadAt(file, (t.received + i) * BUFLEN)
      {
        assert t.data[i] == s.data[i + 1] && t.received + i == s.received + (i + 1);
      }
    }
  }

  ghost predicate LegalRun(s: State, actions: seq<Action>, k: Kind, file: seq<Byte>)
    requires Inv(s, k, file)
    decreases |actions|
  {
    actions != [] ==> Enabled(s, actions[0]) && (StepKeeps(s, actions[0], k, file); LegalRun(Step(s, actions[0], k, file), actions[1..], k, file))
  }

  ghost function Step(s: State, a: Action, k: Kind, file: seq<Byte>): State
    requires Inv(s, k, file) && Enabled(s, a)
  {
    SenderMayRead(s, a, k, file);
    if a.SenderActs? then SenderStep(s, k, file) else ReceiverStep(s, k)
  }

  lemma SenderMayRead(s: State, a: Action, k: Kind, file: seq<Byte>)
    requires Inv(s, k, file)
    ensures s.sender.SendChunk? ==> s.sent * BUFLEN <= |file|
  {
    if s.sender.SendChunk? {
      ChunkAt(file, s.sent);
    }
  }

  lemma StepKeeps(s: State, a: Action, k: Kind, file: seq<Byte>)
    requires Inv(s, k, file) && Enabled(s, a)
    ensures Inv(Step(s, a, k, file), k, file)
  {
    match a
    case SenderActs => SenderKeeps(s, k, file);
    case ReceiverActs => ReceiverKeeps(s, k, file);
  }

  ghost function Run(s: State, actions: seq<Action>, k: Kind, file: seq<Byte>): State
    requires Inv(s, k, file) && LegalRun(s, actions, k, file)
    decreases |actions|
  {
    if actions == [] then s
    else StepKeeps(s, actions[0], k, file); Run(Step(s, actions[0], k, file), actions[1..], k, file)
  }

  lemma {:induction false} RunKeeps(s: State, actions: seq<Action>, k: Kind, file: seq<Byte>)
    requires Inv(s, k, file) && LegalRun(s, actions, k, file)
    ensures Inv(Run(s, actions, k, file), k, file)
    decreases |actions|
  {
    if actions == [] {
    } else {
      StepKeeps(s, actions[0], k, file);
      RunKeeps(Step(s, actions[0], k, file), actions[1..], k, file);
    }
  }

  predicate Finished(s: State) {
    s.sender.SenderDone? && s.receiver.ReceiverDone?
  }

  /** Whatever the file and the sockets: no operation comes in the wrong phase, and when both
      loops have ended the file is there, in the right number of chunks, nothing is left over,
      and both sockets are where they started. */
  lemma EveryTransferSucceeds(start: State, actions: seq<Action>, k: Kind, file: seq<Byte>)
    requires start == Start(k) && Inv(start, k, file) && LegalRun(start, actions, k, file)
    ensures var s := Run(start, actions, k, file);
            && !s.broken
            && (Finished(s) ==> s.out == file && s.sent == s.received == ChunkCount(file)
                                && s.data == [] && s.signals == 0 && s.sSocket.Rest? && s.rSocket.Rest?)
  {
    RunKeeps(start, actions, k, file);
    var s := Run(start, actions, k, file);
    if Finished(s) {
      assert ChunkCount(file) * BUFLEN > |file|;
    }
  }

  /** The two programs never both wait... */
  lemma NeverDeadlocked(s: State, k: Kind, file: seq<Byte>)
    requires Inv(s, k, file) && !Finished(s)
    ensures Enabled(s, SenderActs) || Enabled(s, ReceiverActs)
  {}

  ghost function Ahead(s: State, file: seq<Byte>): nat
    requires s.sent <= ChunkCount(file) && s.received <= ChunkCount(file)
  {
    8 * (ChunkCount(file) - s.sent) + 8 * (ChunkCount(file) - s.received)
    + (if s.sender.SenderDone? then 0 else if s.sender.SendChunk? then 1 else 2)
    + (if s.receiver.ReceiverDone? then 0 else if s.receiver.TakeChunk? then 1 else 2)
  }

  /** ...and every step brings them nearer to the end. */
  lemma StepsLeadToTheEnd(s: State, a: Action, k: Kind, file: seq<Byte>)
    requires Inv(s, k, file) && Enabled(s, a)
    ensures Inv(Step(s, a, k, file), k, file) && Ahead(Step(s, a, k, file), file) < Ahead(s, file)
  {
    StepKeeps(s, a, k, file);
  }
}
