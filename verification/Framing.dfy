/** The wire format of messages, version 2 of the protocol, and what a receiver makes of it
    byte by byte. */
module Framing {
  import opened Basics

  datatype Msg = Msg(more: bool, command: bool, body: seq<Byte>)

  const MORE := 1
  const LARGE := 2
  const COMMAND := 4

  function Power(n: nat): (p: nat)
    ensures p > 0
  {
    if n == 0 then 1 else 256 * Power(n - 1)
  }

  /** The lowest `n` bytes of a number, most significant first. */
  function Put(v: nat, n: nat): (s: seq<Byte>)
    ensures |s| == n
  {
    if n == 0 then [] else Put(v / 256, n - 1) + [v % 256]
  }

  function Get(s: seq<Byte>): nat {
    if s == [] then 0 else 256 * Get(s[..|s| - 1]) + s[|s| - 1]
  }

  lemma {:induction false} GetPut(v: nat, n: nat)
    requires v < Power(n)
    ensures Get(Put(v, n)) == v
  {
    if n == 0 {
    } else {
      GetPut(v / 256, n - 1);
      assert Put(v, n)[..n - 1] == Put(v / 256, n - 1);
    }
  }

  lemma DivideTwice(v: nat, p: nat)
    requires p > 0
    ensures v / 256 / p == v / (256 * p)
  {
    var a, b := v / 256, v / 256 / p;
    var r := v - b * (256 * p);
    assert v == 256 * a + v % 256 && a == b * p + a % p;
    assert b * (256 * p) == 256 * (b * p);
    assert 0 <= r < 256 * p;
    QuotientIsUnique(v, 256 * p, b, r);
  }

  lemma MulAtLeast(a: int, n: int)
    requires a >= 1 && n > 0
    ensures a * n >= n
  {
    assert (a - 1) * n >= 0;
  }

  lemma QuotientIsUnique(v: nat, n: nat, b: nat, r: nat)
    requires n > 0 && v == b * n + r && r < n
    ensures v / n == b
  {
    var c, k := v / n, v % n;
    assert v == c * n + k && 0 <= k < n;
    assert (b - c) * n == b * n - c * n;
    if b > c {
      MulAtLeast(b - c, n);
    } else if c > b {
      assert (c - b) * n == c * n - b * n;
      MulAtLeast(c - b, n);
    }
  }

  /** Network byte order: each byte by its place, the first one the most significant. */
  lemma {:induction false} PutByte(v: nat, n: nat, i: nat)
    requires i < n
    ensures Put(v, n)[i] == v / Power(n - 1 - i) % 256
  {
    if i == n - 1 {
      assert Power(0) == 1;
    } else {
      PutByte(v / 256, n - 1, i);
      DivideTwice(v, Power(n - 2 - i));
    }
  }

  lemma Powers()
    ensures Power(0) == 1 && Power(1) == 0x100 && Power(2) == 0x1_0000 && Power(3) == 0x100_0000
    ensures Power(4) == 0x1_0000_0000 && Power(5) == 0x100_0000_0000 && Power(6) == 0x1_0000_0000_0000
    ensures Power(7) == 0x100_0000_0000_0000 && Power(8) == 0x1_0000_0000_0000_0000
  {
    assert Power(1) == 256 * Power(0);
    assert Power(2) == 256 * Power(1);
    assert Power(3) == 256 * Power(2);
    assert Power(4) == 256 * Power(3);
    assert Power(5) == 256 * Power(4);
    assert Power(6) == 256 * Power(5);
    assert Power(7) == 256 * Power(6);
    assert Power(8) == 256 * Power(7);
  }

  /** A length of four bytes. */
  lemma PutFour(v: nat)
    requires v < 0x1_0000_0000
    ensures Put(v, 4) == [v / 0x100_0000, v / 0x1_0000 % 256, v / 0x100 % 256, v % 256]
  {
    Powers();
    PutByte(v, 4, 0);
    PutByte(v, 4, 1);
    PutByte(v, 4, 2);
    PutByte(v, 4, 3);
  }

  /** The first byte stands for the highest digit of the number. */
  lemma {:induction false} GetFirst(s: seq<Byte>)
    requires s != []
    ensures Get(s) == s[0] * Power(|s| - 1) + Get(s[1..])
    decreases |s|
  {
    if |s| == 1 {
      assert s[..0] == [] && s[1..] == [];
      assert Get(s) == s[0] && Power(0) == 1;
    } else {
      var init := s[..|s| - 1];
      GetFirst(init);
      assert s[1..][..|s| - 2] == init[1..];
      assert Get(s[1..]) == 256 * Get(init[1..]) + s[|s| - 1];
      assert 256 * (s[0] * Power(|s| - 2)) == s[0] * (256 * Power(|s| - 2));
    }
  }

  /** What four bytes stand for. */
  function Four(a: nat, b: nat, c: nat, d: nat): nat {
    0x100_0000 * a + 0x1_0000 * b + 0x100 * c + d
  }

  lemma GetTwo(s: seq<Byte>)
    requires |s| == 2
    ensures Get(s) == Four(0, 0, s[0], s[1])
  {
    assert s[..1] == [s[0]] && [s[0]][..0] == [];
    assert Get([s[0]]) == s[0];
  }

  lemma GetFour(s: seq<Byte>)
    requires |s| == 4
    ensures Get(s) == Four(s[0], s[1], s[2], s[3])
  {
    assert s[..3][..2] == s[..2];
    GetTwo(s[..2]);
    assert Get(s[..3]) == 256 * Get(s[..2]) + s[2];
  }

  /** A length of eight bytes: the first four stand for 2^32 times as much as the others. */
  lemma GetEight(s: seq<Byte>)
    requires |s| == 8
    ensures Get(s) == 0x1_0000_0000 * Get(s[..4]) + Get(s[4..])
  {
    Powers();
    GetFour(s[..4]);
    GetFour(s[4..]);
    GetFirst(s);
    GetFirst(s[1..]);
    assert s[1..][1..] == s[2..];
    GetFirst(s[2..]);
    assert s[2..][1..] == s[3..];
    GetFirst(s[3..]);
    assert s[3..][1..] == s[4..];
  }

  function FlagByte(m: Msg): Byte {
    (if m.more then MORE else 0) + (if |m.body| > 255 then LARGE else 0) + (if m.command then COMMAND else 0)
  }

  function Header(m: Msg): seq<Byte> {
    if |m.body| > 255 then [FlagByte(m)] + Put(|m.body|, 8) else [FlagByte(m), |m.body|]
  }

  function Frame(m: Msg): seq<Byte> {
    Header(m) + m.body
  }

  /** The lowest three bits of a flag byte, the only ones that a sender sets. */
  predicate Flagged(b: Byte, more: bool, large: bool, command: bool) {
    b < 8 && (b % 2 == 1 <==> more) && (b / 2 % 2 == 1 <==> large) && (b / 4 % 2 == 1 <==> command)
  }

  /** A frame, byte by byte: the flags, then a size up to 255 in one byte, then the body. */
  lemma SmallFrameBytes(m: Msg)
    requires |m.body| <= 255
    ensures var f := Frame(m);
      && |f| == |m.body| + 2 && Flagged(f[0], m.more, false, m.command)
      && f[1] == |m.body| && f[2..] == m.body
  {}

  /** A larger size takes eight bytes, the most significant one first. */
  lemma LargeFrameBytes(m: Msg)
    requires 255 < |m.body| < 0x1_0000_0000_0000_0000
    ensures var n, f := |m.body|, Frame(m);
      && |f| == n + 9 && Flagged(f[0], m.more, true, m.command)
      && f[1] == n / 0x100_0000_0000_0000 && f[2] == n / 0x1_0000_0000_0000 % 256
      && f[3] == n / 0x100_0000_0000 % 256 && f[4] == n / 0x1_0000_0000 % 256
      && f[5] == n / 0x100_0000 % 256 && f[6] == n / 0x1_0000 % 256
      && f[7] == n / 0x100 % 256 && f[8] == n % 256
      && f[9..] == m.body
  {
    LargeFlags(m);
    SizeBytes(|m.body|);
    LargeFrame(m);
  }

  lemma LargeFlags(m: Msg)
    requires |m.body| > 255
    ensures Flagged(FlagByte(m), m.more, true, m.command)
  {}

  lemma LargeFrame(m: Msg)
    requires |m.body| > 255
    ensures var f, size := Frame(m), Put(|m.body|, 8);
      && |f| == |m.body| + 9 && f[0] == FlagByte(m) && f[9..] == m.body
      && f[1] == size[0] && f[2] == size[1] && f[3] == size[2] && f[4] == size[3]
      && f[5] == size[4] && f[6] == size[5] && f[7] == size[6] && f[8] == size[7]
  {
    assert Frame(m)[9..] == m.body;
  }

  lemma SizeBytes(n: nat)
    requires n < 0x1_0000_0000_0000_0000
    ensures var s := Put(n, 8);
      && s[0] == n / 0x100_0000_0000_0000 && s[1] == n / 0x1_0000_0000_0000 % 256
      && s[2] == n / 0x100_0000_0000 % 256 && s[3] == n / 0x1_0000_0000 % 256
      && s[4] == n / 0x100_0000 % 256 && s[5] == n / 0x1_0000 % 256
      && s[6] == n / 0x100 % 256 && s[7] == n % 256
  {
    Powers();
    PutByte(n, 8, 0);
    PutByte(n, 8, 1);
    PutByte(n, 8, 2);
    PutByte(n, 8, 3);
    PutByte(n, 8, 4);
    PutByte(n, 8, 5);
    PutByte(n, 8, 6);
    PutByte(n, 8, 7);
  }

  function Frames(ms: seq<Msg>): seq<Byte> {
    if ms == [] then [] else Frame(ms[0]) + Frames(ms[1..])
  }

  lemma {:induction false} FramesAppend(a: seq<Msg>, b: seq<Msg>)
    ensures Frames(a + b) == Frames(a) + Frames(b)
    decreases |a|
  {
    if a == [] {
      assert a + b == b;
    } else {
      assert (a + b)[1..] == a[1..] + b && (a + b)[0] == a[0];
      FramesAppend(a[1..], b);
      assert Frame(a[0]) + (Frames(a[1..]) + Frames(b)) == (Frame(a[0]) + Frames(a[1..])) + Frames(b);
    }
  }

  datatype Phase = FlagsReady | OneByteSizeReady | EightByteSizeReady | MessageReady

  /** A receiver: what happens once `toRead` more bytes have been added to `got`. */
  datatype Receiver = Receiver(phase: Phase, got: seq<Byte>, toRead: nat, more: bool, command: bool)

  datatype Outcome = Continue | Done(msg: Msg) | Failed

  const START := Receiver(FlagsReady, [], 1, false, false)

  predicate Waiting(r: Receiver) {
    r.toRead > 0 && |r.got| + r.toRead == Expected(r)
  }

  function Expected(r: Receiver): nat {
    match r.phase
    case FlagsReady => 1
    case OneByteSizeReady => 1
    case EightByteSizeReady => 8
    case MessageReady => |r.got| + r.toRead
  }

  function SizeReady(r: Receiver, size: nat, max: int): (Receiver, Outcome) {
    if max >= 0 && size > max then (r, Failed)
    else (r.(phase := MessageReady, got := [], toRead := size), Continue)
  }

  /** Runs the state machine when all the bytes it waited for are there. */
  function NextStep(r: Receiver, max: int): (Receiver, Outcome)
    requires r.toRead == 0 && |r.got| == Expected(r)
  {
    match r.phase
    case FlagsReady =>
      var b := r.got[0];
      var t := r.(got := [], more := b % 2 == 1, command := b / COMMAND % 2 == 1);
      (if b / LARGE % 2 == 1 then t.(phase := EightByteSizeReady, toRead := 8)
       else t.(phase := OneByteSizeReady, toRead := 1), Continue)
    case OneByteSizeReady => SizeReady(r, r.got[0], max)
    case EightByteSizeReady => SizeReady(r, Get(r.got), max)
    case MessageReady => (r.(phase := FlagsReady, got := [], toRead := 1), Done(Msg(r.more, r.command, r.got)))
  }

  function Rank(p: Phase): nat {
    match p
    case FlagsReady => 2
    case OneByteSizeReady => 1
    case EightByteSizeReady => 1
    case MessageReady => 0
  }

  /** Runs it as long as nothing more is needed, up to the end of a message. */
  function Settle(r: Receiver, max: int): (Receiver, Outcome)
    requires |r.got| + r.toRead == Expected(r)
    decreases Rank(r.phase)
  {
    if r.toRead > 0 then (r, Continue)
    else
      var (t, o) := NextStep(r, max);
      if o.Continue? then Settle(t, max) else (t, o)
  }

  lemma {:induction false} SettledWaits(r: Receiver, max: int)
    requires |r.got| + r.toRead == Expected(r)
    ensures !Settle(r, max).1.Failed? ==> Waiting(Settle(r, max).0)
    decreases Rank(r.phase)
  {
    if r.toRead > 0 || !NextStep(r, max).1.Continue? {
    } else {
      SettledWaits(NextStep(r, max).0, max);
    }
  }

  /** One more byte. */
  function Feed(r: Receiver, b: Byte, max: int): (Receiver, Outcome)
    requires Waiting(r)
  {
    Settle(r.(got := r.got + [b], toRead := r.toRead - 1), max)
  }

  /** What a receiver makes of a stream: the messages, and where it stands, or that it failed. */
  datatype Progress = Progress(receiver: Receiver, messages: seq<Msg>, failed: bool)

  ghost function FeedAll(r: Receiver, s: seq<Byte>, max: int): Progress
    requires Waiting(r)
    decreases |s|
  {
    if s == [] then Progress(r, [], false)
    else
      SettledWaits(r.(got := r.got + [s[0]], toRead := r.toRead - 1), max);
      var (t, o) := Feed(r, s[0], max);
      if o.Failed? then Progress(t, [], true)
      else
        var p := FeedAll(t, s[1..], max);
        if o.Done? then p.(messages := [o.msg] + p.messages) else p
  }

  ghost function Then(p: Progress, s: seq<Byte>, max: int): Progress
    requires p.failed || Waiting(p.receiver)
  {
    if p.failed then p
    else
      var q := FeedAll(p.receiver, s, max);
      q.(messages := p.messages + q.messages)
  }

  /** However a stream is cut, its pieces give what the whole gives. */
  lemma {:induction false} FeedAppend(r: Receiver, a: seq<Byte>, b: seq<Byte>, max: int)
    requires Waiting(r)
    ensures var p := FeedAll(r, a, max);
            (p.failed || Waiting(p.receiver)) && FeedAll(r, a + b, max) == Then(p, b, max)
    decreases |a|
  {
    if a == [] {
      assert a + b == b;
      assert [] + FeedAll(r, b, max).messages == FeedAll(r, b, max).messages;
    } else {
      SettledWaits(r.(got := r.got + [a[0]], toRead := r.toRead - 1), max);
      assert (a + b)[1..] == a[1..] + b && (a + b)[0] == a[0];
      var (t, o) := Feed(r, a[0], max);
      if !o.Failed? {
        FeedAppend(t, a[1..], b, max);
        var p := FeedAll(t, a[1..], max);
        if o.Done? && !p.failed {
          var q := FeedAll(p.receiver, b, max);
          assert [o.msg] + (p.messages + q.messages) == ([o.msg] + p.messages) + q.messages;
        }
      }
    }
  }

  /** Bytes that are all waited for are just collected. */
  lemma {:induction false} FeedCollects(r: Receiver, s: seq<Byte>, max: int)
    requires Waiting(r) && |s| < r.toRead
    ensures FeedAll(r, s, max) == Progress(r.(got := r.got + s, toRead := r.toRead - |s|), [], false)
    decreases |s|
  {
    if s == [] {
      assert r.got + [] == r.got;
    } else {
      var t := r.(got := r.got + [s[0]], toRead := r.toRead - 1);
      FeedCollects(t, s[1..], max);
      assert r.got + [s[0]] + s[1..] == r.got + s;
    }
  }

  lemma FeedOne(r: Receiver, b: Byte, max: int)
    requires Waiting(r)
    ensures var (t, o) := Feed(r, b, max);
            FeedAll(r, [b], max) == Progress(t, if o.Done? then [o.msg] else [], o.Failed?)
  {
    SettledWaits(r.(got := r.got + [b], toRead := r.toRead - 1), max);
    var (t, o) := Feed(r, b, max);
    assert [b][1..] == [];
    if o.Done? {
      assert [o.msg] + [] == [o.msg];
    }
  }

  /** The last of the bytes waited for runs the state machine. */
  lemma FeedFills(r: Receiver, s: seq<Byte>, max: int)
    requires Waiting(r) && |s| == r.toRead
    ensures var (t, o) := Settle(r.(got := r.got + s, toRead := 0), max);
            FeedAll(r, s, max) == Progress(t, if o.Done? then [o.msg] else [], o.Failed?)
  {
    var n := |s| - 1;
    assert s == s[..n] + [s[n]];
    FeedAppend(r, s[..n], [s[n]], max);
    FeedCollects(r, s[..n], max);
    var t := r.(got := r.got + s[..n], toRead := 1);
    FeedOne(t, s[n], max);
    assert t.got + [s[n]] == r.got + s;
    var q := FeedAll(t, [s[n]], max);
    assert [] + q.messages == q.messages;
  }

  /** A message a receiver accepts: its size fits eight bytes and is within the limit. */
  predicate Acceptable(m: Msg, max: int) {
    |m.body| < Power(8) && (max >= 0 ==> |m.body| <= max)
  }

  lemma Flags(m: Msg)
    ensures var b := FlagByte(m);
            && (b % 2 == 1 <==> m.more) && (b / LARGE % 2 == 1 <==> |m.body| > 255) && (b / COMMAND % 2 == 1 <==> m.command)
  {}

  /** Where a receiver stands after the flags of a message. */
  function AfterFlags(m: Msg): Receiver {
    if |m.body| > 255 then Receiver(EightByteSizeReady, [], 8, m.more, m.command)
    else Receiver(OneByteSizeReady, [], 1, m.more, m.command)
  }

  function AtStart(m: Msg): Receiver {
    Receiver(FlagsReady, [], 1, m.more, m.command)
  }

  function AfterSize(m: Msg): Receiver {
    if m.body == [] then AtStart(m) else Receiver(MessageReady, [], |m.body|, m.more, m.command)
  }

  lemma FeedFlags(r: Receiver, m: Msg, max: int)
    requires Waiting(r) && r.phase.FlagsReady?
    ensures FeedAll(r, [FlagByte(m)], max) == Progress(AfterFlags(m), [], false)
  {
    Flags(m);
    FeedFills(r, [FlagByte(m)], max);
    assert r.got == [];
    assert (r.got + [FlagByte(m)])[0] == FlagByte(m);
  }

  /** The state machine with the size bytes of the message there. */
  function WithSize(m: Msg): Receiver {
    AfterFlags(m).(got := Header(m)[1..], toRead := 0)
  }

  lemma SizeStep(m: Msg, max: int)
    requires |m.body| < Power(8)
    ensures |Header(m)[1..]| == AfterFlags(m).toRead
    ensures NextStep(WithSize(m), max) == SizeReady(WithSize(m), |m.body|, max)
  {
    SizeIsRead(m);
  }

  lemma SettleSize(m: Msg, max: int)
    requires |m.body| < Power(8)
    ensures |Header(m)[1..]| == AfterFlags(m).toRead
    ensures Acceptable(m, max) ==>
              Settle(WithSize(m), max) == (AfterSize(m), if m.body == [] then Done(m) else Continue)
    ensures !Acceptable(m, max) ==> Settle(WithSize(m), max).1 == Failed
  {
    SizeStep(m, max);
    var (t, o) := SizeReady(WithSize(m), |m.body|, max);
    assert Settle(WithSize(m), max) == if o.Continue? then Settle(t, max) else (t, o);
    if o.Continue? && m.body == [] {
      assert NextStep(t, max) == (AfterSize(m), Done(m));
    }
  }

  lemma FeedSize(m: Msg, max: int)
    requires Acceptable(m, max)
    ensures FeedAll(AfterFlags(m), Header(m)[1..], max) == Progress(AfterSize(m), if m.body == [] then [m] else [], false)
  {
    SettleSize(m, max);
    assert [] + Header(m)[1..] == Header(m)[1..];
    FeedFills(AfterFlags(m), Header(m)[1..], max);
  }

  lemma SizeIsRead(m: Msg)
    requires |m.body| < Power(8)
    ensures var size := Header(m)[1..];
            if |m.body| > 255 then |size| == 8 && Get(size) == |m.body| else size == [|m.body|]
  {
    if |m.body| > 255 {
      assert Header(m)[1..] == Put(|m.body|, 8);
      GetPut(|m.body|, 8);
    }
  }

  lemma FeedBody(m: Msg, max: int)
    requires m.body != []
    ensures FeedAll(AfterSize(m), m.body, max) == Progress(AtStart(m), [m], false)
  {
    FeedFills(AfterSize(m), m.body, max);
    assert [] + m.body == m.body;
  }

  lemma FeedHeader(r: Receiver, m: Msg, max: int)
    requires Waiting(r) && r.phase.FlagsReady? && Acceptable(m, max)
    ensures FeedAll(r, Header(m), max) == Progress(AfterSize(m), if m.body == [] then [m] else [], false)
  {
    FeedFlags(r, m, max);
    FeedSize(m, max);
    assert Header(m) == [FlagByte(m)] + Header(m)[1..];
    FeedAppend(r, [FlagByte(m)], Header(m)[1..], max);
    var q := FeedAll(AfterFlags(m), Header(m)[1..], max);
    assert [] + q.messages == q.messages;
  }

  /** Reading one frame gives the message back. */
  lemma FeedFrame(r: Receiver, m: Msg, max: int)
    requires Waiting(r) && r.phase.FlagsReady? && Acceptable(m, max)
    ensures FeedAll(r, Frame(m), max) == Progress(AtStart(m), [m], false)
  {
    FeedHeader(r, m, max);
    if m.body == [] {
      assert Frame(m) == Header(m);
    } else {
      FeedBody(m, max);
      FeedAppend(r, Header(m), m.body, max);
      assert [] + [m] == [m];
    }
  }

  /** Reading any sequence of frames gives the messages back, in order. */
  lemma {:induction false} FeedFrames(r: Receiver, ms: seq<Msg>, max: int)
    requires Waiting(r) && r.phase.FlagsReady? && forall m :: m in ms ==> Acceptable(m, max)
    ensures var p := FeedAll(r, Frames(ms), max);
            p.messages == ms && !p.failed && Waiting(p.receiver) && p.receiver.phase.FlagsReady?
    decreases |ms|
  {
    if ms == [] {
    } else {
      assert ms[0] in ms;
      FeedFrame(r, ms[0], max);
      FeedAppend(r, Frame(ms[0]), Frames(ms[1..]), max);
      FeedFrames(AtStart(ms[0]), ms[1..], max);
      assert [ms[0]] + ms[1..] == ms;
    }
  }

  /** A message over the limit is refused as soon as its size is known. */
  lemma FeedTooLarge(r: Receiver, m: Msg, max: int)
    requires Waiting(r) && r.phase.FlagsReady? && |m.body| < Power(8) && 0 <= max < |m.body|
    ensures FeedAll(r, Header(m), max).failed && FeedAll(r, Header(m), max).messages == []
  {
    SettleSize(m, max);
    FeedFlags(r, m, max);
    var size := Header(m)[1..];
    assert [] + size == size;
    FeedFills(AfterFlags(m), size, max);
    assert Header(m) == [FlagByte(m)] + size;
    FeedAppend(r, [FlagByte(m)], size, max);
  }

  // ------------------------------------------------ what a receiver makes of any bytes

  /** The number that the size bytes of a frame stand for. */
  function Size(size: seq<Byte>): nat
    requires |size| == 1 || |size| == 8
  {
    if |size| == 1 then size[0]
    else
      0x1_0000_0000 * Four(size[0], size[1], size[2], size[3]) + Four(size[4], size[5], size[6], size[7])
  }

  /** A receiver that has read this flag byte. */
  function AfterByte(b: Byte): Receiver {
    if b / 2 % 2 == 1 then Receiver(EightByteSizeReady, [], 8, b % 2 == 1, b / 4 % 2 == 1)
    else Receiver(OneByteSizeReady, [], 1, b % 2 == 1, b / 4 % 2 == 1)
  }

  lemma FeedByte(r: Receiver, b: Byte, max: int)
    requires Waiting(r) && r.phase.FlagsReady?
    ensures FeedAll(r, [b], max) == Progress(AfterByte(b), [], false)
  {
    FeedFills(r, [b], max);
    assert r.got == [] && (r.got + [b])[0] == b;
  }

  lemma SizeIsGot(size: seq<Byte>)
    requires |size| == 8
    ensures Size(size) == Get(size)
  {
    GetEight(size);
    GetFour(size[..4]);
    GetFour(size[4..]);
    assert size[4..][0] == size[4] && size[4..][1] == size[5] && size[4..][2] == size[6] && size[4..][3] == size[7];
  }

  lemma SizeRead(b: Byte, size: seq<Byte>, max: int)
    requires |size| == if b / 2 % 2 == 1 then 8 else 1
    ensures var t := AfterByte(b).(got := size, toRead := 0); NextStep(t, max) == SizeReady(t, Size(size), max)
  {
    if |size| == 8 {
      SizeIsGot(size);
    }
  }

  /** The message of a frame with this flag byte. */
  function Flagging(b: Byte, body: seq<Byte>): Msg {
    Msg(b % 2 == 1, b / 4 % 2 == 1, body)
  }

  /** Where it stands once the size is there, if it is within the limit. */
  function AfterAnySize(b: Byte, size: nat): Receiver {
    if size == 0 then Receiver(FlagsReady, [], 1, b % 2 == 1, b / 4 % 2 == 1)
    else Receiver(MessageReady, [], size, b % 2 == 1, b / 4 % 2 == 1)
  }

  /** The receiver with the size bytes there. */
  function WithAnySize(b: Byte, size: seq<Byte>): Receiver {
    AfterByte(b).(got := size, toRead := 0)
  }

  lemma SettleAnySize(b: Byte, size: seq<Byte>, max: int)
    requires |size| == if b / 2 % 2 == 1 then 8 else 1
    ensures var (t, o) := Settle(WithAnySize(b, size), max);
            if 0 <= max < Size(size) then o == Failed
            else t == AfterAnySize(b, Size(size)) && o == if Size(size) == 0 then Done(Flagging(b, [])) else Continue
  {
    SizeRead(b, size, max);
    var t := WithAnySize(b, size);
    var (u, o) := SizeReady(t, Size(size), max);
    assert Settle(t, max) == if o.Continue? then Settle(u, max) else (u, o);
    if o.Continue? && Size(size) == 0 {
      assert NextStep(u, max) == (AfterAnySize(b, 0), Done(Flagging(b, [])));
    }
  }

  lemma FeedAnySize(b: Byte, size: seq<Byte>, max: int)
    requires |size| == if b / 2 % 2 == 1 then 8 else 1
    ensures var p := FeedAll(AfterByte(b), size, max);
            if 0 <= max < Size(size) then p.failed && p.messages == []
            else p == Progress(AfterAnySize(b, Size(size)), if Size(size) == 0 then [Flagging(b, [])] else [], false)
  {
    assert [] + size == size;
    FeedFills(AfterByte(b), size, max);
    SettleAnySize(b, size, max);
  }

  lemma FeedAnyBody(b: Byte, body: seq<Byte>, max: int)
    requires body != []
    ensures FeedAll(AfterAnySize(b, |body|), body, max) == Progress(AfterAnySize(b, 0), [Flagging(b, body)], false)
  {
    FeedFills(AfterAnySize(b, |body|), body, max);
    assert [] + body == body;
  }

  /** Whatever the flag byte is, also one that no sender here would write: its lowest three bits alone
      decide, the size is read from one or eight bytes, and exactly so many bytes are the body.  A size
      over the limit is refused. */
  lemma AnyFrameIsRead(r: Receiver, b: Byte, size: seq<Byte>, body: seq<Byte>, max: int)
    requires Waiting(r) && r.phase.FlagsReady?
    requires |size| == (if b / 2 % 2 == 1 then 8 else 1) && |body| == Size(size)
    ensures var p := FeedAll(r, [b] + size + body, max);
            if 0 <= max < |body| then p.failed && p.messages == []
            else
              && p.messages == [Msg(b % 2 == 1, b / 4 % 2 == 1, body)] && !p.failed
              && Waiting(p.receiver) && p.receiver.phase.FlagsReady?
  {
    FeedByte(r, b, max);
    FeedAppend(r, [b], size, max);
    FeedAnySize(b, size, max);
    FeedAppend(r, [b] + size, body, max);
    if !(0 <= max < |body|) {
      if body == [] {
        assert [] + FeedAll(AfterByte(b), size, max).messages == FeedAll(AfterByte(b), size, max).messages;
      } else {
        FeedAnyBody(b, body, max);
      }
    }
  }

  ghost function FeedChunks(r: Receiver, chunks: seq<seq<Byte>>, max: int): (p: Progress)
    requires Waiting(r)
    ensures p.failed || Waiting(p.receiver)
    decreases |chunks|
  {
    if chunks == [] then Progress(r, [], false)
    else
      var p := FeedChunks(r, chunks[..|chunks| - 1], max);
      if !p.failed then FeedAppend(p.receiver, chunks[|chunks| - 1], [], max); Then(p, chunks[|chunks| - 1], max)
      else p
  }

  lemma {:induction false} ChunksAreInvisible(r: Receiver, chunks: seq<seq<Byte>>, max: int)
    requires Waiting(r)
    ensures FeedChunks(r, chunks, max) == FeedAll(r, Flatten(chunks), max)
    decreases |chunks|
  {
    if chunks == [] {
    } else {
      ChunksAreInvisible(r, chunks[..|chunks| - 1], max);
      FeedAppend(r, Flatten(chunks[..|chunks| - 1]), chunks[|chunks| - 1], max);
    }
  }

  /** What was framed and sent arrives, however the stream is cut on the way. */
  lemma SentIsReceived(ms: seq<Msg>, chunks: seq<seq<Byte>>, max: int)
    requires Flatten(chunks) == Frames(ms) && forall m :: m in ms ==> Acceptable(m, max)
    ensures FeedChunks(START, chunks, max).messages == ms && !FeedChunks(START, chunks, max).failed
  {
    ChunksAreInvisible(START, chunks, max);
    FeedFrames(START, ms, max);
  }

  /** How many of the messages have their whole frame in the first part of the stream. */
  ghost function Arrived(ms: seq<Msg>, s: seq<Byte>): (n: nat)
    ensures n <= |ms| && |Frames(ms[..n])| <= |s| && (n < |ms| ==> |s| < |Frames(ms[..n + 1])|)
    decreases |ms|
  {
    assert ms[..|ms|] == ms;
    if |Frames(ms)| <= |s| then |ms|
    else
      var shorter := ms[..|ms| - 1];
      var n := Arrived(shorter, s);
      assert shorter[..n] == ms[..n] && (n < |shorter| ==> shorter[..n + 1] == ms[..n + 1]);
      n
  }

  /** A frame that is not complete gives nothing yet. */
  lemma PartOfFrame(r: Receiver, m: Msg, s: seq<Byte>, max: int)
    requires Waiting(r) && r.phase.FlagsReady? && Acceptable(m, max) && s < Frame(m)
    ensures FeedAll(r, s, max).messages == [] && !FeedAll(r, s, max).failed
  {
    var h := |Header(m)|;
    if s == [] {
    } else if |s| < h {
      FeedFlags(r, m, max);
      SizeStep(m, max);
      assert s[0] == Frame(m)[0] == FlagByte(m);
      assert s == [FlagByte(m)] + s[1..];
      FeedAppend(r, [FlagByte(m)], s[1..], max);
      FeedCollects(AfterFlags(m), s[1..], max);
    } else {
      FeedHeader(r, m, max);
      assert s == Header(m) + s[h..];
      FeedAppend(r, Header(m), s[h..], max);
      FeedCollects(AfterSize(m), s[h..], max);
    }
  }

  /** At any moment before that, a receiver has exactly the messages whose frames have arrived. */
  lemma PartOfStream(ms: seq<Msg>, s: seq<Byte>, max: int)
    requires s <= Frames(ms) && forall m :: m in ms ==> Acceptable(m, max)
    ensures FeedAll(START, s, max).messages == ms[..Arrived(ms, s)] && !FeedAll(START, s, max).failed
  {
    var n := Arrived(ms, s);
    var whole := Frames(ms[..n]);
    var rest := s[|whole|..];
    CutAfter(ms, n);
    assert s == whole + rest && rest <= Frames(ms[n..]);
    FeedFrames(START, ms[..n], max);
    FeedAppend(START, whole, rest, max);
    if n < |ms| {
      NextFrame(ms, n);
      assert ms[n] in ms;
      assert rest < Frame(ms[n]);
      PartOfFrame(FeedAll(START, whole, max).receiver, ms[n], rest, max);
    } else {
      assert rest == [];
    }
    assert ms[..n] + [] == ms[..n];
  }

  lemma CutAfter(ms: seq<Msg>, n: nat)
    requires n <= |ms|
    ensures Frames(ms) == Frames(ms[..n]) + Frames(ms[n..])
  {
    assert ms == ms[..n] + ms[n..];
    FramesAppend(ms[..n], ms[n..]);
  }

  lemma NextFrame(ms: seq<Msg>, n: nat)
    requires n < |ms|
    ensures Frames(ms[n..]) == Frame(ms[n]) + Frames(ms[n + 1..])
    ensures Frames(ms[..n + 1]) == Frames(ms[..n]) + Frame(ms[n])
  {
    assert ms[n..][1..] == ms[n + 1..];
    assert ms[..n + 1] == ms[..n] + [ms[n]];
    FramesAppend(ms[..n], [ms[n]]);
    assert [ms[n]][1..] == [];
    assert Frame(ms[n]) + [] == Frame(ms[n]);
  }
}
