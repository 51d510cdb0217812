/** Messages with a reference-counted body.  The count is kept only once the body is shared. */
module MessageRefs {
  type Body = nat

  /** A handle on a body; `shared` is the flag stored in the message. */
  datatype Handle = Handle(body: Body, shared: bool)

  /** What an operation leaves: the flag of the message, the count, and whether the body was freed. */
  datatype Effect = Effect(shared: bool, count: int, freed: bool)

  function CloseEffect(shared: bool, count: int): Effect {
    if shared then Effect(shared, count - 1, count - 1 == 0) else Effect(shared, count, true)
  }

  function CopyEffect(shared: bool, count: int): Effect {
    Effect(true, if shared then count + 1 else 2, false)
  }

  function AddRefsEffect(shared: bool, count: int, refs: nat): Effect {
    if refs == 0 then Effect(shared, count, false)
    else Effect(true, if shared then count + refs else refs + 1, false)
  }

  function RmRefsEffect(shared: bool, count: int, refs: nat): Effect {
    if refs == 0 then Effect(shared, count, false)
    else if !shared then CloseEffect(shared, count)
    else Effect(shared, count - refs, count - refs == 0)
  }

  /** What the count stands for: a body that is not shared counts as 1. */
  function Counts(e: Effect): int {
    if e.freed then 0 else if e.shared then e.count else 1
  }

  /** Distributing to `k` pipes of which some refuse: the sender's own reference is used up,
      and one reference is left for each pipe that took the message. */
  lemma DistributionBalances(shared: bool, count: int, k: nat, failed: nat)
    requires 0 < k && failed <= k && (shared ==> count > 0)
    ensures var added := AddRefsEffect(shared, count, k - 1);
            var left := RmRefsEffect(added.shared, added.count, failed);
            && Counts(left) == Counts(Effect(shared, count, false)) - 1 + (k - failed)
            && (left.freed <==> Counts(left) == 0)
  {}

  /** All the handles there are, the references reserved for copies to come, and the bodies. */
  datatype State = State(held: multiset<Handle>, reserved: multiset<Handle>, counts: map<Body, int>,
                         freed: seq<Body>, next: Body)

  datatype Action =
    | Init
    | Copy(h: Handle)
    | Close(h: Handle)
    | Reserve(h: Handle, k: nat)     // a distributor adds references for `k` copies, its own included
    | HandOut(h: Handle)             // one of them becomes a message in a pipe
    | Return(h: Handle, k: nat)      // those for pipes that refused are taken back

  ghost predicate Legal(s: State, a: Action) {
    match a
    case Init => true
    case Copy(h) => h in s.held
    case Close(h) => h in s.held
    case Reserve(h, k) => h in s.held && k > 0
    case HandOut(h) => h in s.reserved
    case Return(h, k) => 0 < k <= s.reserved[h]
  }

  /** The body an action works on. */
  function Touches(a: Action): set<Body> {
    if a.Init? then {} else {a.h.body}
  }

  ghost function Settle(s: State, b: Body, e: Effect): State {
    if e.freed then s.(counts := s.counts - {b}, freed := s.freed + [b])
    else s.(counts := s.counts[b := e.count])
  }

  ghost function Step(s: State, a: Action): State
    requires Legal(s, a) && Touches(a) <= s.counts.Keys
  {
    match a
    case Init => s.(held := s.held + multiset{Handle(s.next, false)}, counts := s.counts[s.next := 0], next := s.next + 1)
    case Copy(h) =>
      var e := CopyEffect(h.shared, s.counts[h.body]);
      Settle(s.(held := s.held - multiset{h} + multiset{Handle(h.body, e.shared), Handle(h.body, e.shared)}), h.body, e)
    case Close(h) => Settle(s.(held := s.held - multiset{h}), h.body, CloseEffect(h.shared, s.counts[h.body]))
    case Reserve(h, k) =>
      var e := AddRefsEffect(h.shared, s.counts[h.body], k - 1);
      var r := Handle(h.body, e.shared);
      Settle(s.(held := s.held - multiset{h}, reserved := s.reserved[r := s.reserved[r] + k]), h.body, e)
    case HandOut(h) => s.(held := s.held + multiset{h}, reserved := s.reserved - multiset{h})
    case Return(h, k) =>
      Settle(s.(reserved := s.reserved[h := s.reserved[h] - k]), h.body, RmRefsEffect(h.shared, s.counts[h.body], k))
  }

  /** How many references to the body are outstanding. */
  ghost function Outstanding(s: State, b: Body): nat {
    s.held[Handle(b, true)] + s.held[Handle(b, false)] + s.reserved[Handle(b, true)] + s.reserved[Handle(b, false)]
  }

  ghost predicate BodyOk(s: State, b: Body) {
    && (b in s.counts <==> Outstanding(s, b) > 0)
    && (s.held[Handle(b, false)] + s.reserved[Handle(b, false)] > 0 ==> Outstanding(s, b) == 1)
    && (s.held[Handle(b, false)] + s.reserved[Handle(b, false)] == 0 && b in s.counts ==> s.counts[b] == Outstanding(s, b))
    && (b in s.counts ==> b < s.next && b !in s.freed)
    && (b < s.next ==> b in s.counts || b in s.freed)
  }

  ghost predicate FreedOnce(freed: seq<Body>) {
    forall i, j :: 0 <= i < j < |freed| ==> freed[i] != freed[j]
  }

  ghost predicate Inv(s: State) {
    (forall b: Body :: BodyOk(s, b)) && FreedOnce(s.freed) && forall b :: b in s.freed ==> b < s.next
  }

  ghost function Start(): State {
    State(multiset{}, multiset{}, map[], [], 0)
  }

  /** A body is there whenever anybody can still get at it. */
  lemma TouchedIsLive(s: State, a: Action)
    requires Inv(s) && Legal(s, a)
    ensures Touches(a) <= s.counts.Keys
  {
    if !a.Init? {
      assert BodyOk(s, a.h.body);
      assert a.h == Handle(a.h.body, true) || a.h == Handle(a.h.body, false);
    }
  }

  lemma StepKeepsBody(s: State, a: Action, b: Body)
    requires Legal(s, a) && Touches(a) <= s.counts.Keys && BodyOk(s, b) && forall x :: x in s.freed ==> x < s.next
    ensures BodyOk(Step(s, a), b)
  {
    if a.Init? || a.h.body != b {
      OthersStay(s, a, b);
    } else if a.h.shared {
      SharedStays(s, a);
    } else {
      OwnedStays(s, a);
    }
  }

  lemma OthersStay(s: State, a: Action, b: Body)
    requires Legal(s, a) && Touches(a) <= s.counts.Keys && BodyOk(s, b) && b !in Touches(a)
    requires forall x :: x in s.freed ==> x < s.next
    ensures BodyOk(Step(s, a), b)
  {}

  lemma SharedStays(s: State, a: Action)
    requires Legal(s, a) && !a.Init? && a.h.shared && BodyOk(s, a.h.body) && Touches(a) <= s.counts.Keys
    ensures BodyOk(Step(s, a), a.h.body)
  {
    assert a.h == Handle(a.h.body, true);
    SharedMoves(s, a);
  }

  /** How many references an action on a shared body adds. */
  function Added(a: Action): int {
    match a
    case Init => 0
    case Copy(_) => 1
    case Close(_) => -1
    case Reserve(_, k) => k - 1
    case HandOut(_) => 0
    case Return(_, k) => 0 - k
  }

  /** The references and the count of a shared body move together. */
  lemma SharedMoves(s: State, a: Action)
    requires Legal(s, a) && !a.Init? && a.h.shared && Touches(a) <= s.counts.Keys
    ensures Outstanding(Step(s, a), a.h.body) == Outstanding(s, a.h.body) + Added(a)
    ensures a.h.body in Step(s, a).counts ==> Step(s, a).counts[a.h.body] == s.counts[a.h.body] + Added(a)
  {
    assert a.h == Handle(a.h.body, true);
    if a.Copy? || a.Close? || a.HandOut? {
      HeldMoves(s, a);
    } else {
      ReservedMoves(s, a);
    }
  }

  lemma HeldMoves(s: State, a: Action)
    requires Legal(s, a) && (a.Copy? || a.Close? || a.HandOut?) && Touches(a) <= s.counts.Keys
    requires a.h.shared && a.h == Handle(a.h.body, true)
    ensures Outstanding(Step(s, a), a.h.body) == Outstanding(s, a.h.body) + Added(a)
    ensures a.h.body in Step(s, a).counts ==> Step(s, a).counts[a.h.body] == s.counts[a.h.body] + Added(a)
  {}

  lemma ReservedMoves(s: State, a: Action)
    requires Legal(s, a) && (a.Reserve? || a.Return?) && Touches(a) <= s.counts.Keys
    requires a.h.shared && a.h == Handle(a.h.body, true)
    ensures Outstanding(Step(s, a), a.h.body) == Outstanding(s, a.h.body) + Added(a)
    ensures a.h.body in Step(s, a).counts ==> Step(s, a).counts[a.h.body] == s.counts[a.h.body] + Added(a)
  {}

  lemma OwnedStays(s: State, a: Action)
    requires Legal(s, a) && !a.Init? && !a.h.shared && BodyOk(s, a.h.body) && Touches(a) <= s.counts.Keys
    ensures BodyOk(Step(s, a), a.h.body)
  {
    assert a.h == Handle(a.h.body, false);
  }

  lemma StepKeeps(s: State, a: Action)
    requires Inv(s) && Legal(s, a)
    ensures Touches(a) <= s.counts.Keys && Inv(Step(s, a))
  {
    TouchedIsLive(s, a);
    forall b: Body ensures BodyOk(Step(s, a), b) {
      StepKeepsBody(s, a, b);
    }
    StepKeepsFreed(s, a);
  }

  lemma StepKeepsFreed(s: State, a: Action)
    requires Inv(s) && Legal(s, a) && Touches(a) <= s.counts.Keys
    ensures FreedOnce(Step(s, a).freed) && forall b :: b in Step(s, a).freed ==> b < Step(s, a).next
  {
    if !a.Init? {
      assert BodyOk(s, a.h.body);
      assert Step(s, a).freed == s.freed || Step(s, a).freed == s.freed + [a.h.body];
    }
  }

  ghost predicate LegalRun(s: State, actions: seq<Action>)
    requires Inv(s)
    decreases |actions|
  {
    actions != [] ==> Legal(s, actions[0]) && (StepKeeps(s, actions[0]); LegalRun(Step(s, actions[0]), actions[1..]))
  }

  ghost function Run(s: State, actions: seq<Action>): State
    requires Inv(s) && LegalRun(s, actions)
    decreases |actions|
  {
    if actions == [] then s else StepKeeps(s, actions[0]); Run(Step(s, actions[0]), actions[1..])
  }

  /** In every interleaving the count of a shared body is the number of outstanding
      references, no body is freed twice, and when nobody holds anything everything is freed. */
  lemma {:induction false} EveryRunIsCounted(s: State, actions: seq<Action>)
    requires Inv(s) && LegalRun(s, actions)
    ensures Inv(Run(s, actions))
    decreases |actions|
  {
    if actions == [] {
    } else {
      StepKeeps(s, actions[0]);
      EveryRunIsCounted(Step(s, actions[0]), actions[1..]);
    }
  }

  lemma StartIsCounted()
    ensures Inv(Start())
  {}

  lemma NothingLeaks(s: State, b: Body)
    requires Inv(s) && s.held == multiset{} && s.reserved == multiset{} && b < s.next
    ensures b in s.freed && multiset(s.freed)[b] == 1
  {
    assert BodyOk(s, b);
    Once(s.freed, b);
  }

  lemma {:induction false} Once(l: seq<Body>, b: Body)
    requires FreedOnce(l)
    ensures multiset(l)[b] == if b in l then 1 else 0
    decreases |l|
  {
    if l == [] {
    } else {
      assert l == l[..|l| - 1] + [l[|l| - 1]];
      Once(l[..|l| - 1], b);
    }
  }

  /** The counted body. */
  class Content {
    var refcnt: int
    var freed: bool

    constructor ()
      ensures refcnt == 0 && !freed
    {
      refcnt, freed := 0, false;
    }

    method Sub(n: nat) returns (positive: bool)
      modifies this`refcnt
      ensures refcnt == old(refcnt) - n && (positive <==> refcnt != 0)
    {
      refcnt := refcnt - n;
      return refcnt != 0;
    }
  }

  ghost function Now(shared: bool, content: Content): Effect
    reads content
  {
    Effect(shared, content.refcnt, content.freed)
  }

  /** A message; `content` is null when it has no counted body. */
  class Message {
    var content: Content?
    var shared: bool

    ghost predicate Alive()
      reads this, content
    {
      content != null ==> !content.freed
    }

    constructor (large: bool)
      ensures !shared && (content != null <==> large)
      ensures large ==> fresh(content) && !content.freed
    {
      content, shared := null, false;
      new;
      if large {
        content := new Content();
      }
    }

    method Close()
      requires Alive()
      modifies this, content
      ensures content == null && !shared
      ensures old(content) != null ==> Now(old(shared), old(content)) == CloseEffect(old(shared), old(content.refcnt))
    {
      if content != null {
        var positive := false;
        if shared {
          positive := content.Sub(1);
        }
        if !positive {
          content.freed := true;
        }
      }
      content, shared := null, false;
    }

    /** Two messages on one body hold two references to it. */
    ghost predicate Apart(src: Message)
      reads this, src, content
    {
      src != this && content != null && src.content == content ==> shared && src.shared && content.refcnt >= 2
    }

    /** The count of the other message's body once this one is closed. */
    ghost function CountAfterClose(src: Message): int
      requires src.content != null
      reads this, src, src.content
    {
      if src.content == content then src.content.refcnt - 1 else src.content.refcnt
    }

    /** Takes over the other message, which becomes empty; moved onto itself, a message is just closed. */
    method Move(src: Message)
      requires Alive() && src.Alive() && Apart(src)
      modifies this, content, src
      ensures src.content == null && !src.shared
      ensures src != this ==> content == old(src.content) && shared == old(src.shared)
      ensures content != null ==> content.refcnt == old(CountAfterClose(src)) && !content.freed
      ensures old(content) != null && old(content) != content ==>
                Now(old(shared), old(content)) == CloseEffect(old(shared), old(content.refcnt))
    {
      Close();
      content, shared := src.content, src.shared;
      src.content, src.shared := null, false;
    }

    /** Copied onto itself, too, a message is just closed. */
    method Copy(src: Message)
      requires Alive() && src.Alive() && Apart(src)
      modifies this, content, src, src.content
      ensures content == src.content == if src == this then null else old(src.content)
      ensures content != null ==>
                && src.shared && shared && Now(shared, content) == CopyEffect(old(src.shared), old(CountAfterClose(src)))
      ensures old(content) != null && old(content) != content ==>
                Now(old(shared), old(content)) == CloseEffect(old(shared), old(content.refcnt))
    {
      Close();
      if src.content != null {
        if src.shared {
          src.content.refcnt := src.content.refcnt + 1;
        } else {
          src.shared := true;
          src.content.refcnt := 2;
        }
      }
      content, shared := src.content, src.shared;
    }

    method AddRefs(refs: nat)
      requires Alive()
      modifies this`shared, content
      ensures content != null ==> Now(shared, content) == AddRefsEffect(old(shared), old(content.refcnt), refs)
    {
      if refs == 0 {
        return;
      }
      if content != null {
        if shared {
          content.refcnt := content.refcnt + refs;
        } else {
          content.refcnt := refs + 1;
          shared := true;
        }
      }
    }

    /** False when the body is gone. */
    method RmRefs(refs: nat) returns (kept: bool)
      requires Alive()
      modifies this, content
      ensures old(content) != null ==>
                var e := RmRefsEffect(old(shared), old(content.refcnt), refs);
                Now(old(shared), old(content)) == e && (kept <==> !e.freed)
    {
      if refs == 0 {
        return true;
      }
      if content == null || !shared {
        Close();
        return false;
      }
      var positive := content.Sub(refs);
      if !positive {
        content.freed := true;
        return false;
      }
      return true;
    }
  }
}
