/** The queue as its users see it: one list of everything that was written and not taken back, and three
    marks in it.  Every result of every operation, in any interleaving of the two threads, is the one
    that this list gives. */
module QueueHistory {
  import opened Basics
  import opened Fifo
  import opened QueueInterleaving

  /** `finished` items belong to whole messages, `published` ones may be taken, `taken` ones have been;
      `waiting` says that the reader was told that there is nothing. */
  datatype History<T> = History(written: seq<T>, finished: nat, published: nat, taken: nat, waiting: bool)
  {
    predicate Valid() {
      taken <= published <= finished <= |written| && (waiting ==> taken == published)
    }

    function Unread(): Queue<T>
      requires Valid()
    {
      Queue(written[taken..], finished - taken, published - taken, waiting)
    }
  }

  /** Before the first operation. */
  predicate New<T(==)>(h: History<T>) {
    h.written == [] && h.finished == h.published == h.taken == 0 && !h.waiting
  }

  /** What an operation adds to the history. */
  function Log<T>(h: History<T>, op: Operation<T>): History<T> {
    match op
    case Written(x, incomplete) =>
      h.(written := h.written + [x], finished := if incomplete then h.finished else |h.written| + 1)
    case Unwritten(x) => if x.Some? && h.written != [] then h.(written := h.written[..|h.written| - 1]) else h
    case Flushed(_) => h.(published := h.finished, waiting := h.waiting && h.published == h.finished)
    case Checked(ok) => h.(waiting := !ok)
    case Taken(x) => if x.Some? then h.(taken := h.taken + 1, waiting := false) else h.(waiting := true)
  }

  /** The result of an operation that the history calls for. */
  predicate Agrees<T(==)>(h: History<T>, op: Operation<T>) {
    match op
    case Written(_, _) => true
    case Unwritten(None) => h.finished == |h.written|
    case Unwritten(Some(x)) => h.finished < |h.written| && x == h.written[|h.written| - 1]
    case Flushed(awake) => !awake <==> h.waiting && h.published < h.finished
    case Checked(ok) => ok <==> h.taken < h.published
    case Taken(None) => h.taken == h.published
    case Taken(Some(x)) => h.taken < h.published <= |h.written| && x == h.written[h.taken]
  }

  /** Each operation of the contract does exactly that to the history. */
  lemma ContractIsLogged<T>(h: History<T>, op: Operation<T>, q': Queue<T>)
    requires h.Valid() && Contract(h.Unread(), op, q')
    ensures Agrees(h, op) && Log(h, op).Valid() && Log(h, op).Unread() == q'
  {
    match op
    case Written(x, incomplete) => assert (h.written + [x])[h.taken..] == h.written[h.taken..] + [x];
    case Unwritten(x) =>
      if x.Some? {
        assert h.written[..|h.written| - 1][h.taken..] == h.written[h.taken..][..|h.written| - h.taken - 1];
      }
    case Flushed(_) =>
    case Checked(_) =>
    case Taken(_) => assert h.taken < |h.written| ==> h.written[h.taken..][1..] == h.written[h.taken + 1..];
  }

  /** Every operation of a run has the result that the history before it calls for. */
  predicate Explained<T(==)>(h: History<T>, ops: seq<Operation<T>>)
    decreases |ops|
  {
    ops != [] ==> Agrees(h, ops[0]) && Explained(Log(h, ops[0]), ops[1..])
  }

  function LogAll<T>(h: History<T>, ops: seq<Operation<T>>): History<T>
    decreases |ops|
  {
    if ops == [] then h else LogAll(Log(h, ops[0]), ops[1..])
  }

  lemma {:induction false} SequentialIsExplained<T(!new)>(h: History<T>, ops: seq<Operation<T>>, q': Queue<T>)
    requires h.Valid() && Sequential(h.Unread(), ops, q')
    ensures Explained(h, ops) && LogAll(h, ops).Valid() && LogAll(h, ops).Unread() == q'
    decreases |ops|
  {
    if ops == [] {
    } else {
      var m: Queue<T> :| m.Valid() && Contract(h.Unread(), ops[0], m) && Sequential(m, ops[1..], q');
      ContractIsLogged(h, ops[0], m);
      SequentialIsExplained(Log(h, ops[0]), ops[1..], q');
    }
  }

  // ------------------------------------------------------- what goes in and comes out

  /** Everything that was written, less what was taken back. */
  function Kept<T>(ops: seq<Operation<T>>): seq<T> {
    if ops == [] then [] else
    var kept := Kept(ops[..|ops| - 1]);
    match ops[|ops| - 1]
    case Written(x, _) => kept + [x]
    case Unwritten(Some(_)) => if kept == [] then [] else kept[..|kept| - 1]
    case _ => kept
  }

  /** Everything that was handed to the reader. */
  function Out<T>(ops: seq<Operation<T>>): seq<T> {
    if ops == [] then [] else
    Out(ops[..|ops| - 1]) + match ops[|ops| - 1] case Taken(Some(x)) => [x] case _ => []
  }

  lemma {:induction false} LogAllNext<T>(h: History<T>, ops: seq<Operation<T>>, op: Operation<T>)
    ensures LogAll(h, ops + [op]) == Log(LogAll(h, ops), op)
    decreases |ops|
  {
    if ops == [] {
      assert (ops + [op])[1..] == [];
    } else {
      assert (ops + [op])[0] == ops[0] && (ops + [op])[1..] == ops[1..] + [op];
      LogAllNext(Log(h, ops[0]), ops[1..], op);
    }
  }

  lemma {:induction false} ExplainedNext<T>(h: History<T>, ops: seq<Operation<T>>, op: Operation<T>)
    ensures Explained(h, ops + [op]) <==> Explained(h, ops) && Agrees(LogAll(h, ops), op)
    decreases |ops|
  {
    if ops == [] {
      assert (ops + [op])[1..] == [];
    } else {
      assert (ops + [op])[0] == ops[0] && (ops + [op])[1..] == ops[1..] + [op];
      ExplainedNext(Log(h, ops[0]), ops[1..], op);
    }
  }

  lemma {:induction false} ExplainedIsValid<T>(h: History<T>, ops: seq<Operation<T>>)
    requires h.Valid() && Explained(h, ops)
    ensures LogAll(h, ops).Valid()
    decreases |ops|
  {
    if ops == [] {
    } else {
      ExplainedIsValid(Log(h, ops[0]), ops[1..]);
    }
  }

  lemma KeptNext<T>(h: History<T>, ops: seq<Operation<T>>, op: Operation<T>)
    requires h.Valid() && Agrees(h, op) && h.written == Kept(ops) && h.written[..h.taken] == Out(ops)
    ensures Log(h, op).Valid() && Log(h, op).written == Kept(ops + [op])
    ensures Log(h, op).written[..Log(h, op).taken] == Out(ops + [op])
  {
    assert (ops + [op])[..|ops|] == ops;
    match op
    case Written(x, _) => assert (h.written + [x])[..h.taken] == h.written[..h.taken];
    case Unwritten(x) =>
      if x.Some? {
        assert h.written[..|h.written| - 1][..h.taken] == h.written[..h.taken];
      }
    case Taken(x) => assert x.Some? ==> h.written[..h.taken + 1] == h.written[..h.taken] + [x.value];
    case _ =>
  }

  /** What came out is the beginning of what was written and kept. */
  lemma {:induction false} OutIsKept<T>(h: History<T>, ops: seq<Operation<T>>)
    requires New(h) && Explained(h, ops)
    ensures LogAll(h, ops).Valid() && LogAll(h, ops).written == Kept(ops)
    ensures LogAll(h, ops).written[..LogAll(h, ops).taken] == Out(ops)
    decreases |ops|
  {
    if ops == [] {
    } else {
      var init, op := ops[..|ops| - 1], ops[|ops| - 1];
      assert ops == init + [op];
      LogAllNext(h, init, op);
      ExplainedNext(h, init, op);
      OutIsKept(h, init);
      KeptNext(LogAll(h, init), init, op);
    }
  }

  lemma OutAndRest<T>(h: History<T>, ops: seq<Operation<T>>, q: Queue<T>)
    requires New(h) && Explained(h, ops) && LogAll(h, ops).Valid() && LogAll(h, ops).Unread() == q
    ensures Out(ops) + q.items == Kept(ops)
  {
    OutIsKept(h, ops);
    var g := LogAll(h, ops);
    assert g.written == g.written[..g.taken] + g.written[g.taken..];
  }

  lemma StartsNew<T>(s: Cursors<T>, h: History<T>)
    requires s == Start() && New(h)
    ensures s.Valid() && h.Valid() && h.Unread() == s.Abs()
  {
    assert h.written[0..] == [];
  }

  /** However the two threads interleave: every result is the one that the list of what was written
      calls for, and what was handed out and what is left are together what was written and kept, in
      order. */
  lemma {:induction false} EveryInterleavingIsExplained<T(!new)>(s: Cursors<T>, h: History<T>, steps: seq<Step<T>>)
    requires s == Start() && New(h) && s.Valid() && Interleaving(s, steps)
    ensures Explained(h, Run(s, steps).1)
    ensures Out(Run(s, steps).1) + Run(s, steps).0.items == Kept(Run(s, steps).1)
  {
    var (t, ops) := Run(s, steps);
    EveryInterleavingIsSequential(s, steps);
    StartsNew(s, h);
    SequentialIsExplained(h, ops, t.Abs());
    OutAndRest(h, ops, t.Abs());
  }
}
