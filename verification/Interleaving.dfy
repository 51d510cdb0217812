/** The lock-free queue with its two threads interleaved at every access to the pointer they share:
    any interleaving is a run of the contract, one operation after the other. */
module QueueInterleaving {
  import opened Basics
  import opened Fifo

  /** The cursors are positions in the stream of all items ever written.  `w` and `f` belong to the
      writer, `front` and `r` to the reader; `c` is shared.  `failed` says that the writer is between
      its compare-and-swap, which found the reader asleep, and the assignment that follows. */
  datatype Cursors<T> = Cursors(items: seq<T>, front: nat, w: nat, f: nat, r: Option<nat>, c: Option<nat>, failed: bool)
  {
    ghost predicate Valid() {
      && front <= w <= f <= front + |items|
      && (r.Some? ==> front <= r.value <= w)
      && (c.Some? ==> c.value == w)
      && (c.None? ==> w == front)
      && (failed ==> c.None? && w < f)
    }

    ghost function Abs(): (q: Queue<T>)
      requires Valid()
      ensures q.Valid()
    {
      Queue(items, f - front, w - front, c.None?)
    }
  }

  function Start<T>(): Cursors<T> {
    Cursors([], 0, 0, 0, Some(0), Some(0), false)
  }

  datatype Step<T> =
    | Put(x: T, incomplete: bool)
    | TakeBack
    | Swap          // the writer's compare-and-swap
    | Assign        // and the assignment after it failed
    | Check         // the reader's compare-and-swap, unless items are prefetched
    | Take          // takes the front item after a check that succeeded

  /** An operation of the contract with its result. */
  datatype Operation<T> =
    | Written(x: T, incomplete: bool)
    | Unwritten(result: Option<T>)
    | Flushed(awake: bool)
    | Checked(ok: bool)
    | Taken(result: Option<T>)

  /** A thread takes its steps in order. */
  predicate Enabled<T>(s: Cursors<T>, a: Step<T>) {
    match a
    case Assign => s.failed
    case Check => true
    case Take => s.r.Some? && s.r.value > s.front
    case _ => !s.failed
  }

  /** One step, and the operation it completes, if any. */
  ghost function Do<T>(s: Cursors<T>, a: Step<T>): (Cursors<T>, seq<Operation<T>>)
    requires s.Valid() && Enabled(s, a)
  {
    match a
    case Put(x, incomplete) =>
      var items := s.items + [x];
      (s.(items := items, f := if incomplete then s.f else s.front + |items|), [Written(x, incomplete)])
    case TakeBack =>
      if s.f == s.front + |s.items| then (s, [Unwritten(None)])
      else (s.(items := s.items[..|s.items| - 1]), [Unwritten(Some(s.items[|s.items| - 1]))])
    case Swap =>
      if s.w == s.f then (s, [Flushed(true)])
      else if s.c == Some(s.w) then (s.(c := Some(s.f), w := s.f), [Flushed(true)])
      else (s.(failed := true), [])
    case Assign => (s.(c := Some(s.f), w := s.f, failed := false), [Flushed(false)])
    case Check =>
      if s.r.Some? && s.r.value != s.front then (s, [Checked(true)])
      else
        (s.(r := s.c, c := if s.c == Some(s.front) then None else s.c), [Checked(s.c.Some? && s.c.value != s.front)])
    case Take => (s.(items := s.items[1..], front := s.front + 1), [Taken(Some(s.items[0]))])
  }

  /** The contract of an operation. */
  ghost predicate Contract<T>(q: Queue<T>, op: Operation<T>, q': Queue<T>)
    requires q.Valid()
  {
    match op
    case Written(x, incomplete) => q' == Fifo.Write(q, x, incomplete)
    case Unwritten(x) => (q', x) == Fifo.Unwrite(q)
    case Flushed(awake) => (q', awake) == Fifo.Flush(q)
    case Checked(ok) => (q', ok) == Fifo.CheckRead(q)
    case Taken(x) => (q', x) == Fifo.Read(q)
  }

  /** Every step keeps the cursors in order, and is one operation of the contract or, when the writer
      has found the reader asleep and not told anybody yet, none. */
  lemma StepRefines<T>(s: Cursors<T>, a: Step<T>)
    requires s.Valid() && Enabled(s, a)
    ensures Do(s, a).0.Valid()
    ensures Do(s, a).1 == [] ==> a.Swap? && Do(s, a).0.failed && Do(s, a).0.Abs() == s.Abs()
    ensures Do(s, a).1 != [] ==> |Do(s, a).1| == 1 && Contract(s.Abs(), Do(s, a).1[0], Do(s, a).0.Abs())
  {
  }

  /** A sequence of operations that leads from one queue to another. */
  ghost predicate Sequential<T(!new)>(q: Queue<T>, ops: seq<Operation<T>>, q': Queue<T>)
    requires q.Valid()
    decreases |ops|
  {
    if ops == [] then q' == q
    else exists m: Queue<T> :: m.Valid() && Contract(q, ops[0], m) && Sequential(m, ops[1..], q')
  }

  ghost predicate Interleaving<T>(s: Cursors<T>, steps: seq<Step<T>>)
    requires s.Valid()
    decreases |steps|
  {
    steps != [] ==> Enabled(s, steps[0]) && (StepRefines(s, steps[0]); Interleaving(Do(s, steps[0]).0, steps[1..]))
  }

  /** Where the steps lead, and the operations they complete, in the order of completion. */
  ghost function Run<T>(s: Cursors<T>, steps: seq<Step<T>>): (Cursors<T>, seq<Operation<T>>)
    requires s.Valid() && Interleaving(s, steps)
    decreases |steps|
  {
    if steps == [] then (s, [])
    else
      StepRefines(s, steps[0]);
      var (t, ops) := Do(s, steps[0]);
      var (u, more) := Run(t, steps[1..]);
      (u, ops + more)
  }

  /** However the two threads interleave, the operations they complete give the results that they
      would give one after the other. */
  lemma {:induction false} EveryInterleavingIsSequential<T(!new)>(s: Cursors<T>, steps: seq<Step<T>>)
    requires s.Valid() && Interleaving(s, steps)
    ensures Run(s, steps).0.Valid() && Sequential(s.Abs(), Run(s, steps).1, Run(s, steps).0.Abs())
    decreases |steps|
  {
    if steps == [] {
    } else {
      StepRefines(s, steps[0]);
      var (t, ops) := Do(s, steps[0]);
      var (u, more) := Run(t, steps[1..]);
      EveryInterleavingIsSequential(t, steps[1..]);
      if ops == [] {
        assert ops + more == more;
      } else {
        assert (ops + more)[0] == ops[0] && (ops + more)[1..] == more;
      }
    }
  }
}
