/** The contract of a message queue between one writer and one reader.

    `items` are the unread items, oldest first.  The first `complete` of them
    belong to finished messages, and the first `published` of them have been
    flushed to the reader.  `asleep` says that the reader's last attempt found
    nothing, so that the next effective flush has to wake it up.
  */
module Fifo {
  import opened Basics

  datatype Queue<T> = Queue(items: seq<T>, complete: nat, published: nat, asleep: bool)
  {
    predicate Valid() {
      && published <= complete <= |items|
      && (asleep ==> published == 0)
    }
  }

  function Empty<T>(): Queue<T> {
    Queue([], 0, 0, false)
  }

  function Write<T>(q: Queue<T>, x: T, incomplete: bool): (q': Queue<T>)
    ensures q.Valid() ==> q'.Valid()
  {
    var items := q.items + [x];
    q.(items := items, complete := if incomplete then q.complete else |items|)
  }

  /** Takes back the newest item, if it belongs to an unfinished message. */
  function Unwrite<T>(q: Queue<T>): (r: (Queue<T>, Option<T>))
    ensures q.Valid() ==> r.0.Valid()
  {
    if q.complete >= |q.items| then (q, None)
    else (q.(items := q.items[..|q.items| - 1]), Some(q.items[|q.items| - 1]))
  }

  /** Publishes every finished item.  The flag is false exactly when a sleeping
      reader has to be woken up. */
  function Flush<T>(q: Queue<T>): (r: (Queue<T>, bool))
    ensures q.Valid() ==> r.0.Valid()
  {
    if q.published == q.complete then (q, true)
    else (q.(published := q.complete, asleep := false), !q.asleep)
  }

  function CheckRead<T>(q: Queue<T>): (r: (Queue<T>, bool))
    ensures q.Valid() ==> r.0.Valid()
    ensures r.1 <==> q.published > 0
  {
    if q.published > 0 then (q, true) else (q.(asleep := true), false)
  }

  function Read<T>(q: Queue<T>): (r: (Queue<T>, Option<T>))
    requires q.Valid()
    ensures r.0.Valid()
    ensures r.1.Some? <==> q.published > 0
  {
    if q.published == 0 then (q.(asleep := true), None)
    else (Queue(q.items[1..], q.complete - 1, q.published - 1, false), Some(q.items[0]))
  }

  /** All the unfinished items, taken back newest first. */
  function Rollback<T>(q: Queue<T>): (q': Queue<T>)
    requires q.Valid()
    ensures q'.Valid()
    ensures q' == q.(items := q.items[..q.complete])
    decreases |q.items|
  {
    if q.complete == |q.items| then q else Rollback(Unwrite(q).0)
  }
}

/** The lock-free queue, with its four cursors as positions in the stream of all
    items ever written. */
module LockFreeQueue {
  import opened Basics
  import opened Fifo

  class YPipe<T> {
    var items: seq<T>       // what lies between the front and the back of the queue
    var front: nat          // position of the oldest unread item
    var w: nat              // first unflushed item, used by the writer
    var f: nat              // first item to be flushed in the future, used by the writer
    var r: Option<nat>      // first item not prefetched, used by the reader
    var c: Option<nat>      // last flushed position, or None while the reader sleeps

    ghost predicate Valid()
      reads this
    {
      && front <= w <= f <= front + |items|
      && (r.Some? ==> front <= r.value <= w)
      && (c.Some? ==> c.value == w)
      && (c.None? ==> w == front)
    }

    ghost function Abs(): (q: Queue<T>)
      requires Valid()
      reads this
      ensures q.Valid()
    {
      Queue(items, f - front, w - front, c.None?)
    }

    constructor ()
      ensures Valid() && Abs() == Empty()
    {
      items := [];
      front, w, f, r, c := 0, 0, 0, Some(0), Some(0);
    }

    method Write(x: T, incomplete: bool)
      requires Valid()
      modifies this
      ensures Valid() && Abs() == Fifo.Write(old(Abs()), x, incomplete)
    {
      items := items + [x];
      if !incomplete {
        f := front + |items|;
      }
    }

    method Unwrite() returns (x: Option<T>)
      requires Valid()
      modifies this
      ensures Valid() && (Abs(), x) == Fifo.Unwrite(old(Abs()))
    {
      if f == front + |items| {
        return None;
      }
      x := Some(items[|items| - 1]);
      items := items[..|items| - 1];
    }

    method Flush() returns (ok: bool)
      requires Valid()
      modifies this
      ensures Valid() && (Abs(), ok) == Fifo.Flush(old(Abs()))
    {
      if w == f {
        return true;
      }
      if c != Some(w) {
        // the compare-and-swap failed: the reader is asleep
        c := Some(f);
        w := f;
        return false;
      }
      c := Some(f);
      w := f;
      return true;
    }

    method CheckRead() returns (ok: bool)
      requires Valid()
      modifies this
      ensures Valid() && (Abs(), ok) == Fifo.CheckRead(old(Abs()))
      ensures ok ==> r.Some? && r.value > front
    {
      if r.Some? && r.value != front {
        return true;
      }
      // compare-and-swap of c from the front to None, keeping the old value
      r := c;
      if c == Some(front) {
        c := None;
      }
      return !(r.None? || r.value == front);
    }

    method Read() returns (x: Option<T>)
      requires Valid()
      modifies this
      ensures Valid() && (Abs(), x) == Fifo.Read(old(Abs()))
    {
      var ok := CheckRead();
      if !ok {
        return None;
      }
      x := Some(items[0]);
      items := items[1..];
      front := front + 1;
    }
  }
}
