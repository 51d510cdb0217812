/** The buffer a decoder receives into, which zero-copy messages point into.  Its counter is
    the decoder's own reference plus the messages that use it. */
module ReceiveBuffers {
  import opened Basics

  type BufferId = nat

  /** Messages shorter than this are copied into the message itself. */
  const MAX_VSM_SIZE := 33

  class Allocator {
    const maxSize: nat
    const maxCounters: nat
    var buf: Option<BufferId>
    var bufsize: nat
    var slot: nat                      // the next unused content slot of the buffer
    var counters: map<BufferId, int>   // of the buffers that are allocated
    var next: BufferId
    ghost var live: multiset<BufferId> // for each zero-copy message body, the buffer it is in
    ghost var used: nat                // the bytes of the buffer before this one belong to messages
    ghost var freed: set<BufferId>

    ghost predicate Valid()
      reads this
    {
      && (buf.Some? ==> slot <= maxCounters && slot * MAX_VSM_SIZE <= used <= maxSize)
      && (forall b: BufferId :: CounterOk(b))
    }

    ghost function References(b: BufferId): nat
      reads this
    {
      live[b] + (if buf == Some(b) then 1 else 0)
    }

    /** A buffer is allocated exactly while something refers to it. */
    ghost predicate CounterOk(b: BufferId)
      reads this
    {
      && (b in counters <==> References(b) > 0)
      && (b in counters ==> counters[b] == References(b) && b < next && b !in freed)
      && (b < next ==> b in counters || b in freed)
      && (b in freed ==> b < next)
    }

    constructor (size: nat)
      ensures Valid() && maxSize == size && buf == None && live == multiset{} && freed == {}
      ensures maxCounters * MAX_VSM_SIZE >= maxSize
    {
      maxSize, maxCounters := size, (size + MAX_VSM_SIZE - 1) / MAX_VSM_SIZE;
      buf, bufsize, slot, counters, next := None, 0, 0, map[], 0;
      live, used, freed := multiset{}, 0, {};
    }

    constructor ForMessages(size: nat, maxMessages: nat)
      ensures Valid() && maxSize == size && maxCounters == maxMessages && buf == None
      ensures live == multiset{} && freed == {}
    {
      maxSize, maxCounters := size, maxMessages;
      buf, bufsize, slot, counters, next := None, 0, 0, map[], 0;
      live, used, freed := multiset{}, 0, {};
    }

    method Sub(b: BufferId) returns (positive: bool)
      requires b in counters
      modifies this`counters
      ensures counters == old(counters)[b := old(counters)[b] - 1] && (positive <==> counters[b] != 0)
    {
      counters := counters[b := counters[b] - 1];
      return counters[b] != 0;
    }

    method Release()
      modifies this`buf, this`bufsize, this`slot
      ensures buf == None && bufsize == 0
    {
      buf, bufsize, slot := None, 0, 0;
    }

    /** A buffer to receive into, which no message points into: the old one if nobody uses it. */
    method Allocate() returns (b: BufferId)
      requires Valid()
      modifies this
      ensures Valid() && buf == Some(b) && bufsize == maxSize && slot == 0 && used == 0
      ensures live == old(live) && live[b] == 0 && freed == old(freed)
      ensures b == if old(buf).Some? && old(live)[old(buf).value] == 0 then old(buf).value else old(next)
    {
      assert CounterOk(next);
      if buf.Some? {
        assert CounterOk(buf.value);
        var positive := Sub(buf.value);
        if positive {
          Release();
        }
      }
      if buf.None? {
        b := next;
        counters := counters[b := 1];
        next := next + 1;
      } else {
        b := buf.value;
        counters := counters[b := 1];
      }
      buf, bufsize, slot, used := Some(b), maxSize, 0, 0;
      forall x: BufferId ensures CounterOk(x) {
        assert old(CounterOk(x));
      }
    }

    /** The decoder is done with its buffer, which lives on only in messages. */
    method Deallocate()
      requires Valid()
      modifies this
      ensures Valid() && buf == None && live == old(live)
      ensures freed == old(freed) + (if old(buf).Some? && live[old(buf).value] == 0 then {old(buf).value} else {})
    {
      if buf.Some? {
        assert CounterOk(buf.value);
        var positive := Sub(buf.value);
        if !positive {
          Free(buf.value);
        }
      }
      Release();
      forall x: BufferId ensures CounterOk(x) {
        assert old(CounterOk(x));
      }
    }

    method Free(b: BufferId)
      modifies this`counters, this`freed
      ensures counters == old(counters) - {b} && freed == old(freed) + {b}
    {
      counters := counters - {b};
      freed := freed + {b};
    }

    /** How much was received; after a read straight into a message that can be more than the
        buffer holds, and no message begins before the next buffer is allocated. */
    method Resize(size: nat)
      requires Valid()
      modifies this`bufsize
      ensures Valid() && bufsize == size
    {
      bufsize := size;
      forall x: BufferId ensures CounterOk(x) {
        assert old(CounterOk(x));
      }
    }

    /** A message of `size` bytes starts at `start`.  If it is large and its body fits in the
        buffer, it uses the buffer and takes a content slot; there always is one. */
    method NewMessage(start: nat, size: nat) returns (zeroCopy: bool)
      requires Valid() && buf.Some? && used <= start && bufsize <= maxSize && maxCounters * MAX_VSM_SIZE >= maxSize
      modifies this
      ensures Valid() && buf == old(buf) && freed == old(freed)
      ensures zeroCopy <==> start + size <= old(bufsize) && size >= MAX_VSM_SIZE
      ensures live == if zeroCopy then old(live) + multiset{buf.value} else old(live)
      ensures zeroCopy ==> old(slot) < maxCounters && slot == old(slot) + 1 && used == start + size
    {
      if start + size > bufsize {
        return false;
      }
      if size < MAX_VSM_SIZE {
        return false;
      }
      assert CounterOk(buf.value);
      slot := slot + 1;
      counters := counters[buf.value := counters[buf.value] + 1];
      live := live + multiset{buf.value};
      used := start + size;
      forall x: BufferId ensures CounterOk(x) {
        assert old(CounterOk(x));
      }
      return true;
    }

    /** Everything received becomes one message.  If it is large, it takes the buffer over,
        with the decoder's own reference. */
    method RawMessage(size: nat) returns (zeroCopy: bool)
      requires Valid() && buf.Some? && slot == 0 < maxCounters
      modifies this
      ensures Valid() && (zeroCopy <==> size >= MAX_VSM_SIZE) && freed == old(freed)
      ensures zeroCopy ==> buf == None && live == old(live) + multiset{old(buf).value}
      ensures !zeroCopy ==> buf == old(buf) && live == old(live)
    {
      if size < MAX_VSM_SIZE {
        return false;
      }
      live := live + multiset{buf.value};
      Release();
      forall x: BufferId ensures CounterOk(x) {
        assert old(CounterOk(x));
      }
      return true;
    }

    /** The last reference to a zero-copy body is gone; the buffer goes with the last of its users. */
    method CallDecRef(b: BufferId)
      requires Valid() && live[b] > 0
      modifies this
      ensures Valid() && buf == old(buf) && live == old(live) - multiset{b}
      ensures freed == old(freed) + (if live[b] == 0 && buf != Some(b) then {b} else {})
    {
      assert CounterOk(b);
      live := live - multiset{b};
      var positive := Sub(b);
      if !positive {
        Free(b);
      }
      forall x: BufferId ensures CounterOk(x) {
        assert old(CounterOk(x));
      }
    }
  }
}
