/** The subscription trie, updated in place: every node holds either no child, one child
    or a table of children for a range of bytes, with slots that may be empty. */
module Mtrie {
  import opened Basics
  import opened Subscriptions

  /** How many children a table has. */
  ghost function Occupied(table: seq<Node?>): nat {
    if table == [] then 0 else (if table[0] != null then 1 else 0) + Occupied(table[1..])
  }

  lemma {:induction false} OccupiedUpdate(table: seq<Node?>, i: nat, n: Node?)
    requires i < |table|
    ensures Occupied(table[i := n]) == Occupied(table) - (if table[i] != null then 1 else 0) + (if n != null then 1 else 0)
    decreases |table|
  {
    if i == 0 {
      assert table[0 := n][1..] == table[1..];
    } else {
      assert table[i := n][1..] == table[1..][i - 1 := n];
      OccupiedUpdate(table[1..], i - 1, n);
    }
  }

  lemma {:induction false} OccupiedAppend(a: seq<Node?>, b: seq<Node?>)
    ensures Occupied(a + b) == Occupied(a) + Occupied(b)
  {
    if a == [] {
      assert a + b == b;
    } else {
      assert (a + b)[1..] == a[1..] + b;
      OccupiedAppend(a[1..], b);
    }
  }

  lemma {:induction false} OccupiedNone(table: seq<Node?>)
    ensures Occupied(table) == 0 <==> forall i :: 0 <= i < |table| ==> table[i] == null
  {
    if table == [] {
    } else {
      OccupiedNone(table[1..]);
      if forall i :: 0 <= i < |table| ==> table[i] == null {
        assert forall i :: 0 <= i < |table| - 1 ==> table[1..][i] == table[i + 1];
      } else {
        var i :| 0 <= i < |table| && table[i] != null;
        assert i > 0 ==> table[1..][i - 1] == table[i];
      }
    }
  }

  /** Dropping empty slots at both ends drops no child. */
  lemma OccupiedTrim(table: seq<Node?>, lo: nat, hi: nat)
    requires lo <= hi <= |table|
    requires forall i :: 0 <= i < |table| && !(lo <= i < hi) ==> table[i] == null
    ensures Occupied(table[lo..hi]) == Occupied(table)
  {
    assert table == table[..lo] + (table[lo..hi] + table[hi..]);
    OccupiedAppend(table[..lo], table[lo..hi] + table[hi..]);
    OccupiedAppend(table[lo..hi], table[hi..]);
    OccupiedNone(table[..lo]);
    OccupiedNone(table[hi..]);
  }

  lemma OccupiedTwo(table: seq<Node?>, i: nat, j: nat)
    requires i < j < |table| && table[i] != null && table[j] != null
    ensures Occupied(table) >= 2
  {
    assert table == table[..j] + table[j..];
    OccupiedAppend(table[..j], table[j..]);
    OccupiedNone(table[..j]);
    OccupiedNone(table[j..]);
    assert table[..j][i] == table[i] && table[j..][0] == table[j];
  }

  /** The place of a byte in a table that starts at `min`. */
  ghost function Slot(table: seq<Node?>, min: int, b: Byte): Node? {
    if min <= b < min + |table| then table[b - min] else null
  }

  lemma OneChild(table: seq<Node?>, k: nat)
    requires k < |table| && table[k] != null && forall i :: 0 <= i < |table| && i != k ==> table[i] == null
    ensures Occupied(table) == 1
  {
    OccupiedTrim(table, k, k + 1);
    assert table[k..k + 1] == [table[k]];
    assert [table[k]][1..] == [];
  }

  const NOWHERE := -1

  /** The ends of a table are children, except possibly the slot of the byte `hole`. */
  predicate Tight(table: seq<Node?>, min: nat, hole: int) {
    table != [] ==> (table[0] != null || hole == min) && (table[|table| - 1] != null || hole == min + |table| - 1)
  }

  /** The table from `min` on holds exactly these children. */
  ghost predicate Layout(table: seq<Node?>, min: nat, count: nat, liveNodes: int, children: seq<Node?>)
  {
    && |table| == count && min + count <= 256
    && liveNodes == Occupied(table)
    && |children| == 256
    && forall b: Byte :: Slot(table, min, b) == children[b]
  }

  /** No two children share a node. */
  ghost predicate Apart(reprs: seq<set<Node>>) {
    forall i, j :: 0 <= i < j < |reprs| ==> reprs[i] !! reprs[j]
  }

  /** Putting a child into the one slot that may be empty at an end. */
  lemma FillSlot(table: seq<Node?>, min: nat, count: nat, liveNodes: int, children: seq<Node?>, c: Byte, n: Node)
    requires Layout(table, min, count, liveNodes, children) && Tight(table, min, c)
    requires min <= c < min + count && table[c - min] == null
    ensures Layout(table[c - min := n], min, count, liveNodes + 1, children[c := n])
    ensures Tight(table[c - min := n], min, NOWHERE)
  {
    OccupiedUpdate(table, c - min, n);
  }

  /** Giving up empty slots at the ends. */
  lemma TrimTable(table: seq<Node?>, min: nat, count: nat, liveNodes: int, children: seq<Node?>, lo: nat, hi: nat)
    requires Layout(table, min, count, liveNodes, children) && lo <= hi <= |table|
    requires forall i :: 0 <= i < |table| && !(lo <= i < hi) ==> table[i] == null
    ensures Layout(table[lo..hi], min + lo, hi - lo, liveNodes, children)
  {
    OccupiedTrim(table, lo, hi);
  }

  lemma EmptySlot(table: seq<Node?>, min: nat, count: nat, liveNodes: int, children: seq<Node?>, c: Byte)
    requires Layout(table, min, count, liveNodes, children) && Tight(table, min, NOWHERE)
    requires min <= c < min + count && table[c - min] != null
    ensures Layout(table[c - min := null], min, count, liveNodes - 1, children[c := null])
    ensures count > 1 ==> liveNodes > 1
  {
    OccupiedUpdate(table, c - min, null);
    if count > 1 {
      OccupiedTwo(table, 0, count - 1);
    }
  }

  /** Looks for the first child, from a given slot on. */
  method First(table: seq<Node?>, start: nat) returns (i: nat)
    requires exists j :: start <= j < |table| && table[j] != null
    ensures start <= i < |table| && table[i] != null
    ensures forall j :: start <= j < i ==> table[j] == null
  {
    i := start;
    while i < |table| && table[i] == null
      invariant start <= i < |table|
      invariant forall j :: start <= j < i ==> table[j] == null
    {
      i := i + 1;
    }
  }

  /** With one child left, every other slot is empty. */
  lemma LastChild(table: seq<Node?>, k: nat)
    requires Occupied(table) == 1 && k < |table| && table[k] != null
    ensures forall i :: 0 <= i < |table| && i != k ==> table[i] == null
  {
    forall i | 0 <= i < |table| && i != k ensures table[i] == null {
      if table[i] != null {
        OccupiedTwo(table, if i < k then i else k, if i < k then k else i);
      }
    }
  }

  /** Among the first `n` slots: the first and the last byte with a child, or the far ends if there is none. */
  ghost predicate Survivors(table: seq<Node?>, min: nat, n: nat, newMin: int, newMax: int)
    requires n <= |table|
  {
    && min <= newMin < min + |table| && min <= newMax < min + |table|
    && if forall i :: 0 <= i < n ==> table[i] == null then newMin == min + |table| - 1 && newMax == min
       else
         && newMin <= newMax < min + n && table[newMin - min] != null && table[newMax - min] != null
         && forall i :: 0 <= i < n && table[i] != null ==> newMin <= min + i <= newMax
  }

  /** Keeping just what lies between the survivors, the survivors included. */
  lemma Shrunk(table: seq<Node?>, min: nat, count: nat, liveNodes: int, children: seq<Node?>, newMin: nat, newMax: nat)
    requires Layout(table, min, count, liveNodes, children) && liveNodes > 0
    requires Survivors(table, min, count, newMin, newMax)
    ensures min <= newMin <= newMax < min + count
    ensures Layout(table[newMin - min..newMax + 1 - min], newMin, newMax + 1 - newMin, liveNodes, children)
    ensures Tight(table[newMin - min..newMax + 1 - min], newMin, NOWHERE)
    ensures liveNodes == 1 <==> newMin == newMax
    ensures table[newMin - min] != null && table[newMax - min] != null
  {
    OccupiedNone(table);
    TrimTable(table, min, count, liveNodes, children, newMin - min, newMax + 1 - min);
    if newMin == newMax {
      OneChild(table, newMin - min);
    } else {
      OccupiedTwo(table, newMin - min, newMax - min);
    }
  }

  /** The two bytes as the loop over the table finds them. */
  ghost function NewEnds(table: seq<Node?>, min: nat, n: nat): (int, int)
    requires n <= |table|
  {
    if n == 0 then (min + |table| - 1, min)
    else
      var e, b := NewEnds(table, min, n - 1), min + n - 1;
      if table[n - 1] == null then e else (if b < e.0 then b else e.0, if b > e.1 then b else e.1)
  }

  lemma {:induction false} NewEndsSurvive(table: seq<Node?>, min: nat, n: nat)
    requires 0 < |table| && n <= |table|
    ensures Survivors(table, min, n, NewEnds(table, min, n).0, NewEnds(table, min, n).1)
  {
    if n == 0 {
    } else {
      NewEndsSurvive(table, min, n - 1);
    }
  }

  lemma {:induction false} NewEndsLocal(was: seq<Node?>, table: seq<Node?>, min: nat, n: nat)
    requires n <= |was| == |table| && forall i :: 0 <= i < n ==> table[i] == was[i]
    ensures NewEnds(table, min, n) == NewEnds(was, min, n)
  {
    if n == 0 {
    } else {
      NewEndsLocal(was, table, min, n - 1);
    }
  }

  class Node {
    var pipes: set<Pipe>       // empty when the node has no set of pipes
    var min: Byte
    var count: nat
    var liveNodes: int
    var table: seq<Node?>      // the single child, or the table of children from `min` on
    ghost var Repr: set<Node>
    ghost var Children: seq<Node?>           // the child for each byte
    ghost var Reprs: seq<set<Node>>          // the nodes below each byte
    ghost var Kids: seq<set<Subscription>>   // what is subscribed below each byte
    ghost var Subs: set<Subscription>        // what is subscribed in this node and below it

    ghost predicate Valid()
      reads this, Repr
    {
      && Linked(NOWHERE)
      && Fits()
    }

    ghost predicate Fits()
      reads this
    {
      Layout(table, min, count, liveNodes, Children) && Tight(table, min, NOWHERE)
    }

    /** The children own their nodes alone, are valid and hold what they should; only the
        child of the byte `hole` may be redundant. */
    ghost predicate Linked(hole: int)
      reads `Repr, `Children, `Reprs, `Kids, `Subs, `pipes, Repr - {this}
      decreases Repr
    {
      && this in Repr
      && |Children| == |Reprs| == |Kids| == 256
      && (forall b: Byte ::
            if Children[b] == null then Kids[b] == {} && Reprs[b] == {}
            else
              && Children[b] in Repr - {this} && Children[b].Repr == Reprs[b] <= Repr - {this}
              && Children[b].Linked(NOWHERE) && Children[b].Fits()
              && (Children[b].Redundant() ==> b == hole)
              && Kids[b] == Children[b].Subs)
      && Apart(Reprs)
      && Denotes(Subs, pipes, Kids)
    }

    /** The same, saying nothing about the child of the byte `c`. */
    ghost predicate LinkedBut(c: Byte)
      reads `Repr, `Children, `Reprs, `Kids, `Subs, `pipes, Repr - {this}
    {
      && this in Repr
      && |Children| == |Reprs| == |Kids| == 256
      && (forall b: Byte :: b != c ==>
            if Children[b] == null then Kids[b] == {} && Reprs[b] == {}
            else
              && Children[b] in Repr - {this} && Children[b].Repr == Reprs[b] <= Repr - {this}
              && Children[b].Linked(NOWHERE) && Children[b].Fits()
              && !Children[b].Redundant()
              && Kids[b] == Children[b].Subs)
      && Apart(Reprs)
      && Denotes(Subs, pipes, Kids)
    }

    /** Takes in what has changed in the child of the byte `c`. */
    ghost method Refresh(c: Byte, n: Node, subs: set<Subscription>)
      requires LinkedBut(c) && Children[c] == n && this !in n.Repr
      requires n.Linked(NOWHERE) && n.Fits()
      requires Reprs[c] <= n.Repr && (n.Repr - Reprs[c]) !! Repr
      requires Denotes(subs, pipes, Kids[c := n.Subs])
      modifies `Repr, `Reprs, `Kids, `Subs
      ensures Linked(c) && Repr == old(Repr) + n.Repr && Subs == subs
    {
      Repr, Reprs, Kids, Subs := Repr + n.Repr, Reprs[c := n.Repr], Kids[c := n.Subs], subs;
    }

    predicate Redundant()
      reads this
    {
      pipes == {} && liveNodes == 0
    }

    constructor ()
      ensures Valid() && fresh(Repr) && Subs == {} && Redundant()
    {
      pipes, min, count, liveNodes, table := {}, 0, 0, 0, [];
      Repr, Subs := {this}, {};
      Children, Reprs, Kids := seq(256, i => null), seq(256, i => {}), seq(256, i => {});
    }

    /** A node is redundant exactly when nothing is subscribed in it or below it. */
    lemma RedundantMeansEmpty()
      requires Valid()
      ensures Redundant() <==> Subs == {}
      decreases Repr
    {
      OccupiedNone(table);
      assert forall s: Subscription :: s in Subs <==> Listed(s, pipes, Kids);
      if Redundant() {
        assert forall b: Byte :: Slot(table, min, b) == Children[b];
        assert forall s: Subscription :: !Listed(s, pipes, Kids);
      } else if pipes != {} {
        var q :| q in pipes;
        assert Listed(([], q), pipes, Kids);
      } else {
        var n := table[0];
        assert Slot(table, min, min) == n == Children[min];
        n.RedundantMeansEmpty();
        var s :| s in n.Subs;
        var p := [min] + s.0;
        assert p[1..] == s.0;
        assert Listed((p, s.1), pipes, Kids);
      }
    }

    /** Makes room for a byte outside the current range. */
    method Extend(c: Byte)
      requires Fits() && !(min <= c < min + count)
      modifies this`min, this`count, this`table
      ensures Layout(table, min, count, liveNodes, Children) && Tight(table, min, c)
      ensures min <= c < min + count && table[c - min] == null
    {
      ghost var was, wasMin := table, min;
      if count == 0 {
        min := c;
        count := 1;
        table := [null];
        OccupiedNone(table);
        OccupiedNone(was);
      } else if count == 1 {
        var oldc := min;
        var oldp := table[0];
        count := (if min < c then c - min else min - c) + 1;
        min := if min < c then min else c;
        table := seq(count, i => null)[oldc - min := oldp];
        OneChild(table, oldc - min);
        OneChild(was, 0);
      } else if min < c {
        var more := seq(c - min + 1 - count, i => null);
        count := c - min + 1;
        table := table + more;
        OccupiedAppend(was, more);
        OccupiedNone(more);
      } else {
        var more := seq(min - c, i => null);
        count := min + count - c;
        table := more + table;
        OccupiedAppend(more, was);
        OccupiedNone(more);
        min := c;
      }
      assert forall b: Byte :: Slot(table, min, b) == Slot(was, wasMin, b) == Children[b];
    }

    method AddHere(pipe: Pipe) returns (unique: bool)
      requires Valid()
      modifies this
      ensures Valid() && Repr == old(Repr) && !Redundant()
      ensures Subs == old(Subs) + {([], pipe)}
      ensures unique <==> forall q: Pipe :: ([], q) !in old(Subs)
    {
      unique := pipes == {};
      forall q: Pipe ensures ([], q) in Subs <==> q in pipes {
        assert ([], q) in Subs <==> Listed(([], q), pipes, Kids);
      }
      DenotesHere(Subs, pipes, Kids, pipe);
      pipes := pipes + {pipe};
      Subs := Subs + {([], pipe)};
    }

    method PutSlot(c: Byte, n: Node)
      requires Layout(table, min, count, liveNodes, Children) && Tight(table, min, c)
      requires min <= c < min + count && table[c - min] == null
      modifies this`table, this`liveNodes
      ensures Layout(table, min, count, liveNodes, Children[c := n]) && Tight(table, min, NOWHERE)
    {
      FillSlot(table, min, count, liveNodes, Children, c, n);
      table := table[c - min := n];
      liveNodes := liveNodes + 1;
    }

    method AddChild(c: Byte)
      requires Linked(NOWHERE) && Layout(table, min, count, liveNodes, Children) && Tight(table, min, c)
      requires Slot(table, min, c) == null && min <= c < min + count
      modifies this
      ensures Linked(c) && Fits() && Children[c] != null
      ensures old(Repr) <= Repr && fresh(Repr - old(Repr)) && Subs == old(Subs)
    {
      var child := new Node();
      assert LinkedBut(c);
      PutSlot(c, child);
      Children := Children[c := child];
      Refresh(c, child, Subs);
    }

    /** Subscribes the pipe; true when it is the first one for the prefix. */
    method Add(prefix: seq<Byte>, pipe: Pipe) returns (unique: bool)
      requires Valid()
      modifies Repr
      ensures Valid() && old(Repr) <= Repr && fresh(Repr - old(Repr)) && !Redundant()
      ensures Subs == old(Subs) + {(prefix, pipe)}
      ensures unique <==> forall q: Pipe :: (prefix, q) !in old(Subs)
      decreases |prefix|, 1
    {
      if |prefix| == 0 {
        unique := AddHere(pipe);
        assert prefix == [];
        return;
      }
      var c := prefix[0];
      if !(min <= c < min + count) {
        Extend(c);
      }
      if table[c - min] == null {
        AddChild(c);
      }
      unique := AddBelow(prefix, pipe);
    }

    method AddBelow(prefix: seq<Byte>, pipe: Pipe) returns (unique: bool)
      requires prefix != [] && Linked(prefix[0]) && Fits() && Slot(table, min, prefix[0]) != null
      modifies Repr
      ensures Valid() && old(Repr) <= Repr && fresh(Repr - old(Repr)) && !Redundant()
      ensures Subs == old(Subs) + {(prefix, pipe)}
      ensures unique <==> forall q: Pipe :: (prefix, q) !in old(Subs)
      decreases |prefix|, 0
    {
      var c := prefix[0];
      var n := table[c - min];
      forall q: Pipe ensures (prefix, q) in Subs <==> (prefix[1..], q) in n.Subs {
        assert (prefix, q) in Subs <==> Listed((prefix, q), pipes, Kids);
      }
      unique := n.Add(prefix[1..], pipe);
      assert LinkedBut(c);
      DenotesBelow(Subs, pipes, Kids, prefix, pipe);
      Refresh(c, n, Subs + {(prefix, pipe)});
    }
  
    /** Removes the child of a byte and compacts the table. */
    method Detach(c: Byte)
      requires Fits() && min <= c < min + count && table[c - min] != null
      modifies this`min, this`count, this`table, this`liveNodes
      ensures Layout(table, min, count, liveNodes, Children[c := null]) && Tight(table, min, NOWHERE)
    {
      ghost var children := Children[c := null];
      EmptySlot(table, min, count, liveNodes, Children, c);
      if count == 1 {
        TrimTable(table[c - min := null], min, count, liveNodes - 1, children, 0, 0);
        OccupiedNone(table[c - min := null]);
        table := [];
        count := 0;
        liveNodes := liveNodes - 1;
        assert liveNodes == 0;
        return;
      }
      table := table[c - min := null];
      assert liveNodes > 1;
      liveNodes := liveNodes - 1;
      Compact(c, children);
    }

    /** A slot was emptied and other children are left: switch to a single child, or give up
        the empty slots on the side of the emptied one. */
    method Compact(c: Byte, ghost children: seq<Node?>)
      requires Layout(table, min, count, liveNodes, children) && liveNodes > 0
      requires min <= c < min + count && Tight(table, min, c) && table[c - min] == null && count > 1
      modifies this`min, this`count, this`table
      ensures Layout(table, min, count, liveNodes, children) && Tight(table, min, NOWHERE)
    {
      OccupiedNone(table);
      if liveNodes == 1 {
        var i := First(table, 0);
        LastChild(table, i);
        TrimTable(table, min, count, liveNodes, children, i, i + 1);
        table := table[i..i + 1];
        min := min + i;
        count := 1;
      } else if c == min {
        var i := First(table, 1);
        TrimTable(table, min, count, liveNodes, children, i, count);
        table := table[i..count];
        min := min + i;
        count := count - i;
      } else if c == min + count - 1 {
        var i := 1;
        while i < count && table[count - 1 - i] == null
          invariant 1 <= i < count
          invariant forall k :: count - i <= k < count ==> table[k] == null
        {
          i := i + 1;
        }
        TrimTable(table, min, count, liveNodes, children, 0, count - i);
        table := table[0..count - i];
        count := count - i;
      }
    }

    /** The redundant child of a byte is forgotten. */
    ghost method Forget(c: Byte)
      requires Linked(c) && (Children[c] != null ==> Kids[c] == {})
      modifies `Children, `Reprs
      ensures Linked(NOWHERE) && Children == old(Children)[c := null]
    {
      Children, Reprs := Children[c := null], Reprs[c := {}];
    }
  
    /** Unsubscribes the pipe; true when the prefix has a node and no pipe is left there.  The
        assertion on the pipe's presence fails exactly when only others have the prefix. */
    method Rm(prefix: seq<Byte>, pipe: Pipe) returns (last: Option<bool>)
      requires Valid()
      modifies Repr
      ensures Valid() && Repr == old(Repr) && Subs == old(Subs) - {(prefix, pipe)}
      ensures last.None? <==> Foreign(old(Subs), prefix, pipe)
      ensures last.Some? ==>
                (last.value <==> (prefix == [] || Reaches(old(Subs), prefix)) && forall q: Pipe :: (prefix, q) !in Subs)
      decreases |prefix|, 2
    {
      if |prefix| == 0 {
        assert prefix == [];
        last := RmHere(pipe);
        return;
      }
      var c := prefix[0];
      NotBelow(prefix);
      if count == 0 || c < min || c >= min + count {
        assert Slot(table, min, c) == Children[c];
        return Some(false);
      }
      var next := table[c - min];
      if next == null {
        assert Slot(table, min, c) == Children[c];
        return Some(false);
      }
      last := RmBelow(prefix, pipe);
    }

    /** Nothing is subscribed under a byte without a child. */
    lemma NotBelow(prefix: seq<Byte>)
      requires Linked(NOWHERE) && prefix != []
      ensures Children[prefix[0]] == null ==> !Reaches(Subs, prefix) && forall q: Pipe :: (prefix, q) !in Subs
    {
      ReachesBelow(Subs, pipes, Kids, prefix);
      forall q: Pipe ensures Children[prefix[0]] == null ==> (prefix, q) !in Subs {
        assert (prefix, q) in Subs <==> Listed((prefix, q), pipes, Kids);
      }
    }

    method RmHere(pipe: Pipe) returns (last: Option<bool>)
      requires Valid()
      modifies this
      ensures Valid() && Repr == old(Repr) && Subs == old(Subs) - {([], pipe)}
      ensures last.None? <==> Foreign(old(Subs), [], pipe)
      ensures last.Some? ==> (last.value <==> forall q: Pipe :: ([], q) !in Subs)
    {
      forall q: Pipe ensures ([], q) in Subs <==> q in pipes {
        assert ([], q) in Subs <==> Listed(([], q), pipes, Kids);
      }
      DenotesHere(Subs, pipes, Kids, pipe);
      if pipes != {} {
        assert exists q: Pipe :: q in pipes && ([], q) in Subs;
        if pipe !in pipes {
          return None;
        }
        pipes := pipes - {pipe};
      }
      Subs := Subs - {([], pipe)};
      last := Some(pipes == {});
    }

    lemma ChildReaches(c: Byte)
      requires Valid() && Children[c] != null
      ensures Reaches(Kids[c], [])
    {
      var n := Children[c];
      n.RedundantMeansEmpty();
      var s :| s in n.Subs;
      assert [] <= s.0;
    }

    method RmBelow(prefix: seq<Byte>, pipe: Pipe) returns (last: Option<bool>)
      requires prefix != [] && Valid() && Slot(table, min, prefix[0]) != null
      modifies Repr
      ensures Valid() && Repr == old(Repr) && Subs == old(Subs) - {(prefix, pipe)}
      ensures last.None? <==> Foreign(old(Subs), prefix, pipe)
      ensures last.Some? ==> (last.value <==> Reaches(old(Subs), prefix) && forall q: Pipe :: (prefix, q) !in Subs)
      decreases |prefix|, 1
    {
      var c := prefix[0];
      var next := table[c - min];
      assert Slot(table, min, c) == Children[c] == next;
      forall q: Pipe ensures (prefix, q) in Subs <==> (prefix[1..], q) in Kids[c] {
        assert (prefix, q) in Subs <==> Listed((prefix, q), pipes, Kids);
      }
      ReachesBelow(Subs, pipes, Kids, prefix);
      ChildReaches(c);
      last := RmChild(c, next, prefix, pipe);
      if last.None? {
        next.RedundantMeansEmpty();
        return;
      }
      Prune(c, next);
    }

    /** Removes the pair below one child, which may become redundant. */
    method RmChild(c: Byte, next: Node, prefix: seq<Byte>, pipe: Pipe) returns (last: Option<bool>)
      requires Linked(NOWHERE) && Children[c] == next && prefix != [] && prefix[0] == c
      modifies Repr
      ensures Linked(c) && Repr == old(Repr) && Children == old(Children)
      ensures min == old(min) && count == old(count) && table == old(table) && liveNodes == old(liveNodes)
      ensures next.Valid() && Subs == old(Subs) - {(prefix, pipe)}
      ensures last.None? <==> Foreign(old(Kids)[c], prefix[1..], pipe)
      ensures last.None? ==> next.Subs != {}
      ensures last.Some? ==>
                (last.value <==> (prefix[1..] == [] || Reaches(old(Kids)[c], prefix[1..]))
                                 && forall q: Pipe :: (prefix[1..], q) !in old(Kids)[c] - {(prefix[1..], pipe)})
      decreases |prefix|, 0
    {
      last := next.Rm(prefix[1..], pipe);
      assert LinkedBut(c);
      DenotesBelow(Subs, pipes, Kids, prefix, pipe);
      Refresh(c, next, Subs - {(prefix, pipe)});
    }

    /** Deletes the child of the byte if it became redundant. */
    method Prune(c: Byte, next: Node)
      requires Linked(c) && Fits() && Slot(table, min, c) == next
      modifies this
      ensures Valid() && Repr == old(Repr) && Subs == old(Subs) && Kids == old(Kids) && pipes == old(pipes)
    {
      if next.Redundant() {
        next.RedundantMeansEmpty();
        Detach(c);
        Forget(c);
      }
    }
  
    /** Unsubscribes the pipe from everything.  The callback is made once for each prefix it
        had, or with `uniq` only for those it was alone on, in lexicographic order. */
    method RmAll(pipe: Pipe, uniq: bool) returns (log: seq<seq<Byte>>)
      requires Valid()
      modifies Repr
      ensures Valid() && Repr == old(Repr) && Subs == Without(old(Subs), pipe)
      ensures Ascending(log) && forall p: seq<Byte> :: p in log <==> Affected(old(Subs), p, pipe, uniq)
    {
      ghost var rel;
      log, rel := RmPipe(pipe, [], uniq);
      assert forall i :: 0 <= i < |rel| ==> [] + rel[i] == rel[i];
      assert log == rel;
    }

    /** Unsubscribes the pipe from everything at or below this node, whose prefix is `path`,
        and returns the prefixes the callback is made for, in order. */
    method RmPipe(pipe: Pipe, path: seq<Byte>, uniq: bool) returns (log: seq<seq<Byte>>, ghost rel: seq<seq<Byte>>)
      requires Valid()
      modifies Repr
      ensures Valid() && Repr == old(Repr) && Subs == Without(old(Subs), pipe)
      ensures log == Under(path, rel) && Reported(rel, old(Subs), pipe, uniq, 256)
      decreases Repr, 4
    {
      ghost var subs, members, kids := Subs, pipes, Kids;
      log, rel := RmPipeHere(pipe, path, uniq);
      if count == 0 {
        assert forall b: Byte :: Slot(table, min, b) == Children[b];
        assert forall b: Byte :: Kids[b] == Without(Kids[b], pipe);
        ReportedNothing(rel, subs, members, kids, pipe, uniq, 0, 256);
      } else if count == 1 {
        log, rel := RmPipeOnly(pipe, path, uniq, log, rel, subs, members);
      } else {
        var newMin, newMax;
        newMin, newMax, log, rel := RmPipeTable(pipe, path, uniq, log, rel, subs, members);
        assert count > 1;
        Shrink(newMin, newMax);
      }
      DenotesWithout(subs, members, kids, pipe, Kids);
      DenotesUnique(Subs, Without(subs, pipe), pipes, Kids);
    }

    /** The node has a single child. */
    method RmPipeOnly(pipe: Pipe, path: seq<Byte>, uniq: bool, log0: seq<seq<Byte>>,
                      ghost rel0: seq<seq<Byte>>, ghost subs: set<Subscription>, ghost members: set<Pipe>)
      returns (log: seq<seq<Byte>>, ghost rel: seq<seq<Byte>>)
      requires Valid() && count == 1 && Denotes(subs, members, Kids)
      requires log0 == Under(path, rel0) && Reported(rel0, subs, pipe, uniq, 0)
      modifies Repr
      ensures Valid() && Repr == old(Repr) && pipes == old(pipes)
      ensures forall b: Byte :: Kids[b] == Without(old(Kids)[b], pipe)
      ensures log == Under(path, rel) && Reported(rel, subs, pipe, uniq, 256)
      decreases Repr, 2
    {
      ghost var kids := Kids;
      var c := min;
      assert forall b: Byte :: Slot(table, c, b) == Children[b];
      var below;
      ghost var r;
      below, r := RmPipeBelow(c, table[0], pipe, path + [c], uniq);
      log, rel := log0 + below, rel0 + Under([c], r);
      UnderUnder(path, c, r);
      ReportedOnly(rel0, subs, members, kids, c, r, pipe, uniq);
      Prune(c, table[0]);
    }

    /** The node has a table of children; also tells the new first and last byte with a child. */
    method RmPipeTable(pipe: Pipe, path: seq<Byte>, uniq: bool, log0: seq<seq<Byte>>,
                       ghost rel0: seq<seq<Byte>>, ghost subs: set<Subscription>, ghost members: set<Pipe>)
      returns (newMin: Byte, newMax: Byte, log: seq<seq<Byte>>, ghost rel: seq<seq<Byte>>)
      requires Valid() && count > 1 && Denotes(subs, members, Kids)
      requires log0 == Under(path, rel0) && Reported(rel0, subs, pipe, uniq, 0)
      modifies Repr
      ensures Linked(NOWHERE) && Layout(table, min, count, liveNodes, Children)
      ensures Repr == old(Repr) && pipes == old(pipes) && count == old(count)
      ensures forall b: Byte :: Kids[b] == Without(old(Kids)[b], pipe)
      ensures Survivors(table, min, count, newMin, newMax)
      ensures log == Under(path, rel) && Reported(rel, subs, pipe, uniq, 256)
      decreases Repr, 3
    {
      ghost var kids := Kids;
      NothingOutside();
      ReportedNothing(rel0, subs, members, kids, pipe, uniq, 0, min);
      log, rel := log0, rel0;
      newMin, newMax := min + count - 1, min;
      var i := 0;
      while i < count
        invariant i <= count == old(count) && min == old(min) && count > 1
        invariant Repr == old(Repr) && pipes == old(pipes)
        invariant Swept(kids, pipe, i, newMin, newMax)
        invariant log == Under(path, rel) && Reported(rel, subs, pipe, uniq, min + i)
      {
        newMin, newMax, log, rel := RmPipeNext(i, newMin, newMax, pipe, path, uniq, log, rel, subs, members, kids);
        i := i + 1;
      }
      NewEndsSurvive(table, min, count);
      ReportedNothing(rel, subs, members, kids, pipe, uniq, min + count, 256);
    }

    lemma NothingOutside()
      requires Valid()
      ensures forall b: Byte :: !(min <= b < min + count) ==> Kids[b] == {}
    {
      assert forall b: Byte :: Slot(table, min, b) == Children[b];
    }

    /** The first `i` slots of the table have lost the pipe. */
    ghost predicate Swept(kids: seq<set<Subscription>>, pipe: Pipe, i: nat, newMin: int, newMax: int)
      requires |kids| == 256
      reads this, Repr
    {
      && Linked(NOWHERE) && Layout(table, min, count, liveNodes, Children)
      && Cleared(kids, Kids, pipe, min + i)
      && i <= |table| && (newMin, newMax) == NewEnds(table, min, i)
    }

    /** One more slot of the table, with its callbacks added to the earlier ones. */
    method RmPipeNext(i: nat, lo: Byte, hi: Byte, pipe: Pipe, path: seq<Byte>, uniq: bool, log0: seq<seq<Byte>>,
                      ghost rel0: seq<seq<Byte>>, ghost subs: set<Subscription>, ghost members: set<Pipe>,
                      ghost kids: seq<set<Subscription>>)
      returns (newMin: Byte, newMax: Byte, log: seq<seq<Byte>>, ghost rel: seq<seq<Byte>>)
      requires |kids| == 256 && Denotes(subs, members, kids)
      requires Swept(kids, pipe, i, lo, hi) && i < count
      requires log0 == Under(path, rel0) && Reported(rel0, subs, pipe, uniq, min + i)
      modifies Repr
      ensures Repr == old(Repr) && pipes == old(pipes) && min == old(min) && count == old(count)
      ensures Swept(kids, pipe, i + 1, newMin, newMax)
      ensures log == Under(path, rel) && Reported(rel, subs, pipe, uniq, min + i + 1)
      decreases Repr, 2
    {
      ghost var was, below := table, [];
      var c := min + i;
      ClearedNext(kids, Kids, pipe, c);
      var kept;
      kept, log, below := RmPipeSlot(c, pipe, path + [c], uniq);
      log := log0 + log;
      UnderUnder(path, c, below);
      rel := rel0 + Under([c], below);
      ReportedNext(rel0, subs, members, kids, c, below, pipe, uniq);
      NewEndsLocal(was, table, min, i);
      newMin, newMax := lo, hi;
      if kept {
        newMin := if c < lo then c else lo;
        newMax := if c > hi then c else hi;
      }
    }

    /** One slot of the table; tells whether a child is left there. */
    method RmPipeSlot(c: Byte, pipe: Pipe, path: seq<Byte>, uniq: bool)
      returns (kept: bool, log: seq<seq<Byte>>, ghost rel: seq<seq<Byte>>)
      requires Linked(NOWHERE) && Layout(table, min, count, liveNodes, Children) && min <= c < min + count
      modifies Repr
      ensures Linked(NOWHERE) && Layout(table, min, count, liveNodes, Children)
      ensures Repr == old(Repr) && pipes == old(pipes) && min == old(min) && count == old(count)
      ensures kept <==> table[c - min] != null
      ensures forall i :: 0 <= i < count && i != c - min ==> table[i] == old(table)[i]
      ensures Kids == old(Kids)[c := Without(old(Kids)[c], pipe)]
      ensures log == Under(path, rel) && Reported(rel, old(Kids)[c], pipe, uniq, 256)
      decreases Repr, 1
    {
      assert Slot(table, min, c) == Children[c];
      var next := table[c - min];
      if next == null {
        kept, log, rel := false, [], [];
        assert Without(Kids[c], pipe) == Kids[c] == {};
        return;
      }
      log, rel := RmPipeBelow(c, next, pipe, path, uniq);
      kept := !next.Redundant();
      if next.Redundant() {
        next.RedundantMeansEmpty();
        OccupiedUpdate(table, c - min, null);
        OccupiedNone(table);
        assert liveNodes > 0;
        table := table[c - min := null];
        liveNodes := liveNodes - 1;
        Forget(c);
      } else {
        Keep(c);
      }
    }

    lemma Keep(c: Byte)
      requires Linked(c) && Children[c] != null && !Children[c].Redundant()
      ensures Linked(NOWHERE)
    {}

    /** Gives up what the removal left empty. */
    method Shrink(newMin: Byte, newMax: Byte)
      requires Layout(table, min, count, liveNodes, Children) && count > 1
      requires Survivors(table, min, count, newMin, newMax)
      modifies this`min, this`count, this`table
      ensures Layout(table, min, count, liveNodes, Children) && Tight(table, min, NOWHERE)
    {
      OccupiedNone(table);
      if liveNodes == 0 {
        TrimTable(table, min, count, liveNodes, Children, 0, 0);
        table := [];
        count := 0;
      } else if liveNodes == 1 {
        Shrunk(table, min, count, liveNodes, Children, newMin, newMax);
        assert newMin == newMax;
        assert newMin >= min && newMin < min + count;
        var node := table[newMin - min];
        assert node != null;
        assert table[newMin - min..newMax + 1 - min] == [node];
        table := [node];
        count := 1;
        min := newMin;
      } else if newMin > min || newMax < min + count - 1 {
        Shrunk(table, min, count, liveNodes, Children, newMin, newMax);
        assert newMax - newMin + 1 > 1;
        assert newMax - newMin + 1 < count;
        table := table[newMin - min..newMax + 1 - min];
        count := newMax - newMin + 1;
        min := newMin;
      }
    }

    method RmPipeHere(pipe: Pipe, path: seq<Byte>, uniq: bool)
      returns (log: seq<seq<Byte>>, ghost rel: seq<seq<Byte>>)
      requires Valid()
      modifies this`pipes, this`Subs
      ensures Valid() && pipes == old(pipes) - {pipe}
      ensures log == Under(path, rel) && Reported(rel, old(Subs), pipe, uniq, 0)
    {
      log, rel := [], [];
      DenotesHere(Subs, pipes, Kids, pipe);
      ghost var members := pipes;
      if pipe in pipes {
        pipes := pipes - {pipe};
        if !uniq || pipes == {} {
          log, rel := [path], [[]];
          assert path + [] == path;
        }
      }
      ReportedHere(rel, Subs, members, Kids, pipe, uniq);
      Subs := Subs - {([], pipe)};
    }

    /** Removes the pipe below one child, which may become redundant. */
    method RmPipeBelow(c: Byte, next: Node, pipe: Pipe, path: seq<Byte>, uniq: bool)
      returns (log: seq<seq<Byte>>, ghost rel: seq<seq<Byte>>)
      requires Linked(NOWHERE) && Children[c] == next
      modifies Repr
      ensures Linked(c) && Repr == old(Repr) && pipes == old(pipes) && Children == old(Children)
      ensures min == old(min) && count == old(count) && table == old(table) && liveNodes == old(liveNodes)
      ensures next.Valid() && Kids == old(Kids)[c := Without(old(Kids)[c], pipe)]
      ensures log == Under(path, rel) && Reported(rel, old(Kids)[c], pipe, uniq, 256)
      decreases Repr, 0
    {
      log, rel := next.RmPipe(pipe, path, uniq);
      assert LinkedBut(c);
      DenotesRegraft(Subs, pipes, Kids, c, next.Subs);
      Refresh(c, next, Regraft(Subs, c, next.Subs));
    }
  
    /** The child for the next byte of the data, if there is one. */
    method Next(b: Byte) returns (next: Node?)
      requires Valid()
      ensures next == Children[b]
    {
      assert Slot(table, min, b) == Children[b];
      if count == 0 {
        return null;
      }
      if count == 1 {
        if b != min {
          return null;
        }
        return table[0];
      }
      if b < min || b >= min + count {
        return null;
      }
      next := table[b - min];
    }

    /** Calls back for every pipe at every node on the way down the data: each pipe as many
        times as there are prefixes of the data it subscribed to. */
    method Match(data: seq<Byte>) returns (calls: seq<Pipe>)
      requires Valid()
      ensures Counted(calls, Subs, data, |data| + 1)
    {
      calls := [];
      var current: Node := this;
      var k := 0;
      assert data[k..] == data;
      while true
        invariant k <= |data| && current.Valid()
        invariant Counted(calls, Subs, data, k)
        invariant Same(Subs, data, k, current.Subs)
        decreases |data| - k
      {
        var signalled := Signal(current.pipes);
        SameHere(Subs, data, k, current.Subs, current.pipes, current.Kids);
        CountedNext(calls, signalled, Subs, data, k, current.pipes);
        calls := calls + signalled;
        if k == |data| {
          return;
        }
        SameBelow(Subs, data, k, current.Subs, current.pipes, current.Kids);
        var next := current.Next(data[k]);
        if next == null {
          break;
        }
        current := next;
        k := k + 1;
      }
      CountedAll(calls, Subs, data, k + 1);
    }
  }

  /** Each pipe was called back once for each of the first `k` prefixes it subscribed to. */
  ghost predicate Counted(calls: seq<Pipe>, subs: set<Subscription>, data: seq<Byte>, k: nat)
    requires k <= |data| + 1
  {
    forall q: Pipe :: multiset(calls)[q] == Hits(subs, data, k, q)
  }

  lemma CountedNext(calls: seq<Pipe>, more: seq<Pipe>, subs: set<Subscription>, data: seq<Byte>, k: nat, pipes: set<Pipe>)
    requires k <= |data| && Counted(calls, subs, data, k)
    requires forall q: Pipe :: (data[..k], q) in subs <==> q in pipes
    requires forall q: Pipe :: multiset(more)[q] == if q in pipes then 1 else 0
    ensures Counted(calls + more, subs, data, k + 1)
  {}

  /** The pipes called back are exactly those subscribed to some prefix of the data. */
  lemma MatchSelects(calls: seq<Pipe>, subs: set<Subscription>, data: seq<Byte>, q: Pipe)
    requires Counted(calls, subs, data, |data| + 1)
    ensures q in calls <==> exists k :: 0 <= k <= |data| && (data[..k], q) in subs
  {
    HitsSomewhere(subs, data, |data| + 1, q);
    assert q in calls <==> multiset(calls)[q] > 0;
    if k :| 0 <= k <= |data| && (data[..k], q) in subs {
      assert 0 <= k < |data| + 1;
    }
  }

  lemma CountedAll(calls: seq<Pipe>, subs: set<Subscription>, data: seq<Byte>, k: nat)
    requires k <= |data| + 1 && Counted(calls, subs, data, k)
    requires forall j, q: Pipe :: k <= j <= |data| ==> (data[..j], q) !in subs
    ensures Counted(calls, subs, data, |data| + 1)
  {
    forall q: Pipe ensures multiset(calls)[q] == Hits(subs, data, |data| + 1, q) {
      NoHitsAbove(subs, data, k, |data| + 1, q);
    }
  }

  /** Below the current node the data goes on as it does in the whole trie. */
  ghost predicate Same(subs: set<Subscription>, data: seq<Byte>, k: nat, below: set<Subscription>)
    requires k <= |data|
  {
    forall j, q: Pipe :: k <= j <= |data| ==> ((data[..j], q) in subs <==> (data[k..j], q) in below)
  }

  lemma SameHere(subs: set<Subscription>, data: seq<Byte>, k: nat, here: set<Subscription>,
                 pipes: set<Pipe>, kids: seq<set<Subscription>>)
    requires k <= |data| && |kids| == 256 && Same(subs, data, k, here) && Denotes(here, pipes, kids)
    ensures forall q: Pipe :: (data[..k], q) in subs <==> q in pipes
  {
    forall q: Pipe ensures (data[..k], q) in subs <==> q in pipes {
      assert data[k..k] == [];
      assert (data[k..k], q) in here <==> Listed((data[k..k], q), pipes, kids);
    }
  }

  lemma SameBelow(subs: set<Subscription>, data: seq<Byte>, k: nat, here: set<Subscription>,
                  pipes: set<Pipe>, kids: seq<set<Subscription>>)
    requires k < |data| && |kids| == 256 && Same(subs, data, k, here) && Denotes(here, pipes, kids)
    ensures Same(subs, data, k + 1, kids[data[k]])
  {
    forall j, q: Pipe | k + 1 <= j <= |data| ensures (data[..j], q) in subs <==> (data[k + 1..j], q) in kids[data[k]] {
      assert data[k..j][1..] == data[k + 1..j];
      assert (data[k..j], q) in here <==> Listed((data[k..j], q), pipes, kids);
    }
  }

  /** Signals every pipe of a set once. */
  method Signal(pipes: set<Pipe>) returns (calls: seq<Pipe>)
    ensures forall q: Pipe :: multiset(calls)[q] == if q in pipes then 1 else 0
  {
    calls := [];
    var rest := pipes;
    while rest != {}
      invariant rest <= pipes
      invariant forall q: Pipe :: multiset(calls)[q] == if q in pipes - rest then 1 else 0
    {
      var q :| q in rest;
      calls := calls + [q];
      rest := rest - {q};
    }
  }
}
