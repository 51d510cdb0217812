/** The turn-taking shared by the fair queue and the load balancer: the active pipes are the
    first `active` ones of the array, and `current` is the one whose turn it is. */
module RoundRobin {
  import opened Basics
  import opened PipeArrays

  datatype Ring = Ring(items: seq<Pipe>, active: nat, current: nat)

  ghost predicate Good(r: Ring) {
    Distinct(r.items) && r.active <= |r.items| && (r.current < r.active || r.current == 0)
  }

  ghost predicate IsActive(r: Ring, q: Pipe) {
    exists i :: 0 <= i < |r.items| && i < r.active && r.items[i] == q
  }

  /** How many pipes have their turn before this place. */
  function RankAt(r: Ring, i: nat): (n: nat)
    requires i < r.active && r.current < r.active
    ensures n < r.active && (n == 0 <==> i == r.current)
  {
    if i >= r.current then i - r.current else i + r.active - r.current
  }

  /** How many pipes have their turn before this one. */
  ghost function Rank(r: Ring, q: Pipe): (n: nat)
    requires Good(r) && IsActive(r, q)
    ensures n < r.active
  {
    var i :| 0 <= i < |r.items| && i < r.active && r.items[i] == q;
    RankAt(r, i)
  }

  lemma RankIs(r: Ring, q: Pipe, i: nat)
    requires Good(r) && i < r.active && r.items[i] == q
    ensures IsActive(r, q) && Rank(r, q) == RankAt(r, i)
  {}

  /** The pipe whose turn it is has nothing to offer: the last active pipe takes its place. */
  function Drop(r: Ring): Ring
    requires 0 < r.active <= |r.items| && r.current < r.active
  {
    Ring(Swapped(r.items, r.current, r.active - 1), r.active - 1,
         if r.current == r.active - 1 then 0 else r.current)
  }

  /** The next pipe's turn. */
  function Advance(r: Ring): Ring
    requires r.active > 0
  {
    r.(current := (r.current + 1) % r.active)
  }

  /** A pipe at a passive place becomes the last active one. */
  function Join(r: Ring, i: nat): Ring
    requires r.active <= i < |r.items|
  {
    Ring(Swapped(r.items, i, r.active), r.active + 1, r.current)
  }

  function Enter(r: Ring, p: Pipe): Ring
    requires r.active <= |r.items|
  {
    Join(r.(items := r.items + [p]), |r.items|)
  }

  /** A pipe leaves the array. */
  function Leave(r: Ring, i: nat): Ring
    requires i < |r.items| && r.active <= |r.items|
  {
    if i < r.active then
      Ring(Erased(Swapped(r.items, i, r.active - 1), r.active - 1), r.active - 1,
           if r.current == r.active - 1 then 0 else r.current)
    else r.(items := Erased(r.items, i))
  }

  /** The pipes that have turns. */
  ghost function Actives(r: Ring): set<Pipe>
    requires r.active <= |r.items|
  {
    Upto(r.items, r.active)
  }

  lemma ActivesAreActive(r: Ring, q: Pipe)
    requires Good(r)
    ensures q in Actives(r) <==> IsActive(r, q)
  {}

  /** Exactly the pipe whose turn it is loses its turns. */
  lemma DropActives(r: Ring)
    requires Good(r) && r.active > 0
    ensures Good(Drop(r)) && Actives(Drop(r)) == Actives(r) - {r.items[r.current]}
    ensures Upto(Drop(r).items, |Drop(r).items|) == Upto(r.items, |r.items|)
  {
    SwapPermutes(r.items, r.current, r.active - 1);
    SwapOut(r.items, r.current, r.active);
  }

  /** Exactly the pipe that joins gains turns; it comes after the others, whose places stay. */
  lemma JoinActives(r: Ring, i: nat)
    requires Good(r) && r.active <= i < |r.items|
    ensures Good(Join(r, i)) && Actives(Join(r, i)) == Actives(r) + {r.items[i]}
    ensures Join(r, i).active == r.active + 1 && Join(r, i).current == r.current
    ensures Join(r, i).items[..r.active] == r.items[..r.active] && Join(r, i).items[r.active] == r.items[i]
    ensures Upto(Join(r, i).items, |Join(r, i).items|) == Upto(r.items, |r.items|)
  {
    SwapPermutes(r.items, i, r.active);
    SwapIn(r.items, i, r.active);
  }

  lemma EnterActives(r: Ring, p: Pipe)
    requires Good(r) && p !in r.items
    ensures Good(Enter(r, p)) && Actives(Enter(r, p)) == Actives(r) + {p}
    ensures Enter(r, p).active == r.active + 1 && Enter(r, p).current == r.current
    ensures Enter(r, p).items[..r.active] == r.items[..r.active] && Enter(r, p).items[r.active] == p
    ensures Upto(Enter(r, p).items, |Enter(r, p).items|) == Upto(r.items, |r.items|) + {p}
  {
    var s := r.(items := r.items + [p]);
    UptoAppend(r.items, p);
    JoinActives(s, |r.items|);
  }

  /** Exactly the pipe that leaves is gone. */
  lemma LeaveActives(r: Ring, i: nat)
    requires Good(r) && i < |r.items|
    ensures Good(Leave(r, i)) && Actives(Leave(r, i)) == Actives(r) - {r.items[i]}
    ensures Upto(Leave(r, i).items, |Leave(r, i).items|) == Upto(r.items, |r.items|) - {r.items[i]}
  {
    if i < r.active {
      SwapPermutes(r.items, i, r.active - 1);
      SwapOut(r.items, i, r.active);
      EraseUpto(Swapped(r.items, i, r.active - 1), r.active - 1);
    } else {
      EraseUpto(r.items, i);
      InUpto(r.items, i, r.active);
    }
  }

  lemma DropRanks(r: Ring, q: Pipe)
    requires Good(r) && r.active > 0 && IsActive(r, q) && r.items[r.current] != q
    ensures Good(Drop(r)) && IsActive(Drop(r), q) && Rank(Drop(r), q) <= Rank(r, q)
  {
    var i :| 0 <= i < |r.items| && i < r.active && r.items[i] == q;
    var d := Drop(r);
    SwapPermutes(r.items, r.current, r.active - 1);
    var j := if i == r.active - 1 then r.current else i;
    assert d.items[j] == q;
    RankIs(r, q, i);
    RankIs(d, q, j);
  }

  lemma AdvanceRanks(r: Ring, q: Pipe)
    requires Good(r) && IsActive(r, q) && r.items[r.current] != q
    ensures Good(Advance(r)) && IsActive(Advance(r), q) && Rank(Advance(r), q) == Rank(r, q) - 1
  {
    var i :| 0 <= i < |r.items| && i < r.active && r.items[i] == q;
    NextPlace(r.current, r.active);
    RankIs(r, q, i);
    RankIs(Advance(r), q, i);
  }

  ghost function Place(items: seq<Pipe>, p: Pipe): (i: nat)
    requires p in items
    ensures i < |items| && items[i] == p
  {
    var i :| 0 <= i < |items| && items[i] == p; i
  }

  lemma NextPlace(c: nat, n: nat)
    requires c < n
    ensures (c + 1) % n == if c + 1 == n then 0 else c + 1
  {}

  lemma JoinRanks(r: Ring, q: Pipe, i: nat)
    requires Good(r) && IsActive(r, q) && r.active <= i < |r.items|
    ensures Good(Join(r, i)) && IsActive(Join(r, i), q) && Rank(Join(r, i), q) <= Rank(r, q) + 1
    ensures Join(r, i).items[r.current] == r.items[r.current]
  {
    var k :| 0 <= k < |r.items| && k < r.active && r.items[k] == q;
    SwapPermutes(r.items, i, r.active);
    RankIs(r, q, k);
    RankIs(Join(r, i), q, k);
  }

  lemma EnterRanks(r: Ring, q: Pipe, p: Pipe)
    requires Good(r) && IsActive(r, q) && p !in r.items
    ensures Good(Enter(r, p)) && IsActive(Enter(r, p), q) && Rank(Enter(r, p), q) <= Rank(r, q) + 1
    ensures Enter(r, p).items[r.current] == r.items[r.current]
  {
    var k :| 0 <= k < |r.items| && k < r.active && r.items[k] == q;
    var s := r.(items := r.items + [p]);
    assert s.items[k] == q;
    RankIs(r, q, k);
    RankIs(s, q, k);
    JoinRanks(s, q, |r.items|);
  }

  /** When another pipe leaves, the pipe whose turn it is keeps its turn, except when it sits
      in the last active place and takes the place of the leaving pipe, unless that is the first. */
  lemma TurnAfterLeave(r: Ring, i: nat)
    requires Good(r) && r.active > 0 && i < |r.items| && i != r.current
    ensures Good(Leave(r, i)) && Leave(r, i).active > 0
    ensures Leave(r, i).items[Leave(r, i).current] == r.items[r.current]
            <==> !(0 < i < r.active && r.current == r.active - 1)
  {
    if i < r.active {
      SwapPermutes(r.items, i, r.active - 1);
      EraseUpto(Swapped(r.items, i, r.active - 1), r.active - 1);
    } else {
      EraseUpto(r.items, i);
    }
  }

  /** The leaving of the pipe at place `i` puts this one behind others: it is in the last active
      place, and takes a place before the turn, other than the first. */
  ghost predicate PutsBack(r: Ring, i: nat, q: Pipe)
    requires r.active <= |r.items|
  {
    0 < i < r.active && i < r.current && r.items[r.active - 1] == q
  }

  /** Another pipe's leaving delays a waiting pipe exactly in this case, by as many turns as
      there were places before the leaving pipe. */
  lemma LeaveRanks(r: Ring, i: nat, q: Pipe)
    requires Good(r) && IsActive(r, q) && i < |r.items| && r.items[i] != q
    ensures Good(Leave(r, i)) && IsActive(Leave(r, i), q)
    ensures Rank(Leave(r, i), q) > Rank(r, q) <==> PutsBack(r, i, q)
    ensures PutsBack(r, i, q) ==> Rank(Leave(r, i), q) == Rank(r, q) + i
  {
    var k :| 0 <= k < |r.items| && k < r.active && r.items[k] == q;
    RankIs(r, q, k);
    if i < r.active {
      ActiveLeaves(r, i, k);
    } else {
      EraseUpto(r.items, i);
      RankIs(Leave(r, i), q, k);
    }
  }

  /** The last active pipe takes the place of the leaving one. */
  lemma ActiveLeaves(r: Ring, i: nat, k: nat)
    requires Good(r) && i < r.active && k < r.active && i != k
    ensures var l, j := Leave(r, i), if k == r.active - 1 then i else k;
            Good(l) && IsActive(l, r.items[k]) && j < l.active && Rank(l, r.items[k]) == RankAt(l, j)
  {
    SwapPermutes(r.items, i, r.active - 1);
    EraseUpto(Swapped(r.items, i, r.active - 1), r.active - 1);
    RankIs(Leave(r, i), r.items[k], if k == r.active - 1 then i else k);
  }

  /** Where the pipe at a place was before another one left. */
  function Came(r: Ring, i: nat, k: nat): nat
    requires i < |r.items| && r.active <= |r.items|
  {
    if i < r.active then
      if k == i && k < r.active - 1 then r.active - 1 else if k == r.active - 1 then |r.items| - 1 else k
    else if k == i then |r.items| - 1 else k
  }

  lemma Left(r: Ring, i: nat)
    requires Good(r) && i < |r.items|
    ensures Good(Leave(r, i)) && |Leave(r, i).items| == |r.items| - 1
    ensures forall k :: 0 <= k < |r.items| - 1 ==> Leave(r, i).items[k] == r.items[Came(r, i, k)] && Came(r, i, k) != i
  {
    if i < r.active {
      SwapPermutes(r.items, i, r.active - 1);
      EraseUpto(Swapped(r.items, i, r.active - 1), r.active - 1);
    } else {
      EraseUpto(r.items, i);
    }
  }

  /** All the others stay. */
  lemma OthersStay(r: Ring, i: nat, p: Pipe)
    requires Good(r) && i < |r.items| && r.items[i] != p && p in r.items
    ensures p in Leave(r, i).items
  {
    var k :| 0 <= k < |r.items| && r.items[k] == p;
    Left(r, i);
    var l := Leave(r, i).items;
    var gap, back := if i < r.active then r.active - 1 else i, |r.items| - 1;
    var j := if k == gap then i else if k == back then gap else k;
    assert Came(r, i, j) == k;
    assert l[j] == p;
  }
}
