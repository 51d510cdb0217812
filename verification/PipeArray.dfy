/** The array of pipes that knows where each of its pipes is. */
module PipeArrays {
  import opened Basics

  ghost predicate Distinct(s: seq<Pipe>) {
    forall i, j :: 0 <= i < j < |s| ==> s[i] != s[j]
  }

  /** The pipes in the first `n` places. */
  ghost function Upto(s: seq<Pipe>, n: nat): set<Pipe>
    requires n <= |s|
  {
    set i | 0 <= i < n :: s[i]
  }

  function Swapped(s: seq<Pipe>, i: nat, j: nat): seq<Pipe>
    requires i < |s| && j < |s|
  {
    s[i := s[j]][j := s[i]]
  }

  lemma SwapSymmetric(s: seq<Pipe>, i: nat, j: nat)
    requires i < |s| && j < |s|
    ensures Swapped(s, i, j) == Swapped(s, j, i)
  {}

  lemma SwapPermutes(s: seq<Pipe>, i: nat, j: nat)
    requires i < |s| && j < |s| && Distinct(s)
    ensures Distinct(Swapped(s, i, j)) && Upto(Swapped(s, i, j), |s|) == Upto(s, |s|)
  {
    var t := Swapped(s, i, j);
    forall p ensures p in Upto(t, |s|) <==> p in Upto(s, |s|) {
      if k :| 0 <= k < |s| && s[k] == p {
        assert t[if k == i then j else if k == j then i else k] == p;
      }
      if k :| 0 <= k < |s| && t[k] == p {
        assert s[if k == i then j else if k == j then i else k] == p;
      }
    }
  }

  /** A swap across the border at `n` exchanges one pipe for another below it; any other
      swap changes nothing there. */
  lemma SwapUpto(s: seq<Pipe>, i: nat, j: nat, n: nat)
    requires i < |s| && j < |s| && n <= |s| && Distinct(s)
    ensures (i < n <==> j < n) ==> Upto(Swapped(s, i, j), n) == Upto(s, n)
    ensures i < n <= j ==> Upto(Swapped(s, i, j), n) == Upto(s, n) - {s[i]} + {s[j]}
    ensures j < n <= i ==> Upto(Swapped(s, i, j), n) == Upto(s, n) - {s[j]} + {s[i]}
  {
    var t := Swapped(s, i, j);
    if i < n <==> j < n {
      forall p ensures p in Upto(t, n) <==> p in Upto(s, n) {
        if k :| 0 <= k < n && s[k] == p {
          assert t[if k == i then j else if k == j then i else k] == p;
        }
        if k :| 0 <= k < n && t[k] == p {
          assert s[if k == i then j else if k == j then i else k] == p;
        }
      }
    } else {
      var a, b := if i < n then i else j, if i < n then j else i;
      forall p ensures p in Upto(t, n) <==> p in Upto(s, n) - {s[a]} + {s[b]} {
        assert t[a] == s[b];
        if k :| 0 <= k < n && s[k] == p && k != a {
          assert t[k] == p;
        }
        if k :| 0 <= k < n && t[k] == p && k != a {
          assert s[k] == p;
        }
      }
    }
  }

  /** Moving a pipe to the border at `n`, which then moves behind it. */
  lemma SwapIn(s: seq<Pipe>, i: nat, n: nat)
    requires n <= i < |s| && Distinct(s)
    ensures Distinct(Swapped(s, i, n)) && Swapped(s, n, i) == Swapped(s, i, n)
    ensures Upto(Swapped(s, i, n), n + 1) == Upto(s, n) + {s[i]}
    ensures forall m: nat :: m <= n || i < m <= |s| ==> Upto(Swapped(s, i, n), m) == Upto(s, m)
  {
    SwapUpto(s, i, n, n);
    SwapPermutes(s, i, n);
    assert Swapped(s, i, n)[n] == s[i];
    UptoNext(Swapped(s, i, n), n);
    forall m: nat | m <= n || i < m <= |s| ensures Upto(Swapped(s, i, n), m) == Upto(s, m) {
      SwapUpto(s, i, n, m);
    }
  }

  /** Moving a pipe to the border at `n`, which then moves before it. */
  lemma SwapOut(s: seq<Pipe>, i: nat, n: nat)
    requires i < n <= |s| && Distinct(s)
    ensures Distinct(Swapped(s, i, n - 1)) && Swapped(s, i, n - 1)[n - 1] == s[i]
    ensures Upto(Swapped(s, i, n - 1), n - 1) == Upto(s, n) - {s[i]}
    ensures forall m: nat :: m <= i || n <= m <= |s| ==> Upto(Swapped(s, i, n - 1), m) == Upto(s, m)
  {
    SwapUpto(s, i, n - 1, n);
    SwapPermutes(s, i, n - 1);
    UptoNext(Swapped(s, i, n - 1), n - 1);
    forall m: nat | m <= i || n <= m <= |s| ensures Upto(Swapped(s, i, n - 1), m) == Upto(s, m) {
      SwapUpto(s, i, n - 1, m);
    }
  }

  lemma UptoNext(s: seq<Pipe>, n: nat)
    requires n < |s| && Distinct(s)
    ensures Upto(s, n + 1) == Upto(s, n) + {s[n]} && s[n] !in Upto(s, n)
  {}

  lemma UptoAppend(s: seq<Pipe>, p: Pipe)
    requires Distinct(s) && p !in s
    ensures Distinct(s + [p]) && Upto(s + [p], |s| + 1) == Upto(s, |s|) + {p}
    ensures forall m: nat :: m <= |s| ==> Upto(s + [p], m) == Upto(s, m)
  {
    UptoNext(s + [p], |s|);
    assert forall i :: 0 <= i < |s| ==> (s + [p])[i] == s[i];
  }

  lemma UptoMonotone(s: seq<Pipe>, m: nat, n: nat)
    requires m <= n <= |s|
    ensures Upto(s, m) <= Upto(s, n)
  {}

  function Erased(s: seq<Pipe>, i: nat): seq<Pipe>
    requires i < |s|
  {
    s[i := s[|s| - 1]][..|s| - 1]
  }

  lemma EraseUpto(s: seq<Pipe>, i: nat)
    requires i < |s| && Distinct(s)
    ensures Distinct(Erased(s, i)) && Upto(Erased(s, i), |s| - 1) == Upto(s, |s|) - {s[i]}
    ensures forall m: nat :: m <= i ==> Upto(Erased(s, i), m) == Upto(s, m)
  {
    SwapOut(s, i, |s|);
    var t := Swapped(s, i, |s| - 1);
    var e := Erased(s, i);
    assert forall k :: 0 <= k < |e| ==> e[k] == t[k];
    assert forall m: nat :: m <= |e| ==> Upto(e, m) == Upto(t, m);
  }

  lemma UptoPrefix(s: seq<Pipe>, t: seq<Pipe>, n: nat)
    requires n <= |s| && n <= |t| && s[..n] == t[..n]
    ensures Upto(s, n) == Upto(t, n)
  {
    assert forall i :: 0 <= i < n ==> s[i] == s[..n][i] == t[..n][i] == t[i];
  }

  lemma InAll(s: seq<Pipe>, p: Pipe)
    ensures p in s <==> p in Upto(s, |s|)
  {}

  lemma InUpto(s: seq<Pipe>, i: nat, n: nat)
    requires Distinct(s) && i < |s| && n <= |s|
    ensures s[i] in Upto(s, n) <==> i < n
  {}

  class PipeArray {
    var items: seq<Pipe>
    var index: map<Pipe, nat>   // the place stored in each pipe

    ghost predicate Valid()
      reads this
    {
      forall i :: 0 <= i < |items| ==> items[i] in index && index[items[i]] == i
    }

    constructor ()
      ensures Valid() && items == []
    {
      items, index := [], map[];
    }

    /** The stored places make every pipe occur once. */
    lemma PlacesAreUnique()
      requires Valid()
      ensures Distinct(items)
    {}

    function Index(p: Pipe): (i: nat)
      requires Valid() && p in items
      reads this
      ensures i < |items| && items[i] == p
    {
      index[p]
    }

    method PushBack(p: Pipe)
      requires Valid() && p !in items
      modifies this
      ensures Valid() && items == old(items) + [p]
    {
      index := index[p := |items|];
      items := items + [p];
    }

    /** Adds the pipe at the border at `n`: the places before it and the whole array gain just that pipe. */
    method PushTo(p: Pipe, n: nat)
      requires Valid() && p !in items && n <= |items|
      modifies this
      ensures Valid() && Distinct(items) && |items| == old(|items|) + 1
      ensures Upto(items, n + 1) == Upto(old(items), n) + {p}
      ensures Upto(items, |items|) == Upto(old(items), |old(items)|) + {p}
      ensures forall m: nat :: m <= n ==> Upto(items, m) == Upto(old(items), m)
    {
      ghost var s, t := items, items + [p];
      UptoAppend(s, p);
      SwapIn(t, |s|, n);
      PushBack(p);
      Swap(n, |items| - 1);
    }

    /** The last pipe takes the place of the erased one. */
    method Erase(p: Pipe)
      requires Valid() && p in items
      modifies this
      ensures Valid() && items == Erased(old(items), old(Index(p)))
    {
      var i, back := index[p], items[|items| - 1];
      index := index[back := i];
      items := items[i := back];
      items := items[..|items| - 1];
    }

    /** Erasing a pipe behind the border at `n` leaves the places before it alone. */
    method EraseBehind(p: Pipe, n: nat)
      requires Valid() && Distinct(items) && p in items && n <= Index(p)
      modifies this
      ensures Valid() && Distinct(items) && |items| == old(|items|) - 1
      ensures Upto(items, |items|) == Upto(old(items), |old(items)|) - {p}
      ensures forall m: nat :: m <= n ==> Upto(items, m) == Upto(old(items), m)
    {
      EraseUpto(items, Index(p));
      Erase(p);
    }

    method Swap(i: nat, j: nat)
      requires Valid() && i < |items| && j < |items|
      modifies this
      ensures Valid() && items == Swapped(old(items), i, j)
    {
      index := index[items[i] := j];
      index := index[items[j] := i];
      items := items[i := items[j]][j := items[i]];
    }
  }
}
