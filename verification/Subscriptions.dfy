/** The subscription trie, updated in place.  Its meaning is a plain set of pairs of
    a prefix and a pipe subscribed to it. */
module Subscriptions {
  import opened Basics

  type Subscription = (seq<Byte>, Pipe)

  /** One step of the trie: what a node with these pipes and these children holds. */
  ghost predicate Listed(s: Subscription, pipes: set<Pipe>, kids: seq<set<Subscription>>)
    requires |kids| == 256
  {
    if s.0 == [] then s.1 in pipes else (s.0[1..], s.1) in kids[s.0[0]]
  }

  ghost predicate Denotes(subs: set<Subscription>, pipes: set<Pipe>, kids: seq<set<Subscription>>)
    requires |kids| == 256
  {
    forall s: Subscription :: s in subs <==> Listed(s, pipes, kids)
  }

  lemma DenotesUnique(a: set<Subscription>, b: set<Subscription>, pipes: set<Pipe>, kids: seq<set<Subscription>>)
    requires |kids| == 256 && Denotes(a, pipes, kids) && Denotes(b, pipes, kids)
    ensures a == b
  {
    assert forall s: Subscription :: s in a <==> Listed(s, pipes, kids);
  }

  /** The pair with prefix `p` is the pair with prefix `p[1..]` under the child `p[0]`. */
  lemma SamePair(s: Subscription, p: seq<Byte>, q: Pipe)
    requires s.0 != [] && p != []
    ensures s == (p, q) <==> s.0[0] == p[0] && (s.0[1..], s.1) == (p[1..], q)
  {
    assert p == [p[0]] + p[1..];
    assert s.0 == [s.0[0]] + s.0[1..];
  }

  lemma DenotesBelow(subs: set<Subscription>, pipes: set<Pipe>, kids: seq<set<Subscription>>, p: seq<Byte>, q: Pipe)
    requires |kids| == 256 && p != [] && Denotes(subs, pipes, kids)
    ensures Denotes(subs + {(p, q)}, pipes, kids[p[0] := kids[p[0]] + {(p[1..], q)}])
    ensures Denotes(subs - {(p, q)}, pipes, kids[p[0] := kids[p[0]] - {(p[1..], q)}])
  {
    var more := kids[p[0] := kids[p[0]] + {(p[1..], q)}];
    var less := kids[p[0] := kids[p[0]] - {(p[1..], q)}];
    forall s: Subscription
      ensures s in subs + {(p, q)} <==> Listed(s, pipes, more)
      ensures s in subs - {(p, q)} <==> Listed(s, pipes, less)
    {
      assert s in subs <==> Listed(s, pipes, kids);
      if s.0 != [] {
        SamePair(s, p, q);
      }
    }
  }

  lemma DenotesHere(subs: set<Subscription>, pipes: set<Pipe>, kids: seq<set<Subscription>>, q: Pipe)
    requires |kids| == 256 && Denotes(subs, pipes, kids)
    ensures Denotes(subs + {([], q)}, pipes + {q}, kids)
    ensures Denotes(subs - {([], q)}, pipes - {q}, kids)
  {
    forall s: Subscription
      ensures s in subs + {([], q)} <==> Listed(s, pipes + {q}, kids)
      ensures s in subs - {([], q)} <==> Listed(s, pipes - {q}, kids)
    {
      assert s in subs <==> Listed(s, pipes, kids);
    }
  }

  /** Everything but one pipe's subscriptions. */
  ghost function Without(subs: set<Subscription>, q: Pipe): set<Subscription> {
    set s | s in subs && s.1 != q
  }

  ghost function Graft(c: Byte, subs: set<Subscription>): set<Subscription> {
    set s | s in subs :: ([c] + s.0, s.1)
  }

  /** Replaces everything held under one child. */
  ghost function Regraft(subs: set<Subscription>, c: Byte, below: set<Subscription>): set<Subscription> {
    (set s | s in subs && (s.0 == [] || s.0[0] != c)) + Graft(c, below)
  }

  lemma InGraft(c: Byte, subs: set<Subscription>, s: Subscription)
    ensures s in Graft(c, subs) <==> s.0 != [] && s.0[0] == c && (s.0[1..], s.1) in subs
  {
    if s.0 != [] && s.0[0] == c {
      assert s.0 == [c] + s.0[1..];
      if (s.0[1..], s.1) in subs {
        assert ([c] + s.0[1..], s.1) in Graft(c, subs);
      }
      if s in Graft(c, subs) {
        var t :| t in subs && s == ([c] + t.0, t.1);
        assert ([c] + t.0)[1..] == t.0;
      }
    }
  }

  lemma DenotesRegraft(subs: set<Subscription>, pipes: set<Pipe>, kids: seq<set<Subscription>>,
                       c: Byte, below: set<Subscription>)
    requires |kids| == 256 && Denotes(subs, pipes, kids)
    ensures Denotes(Regraft(subs, c, below), pipes, kids[c := below])
  {
    forall s: Subscription ensures s in Regraft(subs, c, below) <==> Listed(s, pipes, kids[c := below]) {
      assert s in subs <==> Listed(s, pipes, kids);
      InGraft(c, below, s);
    }
  }

  /** A node has lost all of a pipe once it and all its children have. */
  lemma DenotesWithout(subs: set<Subscription>, pipes: set<Pipe>, kids: seq<set<Subscription>>,
                       q: Pipe, less: seq<set<Subscription>>)
    requires |kids| == 256 == |less| && Denotes(subs, pipes, kids)
    requires forall b :: 0 <= b < 256 ==> less[b] == Without(kids[b], q)
    ensures Denotes(Without(subs, q), pipes - {q}, less)
  {
    forall s: Subscription ensures s in Without(subs, q) <==> Listed(s, pipes - {q}, less) {
      assert s in subs <==> Listed(s, pipes, kids);
    }
  }

  /** Lexicographic order, byte by byte, a proper prefix first. */
  predicate Before(a: seq<Byte>, b: seq<Byte>) {
    b != [] && (a == [] || a[0] < b[0] || (a[0] == b[0] && Before(a[1..], b[1..])))
  }

  predicate Ascending(l: seq<seq<Byte>>) {
    forall i, j :: 0 <= i < j < |l| ==> Before(l[i], l[j])
  }

  lemma {:induction false} BeforeIsStrict(a: seq<Byte>, b: seq<Byte>)
    requires Before(a, b)
    ensures !Before(b, a) && a != b
    decreases |a|
  {
    if a == [] || a[0] != b[0] {
    } else {
      BeforeIsStrict(a[1..], b[1..]);
    }
  }

  /** A strictly ascending list is determined by its members, so the order and the
      number of the callbacks follow from which prefixes they are made for. */
  lemma {:induction false} AscendingIsUnique(l: seq<seq<Byte>>, m: seq<seq<Byte>>)
    requires Ascending(l) && Ascending(m)
    requires forall p :: p in l <==> p in m
    ensures l == m
    decreases |l|
  {
    assert m != [] ==> m[0] in m;
    assert l != [] ==> l[0] in l;
    if l == [] {
    } else {
      SameFirst(l, m);
      forall p ensures p in l[1..] <==> p in m[1..] {
        NotAgain(l);
        NotAgain(m);
        assert p in l <==> p == l[0] || p in l[1..];
        assert p in m <==> p == m[0] || p in m[1..];
      }
      AscendingIsUnique(l[1..], m[1..]);
      assert l == [l[0]] + l[1..];
      assert m == [m[0]] + m[1..];
    }
  }

  lemma SameFirst(l: seq<seq<Byte>>, m: seq<seq<Byte>>)
    requires Ascending(l) && Ascending(m) && l != [] && m != [] && l[0] in m && m[0] in l
    ensures l[0] == m[0]
  {
    var i :| 0 <= i < |m| && m[i] == l[0];
    var j :| 0 <= j < |l| && l[j] == m[0];
    assert i == 0 || Before(m[0], l[0]);
    assert j == 0 || Before(l[0], m[0]);
    if i != 0 && j != 0 {
      BeforeIsStrict(m[0], l[0]);
    }
  }

  lemma NotAgain(l: seq<seq<Byte>>)
    requires Ascending(l) && l != []
    ensures l[0] !in l[1..]
  {
    if l[0] in l[1..] {
      var i :| 0 <= i < |l[1..]| && l[1..][i] == l[0];
      assert Before(l[0], l[i + 1]);
      BeforeIsStrict(l[0], l[i + 1]);
    }
  }

  /** Is a callback due for this prefix when the pipe leaves?  With `uniq`, only if no other pipe stays. */
  ghost predicate Affected(subs: set<Subscription>, p: seq<Byte>, q: Pipe, uniq: bool) {
    (p, q) in subs && (uniq ==> forall r: Pipe :: (p, r) in subs ==> r == q)
  }

  function Under(path: seq<Byte>, l: seq<seq<Byte>>): seq<seq<Byte>> {
    seq(|l|, i requires 0 <= i < |l| => path + l[i])
  }

  lemma UnderUnder(path: seq<Byte>, c: Byte, l: seq<seq<Byte>>)
    ensures Under(path + [c], l) == Under(path, Under([c], l))
  {
    assert forall i :: 0 <= i < |l| ==> (path + [c]) + l[i] == path + ([c] + l[i]);
  }

  lemma UnderKeepsOrder(c: Byte, l: seq<seq<Byte>>)
    requires Ascending(l)
    ensures Ascending(Under([c], l))
  {
    forall i, j | 0 <= i < j < |l| ensures Before(Under([c], l)[i], Under([c], l)[j]) {
      assert ([c] + l[i])[1..] == l[i] && ([c] + l[j])[1..] == l[j];
    }
  }

  lemma InUnder(c: Byte, l: seq<seq<Byte>>, p: seq<Byte>)
    ensures p in Under([c], l) <==> p != [] && p[0] == c && p[1..] in l
  {
    if p != [] && p[0] == c && p[1..] in l {
      var i :| 0 <= i < |l| && l[i] == p[1..];
      assert Under([c], l)[i] == p;
    }
    if p in Under([c], l) {
      var i :| 0 <= i < |l| && p == [c] + l[i];
      assert p[1..] == l[i];
    }
  }

  /** How many of the first `k` prefixes of the data (the empty one first) the pipe subscribed to. */
  ghost function Hits(subs: set<Subscription>, data: seq<Byte>, k: nat, q: Pipe): nat
    requires k <= |data| + 1
  {
    if k == 0 then 0 else Hits(subs, data, k - 1, q) + (if (data[..k - 1], q) in subs then 1 else 0)
  }

  lemma {:induction false} HitsSomewhere(subs: set<Subscription>, data: seq<Byte>, k: nat, q: Pipe)
    requires k <= |data| + 1
    ensures Hits(subs, data, k, q) > 0 <==> exists j :: 0 <= j < k && (data[..j], q) in subs
  {
    if k == 0 {
    } else {
      HitsSomewhere(subs, data, k - 1, q);
      if (data[..k - 1], q) in subs {
        assert 0 <= k - 1 < k;
      }
    }
  }

  lemma {:induction false} NoHitsAbove(subs: set<Subscription>, data: seq<Byte>, k: nat, n: nat, q: Pipe)
    requires k <= n <= |data| + 1
    requires forall j :: k <= j < n ==> (data[..j], q) !in subs
    ensures Hits(subs, data, n, q) == Hits(subs, data, k, q)
    decreases n
  {
    if k == n {
    } else {
      NoHitsAbove(subs, data, k, n - 1, q);
    }
  }

  /** Others have the subscription, and this pipe does not. */
  ghost predicate Foreign(subs: set<Subscription>, prefix: seq<Byte>, pipe: Pipe) {
    (exists q: Pipe :: (prefix, q) in subs) && (prefix, pipe) !in subs
  }

  /** Is the prefix, or a longer one, subscribed by anyone? */
  ghost predicate Reaches(subs: set<Subscription>, p: seq<Byte>) {
    exists s :: s in subs && p <= s.0
  }

  lemma ReachesBelow(subs: set<Subscription>, pipes: set<Pipe>, kids: seq<set<Subscription>>, p: seq<Byte>)
    requires |kids| == 256 && p != [] && Denotes(subs, pipes, kids)
    ensures Reaches(subs, p) <==> Reaches(kids[p[0]], p[1..])
  {
    if Reaches(subs, p) {
      var s :| s in subs && p <= s.0;
      assert Listed(s, pipes, kids);
      assert (s.0[1..], s.1) in kids[p[0]];
    }
    if Reaches(kids[p[0]], p[1..]) {
      var t :| t in kids[p[0]] && p[1..] <= t.0;
      var s := ([p[0]] + t.0, t.1);
      assert s.0[1..] == t.0;
      assert Listed(s, pipes, kids);
    }
  }

  lemma AffectedBelow(subs: set<Subscription>, pipes: set<Pipe>, kids: seq<set<Subscription>>,
                      p: seq<Byte>, q: Pipe, uniq: bool)
    requires |kids| == 256 && p != [] && Denotes(subs, pipes, kids)
    ensures Affected(subs, p, q, uniq) <==> Affected(kids[p[0]], p[1..], q, uniq)
  {
    forall r: Pipe ensures (p, r) in subs <==> (p[1..], r) in kids[p[0]] {
      assert (p, r) in subs <==> Listed((p, r), pipes, kids);
    }
  }

  /** The callbacks for the prefixes that are empty or start below byte `hi`, in order. */
  ghost predicate Reported(rel: seq<seq<Byte>>, subs: set<Subscription>, q: Pipe, uniq: bool, hi: int) {
    && Ascending(rel)
    && forall p: seq<Byte> :: p in rel <==> Affected(subs, p, q, uniq) && (p == [] || p[0] < hi)
  }

  /** The callbacks of one child come after those of the children before it. */
  lemma ReportedNext(rel: seq<seq<Byte>>, subs: set<Subscription>, pipes: set<Pipe>, kids: seq<set<Subscription>>,
                     c: Byte, r: seq<seq<Byte>>, q: Pipe, uniq: bool)
    requires |kids| == 256 && Denotes(subs, pipes, kids)
    requires Reported(rel, subs, q, uniq, c) && Reported(r, kids[c], q, uniq, 256)
    ensures Reported(rel + Under([c], r), subs, q, uniq, c + 1)
  {
    var next := rel + Under([c], r);
    UnderKeepsOrder(c, r);
    forall i, j | 0 <= i < j < |next| ensures Before(next[i], next[j]) {
      if i < |rel| <= j {
        assert next[i] in rel && next[j] in Under([c], r);
        InUnder(c, r, next[j]);
      } else if |rel| <= i {
        assert Before(Under([c], r)[i - |rel|], Under([c], r)[j - |rel|]);
      }
    }
    forall p: seq<Byte> ensures p in next <==> Affected(subs, p, q, uniq) && (p == [] || p[0] < c + 1) {
      InUnder(c, r, p);
      assert p in next <==> p in rel || p in Under([c], r);
      if p != [] {
        AffectedBelow(subs, pipes, kids, p, q, uniq);
      }
    }
  }

  lemma ReportedNothing(rel: seq<seq<Byte>>, subs: set<Subscription>, pipes: set<Pipe>, kids: seq<set<Subscription>>,
                        q: Pipe, uniq: bool, lo: int, hi: int)
    requires |kids| == 256 && Denotes(subs, pipes, kids) && lo <= hi
    requires Reported(rel, subs, q, uniq, lo)
    requires forall b: Byte :: lo <= b < hi ==> kids[b] == {}
    ensures Reported(rel, subs, q, uniq, hi)
  {
    forall p: seq<Byte> | p != [] && lo <= p[0] < hi ensures !Affected(subs, p, q, uniq) {
      AffectedBelow(subs, pipes, kids, p, q, uniq);
    }
  }

  /** The callback of the node itself comes first. */
  lemma ReportedHere(rel: seq<seq<Byte>>, subs: set<Subscription>, pipes: set<Pipe>, kids: seq<set<Subscription>>,
                     q: Pipe, uniq: bool)
    requires |kids| == 256 && Denotes(subs, pipes, kids)
    requires rel == if q in pipes && (uniq ==> pipes - {q} == {}) then [[]] else []
    ensures Reported(rel, subs, q, uniq, 0)
  {
    forall r: Pipe ensures ([], r) in subs <==> r in pipes {
      assert ([], r) in subs <==> Listed(([], r), pipes, kids);
    }
    if pipes - {q} != {} {
      var r :| r in pipes - {q};
      assert ([], r) in subs;
    }
    assert forall r :: r in pipes ==> r == q || r in pipes - {q};
  }

  lemma ReportedOnly(rel: seq<seq<Byte>>, subs: set<Subscription>, pipes: set<Pipe>, kids: seq<set<Subscription>>,
                     c: Byte, r: seq<seq<Byte>>, q: Pipe, uniq: bool)
    requires |kids| == 256 && Denotes(subs, pipes, kids) && forall b: Byte :: b != c ==> kids[b] == {}
    requires Reported(rel, subs, q, uniq, 0) && Reported(r, kids[c], q, uniq, 256)
    ensures Reported(rel + Under([c], r), subs, q, uniq, 256)
  {
    ReportedNothing(rel, subs, pipes, kids, q, uniq, 0, c);
    ReportedNext(rel, subs, pipes, kids, c, r, q, uniq);
    var last: int := c;
    ReportedNothing(rel + Under([c], r), subs, pipes, kids, q, uniq, last + 1, 256);
  }

  /** The children below byte `hi` have lost the pipe, the others are as they were. */
  ghost predicate Cleared(was: seq<set<Subscription>>, kids: seq<set<Subscription>>, q: Pipe, hi: int)
    requires |was| == 256 == |kids|
  {
    forall b: Byte :: kids[b] == if b < hi then Without(was[b], q) else was[b]
  }

  lemma ClearedNext(was: seq<set<Subscription>>, kids: seq<set<Subscription>>, q: Pipe, c: Byte)
    requires |was| == 256 == |kids| && Cleared(was, kids, q, c)
    ensures kids[c] == was[c] && Cleared(was, kids[c := Without(was[c], q)], q, c + 1)
  {}
}
