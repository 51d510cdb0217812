/** Multipart messages, and what a pipe's log of them must look like. */
module Parts {
  /** One part of a message: which message, which part of it, and whether more parts follow. */
  datatype Part = Part(message: nat, position: nat, more: bool)

  /** What may come right after a part: the next part of its message, or the first of another. */
  predicate Follows(before: Part, part: Part) {
    if before.more then part.message == before.message && part.position == before.position + 1
    else part.position == 0
  }

  /** The part may come next in the log. */
  predicate Fits(log: seq<Part>, part: Part) {
    if log == [] then part.position == 0 else Follows(log[|log| - 1], part)
  }

  /** Message after message, with all their parts in order; only the last may be unfinished. */
  ghost predicate Orderly(log: seq<Part>) {
    forall i :: 0 <= i < |log| ==> Fits(log[..i], log[i])
  }

  /** The parts of one message, from the first to the last. */
  ghost predicate IsMessage(parts: seq<Part>) {
    && parts != []
    && forall i :: 0 <= i < |parts| ==> parts[i] == Part(parts[0].message, i, i < |parts| - 1)
  }

  /** Nothing but whole messages, one after the other. */
  ghost predicate WholeMessages(log: seq<Part>) {
    log == [] || exists n :: 0 <= n < |log| && IsMessage(log[n..]) && WholeMessages(log[..n])
  }

  /** How far the log consists of whole messages. */
  ghost function Complete(log: seq<Part>): (n: nat)
    ensures n <= |log|
  {
    if log == [] then 0 else if !log[|log| - 1].more then |log| else Complete(log[..|log| - 1])
  }

  lemma OneMorePart(log: seq<Part>, part: Part)
    requires Orderly(log) && Fits(log, part)
    ensures Orderly(log + [part])
    ensures Complete(log + [part]) == if part.more then Complete(log) else |log| + 1
  {
    var next := log + [part];
    assert next[..|log|] == log && next[|log|] == part;
    forall i | 0 <= i < |next| ensures Fits(next[..i], next[i]) {
      assert i < |log| ==> next[i] == log[i] && next[..i] == log[..i];
    }
  }

  lemma PrefixOrderly(log: seq<Part>, n: nat)
    requires Orderly(log) && n <= |log|
    ensures Orderly(log[..n])
  {
    forall i | 0 <= i < n ensures Fits(log[..n][..i], log[..n][i]) {
      assert log[..n][..i] == log[..i];
    }
  }

  /** The parts before the last one of a log are the earlier ones of its message. */
  lemma {:induction false} EarlierParts(log: seq<Part>, j: nat)
    requires Orderly(log) && log != [] && j <= log[|log| - 1].position
    ensures j < |log|
    ensures log[|log| - 1 - j].message == log[|log| - 1].message
    ensures log[|log| - 1 - j].position == log[|log| - 1].position - j
    ensures j > 0 ==> log[|log| - 1 - j].more
  {
    if j == 0 {
    } else {
      EarlierParts(log, j - 1);
      var k := |log| - j;
      assert Fits(log[..k], log[k]);
      assert k > 0;
      assert log[..k][k - 1] == log[k - 1];
    }
  }

  /** An orderly log consists of whole messages exactly when it does not end in the middle of one. */
  lemma {:induction false} WholeExactly(log: seq<Part>)
    requires Orderly(log)
    ensures WholeMessages(log) <==> log == [] || !log[|log| - 1].more
    decreases |log|
  {
    if log == [] {
    } else if log[|log| - 1].more {
      forall k | 0 <= k < |log| ensures !IsMessage(log[k..]) {
        assert log[k..][|log| - k - 1] == log[|log| - 1];
      }
    } else {
      LastMessage(log);
      var k := |log| - 1 - log[|log| - 1].position;
      PrefixOrderly(log, k);
      WholeExactly(log[..k]);
    }
  }

  /** The message that ends a log, and what is before it. */
  lemma LastMessage(log: seq<Part>)
    requires Orderly(log) && log != [] && !log[|log| - 1].more
    ensures var k := |log| - 1 - log[|log| - 1].position;
            0 <= k && IsMessage(log[k..]) && (k > 0 ==> !log[k - 1].more)
  {
    EarlierParts(log, log[|log| - 1].position);
    var k := |log| - 1 - log[|log| - 1].position;
    forall i | 0 <= i < |log| - k ensures log[k..][i] == Part(log[k..][0].message, i, i < |log| - k - 1) {
      EarlierParts(log, |log| - 1 - k - i);
    }
    assert Fits(log[..k], log[k]);
  }

  /** The complete part of an orderly log is the longest prefix of whole messages. */
  lemma {:induction false} CompleteIsWhole(log: seq<Part>)
    requires Orderly(log)
    ensures WholeMessages(log[..Complete(log)])
    ensures Orderly(log[..Complete(log)]) && Complete(log[..Complete(log)]) == Complete(log)
    decreases |log|
  {
    if log == [] || !log[|log| - 1].more {
      assert log[..|log|] == log;
      WholeExactly(log);
    } else {
      var shorter := log[..|log| - 1];
      PrefixOrderly(log, |log| - 1);
      CompleteIsWhole(shorter);
      assert shorter[..Complete(shorter)] == log[..Complete(log)];
    }
  }

  lemma {:induction false} LongerIsNotWhole(log: seq<Part>, n: nat)
    requires Orderly(log) && Complete(log) < n <= |log|
    ensures !WholeMessages(log[..n])
    decreases |log|
  {
    PrefixOrderly(log, n);
    WholeExactly(log[..n]);
    if n == |log| {
      assert log[..n] == log;
    } else {
      PrefixOrderly(log, |log| - 1);
      LongerIsNotWhole(log[..|log| - 1], n);
      assert log[..|log| - 1][..n] == log[..n];
    }
  }

  lemma {:induction false} WholeIsOrderly(log: seq<Part>)
    requires WholeMessages(log)
    ensures Orderly(log)
    ensures log == [] || !log[|log| - 1].more
    decreases |log|
  {
    if log == [] {
    } else {
      var n :| 0 <= n < |log| && IsMessage(log[n..]) && WholeMessages(log[..n]);
      WholeIsOrderly(log[..n]);
      forall i | 0 <= i < |log| ensures Fits(log[..i], log[i]) {
        if i < n {
          assert log[..n][..i] == log[..i] && log[..n][i] == log[i];
        } else {
          assert log[n..][i - n] == log[i];
          assert i > 0 ==> log[..i][i - 1] == if i > n then log[n..][i - n - 1] else log[..n][i - 1];
        }
      }
      assert log[|log| - 1] == log[n..][|log| - n - 1];
    }
  }

  /** A message without its end, followed by another. */
  lemma GapIsNotWhole(log: seq<Part>, t: nat)
    requires 0 < t < |log| && log[t - 1].more && log[t].position == 0
    ensures !WholeMessages(log)
  {
    assert log[..t][t - 1] == log[t - 1];
    assert !Fits(log[..t], log[t]);
    if WholeMessages(log) {
      WholeIsOrderly(log);
    }
  }

  /** How many messages were finished in a log of parts, each with the pipe it came from or went to. */
  ghost function Finished(log: seq<(nat, Part)>): nat {
    if log == [] then 0 else (if log[0].1.more then 0 else 1) + Finished(log[1..])
  }

  lemma {:induction false} FinishedAppend(a: seq<(nat, Part)>, b: seq<(nat, Part)>)
    ensures Finished(a + b) == Finished(a) + Finished(b)
  {
    if a == [] {
      assert a + b == b;
    } else {
      assert (a + b)[1..] == a[1..] + b;
      FinishedAppend(a[1..], b);
    }
  }
}
