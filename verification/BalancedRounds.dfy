/** Round-robin selection that stops at a limit: which part of every queue it takes.
    Wherever the rounds stop, every queue has given the same number of items, and the first few
    queues one more; all that is said about balance follows from this.
    The loop with its early exit is proved to take exactly the first items of the flattened
    queues. */
module BalancedRounds {
  import opened QueueMerge
  import opened RoundRobin

  function Least(a: nat, b: nat): nat {
    if a < b then a else b
  }

  /** The first `limit` items taken in rounds. */
  function FirstRounds<T>(queues: seq<seq<T>>, limit: nat): (r: seq<T>)
    ensures |r| == Least(limit, |Flattened(queues)|)
  {
    Flattened(queues)[..Least(limit, |Flattened(queues)|)]
  }

  /** Every queue has given `round` items, and the first `position` of them one more. */
  function StoppedAt<T>(queues: seq<seq<T>>, round: nat, position: nat): seq<T>
    requires position <= |queues|
  {
    Columns(queues, round) + Column(queues[..position], round)
  }

  ghost predicate IsStopAt<T>(queues: seq<seq<T>>, round: nat, position: nat, s: seq<T>) {
    position <= |queues| && s == StoppedAt(queues, round, position)
  }

  lemma {:induction false} ColumnPrefix<T>(queues: seq<seq<T>>, offset: nat, n: nat) returns (p: nat)
    requires n <= |Column(queues, offset)|
    ensures p <= |queues| && Column(queues[..p], offset) == Column(queues, offset)[..n]
  {
    if n == |Column(queues, offset)| {
      p := |queues|;
      assert queues[..p] == queues;
    } else {
      var front := queues[..|queues| - 1];
      p := ColumnPrefix(front, offset, n);
      assert front[..p] == queues[..p];
    }
  }

  /** Wherever the rounds stop, there is such a round and position. */
  lemma {:induction false} EveryPrefixStops<T>(queues: seq<seq<T>>, count: nat, n: nat) returns (round: nat, position: nat)
    requires n <= |Columns(queues, count)|
    ensures IsStopAt(queues, round, position, Columns(queues, count)[..n])
  {
    if n == |Columns(queues, count)| {
      round, position := count, 0;
      assert queues[..0] == [];
    } else {
      var before, column := Columns(queues, count - 1), Column(queues, count - 1);
      assert Columns(queues, count) == before + column;
      if n <= |before| {
        round, position := EveryPrefixStops(queues, count - 1, n);
        assert (before + column)[..n] == before[..n];
      } else {
        round := count - 1;
        position := ColumnPrefix(queues, round, n - |before|);
        assert (before + column)[..n] == before + column[..n - |before|];
      }
    }
  }

  // ---------------------------------------------------------------- what each queue has given

  lemma {:induction false} FromBoth<T>(queueOf: T -> nat, b: nat, x: seq<T>, y: seq<T>)
    ensures From(queueOf, b, x + y) == From(queueOf, b, x) + From(queueOf, b, y)
  {
    if x == [] {
      assert x + y == y;
    } else {
      var head := if queueOf(x[0]) == b then [x[0]] else [];
      FromBoth(queueOf, b, x[1..], y);
      assert (x + y)[0] == x[0] && (x + y)[1..] == x[1..] + y;
      Associate(head, From(queueOf, b, x[1..]), From(queueOf, b, y));
    }
  }

  lemma Associate<T>(x: seq<T>, y: seq<T>, z: seq<T>)
    ensures x + (y + z) == (x + y) + z
  {
  }

  lemma {:induction false} ColumnGives<T>(queueOf: T -> nat, queues: seq<seq<T>>, n: nat, offset: nat, b: nat)
    requires Labelled(queueOf, queues) && n <= |queues| && b < |queues|
    ensures From(queueOf, b, Column(queues[..n], offset)) == if b < n && offset < |queues[b]| then [queues[b][offset]] else []
    decreases n
  {
    if n > 0 {
      var last := if offset < |queues[n - 1]| then [queues[n - 1][offset]] else [];
      assert queues[..n][..n - 1] == queues[..n - 1];
      assert Column(queues[..n], offset) == Column(queues[..n - 1], offset) + last;
      ColumnGives(queueOf, queues, n - 1, offset, b);
      FromBoth(queueOf, b, Column(queues[..n - 1], offset), last);
    }
  }

  lemma HeadNext<T>(q: seq<T>, count: nat)
    ensures Head(q, count + 1) == Head(q, count) + if count < |q| then [q[count]] else []
  {
  }

  lemma {:induction false} ColumnsGive<T>(queueOf: T -> nat, queues: seq<seq<T>>, count: nat, b: nat)
    requires Labelled(queueOf, queues) && b < |queues|
    ensures From(queueOf, b, Columns(queues, count)) == Head(queues[b], count)
  {
    if count > 0 {
      var n := count - 1;
      ColumnsGive(queueOf, queues, n, b);
      assert From(queueOf, b, Column(queues, n)) == if n < |queues[b]| then [queues[b][n]] else [] by {
        assert queues[..|queues|] == queues;
        ColumnGives(queueOf, queues, |queues|, n, b);
      }
      FromBoth(queueOf, b, Columns(queues, n), Column(queues, n));
      HeadNext(queues[b], n);
      assert Columns(queues, count) == Columns(queues, n) + Column(queues, n);
    }
  }

  lemma StopGives<T>(queueOf: T -> nat, queues: seq<seq<T>>, round: nat, position: nat, b: nat)
    requires Labelled(queueOf, queues) && position <= |queues| && b < |queues|
    ensures From(queueOf, b, StoppedAt(queues, round, position)) == Head(queues[b], if b < position then round + 1 else round)
  {
    var front, more := Columns(queues, round), Column(queues[..position], round);
    ColumnsGive(queueOf, queues, round, b);
    ColumnGives(queueOf, queues, position, round, b);
    FromBoth(queueOf, b, front, more);
    HeadNext(queues[b], round);
  }

  /** Of each queue a prefix, and no queue is more than one item ahead of one that has more to
      give; an earlier queue is never behind. */
  ghost predicate BalancedPrefixes<T>(queues: seq<seq<T>>, queueOf: T -> nat, r: seq<T>) {
    && (forall b: nat :: b < |queues| ==> From(queueOf, b, r) <= queues[b])
    && (forall f: nat, g: nat :: f < g < |queues| ==> Even(|queues[f]|, |From(queueOf, f, r)|, |queues[g]|, |From(queueOf, g, r)|))
  }

  /** An earlier queue of `size` that gave `given`, and a later one. */
  predicate Even(size: nat, given: nat, laterSize: nat, laterGiven: nat) {
    given >= Least(size, laterGiven) && laterGiven >= (if given == 0 then 0 else Least(laterSize, given - 1))
  }

  lemma {:induction false} ColumnIsShort<T>(queues: seq<seq<T>>, offset: nat)
    ensures |Column(queues, offset)| <= |queues|
  {
    if queues != [] {
      ColumnIsShort(queues[..|queues| - 1], offset);
    }
  }

  ghost predicate ReachesAll<T>(queues: seq<seq<T>>, queueOf: T -> nat, r: seq<T>) {
    forall b: nat :: b < |queues| ==> From(queueOf, b, r) != []
  }

  /** How many items queue `b` has given at a stop. */
  function Given(round: nat, position: nat, b: nat): nat {
    if b < position then round + 1 else round
  }

  ghost predicate Gave<T>(queues: seq<seq<T>>, queueOf: T -> nat, r: seq<T>, round: nat, position: nat) {
    forall b: nat :: b < |queues| ==> From(queueOf, b, r) == Head(queues[b], Given(round, position, b))
  }

  lemma GaveIsBalanced<T>(queues: seq<seq<T>>, queueOf: T -> nat, r: seq<T>, round: nat, position: nat)
    requires Gave(queues, queueOf, r, round, position)
    ensures BalancedPrefixes(queues, queueOf, r)
  {
    forall f: nat, g: nat | f < g < |queues| ensures Even(|queues[f]|, |From(queueOf, f, r)|, |queues[g]|, |From(queueOf, g, r)|) {
      assert From(queueOf, f, r) == Head(queues[f], Given(round, position, f));
      assert From(queueOf, g, r) == Head(queues[g], Given(round, position, g));
    }
  }

  lemma FirstRoundsAreBalanced<T>(queues: seq<seq<T>>, queueOf: T -> nat, limit: nat)
    requires Labelled(queueOf, queues) && forall b :: 0 <= b < |queues| ==> queues[b] != []
    ensures BalancedPrefixes(queues, queueOf, FirstRounds(queues, limit))
    ensures |queues| <= limit ==> ReachesAll(queues, queueOf, FirstRounds(queues, limit))
  {
    var r := FirstRounds(queues, limit);
    var round, position := EveryPrefixStops(queues, LongestQueue(queues), |r|);
    assert r == StoppedAt(queues, round, position);
    forall b: nat | b < |queues| ensures From(queueOf, b, r) == Head(queues[b], Given(round, position, b)) {
      StopGives(queueOf, queues, round, position, b);
    }
    GaveIsBalanced(queues, queueOf, r, round, position);
    if |queues| <= limit {
      if round == 0 {
        ColumnIsShort(queues[..position], 0);
        FirstRoundIsWhole(queues, limit);
      }
      forall b: nat | b < |queues| ensures From(queueOf, b, r) != [] {
        assert From(queueOf, b, r) == Head(queues[b], Given(round, position, b));
      }
    }
  }

  lemma {:induction false} FirstColumnIsWhole<T>(queues: seq<seq<T>>)
    requires forall b :: 0 <= b < |queues| ==> queues[b] != []
    ensures |Column(queues, 0)| == |queues|
  {
    if queues != [] {
      FirstColumnIsWhole(queues[..|queues| - 1]);
    }
  }

  lemma FirstRoundIsWhole<T>(queues: seq<seq<T>>, limit: nat)
    requires |queues| <= limit && forall b :: 0 <= b < |queues| ==> queues[b] != []
    ensures |queues| <= |FirstRounds(queues, limit)|
  {
    if queues != [] {
      assert 0 < |queues[0]| <= LongestQueue(queues);
      FirstColumnIsWhole(queues);
      ColumnsGrow(queues, 1, LongestQueue(queues));
      assert Columns(queues, 1) == Columns(queues, 0) + Column(queues, 0);
    }
  }

  lemma {:induction false} ColumnsGrow<T>(queues: seq<seq<T>>, low: nat, high: nat)
    requires low <= high
    ensures Columns(queues, low) <= Columns(queues, high)
    decreases high
  {
    if low < high {
      ColumnsGrow(queues, low, high - 1);
    }
  }

  lemma {:induction false} BagSize<T>(queues: seq<seq<T>>)
    ensures |Bag(queues)| == TotalLength(queues)
  {
    if queues != [] {
      BagSize(queues[1..]);
      BagCons(queues[0], queues[1..]);
      assert queues == [queues[0]] + queues[1..];
    }
  }

  lemma FlattenedLength<T>(queues: seq<seq<T>>)
    ensures |Flattened(queues)| == TotalLength(queues)
  {
    FlattenPermutes(queues);
    BagSize(queues);
    assert |multiset(Flattened(queues))| == |Flattened(queues)|;
  }

  // ---------------------------------------------------------------- the loop

  lemma {:induction false} ColumnEmptyPast<T>(queues: seq<seq<T>>, offset: nat)
    ensures Column(queues, offset) == [] <==> forall b :: 0 <= b < |queues| ==> |queues[b]| <= offset
  {
    if queues != [] {
      ColumnEmptyPast(queues[..|queues| - 1], offset);
      var n := |queues| - 1;
      assert forall b :: 0 <= b < n ==> queues[..n][b] == queues[b];
    }
  }

  lemma NothingMore<T>(s: seq<T>, more: seq<T>)
    requires more == []
    ensures s + more == s
  {
  }

  lemma {:induction false} ColumnsPast<T>(queues: seq<seq<T>>, low: nat, high: nat)
    requires low <= high && forall b :: 0 <= b < |queues| ==> |queues[b]| <= low
    ensures Columns(queues, high) == Columns(queues, low)
    decreases high
  {
    if low < high {
      ColumnsPast(queues, low, high - 1);
      ColumnEmptyPast(queues, high - 1);
      NothingMore(Columns(queues, high - 1), Column(queues, high - 1));
    }
  }

  lemma {:induction false} ColumnOfPrefix<T>(queues: seq<seq<T>>, p: nat, offset: nat)
    requires p <= |queues|
    ensures Column(queues[..p], offset) <= Column(queues, offset)
    decreases |queues|
  {
    if p == |queues| {
      assert queues[..p] == queues;
    } else {
      var front := queues[..|queues| - 1];
      ColumnOfPrefix(front, p, offset);
      assert front[..p] == queues[..p];
    }
  }

  lemma PrefixOfNext<T>(a: seq<T>, b: seq<T>, c: seq<T>, d: seq<T>)
    requires b <= c && a + c <= d
    ensures a + b <= d
  {
  }

  lemma ColumnsArePrefix<T>(queues: seq<seq<T>>, count: nat)
    ensures Columns(queues, count) <= Flattened(queues)
  {
    var longest := LongestQueue(queues);
    if count <= longest {
      ColumnsGrow(queues, count, longest);
    } else {
      ColumnsPast(queues, longest, count);
    }
  }

  lemma NextIsPrefix<T>(queues: seq<seq<T>>, round: nat)
    ensures Columns(queues, round) + Column(queues, round) <= Flattened(queues)
  {
    ColumnsArePrefix(queues, round + 1);
  }

  lemma StopIsPrefix<T>(queues: seq<seq<T>>, round: nat, position: nat)
    requires position <= |queues|
    ensures StoppedAt(queues, round, position) <= Flattened(queues)
  {
    ColumnOfPrefix(queues, position, round);
    NextIsPrefix(queues, round);
    PrefixOfNext(Columns(queues, round), Column(queues[..position], round), Column(queues, round), Flattened(queues));
  }

  method TakeRounds<T>(queues: seq<seq<T>>, limit: nat) returns (selected: seq<T>)
    requires 0 < limit
    ensures selected == FirstRounds(queues, limit)
  {
    selected := [];
    var round := 0;
    while |selected| < limit
      invariant |selected| <= limit
      invariant |selected| < limit ==> selected == Columns(queues, round)
      invariant |selected| == limit ==> selected <= Flattened(queues)
      decreases limit - |selected|
    {
      var added;
      selected, added := TakeRound(queues, round, limit, selected);
      if !added {
        break;
      }
      round := round + 1;
    }
  }

  /** One pass over the queues, stopping as soon as the limit is reached. */
  method TakeRound<T>(queues: seq<seq<T>>, round: nat, limit: nat, before: seq<T>) returns (selected: seq<T>, added: bool)
    requires |before| < limit && before == Columns(queues, round)
    ensures |before| <= |selected| <= limit && (added ==> |before| < |selected|)
    ensures |selected| < limit ==> selected == Columns(queues, round + 1)
    ensures |selected| == limit ==> selected <= Flattened(queues)
    ensures !added ==> selected == Flattened(queues)
  {
    selected, added := before, false;
    var i := 0;
    assert queues[..0] == [];
    while i < |queues|
      invariant i <= |queues| && |before| <= |selected| < limit
      invariant selected == StoppedAt(queues, round, i)
      invariant added <==> Column(queues[..i], round) != []
    {
      ColumnNext(queues, round, i);
      i := i + 1;
      if round < |queues[i - 1]| {
        selected := selected + [queues[i - 1][round]];
        added := true;
        if |selected| == limit {
          StopIsPrefix(queues, round, i);
          return;
        }
      }
    }
    assert queues[..|queues|] == queues;
    if !added {
      ColumnEmptyPast(queues, round);
      AllTaken(queues, round);
    }
  }

  lemma ColumnNext<T>(queues: seq<seq<T>>, round: nat, i: nat)
    requires i < |queues|
    ensures Column(queues[..i + 1], round) == Column(queues[..i], round) + if round < |queues[i]| then [queues[i][round]] else []
    ensures StoppedAt(queues, round, i + 1) == StoppedAt(queues, round, i) + if round < |queues[i]| then [queues[i][round]] else []
  {
    assert queues[..i + 1][..i] == queues[..i];
  }

  lemma AllTaken<T>(queues: seq<seq<T>>, round: nat)
    requires forall b :: 0 <= b < |queues| ==> |queues[b]| <= round
    ensures Columns(queues, round) == Flattened(queues)
  {
    var longest := LongestQueue(queues);
    if longest <= round {
      ColumnsPast(queues, longest, round);
    } else {
      ColumnsPast(queues, round, longest);
    }
  }
}
