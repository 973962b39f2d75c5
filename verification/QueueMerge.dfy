/** Merging sorted queues by their heads: the smallest head under a common key goes next, the
    earliest queue on a tie. Used to rank the evidence of a signal family and the attributions
    of a review, where the queues' own keys must never be compared with each other. */
module QueueMerge {
  import opened Sorting

  function TotalLength<T>(queues: seq<seq<T>>): nat {
    if queues == [] then 0 else |queues[0]| + TotalLength(queues[1..])
  }

  predicate AllEmpty<T>(queues: seq<seq<T>>) {
    forall b :: 0 <= b < |queues| ==> queues[b] == []
  }

  lemma {:induction false} EmptyIsZero<T>(queues: seq<seq<T>>)
    ensures AllEmpty(queues) <==> TotalLength(queues) == 0
  {
    if queues != [] {
      EmptyIsZero(queues[1..]);
      assert forall b :: 1 <= b < |queues| ==> queues[b] == queues[1..][b - 1];
    }
  }

  lemma {:induction false} PopShortens<T>(queues: seq<seq<T>>, b: nat)
    requires b < |queues| && queues[b] != []
    ensures TotalLength(queues[b := queues[b][1..]]) == TotalLength(queues) - 1
  {
    var after := queues[b := queues[b][1..]];
    if b == 0 {
      assert after[1..] == queues[1..];
    } else {
      PopShortens(queues[1..], b - 1);
      assert after[1..] == queues[1..][b - 1 := queues[b][1..]];
    }
  }

  /** Among the first `n` queues, the first nonempty one whose head no other head undercuts; `n` if all are empty. */
  function Best<T>(leq: (T, T) -> bool, queues: seq<seq<T>>, n: nat): (r: nat)
    requires n <= |queues|
    ensures r <= n && (r < n ==> queues[r] != [])
    ensures r == n ==> forall b :: 0 <= b < n ==> queues[b] == []
  {
    if n == 0 then 0
    else
      var r := Best(leq, queues, n - 1);
      if queues[n - 1] == [] then (if r == n - 1 then n else r)
      else if r == n - 1 || !leq(queues[r][0], queues[n - 1][0]) then n - 1
      else r
  }

  /** `x`, from queue `own`, beats the head of queue `b`. */
  ghost predicate Beats<T>(leq: (T, T) -> bool, x: T, own: nat, head: T, b: nat) {
    leq(x, head) && (b < own ==> !leq(head, x))
  }

  lemma {:induction false} BestBeatsHeads<T(!new)>(leq: (T, T) -> bool, queues: seq<seq<T>>, n: nat)
    requires n <= |queues| && TotalPreorder(leq)
    ensures Best(leq, queues, n) < n ==>
              forall b :: 0 <= b < n && queues[b] != [] ==>
                Beats(leq, queues[Best(leq, queues, n)][0], Best(leq, queues, n), queues[b][0], b)
  {
    if n > 0 {
      BestBeatsHeads(leq, queues, n - 1);
    }
  }

  function Merged<T>(leq: (T, T) -> bool, queues: seq<seq<T>>): (r: seq<T>)
    ensures |r| == TotalLength(queues)
    decreases TotalLength(queues)
  {
    var best := Best(leq, queues, |queues|);
    if best == |queues| then
      EmptyIsZero(queues);
      []
    else
      PopShortens(queues, best);
      [queues[best][0]] + Merged(leq, queues[best := queues[best][1..]])
  }

  method Merge<T>(leq: (T, T) -> bool, queues: seq<seq<T>>) returns (ordered: seq<T>)
    ensures ordered == Merged(leq, queues)
  {
    ordered := [];
    var left := queues;
    while !AllEmpty(left)
      invariant |left| == |queues|
      invariant ordered + Merged(leq, left) == Merged(leq, queues)
      decreases TotalLength(left)
    {
      var best := Best(leq, left, |left|);
      PopShortens(left, best);
      ordered := ordered + [left[best][0]];
      left := left[best := left[best][1..]];
    }
    EmptyIsZero(left);
  }

  // ---------------------------------------------------------------- what the merge means

  /** The items of queue `b`, as `queueOf` sorts them. */
  function From<T>(queueOf: T -> nat, b: nat, s: seq<T>): seq<T> {
    if s == [] then [] else (if queueOf(s[0]) == b then [s[0]] else []) + From(queueOf, b, s[1..])
  }

  ghost predicate Labelled<T>(queueOf: T -> nat, queues: seq<seq<T>>) {
    forall b, i :: 0 <= b < |queues| && 0 <= i < |queues[b]| ==> queueOf(queues[b][i]) == b
  }

  /** Restricted to one queue, the result is that queue in its own order: nothing is lost,
      repeated or reordered within a queue. */
  lemma {:induction false} MergedKeepsQueues<T(!new)>(leq: (T, T) -> bool, queueOf: T -> nat, queues: seq<seq<T>>, b: nat)
    requires Labelled(queueOf, queues) && b < |queues|
    ensures From(queueOf, b, Merged(leq, queues)) == queues[b]
    decreases TotalLength(queues)
  {
    var best := Best(leq, queues, |queues|);
    if best < |queues| {
      var after := queues[best := queues[best][1..]];
      PopShortens(queues, best);
      forall c, i | 0 <= c < |after| && 0 <= i < |after[c]| ensures queueOf(after[c][i]) == c {
        if c == best {
          assert after[c][i] == queues[c][i + 1];
        }
      }
      MergedKeepsQueues(leq, queueOf, after, b);
      assert Merged(leq, queues)[1..] == Merged(leq, after);
      assert queueOf(queues[best][0]) == best;
    }
  }

  /** Every emitted item beats every head that is then available: with `e` items of queue `b`
      already emitted, the next one of that queue does not come before it. */
  lemma {:induction false} MergedTakesLeastHead<T(!new)>(leq: (T, T) -> bool, queueOf: T -> nat, queues: seq<seq<T>>, k: nat, b: nat)
    requires TotalPreorder(leq) && Labelled(queueOf, queues)
    requires k < |Merged(leq, queues)| && b < |queues|
    requires |From(queueOf, b, Merged(leq, queues)[..k])| < |queues[b]|
    ensures Beats(leq, Merged(leq, queues)[k], queueOf(Merged(leq, queues)[k]),
                  queues[b][|From(queueOf, b, Merged(leq, queues)[..k])|], b)
    decreases k
  {
    var best := Best(leq, queues, |queues|);
    BestBeatsHeads(leq, queues, |queues|);
    EmptyIsZero(queues);
    var m := Merged(leq, queues);
    assert queueOf(queues[best][0]) == best;
    if k > 0 {
      var after := queues[best := queues[best][1..]];
      PopShortens(queues, best);
      forall c, i | 0 <= c < |after| && 0 <= i < |after[c]| ensures queueOf(after[c][i]) == c {
        if c == best {
          assert after[c][i] == queues[c][i + 1];
        }
      }
      assert m[..k][1..] == Merged(leq, after)[..k - 1];
      assert m[..k][0] == queues[best][0];
      MergedTakesLeastHead(leq, queueOf, after, k - 1, b);
    }
  }

  lemma {:induction false} FromMembers<T>(queueOf: T -> nat, b: nat, s: seq<T>)
    ensures forall x :: x in From(queueOf, b, s) <==> x in s && queueOf(x) == b
  {
    if s != [] {
      FromMembers(queueOf, b, s[1..]);
      assert forall x :: x in s <==> x == s[0] || x in s[1..];
    }
  }

  lemma {:induction false} FromPartitions<T(!new)>(queueOf: T -> nat, n: nat, s: seq<T>)
    requires forall x :: x in s ==> queueOf(x) < n
    ensures multiset(s) == PartBag(queueOf, n, s)
  {
    if s == [] {
      NoParts(queueOf, n);
    } else {
      FromPartitions(queueOf, n, s[1..]);
      PartAdds(queueOf, n, s);
      ConsBag(s[0], s[1..]);
      assert s == [s[0]] + s[1..];
    }
  }

  lemma ConsBag<T>(x: T, s: seq<T>)
    ensures multiset([x] + s) == multiset(s) + multiset{x}
  {
  }

  ghost function PartBag<T>(queueOf: T -> nat, n: nat, s: seq<T>): multiset<T> {
    if n == 0 then multiset{} else PartBag(queueOf, n - 1, s) + multiset(From(queueOf, n - 1, s))
  }

  lemma {:induction false} NoParts<T>(queueOf: T -> nat, n: nat)
    ensures PartBag(queueOf, n, []) == multiset{}
  {
    if n > 0 {
      NoParts(queueOf, n - 1);
    }
  }

  lemma {:induction false} PartAdds<T>(queueOf: T -> nat, n: nat, s: seq<T>)
    requires s != []
    ensures PartBag(queueOf, n, s) == PartBag(queueOf, n, s[1..]) + (if queueOf(s[0]) < n then multiset{s[0]} else multiset{})
  {
    if n > 0 {
      PartAdds(queueOf, n - 1, s);
    }
  }

  /** Two lists with the same items of every queue, in whatever order, are permutations. */
  lemma {:induction false} SameParts<T(!new)>(queueOf: T -> nat, n: nat, a: seq<T>, b: seq<T>)
    requires forall q: nat :: q < n ==> multiset(From(queueOf, q, a)) == multiset(From(queueOf, q, b))
    ensures PartBag(queueOf, n, a) == PartBag(queueOf, n, b)
  {
    if n > 0 {
      SameParts(queueOf, n - 1, a, b);
    }
  }

  // ---------------------------------------------------------------- splitting, sorting, merging

  /** One queue for each label below |orders|, each sorted by its own order. */
  function SortedQueues<T>(orders: seq<(T, T) -> bool>, queueOf: T -> nat, items: seq<T>): (r: seq<seq<T>>)
    ensures |r| == |orders|
  {
    seq(|orders|, b requires 0 <= b < |orders| => Sort(orders[b], From(queueOf, b, items)))
  }

  function RankedByHeads<T>(orders: seq<(T, T) -> bool>, leq: (T, T) -> bool, queueOf: T -> nat, items: seq<T>): seq<T> {
    Merged(leq, SortedQueues(orders, queueOf, items))
  }

  lemma SortedQueuesLabelled<T(!new)>(orders: seq<(T, T) -> bool>, queueOf: T -> nat, items: seq<T>)
    ensures Labelled(queueOf, SortedQueues(orders, queueOf, items))
  {
    var queues := SortedQueues(orders, queueOf, items);
    forall b, i | 0 <= b < |queues| && 0 <= i < |queues[b]| ensures queueOf(queues[b][i]) == b {
      FromMembers(queueOf, b, items);
      SortMembers(orders[b], From(queueOf, b, items), queues[b][i]);
    }
  }

  /** The ranking is a permutation of the items; inside a queue it follows that queue's order. */
  lemma RankingPermutes<T(!new)>(orders: seq<(T, T) -> bool>, leq: (T, T) -> bool, queueOf: T -> nat, items: seq<T>)
    requires forall x :: queueOf(x) < |orders|
    ensures multiset(RankedByHeads(orders, leq, queueOf, items)) == multiset(items)
    ensures forall b: nat :: b < |orders| ==>
              From(queueOf, b, RankedByHeads(orders, leq, queueOf, items)) == Sort(orders[b], From(queueOf, b, items))
  {
    var r := RankedByHeads(orders, leq, queueOf, items);
    SortedQueuesLabelled(orders, queueOf, items);
    forall b: nat | b < |orders|
      ensures From(queueOf, b, r) == Sort(orders[b], From(queueOf, b, items))
      ensures multiset(From(queueOf, b, r)) == multiset(From(queueOf, b, items))
    {
      MergedKeepsQueues(leq, queueOf, SortedQueues(orders, queueOf, items), b);
      SortIsSorted(orders[b], From(queueOf, b, items));
    }
    SameParts(queueOf, |orders|, r, items);
    FromPartitions(queueOf, |orders|, r);
    FromPartitions(queueOf, |orders|, items);
  }
}
