/** Taking from a list of queues in rounds: first every queue's first item, then every second, ...
    A column is one round; the columns up to the longest queue flatten all of them.
    Used for ordering trace evidence and, stopped at a limit, for choosing balanced evidence.
    The bag of a list of queues counts every item of every queue.
 */
module RoundRobin {

  function Column<T>(queues: seq<seq<T>>, offset: nat): seq<T> {
    if queues == [] then []
    else Column(queues[..|queues| - 1], offset)
         + (if offset < |queues[|queues| - 1]| then [queues[|queues| - 1][offset]] else [])
  }

  function Columns<T>(queues: seq<seq<T>>, count: nat): seq<T> {
    if count == 0 then [] else Columns(queues, count - 1) + Column(queues, count - 1)
  }

  function LongestQueue<T>(queues: seq<seq<T>>): (n: nat)
    ensures forall i :: 0 <= i < |queues| ==> |queues[i]| <= n
  {
    if queues == [] then 0
    else
      var rest := LongestQueue(queues[..|queues| - 1]);
      if rest < |queues[|queues| - 1]| then |queues[|queues| - 1]| else rest
  }

  function Flattened<T>(queues: seq<seq<T>>): seq<T> {
    Columns(queues, LongestQueue(queues))
  }

  // ---------------------------------------------------------------- bags of queues

  ghost function Bag<T>(queues: seq<seq<T>>): multiset<T> {
    if queues == [] then multiset{} else Bag(queues[..|queues| - 1]) + multiset(queues[|queues| - 1])
  }

  lemma {:induction false} SameBag<T>(a: seq<seq<T>>, b: seq<seq<T>>)
    requires |a| == |b| && forall i :: 0 <= i < |a| ==> multiset(a[i]) == multiset(b[i])
    ensures Bag(a) == Bag(b)
  {
    if a != [] {
      var n := |a| - 1;
      SameBag(a[..n], b[..n]);
    }
  }

  lemma {:induction false} BagCons<T>(q: seq<T>, queues: seq<seq<T>>)
    ensures Bag([q] + queues) == multiset(q) + Bag(queues)
  {
    if queues == [] {
      assert [q] + queues == [q];
    } else {
      var n := |queues| - 1;
      BagCons(q, queues[..n]);
      assert ([q] + queues)[..n + 1] == [q] + queues[..n];
    }
  }

  /** The first `count` items of a queue. */
  function Head<T>(q: seq<T>, count: nat): seq<T> {
    if |q| <= count then q else q[..count]
  }

  ghost function HeadBag<T>(queues: seq<seq<T>>, count: nat): multiset<T> {
    if queues == [] then multiset{} else HeadBag(queues[..|queues| - 1], count) + multiset(Head(queues[|queues| - 1], count))
  }

  lemma {:induction false} ColumnAddsHeads<T>(queues: seq<seq<T>>, count: nat)
    ensures HeadBag(queues, count + 1) == HeadBag(queues, count) + multiset(Column(queues, count))
  {
    if queues != [] {
      var q := queues[|queues| - 1];
      ColumnAddsHeads(queues[..|queues| - 1], count);
      if count < |q| {
        assert q[..count + 1] == q[..count] + [q[count]];
        assert Head(q, count + 1) == Head(q, count) + [q[count]];
      }
    }
  }

  lemma BagOfBoth<T>(a: seq<T>, b: seq<T>)
    ensures multiset(a + b) == multiset(a) + multiset(b)
  {
  }

  lemma {:induction false} ColumnsAreHeads<T>(queues: seq<seq<T>>, count: nat)
    ensures multiset(Columns(queues, count)) == HeadBag(queues, count)
  {
    if count == 0 {
      NoHeads(queues);
    } else {
      var n := count - 1;
      var a, b := Columns(queues, n), Column(queues, n);
      ColumnsAreHeads(queues, n);
      assert HeadBag(queues, count) == multiset(a) + multiset(b) by {
        ColumnAddsHeads(queues, n);
      }
      BagOfBoth(a, b);
      assert Columns(queues, count) == a + b;
    }
  }

  lemma {:induction false} NoHeads<T>(queues: seq<seq<T>>)
    ensures HeadBag(queues, 0) == multiset{}
  {
    if queues != [] {
      NoHeads(queues[..|queues| - 1]);
    }
  }

  lemma {:induction false} AllHeads<T>(queues: seq<seq<T>>, count: nat)
    requires forall i :: 0 <= i < |queues| ==> |queues[i]| <= count
    ensures HeadBag(queues, count) == Bag(queues)
  {
    if queues != [] {
      AllHeads(queues[..|queues| - 1], count);
    }
  }

  /** Flattening by rounds loses and repeats nothing. */
  lemma FlattenPermutes<T>(queues: seq<seq<T>>)
    ensures multiset(Flattened(queues)) == Bag(queues)
  {
    ColumnsAreHeads(queues, LongestQueue(queues));
    AllHeads(queues, LongestQueue(queues));
  }

  method Flatten<T>(queues: seq<seq<T>>) returns (ordered: seq<T>)
    ensures ordered == Flattened(queues)
  {
    ordered := [];
    for offset := 0 to LongestQueue(queues)
      invariant ordered == Columns(queues, offset)
    {
      for i := 0 to |queues|
        invariant ordered == Columns(queues, offset) + Column(queues[..i], offset)
      {
        assert queues[..i + 1][..i] == queues[..i];
        if offset < |queues[i]| {
          ordered := ordered + [queues[i][offset]];
        }
      }
      assert queues[..|queues|] == queues;
    }
  }
}
