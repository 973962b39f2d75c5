/** Ordering of model-visible trace evidence: grouping, two-ended contrast, promotion of the
    fastest call, round-robin flattening and refilling in place.
    Each stage permutes what it gets, so the result is a permutation of the evidence; and only
    the places of trace evidence are refilled. */
module EvidenceOrder {
  import opened Grouping
  import opened Options
  import opened RoundRobin
  import opened Sorting

  /** Service, operation, span status and peer role; a value that is not text counts as None. */
  datatype GroupKey = GroupKey(service: Option<string>, operation: Option<string>, status: Option<string>, role: Option<string>)

  /** `priority` is the priority tuple; `duration` is None unless it is a finite number >= 0;
      `idRank` is the text order of the id. `body` is the rest of the item. */
  datatype Item = Item(isTrace: bool, key: GroupKey, priority: seq<int>, duration: Option<int>, idRank: int, body: nat)

  type TraceGroup = Group<GroupKey, Item>

  // ---------------------------------------------------------------- bags of queues

  lemma {:induction false} InsertKeepsBag(leq: (seq<Item>, seq<Item>) -> bool, q: seq<Item>, queues: seq<seq<Item>>)
    ensures Bag(Insert(leq, q, queues)) == multiset(q) + Bag(queues)
  {
    BagCons(q, queues);
    if queues != [] && !leq(q, queues[0]) {
      InsertKeepsBag(leq, q, queues[1..]);
      BagCons(queues[0], Insert(leq, q, queues[1..]));
      BagCons(queues[0], queues[1..]);
      assert queues == [queues[0]] + queues[1..];
    }
  }

  lemma {:induction false} SortKeepsBag(leq: (seq<Item>, seq<Item>) -> bool, queues: seq<seq<Item>>)
    ensures Bag(Sort(leq, queues)) == Bag(queues)
  {
    if queues != [] {
      SortKeepsBag(leq, queues[1..]);
      InsertKeepsBag(leq, queues[0], Sort(leq, queues[1..]));
      BagCons(queues[0], queues[1..]);
      assert queues == [queues[0]] + queues[1..];
    }
  }

  function TraceItems(evidence: seq<Item>): seq<Item> {
    if evidence == [] then []
    else (if evidence[0].isTrace then [evidence[0]] else []) + TraceItems(evidence[1..])
  }

  // ---------------------------------------------------------------- grouping

  function GroupItems(groups: seq<TraceGroup>): seq<seq<Item>> {
    seq(|groups|, i requires 0 <= i < |groups| => groups[i].items)
  }

  function KeyOf(x: Item): GroupKey {
    x.key
  }

  lemma {:induction false} GroupBagIsBag(groups: seq<TraceGroup>)
    ensures Bag(GroupItems(groups)) == GroupBag(groups)
  {
    if groups != [] {
      GroupBagIsBag(groups[1..]);
      BagCons(groups[0].items, GroupItems(groups[1..]));
      assert GroupItems(groups) == [groups[0].items] + GroupItems(groups[1..]);
    }
  }

  // ---------------------------------------------------------------- two-ended contrast

  /** Alternately from the front and from the back: slowest, fastest, second slowest, ... */
  function Contrasted(items: seq<Item>): seq<Item> {
    seq(|items|, i requires 0 <= i < |items| => if i % 2 == 0 then items[i / 2] else items[|items| - 1 - i / 2])
  }

  lemma {:induction false} ContrastedPermutes(items: seq<Item>)
    ensures multiset(Contrasted(items)) == multiset(items)
  {
    var n := |items|;
    if n == 0 {
    } else if n == 1 {
      assert Contrasted(items) == items;
    } else {
      var middle := items[1..n - 1];
      ContrastedPermutes(middle);
      assert items == [items[0]] + middle + [items[n - 1]];
      var r := Contrasted(items);
      forall i | 0 <= i < n - 2 ensures r[i + 2] == Contrasted(middle)[i] {
        assert (i + 2) % 2 == i % 2 && (i + 2) / 2 == i / 2 + 1;
      }
      assert r == [items[0], items[n - 1]] + Contrasted(middle);
    }
  }

  method Contrast(items: seq<Item>) returns (contrasted: seq<Item>)
    ensures contrasted == Contrasted(items)
  {
    contrasted := [];
    var left, right := 0, |items| - 1;
    while left <= right
      invariant 0 <= left && right == |items| - 1 - left && left <= right + 2
      invariant |contrasted| == if left <= right + 1 then 2 * left else |items|
      invariant |contrasted| <= |items|
      invariant forall i :: 0 <= i < |contrasted| ==> contrasted[i] == Contrasted(items)[i]
      decreases right - left
    {
      contrasted := contrasted + [items[left]];
      if left != right {
        contrasted := contrasted + [items[right]];
      }
      left, right := left + 1, right - 1;
    }
  }

  // ---------------------------------------------------------------- promotion

  predicate ErrorOperation(groups: seq<TraceGroup>, key: GroupKey) {
    exists g :: g in groups && g.key.status == Some("error") && g.key.service == key.service && g.key.operation == key.operation
  }

  predicate Faster(a: Item, b: Item)
    requires a.duration.Some? && b.duration.Some?
  {
    a.duration.value < b.duration.value || (a.duration.value == b.duration.value && a.idRank <= b.idRank)
  }

  /** Index of the first fastest item with a usable duration. */
  function Fastest(items: seq<Item>): (r: Option<nat>)
    ensures r.Some? ==> r.value < |items| && items[r.value].duration.Some?
  {
    if items == [] then None
    else
      var n := |items| - 1;
      var r := Fastest(items[..n]);
      if items[n].duration.None? then r
      else if r.None? || !Faster(items[r.value], items[n]) then Some(n)
      else r
  }

  lemma {:induction false} FastestIsLeast(items: seq<Item>, x: Item)
    requires x in items && x.duration.Some?
    ensures Fastest(items).Some? && Faster(items[Fastest(items).value], x)
  {
    var n := |items| - 1;
    assert items == items[..n] + [items[n]];
    if x in items[..n] {
      FastestIsLeast(items[..n], x);
    }
  }

  function MoveToFront(items: seq<Item>, i: nat): seq<Item>
    requires i < |items|
  {
    [items[i]] + items[..i] + items[i + 1..]
  }

  /** A successful operation whose service also fails: its fastest call goes first. */
  function Promoted(groups: seq<TraceGroup>, items: seq<Item>): seq<Item> {
    if items != [] && items[0].key.status == Some("ok") && ErrorOperation(groups, items[0].key) && Fastest(items).Some?
    then MoveToFront(items, Fastest(items).value)
    else items
  }

  lemma MoveToFrontPermutes(items: seq<Item>, i: nat)
    requires i < |items|
    ensures multiset(MoveToFront(items, i)) == multiset(items)
  {
    var x, before, rest := [items[i]], items[..i], items[i + 1..];
    assert items == before + x + rest;
    assert multiset(x + before + rest) == multiset(x) + multiset(before) + multiset(rest);
  }

  lemma PromotedPermutes(groups: seq<TraceGroup>, items: seq<Item>)
    ensures multiset(Promoted(groups, items)) == multiset(items)
  {
    if Fastest(items).Some? {
      MoveToFrontPermutes(items, Fastest(items).value);
    }
  }

  /** The promoted queue is led by a fastest call, and the rest keeps its order. */
  lemma PromotedLeads(groups: seq<TraceGroup>, items: seq<Item>, x: Item)
    requires items != [] && items[0].key.status == Some("ok") && ErrorOperation(groups, items[0].key)
    requires x in items && x.duration.Some?
    ensures Promoted(groups, items) != [] && Promoted(groups, items)[0].duration.Some?
    ensures Faster(Promoted(groups, items)[0], x)
    ensures exists i :: 0 <= i < |items| && Promoted(groups, items) == MoveToFront(items, i)
  {
    FastestIsLeast(items, x);
  }

  // ---------------------------------------------------------------- refilling

  /** Each trace slot takes the next ordered item; other items stay where they are. */
  function Refilled(evidence: seq<Item>, ordered: seq<Item>): (r: seq<Item>)
    ensures |r| == |evidence|
  {
    if evidence == [] then []
    else if evidence[0].isTrace && ordered != [] then [ordered[0]] + Refilled(evidence[1..], ordered[1..])
    else [evidence[0]] + Refilled(evidence[1..], ordered)
  }

  lemma ConsBag(x: Item, rest: seq<Item>)
    ensures multiset([x] + rest) == multiset{x} + multiset(rest)
  {
  }

  lemma AddBoth(x: multiset<Item>, y: multiset<Item>, r: multiset<Item>, t: multiset<Item>, e: multiset<Item>, o: multiset<Item>)
    requires r + t == e + o
    ensures (y + r) + (x + t) == (x + e) + (y + o)
  {
    assert (y + r) + (x + t) == (x + y) + (r + t);
    assert (x + e) + (y + o) == (x + y) + (e + o);
  }

  lemma {:induction false} RefilledPermutes(evidence: seq<Item>, ordered: seq<Item>)
    requires |ordered| == |TraceItems(evidence)|
    ensures multiset(Refilled(evidence, ordered)) + multiset(TraceItems(evidence)) == multiset(evidence) + multiset(ordered)
  {
    if evidence != [] {
      var x, rest := evidence[0], evidence[1..];
      assert evidence == [x] + rest;
      ConsBag(x, rest);
      if x.isTrace {
        var more := ordered[1..];
        assert ordered == [ordered[0]] + more;
        ConsBag(ordered[0], more);
        ConsBag(ordered[0], Refilled(rest, more));
        ConsBag(x, TraceItems(rest));
        RefilledPermutes(rest, more);
        AddBoth(multiset{x}, multiset{ordered[0]}, multiset(Refilled(rest, more)), multiset(TraceItems(rest)), multiset(rest), multiset(ordered[1..]));
      } else {
        ConsBag(x, Refilled(rest, ordered));
        RefilledPermutes(rest, ordered);
        assert TraceItems(evidence) == TraceItems(rest);
        KeepHead(multiset{x}, multiset(Refilled(rest, ordered)), multiset(TraceItems(rest)), multiset(rest), multiset(ordered));
      }
    }
  }

  lemma KeepHead(x: multiset<Item>, r: multiset<Item>, t: multiset<Item>, e: multiset<Item>, o: multiset<Item>)
    requires r + t == e + o
    ensures (x + r) + t == (x + e) + o
  {
    assert (x + r) + t == x + (r + t);
    assert (x + e) + o == x + (e + o);
  }

  lemma {:induction false} RefilledKeepsSlots(evidence: seq<Item>, ordered: seq<Item>, i: nat)
    requires |ordered| == |TraceItems(evidence)| && i < |evidence|
    ensures !evidence[i].isTrace ==> Refilled(evidence, ordered)[i] == evidence[i]
    ensures evidence[i].isTrace ==> Refilled(evidence, ordered)[i] in ordered
  {
    if i > 0 {
      RefilledKeepsSlots(evidence[1..], if evidence[0].isTrace then ordered[1..] else ordered, i - 1);
    }
  }

  lemma RefillStep(evidence: seq<Item>, ordered: seq<Item>, i: nat, used: nat)
    requires i < |evidence| && used <= |ordered| && |ordered| - used == |TraceItems(evidence[i..])|
    ensures evidence[i].isTrace ==>
              used < |ordered| && |ordered| - used - 1 == |TraceItems(evidence[i + 1..])|
              && Refilled(evidence[i..], ordered[used..]) == [ordered[used]] + Refilled(evidence[i + 1..], ordered[used + 1..])
    ensures !evidence[i].isTrace ==>
              |ordered| - used == |TraceItems(evidence[i + 1..])|
              && Refilled(evidence[i..], ordered[used..]) == [evidence[i]] + Refilled(evidence[i + 1..], ordered[used..])
  {
    assert evidence[i..][1..] == evidence[i + 1..];
    if evidence[i].isTrace {
      assert ordered[used..][1..] == ordered[used + 1..];
    }
  }

  /** The refill loop; the iterator over `ordered` is never asked for more than it has. */
  method Refill(evidence: seq<Item>, ordered: seq<Item>) returns (r: seq<Item>)
    requires |ordered| == |TraceItems(evidence)|
    ensures r == Refilled(evidence, ordered)
  {
    r := [];
    var used := 0;
    assert evidence[0..] == evidence && ordered[0..] == ordered;
    for i := 0 to |evidence|
      invariant used <= |ordered| && |ordered| - used == |TraceItems(evidence[i..])|
      invariant r + Refilled(evidence[i..], ordered[used..]) == Refilled(evidence, ordered)
    {
      RefillStep(evidence, ordered, i, used);
      if evidence[i].isTrace {
        r := r + [ordered[used]];
        used := used + 1;
      } else {
        r := r + [evidence[i]];
      }
    }
    assert Refilled(evidence[|evidence|..], ordered[used..]) == [];
  }

  // ---------------------------------------------------------------- the whole ordering

  predicate HigherPriority(a: Item, b: Item) {
    LexLeq(b.priority, a.priority)
  }

  function HeadPriority(queue: seq<Item>): seq<int> {
    if queue == [] then [] else queue[0].priority
  }

  predicate HigherHead(a: seq<Item>, b: seq<Item>) {
    LexLeq(HeadPriority(b), HeadPriority(a))
  }

  function TraceGroups(evidence: seq<Item>): seq<TraceGroup> {
    GroupsOf(KeyOf, TraceItems(evidence))
  }

  function SortedQueues(groups: seq<TraceGroup>): seq<seq<Item>> {
    Sort(HigherHead, seq(|groups|, i requires 0 <= i < |groups| => Sort(HigherPriority, groups[i].items)))
  }

  lemma PrioritiesAreTotal()
    ensures TotalPreorder(HigherPriority) && TotalPreorder(HigherHead)
  {
    forall a, b ensures HigherPriority(a, b) || HigherPriority(b, a) {
      LexTotal(a.priority, b.priority);
    }
    forall a, b, c | HigherPriority(a, b) && HigherPriority(b, c) ensures HigherPriority(a, c) {
      LexTransitive(c.priority, b.priority, a.priority);
    }
    forall p, q ensures HigherHead(p, q) || HigherHead(q, p) {
      LexTotal(HeadPriority(p), HeadPriority(q));
    }
    forall p, q, r | HigherHead(p, q) && HigherHead(q, r) ensures HigherHead(p, r) {
      LexTransitive(HeadPriority(r), HeadPriority(q), HeadPriority(p));
    }
  }

  /** Before the contrast, every group is in order of falling priority, and so are the groups by
      their first items. */
  lemma QueuesAreRanked(groups: seq<TraceGroup>, i: nat)
    requires i < |SortedQueues(groups)|
    ensures Sorted(HigherHead, SortedQueues(groups)) && Sorted(HigherPriority, SortedQueues(groups)[i])
  {
    var ranked := seq(|groups|, k requires 0 <= k < |groups| => Sort(HigherPriority, groups[k].items));
    PrioritiesAreTotal();
    SortIsSorted(HigherHead, ranked);
    SortMembers(HigherHead, ranked, SortedQueues(groups)[i]);
    var k :| 0 <= k < |ranked| && ranked[k] == SortedQueues(groups)[i];
    SortIsSorted(HigherPriority, groups[k].items);
  }

  function ArrangedQueues(groups: seq<TraceGroup>): seq<seq<Item>> {
    var queues := SortedQueues(groups);
    seq(|queues|, i requires 0 <= i < |queues| => Promoted(groups, Contrasted(queues[i])))
  }

  lemma {:induction false} TraceItemsSplit(a: seq<Item>, b: seq<Item>)
    ensures TraceItems(a + b) == TraceItems(a) + TraceItems(b)
  {
    if a == [] {
      assert a + b == b;
    } else {
      var head := if a[0].isTrace then [a[0]] else [];
      TraceItemsSplit(a[1..], b);
      assert (a + b)[0] == a[0] && (a + b)[1..] == a[1..] + b;
      Associate(head, TraceItems(a[1..]), TraceItems(b));
    }
  }

  lemma Associate(x: seq<Item>, y: seq<Item>, z: seq<Item>)
    ensures x + (y + z) == (x + y) + z
  {
  }

  lemma ArrangedKeepItems(groups: seq<TraceGroup>)
    ensures Bag(ArrangedQueues(groups)) == GroupBag(groups)
  {
    var sorted := seq(|groups|, i requires 0 <= i < |groups| => Sort(HigherPriority, groups[i].items));
    forall i | 0 <= i < |groups| ensures multiset(sorted[i]) == multiset(GroupItems(groups)[i]) {
      SortIsSorted(HigherPriority, groups[i].items);
    }
    SameBag(sorted, GroupItems(groups));
    GroupBagIsBag(groups);
    SortKeepsBag(HigherHead, sorted);
    var queues := SortedQueues(groups);
    forall i | 0 <= i < |queues| ensures multiset(ArrangedQueues(groups)[i]) == multiset(queues[i]) {
      ContrastedPermutes(queues[i]);
      PromotedPermutes(groups, Contrasted(queues[i]));
    }
    SameBag(ArrangedQueues(groups), queues);
  }

  method GroupTraces(evidence: seq<Item>) returns (groups: seq<TraceGroup>)
    ensures groups == TraceGroups(evidence)
  {
    groups := [];
    for i := 0 to |evidence|
      invariant groups == TraceGroups(evidence[..i])
    {
      var traces := TraceItems(evidence[..i]);
      assert evidence[..i + 1] == evidence[..i] + [evidence[i]];
      TraceItemsSplit(evidence[..i], [evidence[i]]);
      if evidence[i].isTrace {
        assert TraceItems(evidence[..i + 1]) == traces + [evidence[i]];
        assert (traces + [evidence[i]])[..|traces|] == traces;
        groups := AddToGroup(KeyOf, groups, evidence[i]);
      } else {
        assert TraceItems([evidence[i]]) == [];
        assert TraceItems(evidence[..i + 1]) == traces;
      }
    }
    assert evidence[..|evidence|] == evidence;
  }

  method ArrangeQueues(groups: seq<TraceGroup>) returns (queues: seq<seq<Item>>)
    ensures queues == ArrangedQueues(groups)
  {
    queues := SortedQueues(groups);
    ghost var before := queues;
    for i := 0 to |queues|
      invariant |queues| == |before|
      invariant forall j :: 0 <= j < i ==> queues[j] == Contrasted(before[j])
      invariant forall j :: i <= j < |queues| ==> queues[j] == before[j]
    {
      var contrasted := Contrast(queues[i]);
      queues := queues[i := contrasted];
    }
    for i := 0 to |queues|
      invariant |queues| == |before|
      invariant forall j :: 0 <= j < i ==> queues[j] == Promoted(groups, Contrasted(before[j]))
      invariant forall j :: i <= j < |queues| ==> queues[j] == Contrasted(before[j])
    {
      queues := queues[i := Promoted(groups, queues[i])];
    }
  }

  function Ordered(evidence: seq<Item>): seq<Item> {
    Refilled(evidence, Flattened(ArrangedQueues(TraceGroups(evidence))))
  }

  lemma FlattenedFits(evidence: seq<Item>)
    ensures multiset(Flattened(ArrangedQueues(TraceGroups(evidence)))) == multiset(TraceItems(evidence))
    ensures |Flattened(ArrangedQueues(TraceGroups(evidence)))| == |TraceItems(evidence)|
  {
    GroupsKeepItems(KeyOf, TraceItems(evidence));
    ArrangedKeepItems(TraceGroups(evidence));
    var ordered := Flattened(ArrangedQueues(TraceGroups(evidence)));
    FlattenPermutes(ArrangedQueues(TraceGroups(evidence)));
    assert |multiset(ordered)| == |ordered| && |multiset(TraceItems(evidence))| == |TraceItems(evidence)|;
  }

  method OrderTraceEvidence(evidence: seq<Item>) returns (r: seq<Item>)
    ensures r == Ordered(evidence)
  {
    var groups := GroupTraces(evidence);
    var queues := ArrangeQueues(groups);
    var ordered := Flatten(queues);
    FlattenedFits(evidence);
    r := Refill(evidence, ordered);
  }

  lemma {:induction false} TraceItemsAreTraces(evidence: seq<Item>, x: Item)
    requires x in TraceItems(evidence)
    ensures x.isTrace && x in evidence
  {
    if !(evidence[0].isTrace && x == evidence[0]) {
      TraceItemsAreTraces(evidence[1..], x);
    }
  }

  /** The result permutes the input, and every item that is not trace evidence keeps its place. */
  lemma OrderingPermutes(evidence: seq<Item>)
    ensures multiset(Ordered(evidence)) == multiset(evidence)
    ensures forall i :: 0 <= i < |evidence| ==>
              if evidence[i].isTrace then Ordered(evidence)[i].isTrace else Ordered(evidence)[i] == evidence[i]
  {
    FlattenedFits(evidence);
    RefilledIsPermutation(evidence, Flattened(ArrangedQueues(TraceGroups(evidence))));
  }

  lemma RefilledIsPermutation(evidence: seq<Item>, ordered: seq<Item>)
    requires multiset(ordered) == multiset(TraceItems(evidence)) && |ordered| == |TraceItems(evidence)|
    ensures multiset(Refilled(evidence, ordered)) == multiset(evidence)
    ensures forall i :: 0 <= i < |evidence| ==>
              if evidence[i].isTrace then Refilled(evidence, ordered)[i].isTrace else Refilled(evidence, ordered)[i] == evidence[i]
  {
    KeptSlots(evidence, ordered);
    RefilledPermutes(evidence, ordered);
    Cancel(multiset(Refilled(evidence, ordered)), multiset(evidence), multiset(ordered));
  }

  lemma Cancel(a: multiset<Item>, b: multiset<Item>, c: multiset<Item>)
    requires a + c == b + c
    ensures a == b
  {
    assert a == (a + c) - c;
    assert b == (b + c) - c;
  }

  lemma KeptSlots(evidence: seq<Item>, ordered: seq<Item>)
    requires multiset(ordered) == multiset(TraceItems(evidence)) && |ordered| == |TraceItems(evidence)|
    ensures forall i :: 0 <= i < |evidence| ==>
              if evidence[i].isTrace then Refilled(evidence, ordered)[i].isTrace else Refilled(evidence, ordered)[i] == evidence[i]
  {
    forall i | 0 <= i < |evidence|
      ensures if evidence[i].isTrace then Refilled(evidence, ordered)[i].isTrace else Refilled(evidence, ordered)[i] == evidence[i]
    {
      RefilledKeepsSlots(evidence, ordered, i);
      if evidence[i].isTrace {
        var x := Refilled(evidence, ordered)[i];
        assert x in multiset(ordered);
        assert x in TraceItems(evidence);
        TraceItemsAreTraces(evidence, x);
      }
    }
  }
}
