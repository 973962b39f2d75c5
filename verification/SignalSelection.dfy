/** Ranking the evidence of one signal family, and choosing a bounded, balanced set of it. */
module SignalSelection {
  import opened BalancedRounds
  import opened Grouping
  import opened QueueMerge
  import opened RoundRobin
  import opened Sorting
  import opened Vocabulary

  /** The families with a fixed coverage priority, in that order; others rank by name. */
  datatype Family =
    | NetworkCorruption | NetworkLatency | Socket | Memory | Cpu | DiskIo
    | Process | Error | Timeout | Traffic | Latency
    | Other(name: int)

  /** Times in ticks, texts as their rank in text order; an empty signal name has rank 0.
      `strength` is 0 and `points` is 1 when the payload has no valid value. */
  datatype Item = Item(
    family: Family, component: int, timestamp: int, name: int, id: int,
    basis: Basis, strength: int, points: int, names: seq<int>)

  // ---------------------------------------------------------------- ranking inside a family

  function CrossKey(x: Item): seq<int> {
    [-x.points, x.timestamp, x.component, x.name, x.id]
  }

  function RelativeKey(x: Item): seq<int> {
    [-x.strength, -x.points, x.timestamp, x.component, x.name, x.id]
  }

  function StrengthKey(x: Item): seq<int> {
    [-x.strength, x.timestamp, x.component, x.name, x.id]
  }

  predicate CrossOrder(x: Item, y: Item) {
    LexLeq(CrossKey(x), CrossKey(y))
  }

  predicate RelativeOrder(x: Item, y: Item) {
    LexLeq(RelativeKey(x), RelativeKey(y))
  }

  predicate StrengthOrder(x: Item, y: Item) {
    LexLeq(StrengthKey(x), StrengthKey(y))
  }

  function BasisQueue(x: Item): nat {
    match x.basis
    case Relative => 0
    case PresenceOnly => 1
    case Legacy => 2
  }

  const BASIS_ORDERS: seq<(Item, Item) -> bool> := [RelativeOrder, CrossOrder, StrengthOrder]

  function SortFamily(items: seq<Item>): seq<Item> {
    RankedByHeads(BASIS_ORDERS, CrossOrder, BasisQueue, items)
  }

  lemma OrdersAreTotal()
    ensures TotalPreorder(CrossOrder) && TotalPreorder(RelativeOrder) && TotalPreorder(StrengthOrder)
  {
    KeyOrderIsTotal(CrossKey, CrossOrder);
    KeyOrderIsTotal(RelativeKey, RelativeOrder);
    KeyOrderIsTotal(StrengthKey, StrengthOrder);
  }

  /** A family's ranking is a permutation of it; the items of one basis appear in that basis's own order. */
  lemma FamilyRankingMeans(items: seq<Item>, basis: nat)
    requires basis < 3
    ensures multiset(SortFamily(items)) == multiset(items)
    ensures From(BasisQueue, basis, SortFamily(items)) == Sort(BASIS_ORDERS[basis], From(BasisQueue, basis, items))
    ensures Sorted(BASIS_ORDERS[basis], From(BasisQueue, basis, SortFamily(items)))
  {
    RankingPermutes(BASIS_ORDERS, CrossOrder, BasisQueue, items);
    OrdersAreTotal();
    SortIsSorted(BASIS_ORDERS[basis], From(BasisQueue, basis, items));
  }

  /** Strengths of different bases are never compared: the item in place `k` precedes the next
      item of every other basis by support, onset and identity alone. */
  lemma FamilyHeadsCompareSupport(items: seq<Item>, k: nat, basis: nat)
    requires k < |SortFamily(items)| && basis < 3
    requires |From(BasisQueue, basis, SortFamily(items)[..k])| < |From(BasisQueue, basis, items)|
    ensures var next := Sort(BASIS_ORDERS[basis], From(BasisQueue, basis, items))[|From(BasisQueue, basis, SortFamily(items)[..k])|];
            Beats(CrossOrder, SortFamily(items)[k], BasisQueue(SortFamily(items)[k]), next, basis)
  {
    OrdersAreTotal();
    SortedQueuesLabelled(BASIS_ORDERS, BasisQueue, items);
    MergedTakesLeastHead(CrossOrder, BasisQueue, SortedQueues(BASIS_ORDERS, BasisQueue, items), k, basis);
  }

  method RankFamily(items: seq<Item>) returns (ordered: seq<Item>)
    ensures ordered == SortFamily(items)
  {
    ordered := Merge(CrossOrder, SortedQueues(BASIS_ORDERS, BasisQueue, items));
  }

  // ---------------------------------------------------------------- merging equal observations

  function ObservationKey(x: Item): (Family, int, int) {
    (x.family, x.component, x.timestamp)
  }

  /** First item that no later one precedes and that precedes none before it. */
  function Least(leq: (Item, Item) -> bool, items: seq<Item>): (r: Item)
    requires items != []
    ensures r in items
  {
    var n := |items| - 1;
    if n == 0 then items[0]
    else
      var r := Least(leq, items[..n]);
      assert items == items[..n] + [items[n]];
      if leq(r, items[n]) then r else items[n]
  }

  lemma {:induction false} LeastIsLeast(leq: (Item, Item) -> bool, items: seq<Item>, x: Item)
    requires TotalPreorder(leq) && x in items
    ensures leq(Least(leq, items), x)
  {
    var n := |items| - 1;
    assert items == items[..n] + [items[n]];
    if n > 0 {
      if x in items[..n] {
        LeastIsLeast(leq, items[..n], x);
      }
      assert Least(leq, items[..n]) in items;
    }
  }

  predicate NumberLeq(a: int, b: int) {
    a <= b
  }

  /** The different nonempty names of a group, in order. */
  function Names(items: seq<Item>): seq<int> {
    if items == [] then []
    else
      var rest := Names(items[1..]);
      if items[0].name == 0 || items[0].name in rest then rest else Insert(NumberLeq, items[0].name, rest)
  }

  function MergeGroup(items: seq<Item>): (r: Item)
    requires items != []
    ensures ObservationKey(r) == ObservationKey(Least(StrengthOrder, items))
  {
    Least(StrengthOrder, items).(names := Names(items))
  }

  lemma {:induction false} NamesMean(items: seq<Item>)
    ensures forall n: int :: n in Names(items) <==> n != 0 && exists x :: x in items && x.name == n
    ensures Distinct(Names(items)) && Sorted(NumberLeq, Names(items))
  {
    if items != [] {
      NamesMean(items[1..]);
      var rest := Names(items[1..]);
      assert items == [items[0]] + items[1..];
      assert forall x :: x in items <==> x == items[0] || x in items[1..];
      if items[0].name != 0 && items[0].name !in rest {
        InsertKeepsDistinct(NumberLeq, items[0].name, rest);
        InsertKeeps(NumberLeq, items[0].name, rest);
      }
      forall n: int ensures n in Names(items) <==> n != 0 && exists x :: x in items && x.name == n {
        if n != 0 && n == items[0].name {
          assert items[0] in items;
        } else if n in rest {
          var x :| x in items[1..] && x.name == n;
          assert x in items;
        }
      }
    }
  }

  function Observations(items: seq<Item>): seq<Group<(Family, int, int), Item>> {
    GroupsOf(ObservationKey, items)
  }

  /** One item for each observation. */
  function MergedItems(items: seq<Item>): (r: seq<Item>)
    ensures |r| == |Observations(items)|
  {
    GroupsKeepItems(ObservationKey, items);
    var groups := Observations(items);
    seq(|groups|, i requires 0 <= i < |groups| =>
      assert HoldsKey(ObservationKey, groups[i]);
      MergeGroup(groups[i].items))
  }

  // ---------------------------------------------------------------- queues by family

  function FamilyPriority(f: Family): seq<int> {
    match f
    case NetworkCorruption => [0]
    case NetworkLatency => [1]
    case Socket => [2]
    case Memory => [3]
    case Cpu => [4]
    case DiskIo => [5]
    case Process => [6]
    case Error => [7]
    case Timeout => [8]
    case Traffic => [9]
    case Latency => [10]
    case Other(name) => [11, name]
  }

  function FamilyOf(x: Item): Family {
    x.family
  }

  type FamilyGroup = Group<Family, Item>

  predicate FamilyOrder(a: FamilyGroup, b: FamilyGroup) {
    LexLeq(FamilyPriority(a.key), FamilyPriority(b.key))
  }

  function Families(items: seq<Item>): seq<FamilyGroup> {
    Sort(FamilyOrder, GroupsOf(FamilyOf, MergedItems(items)))
  }

  function QueuesOf(families: seq<FamilyGroup>): (r: seq<seq<Item>>)
    ensures |r| == |families|
  {
    seq(|families|, i requires 0 <= i < |families| => SortFamily(families[i].items))
  }

  /** Place of a family among the queues. */
  function IndexOf(families: seq<FamilyGroup>, f: Family): nat {
    if families == [] || families[0].key == f then 0 else 1 + IndexOf(families[1..], f)
  }

  lemma {:induction false} IndexOfKey(families: seq<FamilyGroup>, i: nat)
    requires i < |families| && forall j, k :: 0 <= j < k < |families| ==> families[j].key != families[k].key
    ensures IndexOf(families, families[i].key) == i
  {
    if i > 0 {
      IndexOfKey(families[1..], i - 1);
    }
  }

  lemma {:induction false} GroupBagOfInsert(leq: (FamilyGroup, FamilyGroup) -> bool, g: FamilyGroup, groups: seq<FamilyGroup>)
    ensures GroupBag(Insert(leq, g, groups)) == multiset(g.items) + GroupBag(groups)
  {
    if groups != [] && !leq(g, groups[0]) {
      GroupBagOfInsert(leq, g, groups[1..]);
      assert Insert(leq, g, groups)[1..] == Insert(leq, g, groups[1..]);
    } else {
      assert ([g] + groups)[1..] == groups;
    }
  }

  lemma {:induction false} GroupBagOfSort(leq: (FamilyGroup, FamilyGroup) -> bool, groups: seq<FamilyGroup>)
    ensures GroupBag(Sort(leq, groups)) == GroupBag(groups)
  {
    if groups != [] {
      GroupBagOfSort(leq, groups[1..]);
      GroupBagOfInsert(leq, groups[0], Sort(leq, groups[1..]));
    }
  }

  lemma {:induction false} SortedKeysDiffer(leq: (FamilyGroup, FamilyGroup) -> bool, groups: seq<FamilyGroup>)
    requires WellGrouped(FamilyOf, groups)
    ensures WellGrouped(FamilyOf, Sort(leq, groups))
  {
    var r := Sort(leq, groups);
    assert Distinct(groups);
    SortKeepsDistinct(leq, groups);
    forall i | 0 <= i < |r| ensures HoldsKey(FamilyOf, r[i]) {
      assert r[i] in groups;
    }
    forall i, j | 0 <= i < j < |r| ensures r[i].key != r[j].key {
      assert r[i] in groups && r[j] in groups && r[i] != r[j];
    }
  }

  ghost predicate QueueOfFamily(families: seq<FamilyGroup>, f: nat)
    requires f < |families|
  {
    QueuesOf(families)[f] != [] && forall x: Item :: x in QueuesOf(families)[f] ==> IndexOf(families, x.family) == f
  }

  lemma QueueHoldsFamily(families: seq<FamilyGroup>, f: nat)
    requires WellGrouped(FamilyOf, families) && f < |families|
    ensures QueueOfFamily(families, f)
  {
    var queue := QueuesOf(families)[f];
    assert HoldsKey(FamilyOf, families[f]);
    FamilyRankingMeans(families[f].items, 0);
    assert |multiset(queue)| == |families[f].items|;
    IndexOfKey(families, f);
    forall x: Item | x in queue ensures IndexOf(families, x.family) == f {
      assert x in multiset(queue);
      assert FamilyOf(x) == families[f].key;
    }
  }

  /** Every observation is in exactly one queue, under its own family; no queue is empty. */
  lemma QueuesHoldFamilies(items: seq<Item>)
    ensures var families := Families(items);
            && WellGrouped(FamilyOf, families)
            && Labelled((x: Item) => IndexOf(families, x.family), QueuesOf(families))
            && (forall f :: 0 <= f < |families| ==> QueuesOf(families)[f] != [])
            && GroupBag(families) == multiset(MergedItems(items))
  {
    FamiliesAreGrouped(items);
    QueuesAreLabelled(Families(items));
  }

  lemma QueuesAreLabelled(families: seq<FamilyGroup>)
    requires WellGrouped(FamilyOf, families)
    ensures Labelled((x: Item) => IndexOf(families, x.family), QueuesOf(families))
    ensures forall f :: 0 <= f < |families| ==> QueuesOf(families)[f] != []
  {
    var queues: seq<seq<Item>> := QueuesOf(families);
    forall f: nat | f < |families| ensures QueueOfFamily(families, f) {
      QueueHoldsFamily(families, f);
    }
    forall f: nat, i: nat | f < |queues| && i < |queues[f]| ensures IndexOf(families, queues[f][i].family) == f {
      assert QueueOfFamily(families, f);
      assert queues[f][i] in queues[f];
    }
    forall f | 0 <= f < |families| ensures queues[f] != [] {
      assert QueueOfFamily(families, f);
    }
  }

  lemma FamiliesAreGrouped(items: seq<Item>)
    ensures WellGrouped(FamilyOf, Families(items))
    ensures GroupBag(Families(items)) == multiset(MergedItems(items))
  {
    var groups := GroupsOf(FamilyOf, MergedItems(items));
    GroupsKeepItems(FamilyOf, MergedItems(items));
    SortedKeysDiffer(FamilyOrder, groups);
    GroupBagOfSort(FamilyOrder, groups);
  }

  lemma {:induction false} QueueLengths(families: seq<FamilyGroup>)
    ensures TotalLength(QueuesOf(families)) == |GroupBag(families)|
  {
    if families != [] {
      QueueLengths(families[1..]);
      assert QueuesOf(families)[1..] == QueuesOf(families[1..]);
      FamilyRankingMeans(families[0].items, 0);
      assert |multiset(SortFamily(families[0].items))| == |multiset(families[0].items)|;
    }
  }

  // ---------------------------------------------------------------- the selection

  function SelectBalanced(items: seq<Item>, limit: int): seq<Item> {
    if limit <= 0 then [] else FirstRounds(QueuesOf(Families(items)), limit)
  }

  /** The queues come in coverage priority. */
  lemma FamiliesInPriority(items: seq<Item>)
    ensures Sorted(FamilyOrder, Families(items))
  {
    KeyOrderIsTotal((g: FamilyGroup) => FamilyPriority(g.key), FamilyOrder);
    SortIsSorted(FamilyOrder, GroupsOf(FamilyOf, MergedItems(items)));
  }

  /** Exactly as many items as there are observations, up to the limit. */
  lemma SelectionSize(items: seq<Item>, limit: nat)
    ensures |SelectBalanced(items, limit)| == if limit < |Observations(items)| then limit else |Observations(items)|
  {
    QueuesHoldFamilies(items);
    QueueLengths(Families(items));
    assert |multiset(MergedItems(items))| == |MergedItems(items)|;
    FlattenedLength(QueuesOf(Families(items)));
  }

  /** The selection takes the front of each family's ranking, as evenly as the sizes allow,
      and reaches every family before any gets a second item. */
  lemma SelectionIsBalanced(items: seq<Item>, limit: nat)
    ensures var families := Families(items);
            BalancedPrefixes(QueuesOf(families), (x: Item) => IndexOf(families, x.family), SelectBalanced(items, limit))
    ensures |Families(items)| <= limit ==>
              var families := Families(items);
              ReachesAll(QueuesOf(families), (x: Item) => IndexOf(families, x.family), SelectBalanced(items, limit))
  {
    var families := Families(items);
    QueuesHoldFamilies(items);
    FirstRoundsAreBalanced(QueuesOf(families), (x: Item) => IndexOf(families, x.family), limit);
    if limit == 0 {
      assert FirstRounds(QueuesOf(families), 0) == [];
    }
  }

  method Select(items: seq<Item>, limit: int) returns (selected: seq<Item>)
    ensures selected == SelectBalanced(items, limit)
  {
    if limit <= 0 {
      return [];
    }
    var observations := GroupBy(ObservationKey, items);
    var merged := MergeAll(items, observations);
    var families := GroupBy(FamilyOf, merged);
    var queues := RankFamilies(Sort(FamilyOrder, families));
    selected := TakeRounds(queues, limit);
  }

  method MergeAll(items: seq<Item>, observations: seq<Group<(Family, int, int), Item>>) returns (merged: seq<Item>)
    requires observations == Observations(items)
    ensures merged == MergedItems(items)
  {
    GroupsKeepItems(ObservationKey, items);
    merged := [];
    for i := 0 to |observations|
      invariant merged == MergedItems(items)[..i]
    {
      assert HoldsKey(ObservationKey, observations[i]);
      merged := merged + [MergeGroup(observations[i].items)];
    }
  }

  method RankFamilies(families: seq<FamilyGroup>) returns (queues: seq<seq<Item>>)
    ensures queues == QueuesOf(families)
  {
    queues := [];
    for i := 0 to |families|
      invariant queues == QueuesOf(families)[..i]
    {
      var ordered := RankFamily(families[i].items);
      queues := queues + [ordered];
    }
  }
}
