/** Clustering the evidence of one component, and ranking the clusters as root-cause attributions. */
module Attributions {
  import opened AnomalySegments
  import opened Grouping
  import opened Options
  import opened QueueMerge
  import opened RoundRobin
  import opened Runs
  import opened Sorting
  import opened Vocabulary

  /** `segment` is the id of the anomaly segment, if any; ids are ranks in text order. */
  datatype Evidence = Evidence(
    id: int, timestamp: int, segment: Option<int>, basis: Basis, points: int, provider: int, signalType: Option<int>)

  predicate TimeOrder(a: Evidence, b: Evidence) {
    LexLeq([a.timestamp, a.id], [b.timestamp, b.id])
  }

  // ---------------------------------------------------------------- clusters in time

  function Stamps(items: seq<Evidence>): (r: seq<int>)
    ensures |r| == |items|
  {
    seq(|items|, i requires 0 <= i < |items| => items[i].timestamp)
  }

  /** Sixty seconds, or twice the median of the shorter half of the intervals. */
  function ClusterGap(times: seq<int>): (r: real)
    ensures r >= 60.0
  {
    if |times| < 2 then 60.0
    else
      var intervals := Sort(RealLeq, Intervals(times));
      var sample := intervals[..(|intervals| + 1) / 2];
      Max(60.0, 2.0 * Median(sample))
  }

  function Everything(n: nat): (r: seq<bool>)
    ensures |r| == n
  {
    seq(n, i => true)
  }

  function ClusterSpans(ordered: seq<Evidence>, n: nat): seq<Span>
    requires n <= |ordered|
  {
    Spans(Everything(|ordered|), Stamps(ordered), ClusterGap(Stamps(ordered)), n)
  }

  ghost predicate SpansWithin(spans: seq<Span>, n: nat) {
    forall k :: 0 <= k < |spans| ==> spans[k].low < spans[k].high <= n
  }

  function Cut(ordered: seq<Evidence>, spans: seq<Span>): (r: seq<seq<Evidence>>)
    requires SpansWithin(spans, |ordered|)
    ensures |r| == |spans|
  {
    seq(|spans|, k requires 0 <= k < |spans| => ordered[spans[k].low..spans[k].high])
  }

  /** The ranges follow each other from 0 to `n` without a hole. */
  ghost predicate Tiles(spans: seq<Span>, n: nat) {
    && SpansWithin(spans, n)
    && (spans == [] <==> n == 0)
    && (spans != [] ==> spans[0].low == 0 && spans[|spans| - 1].high == n)
    && (forall k :: 0 < k < |spans| ==> spans[k].low == spans[k - 1].high)
  }

  lemma {:induction false} SpansTile(ordered: seq<Evidence>, n: nat)
    requires n <= |ordered|
    ensures Tiles(ClusterSpans(ordered, n), n)
  {
    if n > 0 {
      SpansTile(ordered, n - 1);
    }
  }

  function TimeClusters(items: seq<Evidence>): seq<seq<Evidence>> {
    var ordered := Sort(TimeOrder, items);
    SpansTile(ordered, |ordered|);
    Cut(ordered, ClusterSpans(ordered, |ordered|))
  }

  function Joined(clusters: seq<seq<Evidence>>): seq<Evidence> {
    if clusters == [] then [] else Joined(clusters[..|clusters| - 1]) + clusters[|clusters| - 1]
  }

  lemma {:induction false} TilesJoin(ordered: seq<Evidence>, spans: seq<Span>, k: nat)
    requires Tiles(spans, |ordered|) && 0 < k <= |spans|
    ensures Joined(Cut(ordered, spans)[..k]) == ordered[..spans[k - 1].high]
    decreases k
  {
    var cuts := Cut(ordered, spans);
    assert cuts[..k][..k - 1] == cuts[..k - 1];
    assert Joined(cuts[..k]) == Joined(cuts[..k - 1]) + cuts[k - 1];
    if k == 1 {
      assert cuts[..0] == [];
    } else {
      TilesJoin(ordered, spans, k - 1);
    }
  }

  function GapBetween(a: Evidence, b: Evidence): real {
    (b.timestamp - a.timestamp) as real
  }

  /** Neighbours inside a cluster are at most `gap` apart. */
  ghost predicate CloseInside(cluster: seq<Evidence>, gap: real) {
    cluster != [] && forall i :: 0 < i < |cluster| ==> GapBetween(cluster[i - 1], cluster[i]) <= gap
  }

  /** The last of one cluster and the first of the next are more than `gap` apart. */
  ghost predicate FarBetween(a: seq<Evidence>, b: seq<Evidence>, gap: real) {
    a != [] && b != [] && GapBetween(a[|a| - 1], b[0]) > gap
  }

  lemma ClusterInside(ordered: seq<Evidence>, k: nat)
    requires Tiles(ClusterSpans(ordered, |ordered|), |ordered|) && k < |ClusterSpans(ordered, |ordered|)|
    ensures CloseInside(Cut(ordered, ClusterSpans(ordered, |ordered|))[k], ClusterGap(Stamps(ordered)))
  {
    var flags, times, gap := Everything(|ordered|), Stamps(ordered), ClusterGap(Stamps(ordered));
    SpansAreMaximal(flags, times, gap, |ordered|);
    var span := ClusterSpans(ordered, |ordered|)[k];
    assert IsRun(flags, times, gap, span);
    var cluster := ordered[span.low..span.high];
    forall i | 0 < i < |cluster| ensures GapBetween(cluster[i - 1], cluster[i]) <= gap {
      assert Close(times, gap, span.low + i);
    }
  }

  lemma ClusterBoundary(ordered: seq<Evidence>, k: nat)
    requires Tiles(ClusterSpans(ordered, |ordered|), |ordered|) && 0 < k < |ClusterSpans(ordered, |ordered|)|
    ensures FarBetween(Cut(ordered, ClusterSpans(ordered, |ordered|))[k - 1], Cut(ordered, ClusterSpans(ordered, |ordered|))[k], ClusterGap(Stamps(ordered)))
  {
    var gap := ClusterGap(Stamps(ordered));
    SpansAreMaximal(Everything(|ordered|), Stamps(ordered), gap, |ordered|);
    var a, b := ClusterSpans(ordered, |ordered|)[k - 1], ClusterSpans(ordered, |ordered|)[k];
    assert Apart(Everything(|ordered|), Stamps(ordered), gap, a, b);
    ApartIsFar(ordered, gap, a, b);
  }

  lemma ApartIsFar(ordered: seq<Evidence>, gap: real, a: Span, b: Span)
    requires Apart(Everything(|ordered|), Stamps(ordered), gap, a, b) && a.high == b.low
    ensures FarBetween(ordered[a.low..a.high], ordered[b.low..b.high], gap)
  {
  }

  /** The clusters concatenate to the evidence in time order, none is empty, and gaps above the
      threshold are exactly at their boundaries. */
  lemma ClustersMean(items: seq<Evidence>)
    ensures Joined(TimeClusters(items)) == Sort(TimeOrder, items)
    ensures multiset(Sort(TimeOrder, items)) == multiset(items) && Sorted(TimeOrder, Sort(TimeOrder, items))
    ensures var gap := ClusterGap(Stamps(Sort(TimeOrder, items)));
            && (forall k :: 0 <= k < |TimeClusters(items)| ==> CloseInside(TimeClusters(items)[k], gap))
            && (forall k :: 0 < k < |TimeClusters(items)| ==> FarBetween(TimeClusters(items)[k - 1], TimeClusters(items)[k], gap))
  {
    var ordered := Sort(TimeOrder, items);
    KeyOrderIsTotal((x: Evidence) => [x.timestamp, x.id], TimeOrder);
    SortIsSorted(TimeOrder, items);
    SpansTile(ordered, |ordered|);
    var clusters := TimeClusters(items);
    assert clusters[..|clusters|] == clusters;
    if clusters != [] {
      TilesJoin(ordered, ClusterSpans(ordered, |ordered|), |clusters|);
    }
    forall k | 0 <= k < |clusters| ensures CloseInside(clusters[k], ClusterGap(Stamps(ordered))) {
      ClusterInside(ordered, k);
    }
    forall k | 0 < k < |clusters| ensures FarBetween(clusters[k - 1], clusters[k], ClusterGap(Stamps(ordered))) {
      ClusterBoundary(ordered, k);
    }
  }

  lemma FirstSpan(ordered: seq<Evidence>)
    requires ordered != []
    ensures ClusterSpans(ordered, 1) == [Span(0, 1)]
  {
    assert ClusterSpans(ordered, 0) == [];
  }

  /** The clusters of the first `i` items in time order. */
  ghost predicate Clustered(ordered: seq<Evidence>, i: nat, clusters: seq<seq<Evidence>>)
    requires i <= |ordered|
  {
    Tiles(ClusterSpans(ordered, i), i) && clusters == Cut(ordered, ClusterSpans(ordered, i))
  }

  lemma OneClustered(ordered: seq<Evidence>)
    requires ordered != []
    ensures Clustered(ordered, 1, [[ordered[0]]])
  {
    FirstSpan(ordered);
    SpansTile(ordered, 1);
    assert ordered[0..1] == [ordered[0]];
  }

  lemma AllClustered(items: seq<Evidence>, clusters: seq<seq<Evidence>>)
    requires Clustered(Sort(TimeOrder, items), |Sort(TimeOrder, items)|, clusters)
    ensures clusters == TimeClusters(items)
  {
  }

  lemma NoneClustered(items: seq<Evidence>)
    requires Sort(TimeOrder, items) == []
    ensures TimeClusters(items) == []
  {
  }

  method ClusterByTime(items: seq<Evidence>) returns (clusters: seq<seq<Evidence>>)
    ensures clusters == TimeClusters(items)
  {
    var ordered := Sort(TimeOrder, items);
    if ordered == [] {
      NoneClustered(items);
      return [];
    }
    if |ordered| < 2 {
      OneClustered(ordered);
      AllClustered(items, [[ordered[0]]]);
      assert ordered == [ordered[0]];
      return [ordered];
    }
    var gap := ClusterGap(Stamps(ordered));
    clusters := GrowClusters(ordered, gap);
    GrownIsClustered(ordered, |ordered|);
    AllClustered(items, clusters);
  }

  method GrowClusters(ordered: seq<Evidence>, gap: real) returns (clusters: seq<seq<Evidence>>)
    requires ordered != []
    ensures clusters == Grown(ordered, gap, |ordered|)
  {
    clusters := [[ordered[0]]];
    for i := 1 to |ordered|
      invariant clusters == Grown(ordered, gap, i)
    {
      var last := clusters[|clusters| - 1];
      if GapBetween(last[|last| - 1], ordered[i]) > gap {
        clusters := clusters + [[ordered[i]]];
      } else {
        clusters := clusters[|clusters| - 1 := last + [ordered[i]]];
      }
    }
  }

  /** The clusters with one more item. */
  function Extended(clusters: seq<seq<Evidence>>, gap: real, item: Evidence): (r: seq<seq<Evidence>>)
    requires clusters != [] && clusters[|clusters| - 1] != []
    ensures r != [] && r[|r| - 1] != []
  {
    var last := clusters[|clusters| - 1];
    if GapBetween(last[|last| - 1], item) > gap then clusters + [[item]] else clusters[|clusters| - 1 := last + [item]]
  }

  /** The loop's clusters after `n` items. */
  function Grown(ordered: seq<Evidence>, gap: real, n: nat): (r: seq<seq<Evidence>>)
    requires 0 < n <= |ordered|
    ensures r != [] && r[|r| - 1] != []
  {
    if n == 1 then [[ordered[0]]] else Extended(Grown(ordered, gap, n - 1), gap, ordered[n - 1])
  }

  lemma {:induction false} GrownIsClustered(ordered: seq<Evidence>, n: nat)
    requires 0 < n <= |ordered|
    ensures Clustered(ordered, n, Grown(ordered, ClusterGap(Stamps(ordered)), n))
  {
    if n == 1 {
      OneClustered(ordered);
    } else {
      var gap := ClusterGap(Stamps(ordered));
      GrownIsClustered(ordered, n - 1);
      ClusterNext(ordered, n - 1, Grown(ordered, gap, n - 1));
      assert Grown(ordered, gap, n) == Extended(Grown(ordered, gap, n - 1), gap, ordered[n - 1]);
    }
  }

  /** The ranges with point `i` added to the last one, or in a range of its own. */
  function NextRanges(ordered: seq<Evidence>, spans: seq<Span>, gap: real, i: nat): seq<Span>
    requires 0 < i < |ordered| && spans != []
  {
    if GapBetween(ordered[i - 1], ordered[i]) > gap then spans + [Span(i, i + 1)]
    else spans[|spans| - 1 := spans[|spans| - 1].(high := i + 1)]
  }

  lemma LastCut(ordered: seq<Evidence>, spans: seq<Span>, i: nat)
    requires 0 < i < |ordered| && SpansWithin(spans, i) && spans != [] && spans[|spans| - 1].high == i
    ensures var last := Cut(ordered, spans)[|spans| - 1]; last != [] && last[|last| - 1] == ordered[i - 1]
  {
  }

  lemma NextRangesCut(ordered: seq<Evidence>, spans: seq<Span>, gap: real, i: nat)
    requires 0 < i < |ordered| && SpansWithin(spans, i) && spans != [] && spans[|spans| - 1].high == i
    ensures SpansWithin(NextRanges(ordered, spans, gap, i), i + 1)
    ensures Cut(ordered, spans)[|spans| - 1] != []
    ensures Cut(ordered, NextRanges(ordered, spans, gap, i)) == Extended(Cut(ordered, spans), gap, ordered[i])
  {
    LastCut(ordered, spans, i);
    if GapBetween(ordered[i - 1], ordered[i]) > gap {
      CutOpens(ordered, spans, i);
    } else {
      CutExtends(ordered, spans, i);
    }
  }

  lemma ClusterNext(ordered: seq<Evidence>, i: nat, clusters: seq<seq<Evidence>>)
    requires 0 < i < |ordered|
    requires Clustered(ordered, i, clusters)
    ensures clusters != [] && clusters[|clusters| - 1] != []
    ensures Clustered(ordered, i + 1, Extended(clusters, ClusterGap(Stamps(ordered)), ordered[i]))
  {
    SpansTile(ordered, i + 1);
    NextSpans(ordered, i);
    NextRangesCut(ordered, ClusterSpans(ordered, i), ClusterGap(Stamps(ordered)), i);
  }

  lemma NextSpans(ordered: seq<Evidence>, i: nat)
    requires 0 < i < |ordered| && Tiles(ClusterSpans(ordered, i), i)
    ensures ClusterSpans(ordered, i + 1) == NextRanges(ordered, ClusterSpans(ordered, i), ClusterGap(Stamps(ordered)), i)
  {
    assert Close(Stamps(ordered), ClusterGap(Stamps(ordered)), i)
           <==> GapBetween(ordered[i - 1], ordered[i]) <= ClusterGap(Stamps(ordered));
  }

  lemma CutOpens(ordered: seq<Evidence>, spans: seq<Span>, i: nat)
    requires i < |ordered| && SpansWithin(spans, i)
    ensures SpansWithin(spans + [Span(i, i + 1)], i + 1)
    ensures Cut(ordered, spans + [Span(i, i + 1)]) == Cut(ordered, spans) + [[ordered[i]]]
  {
    assert ordered[i..i + 1] == [ordered[i]];
  }

  lemma CutExtends(ordered: seq<Evidence>, spans: seq<Span>, i: nat)
    requires i < |ordered| && SpansWithin(spans, i) && spans != [] && spans[|spans| - 1].high == i
    ensures var last := |spans| - 1;
            var after := spans[last := spans[last].(high := i + 1)];
            SpansWithin(after, i + 1)
            && Cut(ordered, after) == Cut(ordered, spans)[last := Cut(ordered, spans)[last] + [ordered[i]]]
  {
    var low := spans[|spans| - 1].low;
    assert ordered[low..i + 1] == ordered[low..i] + [ordered[i]];
  }

  // ---------------------------------------------------------------- clusters by segment

  function WithSegment(items: seq<Evidence>): seq<Evidence> {
    if items == [] then [] else (if items[0].segment.Some? then [items[0]] else []) + WithSegment(items[1..])
  }

  function Historical(items: seq<Evidence>): seq<Evidence> {
    if items == [] then [] else (if items[0].segment.None? then [items[0]] else []) + Historical(items[1..])
  }

  lemma {:induction false} SplitBySegment(items: seq<Evidence>)
    ensures multiset(items) == multiset(WithSegment(items)) + multiset(Historical(items))
    ensures forall x :: x in WithSegment(items) ==> x.segment.Some?
    ensures forall x :: x in Historical(items) ==> x.segment.None?
  {
    if items != [] {
      SplitBySegment(items[1..]);
      assert items == [items[0]] + items[1..];
    }
  }

  type SegmentGroup = Group<Option<int>, Evidence>

  function SegmentOf(x: Evidence): Option<int> {
    x.segment
  }

  predicate SegmentOrder(a: SegmentGroup, b: SegmentGroup) {
    (if a.key.Some? then a.key.value else 0) <= (if b.key.Some? then b.key.value else 0)
  }

  function SegmentGroups(items: seq<Evidence>): seq<SegmentGroup> {
    Sort(SegmentOrder, GroupsOf(SegmentOf, WithSegment(items)))
  }

  function SortedItems(groups: seq<SegmentGroup>): (r: seq<seq<Evidence>>)
    ensures |r| == |groups|
  {
    seq(|groups|, k requires 0 <= k < |groups| => Sort(TimeOrder, groups[k].items))
  }

  function SegmentAwareClusters(items: seq<Evidence>): seq<seq<Evidence>> {
    SortedItems(SegmentGroups(items)) + TimeClusters(Historical(items))
  }

  lemma {:induction false} BagOfBoth(a: seq<seq<Evidence>>, b: seq<seq<Evidence>>)
    ensures Bag(a + b) == Bag(a) + Bag(b)
  {
    if b == [] {
      assert a + b == a;
    } else {
      var n := |b| - 1;
      BagOfBoth(a, b[..n]);
      assert (a + b)[..|a + b| - 1] == a + b[..n];
    }
  }

  lemma {:induction false} BagOfJoined(clusters: seq<seq<Evidence>>)
    ensures Bag(clusters) == multiset(Joined(clusters))
  {
    if clusters != [] {
      BagOfJoined(clusters[..|clusters| - 1]);
    }
  }

  lemma {:induction false} BagOfSortedItems(groups: seq<SegmentGroup>)
    ensures Bag(SortedItems(groups)) == GroupBag(groups)
  {
    if groups != [] {
      var rest, first := groups[1..], Sort(TimeOrder, groups[0].items);
      BagOfSortedItems(rest);
      SortIsSorted(TimeOrder, groups[0].items);
      assert SortedItems(groups) == [first] + SortedItems(rest);
      BagCons(first, SortedItems(rest));
      assert GroupBag(groups) == multiset(groups[0].items) + GroupBag(rest);
    }
  }

  lemma {:induction false} GroupBagOfInsert(g: SegmentGroup, groups: seq<SegmentGroup>)
    ensures GroupBag(Insert(SegmentOrder, g, groups)) == multiset(g.items) + GroupBag(groups)
  {
    if groups != [] && !SegmentOrder(g, groups[0]) {
      GroupBagOfInsert(g, groups[1..]);
      assert Insert(SegmentOrder, g, groups)[1..] == Insert(SegmentOrder, g, groups[1..]);
    } else {
      assert ([g] + groups)[1..] == groups;
    }
  }

  lemma {:induction false} GroupBagOfSort(groups: seq<SegmentGroup>)
    ensures GroupBag(Sort(SegmentOrder, groups)) == GroupBag(groups)
  {
    if groups != [] {
      GroupBagOfSort(groups[1..]);
      GroupBagOfInsert(groups[0], Sort(SegmentOrder, groups[1..]));
    }
  }

  /** Clustering loses and repeats nothing. */
  lemma ClustersKeepItems(items: seq<Evidence>)
    ensures Bag(SegmentAwareClusters(items)) == multiset(items)
  {
    SplitBySegment(items);
    GroupsKeepItems(SegmentOf, WithSegment(items));
    GroupBagOfSort(GroupsOf(SegmentOf, WithSegment(items)));
    BagOfSortedItems(SegmentGroups(items));
    ClustersMean(Historical(items));
    BagOfJoined(TimeClusters(Historical(items)));
    BagOfBoth(SortedItems(SegmentGroups(items)), TimeClusters(Historical(items)));
  }

  ghost predicate AllOf(cluster: seq<Evidence>, segment: Option<int>) {
    forall x :: x in cluster ==> x.segment == segment
  }

  /** One cluster for each segment, holding only it; different segments never share a cluster,
      and evidence without a segment is never mixed in. */
  lemma SegmentsStayApart(items: seq<Evidence>)
    ensures var groups := SegmentGroups(items);
            && (forall k :: 0 <= k < |groups| ==> groups[k].key.Some? && AllOf(SegmentAwareClusters(items)[k], groups[k].key))
            && (forall j, k :: 0 <= j < k < |groups| ==> groups[j].key != groups[k].key)
            && (forall k :: |groups| <= k < |SegmentAwareClusters(items)| ==> AllOf(SegmentAwareClusters(items)[k], None))
  {
    SplitBySegment(items);
    GroupsKeepItems(SegmentOf, WithSegment(items));
    GroupsStayApart(WithSegment(items), GroupsOf(SegmentOf, WithSegment(items)), SegmentGroups(items));
    var late := TimeClusters(Historical(items));
    forall k | 0 <= k < |late| ensures AllOf(late[k], None) {
      LateClusters(items, k);
    }
  }

  lemma GroupsStayApart(items: seq<Evidence>, raw: seq<SegmentGroup>, groups: seq<SegmentGroup>)
    requires WellGrouped(SegmentOf, raw) && GroupBag(raw) == multiset(items) && groups == Sort(SegmentOrder, raw)
    requires forall x :: x in items ==> x.segment.Some?
    ensures forall k :: 0 <= k < |groups| ==> groups[k].key.Some? && AllOf(SortedItems(groups)[k], groups[k].key)
    ensures forall j, k :: 0 <= j < k < |groups| ==> groups[j].key != groups[k].key
  {
    assert Distinct(raw);
    SortKeepsDistinct(SegmentOrder, raw);
    forall k | 0 <= k < |groups| ensures groups[k].key.Some? && AllOf(SortedItems(groups)[k], groups[k].key) {
      assert groups[k] in raw;
      GroupHasSegment(items, raw, groups[k]);
    }
    forall j, k | 0 <= j < k < |groups| ensures groups[j].key != groups[k].key {
      assert groups[j] in raw && groups[k] in raw && groups[j] != groups[k];
    }
  }

  lemma GroupHasSegment(items: seq<Evidence>, raw: seq<SegmentGroup>, g: SegmentGroup)
    requires GroupBag(raw) == multiset(items) && g in raw && HoldsKey(SegmentOf, g)
    requires forall x :: x in items ==> x.segment.Some?
    ensures g.key.Some? && AllOf(Sort(TimeOrder, g.items), g.key)
  {
    MemberOfGroup(raw, g, g.items[0]);
    assert g.items[0] in items && SegmentOf(g.items[0]) == g.key;
    forall x: Evidence | x in Sort(TimeOrder, g.items) ensures x.segment == g.key {
      SortMembers(TimeOrder, g.items, x);
      assert SegmentOf(x) == g.key;
    }
  }

  lemma LateClusters(items: seq<Evidence>, k: nat)
    requires k < |TimeClusters(Historical(items))|
    ensures AllOf(TimeClusters(Historical(items))[k], None)
  {
    var late := TimeClusters(Historical(items));
    SplitBySegment(items);
    ClustersMean(Historical(items));
    forall x: Evidence | x in late[k] ensures x.segment == None {
      MemberOfJoined(late, k, x);
      SortMembers(TimeOrder, Historical(items), x);
    }
  }

  lemma {:induction false} MemberOfGroup(groups: seq<SegmentGroup>, g: SegmentGroup, x: Evidence)
    requires g in groups && x in g.items
    ensures x in GroupBag(groups)
  {
    if g != groups[0] {
      MemberOfGroup(groups[1..], g, x);
    }
  }

  lemma {:induction false} MemberOfJoined(clusters: seq<seq<Evidence>>, k: nat, x: Evidence)
    requires k < |clusters| && x in clusters[k]
    ensures x in Joined(clusters)
  {
    if k < |clusters| - 1 {
      MemberOfJoined(clusters[..|clusters| - 1], k, x);
    }
  }

  // ---------------------------------------------------------------- ranking the attributions

  /** A cluster with its attribution; `score` is the cluster score, `body` the attribution's payload. */
  datatype Attribution = Attribution(cluster: seq<Evidence>, score: int, occurredAt: int, component: int, reason: int, body: nat)

  datatype Cohort = RelativeCohort | LegacyCohort | PresenceOrMixed

  function Bases(cluster: seq<Evidence>): set<Basis> {
    set x | x in cluster :: x.basis
  }

  function CohortOf(a: Attribution): Cohort {
    if Bases(a.cluster) == {Relative} then RelativeCohort
    else if Bases(a.cluster) == {Legacy} then LegacyCohort
    else PresenceOrMixed
  }

  function CohortQueue(a: Attribution): nat {
    match CohortOf(a)
    case RelativeCohort => 0
    case LegacyCohort => 1
    case PresenceOrMixed => 2
  }

  function PointSum(cluster: seq<Evidence>): int {
    if cluster == [] then 0 else cluster[0].points + PointSum(cluster[1..])
  }

  function ScoreKey(a: Attribution): seq<int> {
    [-a.score, a.occurredAt, a.component, a.reason]
  }

  /** More points, then more evidence, providers and signal types; then onset and text. */
  function SupportKey(a: Attribution): seq<int> {
    [-PointSum(a.cluster),
     -(|set x | x in a.cluster :: x.id|),
     -(|set x | x in a.cluster :: x.provider|),
     -(|set x | x in a.cluster && x.signalType.Some? :: x.signalType|),
     a.occurredAt, a.component, a.reason]
  }

  predicate ScoreOrder(a: Attribution, b: Attribution) {
    LexLeq(ScoreKey(a), ScoreKey(b))
  }

  predicate SupportOrder(a: Attribution, b: Attribution) {
    LexLeq(SupportKey(a), SupportKey(b))
  }

  const COHORT_ORDERS: seq<(Attribution, Attribution) -> bool> := [ScoreOrder, ScoreOrder, SupportOrder]

  function Ranked(entries: seq<Attribution>): seq<Attribution> {
    RankedByHeads(COHORT_ORDERS, SupportOrder, CohortQueue, entries)
  }

  method RankAttributions(entries: seq<Attribution>) returns (ordered: seq<Attribution>)
    ensures ordered == Ranked(entries)
  {
    ordered := Merge(SupportOrder, SortedQueues(COHORT_ORDERS, CohortQueue, entries));
  }

  lemma CohortOrdersAreTotal()
    ensures TotalPreorder(ScoreOrder) && TotalPreorder(SupportOrder)
  {
    KeyOrderIsTotal(ScoreKey, ScoreOrder);
    KeyOrderIsTotal(SupportKey, SupportOrder);
  }

  /** The ranking is a permutation, each cohort stays in its own order, and scores of different
      cohorts are never compared: the attribution in place `k` beats the next one of every
      cohort by support. */
  lemma AttributionRankingMeans(entries: seq<Attribution>, cohort: nat)
    requires cohort < 3
    ensures multiset(Ranked(entries)) == multiset(entries)
    ensures From(CohortQueue, cohort, Ranked(entries)) == Sort(COHORT_ORDERS[cohort], From(CohortQueue, cohort, entries))
    ensures Sorted(COHORT_ORDERS[cohort], From(CohortQueue, cohort, Ranked(entries)))
  {
    RankingPermutes(COHORT_ORDERS, SupportOrder, CohortQueue, entries);
    CohortOrdersAreTotal();
    SortIsSorted(COHORT_ORDERS[cohort], From(CohortQueue, cohort, entries));
  }

  lemma CohortHeadsCompareSupport(entries: seq<Attribution>, k: nat, cohort: nat)
    requires k < |Ranked(entries)| && cohort < 3
    requires |From(CohortQueue, cohort, Ranked(entries)[..k])| < |From(CohortQueue, cohort, entries)|
    ensures var next := Sort(COHORT_ORDERS[cohort], From(CohortQueue, cohort, entries))[|From(CohortQueue, cohort, Ranked(entries)[..k])|];
            Beats(SupportOrder, Ranked(entries)[k], CohortQueue(Ranked(entries)[k]), next, cohort)
  {
    CohortOrdersAreTotal();
    SortedQueuesLabelled(COHORT_ORDERS, CohortQueue, entries);
    MergedTakesLeastHead(SupportOrder, CohortQueue, SortedQueues(COHORT_ORDERS, CohortQueue, entries), k, cohort);
  }
}
