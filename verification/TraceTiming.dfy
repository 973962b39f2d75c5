/** Child coverage of a trace span: a sweep over the sorted child intervals, proved to measure
    their union. Times are whole ticks; an interval is the set of ticks it covers. */
module TraceTiming {
  import opened Options
  import opened Sorting

  datatype Span = Span(
    trace: string, id: string, parent: Option<string>, service: string, operation: string, start: int, duration: nat)

  datatype Timing = Timing(
    childCount: nat, covered: int, uncovered: int, longest: Span, peer: Option<Span>)

  type Key = (string, string)
  type Interval = (int, int)

  // ---------------------------------------------------------------- which children count

  function Count(spans: seq<Span>, key: Key): nat {
    if spans == [] then 0
    else Count(spans[..|spans| - 1], key) + (if (spans[|spans| - 1].trace, spans[|spans| - 1].id) == key then 1 else 0)
  }

  predicate Unique(spans: seq<Span>, s: Span) {
    Count(spans, (s.trace, s.id)) == 1
  }

  /** A parent id that is the empty text is no parent. */
  predicate HasParent(s: Span) {
    s.parent.Some? && s.parent.value != ""
  }

  predicate ChildOf(c: Span, key: Key) {
    HasParent(c) && c.trace == key.0 && c.parent == Some(key.1)
  }

  function Offset(s: Span, c: Span): Interval {
    (c.start - s.start, c.start - s.start + c.duration)
  }

  /** An observed child: same service, unambiguous id, inside the parent, not the span itself. */
  predicate Observed(spans: seq<Span>, s: Span, c: Span) {
    && ChildOf(c, (s.trace, s.id)) && c.service == s.service && Unique(spans, c)
    && 0 <= Offset(s, c).0 && Offset(s, c).1 <= s.duration && c.id != s.id
  }

  function Stripped(operation: string): string {
    if operation != "" && operation[0] == '/' then Stripped(operation[1..]) else operation
  }

  predicate Peer(spans: seq<Span>, longest: Span, p: Span) {
    && ChildOf(p, (longest.trace, longest.id)) && p.service != longest.service
    && Stripped(p.operation) == Stripped(longest.operation) && Unique(spans, p)
  }

  /** The ticks of `s` during which some observed child runs. */
  ghost function CoveredTicks(spans: seq<Span>, s: Span): set<int> {
    set x: int | 0 <= x < s.duration && Busy(spans, s, x)
  }

  ghost predicate Busy(spans: seq<Span>, s: Span, x: int) {
    exists c :: c in spans && Observed(spans, s, c) && InInterval(Offset(s, c), x)
  }

  predicate InInterval(p: Interval, x: int) {
    p.0 <= x < p.1
  }

  ghost function ObservedChildren(spans: seq<Span>, s: Span): set<Span> {
    set c | c in spans && Observed(spans, s, c)
  }

  /** What the timing of one span says. */
  ghost predicate TimingMeans(spans: seq<Span>, s: Span, r: Option<Timing>) {
    && (r.None? <==> ObservedChildren(spans, s) == {} || !Unique(spans, s))
    && (r.Some? ==>
          var t := r.value;
          && t.childCount == |ObservedChildren(spans, s)|
          && t.covered == |CoveredTicks(spans, s)|
          && t.covered + t.uncovered == s.duration
          && t.longest in ObservedChildren(spans, s)
          && (forall c :: c in ObservedChildren(spans, s) ==> c.duration <= t.longest.duration)
          && PeerMeans(spans, t.longest, t.peer))
  }

  ghost predicate PeerMeans(spans: seq<Span>, longest: Span, peer: Option<Span>) {
    var peers := set p | p in spans && Peer(spans, longest, p);
    if peer.Some? then peers == {peer.value} else |peers| != 1
  }

  // ---------------------------------------------------------------- the sweep

  ghost function Ticks(p: Interval): set<int> {
    set x: int | p.0 <= x < p.1 && InInterval(p, x)
  }

  ghost function Union(ps: seq<Interval>): set<int> {
    if ps == [] then {} else Union(ps[..|ps| - 1]) + Ticks(ps[|ps| - 1])
  }

  lemma {:induction false} UnionMeans(ps: seq<Interval>, x: int)
    ensures x in Union(ps) <==> exists k :: 0 <= k < |ps| && InInterval(ps[k], x)
  {
    if ps != [] {
      var n := |ps| - 1;
      UnionMeans(ps[..n], x);
      if x in Union(ps[..n]) {
        var k :| 0 <= k < |ps[..n]| && InInterval(ps[..n][k], x);
        assert InInterval(ps[k], x);
      }
      if k :| 0 <= k < |ps| && InInterval(ps[k], x) {
        assert k < n ==> InInterval(ps[..n][k], x);
      }
    }
  }

  lemma {:induction false} TicksCount(lo: int, hi: int)
    ensures |Ticks((lo, hi))| == if lo <= hi then hi - lo else 0
    decreases hi - lo
  {
    if lo < hi {
      TicksCount(lo, hi - 1);
      assert Ticks((lo, hi)) == Ticks((lo, hi - 1)) + {hi - 1};
    } else {
      assert Ticks((lo, hi)) == {};
    }
  }

  predicate EarlierFirst(a: Interval, b: Interval) {
    a.0 < b.0 || (a.0 == b.0 && a.1 <= b.1)
  }

  /** The sweep's state after the first `k` sorted intervals: everything counted lies left of
      `right`, and everything between the next start and `right` is already counted. */
  ghost predicate Swept(ps: seq<Interval>, k: nat, covered: int, right: int)
    requires k <= |ps|
  {
    && covered == |Union(ps[..k])|
    && (forall x :: x in Union(ps[..k]) ==> x < right)
    && (right == 0 || exists j :: 0 <= j < k && ps[j].1 == right)
    && 0 <= right
  }

  function Larger(a: int, b: int): int {
    if a >= b then a else b
  }

  function Gain(p: Interval, right: int): int {
    Larger(0, p.1 - Larger(p.0, right))
  }

  ghost predicate SortedStarts(ps: seq<Interval>) {
    && (forall i, j :: 0 <= i < j < |ps| ==> ps[i].0 <= ps[j].0)
    && (forall i :: 0 <= i < |ps| ==> 0 <= ps[i].0 <= ps[i].1)
  }

  lemma SweepStep(ps: seq<Interval>, k: nat, covered: int, right: int)
    requires k < |ps| && SortedStarts(ps) && Swept(ps, k, covered, right)
    ensures Swept(ps, k + 1, covered + Gain(ps[k], right), Larger(right, ps[k].1))
  {
    var p := ps[k];
    var lo := Larger(p.0, right);
    var done, added := Union(ps[..k]), Ticks((lo, p.1));
    assert ps[..k + 1][..k] == ps[..k];
    assert Union(ps[..k + 1]) == done + Ticks(p);
    forall x | x in Ticks(p) ensures x in done + added {
      if x < lo {
        var j :| 0 <= j < k && ps[j].1 == right;
        assert InInterval(ps[..k][j], x);
        UnionMeans(ps[..k], x);
      }
    }
    assert done + Ticks(p) == done + added;
    assert done !! added;
    TicksCount(lo, p.1);
    assert |done + added| == |done| + |added|;
  }

  lemma EarlierIsTotal()
    ensures TotalPreorder(EarlierFirst)
  {
  }

  lemma SortedIntervals(intervals: seq<Interval>)
    requires forall p :: p in intervals ==> 0 <= p.0 <= p.1
    ensures var ps := Sort(EarlierFirst, intervals);
            && SortedStarts(ps)
            && Union(ps) == Union(intervals)
  {
    var ps := Sort(EarlierFirst, intervals);
    EarlierIsTotal();
    SortIsSorted(EarlierFirst, intervals);
    forall i | 0 <= i < |ps| ensures ps[i] in intervals {
      SortMembers(EarlierFirst, intervals, ps[i]);
    }
    forall i, j | 0 <= i < j < |ps| ensures ps[i].0 <= ps[j].0 {
      assert EarlierFirst(ps[i], ps[j]);
    }
    forall x ensures x in Union(ps) <==> x in Union(intervals) {
      SameUnion(ps, intervals, x);
    }
  }

  method Sweep(intervals: seq<Interval>) returns (covered: int)
    requires forall p :: p in intervals ==> 0 <= p.0 <= p.1
    ensures covered == |Union(intervals)|
  {
    var sorted := Sort(EarlierFirst, intervals);
    SortedIntervals(intervals);
    covered := 0;
    var right := 0;
    for k := 0 to |sorted|
      invariant Swept(sorted, k, covered, right)
    {
      SweepStep(sorted, k, covered, right);
      covered := covered + Gain(sorted[k], right);
      right := Larger(right, sorted[k].1);
    }
    assert sorted[..|sorted|] == sorted;
  }

  lemma SameUnion(a: seq<Interval>, b: seq<Interval>, x: int)
    requires multiset(a) == multiset(b)
    ensures x in Union(a) <==> x in Union(b)
  {
    UnionMeans(a, x);
    UnionMeans(b, x);
    if k :| 0 <= k < |a| && InInterval(a[k], x) {
      assert a[k] in multiset(b);
    }
    if k :| 0 <= k < |b| && InInterval(b[k], x) {
      assert b[k] in multiset(a);
    }
  }

  // ---------------------------------------------------------------- the dictionary of children

  predicate Has(kids: seq<Span>, id: string) {
    exists c :: c in kids && c.id == id
  }

  /** Insertion into a dictionary keyed by span id: an equal key keeps its place. */
  function Put(kids: seq<Span>, s: Span): (r: seq<Span>)
    ensures forall c :: c in r ==> c == s || c in kids
    ensures s in r
  {
    if kids == [] then [s]
    else if kids[0].id == s.id then
      assert kids == [kids[0]] + kids[1..];
      [s] + kids[1..]
    else
      assert kids == [kids[0]] + kids[1..];
      [kids[0]] + Put(kids[1..], s)
  }

  lemma {:induction false} PutHas(kids: seq<Span>, s: Span, id: string)
    requires Has(kids, id)
    ensures Has(Put(kids, s), id)
  {
    assert kids == [kids[0]] + kids[1..];
    if kids[0].id == id {
      assert Put(kids, s)[0].id == id;
    } else {
      if kids[0].id != s.id {
        PutHas(kids[1..], s, id);
      }
      var c :| c in (if kids[0].id == s.id then kids[1..] else Put(kids[1..], s)) && c.id == id;
      assert c in Put(kids, s);
    }
  }

  ghost predicate DistinctIds(kids: seq<Span>) {
    forall i, j :: 0 <= i < j < |kids| ==> kids[i].id != kids[j].id
  }

  lemma {:induction false} PutKeepsDistinct(kids: seq<Span>, s: Span)
    requires DistinctIds(kids)
    ensures DistinctIds(Put(kids, s))
  {
    if kids != [] && kids[0].id != s.id {
      PutKeepsDistinct(kids[1..], s);
      var r := Put(kids[1..], s);
      forall c | c in r ensures c.id != kids[0].id {
        if c != s {
          var k :| 0 <= k < |kids[1..]| && kids[1..][k] == c;
          assert kids[k + 1] == c;
        }
      }
    }
  }

  function Kids(children: map<Key, seq<Span>>, key: Key): seq<Span> {
    if key in children then children[key] else []
  }

  function Counted(counts: map<Key, nat>, key: Key): nat {
    if key in counts then counts[key] else 0
  }

  /** The children filed under one key. */
  ghost predicate FiledUnder(spans: seq<Span>, kids: seq<Span>, key: Key) {
    && DistinctIds(kids)
    && (forall c :: c in kids ==> c in spans && ChildOf(c, key))
    && (forall c :: c in spans && ChildOf(c, key) ==> Has(kids, c.id))
  }

  ghost predicate Indexed(spans: seq<Span>, children: map<Key, seq<Span>>) {
    forall key :: FiledUnder(spans, Kids(children, key), key)
  }

  lemma FileNext(spans: seq<Span>, kids: seq<Span>, key: Key, s: Span)
    requires FiledUnder(spans, kids, key)
    ensures FiledUnder(spans + [s], if ChildOf(s, key) then Put(kids, s) else kids, key)
  {
    if ChildOf(s, key) {
      PutKeepsDistinct(kids, s);
      forall c | c in spans + [s] && ChildOf(c, key) ensures Has(Put(kids, s), c.id) {
        if c == s {
          assert s in Put(kids, s);
        } else {
          PutHas(kids, s, c.id);
        }
      }
    }
  }

  lemma IndexNext(spans: seq<Span>, children: map<Key, seq<Span>>, s: Span)
    requires Indexed(spans, children)
    ensures !HasParent(s) ==> Indexed(spans + [s], children)
    ensures HasParent(s) ==>
              var key := (s.trace, s.parent.value);
              Indexed(spans + [s], children[key := Put(Kids(children, key), s)])
  {
    var after :=
      if !HasParent(s) then children
      else children[(s.trace, s.parent.value) := Put(Kids(children, (s.trace, s.parent.value)), s)];
    forall key ensures FiledUnder(spans + [s], Kids(after, key), key) {
      FileNext(spans, Kids(children, key), key, s);
      assert Kids(after, key) == if ChildOf(s, key) then Put(Kids(children, key), s) else Kids(children, key);
    }
  }

  lemma {:induction false} CountAt(spans: seq<Span>, key: Key, i: nat, j: nat)
    requires i <= j < |spans| && (spans[i].trace, spans[i].id) == key && (spans[j].trace, spans[j].id) == key
    ensures Count(spans, key) >= if i < j then 2 else 1
    decreases |spans|
  {
    var n := |spans| - 1;
    if j < n {
      CountAt(spans[..n], key, i, j);
    } else if i < j {
      CountAt(spans[..n], key, i, i);
    }
  }

  lemma UniqueIsOne(spans: seq<Span>, a: Span, b: Span)
    requires a in spans && b in spans && Unique(spans, a) && b.trace == a.trace && b.id == a.id
    ensures a == b
  {
    var i: nat, j: nat :| i < |spans| && j < |spans| && spans[i] == a && spans[j] == b;
    CountAt(spans, (a.trace, a.id), if i < j then i else j, if i < j then j else i);
  }

  lemma UniqueChildIndexed(spans: seq<Span>, children: map<Key, seq<Span>>, c: Span, key: Key)
    requires Indexed(spans, children) && Unique(spans, c)
    ensures c in Kids(children, key) <==> c in spans && ChildOf(c, key)
  {
    if c in spans && ChildOf(c, key) {
      var k :| k in Kids(children, key) && k.id == c.id;
      UniqueIsOne(spans, c, k);
    }
  }

  method Index(spans: seq<Span>) returns (children: map<Key, seq<Span>>, counts: map<Key, nat>)
    ensures Indexed(spans, children)
    ensures forall key :: Counted(counts, key) == Count(spans, key)
  {
    children, counts := map[], map[];
    for i := 0 to |spans|
      invariant Indexed(spans[..i], children)
      invariant forall key :: Counted(counts, key) == Count(spans[..i], key)
    {
      var s := spans[i];
      assert spans[..i + 1] == spans[..i] + [s];
      IndexNext(spans[..i], children, s);
      assert spans[..i + 1][..i] == spans[..i];
      counts := counts[(s.trace, s.id) := Counted(counts, (s.trace, s.id)) + 1];
      if HasParent(s) {
        var key := (s.trace, s.parent.value);
        children := children[key := Put(Kids(children, key), s)];
      }
    }
    assert spans[..|spans|] == spans;
  }

  // ---------------------------------------------------------------- one span

  ghost predicate IntervalsOf(spans: seq<Span>, s: Span, observed: seq<Span>, intervals: seq<Interval>) {
    && (forall c :: c in observed <==> c in spans && Observed(spans, s, c))
    && |intervals| == |observed| && forall i :: 0 <= i < |observed| ==> intervals[i] == Offset(s, observed[i])
  }

  lemma TickInUnion(spans: seq<Span>, s: Span, observed: seq<Span>, intervals: seq<Interval>, x: int)
    requires IntervalsOf(spans, s, observed, intervals)
    ensures (exists k :: 0 <= k < |intervals| && InInterval(intervals[k], x)) <==> Busy(spans, s, x)
  {
    if exists k :: 0 <= k < |intervals| && InInterval(intervals[k], x) {
      var k :| 0 <= k < |intervals| && InInterval(intervals[k], x);
      assert observed[k] in observed;
    }
    if Busy(spans, s, x) {
      var c :| c in spans && Observed(spans, s, c) && InInterval(Offset(s, c), x);
      var k :| 0 <= k < |observed| && observed[k] == c;
      assert InInterval(intervals[k], x);
    }
  }

  lemma UnionIsCovered(spans: seq<Span>, s: Span, observed: seq<Span>, intervals: seq<Interval>)
    requires IntervalsOf(spans, s, observed, intervals)
    ensures Union(intervals) == CoveredTicks(spans, s)
  {
    forall x ensures x in Union(intervals) <==> x in CoveredTicks(spans, s) {
      UnionMeans(intervals, x);
      TickInUnion(spans, s, observed, intervals, x);
    }
  }

  lemma {:induction false} DistinctCount(kids: seq<Span>)
    requires DistinctIds(kids)
    ensures |set c | c in kids| == |kids|
  {
    if kids != [] {
      DistinctCount(kids[1..]);
      var tail := set c | c in kids[1..];
      assert (set c | c in kids) == {kids[0]} + tail;
      assert kids[0] !in kids[1..];
    }
  }

  lemma CoveredFits(spans: seq<Span>, s: Span)
    ensures |CoveredTicks(spans, s)| <= s.duration
  {
    TicksCount(0, s.duration);
    assert CoveredTicks(spans, s) <= Ticks((0, s.duration));
    Subset(CoveredTicks(spans, s), Ticks((0, s.duration)));
  }

  lemma Subset(a: set<int>, b: set<int>)
    requires a <= b
    ensures |a| <= |b|
  {
    assert b == a + (b - a);
  }

  method Longest(observed: seq<Span>) returns (longest: Span)
    requires observed != []
    ensures longest in observed && forall c :: c in observed ==> c.duration <= longest.duration
  {
    longest := observed[0];
    for i := 1 to |observed|
      invariant longest in observed && forall j :: 0 <= j < i ==> observed[j].duration <= longest.duration
    {
      if observed[i].duration > longest.duration {
        longest := observed[i];
      }
    }
  }

  function Select(kids: seq<Span>, keep: Span -> bool): seq<Span> {
    if kids == [] then []
    else Select(kids[..|kids| - 1], keep) + (if keep(kids[|kids| - 1]) then [kids[|kids| - 1]] else [])
  }

  lemma {:induction false} SelectMeans(kids: seq<Span>, keep: Span -> bool)
    requires DistinctIds(kids)
    ensures DistinctIds(Select(kids, keep))
    ensures forall c :: c in Select(kids, keep) <==> c in kids && keep(c)
  {
    if kids != [] {
      var n := |kids| - 1;
      SelectMeans(kids[..n], keep);
      assert kids == kids[..n] + [kids[n]];
      var r := Select(kids[..n], keep);
      forall c | c in r ensures c.id != kids[n].id {
        var k :| 0 <= k < n && kids[k] == c;
      }
    }
  }

  /** Filtering the indexed children by a test that asks for uniqueness filters the spans. */
  lemma SelectIndexed(spans: seq<Span>, children: map<Key, seq<Span>>, key: Key, keep: Span -> bool, c: Span)
    requires Indexed(spans, children)
    requires forall d :: keep(d) ==> ChildOf(d, key) && Unique(spans, d)
    ensures c in Select(Kids(children, key), keep) <==> c in spans && keep(c)
  {
    SelectMeans(Kids(children, key), keep);
    if keep(c) {
      UniqueChildIndexed(spans, children, c, key);
    }
  }

  method OnlyPeer(spans: seq<Span>, children: map<Key, seq<Span>>, counts: map<Key, nat>, longest: Span) returns (peer: Option<Span>)
    requires Indexed(spans, children) && forall key :: Counted(counts, key) == Count(spans, key)
    ensures PeerMeans(spans, longest, peer)
  {
    var key := (longest.trace, longest.id);
    var kids := Kids(children, key);
    ghost var keep := (p: Span) => Peer(spans, longest, p);
    var peers: seq<Span> := [];
    for i := 0 to |kids|
      invariant peers == Select(kids[..i], keep)
    {
      var p := kids[i];
      assert kids[..i + 1][..i] == kids[..i];
      assert p in Kids(children, key);
      if p.service != longest.service && Stripped(p.operation) == Stripped(longest.operation) && Counted(counts, (p.trace, p.id)) == 1 {
        peers := peers + [p];
      }
    }
    assert kids[..|kids|] == kids;
    PeersMean(spans, children, longest, peers);
    peer := if |peers| == 1 then Some(peers[0]) else None;
  }

  lemma PeersMean(spans: seq<Span>, children: map<Key, seq<Span>>, longest: Span, peers: seq<Span>)
    requires Indexed(spans, children)
    requires peers == Select(Kids(children, (longest.trace, longest.id)), (p: Span) => Peer(spans, longest, p))
    ensures PeerMeans(spans, longest, if |peers| == 1 then Some(peers[0]) else None)
  {
    var keep := (p: Span) => Peer(spans, longest, p);
    SelectMeans(Kids(children, (longest.trace, longest.id)), keep);
    forall p ensures p in peers <==> p in spans && Peer(spans, longest, p) {
      SelectIndexed(spans, children, (longest.trace, longest.id), keep, p);
    }
    DistinctCount(peers);
    assert (set p | p in peers) == set p | p in spans && Peer(spans, longest, p);
  }

  lemma ObservedMean(spans: seq<Span>, children: map<Key, seq<Span>>, s: Span, observed: seq<Span>)
    requires Indexed(spans, children)
    requires observed == Select(Kids(children, (s.trace, s.id)), (c: Span) => Observed(spans, s, c))
    ensures forall c :: c in observed <==> c in spans && Observed(spans, s, c)
    ensures |observed| == |ObservedChildren(spans, s)|
  {
    var keep := (c: Span) => Observed(spans, s, c);
    SelectMeans(Kids(children, (s.trace, s.id)), keep);
    forall c ensures c in observed <==> c in spans && Observed(spans, s, c) {
      SelectIndexed(spans, children, (s.trace, s.id), keep, c);
    }
    DistinctCount(observed);
    assert (set c | c in observed) == ObservedChildren(spans, s);
  }

  lemma KidIsChild(spans: seq<Span>, children: map<Key, seq<Span>>, key: Key, c: Span)
    requires Indexed(spans, children) && c in Kids(children, key)
    ensures c in spans && ChildOf(c, key)
  {
    assert FiledUnder(spans, Kids(children, key), key);
  }

  method ObserveChildren(spans: seq<Span>, children: map<Key, seq<Span>>, counts: map<Key, nat>, s: Span)
    returns (observed: seq<Span>, intervals: seq<Interval>)
    requires Indexed(spans, children) && forall key :: Counted(counts, key) == Count(spans, key)
    ensures IntervalsOf(spans, s, observed, intervals)
    ensures |observed| == |ObservedChildren(spans, s)|
  {
    var kids := Kids(children, (s.trace, s.id));
    ghost var keep := (c: Span) => Observed(spans, s, c);
    observed, intervals := [], [];
    for i := 0 to |kids|
      invariant observed == Select(kids[..i], keep)
      invariant |intervals| == |observed| && forall j :: 0 <= j < |observed| ==> intervals[j] == Offset(s, observed[j])
    {
      var c := kids[i];
      assert kids[..i + 1][..i] == kids[..i];
      KidIsChild(spans, children, (s.trace, s.id), c);
      if c.service != s.service || Counted(counts, (c.trace, c.id)) != 1 {
        continue;
      }
      var p := Offset(s, c);
      if p.0 < 0 || p.1 > s.duration || c.id == s.id {
        continue;
      }
      intervals := intervals + [p];
      observed := observed + [c];
    }
    assert kids[..|kids|] == kids;
    ObservedMean(spans, children, s, observed);
  }

  method SpanTiming(spans: seq<Span>, children: map<Key, seq<Span>>, counts: map<Key, nat>, s: Span) returns (r: Option<Timing>)
    requires Indexed(spans, children) && forall key :: Counted(counts, key) == Count(spans, key)
    ensures TimingMeans(spans, s, r)
  {
    var observed, intervals := ObserveChildren(spans, children, counts, s);
    if observed == [] || Counted(counts, (s.trace, s.id)) != 1 {
      return None;
    }
    assert observed[0] in ObservedChildren(spans, s);
    forall p | p in intervals ensures 0 <= p.0 <= p.1 {
      var k :| 0 <= k < |intervals| && intervals[k] == p;
      assert observed[k] in observed;
    }
    var covered := Sweep(intervals);
    UnionIsCovered(spans, s, observed, intervals);
    CoveredFits(spans, s);
    var longest := Longest(observed);
    var peer := OnlyPeer(spans, children, counts, longest);
    r := Some(Timing(|observed|, covered, Larger(0, s.duration - covered), longest, peer));
  }

  /** Every span gets the timing its own children define, in input order. */
  method WithChildTiming(spans: seq<Span>) returns (result: seq<Option<Timing>>)
    ensures |result| == |spans|
    ensures forall i :: 0 <= i < |spans| ==> TimingMeans(spans, spans[i], result[i])
  {
    var children, counts := Index(spans);
    result := [];
    for i := 0 to |spans|
      invariant |result| == i && forall j :: 0 <= j < i ==> TimingMeans(spans, spans[j], result[j])
    {
      var r := SpanTiming(spans, children, counts, spans[i]);
      result := result + [r];
    }
  }

  // ---------------------------------------------------------------- what the measure satisfies

  function Total(cs: seq<Span>): nat {
    if cs == [] then 0 else Total(cs[..|cs| - 1]) + cs[|cs| - 1].duration
  }

  ghost function Offsets(s: Span, cs: seq<Span>): seq<Interval> {
    seq(|cs|, i requires 0 <= i < |cs| => Offset(s, cs[i]))
  }

  lemma {:induction false} UnionAtMostSum(s: Span, cs: seq<Span>)
    ensures |Union(Offsets(s, cs))| <= Total(cs)
  {
    if cs != [] {
      var n := |cs| - 1;
      UnionAtMostSum(s, cs[..n]);
      assert Offsets(s, cs)[..n] == Offsets(s, cs[..n]);
      TicksCount(Offset(s, cs[n]).0, Offset(s, cs[n]).1);
      var a, b := Union(Offsets(s, cs[..n])), Ticks(Offset(s, cs[n]));
      assert |a + b| == |a| + |b| - |a * b|;
    }
  }

  /** Coverage lies between the longest child and the smaller of the span and the children's sum. */
  lemma CoverageBounds(spans: seq<Span>, s: Span, t: Timing, cs: seq<Span>)
    requires TimingMeans(spans, s, Some(t))
    requires forall c :: c in cs <==> c in ObservedChildren(spans, s)
    ensures t.longest.duration <= t.covered <= s.duration
    ensures t.covered <= Total(cs)
  {
    CoveredFits(spans, s);
    var p := Offset(s, t.longest);
    TicksCount(p.0, p.1);
    assert Ticks(p) <= CoveredTicks(spans, s);
    Subset(Ticks(p), CoveredTicks(spans, s));
    UnionIsCovered(spans, s, cs, Offsets(s, cs));
    UnionAtMostSum(s, cs);
  }
}
