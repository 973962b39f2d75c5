/** Anomaly segments of a metric series against its own baseline (median and MAD). */
module AnomalySegments {
  import opened Runs
  import opened Sorting

  datatype Reading = Finite(value: real) | NotFinite

  datatype SeriesPoint = SeriesPoint(at: int, reading: Reading)

  datatype Point = Point(at: int, value: real)

  datatype Segment = Segment(
    onset: int, endedAt: int, strength: real, peak: real, baseline: real, pointCount: nat, presenceOnly: bool)

  const EPSILON := 0.000000001
  const MAX_STRENGTH := 10.0

  /** The reference a baseline gives: centre, threshold, and whether it has no scale of its own. */
  datatype Reference = Reference(center: real, threshold: real, degenerate: bool)

  // ---------------------------------------------------------------- the reference

  function FinitePoints(points: seq<SeriesPoint>): seq<Point> {
    if points == [] then []
    else (if points[0].reading.Finite? then [Point(points[0].at, points[0].reading.value)] else []) + FinitePoints(points[1..])
  }

  function Values(points: seq<Point>): (r: seq<real>)
    ensures |r| == |points|
  {
    seq(|points|, i requires 0 <= i < |points| => points[i].value)
  }

  function Times(points: seq<Point>): (r: seq<int>)
    ensures |r| == |points|
  {
    seq(|points|, i requires 0 <= i < |points| => points[i].at)
  }

  predicate RealLeq(a: real, b: real) {
    a <= b
  }

  function Median(s: seq<real>): real
    requires s != []
  {
    var sorted := Sort(RealLeq, s);
    if |s| % 2 == 1 then sorted[|s| / 2] else (sorted[|s| / 2 - 1] + sorted[|s| / 2]) / 2.0
  }

  /** At least half of the values are at most the median, and at least half are at least it. */
  lemma MedianSplits(s: seq<real>, i: nat)
    requires s != [] && i < |s|
    ensures i < (|s| + 1) / 2 ==> Sort(RealLeq, s)[i] <= Median(s)
    ensures i >= |s| / 2 ==> Sort(RealLeq, s)[i] >= Median(s)
  {
    var sorted := Sort(RealLeq, s);
    assert TotalPreorder(RealLeq);
    SortIsSorted(RealLeq, s);
    forall a, b | 0 <= a <= b < |s| ensures sorted[a] <= sorted[b] {
      if a < b {
        assert RealLeq(sorted[a], sorted[b]);
      }
    }
  }

  function Abs(x: real): real {
    if x < 0.0 then -x else x
  }

  function Max(a: real, b: real): real {
    if a < b then b else a
  }

  function Distances(values: seq<real>, center: real): (r: seq<real>)
    ensures |r| == |values|
  {
    seq(|values|, i requires 0 <= i < |values| => Abs(values[i] - center))
  }

  function ReferenceOf(baseline: seq<Point>): (r: Reference)
    requires baseline != []
    ensures r.threshold >= EPSILON
  {
    var center := Median(Values(baseline));
    var mad := Median(Distances(Values(baseline), center));
    Reference(center, Max(Max(3.0 * mad, Abs(center) * 0.1), EPSILON), Abs(center) <= EPSILON && mad <= EPSILON)
  }

  function Deviation(ref: Reference, p: Point): real
    requires ref.threshold > 0.0
  {
    Abs(p.value - ref.center) / ref.threshold
  }

  // ---------------------------------------------------------------- order and gaps

  predicate Earlier(a: Point, b: Point) {
    a.at < b.at || (a.at == b.at && a.value <= b.value)
  }

  function Intervals(times: seq<int>): (r: seq<real>)
    ensures |r| == if times == [] then 0 else |times| - 1
  {
    seq(if times == [] then 0 else |times| - 1, i requires 0 <= i < |times| - 1 => (times[i + 1] - times[i]) as real)
  }

  /** Twice the median interval; a single point has no interval and needs no bound. */
  function MaxGap(times: seq<int>): real {
    if |times| < 2 then 0.0 else 2.0 * Median(Intervals(times))
  }

  function Anomalous(ref: Reference, ordered: seq<Point>): (r: seq<bool>)
    requires ref.threshold > 0.0
    ensures |r| == |ordered|
  {
    seq(|ordered|, i requires 0 <= i < |ordered| => Deviation(ref, ordered[i]) > 1.0)
  }

  // ---------------------------------------------------------------- closing a run

  /** The first point with the largest deviation. */
  function Strongest(ref: Reference, run: seq<Point>): (r: Point)
    requires run != [] && ref.threshold > 0.0
    ensures r in run
  {
    var n := |run| - 1;
    if n == 0 then run[0]
    else
      var r := Strongest(ref, run[..n]);
      if Deviation(ref, run[n]) > Deviation(ref, r) then run[n] else r
  }

  lemma {:induction false} StrongestIsStrongest(ref: Reference, run: seq<Point>, i: nat)
    requires i < |run| && ref.threshold > 0.0
    ensures Deviation(ref, run[i]) <= Deviation(ref, Strongest(ref, run))
  {
    var n := |run| - 1;
    if i < n {
      StrongestIsStrongest(ref, run[..n], i);
    }
  }

  function CloseSegment(ref: Reference, run: seq<Point>): Segment
    requires run != [] && ref.threshold > 0.0
  {
    var strongest := Strongest(ref, run);
    var strength := Deviation(ref, strongest);
    Segment(run[0].at, run[|run| - 1].at,
            if ref.degenerate then 1.0 else if strength < MAX_STRENGTH then strength else MAX_STRENGTH,
            strongest.value, ref.center, |run|, ref.degenerate)
  }

  predicate WithinRange(ordered: seq<Point>, s: Span) {
    s.low < s.high <= |ordered|
  }

  function SegmentOf(ref: Reference, ordered: seq<Point>, s: Span): Segment
    requires WithinRange(ordered, s) && ref.threshold > 0.0
  {
    CloseSegment(ref, ordered[s.low..s.high])
  }

  function SegmentsOf(ref: Reference, ordered: seq<Point>, spans: seq<Span>): (r: seq<Segment>)
    requires ref.threshold > 0.0 && forall k :: 0 <= k < |spans| ==> WithinRange(ordered, spans[k])
    ensures |r| == |spans|
  {
    seq(|spans|, k requires 0 <= k < |spans| => SegmentOf(ref, ordered, spans[k]))
  }

  // ---------------------------------------------------------------- detection

  function Ordered(observation: seq<SeriesPoint>): seq<Point> {
    Sort(Earlier, FinitePoints(observation))
  }

  function SpansOf(ref: Reference, ordered: seq<Point>, n: nat): seq<Span>
    requires n <= |ordered| && ref.threshold > 0.0
  {
    Spans(Anomalous(ref, ordered), Times(ordered), MaxGap(Times(ordered)), n)
  }

  lemma SpansFit(ref: Reference, ordered: seq<Point>, n: nat)
    requires n <= |ordered| && ref.threshold > 0.0
    ensures forall k :: 0 <= k < |SpansOf(ref, ordered, n)| ==> WithinRange(ordered, SpansOf(ref, ordered, n)[k]) && SpansOf(ref, ordered, n)[k].high <= n
  {
    var flags, times := Anomalous(ref, ordered), Times(ordered);
    SpansAreMaximal(flags, times, MaxGap(times), n);
    forall k | 0 <= k < |SpansOf(ref, ordered, n)| ensures WithinRange(ordered, SpansOf(ref, ordered, n)[k]) {
      assert IsRun(flags, times, MaxGap(times), SpansOf(ref, ordered, n)[k]);
    }
  }

  function Detected(baseline: seq<SeriesPoint>, observation: seq<SeriesPoint>): seq<Segment> {
    if FinitePoints(baseline) == [] then []
    else
      var ref := ReferenceOf(FinitePoints(baseline));
      var ordered := Ordered(observation);
      SpansFit(ref, ordered, |ordered|);
      SegmentsOf(ref, ordered, SpansOf(ref, ordered, |ordered|))
  }

  /** The last run is still growing when its end is where the scan stands. */
  predicate Open(spans: seq<Span>, n: nat) {
    spans != [] && spans[|spans| - 1].high == n
  }

  function Closed(spans: seq<Span>, n: nat): seq<Span> {
    if Open(spans, n) then spans[..|spans| - 1] else spans
  }

  ghost predicate ScanState(ref: Reference, ordered: seq<Point>, n: nat, current: seq<Point>, segments: seq<Segment>)
    requires n <= |ordered| && ref.threshold > 0.0
  {
    var spans := SpansOf(ref, ordered, n);
    && (forall k :: 0 <= k < |spans| ==> WithinRange(ordered, spans[k]) && spans[k].high <= n)
    && current == (if Open(spans, n) then ordered[spans[|spans| - 1].low..n] else [])
    && segments == SegmentsOf(ref, ordered, Closed(spans, n))
  }

  function Flush(ref: Reference, current: seq<Point>, segments: seq<Segment>): seq<Segment>
    requires ref.threshold > 0.0
  {
    segments + (if current == [] then [] else [CloseSegment(ref, current)])
  }

  lemma SegmentsSnoc(ref: Reference, ordered: seq<Point>, spans: seq<Span>, last: Span)
    requires ref.threshold > 0.0 && WithinRange(ordered, last) && forall k :: 0 <= k < |spans| ==> WithinRange(ordered, spans[k])
    ensures SegmentsOf(ref, ordered, spans + [last]) == SegmentsOf(ref, ordered, spans) + [SegmentOf(ref, ordered, last)]
  {
  }

  lemma FlushOpen(ref: Reference, ordered: seq<Point>, spans: seq<Span>, n: nat)
    requires n <= |ordered| && ref.threshold > 0.0 && Open(spans, n)
    requires WithinRange(ordered, spans[|spans| - 1]) && forall k :: 0 <= k < |spans| ==> WithinRange(ordered, spans[k])
    ensures Flush(ref, ordered[spans[|spans| - 1].low..n], SegmentsOf(ref, ordered, spans[..|spans| - 1])) == SegmentsOf(ref, ordered, spans)
  {
    var last := spans[|spans| - 1];
    assert spans == spans[..|spans| - 1] + [last];
    SegmentsSnoc(ref, ordered, spans[..|spans| - 1], last);
  }

  lemma FlushClosesAll(ref: Reference, ordered: seq<Point>, n: nat, current: seq<Point>, segments: seq<Segment>)
    requires n <= |ordered| && ref.threshold > 0.0 && ScanState(ref, ordered, n, current, segments)
    ensures Flush(ref, current, segments) == SegmentsOf(ref, ordered, SpansOf(ref, ordered, n))
  {
    var spans := SpansOf(ref, ordered, n);
    if Open(spans, n) {
      FlushOpen(ref, ordered, spans, n);
    }
  }

  lemma ScanNormal(ref: Reference, ordered: seq<Point>, n: nat, current: seq<Point>, segments: seq<Segment>)
    requires n < |ordered| && ref.threshold > 0.0 && ScanState(ref, ordered, n, current, segments)
    requires Deviation(ref, ordered[n]) <= 1.0
    ensures ScanState(ref, ordered, n + 1, [], Flush(ref, current, segments))
  {
    FlushClosesAll(ref, ordered, n, current, segments);
    assert SpansOf(ref, ordered, n + 1) == SpansOf(ref, ordered, n);
  }

  lemma SpanExtends(ref: Reference, ordered: seq<Point>, n: nat, spans: seq<Span>)
    requires 0 < n < |ordered| && ref.threshold > 0.0 && spans == SpansOf(ref, ordered, n) && Open(spans, n)
    requires Deviation(ref, ordered[n]) > 1.0 && (ordered[n].at - ordered[n - 1].at) as real <= MaxGap(Times(ordered))
    ensures SpansOf(ref, ordered, n + 1) == spans[|spans| - 1 := spans[|spans| - 1].(high := n + 1)]
  {
    assert Close(Times(ordered), MaxGap(Times(ordered)), n);
  }

  lemma ScanExtends(ref: Reference, ordered: seq<Point>, n: nat, current: seq<Point>, segments: seq<Segment>)
    requires n < |ordered| && ref.threshold > 0.0 && ScanState(ref, ordered, n, current, segments)
    requires Deviation(ref, ordered[n]) > 1.0 && current != []
    requires (ordered[n].at - current[|current| - 1].at) as real <= MaxGap(Times(ordered))
    ensures ScanState(ref, ordered, n + 1, current + [ordered[n]], segments)
  {
    var spans := SpansOf(ref, ordered, n);
    assert WithinRange(ordered, spans[|spans| - 1]);
    assert current[|current| - 1] == ordered[n - 1];
    SpanExtends(ref, ordered, n, spans);
    ExtendedState(ref, ordered, n, spans, current, segments);
  }

  lemma ExtendedState(ref: Reference, ordered: seq<Point>, n: nat, spans: seq<Span>, current: seq<Point>, segments: seq<Segment>)
    requires n < |ordered| && ref.threshold > 0.0 && Open(spans, n)
    requires forall k :: 0 <= k < |spans| ==> WithinRange(ordered, spans[k]) && spans[k].high <= n
    requires WithinRange(ordered, spans[|spans| - 1]) && current == ordered[spans[|spans| - 1].low..n]
    requires segments == SegmentsOf(ref, ordered, spans[..|spans| - 1])
    requires SpansOf(ref, ordered, n + 1) == spans[|spans| - 1 := spans[|spans| - 1].(high := n + 1)]
    ensures ScanState(ref, ordered, n + 1, current + [ordered[n]], segments)
  {
    var last := |spans| - 1;
    var after := spans[last := spans[last].(high := n + 1)];
    assert after[..last] == spans[..last];
    SliceNext(ordered, spans[last].low, n);
  }

  lemma SliceNext(ordered: seq<Point>, low: nat, n: nat)
    requires low <= n < |ordered|
    ensures ordered[low..n + 1] == ordered[low..n] + [ordered[n]]
  {
  }

  lemma ScanOpens(ref: Reference, ordered: seq<Point>, n: nat, current: seq<Point>, segments: seq<Segment>)
    requires n < |ordered| && ref.threshold > 0.0 && ScanState(ref, ordered, n, current, segments)
    requires Deviation(ref, ordered[n]) > 1.0
    requires current == [] || (ordered[n].at - current[|current| - 1].at) as real > MaxGap(Times(ordered))
    ensures ScanState(ref, ordered, n + 1, [ordered[n]], Flush(ref, current, segments))
  {
    FlushClosesAll(ref, ordered, n, current, segments);
    var spans := SpansOf(ref, ordered, n);
    if Open(spans, n) {
      assert WithinRange(ordered, spans[|spans| - 1]);
      assert !Close(Times(ordered), MaxGap(Times(ordered)), n);
    }
    assert SpansOf(ref, ordered, n + 1) == spans + [Span(n, n + 1)];
    OpenedState(ref, ordered, n, spans, SegmentsOf(ref, ordered, spans));
  }

  lemma OpenedState(ref: Reference, ordered: seq<Point>, n: nat, spans: seq<Span>, segments: seq<Segment>)
    requires n < |ordered| && ref.threshold > 0.0 && SpansOf(ref, ordered, n + 1) == spans + [Span(n, n + 1)]
    requires forall k :: 0 <= k < |spans| ==> WithinRange(ordered, spans[k]) && spans[k].high <= n
    requires segments == SegmentsOf(ref, ordered, spans)
    ensures ScanState(ref, ordered, n + 1, [ordered[n]], segments)
  {
    assert Closed(spans + [Span(n, n + 1)], n + 1) == spans;
    assert ordered[n..n + 1] == [ordered[n]];
  }

  method DetectSegments(baseline: seq<SeriesPoint>, observation: seq<SeriesPoint>) returns (segments: seq<Segment>)
    ensures segments == Detected(baseline, observation)
  {
    segments := [];
    var values := FinitePoints(baseline);
    if values == [] {
      return;
    }
    var ref := ReferenceOf(values);
    var ordered := Ordered(observation);
    var maxGap := MaxGap(Times(ordered));
    var current: seq<Point> := [];
    for i := 0 to |ordered|
      invariant ScanState(ref, ordered, i, current, segments)
    {
      var point := ordered[i];
      if Deviation(ref, point) <= 1.0 {
        ScanNormal(ref, ordered, i, current, segments);
        segments := Flush(ref, current, segments);
        current := [];
      } else if current != [] && (point.at - current[|current| - 1].at) as real <= maxGap {
        ScanExtends(ref, ordered, i, current, segments);
        current := current + [point];
      } else {
        ScanOpens(ref, ordered, i, current, segments);
        segments := Flush(ref, current, segments);
        current := [point];
      }
    }
    FlushClosesAll(ref, ordered, |ordered|, current, segments);
    segments := Flush(ref, current, segments);
  }

  // ---------------------------------------------------------------- the meaning of the result

  function PointTotal(segments: seq<Segment>): nat {
    if segments == [] then 0 else PointTotal(segments[..|segments| - 1]) + segments[|segments| - 1].pointCount
  }

  lemma {:induction false} TotalIsSizes(ref: Reference, ordered: seq<Point>, spans: seq<Span>, k: nat)
    requires ref.threshold > 0.0 && k <= |spans| && forall j :: 0 <= j < |spans| ==> WithinRange(ordered, spans[j])
    ensures PointTotal(SegmentsOf(ref, ordered, spans)[..k]) == Sizes(spans, k)
    decreases k
  {
    if k > 0 {
      var segments := SegmentsOf(ref, ordered, spans);
      TotalIsSizes(ref, ordered, spans, k - 1);
      assert segments[..k][..k - 1] == segments[..k - 1];
      assert WithinRange(ordered, spans[k - 1]);
    }
  }

  /** The segments are the maximal runs of anomalous points, in order, and hold all of them. */
  lemma SegmentsAreMaximalRuns(baseline: seq<SeriesPoint>, observation: seq<SeriesPoint>)
    requires FinitePoints(baseline) != []
    ensures var ref, ordered := ReferenceOf(FinitePoints(baseline)), Ordered(observation);
            var spans := SpansOf(ref, ordered, |ordered|);
            && MaximalRuns(Anomalous(ref, ordered), Times(ordered), MaxGap(Times(ordered)), |ordered|, spans)
            && (forall k :: 0 <= k < |spans| ==> WithinRange(ordered, spans[k]))
            && Detected(baseline, observation) == SegmentsOf(ref, ordered, spans)
            && PointTotal(Detected(baseline, observation)) == CountTrue(Anomalous(ref, ordered), 0, |ordered|)
  {
    var ref, ordered := ReferenceOf(FinitePoints(baseline)), Ordered(observation);
    var flags, times := Anomalous(ref, ordered), Times(ordered);
    var spans := SpansOf(ref, ordered, |ordered|);
    SpansAreMaximal(flags, times, MaxGap(times), |ordered|);
    SpansFit(ref, ordered, |ordered|);
    RunsHoldAll(flags, times, MaxGap(times), |ordered|, spans);
    TotalIsSizes(ref, ordered, spans, |spans|);
    var segments := Detected(baseline, observation);
    assert segments[..|segments|] == segments;
  }

  /** A segment runs from its first to its last point, counts them, and its strength is the
      largest deviation capped at ten; it is always between one and ten. */
  lemma SegmentMeans(ref: Reference, ordered: seq<Point>, s: Span, i: nat)
    requires ref.threshold > 0.0 && WithinRange(ordered, s) && s.low <= i < s.high
    requires forall j :: s.low <= j < s.high ==> Deviation(ref, ordered[j]) > 1.0
    ensures var segment := SegmentOf(ref, ordered, s);
            && segment.onset == ordered[s.low].at && segment.endedAt == ordered[s.high - 1].at
            && segment.pointCount == s.high - s.low
            && 1.0 <= segment.strength <= MAX_STRENGTH
            && (!ref.degenerate ==> segment.strength == MAX_STRENGTH || Deviation(ref, ordered[i]) <= segment.strength)
            && (!ref.degenerate ==> segment.strength <= Deviation(ref, Point(0, segment.peak)) && !segment.presenceOnly)
            && (ref.degenerate ==> segment.strength == 1.0 && segment.presenceOnly)
            && Deviation(ref, ordered[i]) <= Deviation(ref, Point(0, segment.peak))
            && exists j :: s.low <= j < s.high && ordered[j].value == segment.peak
  {
    var run := ordered[s.low..s.high];
    StrongestIsStrongest(ref, run, i - s.low);
    var strongest := Strongest(ref, run);
    var j :| 0 <= j < |run| && run[j] == strongest;
    assert ordered[s.low + j] == strongest;
    assert Deviation(ref, Point(0, strongest.value)) == Deviation(ref, strongest);
  }
}
