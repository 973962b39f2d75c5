/** Cutting a time-ordered series into maximal runs: stretches of flagged points with no
    unflagged point and no long gap inside. */
module Runs {

  /** The half-open range of indices [low, high). */
  datatype Span = Span(low: nat, high: nat)

  predicate Close(times: seq<int>, maxGap: real, i: nat)
    requires 0 < i < |times|
  {
    (times[i] - times[i - 1]) as real <= maxGap
  }

  /** The runs among the first `n` points, built point by point. */
  function Spans(flags: seq<bool>, times: seq<int>, maxGap: real, n: nat): seq<Span>
    requires n <= |flags| == |times|
  {
    if n == 0 then []
    else
      var before := Spans(flags, times, maxGap, n - 1);
      if !flags[n - 1] then before
      else if before != [] && before[|before| - 1].high == n - 1 && n > 1 && Close(times, maxGap, n - 1) then
        before[|before| - 1 := before[|before| - 1].(high := n)]
      else before + [Span(n - 1, n)]
  }

  ghost predicate IsRun(flags: seq<bool>, times: seq<int>, maxGap: real, s: Span)
    requires |flags| == |times|
  {
    && s.low < s.high <= |flags|
    && (forall i :: s.low <= i < s.high ==> flags[i])
    && (forall i :: s.low < i < s.high ==> Close(times, maxGap, i))
  }

  /** Between two neighbouring runs lies an unflagged point, or a long gap and nothing else. */
  ghost predicate Apart(flags: seq<bool>, times: seq<int>, maxGap: real, a: Span, b: Span)
    requires |flags| == |times|
  {
    && a.low < a.high <= b.low < b.high <= |flags|
    && (forall i :: a.high <= i < b.low ==> !flags[i])
    && (a.high == b.low ==> !Close(times, maxGap, b.low))
  }

  /** Ordered, maximal runs that hold exactly the flagged points among the first `n`. */
  ghost predicate MaximalRuns(flags: seq<bool>, times: seq<int>, maxGap: real, n: nat, spans: seq<Span>)
    requires n <= |flags| == |times|
  {
    && (forall k :: 0 <= k < |spans| ==> IsRun(flags, times, maxGap, spans[k]))
    && (forall k :: 0 <= k < |spans| ==> spans[k].high <= n)
    && (forall k :: 0 < k < |spans| ==> Apart(flags, times, maxGap, spans[k - 1], spans[k]))
    && (spans == [] ==> forall i :: 0 <= i < n ==> !flags[i])
    && (spans != [] ==> (forall i :: 0 <= i < spans[0].low ==> !flags[i])
                        && forall i :: spans[|spans| - 1].high <= i < n ==> !flags[i])
  }

  lemma {:induction false} SpansAreMaximal(flags: seq<bool>, times: seq<int>, maxGap: real, n: nat)
    requires n <= |flags| == |times|
    ensures MaximalRuns(flags, times, maxGap, n, Spans(flags, times, maxGap, n))
  {
    if n > 0 {
      SpansAreMaximal(flags, times, maxGap, n - 1);
      var before := Spans(flags, times, maxGap, n - 1);
      if flags[n - 1] {
        if before != [] && before[|before| - 1].high == n - 1 && n > 1 && Close(times, maxGap, n - 1) {
          ExtendLast(flags, times, maxGap, n, before);
        } else {
          OpenNew(flags, times, maxGap, n, before);
        }
      }
    }
  }

  lemma ExtendLast(flags: seq<bool>, times: seq<int>, maxGap: real, n: nat, before: seq<Span>)
    requires 1 < n <= |flags| == |times| && MaximalRuns(flags, times, maxGap, n - 1, before)
    requires flags[n - 1] && before != [] && before[|before| - 1].high == n - 1 && Close(times, maxGap, n - 1)
    ensures MaximalRuns(flags, times, maxGap, n, before[|before| - 1 := before[|before| - 1].(high := n)])
  {
    var last := |before| - 1;
    assert IsRun(flags, times, maxGap, before[last]);
    var after := before[last := before[last].(high := n)];
    assert IsRun(flags, times, maxGap, after[last]);
    forall k | 0 < k < |after| ensures Apart(flags, times, maxGap, after[k - 1], after[k]) {
      assert Apart(flags, times, maxGap, before[k - 1], before[k]);
    }
  }

  lemma OpenNew(flags: seq<bool>, times: seq<int>, maxGap: real, n: nat, before: seq<Span>)
    requires 0 < n <= |flags| == |times| && MaximalRuns(flags, times, maxGap, n - 1, before)
    requires flags[n - 1]
    requires before != [] && before[|before| - 1].high == n - 1 && n > 1 ==> !Close(times, maxGap, n - 1)
    ensures MaximalRuns(flags, times, maxGap, n, before + [Span(n - 1, n)])
  {
    var after := before + [Span(n - 1, n)];
    forall k | 0 <= k < |after| ensures IsRun(flags, times, maxGap, after[k]) && after[k].high <= n {
      if k < |before| {
        assert IsRun(flags, times, maxGap, before[k]);
      }
    }
    forall k | 0 < k < |after| ensures Apart(flags, times, maxGap, after[k - 1], after[k]) {
      if k < |before| {
        assert Apart(flags, times, maxGap, before[k - 1], before[k]);
      } else {
        assert IsRun(flags, times, maxGap, before[k - 1]);
      }
    }
  }

  // ---------------------------------------------------------------- consequences of being maximal

  function CountTrue(flags: seq<bool>, low: nat, high: nat): nat
    requires low <= high <= |flags|
    decreases high
  {
    if low == high then 0 else CountTrue(flags, low, high - 1) + (if flags[high - 1] then 1 else 0)
  }

  function Sizes(spans: seq<Span>, k: nat): int
    requires k <= |spans|
  {
    if k == 0 then 0 else Sizes(spans, k - 1) + spans[k - 1].high - spans[k - 1].low
  }

  lemma {:induction false} CountSplit(flags: seq<bool>, low: nat, mid: nat, high: nat)
    requires low <= mid <= high <= |flags|
    ensures CountTrue(flags, low, high) == CountTrue(flags, low, mid) + CountTrue(flags, mid, high)
    decreases high
  {
    if mid < high {
      CountSplit(flags, low, mid, high - 1);
    }
  }

  lemma {:induction false} CountUniform(flags: seq<bool>, low: nat, high: nat, v: bool)
    requires low <= high <= |flags| && forall i :: low <= i < high ==> flags[i] == v
    ensures CountTrue(flags, low, high) == if v then high - low else 0
    decreases high
  {
    if low < high {
      CountUniform(flags, low, high - 1, v);
    }
  }

  lemma {:induction false} SizesCount(flags: seq<bool>, times: seq<int>, maxGap: real, n: nat, spans: seq<Span>, k: nat)
    requires n <= |flags| == |times| && MaximalRuns(flags, times, maxGap, n, spans) && 0 < k <= |spans|
    ensures spans[k - 1].high <= |flags| && Sizes(spans, k) == CountTrue(flags, 0, spans[k - 1].high)
    decreases k
  {
    var s := spans[k - 1];
    assert IsRun(flags, times, maxGap, s);
    CountUniform(flags, s.low, s.high, true);
    CountSplit(flags, 0, s.low, s.high);
    if k == 1 {
      CountUniform(flags, 0, s.low, false);
    } else {
      SizesCount(flags, times, maxGap, n, spans, k - 1);
      assert Apart(flags, times, maxGap, spans[k - 2], s);
      CountUniform(flags, spans[k - 2].high, s.low, false);
      CountSplit(flags, 0, spans[k - 2].high, s.low);
    }
  }

  /** The runs hold as many points as are flagged. */
  lemma RunsHoldAll(flags: seq<bool>, times: seq<int>, maxGap: real, n: nat, spans: seq<Span>)
    requires n <= |flags| == |times| && MaximalRuns(flags, times, maxGap, n, spans)
    ensures Sizes(spans, |spans|) == CountTrue(flags, 0, n)
  {
    if spans == [] {
      CountUniform(flags, 0, n, false);
    } else {
      var last := spans[|spans| - 1];
      SizesCount(flags, times, maxGap, n, spans, |spans|);
      CountUniform(flags, last.high, n, false);
      CountSplit(flags, 0, last.high, n);
    }
  }

  /** There is only one way to cut a series into maximal runs. */
  lemma {:induction false} RunsAreUnique(flags: seq<bool>, times: seq<int>, maxGap: real, n: nat, a: seq<Span>, b: seq<Span>, k: nat)
    requires n <= |flags| == |times| && MaximalRuns(flags, times, maxGap, n, a) && MaximalRuns(flags, times, maxGap, n, b)
    requires k < |a|
    ensures k < |b| && a[k] == b[k]
    decreases k
  {
    assert IsRun(flags, times, maxGap, a[k]);
    var start := 0;
    if k > 0 {
      RunsAreUnique(flags, times, maxGap, n, a, b, k - 1);
      start := a[k - 1].high;
      assert Apart(flags, times, maxGap, a[k - 1], a[k]);
    }
    assert flags[a[k].low];
    assert k < |b|;
    assert IsRun(flags, times, maxGap, b[k]);
    if k > 0 {
      assert Apart(flags, times, maxGap, b[k - 1], b[k]);
    }
    assert a[k].low == b[k].low by {
      assert forall i :: start <= i < a[k].low ==> !flags[i];
      assert forall i :: start <= i < b[k].low ==> !flags[i];
      assert flags[a[k].low] && flags[b[k].low];
    }
    if a[k].high < b[k].high {
      RunEndsFirst(flags, times, maxGap, n, a, b[k], k);
    } else if b[k].high < a[k].high {
      RunEndsFirst(flags, times, maxGap, n, b, a[k], k);
    }
  }

  lemma RunEndsFirst(flags: seq<bool>, times: seq<int>, maxGap: real, n: nat, a: seq<Span>, longer: Span, k: nat)
    requires n <= |flags| == |times| && MaximalRuns(flags, times, maxGap, n, a) && k < |a|
    requires IsRun(flags, times, maxGap, longer) && longer.low == a[k].low && longer.high <= n
    ensures longer.high <= a[k].high
  {
    assert IsRun(flags, times, maxGap, a[k]);
    if k + 1 < |a| {
      assert Apart(flags, times, maxGap, a[k], a[k + 1]);
    }
    var h := a[k].high;
    assert h < longer.high ==> Flagged(flags, h);
  }

  predicate Flagged(flags: seq<bool>, i: int) {
    0 <= i < |flags| && flags[i]
  }
}
