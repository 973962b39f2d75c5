/** Direction expansion of a trace selection: worklists along parent and child links that may be
    cyclic. Span ids and start times are compared only, so they are numbers here. */
module SpanSelection {
  import opened Options
  import opened Sorting

  datatype Span = Span(id: nat, parent: Option<nat>, start: int)

  datatype Direction = Upstream | Downstream | Both

  // ---------------------------------------------------------------- links

  ghost predicate UniqueIds(spans: seq<Span>) {
    forall s, t :: s in spans && t in spans && s.id == t.id ==> s == t
  }

  function Lookup(spans: seq<Span>, id: nat): (r: Option<Span>)
    ensures r.Some? ==> r.value in spans && r.value.id == id
    ensures r.None? ==> forall s :: s in spans ==> s.id != id
  {
    if spans == [] then None
    else if spans[|spans| - 1].id == id then Some(spans[|spans| - 1])
    else
      assert spans == spans[..|spans| - 1] + [spans[|spans| - 1]];
      Lookup(spans[..|spans| - 1], id)
  }

  function ParentOf(spans: seq<Span>, s: Span): Option<Span> {
    if s.parent.Some? then Lookup(spans, s.parent.value) else None
  }

  /** The span `n` parent links above `s`, if the chain is that long. */
  function Up(spans: seq<Span>, s: Span, n: nat): Option<Span>
    decreases n
  {
    if n == 0 then Some(s)
    else
      var p := ParentOf(spans, s);
      if p.None? then None else Up(spans, p.value, n - 1)
  }

  ghost predicate AncestorOrSelf(spans: seq<Span>, u: Span, s: Span) {
    exists n :: Up(spans, s, n) == Some(u)
  }

  /** `u` is an anchor or above one. */
  ghost predicate AboveAnchor(spans: seq<Span>, anchors: seq<Span>, u: Span) {
    exists a :: a in anchors && AncestorOrSelf(spans, u, a)
  }

  /** `d` is an anchor or below one. */
  ghost predicate BelowAnchor(spans: seq<Span>, anchors: seq<Span>, d: Span) {
    d in spans && exists a :: a in anchors && AncestorOrSelf(spans, a, d)
  }

  /** An anchor is reached from `d` by `n` parent links whose spans before the anchor are not in `avoid`. */
  ghost predicate Reaches(spans: seq<Span>, anchors: seq<Span>, avoid: seq<Span>, d: Span, n: nat)
    decreases n
  {
    if n == 0 then d in anchors
    else d in spans && d !in avoid && ParentOf(spans, d).Some? && Reaches(spans, anchors, avoid, ParentOf(spans, d).value, n - 1)
  }

  ghost predicate ReachesAnchor(spans: seq<Span>, anchors: seq<Span>, avoid: seq<Span>, d: Span) {
    exists n :: Reaches(spans, anchors, avoid, d, n)
  }

  // ---------------------------------------------------------------- worklists

  ghost function Members(s: seq<Span>): set<Span> {
    set x | x in s
  }

  /** How many spans the worklist can still add. */
  ghost function Unselected(spans: seq<Span>, selected: seq<Span>): nat {
    |Members(spans) - Members(selected)|
  }

  lemma SelectingShrinks(spans: seq<Span>, selected: seq<Span>, p: Span)
    requires p in spans && p !in selected
    ensures Unselected(spans, selected + [p]) < Unselected(spans, selected)
  {
    assert Members(spans) - Members(selected + [p]) == (Members(spans) - Members(selected)) - {p};
  }

  ghost predicate WellSelected(spans: seq<Span>, selected: seq<Span>) {
    (forall s :: s in selected ==> s in spans) && Distinct(selected)
  }

  lemma AboveStep(spans: seq<Span>, anchors: seq<Span>, s: Span, p: Span)
    requires AboveAnchor(spans, anchors, s) && ParentOf(spans, s) == Some(p)
    ensures AboveAnchor(spans, anchors, p)
  {
    var a :| a in anchors && AncestorOrSelf(spans, s, a);
    var n: nat :| Up(spans, a, n) == Some(s);
    UpSplit(spans, a, s, n);
  }

  lemma {:induction false} UpSplit(spans: seq<Span>, a: Span, s: Span, n: nat)
    requires Up(spans, a, n) == Some(s)
    ensures Up(spans, a, n + 1) == ParentOf(spans, s)
    decreases n
  {
    if n > 0 {
      UpSplit(spans, ParentOf(spans, a).value, s, n - 1);
    } else if ParentOf(spans, s).Some? {
      assert Up(spans, ParentOf(spans, s).value, 0) == ParentOf(spans, s);
    }
  }

  ghost predicate ParentIn(spans: seq<Span>, selected: seq<Span>, s: Span) {
    ParentOf(spans, s).None? || ParentOf(spans, s).value in selected
  }

  lemma {:induction false} ClosedUpward(spans: seq<Span>, selected: seq<Span>, a: Span, u: Span, n: nat)
    requires a in selected && Up(spans, a, n) == Some(u)
    requires forall s {:trigger ParentIn(spans, selected, s)} :: s in selected ==> ParentIn(spans, selected, s)
    ensures u in selected
    decreases n
  {
    if n > 0 {
      assert ParentIn(spans, selected, a);
      ClosedUpward(spans, selected, ParentOf(spans, a).value, u, n - 1);
    }
  }

  ghost predicate UpwardInvariant(spans: seq<Span>, anchors: seq<Span>, selected: seq<Span>, frontier: seq<Span>) {
    && WellSelected(spans, selected) && anchors <= selected
    && (forall s :: s in frontier ==> s in selected)
    && (forall s {:trigger AboveAnchor(spans, anchors, s)} :: s in selected ==> AboveAnchor(spans, anchors, s))
    && (forall s {:trigger ParentIn(spans, selected, s)} :: s in selected && s !in frontier ==> ParentIn(spans, selected, s))
  }

  lemma AnchorsStart(spans: seq<Span>, anchors: seq<Span>)
    requires WellSelected(spans, anchors)
    ensures UpwardInvariant(spans, anchors, anchors, anchors)
  {
    forall a | a in anchors ensures AboveAnchor(spans, anchors, a) {
      assert Up(spans, a, 0) == Some(a);
      assert AncestorOrSelf(spans, a, a);
    }
  }

  lemma UpwardStep(spans: seq<Span>, anchors: seq<Span>, selected: seq<Span>, rest: seq<Span>, current: Span)
    requires UpwardInvariant(spans, anchors, selected, rest + [current])
    ensures var p := ParentOf(spans, current);
            if p.Some? && p.value !in selected then UpwardInvariant(spans, anchors, selected + [p.value], rest + [p.value])
            else UpwardInvariant(spans, anchors, selected, rest)
  {
    var p := ParentOf(spans, current);
    var frontier := rest + [current];
    assert forall s :: s in frontier <==> s in rest || s == current;
    if p.Some? && p.value !in selected {
      assert current in selected;
      AboveStep(spans, anchors, current, p.value);
      var grown := selected + [p.value];
      assert forall s :: s in grown <==> s in selected || s == p.value;
      assert forall s :: s in rest + [p.value] <==> s in rest || s == p.value;
      forall s | s in grown && s !in rest + [p.value] ensures ParentIn(spans, grown, s) {
        assert s == current || ParentIn(spans, selected, s);
      }
    } else {
      forall s | s in selected && s !in rest ensures ParentIn(spans, selected, s) {
        assert s == current || s !in frontier;
      }
    }
  }

  lemma UpwardDone(spans: seq<Span>, anchors: seq<Span>, selected: seq<Span>, u: Span)
    requires UpwardInvariant(spans, anchors, selected, [])
    ensures u in selected <==> AboveAnchor(spans, anchors, u)
  {
    if AboveAnchor(spans, anchors, u) {
      var a :| a in anchors && AncestorOrSelf(spans, u, a);
      var n: nat :| Up(spans, a, n) == Some(u);
      ClosedUpward(spans, selected, a, u, n);
    }
  }

  /** Pops one span and selects its parent. */
  method VisitParent(spans: seq<Span>, ghost anchors: seq<Span>, selected0: seq<Span>, rest: seq<Span>, current: Span)
    returns (selected: seq<Span>, frontier: seq<Span>)
    requires UpwardInvariant(spans, anchors, selected0, rest + [current])
    ensures UpwardInvariant(spans, anchors, selected, frontier)
    ensures Unselected(spans, selected) < Unselected(spans, selected0) || (selected == selected0 && frontier == rest)
  {
    UpwardStep(spans, anchors, selected0, rest, current);
    selected, frontier := selected0, rest;
    var parent := ParentOf(spans, current);
    if parent.Some? && parent.value !in selected {
      SelectingShrinks(spans, selected, parent.value);
      selected := selected + [parent.value];
      frontier := frontier + [parent.value];
    }
  }

  method UpwardPass(spans: seq<Span>, anchors: seq<Span>) returns (selected: seq<Span>)
    requires UniqueIds(spans) && WellSelected(spans, anchors)
    ensures WellSelected(spans, selected) && anchors <= selected
    ensures forall u :: u in selected <==> AboveAnchor(spans, anchors, u)
  {
    selected := anchors;
    var frontier := anchors;
    AnchorsStart(spans, anchors);
    while frontier != []
      invariant UpwardInvariant(spans, anchors, selected, frontier)
      decreases Unselected(spans, selected), |frontier|
    {
      var current, rest := PopLast(frontier);
      selected, frontier := VisitParent(spans, anchors, selected, rest, current);
    }
    forall u ensures u in selected <==> AboveAnchor(spans, anchors, u) {
      UpwardDone(spans, anchors, selected, u);
    }
  }

  method PopLast(frontier: seq<Span>) returns (current: Span, rest: seq<Span>)
    requires frontier != []
    ensures frontier == rest + [current]
  {
    current, rest := frontier[|frontier| - 1], frontier[..|frontier| - 1];
  }

  // ---------------------------------------------------------------- children

  ghost predicate Expanded(spans: seq<Span>, selected: seq<Span>, s: Span) {
    forall c :: c in spans && ParentOf(spans, c) == Some(s) ==> c in selected
  }

  /** `base` is what was selected before the downstream pass, anchors included. */
  ghost predicate DownwardInvariant(spans: seq<Span>, anchors: seq<Span>, base: seq<Span>, selected: seq<Span>, frontier: seq<Span>) {
    && WellSelected(spans, selected) && base <= selected
    && (forall s :: s in frontier ==> s in selected && (s in anchors || s !in base))
    && (forall s {:trigger ReachesAnchor(spans, anchors, base, s)} :: s in selected ==> s in base || ReachesAnchor(spans, anchors, base, s))
    && (forall s {:trigger Expanded(spans, selected, s)} :: s in selected && (s in anchors || s !in base) && s !in frontier ==> Expanded(spans, selected, s))
  }

  lemma ReachesStep(spans: seq<Span>, anchors: seq<Span>, base: seq<Span>, s: Span, c: Span)
    requires s in anchors || ReachesAnchor(spans, anchors, base, s)
    requires c in spans && c !in base && ParentOf(spans, c) == Some(s)
    ensures ReachesAnchor(spans, anchors, base, c)
  {
    if s in anchors {
      assert Reaches(spans, anchors, base, s, 0);
      assert Reaches(spans, anchors, base, c, 1);
    } else {
      var n: nat :| Reaches(spans, anchors, base, s, n);
      assert Reaches(spans, anchors, base, c, n + 1);
    }
  }

  lemma {:induction false} ClosedDownward(spans: seq<Span>, anchors: seq<Span>, base: seq<Span>, selected: seq<Span>, d: Span, n: nat)
    requires DownwardInvariant(spans, anchors, base, selected, []) && anchors <= base
    requires Reaches(spans, anchors, base, d, n)
    ensures d in selected && (d in anchors || d !in base)
    decreases n
  {
    if n > 0 {
      var p := ParentOf(spans, d).value;
      ClosedDownward(spans, anchors, base, selected, p, n - 1);
      assert Expanded(spans, selected, p);
    }
  }

  lemma ChildStep(spans: seq<Span>, anchors: seq<Span>, base: seq<Span>, selected: seq<Span>, c: Span, s: Span)
    requires WellSelected(spans, selected) && base <= selected
    requires s in selected && (s in anchors || s !in base) && (s in base || ReachesAnchor(spans, anchors, base, s))
    requires c in spans && c !in selected && ParentOf(spans, c) == Some(s)
    ensures ReachesAnchor(spans, anchors, base, c)
    ensures WellSelected(spans, selected + [c])
  {
    assert c !in base by {
      assert forall x :: x in base ==> x in selected;
    }
    ReachesStep(spans, anchors, base, s, c);
  }

  lemma ExpandedStays(spans: seq<Span>, selected: seq<Span>, grown: seq<Span>, s: Span)
    requires Expanded(spans, selected, s) && forall x :: x in selected ==> x in grown
    ensures Expanded(spans, grown, s)
  {
  }

  ghost predicate ChildrenTaken(spans: seq<Span>, selected: seq<Span>, current: Span, i: nat) {
    forall j :: 0 <= j < i && j < |spans| && ParentOf(spans, spans[j]) == Some(current) ==> spans[j] in selected
  }

  lemma VisitChild(spans: seq<Span>, anchors: seq<Span>, base: seq<Span>, selected: seq<Span>, frontier: seq<Span>, current: Span, i: nat)
    requires DownwardInvariant(spans, anchors, base, selected, frontier + [current])
    requires i < |spans| && ChildrenTaken(spans, selected, current, i)
    ensures var c := spans[i];
            if ParentOf(spans, c) == Some(current) && c !in selected then
              && DownwardInvariant(spans, anchors, base, selected + [c], (frontier + [c]) + [current])
              && ChildrenTaken(spans, selected + [c], current, i + 1)
              && Unselected(spans, selected + [c]) < Unselected(spans, selected)
            else ChildrenTaken(spans, selected, current, i + 1)
  {
    var c := spans[i];
    if ParentOf(spans, c) == Some(current) && c !in selected {
      assert current in frontier + [current];
      assert current in base || ReachesAnchor(spans, anchors, base, current);
      ChildStep(spans, anchors, base, selected, c, current);
      SelectingShrinks(spans, selected, c);
      FrontierGrows(spans, anchors, base, selected, frontier, current, c);
    }
  }

  lemma CurrentIsSpan(spans: seq<Span>, anchors: seq<Span>, base: seq<Span>, selected: seq<Span>, frontier: seq<Span>, current: Span)
    requires DownwardInvariant(spans, anchors, base, selected, frontier + [current])
    ensures current in spans
  {
    assert current in frontier + [current];
  }

  lemma ChildByLink(spans: seq<Span>, c: Span, s: Span)
    requires UniqueIds(spans) && s in spans
    ensures c.parent == Some(s.id) <==> ParentOf(spans, c) == Some(s)
  {
  }

  lemma AllChildrenTaken(spans: seq<Span>, selected: seq<Span>, current: Span)
    requires ChildrenTaken(spans, selected, current, |spans|)
    ensures Expanded(spans, selected, current)
  {
  }

  /** Selects the children of `current` that are not selected yet, in input order. */
  method AddChildren(spans: seq<Span>, ghost anchors: seq<Span>, ghost base: seq<Span>, selected0: seq<Span>, frontier0: seq<Span>, current: Span)
    returns (selected: seq<Span>, frontier: seq<Span>)
    requires UniqueIds(spans)
    requires DownwardInvariant(spans, anchors, base, selected0, frontier0 + [current])
    ensures DownwardInvariant(spans, anchors, base, selected, frontier)
    ensures Unselected(spans, selected) < Unselected(spans, selected0) || (selected == selected0 && frontier == frontier0)
  {
    selected, frontier := selected0, frontier0;
    for i := 0 to |spans|
      invariant DownwardInvariant(spans, anchors, base, selected, frontier + [current])
      invariant ChildrenTaken(spans, selected, current, i)
      invariant Unselected(spans, selected) < Unselected(spans, selected0) || (selected == selected0 && frontier == frontier0)
    {
      var c := spans[i];
      VisitChild(spans, anchors, base, selected, frontier, current, i);
      CurrentIsSpan(spans, anchors, base, selected, frontier, current);
      ChildByLink(spans, c, current);
      if c.parent == Some(current.id) && c !in selected {
        selected := selected + [c];
        frontier := frontier + [c];
      }
    }
    AllChildrenTaken(spans, selected, current);
    FrontierShrinks(spans, anchors, base, selected, frontier, current);
  }

  lemma FrontierGrows(spans: seq<Span>, anchors: seq<Span>, base: seq<Span>, selected: seq<Span>, frontier: seq<Span>, current: Span, c: Span)
    requires DownwardInvariant(spans, anchors, base, selected, frontier + [current])
    requires c in spans && c !in selected && ReachesAnchor(spans, anchors, base, c) && WellSelected(spans, selected + [c])
    ensures DownwardInvariant(spans, anchors, base, selected + [c], (frontier + [c]) + [current])
  {
    var grown := selected + [c];
    assert forall s :: s in grown <==> s in selected || s == c;
    assert forall s :: s in (frontier + [c]) + [current] <==> s in frontier + [current] || s == c;
    assert c !in base by {
      assert forall x :: x in base ==> x in selected;
    }
    forall s | s in grown && (s in anchors || s !in base) && s !in (frontier + [c]) + [current] ensures Expanded(spans, grown, s) {
      ExpandedStays(spans, selected, grown, s);
    }
  }

  lemma FrontierShrinks(spans: seq<Span>, anchors: seq<Span>, base: seq<Span>, selected: seq<Span>, frontier: seq<Span>, current: Span)
    requires DownwardInvariant(spans, anchors, base, selected, frontier + [current]) && Expanded(spans, selected, current)
    ensures DownwardInvariant(spans, anchors, base, selected, frontier)
  {
    assert forall s :: s in frontier + [current] <==> s in frontier || s == current;
  }

  method DownwardPass(spans: seq<Span>, anchors: seq<Span>, base: seq<Span>) returns (selected: seq<Span>)
    requires UniqueIds(spans) && WellSelected(spans, base) && anchors <= base
    ensures WellSelected(spans, selected) && base <= selected
    ensures forall d :: d in selected <==> d in base || ReachesAnchor(spans, anchors, base, d)
  {
    selected := base;
    var frontier := anchors;
    DownwardStarts(spans, anchors, base);
    while frontier != []
      invariant DownwardInvariant(spans, anchors, base, selected, frontier)
      decreases Unselected(spans, selected), |frontier|
    {
      var current, rest := PopLast(frontier);
      selected, frontier := AddChildren(spans, anchors, base, selected, rest, current);
    }
    forall d ensures d in selected <==> d in base || ReachesAnchor(spans, anchors, base, d) {
      DownwardDone(spans, anchors, base, selected, d);
    }
  }

  lemma DownwardDone(spans: seq<Span>, anchors: seq<Span>, base: seq<Span>, selected: seq<Span>, d: Span)
    requires DownwardInvariant(spans, anchors, base, selected, []) && anchors <= base
    ensures d in selected <==> d in base || ReachesAnchor(spans, anchors, base, d)
  {
    if ReachesAnchor(spans, anchors, base, d) {
      var n: nat :| Reaches(spans, anchors, base, d, n);
      ClosedDownward(spans, anchors, base, selected, d, n);
    }
    assert d in base ==> d in selected;
    assert d in selected ==> d in base || ReachesAnchor(spans, anchors, base, d);
  }

  lemma DownwardStarts(spans: seq<Span>, anchors: seq<Span>, base: seq<Span>)
    requires WellSelected(spans, base) && anchors <= base
    ensures DownwardInvariant(spans, anchors, base, base, anchors)
  {
  }

  // ---------------------------------------------------------------- the selection

  function StartKey(s: Span): seq<int> {
    [s.start, s.id]
  }

  predicate StartsFirst(a: Span, b: Span) {
    LexLeq(StartKey(a), StartKey(b))
  }

  /** Which spans a direction selects. */
  ghost predicate Chosen(spans: seq<Span>, anchors: seq<Span>, direction: Direction, base: seq<Span>, s: Span) {
    match direction
    case Upstream => AboveAnchor(spans, anchors, s)
    case Downstream => s in anchors || ReachesAnchor(spans, anchors, anchors, s)
    case Both => AboveAnchor(spans, anchors, s) || ReachesAnchor(spans, anchors, base, s)
  }

  method ExpandSelection(spans: seq<Span>, anchors: seq<Span>, direction: Direction) returns (result: seq<Span>, ghost base: seq<Span>)
    requires UniqueIds(spans) && WellSelected(spans, anchors)
    ensures Distinct(result) && Sorted(StartsFirst, result)
    ensures forall u :: direction != Downstream ==> (u in base <==> AboveAnchor(spans, anchors, u))
    ensures forall s :: s in result <==> Chosen(spans, anchors, direction, base, s)
  {
    var selected := anchors;
    if direction != Downstream {
      selected := UpwardPass(spans, anchors);
    }
    base := selected;
    if direction != Upstream {
      selected := DownwardPass(spans, anchors, selected);
    }
    result := Sort(StartsFirst, selected);
    SortKeepsDistinct(StartsFirst, selected);
    KeyOrderIsTotal(StartKey, StartsFirst);
    SortIsSorted(StartsFirst, selected);
  }

  // ---------------------------------------------------------------- what each direction means

  lemma {:induction false} ReachingIsBelow(spans: seq<Span>, anchors: seq<Span>, avoid: seq<Span>, d: Span, n: nat)
    requires WellSelected(spans, anchors) && Reaches(spans, anchors, avoid, d, n)
    ensures BelowAnchor(spans, anchors, d)
    decreases n
  {
    if n == 0 {
      assert Up(spans, d, 0) == Some(d);
      assert AncestorOrSelf(spans, d, d);
    } else {
      var p := ParentOf(spans, d).value;
      ReachingIsBelow(spans, anchors, avoid, p, n - 1);
      ChildIsBelow(spans, anchors, p, d);
    }
  }

  lemma ChildIsBelow(spans: seq<Span>, anchors: seq<Span>, p: Span, d: Span)
    requires d in spans && ParentOf(spans, d) == Some(p) && BelowAnchor(spans, anchors, p)
    ensures BelowAnchor(spans, anchors, d)
  {
    var a :| a in anchors && AncestorOrSelf(spans, a, p);
    var n: nat :| Up(spans, p, n) == Some(a);
    assert Up(spans, d, n + 1) == Some(a);
    assert AncestorOrSelf(spans, a, d);
  }

  lemma {:induction false} BelowReaches(spans: seq<Span>, anchors: seq<Span>, d: Span, a: Span, n: nat)
    requires WellSelected(spans, anchors) && d in spans && a in anchors && Up(spans, d, n) == Some(a)
    ensures d in anchors || ReachesAnchor(spans, anchors, anchors, d)
    decreases n
  {
    if d !in anchors {
      var p := ParentOf(spans, d).value;
      BelowReaches(spans, anchors, p, a, n - 1);
      ReachesStep(spans, anchors, anchors, p, d);
    }
  }

  /** DOWNSTREAM selects exactly the anchors and everything below one, cycles or not. */
  lemma DownstreamIsBelow(spans: seq<Span>, anchors: seq<Span>, s: Span)
    requires WellSelected(spans, anchors)
    ensures Chosen(spans, anchors, Downstream, anchors, s) <==> BelowAnchor(spans, anchors, s)
  {
    if s in anchors {
      assert Reaches(spans, anchors, anchors, s, 0);
    }
    if ReachesAnchor(spans, anchors, anchors, s) {
      var n: nat :| Reaches(spans, anchors, anchors, s, n);
      ReachingIsBelow(spans, anchors, anchors, s, n);
    }
    if BelowAnchor(spans, anchors, s) {
      var a :| a in anchors && AncestorOrSelf(spans, a, s);
      var n: nat :| Up(spans, s, n) == Some(a);
      BelowReaches(spans, anchors, s, a, n);
    }
  }

  /** BOTH selects everything above an anchor and nothing that is neither above nor below one. */
  lemma BothIsSound(spans: seq<Span>, anchors: seq<Span>, base: seq<Span>, s: Span)
    requires WellSelected(spans, anchors)
    ensures AboveAnchor(spans, anchors, s) ==> Chosen(spans, anchors, Both, base, s)
    ensures Chosen(spans, anchors, Both, base, s) ==> AboveAnchor(spans, anchors, s) || BelowAnchor(spans, anchors, s)
  {
    if ReachesAnchor(spans, anchors, base, s) {
      var n: nat :| Reaches(spans, anchors, base, s, n);
      ReachingIsBelow(spans, anchors, base, s, n);
    }
  }

  /** A span the upstream pass selected without being an anchor, although it also lies below one:
      the downstream pass does not enter it again. */
  ghost predicate Skipped(spans: seq<Span>, anchors: seq<Span>, u: Span) {
    u !in anchors && AboveAnchor(spans, anchors, u) && BelowAnchor(spans, anchors, u)
  }

  ghost predicate SkippedChildrenAbove(spans: seq<Span>, anchors: seq<Span>) {
    forall c :: c in spans && ParentOf(spans, c).Some? && Skipped(spans, anchors, ParentOf(spans, c).value) ==>
      AboveAnchor(spans, anchors, c)
  }

  /** A child of a skipped span is selected only if it is itself above an anchor. */
  lemma SkippedChild(spans: seq<Span>, anchors: seq<Span>, base: seq<Span>, c: Span)
    requires forall u :: u in base <==> AboveAnchor(spans, anchors, u)
    requires ParentOf(spans, c).Some? && Skipped(spans, anchors, ParentOf(spans, c).value)
    ensures Chosen(spans, anchors, Both, base, c) <==> AboveAnchor(spans, anchors, c)
  {
    var p := ParentOf(spans, c).value;
    assert p in base;
    forall n: nat ensures Reaches(spans, anchors, base, c, n) ==> n == 0 {
      assert n > 0 ==> !Reaches(spans, anchors, base, p, n - 1);
    }
    if c in anchors {
      assert Up(spans, c, 0) == Some(c);
      assert AncestorOrSelf(spans, c, c);
    }
  }

  lemma {:induction false} BelowIsChosen(spans: seq<Span>, anchors: seq<Span>, base: seq<Span>, d: Span, a: Span, n: nat)
    requires WellSelected(spans, anchors) && forall u :: u in base <==> AboveAnchor(spans, anchors, u)
    requires SkippedChildrenAbove(spans, anchors)
    requires d in spans && a in anchors && Up(spans, d, n) == Some(a)
    ensures Chosen(spans, anchors, Both, base, d)
    decreases n
  {
    if d in anchors {
      assert Reaches(spans, anchors, base, d, 0);
    } else {
      var p := ParentOf(spans, d).value;
      BelowIsChosen(spans, anchors, base, p, a, n - 1);
      assert Up(spans, p, n - 1) == Some(a);
      assert AncestorOrSelf(spans, a, p) && BelowAnchor(spans, anchors, p);
      if !Skipped(spans, anchors, p) && d !in base {
        ReachesStep(spans, anchors, base, p, d);
      }
    }
  }

  /** BOTH is complete downwards exactly when every child of a skipped span is itself
      above an anchor, which the parent links alone decide. */
  lemma BothIsComplete(spans: seq<Span>, anchors: seq<Span>, base: seq<Span>)
    requires WellSelected(spans, anchors) && forall u :: u in base <==> AboveAnchor(spans, anchors, u)
    ensures (forall d :: BelowAnchor(spans, anchors, d) ==> Chosen(spans, anchors, Both, base, d))
            <==> SkippedChildrenAbove(spans, anchors)
  {
    if SkippedChildrenAbove(spans, anchors) {
      forall d | BelowAnchor(spans, anchors, d) ensures Chosen(spans, anchors, Both, base, d) {
        var a :| a in anchors && AncestorOrSelf(spans, a, d);
        var n: nat :| Up(spans, d, n) == Some(a);
        BelowIsChosen(spans, anchors, base, d, a, n);
      }
    } else {
      var c :| c in spans && ParentOf(spans, c).Some? && Skipped(spans, anchors, ParentOf(spans, c).value)
               && !AboveAnchor(spans, anchors, c);
      SkippedChild(spans, anchors, base, c);
      ChildIsBelow(spans, anchors, ParentOf(spans, c).value, c);
    }
  }

  /** Anchors 1 and 3 with 2 between them: the second child of 2 is below an anchor but BOTH,
      which reached 2 on its way up, does not select it. */
  lemma BothMissesSibling()
    ensures var a, u, b, x := Span(1, None, 0), Span(2, Some(1), 0), Span(3, Some(2), 0), Span(4, Some(2), 0);
            var spans, anchors, base := [a, u, b, x], [a, b], [a, b, u];
            && UniqueIds(spans) && WellSelected(spans, anchors)
            && BelowAnchor(spans, anchors, x) && !AboveAnchor(spans, anchors, x) && !ReachesAnchor(spans, anchors, base, x)
  {
    var a, u, b, x := Span(1, None, 0), Span(2, Some(1), 0), Span(3, Some(2), 0), Span(4, Some(2), 0);
    var spans, anchors, base := [a, u, b, x], [a, b], [a, b, u];
    assert ParentOf(spans, x) == Some(u) && ParentOf(spans, b) == Some(u) && ParentOf(spans, u) == Some(a) && ParentOf(spans, a) == None;
    assert Up(spans, a, 0) == Some(a) && Up(spans, u, 1) == Some(a) && Up(spans, x, 2) == Some(a);
    assert AncestorOrSelf(spans, a, x) && a in anchors;
    forall n: nat ensures !Reaches(spans, anchors, base, x, n) {
      if n > 0 {
        assert !Reaches(spans, anchors, base, u, n - 1);
      }
    }
    forall s, n: nat | s in anchors ensures Up(spans, s, n) != Some(x) {
      UpNeverFour(spans, s, x, n);
    }
  }

  lemma {:induction false} UpNeverFour(spans: seq<Span>, s: Span, x: Span, n: nat)
    requires s != x && forall t :: t in spans ==> ParentOf(spans, t) != Some(x)
    requires s in spans
    ensures Up(spans, s, n) != Some(x)
    decreases n
  {
    if n > 0 && ParentOf(spans, s).Some? {
      UpNeverFour(spans, ParentOf(spans, s).value, x, n - 1);
    }
  }
}
