/** Compacting the tool outputs of a model's history: sharing 6000 characters among the outputs,
    then shrinking each page to its share.
    Short outputs keep everything; what they leave over is divided evenly among the longer ones.
    A page that must shrink is first reordered and compacted, then loses items from its end. */
module ToolHistory {
  import opened Options
  import opened Sorting
  import EvidenceOrder

  const HISTORY_CHARACTERS := 6000

  type Item = EvidenceOrder.Item

  /** One page of evidence with its counters; absent counters are None. */
  datatype Page = Page(
    evidence: seq<Item>,
    returnedCount: nat,
    omittedCount: Option<nat>,
    pageCount: Option<nat>,
    truncated: bool)

  /** An output that parses as a page of evidence, or any other entry of the history. */
  datatype Entry = Output(characters: nat, page: Page) | Other(body: nat)

  // ---------------------------------------------------------------- shares

  function Sum(s: seq<nat>): nat {
    if s == [] then 0 else s[0] + Sum(s[1..])
  }

  function Share(lengths: seq<nat>, remaining: nat): (r: nat)
    requires lengths != []
    ensures r <= lengths[0] && r <= remaining
  {
    QuotientBound(remaining, |lengths|);
    var even := remaining / |lengths|;
    if lengths[0] < even then lengths[0] else even
  }

  lemma QuotientBound(a: nat, n: nat)
    requires 0 < n
    ensures a / n <= a
  {
    TimesKeepsOrder(1, n, a / n);
  }

  /** What the loop hands out, in the order in which it visits the outputs. */
  function Shares(lengths: seq<nat>, remaining: nat): (r: seq<nat>)
    ensures |r| == |lengths|
  {
    if lengths == [] then []
    else
      var share := Share(lengths, remaining);
      [share] + Shares(lengths[1..], remaining - share)
  }

  lemma TimesKeepsOrder(a: nat, b: nat, n: nat)
    requires a <= b
    ensures a * n <= b * n
  {
  }

  lemma TimesNext(q: nat, n: nat)
    ensures (q + 1) * n == q * n + n
  {
  }

  lemma TimesLess(a: nat, b: nat, n: nat)
    requires a * n < b * n
    ensures a < b
  {
    if b <= a {
      TimesKeepsOrder(b, a, n);
    }
  }

  lemma DivideMeans(a: nat, n: nat, q: nat)
    requires 0 < n && q * n <= a < q * n + n
    ensures a / n == q
  {
    var x := a / n;
    assert x * n <= a < x * n + n;
    TimesNext(x, n);
    TimesNext(q, n);
    TimesLess(x, q + 1, n);
    TimesLess(q, x + 1, n);
  }

  lemma DivideBound(a: nat, n: nat, c: nat)
    requires 0 < n && c * n <= a
    ensures c <= a / n
  {
    if a / n < c {
      TimesKeepsOrder(a / n + 1, c, n);
      TimesNext(a / n, n);
    }
  }

  lemma DivideWithin(a: nat, n: nat, q: nat)
    requires 0 < n && q * n <= a <= (q + 1) * n
    ensures q <= a / n <= q + 1
    ensures a / n == q ==> q * (n - 1) <= a - q <= (q + 1) * (n - 1)
    ensures a / n == q + 1 ==> q * (n - 1) <= a - (q + 1) <= (q + 1) * (n - 1)
  {
    TimesNext(q, n);
    TimesNext(q, n - 1);
    assert q * n == q * (n - 1) + q;
    if a < q * n + n {
      DivideMeans(a, n, q);
    } else {
      TimesNext(q + 1, n);
      DivideMeans(a, n, q + 1);
    }
  }

  /** If every output is at least `c` long and there is room for `c` each, each gets at least `c`. */
  lemma {:induction false} SharesAtLeast(lengths: seq<nat>, remaining: nat, c: nat)
    requires c * |lengths| <= remaining && forall i :: 0 <= i < |lengths| ==> c <= lengths[i]
    ensures forall i :: 0 <= i < |lengths| ==> c <= Shares(lengths, remaining)[i]
  {
    if lengths != [] {
      DivideBound(remaining, |lengths|, c);
      var share := Share(lengths, remaining);
      RoomAfter(lengths, remaining, c);
      SharesAtLeast(lengths[1..], remaining - share, c);
    }
  }

  lemma RoomAfter(lengths: seq<nat>, remaining: nat, c: nat)
    requires lengths != [] && c * |lengths| <= remaining
    ensures c * (|lengths| - 1) <= remaining - Share(lengths, remaining)
  {
    RoomAfterEven(|lengths|, remaining, c);
  }

  lemma RoomAfterEven(n: nat, remaining: nat, c: nat)
    requires 0 < n && c * n <= remaining
    ensures c * (n - 1) <= remaining - remaining / n
  {
    var even := remaining / n;
    DivideBound(remaining, n, c);
    TimesKeepsOrder(c, even, n - 1);
    assert even * n == even * (n - 1) + even;
  }

  /** Once one output is longer than an even share, all that follow are cut to within one of it. */
  lemma {:induction false} EvenShares(lengths: seq<nat>, remaining: nat, q: nat)
    requires q * |lengths| <= remaining <= (q + 1) * |lengths|
    requires forall i :: 0 <= i < |lengths| ==> q + 1 <= lengths[i]
    ensures forall i :: 0 <= i < |lengths| ==> q <= Shares(lengths, remaining)[i] <= q + 1
    ensures Sum(Shares(lengths, remaining)) == remaining
  {
    if lengths != [] {
      DivideWithin(remaining, |lengths|, q);
      var share := Share(lengths, remaining);
      EvenShares(lengths[1..], remaining - share, q);
    }
  }

  ghost predicate Nondecreasing(s: seq<nat>) {
    forall i, j :: 0 <= i < j < |s| ==> s[i] <= s[j]
  }

  /** No output gets more than one character above an output that was cut. */
  ghost predicate MaxMinFair(lengths: seq<nat>, shares: seq<nat>)
    requires |lengths| == |shares|
  {
    forall i, j :: 0 <= i < |shares| && 0 <= j < |shares| && shares[j] < lengths[j] ==> shares[i] <= shares[j] + 1
  }

  ghost predicate FairShares(lengths: seq<nat>, total: nat, shares: seq<nat>) {
    && |shares| == |lengths|
    && (forall i :: 0 <= i < |shares| ==> shares[i] <= lengths[i])
    && Sum(shares) == (if Sum(lengths) < total then Sum(lengths) else total)
    && Nondecreasing(shares)
    && MaxMinFair(lengths, shares)
  }

  lemma {:induction false} SumAtLeast(s: seq<nat>, c: nat)
    requires forall i :: 0 <= i < |s| ==> c <= s[i]
    ensures c * |s| <= Sum(s)
  {
    if s != [] {
      SumAtLeast(s[1..], c);
      assert c * |s| == c + c * (|s| - 1);
    }
  }

  lemma {:induction false} FirstShareIsLeast(lengths: seq<nat>, remaining: nat)
    requires lengths != [] && Nondecreasing(lengths)
    ensures forall i :: 0 <= i < |lengths| ==> Share(lengths, remaining) <= Shares(lengths, remaining)[i]
  {
    var share := Share(lengths, remaining);
    assert share * |lengths| <= remaining by {
      assert share <= remaining / |lengths|;
      assert (remaining / |lengths|) * |lengths| <= remaining;
    }
    SharesAtLeast(lengths, remaining, share);
  }

  /** The loop is a max-min fair division, to one character, that wastes nothing. */
  lemma {:induction false} SharesAreFair(lengths: seq<nat>, remaining: nat)
    requires Nondecreasing(lengths)
    ensures FairShares(lengths, remaining, Shares(lengths, remaining))
  {
    if lengths != [] {
      SharesStay(lengths, remaining);
      if lengths[0] <= remaining / |lengths| {
        SharesAreFair(lengths[1..], remaining - lengths[0]);
        FirstIsKept(lengths, remaining);
      } else {
        FirstIsCut(lengths, remaining);
      }
    }
  }

  lemma FirstIsKept(lengths: seq<nat>, remaining: nat)
    requires lengths != [] && lengths[0] <= remaining / |lengths| && lengths[0] <= remaining
    requires FairShares(lengths[1..], remaining - lengths[0], Shares(lengths[1..], remaining - lengths[0]))
    requires Nondecreasing(Shares(lengths, remaining))
    ensures Sum(Shares(lengths, remaining)) == (if Sum(lengths) < remaining then Sum(lengths) else remaining)
    ensures MaxMinFair(lengths, Shares(lengths, remaining))
  {
    var rest := Shares(lengths[1..], remaining - lengths[0]);
    var shares := Shares(lengths, remaining);
    assert shares == [lengths[0]] + rest;
    assert shares[1..] == rest;
    forall i, j | 0 <= i < |shares| && 0 <= j < |shares| && shares[j] < lengths[j] ensures shares[i] <= shares[j] + 1 {
      if i > 0 && j > 0 {
        assert rest[j - 1] < lengths[1..][j - 1];
        assert rest[i - 1] <= rest[j - 1] + 1;
      }
    }
  }

  lemma FirstIsCut(lengths: seq<nat>, remaining: nat)
    requires lengths != [] && lengths[0] > remaining / |lengths| && Nondecreasing(lengths)
    ensures Sum(Shares(lengths, remaining)) == remaining <= Sum(lengths)
    ensures MaxMinFair(lengths, Shares(lengths, remaining))
  {
    var q, n := remaining / |lengths|, |lengths|;
    TimesNext(q, n);
    EvenShares(lengths, remaining, q);
    SumAtLeast(lengths, q + 1);
  }

  /** The part of fairness that needs no condition on the room left. */
  lemma {:induction false} SharesStay(lengths: seq<nat>, remaining: nat)
    requires Nondecreasing(lengths)
    ensures Nondecreasing(Shares(lengths, remaining))
    ensures forall i :: 0 <= i < |lengths| ==> Shares(lengths, remaining)[i] <= lengths[i]
  {
    if lengths != [] {
      FirstShareIsLeast(lengths, remaining);
      SharesStay(lengths[1..], remaining - Share(lengths, remaining));
    }
  }

  // ---------------------------------------------------------------- shrinking one page

  /** The page without its last `k` items, k >= 1. */
  function Dropped(page: Page, k: nat): Page
    requires 0 < k <= |page.evidence|
  {
    var kept := page.evidence[..|page.evidence| - k];
    Page(kept, |kept|,
         Some((if page.omittedCount.Some? then page.omittedCount.value else 0) + k),
         if page.pageCount.Some? then page.pageCount else Some(|page.evidence|),
         true)
  }

  function Shrunk(page: Page, k: nat): Page
    requires k <= |page.evidence|
  {
    if k == 0 then page else Dropped(page, k)
  }

  /** The page with its items reordered and each one compacted. */
  function Compacted(compact: Item -> Item, page: Page): Page {
    page.(evidence := Mapped(compact, EvidenceOrder.Ordered(page.evidence)))
  }

  function Mapped(compact: Item -> Item, s: seq<Item>): (r: seq<Item>)
    ensures |r| == |s|
  {
    seq(|s|, i requires 0 <= i < |s| => compact(s[i]))
  }

  /** `size` is the rendered length of a page. The result drops as few items as it can. */
  ghost predicate IsBounded(size: Page -> nat, compact: Item -> Item, page: Page, limit: nat, r: Page) {
    if size(page) <= limit then r == page
    else
      IsShortened(size, Compacted(compact, page), limit, r)
  }

  ghost predicate IsShortened(size: Page -> nat, c: Page, limit: nat, r: Page) {
    exists k :: 0 <= k <= |c.evidence| && FewestDropped(size, c, limit, k) && r == Shrunk(c, k)
  }

  ghost predicate FewestDropped(size: Page -> nat, c: Page, limit: nat, k: nat)
    requires k <= |c.evidence|
  {
    && (k == |c.evidence| || size(Shrunk(c, k)) <= limit)
    && forall j: nat :: j < k ==> size(Shrunk(c, j)) > limit
  }

  method BoundedResponse(size: Page -> nat, compact: Item -> Item, page: Page, limit: nat) returns (r: Page)
    ensures IsBounded(size, compact, page, limit, r)
  {
    r := page;
    if size(r) > limit {
      var ordered := EvidenceOrder.OrderTraceEvidence(page.evidence);
      r := DropUntil(size, page.(evidence := Mapped(compact, ordered)), limit);
    }
  }

  lemma DropOne(c: Page, k: nat)
    requires k < |c.evidence|
    ensures Dropped(c, k + 1) == Dropped(Shrunk(c, k), 1).(pageCount := if c.pageCount.Some? then c.pageCount else Some(|c.evidence|))
  {
    var kept := Shrunk(c, k).evidence;
    assert kept[..|kept| - 1] == c.evidence[..|c.evidence| - (k + 1)];
  }

  method DropUntil(size: Page -> nat, c: Page, limit: nat) returns (r: Page)
    ensures IsShortened(size, c, limit, r)
  {
    r := c;
    ghost var dropped := 0;
    while size(r) > limit && r.evidence != []
      invariant dropped <= |c.evidence| && r == Shrunk(c, dropped)
      invariant forall j: nat :: j < dropped ==> size(Shrunk(c, j)) > limit
      decreases |r.evidence|
    {
      DropOne(c, dropped);
      var kept := r.evidence[..|r.evidence| - 1];
      r := Page(kept, |kept|,
                Some((if r.omittedCount.Some? then r.omittedCount.value else 0) + 1),
                if r.pageCount.Some? then r.pageCount else Some(|c.evidence|),
                true);
      dropped := dropped + 1;
    }
    assert FewestDropped(size, c, limit, dropped);
  }

  /** A bounded page fits, or has no evidence left; nothing it omits goes uncounted. */
  lemma BoundedMeans(size: Page -> nat, compact: Item -> Item, page: Page, limit: nat, r: Page)
    requires IsBounded(size, compact, page, limit, r)
    ensures size(r) <= limit || r.evidence == []
    ensures r == page || r.evidence <= Mapped(compact, EvidenceOrder.Ordered(page.evidence))
    ensures |r.evidence| < |page.evidence| ==>
              r.truncated && r.returnedCount == |r.evidence| && r.omittedCount.Some?
              && r.omittedCount.value == |page.evidence| - |r.evidence| + (if page.omittedCount.Some? then page.omittedCount.value else 0)
  {
  }

  // ---------------------------------------------------------------- the whole history

  function OutputIndices(history: seq<Entry>): seq<nat> {
    if history == [] then []
    else
      var n := |history| - 1;
      OutputIndices(history[..n]) + (if history[n].Output? then [n] else [])
  }

  predicate IsOutput(history: seq<Entry>, i: nat) {
    i < |history| && history[i].Output?
  }

  function Width(history: seq<Entry>, i: nat): nat {
    if IsOutput(history, i) then history[i].characters else 0
  }

  function Characters(history: seq<Entry>, indices: seq<nat>): (r: seq<nat>)
    ensures |r| == |indices|
  {
    seq(|indices|, k requires 0 <= k < |indices| => Width(history, indices[k]))
  }

  function Key(history: seq<Entry>, i: nat): seq<int> {
    [Width(history, i), i]
  }

  function Shorter(history: seq<Entry>): (nat, nat) -> bool {
    (i: nat, j: nat) => LexLeq(Key(history, i), Key(history, j))
  }

  function ByLength(history: seq<Entry>): seq<nat> {
    Sort(Shorter(history), OutputIndices(history))
  }

  lemma {:induction false} OutputIndicesMean(history: seq<Entry>)
    ensures Distinct(OutputIndices(history))
    ensures forall i: nat :: i in OutputIndices(history) <==> IsOutput(history, i)
  {
    if history != [] {
      var n := |history| - 1;
      OutputIndicesMean(history[..n]);
      var front := OutputIndices(history[..n]);
      assert forall i: nat :: IsOutput(history, i) <==> IsOutput(history[..n], i) || (i == n && history[n].Output?);
      assert n !in front;
    }
  }

  lemma ByLengthMeans(history: seq<Entry>)
    ensures Distinct(ByLength(history))
    ensures forall i: nat :: i in ByLength(history) <==> IsOutput(history, i)
    ensures forall k :: 0 <= k < |ByLength(history)| ==> IsOutput(history, ByLength(history)[k])
    ensures Nondecreasing(Characters(history, ByLength(history)))
  {
    OutputIndicesMean(history);
    var order := ByLength(history);
    SortKeepsDistinct(Shorter(history), OutputIndices(history));
    KeyOrderIsTotal((i: nat) => Key(history, i), Shorter(history));
    SortIsSorted(Shorter(history), OutputIndices(history));
    forall k | 0 <= k < |order| ensures IsOutput(history, order[k]) {
      assert order[k] in order;
    }
    var lengths := Characters(history, order);
    forall a, b | 0 <= a < b < |order| ensures lengths[a] <= lengths[b] {
      assert Shorter(history)(order[a], order[b]);
    }
  }

  /** What the loop has handed out after visiting the first `n` outputs. */
  datatype Handed = Handed(allocations: map<nat, nat>, remaining: nat)

  function HandOut(history: seq<Entry>, order: seq<nat>, n: nat): Handed
    requires n <= |order|
  {
    if n == 0 then Handed(map[], HISTORY_CHARACTERS)
    else
      var h := HandOut(history, order, n - 1);
      var share := Allowance(Width(history, order[n - 1]), h.remaining, |order| - (n - 1));
      Handed(h.allocations[order[n - 1] := share], h.remaining - share)
  }

  function Allowance(characters: nat, remaining: nat, left: nat): (r: nat)
    requires 0 < left
    ensures r <= remaining
  {
    QuotientBound(remaining, left);
    if characters < remaining / left then characters else remaining / left
  }

  /** How many characters each output may keep, by its place in the history. */
  method Allocate(history: seq<Entry>) returns (order: seq<nat>, allocations: map<nat, nat>)
    ensures order == ByLength(history)
    ensures allocations == HandOut(history, order, |order|).allocations
  {
    order := ByLength(history);
    ByLengthMeans(history);
    var remaining: nat := HISTORY_CHARACTERS;
    allocations := map[];
    for offset := 0 to |order|
      invariant Handed(allocations, remaining) == HandOut(history, order, offset)
    {
      var index := order[offset];
      var allowance := Allowance(history[index].characters, remaining, |order| - offset);
      allocations := allocations[index := allowance];
      remaining := remaining - allowance;
    }
  }

  /** The first `offset` outputs visited hold their shares, and no other output holds any. */
  ghost predicate Allocated(order: seq<nat>, shares: seq<nat>, offset: nat, allocations: map<nat, nat>)
    requires offset <= |order| == |shares|
  {
    && (forall i: nat :: i in allocations <==> i in order[..offset])
    && forall k :: 0 <= k < offset ==> order[k] in allocations && allocations[order[k]] == shares[k]
  }

  lemma AllocatedNext(order: seq<nat>, shares: seq<nat>, offset: nat, allocations: map<nat, nat>)
    requires Distinct(order) && offset < |order| == |shares| && Allocated(order, shares, offset, allocations)
    ensures Allocated(order, shares, offset + 1, allocations[order[offset] := shares[offset]])
  {
    assert order[..offset + 1] == order[..offset] + [order[offset]];
  }

  lemma ShareStep(lengths: seq<nat>, shares: seq<nat>, offset: nat, remaining: nat)
    requires offset < |lengths| == |shares| && Shares(lengths[offset..], remaining) == shares[offset..]
    ensures Allowance(lengths[offset], remaining, |lengths| - offset) == shares[offset] <= remaining
    ensures Shares(lengths[offset + 1..], remaining - shares[offset]) == shares[offset + 1..]
  {
    assert lengths[offset..][1..] == lengths[offset + 1..] && shares[offset..][1..] == shares[offset + 1..];
  }

  /** The outputs visited so far hold their shares, and the room left is what the rest will share. */
  ghost predicate OnCourse(lengths: seq<nat>, order: seq<nat>, shares: seq<nat>, n: nat, h: Handed)
    requires n <= |order| == |shares| == |lengths|
  {
    Allocated(order, shares, n, h.allocations) && Shares(lengths[n..], h.remaining) == shares[n..]
  }

  lemma OnCourseNext(lengths: seq<nat>, order: seq<nat>, shares: seq<nat>, n: nat, h: Handed)
    requires n < |order| == |shares| == |lengths| && Distinct(order) && OnCourse(lengths, order, shares, n, h)
    ensures var share := Allowance(lengths[n], h.remaining, |order| - n);
            OnCourse(lengths, order, shares, n + 1, Handed(h.allocations[order[n] := share], h.remaining - share))
  {
    ShareStep(lengths, shares, n, h.remaining);
    AllocatedNext(order, shares, n, h.allocations);
  }

  lemma OnCourseFirst(lengths: seq<nat>, order: seq<nat>, shares: seq<nat>)
    requires |order| == |shares| == |lengths| && shares == Shares(lengths, HISTORY_CHARACTERS)
    ensures OnCourse(lengths, order, shares, 0, Handed(map[], HISTORY_CHARACTERS))
  {
    assert lengths[0..] == lengths && shares[0..] == shares;
  }

  /** The loop hands out the fair shares. */
  lemma {:induction false} HandOutMeans(history: seq<Entry>, order: seq<nat>, shares: seq<nat>, n: nat)
    requires n <= |order| == |shares| && Distinct(order) && shares == Shares(Characters(history, order), HISTORY_CHARACTERS)
    ensures OnCourse(Characters(history, order), order, shares, n, HandOut(history, order, n))
  {
    if n == 0 {
      OnCourseFirst(Characters(history, order), order, shares);
    } else {
      HandOutMeans(history, order, shares, n - 1);
      OnCourseNext(Characters(history, order), order, shares, n - 1, HandOut(history, order, n - 1));
    }
  }

  function TotalCharacters(history: seq<Entry>): nat {
    if history == [] then 0
    else TotalCharacters(history[..|history| - 1]) + Width(history, |history| - 1)
  }

  lemma {:induction false} SumSplit(a: seq<nat>, b: seq<nat>)
    ensures Sum(a + b) == Sum(a) + Sum(b)
  {
    if a == [] {
      assert a + b == b;
    } else {
      SumSplit(a[1..], b);
      assert (a + b)[1..] == a[1..] + b;
    }
  }

  lemma {:induction false} SumOfInsert(history: seq<Entry>, leq: (nat, nat) -> bool, x: nat, s: seq<nat>)
    ensures Sum(Characters(history, Insert(leq, x, s))) == Width(history, x) + Sum(Characters(history, s))
  {
    if s == [] || leq(x, s[0]) {
      assert Characters(history, [x] + s)[1..] == Characters(history, s);
    } else {
      SumOfInsert(history, leq, x, s[1..]);
      assert Characters(history, s)[1..] == Characters(history, s[1..]);
      assert Characters(history, Insert(leq, x, s))[1..] == Characters(history, Insert(leq, x, s[1..]));
    }
  }

  lemma {:induction false} SumOfSort(history: seq<Entry>, leq: (nat, nat) -> bool, s: seq<nat>)
    ensures Sum(Characters(history, Sort(leq, s))) == Sum(Characters(history, s))
  {
    if s != [] {
      SumOfSort(history, leq, s[1..]);
      SumOfInsert(history, leq, s[0], Sort(leq, s[1..]));
      assert Characters(history, s)[1..] == Characters(history, s[1..]);
    }
  }

  lemma {:induction false} SumOfOutputs(history: seq<Entry>)
    ensures Sum(Characters(history, OutputIndices(history))) == TotalCharacters(history)
  {
    if history != [] {
      var n := |history| - 1;
      var front := OutputIndices(history[..n]);
      SumOfOutputs(history[..n]);
      OutputIndicesMean(history[..n]);
      assert forall i: nat :: i < n ==> Width(history, i) == Width(history[..n], i);
      forall k | 0 <= k < |front| ensures Characters(history, front)[k] == Characters(history[..n], front)[k] {
        assert IsOutput(history[..n], front[k]);
      }
      assert Characters(history, front) == Characters(history[..n], front);
      if history[n].Output? {
        assert Characters(history, OutputIndices(history)) == Characters(history, front) + [Width(history, n)];
        SumSplit(Characters(history, front), [Width(history, n)]);
      } else {
        assert OutputIndices(history) == front;
      }
    }
  }

  /** Over the limit, the outputs share exactly 6000 characters, fairly and by length. */
  lemma HistoryShares(history: seq<Entry>)
    requires TotalCharacters(history) > HISTORY_CHARACTERS
    ensures var lengths := Characters(history, ByLength(history));
            FairShares(lengths, HISTORY_CHARACTERS, Shares(lengths, HISTORY_CHARACTERS))
            && Sum(Shares(lengths, HISTORY_CHARACTERS)) == HISTORY_CHARACTERS
  {
    ByLengthMeans(history);
    SumOfSort(history, Shorter(history), OutputIndices(history));
    SumOfOutputs(history);
    SharesAreFair(Characters(history, ByLength(history)), HISTORY_CHARACTERS);
  }

  /** `after` is the output `before` cut to its share, with its new rendered length. */
  ghost predicate IsCut(size: Page -> nat, compact: Item -> Item, before: Entry, after: Entry, share: nat) {
    && before.Output? && after.Output?
    && after.characters == size(after.page)
    && IsBounded(size, compact, before.page, share, after.page)
  }

  method Cut(size: Page -> nat, compact: Item -> Item, entry: Entry, share: nat) returns (r: Entry)
    requires entry.Output?
    ensures IsCut(size, compact, entry, r, share)
  {
    var page := BoundedResponse(size, compact, entry.page, share);
    r := Output(size(page), page);
  }

  method CutOutputs(size: Page -> nat, compact: Item -> Item, history: seq<Entry>, allocations: map<nat, nat>) returns (r: seq<Entry>)
    requires forall i: nat :: IsOutput(history, i) ==> i in allocations
    ensures |r| == |history|
    ensures forall i: nat :: i < |history| ==>
              if IsOutput(history, i) then IsCut(size, compact, history[i], r[i], allocations[i]) else r[i] == history[i]
  {
    r := [];
    for i := 0 to |history|
      invariant |r| == i
      invariant forall j: nat :: j < i ==>
                  if IsOutput(history, j) then IsCut(size, compact, history[j], r[j], allocations[j]) else r[j] == history[j]
    {
      var entry := history[i];
      if IsOutput(history, i) {
        entry := Cut(size, compact, entry, allocations[i]);
      }
      r := r + [entry];
    }
  }

  /** What the model sees: within the limit the history itself; beyond it every output is
      cut to its share and every other entry stays. */
  method CompactHistory(size: Page -> nat, compact: Item -> Item, history: seq<Entry>) returns (r: seq<Entry>)
    ensures |r| == |history|
    ensures TotalCharacters(history) <= HISTORY_CHARACTERS ==> r == history
    ensures forall i :: 0 <= i < |history| && history[i].Other? ==> r[i] == history[i]
    ensures TotalCharacters(history) > HISTORY_CHARACTERS ==>
              forall k :: 0 <= k < |ByLength(history)| ==>
                IsOutput(history, ByLength(history)[k])
                && IsCut(size, compact, history[ByLength(history)[k]], r[ByLength(history)[k]],
                         Shares(Characters(history, ByLength(history)), HISTORY_CHARACTERS)[k])
  {
    if TotalCharacters(history) <= HISTORY_CHARACTERS {
      return history;
    }
    var order, allocations := Allocate(history);
    ByLengthMeans(history);
    HandOutMeans(history, order, Shares(Characters(history, order), HISTORY_CHARACTERS), |order|);
    assert order[..|order|] == order;
    r := CutOutputs(size, compact, history, allocations);
  }
}
