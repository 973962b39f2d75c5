/** The comparison table loses nothing and invents nothing. */
module ComparisonLaws {
  import opened Comparison
  import opened Options
  import opened Sorting

  // ---------------------------------------------------------------- rows only grow

  ghost predicate RowGrows(a: Row, b: Row) {
    b == a.(cites := b.cites) && a.cites <= b.cites
  }

  ghost predicate RowsGrow(a: seq<Row>, b: seq<Row>) {
    |a| <= |b| && forall i :: 0 <= i < |a| ==> RowGrows(a[i], b[i])
  }

  ghost predicate GroupGrows(a: Group, b: Group) {
    a.key == b.key && (a.buckets.Some? ==> b.buckets == a.buckets) && RowsGrow(a.rows, b.rows)
  }

  ghost predicate GroupsGrow(a: seq<Group>, b: seq<Group>) {
    |a| <= |b| && forall i :: 0 <= i < |a| ==> GroupGrows(a[i], b[i])
  }

  lemma RowsGrowOn(a: seq<Row>, b: seq<Row>, c: seq<Row>)
    requires RowsGrow(a, b) && RowsGrow(b, c)
    ensures RowsGrow(a, c)
  {
    forall i | 0 <= i < |a| ensures RowGrows(a[i], c[i]) {
      assert RowGrows(a[i], b[i]) && RowGrows(b[i], c[i]);
    }
  }

  lemma GroupsGrowOn(a: seq<Group>, b: seq<Group>, c: seq<Group>)
    requires GroupsGrow(a, b) && GroupsGrow(b, c)
    ensures GroupsGrow(a, c)
  {
    forall i | 0 <= i < |a| ensures GroupGrows(a[i], c[i]) {
      assert GroupGrows(a[i], b[i]) && GroupGrows(b[i], c[i]);
      RowsGrowOn(a[i].rows, b[i].rows, c[i].rows);
    }
  }

  // ---------------------------------------------------------------- what a row carries

  /** The row holds the observation's name and numbers, and cites the item. */
  ghost predicate Carries(row: Row, o: Observation, id: int, trend: Option<seq<int>>) {
    && Movable(o)
    && row.name == o.name.value && row.before == o.before.value && row.after == o.after.value
    && row.trend == trend && id in row.cites
  }

  ghost predicate Carried(rows: seq<Row>, o: Observation, id: int, trend: Option<seq<int>>) {
    exists r :: 0 <= r < |rows| && Carries(rows[r], o, id, trend)
  }

  lemma CarriedStays(a: seq<Row>, b: seq<Row>, o: Observation, id: int, trend: Option<seq<int>>)
    requires RowsGrow(a, b) && Carried(a, o, id, trend)
    ensures Carried(b, o, id, trend)
  {
    var r :| 0 <= r < |a| && Carries(a[r], o, id, trend);
    assert RowGrows(a[r], b[r]);
    assert Carries(b[r], o, id, trend);
  }

  lemma PlaceCarries(sources: map<int, Basis>, rows: seq<Row>, item: Item, o: Observation, trend: Option<seq<int>>)
    ensures RowsGrow(rows, Place(sources, rows, item, o, trend).rows)
    ensures Place(sources, rows, item, o, trend).complete ==> Carried(Place(sources, rows, item, o, trend).rows, o, item.id, trend)
    ensures |rows| <= MAX_ROWS ==> |Place(sources, rows, item, o, trend).rows| <= MAX_ROWS
  {
    if Movable(o) {
      var after := Place(sources, rows, item, o, trend);
      var k := FirstMatch(sources, rows, o, trend, item.basis);
      if after.complete {
        assert Carries(after.rows[k], o, item.id, trend);
      }
    }
  }

  /** The first `n` observations of the item are in the rows. */
  ghost predicate AllCarried(rows: seq<Row>, item: Item, shape: Option<Shape>, n: nat)
    requires n <= |Observations(item)|
  {
    forall i: nat :: i < n ==> Carried(rows, Observations(item)[i], item.id, TrendAt(shape, i))
  }

  lemma AllCarriedStays(a: seq<Row>, b: seq<Row>, item: Item, shape: Option<Shape>, n: nat)
    requires n <= |Observations(item)| && RowsGrow(a, b) && AllCarried(a, item, shape, n)
    ensures AllCarried(b, item, shape, n)
  {
    forall i: nat | i < n ensures Carried(b, Observations(item)[i], item.id, TrendAt(shape, i)) {
      CarriedStays(a, b, Observations(item)[i], item.id, TrendAt(shape, i));
    }
  }

  lemma {:induction false} PlaceAllGrows(sources: map<int, Basis>, rows: seq<Row>, item: Item, shape: Option<Shape>, n: nat)
    requires n <= |Observations(item)|
    ensures RowsGrow(rows, PlaceAll(sources, rows, item, shape, n).rows)
    ensures |rows| <= MAX_ROWS ==> |PlaceAll(sources, rows, item, shape, n).rows| <= MAX_ROWS
  {
    if n > 0 {
      PlaceAllGrows(sources, rows, item, shape, n - 1);
      var p := PlaceAll(sources, rows, item, shape, n - 1);
      PlaceCarries(sources, p.rows, item, Observations(item)[n - 1], TrendAt(shape, n - 1));
      RowsGrowOn(rows, p.rows, PlaceAll(sources, rows, item, shape, n).rows);
    }
  }

  /** One more observation, placed after `n` carried ones. */
  lemma NextCarried(rows: seq<Row>, item: Item, shape: Option<Shape>, n: nat, after: seq<Row>)
    requires n < |Observations(item)| && AllCarried(rows, item, shape, n)
    requires RowsGrow(rows, after) && Carried(after, Observations(item)[n], item.id, TrendAt(shape, n))
    ensures AllCarried(after, item, shape, n + 1)
  {
    AllCarriedStays(rows, after, item, shape, n);
  }

  lemma {:induction false} PlaceAllCarries(sources: map<int, Basis>, rows: seq<Row>, item: Item, shape: Option<Shape>, n: nat)
    requires n <= |Observations(item)| && PlaceAll(sources, rows, item, shape, n).complete
    ensures AllCarried(PlaceAll(sources, rows, item, shape, n).rows, item, shape, n)
  {
    if n > 0 {
      var p := PlaceAll(sources, rows, item, shape, n - 1);
      PlaceAllCarries(sources, rows, item, shape, n - 1);
      var q := Place(sources, p.rows, item, Observations(item)[n - 1], TrendAt(shape, n - 1));
      PlaceCarries(sources, p.rows, item, Observations(item)[n - 1], TrendAt(shape, n - 1));
      NextCarried(p.rows, item, shape, n - 1, q.rows);
    }
  }

  // ---------------------------------------------------------------- what a citation stands on

  /** One of the item's observations has the row's name and numbers; a trend is that of the
      item's own profile, over the group's buckets. */
  ghost predicate BacksWith(item: Item, i: nat, row: Row, buckets: Option<seq<(int, int)>>) {
    && i < |Observations(item)|
    && var o := Observations(item)[i];
       && Movable(o) && row.name == o.name.value && row.before == o.before.value && row.after == o.after.value
       && (row.trend.Some? ==>
             && i == 0 && ShapeOf(item.profile).Some?
             && row.trend.value == ShapeOf(item.profile).value.means
             && buckets == Some(ShapeOf(item.profile).value.buckets))
  }

  ghost predicate Backs(item: Item, row: Row, buckets: Option<seq<(int, int)>>) {
    exists i: nat :: BacksWith(item, i, row, buckets)
  }

  /** Item `j` stands behind citation `c`: it is of the group, and shares the row's basis. */
  ghost predicate Behind(sources: map<int, Basis>, items: seq<Item>, j: nat, c: int, row: Row, key: Key, buckets: Option<seq<(int, int)>>) {
    && j < |items| && items[j].id == c
    && KeyOf(items[j]) == Some(key) && Backs(items[j], row, buckets)
    && SourceBasis(sources, row) == Some(items[j].basis)
  }

  ghost predicate Founded(sources: map<int, Basis>, items: seq<Item>, c: int, row: Row, key: Key, buckets: Option<seq<(int, int)>>) {
    exists j: nat :: Behind(sources, items, j, c, row, key, buckets)
  }

  ghost predicate RowReal(sources: map<int, Basis>, items: seq<Item>, row: Row, key: Key, buckets: Option<seq<(int, int)>>) {
    && row.cites != [] && row.delta == row.after - row.before
    && forall c :: c in row.cites ==> Founded(sources, items, c, row, key, buckets)
  }

  ghost predicate RowsReal(sources: map<int, Basis>, items: seq<Item>, rows: seq<Row>, key: Key, buckets: Option<seq<(int, int)>>) {
    forall r :: 0 <= r < |rows| ==> RowReal(sources, items, rows[r], key, buckets)
  }

  /** The last of `items` is being placed in the group `key`, whose buckets will be `buckets`. */
  ghost predicate Placing(sources: map<int, Basis>, items: seq<Item>, shape: Option<Shape>, key: Key, buckets: Option<seq<(int, int)>>) {
    && items != []
    && var item := items[|items| - 1];
       && KeyOf(item) == Some(key) && item.id in sources && sources[item.id] == item.basis
       && (shape.Some? ==> shape == ShapeOf(item.profile) && buckets == Some(shape.value.buckets))
  }

  lemma PlaceReal(sources: map<int, Basis>, items: seq<Item>, rows: seq<Row>, i: nat, shape: Option<Shape>, key: Key, buckets: Option<seq<(int, int)>>)
    requires Placing(sources, items, shape, key, buckets) && i < |Observations(items[|items| - 1])|
    requires RowsReal(sources, items, rows, key, buckets)
    ensures var item := items[|items| - 1];
            RowsReal(sources, items, Place(sources, rows, item, Observations(item)[i], TrendAt(shape, i)).rows, key, buckets)
  {
    var item := items[|items| - 1];
    var o, trend := Observations(item)[i], TrendAt(shape, i);
    if Movable(o) {
      var after := Place(sources, rows, item, o, trend).rows;
      var k := FirstMatch(sources, rows, o, trend, item.basis);
      if k < |after| && (k < |rows| || |rows| < MAX_ROWS) {
        PlacedRowReal(sources, items, if k < |rows| then rows[k].cites else [], after[k], i, shape, key, buckets, if k < |rows| then rows[k] else after[k]);
      }
      forall r | 0 <= r < |after| ensures RowReal(sources, items, after[r], key, buckets) {
        if r != k {
          assert after[r] == rows[r];
        }
      }
    }
  }

  /** A row that gained the placed item's citation. */
  lemma PlacedRowReal(sources: map<int, Basis>, items: seq<Item>, earlier: seq<int>, row: Row, i: nat, shape: Option<Shape>, key: Key, buckets: Option<seq<(int, int)>>, before: Row)
    requires Placing(sources, items, shape, key, buckets) && i < |Observations(items[|items| - 1])|
    requires var item := items[|items| - 1];
             && Carries(row, Observations(item)[i], item.id, TrendAt(shape, i))
             && SourceBasis(sources, row) == Some(item.basis) && row.delta == row.after - row.before
             && (forall c :: c in row.cites ==> c in earlier || c == item.id)
    requires forall c :: c in earlier ==> Founded(sources, items, c, before, key, buckets)
    requires earlier != [] ==> before.cites == earlier && earlier <= row.cites && row == before.(cites := row.cites)
    ensures RowReal(sources, items, row, key, buckets)
  {
    var item := items[|items| - 1];
    assert BacksWith(item, i, row, buckets);
    assert Behind(sources, items, |items| - 1, item.id, row, key, buckets);
    forall c | c in row.cites ensures Founded(sources, items, c, row, key, buckets) {
      if c != item.id {
        assert Founded(sources, items, c, before, key, buckets);
        var j: nat :| Behind(sources, items, j, c, before, key, buckets);
        var i2: nat :| BacksWith(items[j], i2, before, buckets);
        assert BacksWith(items[j], i2, row, buckets);
        assert Behind(sources, items, j, c, row, key, buckets);
      }
    }
  }

  lemma {:induction false} PlaceAllReal(sources: map<int, Basis>, items: seq<Item>, rows: seq<Row>, shape: Option<Shape>, n: nat, key: Key, buckets: Option<seq<(int, int)>>)
    requires Placing(sources, items, shape, key, buckets) && n <= |Observations(items[|items| - 1])|
    requires RowsReal(sources, items, rows, key, buckets)
    ensures RowsReal(sources, items, PlaceAll(sources, rows, items[|items| - 1], shape, n).rows, key, buckets)
  {
    if n > 0 {
      PlaceAllReal(sources, items, rows, shape, n - 1, key, buckets);
      PlaceReal(sources, items, PlaceAll(sources, rows, items[|items| - 1], shape, n - 1).rows, n - 1, shape, key, buckets);
    }
  }

  // ---------------------------------------------------------------- the whole table

  ghost predicate GroupSound(sources: map<int, Basis>, items: seq<Item>, g: Group) {
    |g.rows| <= MAX_ROWS && RowsReal(sources, items, g.rows, g.key, g.buckets)
  }

  /** At most six groups with different keys, at most 32 rows each, every citation founded. */
  ghost predicate TableSound(sources: map<int, Basis>, items: seq<Item>, groups: seq<Group>) {
    && |groups| <= MAX_GROUPS
    && (forall k :: 0 <= k < |groups| ==> GroupSound(sources, items, groups[k]))
    && (forall i, j :: 0 <= i < j < |groups| ==> groups[i].key != groups[j].key)
  }

  /** The item's numbers are in a group of its own entities and window, and what is left of the
      item is the item without them; a profile goes only where the group keeps its buckets. */
  ghost predicate MovedTo(item: Item, after: Item, g: Group, profileMoved: bool) {
    && KeyOf(item) == Some(g.key)
    && (profileMoved ==> ShapeOf(item.profile).Some? && g.buckets == Some(ShapeOf(item.profile).value.buckets))
    && AllCarried(g.rows, item, if profileMoved then ShapeOf(item.profile) else None, |Observations(item)|)
    && after == Strip(item, profileMoved)
  }

  ghost predicate Moved(item: Item, after: Item, groups: seq<Group>) {
    exists k, profileMoved :: 0 <= k < |groups| && MovedTo(item, after, groups[k], profileMoved)
  }

  lemma MovedStays(item: Item, after: Item, a: seq<Group>, b: seq<Group>)
    requires Moved(item, after, a) && GroupsGrow(a, b)
    ensures Moved(item, after, b)
  {
    var k, profileMoved :| 0 <= k < |a| && MovedTo(item, after, a[k], profileMoved);
    assert GroupGrows(a[k], b[k]);
    AllCarriedStays(a[k].rows, b[k].rows, item, if profileMoved then ShapeOf(item.profile) else None, |Observations(item)|);
    assert MovedTo(item, after, b[k], profileMoved);
  }

  lemma MoreItemsRow(sources: map<int, Basis>, items: seq<Item>, more: seq<Item>, row: Row, key: Key, buckets: Option<seq<(int, int)>>, wider: Option<seq<(int, int)>>)
    requires RowReal(sources, items, row, key, buckets) && items <= more && (buckets.Some? ==> wider == buckets)
    ensures RowReal(sources, more, row, key, wider)
  {
    forall c | c in row.cites ensures Founded(sources, more, c, row, key, wider) {
      assert Founded(sources, items, c, row, key, buckets);
      var j: nat :| Behind(sources, items, j, c, row, key, buckets);
      var i: nat :| BacksWith(items[j], i, row, buckets);
      assert BacksWith(more[j], i, row, wider);
      assert Behind(sources, more, j, c, row, key, wider);
    }
  }

  lemma MoreItems(sources: map<int, Basis>, items: seq<Item>, more: seq<Item>, g: Group, wider: Option<seq<(int, int)>>)
    requires GroupSound(sources, items, g) && items <= more && (g.buckets.Some? ==> wider == g.buckets)
    ensures GroupSound(sources, more, g.(buckets := wider))
  {
    forall r | 0 <= r < |g.rows| ensures RowReal(sources, more, g.rows[r], g.key, wider) {
      MoreItemsRow(sources, items, more, g.rows[r], g.key, g.buckets, wider);
    }
  }

  lemma MoreItemsTable(sources: map<int, Basis>, items: seq<Item>, more: seq<Item>, groups: seq<Group>)
    requires TableSound(sources, items, groups) && items <= more
    ensures TableSound(sources, more, groups)
  {
    forall k | 0 <= k < |groups| ensures GroupSound(sources, more, groups[k]) {
      MoreItems(sources, items, more, groups[k], groups[k].buckets);
      assert groups[k].(buckets := groups[k].buckets) == groups[k];
    }
  }

  lemma FilledSound(sources: map<int, Basis>, items: seq<Item>, g: Group, item: Item)
    requires GroupSound(sources, items, g) && KeyOf(item) == Some(g.key)
    requires item.id in sources && sources[item.id] == item.basis
    ensures GroupSound(sources, items + [item], Filled(sources, g, item).0)
    ensures GroupGrows(g, Filled(sources, g, item).0)
    ensures Complete(item, Filled(sources, g, item).1) ==>
              MovedTo(item, Strip(item, Comparable(g, item).Some?), Filled(sources, g, item).0, Comparable(g, item).Some?)
  {
    var shape, n := Comparable(g, item), |Observations(item)|;
    var buckets := if shape.Some? then Some(shape.value.buckets) else g.buckets;
    MoreItems(sources, items, items + [item], g, buckets);
    PlaceAllReal(sources, items + [item], g.rows, shape, n, g.key, buckets);
    PlaceAllGrows(sources, g.rows, item, shape, n);
    if PlaceAll(sources, g.rows, item, shape, n).complete {
      PlaceAllCarries(sources, g.rows, item, shape, n);
    }
  }

  lemma {:induction false} FindIsFirst(groups: seq<Group>, key: Key)
    ensures Find(groups, key) == |groups| ==> forall k :: 0 <= k < |groups| ==> groups[k].key != key
  {
    if groups != [] {
      FindIsFirst(groups[1..], key);
    }
  }

  lemma OpenedSound(sources: map<int, Basis>, items: seq<Item>, groups: seq<Group>, key: Key)
    requires TableSound(sources, items, groups) && (Find(groups, key) < |groups| || |groups| < MAX_GROUPS)
    ensures TableSound(sources, items, Opened(groups, key))
    ensures GroupsGrow(groups, Opened(groups, key))
  {
    FindIsFirst(groups, key);
  }

  lemma StepSound(sources: map<int, Basis>, items: seq<Item>, table: Table, item: Item)
    requires TableSound(sources, items, table.groups) && item.id in sources && sources[item.id] == item.basis
    ensures TableSound(sources, items + [item], Step(sources, table, item).0.groups)
    ensures GroupsGrow(table.groups, Step(sources, table, item).0.groups)
    ensures Step(sources, table, item).1 == item || Moved(item, Step(sources, table, item).1, Step(sources, table, item).0.groups)
  {
    MoreItemsTable(sources, items, items + [item], table.groups);
    if KeyOf(item).Some? {
      var key := KeyOf(item).value;
      if Find(table.groups, key) < |table.groups| || |table.groups| < MAX_GROUPS {
        OpenedSound(sources, items, table.groups, key);
        OpenedFinds(table.groups, key);
        var groups := Opened(table.groups, key);
        var k := Find(groups, key);
        var (g, p) := Filled(sources, groups[k], item);
        FilledSound(sources, items, groups[k], item);
        ReplacedSound(sources, items, groups, k, g, item);
        GroupsGrowOn(table.groups, groups, groups[k := g]);
        if Complete(item, p) {
          assert MovedTo(item, Strip(item, Comparable(groups[k], item).Some?), groups[k := g][k], Comparable(groups[k], item).Some?);
        }
      }
    }
  }

  lemma ReplacedSound(sources: map<int, Basis>, items: seq<Item>, groups: seq<Group>, k: nat, g: Group, item: Item)
    requires TableSound(sources, items, groups) && k < |groups|
    requires GroupSound(sources, items + [item], g) && GroupGrows(groups[k], g)
    ensures TableSound(sources, items + [item], groups[k := g])
    ensures GroupsGrow(groups, groups[k := g])
  {
    MoreItemsTable(sources, items, items + [item], groups);
  }

  // ---------------------------------------------------------------- main results

  ghost predicate DistinctIds(evidence: seq<Item>) {
    forall i, j :: 0 <= i < j < |evidence| ==> evidence[i].id != evidence[j].id
  }

  lemma {:induction false} SourcesMean(evidence: seq<Item>, i: nat)
    requires DistinctIds(evidence) && i < |evidence|
    ensures evidence[i].id in Sources(evidence) && Sources(evidence)[evidence[i].id] == evidence[i].basis
  {
    if i < |evidence| - 1 {
      SourcesMean(evidence[..|evidence| - 1], i);
    }
  }

  /** Whatever was taken out of an item is in a row of the item's own group that cites it. */
  ghost predicate AllMoved(evidence: seq<Item>, items: seq<Item>, groups: seq<Group>) {
    |items| <= |evidence| && forall i :: 0 <= i < |items| ==> items[i] == evidence[i] || Moved(evidence[i], items[i], groups)
  }

  lemma AllMovedStays(evidence: seq<Item>, items: seq<Item>, a: seq<Group>, b: seq<Group>)
    requires AllMoved(evidence, items, a) && GroupsGrow(a, b)
    ensures AllMoved(evidence, items, b)
  {
    forall i | 0 <= i < |items| ensures items[i] == evidence[i] || Moved(evidence[i], items[i], b) {
      if items[i] != evidence[i] {
        MovedStays(evidence[i], items[i], a, b);
      }
    }
  }

  lemma NextMoved(sources: map<int, Basis>, evidence: seq<Item>, table: Table, items: seq<Item>)
    requires |items| < |evidence|
    requires TableSound(sources, evidence[..|items|], table.groups) && AllMoved(evidence, items, table.groups)
    requires evidence[|items|].id in sources && sources[evidence[|items|].id] == evidence[|items|].basis
    ensures var (after, item) := Step(sources, table, evidence[|items|]);
            TableSound(sources, evidence[..|items| + 1], after.groups) && AllMoved(evidence, items + [item], after.groups)
  {
    var next := evidence[|items|];
    StepSound(sources, evidence[..|items|], table, next);
    assert evidence[..|items| + 1] == evidence[..|items|] + [next];
    AllMovedStays(evidence, items, table.groups, Step(sources, table, next).0.groups);
  }

  /** The table loses nothing that it took out of an item, and every citation in it is an
      observation of the cited item. */
  lemma {:induction false} ComparisonIsLossless(evidence: seq<Item>, n: nat)
    requires DistinctIds(evidence) && n <= |evidence|
    ensures TableSound(Sources(evidence), evidence[..n], Run(Sources(evidence), evidence, n).0.groups)
    ensures AllMoved(evidence, Run(Sources(evidence), evidence, n).1, Run(Sources(evidence), evidence, n).0.groups)
  {
    if n > 0 {
      ComparisonIsLossless(evidence, n - 1);
      SourcesMean(evidence, n - 1);
      NextMoved(Sources(evidence), evidence, Run(Sources(evidence), evidence, n - 1).0, Run(Sources(evidence), evidence, n - 1).1);
    }
  }

  // ---------------------------------------------------------------- when everything moves

  ghost predicate CanMove(item: Item) {
    KeyOf(item).Some? && !item.related.NotAList? && forall i :: 0 <= i < |Observations(item)| ==> Movable(Observations(item)[i])
  }

  lemma {:induction false} PlaceAllFits(sources: map<int, Basis>, rows: seq<Row>, item: Item, shape: Option<Shape>, n: nat)
    requires CanMove(item) && n <= |Observations(item)| && PlaceAll(sources, rows, item, shape, n).omitted == 0
    ensures PlaceAll(sources, rows, item, shape, n).complete
  {
    if n > 0 {
      PlaceAllFits(sources, rows, item, shape, n - 1);
    }
  }

  lemma OmittedGrows(sources: map<int, Basis>, table: Table, item: Item)
    ensures table.omitted <= Step(sources, table, item).0.omitted
  {
    if KeyOf(item).Some? {
      OpenedFinds(table.groups, KeyOf(item).value);
    }
  }

  /** If nothing was left out of the table, every item whose observations are all complete has
      been stripped of its numbers. */
  lemma {:induction false} NothingOmittedMovesAll(sources: map<int, Basis>, evidence: seq<Item>, n: nat, i: nat)
    requires i < n <= |evidence| && CanMove(evidence[i])
    requires Run(sources, evidence, n).0.omitted == 0
    ensures exists profileMoved :: Run(sources, evidence, n).1[i] == Strip(evidence[i], profileMoved)
    decreases n
  {
    var (table, items) := Run(sources, evidence, n - 1);
    OmittedGrows(sources, table, evidence[n - 1]);
    if i < n - 1 {
      NothingOmittedMovesAll(sources, evidence, n - 1, i);
    } else {
      var item := evidence[i];
      var key := KeyOf(item).value;
      OpenedFinds(table.groups, key);
      var groups := Opened(table.groups, key);
      var g := groups[Find(groups, key)];
      PlaceAllFits(sources, g.rows, item, Comparable(g, item), |Observations(item)|);
      assert Run(sources, evidence, n).1[i] == Strip(item, Comparable(g, item).Some?);
    }
  }
}
