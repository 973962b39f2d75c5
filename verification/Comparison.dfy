/** Moving metric values out of evidence items into a bounded comparison table.
    Items of the same entities and window share a group; equal observations of the same unit,
    semantics and aggregation share a row, which cites its items.
    An item is stripped of its numbers only when all of its observations found a place; otherwise
    it stays as it was, and what did find a place is also in the table. */
module Comparison {
  import opened Options
  import opened Sorting

  const MAX_GROUPS := 6
  const MAX_ROWS := 32
  const MAX_BUCKETS := 8

  /** A field that is absent, a finite number, or anything else. */
  datatype Field = Absent | Number(value: int) | NotANumber(body: nat)

  /** `name` is None unless it is a nonempty text. */
  datatype Observation = Observation(name: Option<int>, before: Field, after: Field, rest: nat) | NotAnObject(body: nat)

  /** Times are None unless they are valid and carry a time zone. */
  datatype Bucket = Bucket(start: Option<int>, end: Option<int>, mean: Field) | NotABucket(body: nat)

  /** A list-valued field; a missing one reads as the empty list. */
  datatype Listed<T> = Missing | Values(values: seq<T>) | NotAList(body: nat)

  /** Unit, value semantics and aggregation. */
  datatype Basis = Basis(unit: int, semantics: int, aggregation: int)

  datatype Item = Item(
    id: int, isTrend: bool, entities: set<int>,
    windowStart: Option<int>, splitAt: Option<int>, windowEnd: Option<int>,
    name: Option<int>, before: Field, after: Field,
    profile: Listed<Bucket>, related: Listed<Observation>, basis: Basis, rest: nat)

  datatype Key = Key(entities: set<int>, windowStart: int, splitAt: int, windowEnd: int)

  datatype Shape = Shape(buckets: seq<(int, int)>, means: seq<int>)

  datatype Row = Row(name: int, before: int, after: int, delta: int, cites: seq<int>, trend: Option<seq<int>>)

  datatype Group = Group(key: Key, buckets: Option<seq<(int, int)>>, rows: seq<Row>)

  datatype Table = Table(groups: seq<Group>, omitted: nat)

  // ---------------------------------------------------------------- reading an item

  function KeyOf(item: Item): Option<Key> {
    if !item.isTrend || item.entities == {} || item.windowStart.None? || item.splitAt.None? || item.windowEnd.None? then None
    else if !(item.windowStart.value < item.splitAt.value <= item.windowEnd.value) then None
    else Some(Key(item.entities, item.windowStart.value, item.splitAt.value, item.windowEnd.value))
  }

  predicate UsableBucket(b: Bucket) {
    b.Bucket? && b.start.Some? && b.end.Some? && b.start.value <= b.end.value && b.mean.Number?
  }

  /** The buckets and means of a profile that can stand in a row, if it can. */
  function ShapeOf(profile: Listed<Bucket>): Option<Shape> {
    if profile.Values? && 0 < |profile.values| <= MAX_BUCKETS && forall i :: 0 <= i < |profile.values| ==> UsableBucket(profile.values[i]) then
      var v := profile.values;
      Some(Shape(seq(|v|, i requires 0 <= i < |v| => (v[i].start.value, v[i].end.value)),
                 seq(|v|, i requires 0 <= i < |v| => v[i].mean.value)))
    else None
  }

  function ListOf<T>(l: Listed<T>): seq<T> {
    if l.Values? then l.values else []
  }

  /** The item's own observation, then its related ones. */
  function Observations(item: Item): (r: seq<Observation>)
    ensures r != []
  {
    [Observation(item.name, item.before, item.after, 0)] + ListOf(item.related)
  }

  predicate Movable(o: Observation) {
    o.Observation? && o.name.Some? && o.before.Number? && o.after.Number?
  }

  function Sources(evidence: seq<Item>): map<int, Basis> {
    if evidence == [] then map[] else Sources(evidence[..|evidence| - 1])[evidence[|evidence| - 1].id := evidence[|evidence| - 1].basis]
  }

  function SourceBasis(sources: map<int, Basis>, row: Row): Option<Basis> {
    if row.cites == [] || row.cites[0] !in sources then None else Some(sources[row.cites[0]])
  }

  // ---------------------------------------------------------------- one observation

  predicate Matches(sources: map<int, Basis>, row: Row, o: Observation, trend: Option<seq<int>>, basis: Basis)
    requires Movable(o)
  {
    row.name == o.name.value && row.before == o.before.value && row.after == o.after.value
    && row.trend == trend && SourceBasis(sources, row) == Some(basis)
  }

  function FirstMatch(sources: map<int, Basis>, rows: seq<Row>, o: Observation, trend: Option<seq<int>>, basis: Basis): (r: nat)
    requires Movable(o)
    ensures r <= |rows| && (r < |rows| ==> Matches(sources, rows[r], o, trend, basis))
  {
    if rows == [] || Matches(sources, rows[0], o, trend, basis) then 0
    else 1 + FirstMatch(sources, rows[1..], o, trend, basis)
  }

  function Cite(row: Row, id: int): Row {
    if id in row.cites then row else row.(cites := row.cites + [id])
  }

  datatype Placed = Placed(rows: seq<Row>, complete: bool, omitted: nat)

  function Place(sources: map<int, Basis>, rows: seq<Row>, item: Item, o: Observation, trend: Option<seq<int>>): Placed {
    if !Movable(o) then Placed(rows, false, 0)
    else
      var k := FirstMatch(sources, rows, o, trend, item.basis);
      if k < |rows| then Placed(rows[k := Cite(rows[k], item.id)], true, 0)
      else if |rows| >= MAX_ROWS then Placed(rows, false, 1)
      else Placed(rows + [Row(o.name.value, o.before.value, o.after.value, o.after.value - o.before.value, [item.id], trend)], true, 0)
  }

  function TrendAt(shape: Option<Shape>, i: nat): Option<seq<int>> {
    if i == 0 && shape.Some? then Some(shape.value.means) else None
  }

  /** The first `n` observations of the item placed one after another. */
  function PlaceAll(sources: map<int, Basis>, rows: seq<Row>, item: Item, shape: Option<Shape>, n: nat): Placed
    requires n <= |Observations(item)|
  {
    if n == 0 then Placed(rows, true, 0)
    else
      var p := PlaceAll(sources, rows, item, shape, n - 1);
      var q := Place(sources, p.rows, item, Observations(item)[n - 1], TrendAt(shape, n - 1));
      Placed(q.rows, p.complete && q.complete, p.omitted + q.omitted)
  }

  // ---------------------------------------------------------------- one item

  function Find(groups: seq<Group>, key: Key): (r: nat)
    ensures r <= |groups| && (r < |groups| ==> groups[r].key == key)
  {
    if groups == [] || groups[0].key == key then 0 else 1 + Find(groups[1..], key)
  }

  /** The profile's shape if it may join the group: no buckets there yet, or the same ones. */
  function Comparable(g: Group, item: Item): Option<Shape> {
    var shape := ShapeOf(item.profile);
    if shape.Some? && (g.buckets.None? || g.buckets.value == shape.value.buckets) then shape else None
  }

  function StripObservation(o: Observation): Observation {
    if o.Observation? then o.(before := Absent, after := Absent) else o
  }

  function Strip(item: Item, profileMoved: bool): Item {
    item.(before := Absent, after := Absent,
          profile := if profileMoved then Missing else item.profile,
          related := if item.related.Values? then
                       Values(seq(|item.related.values|, i requires 0 <= i < |item.related.values| => StripObservation(item.related.values[i])))
                     else item.related)
  }

  /** The group the item goes to, before its observations are placed. */
  function Opened(groups: seq<Group>, key: Key): seq<Group> {
    if Find(groups, key) < |groups| then groups else groups + [Group(key, None, [])]
  }

  lemma OpenedFinds(groups: seq<Group>, key: Key)
    ensures Find(Opened(groups, key), key) < |Opened(groups, key)|
    ensures Find(groups, key) == |groups| ==> Find(Opened(groups, key), key) == |groups|
  {
    if Find(groups, key) == |groups| {
      FindAppended(groups, key);
    }
  }

  lemma {:induction false} FindAppended(groups: seq<Group>, key: Key)
    requires Find(groups, key) == |groups|
    ensures Find(groups + [Group(key, None, [])], key) == |groups|
  {
    if groups != [] {
      FindAppended(groups[1..], key);
      assert (groups + [Group(key, None, [])])[1..] == groups[1..] + [Group(key, None, [])];
    }
  }

  function Filled(sources: map<int, Basis>, g: Group, item: Item): (r: (Group, Placed))
    ensures r.0.key == g.key
  {
    var shape := Comparable(g, item);
    var p := PlaceAll(sources, g.rows, item, shape, |Observations(item)|);
    (Group(g.key, if shape.Some? then Some(shape.value.buckets) else g.buckets, p.rows), p)
  }

  predicate Complete(item: Item, p: Placed) {
    p.complete && !item.related.NotAList?
  }

  function Step(sources: map<int, Basis>, table: Table, item: Item): (Table, Item) {
    if KeyOf(item).None? then (table, item)
    else
      var key := KeyOf(item).value;
      if Find(table.groups, key) == |table.groups| && |table.groups| >= MAX_GROUPS then (table.(omitted := table.omitted + 1), item)
      else
        OpenedFinds(table.groups, key);
        var groups := Opened(table.groups, key);
        var k := Find(groups, key);
        var (g, p) := Filled(sources, groups[k], item);
        (Table(groups[k := g], table.omitted + p.omitted),
         if Complete(item, p) then Strip(item, Comparable(groups[k], item).Some?) else item)
  }

  function Run(sources: map<int, Basis>, evidence: seq<Item>, n: nat): (r: (Table, seq<Item>))
    requires n <= |evidence|
    ensures |r.1| == n
  {
    if n == 0 then (Table([], 0), [])
    else
      var (table, done) := Run(sources, evidence, n - 1);
      var (after, item) := Step(sources, table, evidence[n - 1]);
      (after, done + [item])
  }

  // ---------------------------------------------------------------- the loops

  method PlaceObservations(sources: map<int, Basis>, g: Group, item: Item) returns (rows: seq<Row>, complete: bool, omitted: nat)
    ensures Placed(rows, complete, omitted) == PlaceAll(sources, g.rows, item, Comparable(g, item), |Observations(item)|)
  {
    var shape := Comparable(g, item);
    var observations := Observations(item);
    rows, complete, omitted := g.rows, true, 0;
    for i := 0 to |observations|
      invariant Placed(rows, complete, omitted) == PlaceAll(sources, g.rows, item, shape, i)
    {
      var o := observations[i];
      var trend := TrendAt(shape, i);
      if !Movable(o) {
        complete := false;
        continue;
      }
      var k := FirstMatch(sources, rows, o, trend, item.basis);
      if k < |rows| {
        rows := rows[k := Cite(rows[k], item.id)];
      } else if |rows| >= MAX_ROWS {
        omitted := omitted + 1;
        complete := false;
      } else {
        rows := rows + [Row(o.name.value, o.before.value, o.after.value, o.after.value - o.before.value, [item.id], trend)];
      }
    }
  }

  /** One pass of the outer loop. */
  method CompareItem(sources: map<int, Basis>, table: Table, item: Item) returns (after: Table, left: Item)
    ensures (after, left) == Step(sources, table, item)
  {
    var key := KeyOf(item);
    if key.None? {
      return table, item;
    }
    var groups := table.groups;
    var k := Find(groups, key.value);
    if k == |groups| && |groups| >= MAX_GROUPS {
      return table.(omitted := table.omitted + 1), item;
    }
    OpenedFinds(groups, key.value);
    groups := Opened(groups, key.value);
    k := Find(groups, key.value);
    var shape := Comparable(groups[k], item);
    var rows, placed, omitted := PlaceObservations(sources, groups[k], item);
    groups := groups[k := Group(key.value, if shape.Some? then Some(shape.value.buckets) else groups[k].buckets, rows)];
    after := Table(groups, table.omitted + omitted);
    left := if placed && !item.related.NotAList? then Strip(item, shape.Some?) else item;
  }

  method CompareEvidence(evidence: seq<Item>) returns (table: Table, items: seq<Item>)
    ensures (table, items) == Run(Sources(evidence), evidence, |evidence|)
  {
    var sources := Sources(evidence);
    table, items := Table([], 0), [];
    for n := 0 to |evidence|
      invariant (table, items) == Run(sources, evidence, n)
    {
      var left;
      table, left := CompareItem(sources, table, evidence[n]);
      items := items + [left];
    }
  }
}
