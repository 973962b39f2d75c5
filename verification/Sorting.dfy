/** Stable sorting by a key order, as the built-in `sorted` and `list.sort` do it.
    A key tuple is a `seq<int>` compared lexicographically; text components of a key
    are only ever compared, so they appear as their rank in text order.
    Every order of this project compares by such a tuple or by a number, so it is total.
 */
module Sorting {

  ghost predicate TotalPreorder<T(!new)>(leq: (T, T) -> bool) {
    && (forall x, y :: leq(x, y) || leq(y, x))
    && (forall x, y, z :: leq(x, y) && leq(y, z) ==> leq(x, z))
  }

  ghost predicate Sorted<T>(leq: (T, T) -> bool, s: seq<T>) {
    forall i, j :: 0 <= i < j < |s| ==> leq(s[i], s[j])
  }

  /** `x` goes in front of the first element it does not exceed, so equal keys keep their order. */
  function Insert<T>(leq: (T, T) -> bool, x: T, s: seq<T>): (r: seq<T>)
    ensures |r| == |s| + 1
  {
    if s == [] || leq(x, s[0]) then [x] + s else [s[0]] + Insert(leq, x, s[1..])
  }

  function Sort<T>(leq: (T, T) -> bool, s: seq<T>): (r: seq<T>)
    ensures |r| == |s|
  {
    if s == [] then [] else Insert(leq, s[0], Sort(leq, s[1..]))
  }

  lemma {:induction false} InsertKeeps<T(!new)>(leq: (T, T) -> bool, x: T, s: seq<T>)
    ensures multiset(Insert(leq, x, s)) == multiset{x} + multiset(s)
    ensures TotalPreorder(leq) && Sorted(leq, s) ==> Sorted(leq, Insert(leq, x, s))
  {
    if s == [] || leq(x, s[0]) {
    } else {
      InsertKeeps(leq, x, s[1..]);
      assert s == [s[0]] + s[1..];
      var r := Insert(leq, x, s[1..]);
      if TotalPreorder(leq) && Sorted(leq, s) {
        forall k | 0 <= k < |r| ensures leq(s[0], r[k]) {
          assert r[k] in multiset(r);
          if r[k] != x {
            assert r[k] in s[1..];
          }
        }
      }
    }
  }

  /** The meaning of `sorted`: the same items, in key order. */
  lemma {:induction false} SortIsSorted<T(!new)>(leq: (T, T) -> bool, s: seq<T>)
    ensures multiset(Sort(leq, s)) == multiset(s)
    ensures TotalPreorder(leq) ==> Sorted(leq, Sort(leq, s))
  {
    if s != [] {
      SortIsSorted(leq, s[1..]);
      InsertKeeps(leq, s[0], Sort(leq, s[1..]));
      assert s == [s[0]] + s[1..];
    }
  }

  lemma SortMembers<T(!new)>(leq: (T, T) -> bool, s: seq<T>, x: T)
    ensures x in Sort(leq, s) <==> x in s
  {
    SortIsSorted(leq, s);
    assert x in Sort(leq, s) <==> x in multiset(Sort(leq, s));
    assert x in s <==> x in multiset(s);
  }

  ghost predicate Distinct<T>(s: seq<T>) {
    forall i, j :: 0 <= i < j < |s| ==> s[i] != s[j]
  }

  lemma {:induction false} InsertKeepsDistinct<T(!new)>(leq: (T, T) -> bool, x: T, s: seq<T>)
    requires Distinct(s) && x !in s
    ensures Distinct(Insert(leq, x, s))
    ensures forall y :: y in Insert(leq, x, s) <==> y == x || y in s
  {
    if s == [] || leq(x, s[0]) {
    } else {
      InsertKeepsDistinct(leq, x, s[1..]);
      var r := Insert(leq, x, s[1..]);
      assert s[0] !in r by {
        assert s[0] !in s[1..];
      }
      assert Distinct([s[0]] + r);
      assert forall y :: y in [s[0]] + r <==> y == s[0] || y in r;
      assert forall y :: y in s <==> y == s[0] || y in s[1..];
    }
  }

  lemma {:induction false} SortKeepsDistinct<T(!new)>(leq: (T, T) -> bool, s: seq<T>)
    requires Distinct(s)
    ensures Distinct(Sort(leq, s))
    ensures forall y :: y in Sort(leq, s) <==> y in s
  {
    if s != [] {
      SortKeepsDistinct(leq, s[1..]);
      InsertKeepsDistinct(leq, s[0], Sort(leq, s[1..]));
      assert s == [s[0]] + s[1..];
    }
  }

  /** Tuple comparison: first difference decides. */
  predicate LexLeq(a: seq<int>, b: seq<int>) {
    if a == [] then true
    else if b == [] then false
    else a[0] < b[0] || (a[0] == b[0] && LexLeq(a[1..], b[1..]))
  }

  lemma {:induction false} LexTotal(a: seq<int>, b: seq<int>)
    ensures LexLeq(a, b) || LexLeq(b, a)
  {
    if a != [] && b != [] && a[0] == b[0] {
      LexTotal(a[1..], b[1..]);
    }
  }

  lemma {:induction false} LexTransitive(a: seq<int>, b: seq<int>, c: seq<int>)
    requires LexLeq(a, b) && LexLeq(b, c)
    ensures LexLeq(a, c)
  {
    if a != [] && a[0] == b[0] == c[0] {
      LexTransitive(a[1..], b[1..], c[1..]);
    }
  }

  /** Comparing by any key tuple is a total preorder, so `SortIsSorted` applies. */
  lemma KeyOrderIsTotal<T(!new)>(key: T -> seq<int>, leq: (T, T) -> bool)
    requires forall x, y :: leq(x, y) == LexLeq(key(x), key(y))
    ensures TotalPreorder(leq)
  {
    forall x, y ensures leq(x, y) || leq(y, x) {
      LexTotal(key(x), key(y));
    }
    forall x, y, z | leq(x, y) && leq(y, z) ensures leq(x, z) {
      LexTransitive(key(x), key(y), key(z));
    }
  }
}
