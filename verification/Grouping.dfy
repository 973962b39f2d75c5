/** Grouping by key in order of first appearance, as a dictionary of lists does it.
    A group grows at its end, a new key opens a group after all others, and nothing else moves.
    Used for trace operations, merged observations, signal families, anomaly segments and the
    votes of concluding agents.
 */
module Grouping {

  datatype Group<K, T> = Group(key: K, items: seq<T>)

  function AddToGroup<K(==), T>(keyOf: T -> K, groups: seq<Group<K, T>>, x: T): seq<Group<K, T>> {
    if groups == [] then [Group(keyOf(x), [x])]
    else if groups[0].key == keyOf(x) then [groups[0].(items := groups[0].items + [x])] + groups[1..]
    else [groups[0]] + AddToGroup(keyOf, groups[1..], x)
  }

  function GroupsOf<K(==), T>(keyOf: T -> K, s: seq<T>): seq<Group<K, T>> {
    if s == [] then [] else AddToGroup(keyOf, GroupsOf(keyOf, s[..|s| - 1]), s[|s| - 1])
  }

  ghost function GroupBag<K, T>(groups: seq<Group<K, T>>): multiset<T> {
    if groups == [] then multiset{} else multiset(groups[0].items) + GroupBag(groups[1..])
  }

  ghost predicate HoldsKey<K(!new), T>(keyOf: T -> K, g: Group<K, T>) {
    g.items != [] && forall x :: x in g.items ==> keyOf(x) == g.key
  }

  /** Nonempty groups with different keys, each holding only items of its key. */
  ghost predicate WellGrouped<K(!new), T>(keyOf: T -> K, groups: seq<Group<K, T>>) {
    && (forall i :: 0 <= i < |groups| ==> HoldsKey(keyOf, groups[i]))
    && (forall i, j :: 0 <= i < j < |groups| ==> groups[i].key != groups[j].key)
  }

  lemma {:induction false} AddToGroupBag<K, T>(keyOf: T -> K, groups: seq<Group<K, T>>, x: T)
    ensures GroupBag(AddToGroup(keyOf, groups, x)) == GroupBag(groups) + multiset{x}
  {
    if groups != [] {
      var after := AddToGroup(keyOf, groups, x);
      if groups[0].key != keyOf(x) {
        AddToGroupBag(keyOf, groups[1..], x);
        assert after[1..] == AddToGroup(keyOf, groups[1..], x);
      } else {
        assert after[1..] == groups[1..];
        assert after[0].items == groups[0].items + [x];
      }
    }
  }

  /** The group of `x` grows or is added; no other group changes. */
  lemma {:induction false} AddToGroupAt<K(!new), T>(keyOf: T -> K, groups: seq<Group<K, T>>, x: T) returns (i: nat)
    ensures i <= |groups| && forall j :: 0 <= j < i ==> groups[j].key != keyOf(x)
    ensures i < |groups| ==> groups[i].key == keyOf(x)
                             && AddToGroup(keyOf, groups, x) == groups[i := groups[i].(items := groups[i].items + [x])]
    ensures i == |groups| ==> AddToGroup(keyOf, groups, x) == groups + [Group(keyOf(x), [x])]
  {
    if groups == [] || groups[0].key == keyOf(x) {
      i := 0;
    } else {
      i := AddToGroupAt(keyOf, groups[1..], x);
      i := i + 1;
    }
  }

  lemma AddToGroupKeeps<K(!new), T(!new)>(keyOf: T -> K, groups: seq<Group<K, T>>, x: T)
    requires WellGrouped(keyOf, groups)
    ensures WellGrouped(keyOf, AddToGroup(keyOf, groups, x))
  {
    var i := AddToGroupAt(keyOf, groups, x);
    var after := AddToGroup(keyOf, groups, x);
    if i < |groups| {
      assert HoldsKey(keyOf, groups[i]);
      assert HoldsKey(keyOf, after[i]);
    } else {
      assert HoldsKey(keyOf, after[i]);
    }
  }

  /** Grouping loses and repeats nothing. */
  lemma {:induction false} GroupsKeepItems<K(!new), T(!new)>(keyOf: T -> K, s: seq<T>)
    ensures WellGrouped(keyOf, GroupsOf(keyOf, s))
    ensures GroupBag(GroupsOf(keyOf, s)) == multiset(s)
  {
    if s != [] {
      var n := |s| - 1;
      GroupsKeepItems(keyOf, s[..n]);
      AddToGroupKeeps(keyOf, GroupsOf(keyOf, s[..n]), s[n]);
      AddToGroupBag(keyOf, GroupsOf(keyOf, s[..n]), s[n]);
      assert s == s[..n] + [s[n]];
    }
  }

  method GroupBy<K(==), T>(keyOf: T -> K, s: seq<T>) returns (groups: seq<Group<K, T>>)
    ensures groups == GroupsOf(keyOf, s)
  {
    groups := [];
    for i := 0 to |s|
      invariant groups == GroupsOf(keyOf, s[..i])
    {
      assert s[..i + 1][..i] == s[..i];
      groups := AddToGroup(keyOf, groups, s[i]);
    }
    assert s[..|s|] == s;
  }
}
